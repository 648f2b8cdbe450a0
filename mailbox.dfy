/**
 * The mailbox client of email_manager.py: the generated local part, the
 * address-creation reply, and the polling loop that extracts a six-character
 * verification code from the newest message.
 */
module Mailbox {
  import opened Wrappers
  import opened Text

  /** `string.ascii_lowercase` */
  const AsciiLowercase: string := "abcdefghijklmnopqrstuvwxyz"
  /** `string.digits` */
  const Digits: string := "0123456789"

  /** `alphabet` is the `n` consecutive characters from `first` on. */
  predicate IsRun(alphabet: string, first: char, n: nat) {
    |alphabet| == n && forall k :: 0 <= k < n ==> alphabet[k] as int == first as int + k
  }

  lemma AlphabetsAreRuns()
    ensures IsRun(AsciiLowercase, 'a', 26) && IsRun(Digits, '0', 10)
  {
  }

  const DefaultMaxRetries := 30
  const CodeLength := 6
  const OkStatus := 200

  /** Four lower-case letters, two digits, three lower-case letters. */
  predicate NameShape(s: string) {
    && |s| == 9
    && (forall i :: 0 <= i < 4 ==> IsAsciiLower(s[i]))
    && (forall i :: 4 <= i < 6 ==> IsDigit(s[i]))
    && (forall i :: 6 <= i < 9 ==> IsAsciiLower(s[i]))
  }

  /** `k` random indexes below `bound`, the draws `random.choices(alphabet, k=k)` makes. */
  predicate Draws(picks: seq<nat>, k: nat, bound: nat) {
    |picks| == k && forall i :: 0 <= i < k ==> picks[i] < bound
  }

  /** `''.join(random.choices(alphabet, k=len(picks)))` with the draws given. */
  function Choices(alphabet: string, picks: seq<nat>): (r: string)
    requires forall i :: 0 <= i < |picks| ==> picks[i] < |alphabet|
    ensures |r| == |picks|
    ensures forall i :: 0 <= i < |picks| ==> r[i] == alphabet[picks[i]]
  {
    if picks == [] then [] else [alphabet[picks[0]]] + Choices(alphabet, picks[1..])
  }

  /** `generate_random_name`, with the random draws as parameters. */
  function GenerateRandomName(letters1: seq<nat>, numbers: seq<nat>, letters2: seq<nat>): (name: string)
    requires Draws(letters1, 4, 26) && Draws(numbers, 2, 10) && Draws(letters2, 3, 26)
    ensures NameShape(name)
  {
    AlphabetsAreRuns();
    Choices(AsciiLowercase, letters1) + Choices(Digits, numbers) + Choices(AsciiLowercase, letters2)
  }

  /** Text drawn from a run of characters is reproduced by the draws of its offsets. */
  lemma ChoicesFromRun(alphabet: string, first: char, n: nat, s: string) returns (picks: seq<nat>)
    requires IsRun(alphabet, first, n)
    requires forall i :: 0 <= i < |s| ==> first as int <= s[i] as int < first as int + n
    ensures Draws(picks, |s|, n) && Choices(alphabet, picks) == s
  {
    picks := seq(|s|, i requires 0 <= i < |s| => (s[i] as int - first as int) as nat);
    var r := Choices(alphabet, picks);
    assert forall i :: 0 <= i < |s| ==> r[i] as int == s[i] as int;
  }

  /** Conversely, every name of that shape is produced by some draws. */
  lemma EveryShapedNameIsGenerated(name: string)
    requires NameShape(name)
    ensures exists letters1, numbers, letters2 ::
      Draws(letters1, 4, 26) && Draws(numbers, 2, 10) && Draws(letters2, 3, 26)
      && GenerateRandomName(letters1, numbers, letters2) == name
  {
    AlphabetsAreRuns();
    var letters1 := ChoicesFromRun(AsciiLowercase, 'a', 26, name[..4]);
    var numbers := ChoicesFromRun(Digits, '0', 10, name[4..6]);
    var letters2 := ChoicesFromRun(AsciiLowercase, 'a', 26, name[6..]);
    assert name == name[..4] + name[4..6] + name[6..];
    assert GenerateRandomName(letters1, numbers, letters2) == name;
  }

  /** An `EmailManager`: one provider's endpoint host, mail domain and admin secret. */
  datatype EmailManager = EmailManager(workerDomain: string, emailDomain: string, adminPassword: string)

  /** The `POST` that `create_email` sends: the URL, the JSON body (`enablePrefix`, `name`, `domain`) and the `x-admin-auth` header. */
  datatype NewAddressRequest = NewAddressRequest(url: string, enablePrefix: bool, name: string, domain: string, adminAuth: string)

  /** The reply: the call raised (transport error, unreadable JSON), or a status with the `jwt` and `address` fields. */
  datatype CreateReply = CreateRaised | CreateResponse(status: int, jwt: Option<string>, address: Option<string>)

  function NewAddressRequestFor(m: EmailManager, username: string, generated: string): NewAddressRequest {
    NewAddressRequest("https://" + m.workerDomain + "/admin/new_address", true, OrElse(username, generated), m.emailDomain, m.adminPassword)
  }

  /**
   * `create_email`: post the request, answered by `server`; only a 200 reply
   * yields the `(jwt, address)` pair, anything else `(None, None)`.
   */
  function CreateEmail(m: EmailManager, username: string, generated: string, server: NewAddressRequest -> CreateReply): (r: (Option<string>, Option<string>))
    ensures var reply := server(NewAddressRequestFor(m, username, generated));
      if reply.CreateResponse? && reply.status == OkStatus then r == (reply.jwt, reply.address) else r == (None, None)
  {
    match server(NewAddressRequestFor(m, username, generated))
    case CreateResponse(status, jwt, address) =>
      if status == OkStatus then (jwt, address) else (None, None)
    case CreateRaised => (None, None)
  }

  // ---------------------------------------------------------------------------
  // Quoted-printable clean-up

  /** `raw.replace('=\r\n', '').replace('=\n', '').replace('=3D', '=')` */
  function CleanQuotedPrintable(raw: string): string {
    Replace(Replace(Replace(raw, "=\r\n", ""), "=\n", ""), "=3D", "=")
  }

  /** Text with no soft line break and no `=3D` escape is left as it is. */
  lemma CleanIsIdentityOnPlainText(s: string)
    requires !Contains(s, "=\r\n") && !Contains(s, "=\n") && !Contains(s, "=3D")
    ensures CleanQuotedPrintable(s) == s
  {
    ReplaceAbsent(s, "=\r\n", "");
    ReplaceAbsent(s, "=\n", "");
    ReplaceAbsent(s, "=3D", "=");
  }

  /** The clean-up never makes the text longer. */
  lemma CleanNeverLonger(s: string)
    ensures |CleanQuotedPrintable(s)| <= |s|
  {
    var a := Replace(s, "=\r\n", "");
    var b := Replace(a, "=\n", "");
    ReplaceNotLonger(s, "=\r\n", "");
    ReplaceNotLonger(a, "=\n", "");
    ReplaceNotLonger(b, "=3D", "=");
  }

  // ---------------------------------------------------------------------------
  // The four code patterns, searched with IGNORECASE | DOTALL

  /**
   * The patterns, in the order they are tried:
   *   ClassVerificationCode  class=["']?verification-code["']?[^>]*>([A-Z0-9]{6})</span>
   *   VerificationCode       verification-code[^>]*>([A-Z0-9]{6})<
   *   SpanCode               >([A-Z0-9]{6})</span>
   *   FontSizeCode           font-size:\s*28px[^>]*>([A-Z0-9]{6})<
   */
  datatype Pattern = ClassVerificationCode | VerificationCode | SpanCode | FontSizeCode

  const CodePatterns: seq<Pattern> := [ClassVerificationCode, VerificationCode, SpanCode, FontSizeCode]

  /** The lower-case literal `lit` occurs at `i`, compared case-insensitively. */
  predicate LiteralAt(s: string, i: int, lit: string) {
    0 <= i && i + |lit| <= |s| && Lower(s[i..i + |lit|]) == lit
  }

  /** `[A-Z0-9]{6}` under IGNORECASE matches at `i`. */
  predicate CodeAt(s: string, i: int) {
    0 <= i && i + CodeLength <= |s| && forall k :: i <= k < i + CodeLength ==> IsAlnum(s[k])
  }

  predicate IsQuote(c: char) { c == '"' || c == '\'' }

  /** Where `[^>]*>` stops: the first `>` at or after `j`, or `|s|` if there is none. */
  function NextGt(s: string, j: nat): (m: nat)
    requires j <= |s|
    ensures j <= m <= |s|
    ensures m < |s| ==> s[m] == '>'
    ensures forall k :: j <= k < m ==> s[k] != '>'
    decreases |s| - j
  {
    if j == |s| || s[j] == '>' then j else NextGt(s, j + 1)
  }

  /** Where `\s*` stops: the first non-space at or after `j`, or `|s|`. */
  function SkipSpace(s: string, j: nat): (m: nat)
    requires j <= |s|
    ensures j <= m <= |s|
    ensures m < |s| ==> !IsSpace(s[m])
    decreases |s| - j
  {
    if j == |s| || !IsSpace(s[j]) then j else SkipSpace(s, j + 1)
  }

  /** `[^>]*>([A-Z0-9]{6})` followed by `tail`, from position `j`: the position of the group. */
  function GroupAfterGt(s: string, j: nat, tail: string): (r: Option<nat>)
    requires j <= |s|
    ensures r.Some? ==> CodeAt(s, r.value)
  {
    var m := NextGt(s, j);
    if m < |s| && CodeAt(s, m + 1) && LiteralAt(s, m + 1 + CodeLength, tail) then Some(m + 1) else None
  }

  /** `>([A-Z0-9]{6})</span>` anchored at `i`. */
  function SpanCodeAt(s: string, i: nat): (r: Option<nat>)
    requires i <= |s|
    ensures r.Some? ==> CodeAt(s, r.value)
  {
    if i < |s| && s[i] == '>' && CodeAt(s, i + 1) && LiteralAt(s, i + 1 + CodeLength, "</span>") then Some(i + 1) else None
  }

  /** `verification-code[^>]*>([A-Z0-9]{6})<` anchored at `i`. */
  function VerificationCodeAt(s: string, i: nat): (r: Option<nat>)
    requires i <= |s|
    ensures r.Some? ==> CodeAt(s, r.value)
  {
    if LiteralAt(s, i, "verification-code") then GroupAfterGt(s, i + 17, "<") else None
  }

  /** `class=["']?verification-code["']?[^>]*>([A-Z0-9]{6})</span>` anchored at `i`. */
  function ClassVerificationCodeAt(s: string, i: nat): (r: Option<nat>)
    requires i <= |s|
    ensures r.Some? ==> CodeAt(s, r.value)
  {
    if !LiteralAt(s, i, "class=") then None
    else if i + 6 < |s| && IsQuote(s[i + 6]) && LiteralAt(s, i + 7, "verification-code") then GroupAfterGt(s, i + 24, "</span>")
    else if LiteralAt(s, i + 6, "verification-code") then GroupAfterGt(s, i + 23, "</span>")
    else None
  }

  /** `font-size:\s*28px[^>]*>([A-Z0-9]{6})<` anchored at `i`. */
  function FontSizeCodeAt(s: string, i: nat): (r: Option<nat>)
    requires i <= |s|
    ensures r.Some? ==> CodeAt(s, r.value)
  {
    if !LiteralAt(s, i, "font-size:") then None
    else
      var k := SkipSpace(s, i + 10);
      if LiteralAt(s, k, "28px") then GroupAfterGt(s, k + 4, "<") else None
  }

  /**
   * An anchored match of `p` at `i`, as the position of the captured group.
   * Each pattern is deterministic: `["']?`, `\s*` and `[^>]*` can only stop
   * where the next literal character can follow, so backtracking never finds
   * a second way to match.
   */
  function MatchAt(p: Pattern, s: string, i: nat): (r: Option<nat>)
    requires i <= |s|
    ensures r.Some? ==> CodeAt(s, r.value)
  {
    match p
    case ClassVerificationCode => ClassVerificationCodeAt(s, i)
    case VerificationCode => VerificationCodeAt(s, i)
    case SpanCode => SpanCodeAt(s, i)
    case FontSizeCode => FontSizeCodeAt(s, i)
  }

  /** Which start positions `0 ..= |s|` the pattern matches at. */
  function Hits(p: Pattern, s: string): (h: seq<bool>) {
    seq(|s| + 1, i requires 0 <= i <= |s| => MatchAt(p, s, i).Some?)
  }

  /** The first `true` at or after `from`. */
  function FirstHit(h: seq<bool>, from: nat): (r: Option<nat>)
    requires from <= |h|
    ensures r.Some? ==> from <= r.value < |h| && h[r.value]
    decreases |h| - from
  {
    if from == |h| then None
    else if h[from] then Some(from)
    else FirstHit(h, from + 1)
  }

  /** Every position before the one found is a miss. */
  lemma {:induction false} FirstHitIsFirst(h: seq<bool>, from: nat)
    requires from <= |h|
    ensures FirstHit(h, from).Some? ==> forall j :: from <= j < FirstHit(h, from).value ==> !h[j]
    ensures FirstHit(h, from).None? ==> forall j :: from <= j < |h| ==> !h[j]
    decreases |h| - from
  {
    if from < |h| && !h[from] {
      FirstHitIsFirst(h, from + 1);
    }
  }

  /** The leftmost start at or after `from` where `p` matches: what `re.search` finds. */
  function FirstMatch(p: Pattern, s: string, from: nat): (r: Option<nat>)
    requires from <= |s| + 1
    ensures r.Some? ==> from <= r.value <= |s| && MatchAt(p, s, r.value).Some?
  {
    FirstHit(Hits(p, s), from)
  }

  /** No position before the one found matches. */
  lemma FirstMatchIsLeftmost(p: Pattern, s: string, from: nat)
    requires from <= |s| + 1
    ensures var r := FirstMatch(p, s, from); r.Some? ==> forall j :: from <= j < r.value ==> MatchAt(p, s, j).None?
  {
    var h := Hits(p, s);
    FirstHitIsFirst(h, from);
    var r := FirstMatch(p, s, from);
    if r.Some? {
      forall j | from <= j < r.value
        ensures MatchAt(p, s, j).None?
      {
        assert !h[j];
      }
    }
  }

  /** When no match is found, no position from `from` on matches. */
  lemma NoMatchAnywhere(p: Pattern, s: string, from: nat)
    requires from <= |s| + 1
    requires FirstMatch(p, s, from).None?
    ensures forall j :: from <= j <= |s| ==> MatchAt(p, s, j).None?
  {
    var h := Hits(p, s);
    FirstHitIsFirst(h, from);
    forall j | from <= j <= |s|
      ensures MatchAt(p, s, j).None?
    {
      assert !h[j];
    }
  }

  /** `group(1)` of `re.search(p, s, re.IGNORECASE | re.DOTALL)`, if it matches. */
  function Search(p: Pattern, s: string): (r: Option<string>)
    ensures r.Some? ==> |r.value| == CodeLength && forall k :: 0 <= k < |r.value| ==> IsAlnum(r.value[k])
  {
    match FirstMatch(p, s, 0)
    case Some(i) => var g := MatchAt(p, s, i).value; Some(s[g..g + CodeLength])
    case None => None
  }

  /** `re.search` finds nothing exactly when the pattern matches at no start. */
  lemma SearchNoneIff(p: Pattern, s: string)
    ensures Search(p, s).None? <==> forall j :: 0 <= j <= |s| ==> MatchAt(p, s, j).None?
  {
    if FirstMatch(p, s, 0).None? {
      NoMatchAnywhere(p, s, 0);
    }
  }

  /** A group found by `re.search` is the one at the leftmost matching start `i`. */
  lemma SearchFindsLeftmost(p: Pattern, s: string) returns (i: nat)
    requires Search(p, s).Some?
    ensures i <= |s| && MatchAt(p, s, i).Some?
    ensures forall j :: 0 <= j < i ==> MatchAt(p, s, j).None?
    ensures Search(p, s).value == s[MatchAt(p, s, i).value..MatchAt(p, s, i).value + CodeLength]
  {
    i := FirstMatch(p, s, 0).value;
    FirstMatchIsLeftmost(p, s, 0);
  }

  /** `len(code) == 6 and code.isalnum()` */
  predicate Accepted(code: string) {
    |code| == CodeLength && forall k :: 0 <= k < |code| ==> IsAlnum(code[k])
  }

  /** What one pattern contributes: its upper-cased group, if it passes the check. */
  function Attempt(content: string, p: Pattern): (r: Option<string>)
    ensures r.Some? ==> CodeShape(r.value)
  {
    match Search(p, content)
    case Some(g) => if Accepted(Upper(g)) then Some(Upper(g)) else None
    case None => None
  }

  /** A code the loop may return: six upper-case letters or digits. */
  predicate CodeShape(code: string) {
    |code| == CodeLength && forall k :: 0 <= k < |code| ==> IsAsciiUpper(code[k]) || IsDigit(code[k])
  }

  /** What each pattern contributes, in order. */
  function Attempts(content: string, patterns: seq<Pattern>): (r: seq<Option<string>>) {
    seq(|patterns|, k requires 0 <= k < |patterns| => Attempt(content, patterns[k]))
  }

  /** The first present entry, if any. */
  function FirstSome(xs: seq<Option<string>>): Option<string> {
    if xs == [] then None else if xs[0].Some? then xs[0] else FirstSome(xs[1..])
  }

  /** The first present entry is some entry, and every entry before it is absent. */
  lemma {:induction false} FirstSomeIsFirst(xs: seq<Option<string>>)
    ensures FirstSome(xs).None? <==> forall k :: 0 <= k < |xs| ==> xs[k].None?
    ensures FirstSome(xs).Some? ==>
      exists k :: 0 <= k < |xs| && xs[k] == FirstSome(xs) && forall j :: 0 <= j < k ==> xs[j].None?
  {
    if xs != [] && xs[0].None? {
      FirstSomeIsFirst(xs[1..]);
      if FirstSome(xs).Some? {
        var k :| 0 <= k < |xs[1..]| && xs[1..][k] == FirstSome(xs[1..]) && forall j :: 0 <= j < k ==> xs[1..][j].None?;
        assert xs[k + 1] == FirstSome(xs);
        forall j | 0 <= j < k + 1
          ensures xs[j].None?
        {
          if j > 0 {
            assert xs[j] == xs[1..][j - 1];
          }
        }
      }
    }
  }

  /** An entry preceded only by absent ones is the first present entry. */
  lemma {:induction false} FirstSomeAt(xs: seq<Option<string>>, k: nat)
    requires k < |xs| && xs[k].Some?
    requires forall j :: 0 <= j < k ==> xs[j].None?
    ensures FirstSome(xs) == xs[k]
  {
    if k > 0 {
      FirstSomeAt(xs[1..], k - 1);
    }
  }

  /** The patterns tried in order: the first accepted code wins. */
  function ExtractCode(content: string, patterns: seq<Pattern>): (r: Option<string>)
    ensures r.Some? ==> CodeShape(r.value)
  {
    FirstSomeIsFirst(Attempts(content, patterns));
    FirstSome(Attempts(content, patterns))
  }

  /** The code found is the first pattern's accepted group, and every earlier pattern yielded nothing. */
  lemma ExtractCodeFirstWins(content: string, patterns: seq<Pattern>)
    ensures ExtractCode(content, patterns).None? <==> forall k :: 0 <= k < |patterns| ==> Attempt(content, patterns[k]).None?
    ensures ExtractCode(content, patterns).Some? ==>
      exists k :: 0 <= k < |patterns| && Attempt(content, patterns[k]) == ExtractCode(content, patterns)
        && forall j :: 0 <= j < k ==> Attempt(content, patterns[j]).None?
  {
    var xs := Attempts(content, patterns);
    FirstSomeIsFirst(xs);
    forall k | 0 <= k < |patterns|
      ensures xs[k] == Attempt(content, patterns[k])
    {
    }
  }

  // ---------------------------------------------------------------------------
  // Polling

  /** One element of `results`; `None` stands for a missing `raw` key. */
  datatype MailRecord = MailRecord(raw: Option<string>)

  /** The reply to one poll: the call raised, or a status with the `results` field (absent or a list). */
  datatype PollReply = PollRaised | PollResponse(status: int, results: Option<seq<MailRecord>>)

  /** The code one poll yields: only a 200 reply with a non-empty list, and only its first (newest) message. */
  function PollCode(reply: PollReply, patterns: seq<Pattern>): (r: Option<string>)
    ensures r.Some? ==> reply.PollResponse? && reply.status == OkStatus && reply.results.Some? && reply.results.value != []
    ensures reply.PollResponse? && reply.status == OkStatus && reply.results.Some? && reply.results.value != [] ==>
      r == ExtractCode(CleanQuotedPrintable(GetOrEmpty(reply.results.value[0].raw)), patterns)
  {
    match reply
    case PollRaised => None
    case PollResponse(status, results) =>
      if status == OkStatus && results.Some? && results.value != [] then
        ExtractCode(CleanQuotedPrintable(GetOrEmpty(results.value[0].raw)), patterns)
      else None
  }

  function GetOrEmpty(s: Option<string>): string {
    if s.Some? then s.value else ""
  }

  /** The inner loop of `check_verification_code`: try the patterns in order on one message. */
  method FindCode(content: string) returns (code: Option<string>)
    ensures code == ExtractCode(content, CodePatterns)
  {
    ghost var xs := Attempts(content, CodePatterns);
    FirstSomeIsFirst(xs);
    var k := 0;
    while k < |CodePatterns|
      invariant 0 <= k <= |CodePatterns|
      invariant forall j :: 0 <= j < k ==> xs[j].None?
    {
      var found := Search(CodePatterns[k], content);
      if found.Some? {
        var candidate := Upper(found.value);
        if |candidate| == CodeLength && forall j :: 0 <= j < |candidate| ==> IsAlnum(candidate[j]) {
          FirstSomeAt(xs, k);
          return Some(candidate);
        }
      }
      k := k + 1;
    }
    return None;
  }

  /** One pass of the retry loop: inspect the reply and, on a 200 with messages, the newest one. */
  method ReadPoll(reply: PollReply) returns (code: Option<string>)
    ensures code == PollCode(reply, CodePatterns)
  {
    code := None;
    if reply.PollResponse? && reply.status == OkStatus && reply.results.Some? && reply.results.value != [] {
      code := FindCode(CleanQuotedPrintable(GetOrEmpty(reply.results.value[0].raw)));
    }
  }

  /**
   * The retry loop from poll `from` on, as `(code, polls made in all)`: stop at
   * the first poll that yields a code, or after poll `maxRetries`.
   */
  function PollLoop(replies: seq<PollReply>, patterns: seq<Pattern>, maxRetries: int, from: nat): (r: (Option<string>, nat))
    requires maxRetries <= |replies|
    decreases maxRetries - from
  {
    if from >= maxRetries then (None, from)
    else
      var c := PollCode(replies[from], patterns);
      if c.Some? then (c, from + 1) else PollLoop(replies, patterns, maxRetries, from + 1)
  }

  /**
   * What the loop promises: without a code, every one of the `maxRetries`
   * polls was made and yielded nothing; with one, it is the code of the last
   * poll made, a well-formed code, and all earlier polls yielded nothing.
   */
  lemma {:induction false} PollLoopOutcome(replies: seq<PollReply>, patterns: seq<Pattern>, maxRetries: int, from: nat)
    requires maxRetries <= |replies|
    requires from <= maxRetries
    ensures var (code, polls) := PollLoop(replies, patterns, maxRetries, from);
      && from <= polls <= maxRetries
      && (code.None? ==> polls == maxRetries)
      && (code.Some? ==> 1 <= polls && PollCode(replies[polls - 1], patterns) == code && CodeShape(code.value))
      && (forall a :: from <= a < polls - (if code.Some? then 1 else 0) ==> PollCode(replies[a], patterns).None?)
    decreases maxRetries - from
  {
    if from < maxRetries {
      var c := PollCode(replies[from], patterns);
      if c.None? {
        PollLoopOutcome(replies, patterns, maxRetries, from + 1);
      } else {
        assert PollLoop(replies, patterns, maxRetries, from) == (c, from + 1);
      }
    }
  }

  /**
   * `check_verification_code`: at most `maxRetries` polls, answered in turn by
   * `replies`; a poll without a code never ends the loop, and the first code
   * found is returned. Also reports how many polls were made.
   */
  method CheckVerificationCode(replies: seq<PollReply>, maxRetries: int) returns (code: Option<string>, polls: nat)
    requires maxRetries <= |replies|
    ensures (code, polls) == PollLoop(replies, CodePatterns, maxRetries, 0)
    ensures maxRetries <= 0 ==> code.None? && polls == 0
  {
    var attempt := 0;
    while attempt < maxRetries
      invariant PollLoop(replies, CodePatterns, maxRetries, attempt) == PollLoop(replies, CodePatterns, maxRetries, 0)
      decreases maxRetries - attempt
    {
      var found := ReadPoll(replies[attempt]);
      if found.Some? {
        return found, attempt + 1;
      }
      attempt := attempt + 1;
    }
    return None, attempt;
  }

  /**
   * `check_verification_code` called without `max_retries`: at most thirty
   * polls, and all thirty when no code turns up.
   */
  method CheckVerificationCodeByDefault(replies: seq<PollReply>) returns (code: Option<string>, polls: nat)
    requires DefaultMaxRetries <= |replies|
    ensures (code, polls) == PollLoop(replies, CodePatterns, DefaultMaxRetries, 0)
    ensures 1 <= polls <= DefaultMaxRetries
    ensures code.None? ==> polls == DefaultMaxRetries
  {
    code, polls := CheckVerificationCode(replies, DefaultMaxRetries);
    PollLoopOutcome(replies, CodePatterns, DefaultMaxRetries, 0);
  }
}
