/**
 * The configuration store of config.py: the worker cap, the list of mailbox
 * providers and the browser fingerprint, loaded from environment values and
 * then changed by setters.
 */
module Config {
  import opened Wrappers
  import opened Text

  /** One mailbox provider: its admin endpoint host, its mail domain and its admin secret. */
  datatype EmailConfig = EmailConfig(workerDomain: string, emailDomain: string, adminPassword: string)

  /** A fingerprint value is a string or an integer. */
  datatype FingerprintValue = StrValue(str: string) | IntValue(num: int)

  /**
   * The environment as the loader sees it: `None` for an unset variable. The
   * integer variables are given already converted by `int()`.
   */
  datatype Env = Env(
    userAgent: Option<string>,
    maxWorkers: Option<int>,
    headless: Option<string>,
    workerDomains: Option<string>,
    emailDomains: Option<string>,
    adminPasswords: Option<string>,
    windowSize: Option<string>,
    timezone: Option<string>,
    locale: Option<string>,
    platform: Option<string>,
    colorDepth: Option<int>,
    deviceMemory: Option<int>,
    hardwareConcurrency: Option<int>)

  const DefaultUserAgent := "Mozilla/5.0 (Windows NT 10.0; Win64; x64) AppleWebKit/537.36 (KHTML, like Gecko) Chrome/133.0.0.0 Safari/537.36"
  const DefaultMaxWorkers := 1
  const MinWorkers := 1
  const WorkerCap := 10
  const MaskedPassword := "***"
  const ListSeparator := ';'

  /** `os.getenv(name, fallback)` */
  function GetEnv<T>(value: Option<T>, fallback: T): T {
    if value.Some? then value.value else fallback
  }

  /** `max(1, min(count, 10))`: the worker cap always lies in [1, 10] and keeps any value already there. */
  function ClampWorkers(count: int): (r: int)
    ensures MinWorkers <= r <= WorkerCap
    ensures MinWorkers <= count <= WorkerCap ==> r == count
    ensures count < MinWorkers ==> r == MinWorkers
    ensures count > WorkerCap ==> r == WorkerCap
  {
    if count > WorkerCap then WorkerCap else if count < MinWorkers then MinWorkers else count
  }

  /** No white space at either end of a field. */
  predicate Trimmed(s: string) {
    s == [] || (!IsSpace(s[0]) && !IsSpace(s[|s| - 1]))
  }

  /** Field `i` of one of the three split lists, stripped; a missing position reads as "". */
  function FieldAt(parts: seq<string>, i: nat): (r: string)
    ensures Trimmed(r)
    ensures i >= |parts| ==> r == ""
  {
    if i < |parts| then Strip(parts[i]) else ""
  }

  /** A field at a present position is that list element with only surrounding white space cut off. */
  lemma FieldAtStripped(parts: seq<string>, i: nat)
    requires i < |parts|
    ensures exists lo: nat :: StrippedAt(parts[i], FieldAt(parts, i), lo)
  {
    assert FieldAt(parts, i) == Strip(parts[i]);
  }

  function ConfigAt(workers: seq<string>, emails: seq<string>, passwords: seq<string>, i: nat): EmailConfig {
    EmailConfig(FieldAt(workers, i), FieldAt(emails, i), FieldAt(passwords, i))
  }

  /** A provider is kept only when none of its three fields is empty. */
  predicate Complete(c: EmailConfig) {
    c.workerDomain != "" && c.emailDomain != "" && c.adminPassword != ""
  }

  function Max3(a: nat, b: nat, c: nat): (m: nat)
    ensures m >= a && m >= b && m >= c && (m == a || m == b || m == c)
  {
    if a >= b && a >= c then a else if b >= c then b else c
  }

  /** The candidate triples of the first `n` positions, in position order. */
  function Candidates(workers: seq<string>, emails: seq<string>, passwords: seq<string>, n: nat): (r: seq<EmailConfig>)
    ensures |r| == n
  {
    if n == 0 then [] else Candidates(workers, emails, passwords, n - 1) + [ConfigAt(workers, emails, passwords, n - 1)]
  }

  lemma {:induction false} CandidateAt(workers: seq<string>, emails: seq<string>, passwords: seq<string>, n: nat, i: nat)
    requires i < n
    ensures Candidates(workers, emails, passwords, n)[i] == ConfigAt(workers, emails, passwords, i)
  {
    if i < n - 1 {
      CandidateAt(workers, emails, passwords, n - 1, i);
    }
  }

  /** The complete candidates, in order: what the loader appends. */
  function Kept(cands: seq<EmailConfig>): seq<EmailConfig> {
    if cands == [] then []
    else
      var c := cands[|cands| - 1];
      Kept(cands[..|cands| - 1]) + if Complete(c) then [c] else []
  }

  lemma KeptSnoc(cands: seq<EmailConfig>, c: EmailConfig)
    ensures Kept(cands + [c]) == Kept(cands) + if Complete(c) then [c] else []
  {
    assert (cands + [c])[..|cands|] == cands;
  }

  /** A provider is kept exactly when it is a complete candidate. */
  lemma {:induction false} KeptMembers(cands: seq<EmailConfig>, c: EmailConfig)
    ensures c in Kept(cands) <==> c in cands && Complete(c)
  {
    if cands != [] {
      var init := cands[..|cands| - 1];
      KeptMembers(init, c);
      assert cands == init + [cands[|cands| - 1]];
    }
  }

  /** When every candidate is complete, all are kept, in order. */
  lemma {:induction false} KeptAllComplete(cands: seq<EmailConfig>)
    requires forall i :: 0 <= i < |cands| ==> Complete(cands[i])
    ensures Kept(cands) == cands
  {
    if cands != [] {
      var init := cands[..|cands| - 1];
      KeptAllComplete(init);
      assert cands == init + [cands[|cands| - 1]];
    }
  }

  /**
   * Every provider kept from the first `n` positions is complete, has
   * stripped fields, and is the triple of one of those positions.
   */
  lemma LoadedAreComplete(workers: seq<string>, emails: seq<string>, passwords: seq<string>, n: nat, c: EmailConfig)
    requires c in Kept(Candidates(workers, emails, passwords, n))
    ensures Complete(c) && Trimmed(c.workerDomain) && Trimmed(c.emailDomain) && Trimmed(c.adminPassword)
    ensures exists i :: 0 <= i < n && ConfigAt(workers, emails, passwords, i) == c
  {
    var cands := Candidates(workers, emails, passwords, n);
    KeptMembers(cands, c);
    var i :| 0 <= i < |cands| && cands[i] == c;
    CandidateAt(workers, emails, passwords, n, i);
  }

  /** The view `get_email_configs_safe` hands out: same providers, same order, every password masked. */
  function SafeView(configs: seq<EmailConfig>): (r: seq<EmailConfig>)
    ensures |r| == |configs|
    ensures forall i :: 0 <= i < |r| ==>
      r[i].workerDomain == configs[i].workerDomain && r[i].emailDomain == configs[i].emailDomain
      && r[i].adminPassword == MaskedPassword
  {
    seq(|configs|, i requires 0 <= i < |configs| => configs[i].(adminPassword := MaskedPassword))
  }

  /** `random.choice(configs)` with the random draw given as `pick`: None exactly for an empty list. */
  function RandomPick(configs: seq<EmailConfig>, pick: nat): (r: Option<EmailConfig>)
    ensures r.None? <==> configs == []
    ensures r.Some? ==> r.value in configs
  {
    if configs == [] then None else Some(configs[pick % |configs|])
  }

  /** Every provider in the list is the choice of some draw. */
  lemma {:induction false} RandomPickReachesAll(configs: seq<EmailConfig>, i: nat)
    requires i < |configs|
    ensures exists pick: nat :: RandomPick(configs, pick) == Some(configs[i])
  {
    assert i % |configs| == i;
    assert RandomPick(configs, i) == Some(configs[i]);
  }

  /** One field of `update_email_config`: a missing or empty new value keeps the old one. */
  function Overwrite(current: string, given: Option<string>): (r: string)
    ensures given.Some? && given.value != "" ==> r == given.value
    ensures given.None? || given.value == "" ==> r == current
  {
    if given.Some? && given.value != "" then given.value else current
  }

  function Updated(c: EmailConfig, workerDomain: Option<string>, emailDomain: Option<string>, adminPassword: Option<string>): EmailConfig {
    EmailConfig(Overwrite(c.workerDomain, workerDomain), Overwrite(c.emailDomain, emailDomain), Overwrite(c.adminPassword, adminPassword))
  }

  /** The fingerprint the loader builds from the environment, with its defaults. */
  function DefaultFingerprint(env: Env): map<string, FingerprintValue> {
    map[
      "window_size" := StrValue(GetEnv(env.windowSize, "1920x1080")),
      "timezone" := StrValue(GetEnv(env.timezone, "Asia/Shanghai")),
      "locale" := StrValue(GetEnv(env.locale, "zh-CN")),
      "platform" := StrValue(GetEnv(env.platform, "Win32")),
      "color_depth" := IntValue(GetEnv(env.colorDepth, 24)),
      "device_memory" := IntValue(GetEnv(env.deviceMemory, 8)),
      "hardware_concurrency" := IntValue(GetEnv(env.hardwareConcurrency, 8))
    ]
  }

  /** The error `update_email_config` and `delete_email_config` raise. */
  datatype ConfigError = IndexError

  /** The loop of `_load_from_env` over the positions of the longest list, keeping the complete triples. */
  method CompleteProviders(workers: seq<string>, emails: seq<string>, passwords: seq<string>) returns (configs: seq<EmailConfig>)
    ensures configs == Kept(Candidates(workers, emails, passwords, Max3(|workers|, |emails|, |passwords|)))
  {
    configs := [];
    var maxLen := Max3(|workers|, |emails|, |passwords|);
    for i := 0 to maxLen
      invariant configs == Kept(Candidates(workers, emails, passwords, i))
    {
      var worker := FieldAt(workers, i);
      var email := FieldAt(emails, i);
      var password := FieldAt(passwords, i);
      KeptSnoc(Candidates(workers, emails, passwords, i), EmailConfig(worker, email, password));
      if worker != "" && email != "" && password != "" {
        configs := configs + [EmailConfig(worker, email, password)];
      }
    }
  }

  class ConfigStore {
    var userAgent: string
    var maxWorkers: int
    var headless: bool
    var emailConfigs: seq<EmailConfig>
    var browserFingerprint: map<string, FingerprintValue>

    constructor (env: Env)
      ensures userAgent == GetEnv(env.userAgent, DefaultUserAgent)
      ensures maxWorkers == GetEnv(env.maxWorkers, DefaultMaxWorkers)
      ensures headless == (Lower(GetEnv(env.headless, "true")) == "true")
      ensures emailConfigs == LoadedConfigs(env)
      ensures browserFingerprint == DefaultFingerprint(env)
    {
      userAgent, maxWorkers, headless, emailConfigs, browserFingerprint := "", 0, false, [], map[];
      new;
      LoadFromEnv(env);
    }

    /** The providers `_load_from_env` keeps from the three `;`-separated variables. */
    static function LoadedConfigs(env: Env): seq<EmailConfig> {
      var workers := Split(GetEnv(env.workerDomains, ""), ListSeparator);
      var emails := Split(GetEnv(env.emailDomains, ""), ListSeparator);
      var passwords := Split(GetEnv(env.adminPasswords, ""), ListSeparator);
      Kept(Candidates(workers, emails, passwords, Max3(|workers|, |emails|, |passwords|)))
    }

    /** `_load_from_env`. The initial cap is taken as given, without clamping. */
    method LoadFromEnv(env: Env)
      modifies this
      ensures userAgent == GetEnv(env.userAgent, DefaultUserAgent)
      ensures maxWorkers == GetEnv(env.maxWorkers, DefaultMaxWorkers)
      ensures headless == (Lower(GetEnv(env.headless, "true")) == "true")
      ensures emailConfigs == LoadedConfigs(env)
      ensures browserFingerprint == DefaultFingerprint(env)
    {
      userAgent := GetEnv(env.userAgent, DefaultUserAgent);
      maxWorkers := GetEnv(env.maxWorkers, DefaultMaxWorkers);
      headless := Lower(GetEnv(env.headless, "true")) == "true";
      LoadEmailConfigs(env);
      browserFingerprint := DefaultFingerprint(env);
    }

    /** The provider part of `_load_from_env`: one candidate per position of the longest list. */
    method LoadEmailConfigs(env: Env)
      modifies this`emailConfigs
      ensures emailConfigs == LoadedConfigs(env)
    {
      var workers := Split(GetEnv(env.workerDomains, ""), ListSeparator);
      var emails := Split(GetEnv(env.emailDomains, ""), ListSeparator);
      var passwords := Split(GetEnv(env.adminPasswords, ""), ListSeparator);
      emailConfigs := CompleteProviders(workers, emails, passwords);
    }

    method GetMaxWorkers() returns (count: int)
      ensures count == maxWorkers
    {
      count := maxWorkers;
    }

    /** `set_max_workers`: stores the clamped count. */
    method SetMaxWorkers(count: int)
      modifies this`maxWorkers
      ensures maxWorkers == ClampWorkers(count)
      ensures MinWorkers <= maxWorkers <= WorkerCap
    {
      maxWorkers := if count > WorkerCap then WorkerCap else if count < MinWorkers then MinWorkers else count;
    }

    /** `get_email_configs`: a copy of the provider list. */
    method GetEmailConfigs() returns (configs: seq<EmailConfig>)
      ensures configs == emailConfigs
    {
      configs := emailConfigs;
    }

    /** `get_email_configs_safe` */
    method GetEmailConfigsSafe() returns (view: seq<EmailConfig>)
      ensures view == SafeView(emailConfigs)
    {
      view := [];
      for i := 0 to |emailConfigs|
        invariant view == SafeView(emailConfigs)[..i]
      {
        var c := emailConfigs[i];
        view := view + [EmailConfig(c.workerDomain, c.emailDomain, MaskedPassword)];
      }
    }

    /** `get_random_email_config` */
    method GetRandomEmailConfig(pick: nat) returns (choice: Option<EmailConfig>)
      ensures choice == RandomPick(emailConfigs, pick)
    {
      if emailConfigs != [] {
        choice := Some(emailConfigs[pick % |emailConfigs|]);
      } else {
        choice := None;
      }
    }

    /** `add_email_config`: one entry appended at the end, with no check of its fields. */
    method AddEmailConfig(workerDomain: string, emailDomain: string, adminPassword: string)
      modifies this`emailConfigs
      ensures emailConfigs == old(emailConfigs) + [EmailConfig(workerDomain, emailDomain, adminPassword)]
    {
      emailConfigs := emailConfigs + [EmailConfig(workerDomain, emailDomain, adminPassword)];
    }

    /** `update_email_config`: overwrites the given non-empty fields of one entry, or raises `IndexError`. */
    method UpdateEmailConfig(index: int, workerDomain: Option<string>, emailDomain: Option<string>, adminPassword: Option<string>)
      returns (r: Result<(), ConfigError>)
      modifies this`emailConfigs
      ensures r.Err? <==> !(0 <= index < |old(emailConfigs)|)
      ensures r.Err? ==> emailConfigs == old(emailConfigs)
      ensures r.Ok? ==> |emailConfigs| == |old(emailConfigs)|
      ensures r.Ok? ==> emailConfigs[index] == Updated(old(emailConfigs)[index], workerDomain, emailDomain, adminPassword)
      ensures r.Ok? ==> forall j :: 0 <= j < |emailConfigs| && j != index ==> emailConfigs[j] == old(emailConfigs)[j]
    {
      if 0 <= index < |emailConfigs| {
        var c := emailConfigs[index];
        if workerDomain.Some? && workerDomain.value != "" {
          c := c.(workerDomain := workerDomain.value);
        }
        if emailDomain.Some? && emailDomain.value != "" {
          c := c.(emailDomain := emailDomain.value);
        }
        if adminPassword.Some? && adminPassword.value != "" {
          c := c.(adminPassword := adminPassword.value);
        }
        emailConfigs := emailConfigs[index := c];
        r := Ok(());
      } else {
        r := Err(IndexError);
      }
    }

    /** `delete_email_config`: drops one entry, keeping the order of the rest, or raises `IndexError`. */
    method DeleteEmailConfig(index: int) returns (r: Result<(), ConfigError>)
      modifies this`emailConfigs
      ensures r.Err? <==> !(0 <= index < |old(emailConfigs)|)
      ensures r.Err? ==> emailConfigs == old(emailConfigs)
      ensures r.Ok? ==> emailConfigs == old(emailConfigs)[..index] + old(emailConfigs)[index + 1..]
    {
      if 0 <= index < |emailConfigs| {
        emailConfigs := emailConfigs[..index] + emailConfigs[index + 1..];
        r := Ok(());
      } else {
        r := Err(IndexError);
      }
    }

    /** `set_browser_fingerprint`: `dict.update`, so given keys are overwritten and the others kept. */
    method SetBrowserFingerprint(fingerprint: map<string, FingerprintValue>)
      modifies this`browserFingerprint
      ensures browserFingerprint.Keys == old(browserFingerprint).Keys + fingerprint.Keys
      ensures forall k :: k in fingerprint ==> browserFingerprint[k] == fingerprint[k]
      ensures forall k :: k in old(browserFingerprint) && k !in fingerprint ==> browserFingerprint[k] == old(browserFingerprint)[k]
    {
      browserFingerprint := browserFingerprint + fingerprint;
    }
  }
}
