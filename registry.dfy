/**
 * The account registry and worker-slot bookkeeping of app.py, as pure state
 * transitions: the account dictionary (address -> account), the worker
 * dictionary (slot -> worker) and the FIFO task queue. Every request handler
 * is a step from one `Fleet` to the next with an ok/error reply; the class in
 * orchestrator.dfy performs the same steps in place.
 */
module Registry {
  import opened Wrappers
  import opened Text
  import opened Dicts
  import Config

  /** The account states, as named in app.py. */
  datatype AccountStatus =
    | PENDING | CREATING_EMAIL | ENTERING_EMAIL | WAITING_CODE | VERIFYING | COMPLETING
    | UPDATING | SUCCESS | FAILED

  /** The session fields a finished browser run fills in (exported as csesidx, host_c_oses, secure_c_ses, team_id). */
  datatype Session = Session(csesidx: string, cOses: string, cSes: string, configId: string)

  const NoSession := Session("", "", "", "")

  /** An `AccountInfo`; an empty string stands for a field that is unset. */
  datatype AccountInfo = AccountInfo(
    email: string,
    jwt: string,
    status: AccountStatus,
    emailConfig: Config.EmailConfig,
    errorMessage: string,
    createdAt: string,
    updatedAt: string,
    session: Session)

  /** A freshly made `AccountInfo(email=..., jwt=..., status=PENDING, email_config=..., created_at=...)`. */
  function NewAccount(email: string, jwt: string, cfg: Config.EmailConfig, createdAt: string): AccountInfo {
    AccountInfo(email, jwt, PENDING, cfg, "", createdAt, "", NoSession)
  }

  datatype Mode = Register | Refresh

  /** A `BrowserWorker`, seen from the registry: whose account it runs, in which mode, and whether its thread is alive. */
  datatype Worker = Worker(accountEmail: string, mode: Mode, alive: bool)

  /** A queued `(mode, account)` pair. */
  datatype Task = Task(mode: Mode, accountEmail: string)

  /** Why a handler refused. */
  datatype Reason =
    | NotFound | InvalidState | Capacity | NoEmailConfig | MailboxCreationFailed
    | NothingToRefresh | DivisionByZero

  /** The error message a manual stop leaves on the account. */
  const ManualStopMessage := "用户手动停止"

  /** The global state the handlers share. */
  datatype Fleet = Fleet(accounts: Dict<string, AccountInfo>, workers: Dict<int, Worker>, queue: seq<Task>)

  ghost predicate FleetValid(f: Fleet) {
    Valid(f.accounts) && Valid(f.workers)
  }

  /** A handler's effect: the next state and the reply. */
  datatype Outcome<T> = Outcome(fleet: Fleet, reply: Result<T, Reason>)

  // ---------------------------------------------------------------------------
  // The slot allocator

  function CountAlive(keys: seq<int>, entries: map<int, Worker>): nat
    requires forall i :: 0 <= i < |keys| ==> keys[i] in entries
  {
    if keys == [] then 0 else (if entries[keys[0]].alive then 1 else 0) + CountAlive(keys[1..], entries)
  }

  /** `sum(1 for w in workers.values() if w.is_alive())` */
  function AliveCount(workers: Dict<int, Worker>): nat
    requires Valid(workers)
  {
    CountAlive(workers.keys, workers.entries)
  }

  ghost function AliveSlots(workers: Dict<int, Worker>): set<int> {
    set k | k in workers.entries && workers.entries[k].alive
  }

  lemma {:induction false} CountAliveIsCard(keys: seq<int>, entries: map<int, Worker>)
    requires Distinct(keys) && forall i :: 0 <= i < |keys| ==> keys[i] in entries
    ensures CountAlive(keys, entries) == |set k | k in keys && entries[k].alive|
  {
    if keys != [] {
      DistinctTail(keys);
      CountAliveIsCard(keys[1..], entries);
      var all := set k | k in keys && entries[k].alive;
      var rest := set k | k in keys[1..] && entries[k].alive;
      if entries[keys[0]].alive {
        assert all == rest + {keys[0]};
      } else {
        assert all == rest;
      }
    }
  }

  /** The alive count is the number of slots holding an alive worker. */
  lemma AliveCountIsCard(workers: Dict<int, Worker>)
    requires Valid(workers)
    ensures AliveCount(workers) == |AliveSlots(workers)|
  {
    CountAliveIsCard(workers.keys, workers.entries);
    assert (set k | k in workers.keys && workers.entries[k].alive) == AliveSlots(workers);
  }

  /** `i not in workers or not workers[i].is_alive()` */
  predicate Free(workers: Dict<int, Worker>, i: int) {
    i !in workers.entries || !workers.entries[i].alive
  }

  /** The scan `for i in range(from, max)` for a free slot. */
  function FirstFree(workers: Dict<int, Worker>, from: int, max: int): (r: Option<int>)
    ensures r.Some? ==> from <= r.value < max && Free(workers, r.value)
    ensures r.Some? ==> forall j :: from <= j < r.value ==> !Free(workers, j)
    ensures r.None? ==> forall j :: from <= j < max ==> !Free(workers, j)
    decreases max - from
  {
    if from >= max then None else if Free(workers, from) then Some(from) else FirstFree(workers, from + 1, max)
  }

  /** `get_available_worker_slot`: nothing while the alive workers fill the budget, else the lowest free slot below it. */
  function AvailableSlot(workers: Dict<int, Worker>, max: int): (r: Option<int>)
    requires Valid(workers)
    ensures AliveCount(workers) >= max ==> r.None?
    ensures r.Some? ==> 0 <= r.value < max && Free(workers, r.value)
    ensures r.Some? ==> forall j :: 0 <= j < r.value ==> !Free(workers, j)
  {
    if AliveCount(workers) >= max then None else FirstFree(workers, 0, max)
  }

  /** The slot numbers `0 .. n-1`. */
  function Range(n: int): (r: set<int>)
    ensures forall i :: i in r <==> 0 <= i < n
    ensures |r| == if n > 0 then n else 0
    decreases if n > 0 then n else 0
  {
    if n <= 0 then {} else Range(n - 1) + {n - 1}
  }

  lemma SubsetCard(a: set<int>, b: set<int>)
    requires a <= b
    ensures |a| <= |b|
  {
    assert b == a + (b - a);
  }

  /** When every slot below `max` holds an alive worker, at least `max` workers are alive. */
  lemma AllBusyMeansFull(workers: Dict<int, Worker>, max: int)
    requires Valid(workers)
    requires forall j :: 0 <= j < max ==> !Free(workers, j)
    ensures AliveCount(workers) >= max
  {
    AliveCountIsCard(workers);
    forall i | i in Range(max)
      ensures i in AliveSlots(workers)
    {
      assert !Free(workers, i);
    }
    SubsetCard(Range(max), AliveSlots(workers));
  }

  /**
   * The allocator grants a slot exactly when fewer than `max` workers are
   * alive: the final `return None` of the scan is never reached, because
   * `max` alive workers cannot all fit below `max` while leaving the count short.
   */
  lemma AvailableSlotIff(workers: Dict<int, Worker>, max: int)
    requires Valid(workers)
    ensures AvailableSlot(workers, max).Some? <==> AliveCount(workers) < max
  {
    if FirstFree(workers, 0, max).None? {
      AllBusyMeansFull(workers, max);
    }
  }

  /** Starting a worker in the granted slot adds exactly one alive worker and stays within the budget. */
  lemma GrantedSlotStaysWithinBound(workers: Dict<int, Worker>, max: int, email: string, mode: Mode)
    requires Valid(workers) && AvailableSlot(workers, max).Some?
    ensures AliveCount(Put(workers, AvailableSlot(workers, max).value, Worker(email, mode, true))) == AliveCount(workers) + 1
    ensures AliveCount(workers) + 1 <= max
  {
    var slot := AvailableSlot(workers, max).value;
    var grown := Put(workers, slot, Worker(email, mode, true));
    AliveCountIsCard(workers);
    AliveCountIsCard(grown);
    assert AliveSlots(grown) == AliveSlots(workers) + {slot};
  }

  // ---------------------------------------------------------------------------
  // Provider lookup by domain

  /** `email.split('@')[1].lower()`: the text between the first and the second `@`, lower-cased. */
  function DomainOf(email: string): (d: Option<string>)
    ensures d.None? <==> '@' !in email
  {
    if '@' in email then CountPositive(email, '@'); Some(Lower(Split(email, '@')[1])) else None
  }

  /** For an address `local@domain`, optionally followed by another `@...`, the domain is `domain`, lower-cased. */
  lemma DomainOfAddress(local: string, domain: string, rest: string)
    requires '@' !in local && '@' !in domain
    requires rest == [] || rest[0] == '@'
    ensures DomainOf(local + "@" + domain + rest) == Some(Lower(domain))
  {
    var email := local + "@" + domain + rest;
    assert email == local + ['@'] + (domain + rest);
    SplitAtFirst(local, '@', domain + rest);
    SplitFirstPiece(domain, '@', rest);
    assert '@' in email by { assert email[|local|] == '@'; }
  }

  /** The first provider from `from` on whose lower-cased mail domain is `domain`. */
  function ConfigIndex(configs: seq<Config.EmailConfig>, domain: string, from: nat): (r: Option<nat>)
    requires from <= |configs|
    ensures r.Some? ==> from <= r.value < |configs| && Lower(configs[r.value].emailDomain) == domain
    ensures r.Some? ==> forall j :: from <= j < r.value ==> Lower(configs[j].emailDomain) != domain
    ensures r.None? ==> forall j :: from <= j < |configs| ==> Lower(configs[j].emailDomain) != domain
    decreases |configs| - from
  {
    if from == |configs| then None
    else if Lower(configs[from].emailDomain) == domain then Some(from)
    else ConfigIndex(configs, domain, from + 1)
  }

  /** `get_email_config_by_domain`: no `@`, or no provider of that domain, gives nothing; otherwise the first. */
  function ConfigByDomain(email: string, configs: seq<Config.EmailConfig>): (r: Option<Config.EmailConfig>)
    ensures r.None? <==> DomainOf(email).None? || forall j :: 0 <= j < |configs| ==> Lower(configs[j].emailDomain) != DomainOf(email).value
    ensures r.Some? ==> exists i :: (0 <= i < |configs| && configs[i] == r.value
      && Lower(r.value.emailDomain) == DomainOf(email).value
      && forall j :: 0 <= j < i ==> Lower(configs[j].emailDomain) != DomainOf(email).value)
  {
    match DomainOf(email)
    case None => None
    case Some(domain) =>
      match ConfigIndex(configs, domain, 0)
      case None => None
      case Some(i) => Some(configs[i])
  }

  /** `create_account_from_email`: a PENDING account with no token, bound to the matching provider. */
  function AccountFromEmail(email: string, configs: seq<Config.EmailConfig>, now: string): (r: Option<AccountInfo>)
    ensures r.None? <==> ConfigByDomain(email, configs).None?
    ensures r.Some? ==> r.value.email == email && r.value.jwt == "" && r.value.status == PENDING
    ensures r.Some? ==> r.value.emailConfig == ConfigByDomain(email, configs).value && r.value.createdAt == now
  {
    match ConfigByDomain(email, configs)
    case None => None
    case Some(cfg) => Some(NewAccount(email, "", cfg, now))
  }

  // ---------------------------------------------------------------------------
  // Worker bookkeeping

  /** `start_worker`: the slot now holds a live worker for the account (the slot's place in the dictionary order is kept if it was taken). */
  function StartWorker(workers: Dict<int, Worker>, slot: int, email: string, mode: Mode): (r: Dict<int, Worker>)
    requires Valid(workers)
    ensures Valid(r) && r.entries == workers.entries[slot := Worker(email, mode, true)]
    ensures r.keys == if slot in workers.entries then workers.keys else workers.keys + [slot]
  {
    Put(workers, slot, Worker(email, mode, true))
  }

  /**
   * A worker's thread ends: `is_alive()` turns false while the slot stays in
   * the dictionary (until `on_worker_complete` or a stop removes it).
   */
  function WorkerExited(workers: Dict<int, Worker>, slot: int): (r: Dict<int, Worker>)
    requires Valid(workers)
    ensures Valid(r) && r.keys == workers.keys
    ensures slot in workers.entries ==> r.entries == workers.entries[slot := workers.entries[slot].(alive := false)]
    ensures slot !in workers.entries ==> r == workers
  {
    if slot in workers.entries then Put(workers, slot, workers.entries[slot].(alive := false)) else workers
  }

  /** After an alive worker exits its slot is free and the alive count drops by exactly one. */
  lemma WorkerExitedFreesSlot(workers: Dict<int, Worker>, slot: int)
    requires Valid(workers) && slot in workers.entries && workers.entries[slot].alive
    ensures Free(WorkerExited(workers, slot), slot)
    ensures AliveCount(WorkerExited(workers, slot)) + 1 == AliveCount(workers)
  {
    var r := WorkerExited(workers, slot);
    AliveCountIsCard(workers);
    AliveCountIsCard(r);
    assert AliveSlots(workers) == AliveSlots(r) + {slot};
  }

  /** `on_worker_complete`: the slot is released if it is held, and nothing else changes. */
  lemma ReleaseSlot(workers: Dict<int, Worker>, slot: int)
    requires Valid(workers)
    ensures Remove(workers, slot).entries == workers.entries - {slot}
    ensures slot !in workers.entries ==> Remove(workers, slot) == workers
    ensures Remove(Remove(workers, slot), slot) == Remove(workers, slot)
  {
    if slot !in workers.entries {
      RemoveAbsent(workers, slot);
    }
    RemoveIdempotent(workers, slot);
  }

  // ---------------------------------------------------------------------------
  // create_account

  /** `if not jwt or not email`: the mailbox call succeeded only if both fields are present and non-empty. */
  predicate Created(reply: (Option<string>, Option<string>)) {
    reply.0.Some? && reply.0.value != "" && reply.1.Some? && reply.1.value != ""
  }

  /**
   * `create_account`: a slot first, then a provider (`chosen`, from
   * `get_random_email_config`), then a mailbox from that provider. Any failure
   * leaves everything as it was; success registers a PENDING account under
   * the returned address and starts a register worker in the granted slot.
   */
  function CreateAccountStep(f: Fleet, max: int, chosen: Option<Config.EmailConfig>,
                             mailbox: Config.EmailConfig -> (Option<string>, Option<string>), now: string): (o: Outcome<string>)
    requires FleetValid(f)
    ensures FleetValid(o.fleet) && o.fleet.queue == f.queue
    ensures AvailableSlot(f.workers, max).None? ==> o.reply == Err(Capacity)
    ensures AvailableSlot(f.workers, max).Some? && chosen.None? ==> o.reply == Err(NoEmailConfig)
    ensures AvailableSlot(f.workers, max).Some? && chosen.Some? && !Created(mailbox(chosen.value)) ==> o.reply == Err(MailboxCreationFailed)
    ensures o.reply.Err? ==> o.fleet == f
    ensures o.reply.Ok? ==> AvailableSlot(f.workers, max).Some? && chosen.Some? && Created(mailbox(chosen.value))
    ensures o.reply.Ok? ==>
      var address := mailbox(chosen.value).1.value;
      && o.reply.value == address
      && o.fleet.accounts == Put(f.accounts, address, NewAccount(address, mailbox(chosen.value).0.value, chosen.value, now))
      && o.fleet.workers == StartWorker(f.workers, AvailableSlot(f.workers, max).value, address, Register)
    ensures o.reply.Ok? ==> AliveCount(o.fleet.workers) == AliveCount(f.workers) + 1 <= max
  {
    var slot := AvailableSlot(f.workers, max);
    if slot.None? then Outcome(f, Err(Capacity))
    else if chosen.None? then Outcome(f, Err(NoEmailConfig))
    else
      var created := mailbox(chosen.value);
      if !Created(created) then Outcome(f, Err(MailboxCreationFailed))
      else
        var address := created.1.value;
        GrantedSlotStaysWithinBound(f.workers, max, address, Register);
        Outcome(Fleet(Put(f.accounts, address, NewAccount(address, created.0.value, chosen.value, now)),
                      StartWorker(f.workers, slot.value, address, Register), f.queue),
                Ok(address))
  }

  // ---------------------------------------------------------------------------
  // refresh_account

  /**
   * `refresh_account`: an unknown address is first synthesised from its
   * domain (and stays registered whatever follows); then a slot is needed;
   * on success the account becomes UPDATING and a refresh worker starts.
   */
  function RefreshStep(f: Fleet, email: string, configs: seq<Config.EmailConfig>, max: int, now: string): (o: Outcome<()>)
    requires FleetValid(f)
    ensures FleetValid(o.fleet) && o.fleet.queue == f.queue
    ensures email !in f.accounts.entries && ConfigByDomain(email, configs).None? ==> o == Outcome(f, Err(NotFound))
    ensures o.reply == Err(NotFound) ==> email !in f.accounts.entries && ConfigByDomain(email, configs).None?
    ensures email in f.accounts.entries || ConfigByDomain(email, configs).Some? ==>
      var registered := if email in f.accounts.entries then f.accounts
        else Put(f.accounts, email, NewAccount(email, "", ConfigByDomain(email, configs).value, now));
      var slot := AvailableSlot(f.workers, max);
      if slot.None? then o == Outcome(f.(accounts := registered), Err(Capacity))
      else
        && o.reply == Ok(())
        && o.fleet.accounts == Put(registered, email, registered.entries[email].(status := UPDATING))
        && o.fleet.workers == StartWorker(f.workers, slot.value, registered.entries[email].email, Refresh)
    ensures o.reply.Ok? ==> AliveCount(o.fleet.workers) == AliveCount(f.workers) + 1 <= max
    ensures o.reply.Ok? ==> email in o.fleet.accounts.entries && o.fleet.accounts.entries[email].status == UPDATING
  {
    if email !in f.accounts.entries && AccountFromEmail(email, configs, now).None? then Outcome(f, Err(NotFound))
    else
      var registered := if email in f.accounts.entries then f.accounts
        else Put(f.accounts, email, AccountFromEmail(email, configs, now).value);
      var slot := AvailableSlot(f.workers, max);
      if slot.None? then Outcome(f.(accounts := registered), Err(Capacity))
      else
        var account := registered.entries[email];
        GrantedSlotStaysWithinBound(f.workers, max, account.email, Refresh);
        Outcome(Fleet(Put(registered, email, account.(status := UPDATING)),
                      StartWorker(f.workers, slot.value, account.email, Refresh), f.queue),
                Ok(()))
  }

  // ---------------------------------------------------------------------------
  // retry_account

  /**
   * `retry_account`: unknown address, then a status other than FAILED, then
   * no slot, each refuse without a change; otherwise the account is PENDING
   * again with its error cleared, and a register worker starts.
   */
  function RetryStep(f: Fleet, email: string, max: int): (o: Outcome<()>)
    requires FleetValid(f)
    ensures FleetValid(o.fleet) && o.fleet.queue == f.queue
    ensures email !in f.accounts.entries ==> o.reply == Err(NotFound)
    ensures email in f.accounts.entries && f.accounts.entries[email].status != FAILED ==> o.reply == Err(InvalidState)
    ensures email in f.accounts.entries && f.accounts.entries[email].status == FAILED && AvailableSlot(f.workers, max).None? ==> o.reply == Err(Capacity)
    ensures o.reply.Err? ==> o.fleet == f
    ensures o.reply.Ok? ==>
      && email in f.accounts.entries && AvailableSlot(f.workers, max).Some?
      && o.fleet.accounts == Put(f.accounts, email, f.accounts.entries[email].(status := PENDING, errorMessage := ""))
      && o.fleet.workers == StartWorker(f.workers, AvailableSlot(f.workers, max).value, f.accounts.entries[email].email, Register)
    ensures o.reply.Ok? ==> AliveCount(o.fleet.workers) == AliveCount(f.workers) + 1 <= max
  {
    if email !in f.accounts.entries then Outcome(f, Err(NotFound))
    else
      var account := f.accounts.entries[email];
      if account.status != FAILED then Outcome(f, Err(InvalidState))
      else
        var slot := AvailableSlot(f.workers, max);
        if slot.None? then Outcome(f, Err(Capacity))
        else
          GrantedSlotStaysWithinBound(f.workers, max, account.email, Register);
          Outcome(Fleet(Put(f.accounts, email, account.(status := PENDING, errorMessage := "")),
                        StartWorker(f.workers, slot.value, account.email, Register), f.queue),
                  Ok(()))
  }

  // ---------------------------------------------------------------------------
  // delete_account

  /** `delete_account`: a known address is removed from the registry, an unknown one is refused; workers are untouched. */
  function DeleteStep(f: Fleet, email: string): (o: Outcome<()>)
    requires FleetValid(f)
    ensures FleetValid(o.fleet) && o.fleet.workers == f.workers && o.fleet.queue == f.queue
    ensures o.reply.Ok? <==> email in f.accounts.entries
    ensures o.reply.Err? ==> o.reply == Err(NotFound) && o.fleet == f
    ensures o.fleet.accounts.entries == f.accounts.entries - {email}
    ensures o.fleet.accounts.keys == Without(f.accounts.keys, email)
  {
    if email in f.accounts.entries then Outcome(f.(accounts := Remove(f.accounts, email)), Ok(()))
    else
      RemoveAbsent(f.accounts, email);
      Outcome(f, Err(NotFound))
  }
  /** Deleting the account at position `p` of the registry keeps every other account in its listing order. */
  lemma DeleteKeepsOrder(f: Fleet, p: nat)
    requires FleetValid(f) && p < |f.accounts.keys|
    ensures DeleteStep(f, f.accounts.keys[p]).fleet.accounts.keys == f.accounts.keys[..p] + f.accounts.keys[p + 1..]
  {
    WithoutKeepsOrder(f.accounts.keys, p);
  }


  // ---------------------------------------------------------------------------
  // stop_account and stop_all

  /** The account state a manual stop leaves behind. */
  function Stopped(a: AccountInfo): (r: AccountInfo)
    ensures r.status == FAILED && r.errorMessage == ManualStopMessage
    ensures r == a.(status := FAILED, errorMessage := ManualStopMessage)
  {
    a.(status := FAILED, errorMessage := ManualStopMessage)
  }

  /** `if email in accounts: accounts[email].status = FAILED; ...` */
  function MarkStopped(accounts: Dict<string, AccountInfo>, email: string): (r: Dict<string, AccountInfo>)
    requires Valid(accounts)
    ensures Valid(r) && r.keys == accounts.keys
    ensures r.entries.Keys == accounts.entries.Keys
    ensures forall k :: k in r.entries ==> r.entries[k] == if k == email then Stopped(accounts.entries[k]) else accounts.entries[k]
  {
    if email in accounts.entries then Put(accounts, email, Stopped(accounts.entries[email])) else accounts
  }

  /** The position, in dictionary order from `from` on, of the first worker running `email`'s account. */
  function WorkerIndexOf(workers: Dict<int, Worker>, email: string, from: nat): (r: Option<nat>)
    requires Valid(workers) && from <= |workers.keys|
    ensures r.Some? ==> from <= r.value < |workers.keys| && workers.entries[workers.keys[r.value]].accountEmail == email
    ensures r.Some? ==> forall j :: from <= j < r.value ==> workers.entries[workers.keys[j]].accountEmail != email
    ensures r.None? ==> forall j :: from <= j < |workers.keys| ==> workers.entries[workers.keys[j]].accountEmail != email
    decreases |workers.keys| - from
  {
    if from == |workers.keys| then None
    else if workers.entries[workers.keys[from]].accountEmail == email then Some(from)
    else WorkerIndexOf(workers, email, from + 1)
  }

  /** Some worker runs `email`'s account. */
  predicate Running(workers: Dict<int, Worker>, email: string) {
    exists k :: k in workers.entries && workers.entries[k].accountEmail == email
  }

  /**
   * `stop_account`: the first worker (in dictionary order) running the
   * account is removed and the account marked FAILED by a manual stop; with
   * no such worker the request is refused and nothing changes.
   */
  function StopStep(f: Fleet, email: string): (o: Outcome<()>)
    requires FleetValid(f)
    ensures FleetValid(o.fleet) && o.fleet.queue == f.queue
    ensures o.reply.Ok? <==> Running(f.workers, email)
    ensures o.reply.Err? ==> o == Outcome(f, Err(NotFound))
    ensures o.reply.Ok? ==>
      var i := WorkerIndexOf(f.workers, email, 0).value;
      && o.fleet.workers == Remove(f.workers, f.workers.keys[i])
      && o.fleet.accounts == MarkStopped(f.accounts, email)
  {
    match WorkerIndexOf(f.workers, email, 0)
    case None =>
      assert !Running(f.workers, email) by {
        forall k | k in f.workers.entries
          ensures f.workers.entries[k].accountEmail != email
        {
          var i :| 0 <= i < |f.workers.keys| && f.workers.keys[i] == k;
        }
      }
      Outcome(f, Err(NotFound))
    case Some(i) =>
      Outcome(Fleet(MarkStopped(f.accounts, email), Remove(f.workers, f.workers.keys[i]), f.queue), Ok(()))
  }
  /**
   * A retried account's worker runs the account object, so a stop finds it
   * by the account's own address, whatever key the account is registered under.
   */
  lemma StopFindsRetriedWorker(f: Fleet, email: string, max: int)
    requires FleetValid(f) && RetryStep(f, email, max).reply.Ok?
    ensures StopStep(RetryStep(f, email, max).fleet, f.accounts.entries[email].email).reply == Ok(())
  {
    var o := RetryStep(f, email, max);
    var slot := AvailableSlot(f.workers, max).value;
    assert o.fleet.workers.entries[slot].accountEmail == f.accounts.entries[email].email;
  }

  /** The same for a refreshed account: a stop by its own address finds its worker. */
  lemma StopFindsRefreshedWorker(f: Fleet, email: string, configs: seq<Config.EmailConfig>, max: int, now: string)
    requires FleetValid(f) && RefreshStep(f, email, configs, max, now).reply.Ok?
    ensures var o := RefreshStep(f, email, configs, max, now);
      email in o.fleet.accounts.entries && StopStep(o.fleet, o.fleet.accounts.entries[email].email).reply == Ok(())
  {
    var o := RefreshStep(f, email, configs, max, now);
    var slot := AvailableSlot(f.workers, max).value;
    assert o.fleet.workers.entries[slot].accountEmail == o.fleet.accounts.entries[email].email;
  }



  /** The account of each tracked worker, in dictionary order. */
  function WorkerEmails(workers: Dict<int, Worker>): (r: seq<string>)
    requires Valid(workers)
    ensures |r| == |workers.keys|
    ensures forall i :: 0 <= i < |r| ==> r[i] == workers.entries[workers.keys[i]].accountEmail
  {
    seq(|workers.keys|, i requires 0 <= i < |workers.keys| => workers.entries[workers.keys[i]].accountEmail)
  }

  /** The loop of `stop_all` over the workers' accounts, one `MarkStopped` per worker. */
  function MarkAllStopped(accounts: Dict<string, AccountInfo>, emails: seq<string>): (r: Dict<string, AccountInfo>)
    requires Valid(accounts)
    ensures Valid(r) && r.keys == accounts.keys
  {
    if emails == [] then accounts else MarkStopped(MarkAllStopped(accounts, emails[..|emails| - 1]), emails[|emails| - 1])
  }

  /** Every account some worker ran ends FAILED by a manual stop; every other account is as it was. */
  lemma {:induction false} MarkAllStoppedEffect(accounts: Dict<string, AccountInfo>, emails: seq<string>)
    requires Valid(accounts)
    ensures MarkAllStopped(accounts, emails).entries.Keys == accounts.entries.Keys
    ensures forall k :: k in accounts.entries ==>
      MarkAllStopped(accounts, emails).entries[k] == if k in emails then Stopped(accounts.entries[k]) else accounts.entries[k]
  {
    if emails != [] {
      var init := emails[..|emails| - 1];
      MarkAllStoppedEffect(accounts, init);
      assert forall k :: k in emails <==> k in init || k == emails[|emails| - 1] by {
        assert emails == init + [emails[|emails| - 1]];
      }
    }
  }

  /**
   * `stop_all`: every tracked worker's account is marked FAILED by a manual
   * stop, the worker dictionary is cleared and the queue drained; the count
   * reported is the number of workers there were.
   */
  function StopAllStep(f: Fleet): (o: Outcome<nat>)
    requires FleetValid(f)
    ensures FleetValid(o.fleet)
    ensures o.reply == Ok(|f.workers.entries|)
    ensures o.fleet.workers == Empty() && o.fleet.queue == []
    ensures o.fleet.accounts.keys == f.accounts.keys && o.fleet.accounts.entries.Keys == f.accounts.entries.Keys
    ensures forall k :: k in f.accounts.entries ==>
      o.fleet.accounts.entries[k] == if Running(f.workers, k) then Stopped(f.accounts.entries[k]) else f.accounts.entries[k]
  {
    var emails := WorkerEmails(f.workers);
    MarkAllStoppedEffect(f.accounts, emails);
    SizeOfKeys(f.workers);
    assert forall k :: k in emails <==> Running(f.workers, k) by {
      forall k | Running(f.workers, k)
        ensures k in emails
      {
        var slot :| slot in f.workers.entries && f.workers.entries[slot].accountEmail == k;
        var i :| 0 <= i < |f.workers.keys| && f.workers.keys[i] == slot;
        assert emails[i] == k;
      }
      forall k | k in emails
        ensures Running(f.workers, k)
      {
        var i :| 0 <= i < |emails| && emails[i] == k;
        var slot := f.workers.keys[i];
        assert slot in f.workers.keys;
        assert slot in f.workers.entries && f.workers.entries[slot].accountEmail == k;
      }
    }
    Outcome(Fleet(MarkAllStopped(f.accounts, emails), Empty(), []), Ok(|f.workers.keys|))
  }

  // ---------------------------------------------------------------------------
  // refresh_all_accounts and the queue processor

  /** `[acc for acc in accounts.values() if acc.status == AccountStatus.SUCCESS]` */
  function SuccessAccounts(accs: seq<AccountInfo>): (r: seq<AccountInfo>)
    ensures |r| <= |accs|
    ensures forall a :: a in r <==> a in accs && a.status == SUCCESS
  {
    if accs == [] then []
    else
      var last := accs[|accs| - 1];
      assert accs == accs[..|accs| - 1] + [last];
      SuccessAccounts(accs[..|accs| - 1]) + if last.status == SUCCESS then [last] else []
  }

  /** One account of refresh-all: dispatched as UPDATING if a slot is free, otherwise queued with its status unchanged. */
  function DispatchOne(f: Fleet, a: AccountInfo, max: int): (r: Fleet)
    requires FleetValid(f)
    ensures FleetValid(r)
    ensures AvailableSlot(f.workers, max).Some? ==>
      && r.accounts == Put(f.accounts, a.email, a.(status := UPDATING))
      && r.workers == StartWorker(f.workers, AvailableSlot(f.workers, max).value, a.email, Refresh)
      && r.queue == f.queue
    ensures AvailableSlot(f.workers, max).None? ==> r == f.(queue := f.queue + [Task(Refresh, a.email)])
  {
    match AvailableSlot(f.workers, max)
    case Some(slot) =>
      Fleet(Put(f.accounts, a.email, a.(status := UPDATING)), StartWorker(f.workers, slot, a.email, Refresh), f.queue)
    case None => f.(queue := f.queue + [Task(Refresh, a.email)])
  }

  /** The loop of `refresh_all_accounts` over `pending`, in order. */
  function DispatchAll(f: Fleet, pending: seq<AccountInfo>, max: int): (r: Fleet)
    requires FleetValid(f)
    ensures FleetValid(r)
  {
    if pending == [] then f else DispatchOne(DispatchAll(f, pending[..|pending| - 1], max), pending[|pending| - 1], max)
  }

  /**
   * Each pending account either starts a worker (one more alive worker) or
   * adds one refresh task at the tail of the queue: the two together account
   * for every pending account, the earlier queue is kept as a prefix, and the
   * alive workers never exceed the budget.
   */
  lemma {:induction false} DispatchAllAccounts(f: Fleet, pending: seq<AccountInfo>, max: int)
    requires FleetValid(f)
    ensures var r := DispatchAll(f, pending, max);
      && |r.queue| >= |f.queue| && r.queue[..|f.queue|] == f.queue
      && AliveCount(r.workers) >= AliveCount(f.workers)
      && (AliveCount(r.workers) - AliveCount(f.workers)) + (|r.queue| - |f.queue|) == |pending|
      && (forall k :: |f.queue| <= k < |r.queue| ==> r.queue[k].mode == Refresh)
      && (AliveCount(f.workers) <= max ==> AliveCount(r.workers) <= max)
  {
    if pending != [] {
      var mid := DispatchAll(f, pending[..|pending| - 1], max);
      DispatchAllAccounts(f, pending[..|pending| - 1], max);
      var a := pending[|pending| - 1];
      var r := DispatchOne(mid, a, max);
      assert r == DispatchAll(f, pending, max);
      match AvailableSlot(mid.workers, max)
      case Some(slot) =>
        GrantedSlotStaysWithinBound(mid.workers, max, a.email, Refresh);
      case None =>
        assert r.queue == mid.queue + [Task(Refresh, a.email)];
        assert r.queue[..|f.queue|] == mid.queue[..|f.queue|];
    }
  }

  /** Some live worker runs the account. */
  predicate LiveFor(workers: Dict<int, Worker>, email: string) {
    exists k :: k in workers.entries && workers.entries[k].alive && workers.entries[k].accountEmail == email
  }

  /** The entry under `k` is the same in both dictionaries (both absent, or both present and equal). */
  predicate SameEntry(d: Dict<string, AccountInfo>, e: Dict<string, AccountInfo>, k: string) {
    (k in d.entries <==> k in e.entries) && (k in d.entries ==> d.entries[k] == e.entries[k])
  }

  /** No two accounts of the list share an address. */
  predicate DistinctEmails(accs: seq<AccountInfo>) {
    forall i, j :: 0 <= i < j < |accs| ==> accs[i].email != accs[j].email
  }

  /** Every account is registered under its own address. */
  predicate KeyedByEmail(accounts: Dict<string, AccountInfo>) {
    forall k :: k in accounts.entries ==> accounts.entries[k].email == k
  }

  /** Refresh-all gave `a` a worker: it is registered as UPDATING and a live worker runs it. */
  predicate Started(r: Fleet, a: AccountInfo) {
    a.email in r.accounts.entries && r.accounts.entries[a.email] == a.(status := UPDATING) && LiveFor(r.workers, a.email)
  }

  /** Refresh-all queued `a`: a refresh task for it is among the tasks added after `f`, and its entry is untouched. */
  predicate Queued(f: Fleet, r: Fleet, a: AccountInfo) {
    |f.queue| <= |r.queue| && Task(Refresh, a.email) in r.queue[|f.queue|..] && SameEntry(f.accounts, r.accounts, a.email)
  }

  /** Dispatching one account leaves other addresses' entries, live workers and the queue so far in place. */
  lemma DispatchOneKeeps(f: Fleet, a: AccountInfo, max: int, email: string)
    requires FleetValid(f) && email != a.email
    ensures var r := DispatchOne(f, a, max);
      && SameEntry(f.accounts, r.accounts, email)
      && (LiveFor(f.workers, email) ==> LiveFor(r.workers, email))
      && |f.queue| <= |r.queue| && r.queue[..|f.queue|] == f.queue
  {
    var r := DispatchOne(f, a, max);
    if AvailableSlot(f.workers, max).Some? && LiveFor(f.workers, email) {
      var slot := AvailableSlot(f.workers, max).value;
      var k :| k in f.workers.entries && f.workers.entries[k].alive && f.workers.entries[k].accountEmail == email;
      assert k != slot;
      assert r.workers.entries[k] == f.workers.entries[k];
    }
  }

  /** An account already started or queued stays so when another address is dispatched. */
  lemma StartedOrQueuedPersists(f: Fleet, mid: Fleet, a: AccountInfo, max: int, b: AccountInfo)
    requires FleetValid(mid) && b.email != a.email
    requires Started(mid, b) || Queued(f, mid, b)
    ensures var r := DispatchOne(mid, a, max); Started(r, b) || Queued(f, r, b)
  {
    var r := DispatchOne(mid, a, max);
    DispatchOneKeeps(mid, a, max, b.email);
    if !Started(mid, b) {
      var tail := mid.queue[|f.queue|..];
      var n :| 0 <= n < |tail| && tail[n] == Task(Refresh, b.email);
      assert r.queue[|f.queue|..][n] == tail[n];
    }
  }

  /** The account dispatched last is started or queued. */
  lemma DispatchedLast(f: Fleet, mid: Fleet, a: AccountInfo, max: int)
    requires FleetValid(mid) && |f.queue| <= |mid.queue| && SameEntry(f.accounts, mid.accounts, a.email)
    ensures var r := DispatchOne(mid, a, max); Started(r, a) || Queued(f, r, a)
  {
    var r := DispatchOne(mid, a, max);
    match AvailableSlot(mid.workers, max)
    case Some(slot) =>
      assert r.workers.entries[slot] == Worker(a.email, Refresh, true);
    case None =>
      assert r.queue[|f.queue|..][|r.queue| - 1 - |f.queue|] == Task(Refresh, a.email);
  }

  /** Refresh-all only appends to the queue. */
  lemma {:induction false} DispatchAllQueueGrows(f: Fleet, pending: seq<AccountInfo>, max: int)
    requires FleetValid(f)
    ensures |f.queue| <= |DispatchAll(f, pending, max).queue|
  {
    if pending != [] {
      DispatchAllQueueGrows(f, pending[..|pending| - 1], max);
    }
  }

  /** Refresh-all leaves the entry of an address it does not dispatch as it was. */
  lemma {:induction false} DispatchAllFrame(f: Fleet, pending: seq<AccountInfo>, max: int, k: string)
    requires FleetValid(f)
    requires forall i :: 0 <= i < |pending| ==> pending[i].email != k
    ensures SameEntry(f.accounts, DispatchAll(f, pending, max).accounts, k)
  {
    if pending != [] {
      var init, a := pending[..|pending| - 1], pending[|pending| - 1];
      forall i | 0 <= i < |init| ensures init[i].email != k {
        assert init[i] == pending[i];
      }
      DispatchAllFrame(f, init, max, k);
      DispatchOneKeeps(DispatchAll(f, init, max), a, max, k);
    }
  }

  /** Refresh-all starts or queues the pending account at position `i`. */
  lemma {:induction false} DispatchAllAt(f: Fleet, pending: seq<AccountInfo>, max: int, i: nat)
    requires FleetValid(f) && DistinctEmails(pending) && i < |pending|
    ensures Started(DispatchAll(f, pending, max), pending[i]) || Queued(f, DispatchAll(f, pending, max), pending[i])
  {
    var init, a := pending[..|pending| - 1], pending[|pending| - 1];
    var mid := DispatchAll(f, init, max);
    assert DistinctEmails(init) by {
      forall p, q | 0 <= p < q < |init| ensures init[p].email != init[q].email {
        assert init[p] == pending[p] && init[q] == pending[q];
      }
    }
    if i == |pending| - 1 {
      forall j | 0 <= j < |init| ensures init[j].email != a.email {
        assert init[j] == pending[j];
      }
      DispatchAllFrame(f, init, max, a.email);
      DispatchAllQueueGrows(f, init, max);
      DispatchedLast(f, mid, a, max);
    } else {
      assert pending[i] == init[i];
      DispatchAllAt(f, init, max, i);
      StartedOrQueuedPersists(f, mid, a, max, pending[i]);
    }
  }

  /**
   * The refresh-all loop, account by account: every pending account is
   * either started (UPDATING, with a live worker) or queued as a refresh task
   * with its entry untouched, and the entry of every other address stays as
   * it was.
   */
  lemma DispatchAllPerAccount(f: Fleet, pending: seq<AccountInfo>, max: int)
    requires FleetValid(f) && DistinctEmails(pending)
    ensures var r := DispatchAll(f, pending, max);
      forall i :: 0 <= i < |pending| ==> Started(r, pending[i]) || Queued(f, r, pending[i])
    ensures var r := DispatchAll(f, pending, max);
      forall k :: (forall i :: 0 <= i < |pending| ==> pending[i].email != k) ==> SameEntry(f.accounts, r.accounts, k)
  {
    forall i | 0 <= i < |pending|
      ensures Started(DispatchAll(f, pending, max), pending[i]) || Queued(f, DispatchAll(f, pending, max), pending[i])
    {
      DispatchAllAt(f, pending, max, i);
    }
    forall k | forall i :: 0 <= i < |pending| ==> pending[i].email != k
      ensures SameEntry(f.accounts, DispatchAll(f, pending, max).accounts, k)
    {
      DispatchAllFrame(f, pending, max, k);
    }
  }

  /** The SUCCESS accounts of a list without shared addresses share no address either. */
  lemma {:induction false} SuccessAccountsDistinct(accs: seq<AccountInfo>)
    requires DistinctEmails(accs)
    ensures DistinctEmails(SuccessAccounts(accs))
  {
    if accs != [] {
      var init, last := accs[..|accs| - 1], accs[|accs| - 1];
      assert DistinctEmails(init) by {
        forall i, j | 0 <= i < j < |init| ensures init[i].email != init[j].email {
          assert init[i] == accs[i] && init[j] == accs[j];
        }
      }
      SuccessAccountsDistinct(init);
      var s := SuccessAccounts(init);
      forall x | x in s ensures x.email != last.email {
        var j :| 0 <= j < |init| && init[j] == x;
        assert accs[j] == x;
      }
    }
  }

  /** In a registry keyed by address, the accounts listed by `values()` share no address. */
  lemma ValuesDistinct(accounts: Dict<string, AccountInfo>)
    requires Valid(accounts) && KeyedByEmail(accounts)
    ensures DistinctEmails(Values(accounts))
  {
    var vs := Values(accounts);
    forall i, j | 0 <= i < j < |vs| ensures vs[i].email != vs[j].email {
      assert vs[i].email == accounts.keys[i] && vs[j].email == accounts.keys[j];
    }
  }

  /** Refresh-all starts or queues a SUCCESS account. */
  lemma RefreshAllSuccessAt(f: Fleet, max: int, k: string)
    requires FleetValid(f) && KeyedByEmail(f.accounts)
    requires k in f.accounts.entries && f.accounts.entries[k].status == SUCCESS
    ensures Started(RefreshAllStep(f, max).fleet, f.accounts.entries[k]) || Queued(f, RefreshAllStep(f, max).fleet, f.accounts.entries[k])
  {
    var vs := Values(f.accounts);
    var pending := SuccessAccounts(vs);
    var a := f.accounts.entries[k];
    ValuesDistinct(f.accounts);
    SuccessAccountsDistinct(vs);
    var j :| 0 <= j < |f.accounts.keys| && f.accounts.keys[j] == k;
    assert vs[j] == a;
    assert a in pending;
    var i :| 0 <= i < |pending| && pending[i] == a;
    DispatchAllAt(f, pending, max, i);
  }

  /** Refresh-all leaves an account that is not SUCCESS as it was. */
  lemma RefreshAllOtherAt(f: Fleet, max: int, k: string)
    requires FleetValid(f) && KeyedByEmail(f.accounts)
    requires k in f.accounts.entries && f.accounts.entries[k].status != SUCCESS
    ensures SameEntry(f.accounts, RefreshAllStep(f, max).fleet.accounts, k)
  {
    var vs := Values(f.accounts);
    var pending := SuccessAccounts(vs);
    if pending != [] {
      forall i | 0 <= i < |pending| ensures pending[i].email != k {
        assert pending[i] in pending;
        assert pending[i] in vs;
      }
      DispatchAllFrame(f, pending, max, k);
    }
  }

  /**
   * What refresh-all promises per account, for a registry keyed by address:
   * every SUCCESS account is either started as UPDATING with a live worker,
   * or queued as a refresh task with its entry unchanged; every other
   * account stays as it was.
   */
  lemma RefreshAllPerAccount(f: Fleet, max: int)
    requires FleetValid(f) && KeyedByEmail(f.accounts)
    ensures var r := RefreshAllStep(f, max).fleet;
      forall k :: k in f.accounts.entries && f.accounts.entries[k].status == SUCCESS ==>
        Started(r, f.accounts.entries[k]) || Queued(f, r, f.accounts.entries[k])
    ensures var r := RefreshAllStep(f, max).fleet;
      forall k :: k in f.accounts.entries && f.accounts.entries[k].status != SUCCESS ==> SameEntry(f.accounts, r.accounts, k)
  {
    forall k | k in f.accounts.entries && f.accounts.entries[k].status == SUCCESS
      ensures Started(RefreshAllStep(f, max).fleet, f.accounts.entries[k]) || Queued(f, RefreshAllStep(f, max).fleet, f.accounts.entries[k])
    {
      RefreshAllSuccessAt(f, max, k);
    }
    forall k | k in f.accounts.entries && f.accounts.entries[k].status != SUCCESS
      ensures SameEntry(f.accounts, RefreshAllStep(f, max).fleet.accounts, k)
    {
      RefreshAllOtherAt(f, max, k);
    }
  }

  /**
   * `refresh_all_accounts`: refused when no account is SUCCESS; otherwise
   * every SUCCESS account is dispatched or queued, and the count reported is
   * the number of SUCCESS accounts.
   */
  function RefreshAllStep(f: Fleet, max: int): (o: Outcome<nat>)
    requires FleetValid(f)
    ensures FleetValid(o.fleet)
    ensures o.reply.Err? <==> forall a :: a in Values(f.accounts) ==> a.status != SUCCESS
    ensures o.reply.Err? ==> o == Outcome(f, Err(NothingToRefresh))
    ensures o.reply.Ok? ==>
      && o.reply.value == |SuccessAccounts(Values(f.accounts))|
      && o.fleet == DispatchAll(f, SuccessAccounts(Values(f.accounts)), max)
  {
    var pending := SuccessAccounts(Values(f.accounts));
    if pending == [] then Outcome(f, Err(NothingToRefresh))
    else
      assert pending[0] in pending;
      Outcome(DispatchAll(f, pending, max), Ok(|pending|))
  }

  /** What one turn of the background processor did. */
  datatype Processed = Idle | Dispatched(slot: int, task: Task) | Requeued(task: Task)

  /**
   * One turn of `background_task_processor`: take the head task; start it in
   * a free slot, or put it back at the tail when there is none. The account
   * registry is never touched, and the queue length is preserved on a requeue.
   */
  function ProcessStep(f: Fleet, max: int): (r: (Fleet, Processed))
    requires FleetValid(f)
    ensures FleetValid(r.0) && r.0.accounts == f.accounts
    ensures r.1.Idle? <==> f.queue == []
    ensures r.1.Idle? ==> r.0 == f
    ensures r.1.Dispatched? ==>
      && f.queue != [] && r.1.task == f.queue[0] && r.0.queue == f.queue[1..]
      && Some(r.1.slot) == AvailableSlot(f.workers, max)
      && r.0.workers == StartWorker(f.workers, r.1.slot, f.queue[0].accountEmail, f.queue[0].mode)
      && AliveCount(r.0.workers) == AliveCount(f.workers) + 1 <= max
    ensures r.1.Requeued? ==>
      && f.queue != [] && AvailableSlot(f.workers, max).None? && r.0.workers == f.workers
      && r.0.queue == f.queue[1..] + [f.queue[0]]
      && |r.0.queue| == |f.queue| && multiset(r.0.queue) == multiset(f.queue)
  {
    if f.queue == [] then (f, Idle)
    else
      var task := f.queue[0];
      match AvailableSlot(f.workers, max)
      case Some(slot) =>
        GrantedSlotStaysWithinBound(f.workers, max, task.accountEmail, task.mode);
        (f.(workers := StartWorker(f.workers, slot, task.accountEmail, task.mode), queue := f.queue[1..]), Dispatched(slot, task))
      case None =>
        assert f.queue == [task] + f.queue[1..];
        (f.(queue := f.queue[1..] + [task]), Requeued(task))
  }

  // ---------------------------------------------------------------------------
  // get_accounts: filtering, pagination and statistics

  /** The six in-progress statuses of the `creating` filter (UPDATING is not one of them). */
  predicate InProgress(s: AccountStatus) {
    s == PENDING || s == CREATING_EMAIL || s == ENTERING_EMAIL || s == WAITING_CODE || s == VERIFYING || s == COMPLETING
  }

  /** The seven statuses the `creating` statistic counts: the in-progress ones and UPDATING. */
  predicate Busy(s: AccountStatus) {
    InProgress(s) || s == UPDATING
  }

  predicate IsSuccess(s: AccountStatus) { s == SUCCESS }
  predicate IsFailed(s: AccountStatus) { s == FAILED }

  /** The `status` filter; an empty or unrecognised filter keeps every account. */
  predicate PassesStatus(filter: string, s: AccountStatus) {
    if filter == "success" then s == SUCCESS
    else if filter == "failed" then s == FAILED
    else if filter == "creating" then InProgress(s)
    else if filter == "updating" then s == UPDATING
    else true
  }

  /** The `search` filter: a case-insensitive substring of the address; an empty search keeps every account. */
  predicate PassesSearch(search: string, email: string) {
    search == "" || Contains(Lower(email), Lower(search))
  }

  predicate Listed(filter: string, search: string, a: AccountInfo) {
    PassesStatus(filter, a.status) && PassesSearch(search, a.email)
  }

  /** The `result` list: the accounts passing both filters, in dictionary order. */
  function ListedAccounts(accs: seq<AccountInfo>, filter: string, search: string): (r: seq<AccountInfo>)
    ensures |r| <= |accs|
    ensures forall a :: a in r <==> a in accs && Listed(filter, search, a)
  {
    if accs == [] then []
    else
      var last := accs[|accs| - 1];
      assert accs == accs[..|accs| - 1] + [last];
      ListedAccounts(accs[..|accs| - 1], filter, search) + if Listed(filter, search, last) then [last] else []
  }

  predicate KnownFilter(filter: string) {
    filter == "success" || filter == "failed" || filter == "creating" || filter == "updating"
  }

  lemma ListedSnoc(init: seq<AccountInfo>, last: AccountInfo, filter: string, search: string)
    ensures ListedAccounts(init + [last], filter, search) == ListedAccounts(init, filter, search) + if Listed(filter, search, last) then [last] else []
  {
    assert (init + [last])[..|init|] == init;
  }

  lemma UnknownFilterPasses(filter: string, s: AccountStatus)
    requires !KnownFilter(filter)
    ensures PassesStatus(filter, s)
  {
  }

  /** With no search and an empty or unknown status filter, every account is listed, in order. */
  lemma {:induction false} UnfilteredListsAll(accs: seq<AccountInfo>, filter: string)
    requires !KnownFilter(filter)
    ensures ListedAccounts(accs, filter, "") == accs
  {
    if accs != [] {
      var init, last := accs[..|accs| - 1], accs[|accs| - 1];
      assert accs == init + [last];
      UnfilteredListsAll(init, filter);
      UnknownFilterPasses(filter, last.status);
      ListedSnoc(init, last, filter, "");
    }
  }

  /** Python's normalisation of a slice bound against a sequence of length `n`. */
  function SliceBound(x: int, n: nat): (r: nat)
    ensures r <= n
    ensures 0 <= x <= n ==> r == x
    ensures x > n ==> r == n
  {
    if x < 0 then (if x + n < 0 then 0 else x + n) else if x > n then n else x
  }

  /** `s[lo:hi]`, negative bounds counting from the end. */
  function PySlice<T>(s: seq<T>, lo: int, hi: int): (r: seq<T>)
    ensures |r| <= |s|
  {
    var a := SliceBound(lo, |s|);
    var b := SliceBound(hi, |s|);
    if a < b then s[a..b] else []
  }

  /** Python's `//`, which rounds toward negative infinity. */
  function FloorDiv(a: int, b: int): int
    requires b != 0
  {
    if b > 0 then a / b else (-a) / (-b)
  }

  /** `(total + per_page - 1) // per_page` */
  function TotalPages(total: nat, perPage: int): int
    requires perPage != 0
  {
    FloorDiv(total + perPage - 1, perPage)
  }

  /** `result[(page - 1) * per_page : (page - 1) * per_page + per_page]` */
  function PageOf<T>(result: seq<T>, page: int, perPage: int): seq<T> {
    PySlice(result, (page - 1) * perPage, (page - 1) * perPage + perPage)
  }

  lemma MulMonotone(a: int, b: int, c: int)
    requires a <= b && c >= 0
    ensures a * c <= b * c
  {
    assert b * c - a * c == (b - a) * c;
  }

  /** For a positive page size, the page count is the ceiling of `total / per_page`. */
  lemma TotalPagesIsCeiling(total: nat, perPage: int)
    requires perPage >= 1
    ensures (TotalPages(total, perPage) - 1) * perPage < total <= TotalPages(total, perPage) * perPage
  {
    var n := total + perPage - 1;
    var q := n / perPage;
    var r := n % perPage;
    assert n == q * perPage + r && 0 <= r < perPage;
    assert (q - 1) * perPage == q * perPage - perPage;
  }

  /**
   * For page numbers from 1 on and a positive page size, a page is the
   * matching window of the result, holds at most `per_page` accounts, and is
   * empty exactly when the page number is past `total_pages`.
   */
  lemma PageWindow<T>(result: seq<T>, page: int, perPage: int)
    requires page >= 1 && perPage >= 1
    ensures var start := (page - 1) * perPage;
      var stop := start + perPage;
      PageOf(result, page, perPage) == if start < |result| then result[start..if stop < |result| then stop else |result|] else []
    ensures |PageOf(result, page, perPage)| <= perPage
    ensures PageOf(result, page, perPage) == [] <==> page > TotalPages(|result|, perPage)
  {
    var start := (page - 1) * perPage;
    MulMonotone(0, page - 1, perPage);
    TotalPagesIsCeiling(|result|, perPage);
    var tp := TotalPages(|result|, perPage);
    if page > tp {
      MulMonotone(tp, page - 1, perPage);
    } else {
      MulMonotone(page - 1, tp - 1, perPage);
    }
  }

  /** `sum(1 for acc in accounts.values() if p(acc.status))` */
  function CountBy(accs: seq<AccountInfo>, p: AccountStatus -> bool): (n: nat)
    ensures n <= |accs|
  {
    if accs == [] then 0
    else CountBy(accs[..|accs| - 1], p) + if p(accs[|accs| - 1].status) then 1 else 0
  }

  datatype Stats = Stats(total: nat, success: nat, creating: nat, failed: nat)

  /** The `stats` block of the listing. */
  function StatsOf(accs: seq<AccountInfo>): Stats {
    Stats(|accs|, CountBy(accs, IsSuccess), CountBy(accs, Busy), CountBy(accs, IsFailed))
  }

  /** Every status is SUCCESS, FAILED or one of the seven busy ones, so the three counts add up to the total. */
  lemma {:induction false} StatsPartition(accs: seq<AccountInfo>)
    ensures StatsOf(accs).success + StatsOf(accs).creating + StatsOf(accs).failed == StatsOf(accs).total
  {
    if accs != [] {
      StatsPartition(accs[..|accs| - 1]);
    }
  }

  /** A reply of `get_accounts`: one account, or a page with its counters. */
  datatype Listing =
    | Single(account: AccountInfo)
    | Page(items: seq<AccountInfo>, total: nat, page: int, perPage: int, totalPages: int, stats: Stats)

  /**
   * `get_accounts`: an `email` argument looks up that one account; otherwise
   * the filtered result is paged, with its size, the page count and the
   * statistics over all accounts. A zero `per_page` fails in the page count.
   */
  function ListSpec(accounts: Dict<string, AccountInfo>, email: string, filter: string, search: string, page: int, perPage: int): (r: Result<Listing, Reason>)
    requires Valid(accounts)
    ensures email != "" ==> (r.Ok? <==> email in accounts.entries)
    ensures email != "" && r.Ok? ==> r.value == Single(accounts.entries[email])
    ensures email == "" ==> (r.Err? <==> perPage == 0)
    ensures r.Err? ==> r == Err(NotFound) || r == Err(DivisionByZero)
    ensures email == "" && r.Ok? ==>
      && r.value.Page?
      && r.value.total == |ListedAccounts(Values(accounts), filter, search)|
      && r.value.items == PageOf(ListedAccounts(Values(accounts), filter, search), page, perPage)
      && r.value.page == page && r.value.perPage == perPage
      && r.value.totalPages == TotalPages(r.value.total, perPage)
      && r.value.stats == StatsOf(Values(accounts))
      && r.value.stats.total == |accounts.entries|
  {
    if email != "" then
      if email in accounts.entries then Ok(Single(accounts.entries[email])) else Err(NotFound)
    else if perPage == 0 then Err(DivisionByZero)
    else
      var result := ListedAccounts(Values(accounts), filter, search);
      SizeOfKeys(accounts);
      Ok(Page(PageOf(result, page, perPage), |result|, page, perPage, TotalPages(|result|, perPage), StatsOf(Values(accounts))))
  }

  // ---------------------------------------------------------------------------
  // export_accounts

  /** One exported record; the timestamps fall back as `a or b` does. */
  datatype ExportRecord = ExportRecord(
    available: bool, email: string, csesidx: string, hostCOses: string, secureCSes: string,
    teamId: string, userAgent: string, createdAt: string, updatedAt: string)

  function ExportRecordOf(a: AccountInfo, userAgent: string, now: string): (r: ExportRecord)
    ensures r.available && r.email == a.email && r.userAgent == userAgent
    ensures r.csesidx == a.session.csesidx && r.hostCOses == a.session.cOses
      && r.secureCSes == a.session.cSes && r.teamId == a.session.configId
    ensures now != "" ==> r.createdAt != "" && r.updatedAt != ""
    ensures a.createdAt != "" ==> r.createdAt == a.createdAt
    ensures a.createdAt == "" ==> r.createdAt == now
    ensures a.updatedAt != "" ==> r.updatedAt == a.updatedAt
    ensures a.updatedAt == "" ==> r.updatedAt == r.createdAt
  {
    ExportRecord(true, a.email, a.session.csesidx, a.session.cOses, a.session.cSes, a.session.configId,
                 userAgent, OrElse(a.createdAt, now), OrElse(a.updatedAt, OrElse(a.createdAt, now)))
  }

  /** The accounts `export_accounts` selects: SUCCESS and complete, in dictionary order. */
  function Exportable(accs: seq<AccountInfo>, isComplete: AccountInfo -> bool): (r: seq<AccountInfo>)
    ensures |r| <= |accs|
    ensures forall a :: a in r <==> a in accs && a.status == SUCCESS && isComplete(a)
  {
    if accs == [] then []
    else
      var last := accs[|accs| - 1];
      assert accs == accs[..|accs| - 1] + [last];
      Exportable(accs[..|accs| - 1], isComplete) + if last.status == SUCCESS && isComplete(last) then [last] else []
  }

  /** The export document for the selected accounts: one record each, in the same order. */
  function ExportRecords(selected: seq<AccountInfo>, userAgent: string, now: string): (r: seq<ExportRecord>)
    ensures |r| == |selected|
    ensures forall i :: 0 <= i < |r| ==> r[i].email == selected[i].email
    ensures forall i :: 0 <= i < |r| ==> r[i] == ExportRecordOf(selected[i], userAgent, now)
  {
    if selected == [] then []
    else ExportRecords(selected[..|selected| - 1], userAgent, now) + [ExportRecordOf(selected[|selected| - 1], userAgent, now)]
  }
}
