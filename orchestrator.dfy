/**
 * The global state of app.py and the request handlers that change it in
 * place: each handler method performs the same transition as its step in
 * `Registry`, so the properties proved there hold of the running state.
 */
module Orchestrator {
  import opened Wrappers
  import opened Dicts
  import opened Registry
  import Config
  import Mailbox

  /** The `EmailManager` built from one provider entry. */
  function ManagerFor(c: Config.EmailConfig): Mailbox.EmailManager {
    Mailbox.EmailManager(c.workerDomain, c.emailDomain, c.adminPassword)
  }

  /** The record list of `export_accounts`, built one selected account at a time. */
  method BuildRecords(selected: seq<AccountInfo>, userAgent: string, now: string) returns (records: seq<ExportRecord>)
    ensures records == ExportRecords(selected, userAgent, now)
  {
    records := [];
    for i := 0 to |selected|
      invariant records == ExportRecords(selected[..i], userAgent, now)
    {
      assert selected[..i + 1][..i] == selected[..i];
      records := records + [ExportRecordOf(selected[i], userAgent, now)];
    }
    assert selected[..|selected|] == selected;
  }

  /** The scan of `stop_account` over `workers.items()`, in dictionary order, for the first worker running `email`. */
  method FindWorker(workers: Dict<int, Worker>, email: string) returns (found: Option<nat>)
    requires Dicts.Valid(workers)
    ensures found == WorkerIndexOf(workers, email, 0)
  {
    var i := 0;
    while i < |workers.keys|
      invariant 0 <= i <= |workers.keys|
      invariant WorkerIndexOf(workers, email, i) == WorkerIndexOf(workers, email, 0)
    {
      if workers.entries[workers.keys[i]].accountEmail == email {
        return Some(i);
      }
      i := i + 1;
    }
    return None;
  }

  /** The body of the `stop_all` loop run over `emails`, counting the workers it visits. */
  method MarkEach(accounts: Dict<string, AccountInfo>, emails: seq<string>) returns (marked: Dict<string, AccountInfo>, stopped: nat)
    requires Dicts.Valid(accounts)
    ensures marked == MarkAllStopped(accounts, emails)
    ensures stopped == |emails|
  {
    marked := accounts;
    stopped := 0;
    for i := 0 to |emails|
      invariant Dicts.Valid(marked)
      invariant marked == MarkAllStopped(accounts, emails[..i])
      invariant stopped == i
    {
      assert emails[..i + 1][..i] == emails[..i];
      var email := emails[i];
      if email in marked.entries {
        marked := Put(marked, email, Stopped(marked.entries[email]));
      }
      stopped := stopped + 1;
    }
    assert emails[..|emails|] == emails;
  }

  /** The snapshot `[acc for acc in accounts.values() if acc.status == AccountStatus.SUCCESS]`. */
  method CollectSuccessAccounts(values: seq<AccountInfo>) returns (pending: seq<AccountInfo>)
    ensures pending == SuccessAccounts(values)
  {
    pending := [];
    for i := 0 to |values|
      invariant pending == SuccessAccounts(values[..i])
    {
      assert values[..i + 1][..i] == values[..i];
      if values[i].status == SUCCESS {
        pending := pending + [values[i]];
      }
    }
    assert values[..|values|] == values;
  }

  /** The filtering loop of `get_accounts` over `accounts.values()`. */
  method FilterAccounts(values: seq<AccountInfo>, filter: string, search: string) returns (result: seq<AccountInfo>)
    ensures result == ListedAccounts(values, filter, search)
  {
    result := [];
    for i := 0 to |values|
      invariant result == ListedAccounts(values[..i], filter, search)
    {
      assert values[..i + 1][..i] == values[..i];
      if Listed(filter, search, values[i]) {
        result := result + [values[i]];
      }
    }
    assert values[..|values|] == values;
  }

  /** The three counting sums of `get_accounts`, with `len(accounts)`. */
  method CountStatuses(values: seq<AccountInfo>) returns (stats: Stats)
    ensures stats == StatsOf(values)
  {
    var success, creating, failed := 0, 0, 0;
    for i := 0 to |values|
      invariant success == CountBy(values[..i], IsSuccess)
      invariant creating == CountBy(values[..i], Busy)
      invariant failed == CountBy(values[..i], IsFailed)
    {
      assert values[..i + 1][..i] == values[..i];
      var status := values[i].status;
      assert CountBy(values[..i + 1], IsSuccess) == success + if IsSuccess(status) then 1 else 0;
      assert CountBy(values[..i + 1], Busy) == creating + if Busy(status) then 1 else 0;
      assert CountBy(values[..i + 1], IsFailed) == failed + if IsFailed(status) then 1 else 0;
      if status == SUCCESS {
        success := success + 1;
      }
      if Busy(status) {
        creating := creating + 1;
      }
      if status == FAILED {
        failed := failed + 1;
      }
    }
    assert values[..|values|] == values;
    stats := Stats(|values|, success, creating, failed);
  }

  /** The comprehension of `export_accounts`: SUCCESS accounts that are complete. */
  method SelectExportable(values: seq<AccountInfo>, isComplete: AccountInfo -> bool) returns (selected: seq<AccountInfo>)
    ensures selected == Exportable(values, isComplete)
  {
    selected := [];
    for i := 0 to |values|
      invariant selected == Exportable(values[..i], isComplete)
    {
      assert values[..i + 1][..i] == values[..i];
      if values[i].status == SUCCESS && isComplete(values[i]) {
        selected := selected + [values[i]];
      }
    }
    assert values[..|values|] == values;
  }

  class App {
    const config: Config.ConfigStore
    var accounts: Dict<string, AccountInfo>
    var workers: Dict<int, Worker>
    var taskQueue: seq<Task>

    ghost predicate Valid()
      reads this
    {
      Dicts.Valid(accounts) && Dicts.Valid(workers)
    }

    function State(): Fleet
      reads this
    {
      Fleet(accounts, workers, taskQueue)
    }

    constructor (config: Config.ConfigStore)
      ensures Valid() && this.config == config
      ensures State() == Fleet(Empty(), Empty(), [])
    {
      this.config := config;
      accounts := Empty();
      workers := Empty();
      taskQueue := [];
    }

    /** `get_available_worker_slot`: count the alive workers, then scan the slots below the budget. */
    method GetAvailableWorkerSlot() returns (slot: Option<int>)
      requires Valid()
      ensures slot == AvailableSlot(workers, config.maxWorkers)
    {
      var max := config.GetMaxWorkers();
      var active := 0;
      for i := 0 to |workers.keys|
        invariant active + CountAlive(workers.keys[i..], workers.entries) == CountAlive(workers.keys, workers.entries)
      {
        assert workers.keys[i..][1..] == workers.keys[i + 1..];
        if workers.entries[workers.keys[i]].alive {
          active := active + 1;
        }
      }
      if active >= max {
        return None;
      }
      var i := 0;
      while i < max
        invariant 0 <= i <= max
        invariant FirstFree(workers, i, max) == FirstFree(workers, 0, max)
      {
        if i !in workers.entries || !workers.entries[i].alive {
          return Some(i);
        }
        i := i + 1;
      }
      return None;
    }

    /** `start_worker`: the slot now holds a live worker for the account. */
    method StartWorker(slot: int, email: string, mode: Mode)
      requires Valid()
      modifies this
      ensures Valid()
      ensures workers == Registry.StartWorker(old(workers), slot, email, mode)
      ensures accounts == old(accounts) && taskQueue == old(taskQueue)
    {
      workers := Put(workers, slot, Worker(email, mode, true));
    }

    /** `on_account_update`: the worker's copy of the account replaces the registered one. */
    method OnAccountUpdate(email: string, account: AccountInfo)
      requires Valid()
      modifies this
      ensures Valid()
      ensures accounts == Put(old(accounts), email, account)
      ensures workers == old(workers) && taskQueue == old(taskQueue)
    {
      accounts := Put(accounts, email, account);
    }

    /** The thread of the worker in `slot` ends; its slot stays tracked but no longer counts as alive. */
    method WorkerExited(slot: int)
      requires Valid()
      modifies this
      ensures Valid()
      ensures workers == Registry.WorkerExited(old(workers), slot)
      ensures accounts == old(accounts) && taskQueue == old(taskQueue)
    {
      if slot in workers.entries {
        workers := Put(workers, slot, workers.entries[slot].(alive := false));
      }
    }

    /** `on_worker_complete`: release the slot if it is still held. */
    method OnWorkerComplete(slot: int)
      requires Valid()
      modifies this
      ensures Valid()
      ensures workers == Remove(old(workers), slot)
      ensures accounts == old(accounts) && taskQueue == old(taskQueue)
    {
      if slot in workers.entries {
        workers := Remove(workers, slot);
      } else {
        RemoveAbsent(workers, slot);
      }
    }

    /**
     * `create_account`: `pick` stands for `random.choice` of the provider,
     * the three draws for `generate_random_name`, and `server` for the mail
     * service answering the address request.
     */
    method CreateAccount(username: string, pick: nat, letters1: seq<nat>, numbers: seq<nat>, letters2: seq<nat>,
                         server: Mailbox.NewAddressRequest -> Mailbox.CreateReply, now: string) returns (r: Result<string, Reason>)
      requires Valid()
      requires Mailbox.Draws(letters1, 4, 26) && Mailbox.Draws(numbers, 2, 10) && Mailbox.Draws(letters2, 3, 26)
      modifies this
      ensures Valid()
      ensures Outcome(State(), r) == CreateAccountStep(old(State()), config.maxWorkers, Config.RandomPick(config.emailConfigs, pick),
        c => Mailbox.CreateEmail(ManagerFor(c), username, Mailbox.GenerateRandomName(letters1, numbers, letters2), server), now)
    {
      var slot := GetAvailableWorkerSlot();
      if slot.None? {
        return Err(Capacity);
      }
      var chosen := config.GetRandomEmailConfig(pick);
      if chosen.None? {
        return Err(NoEmailConfig);
      }
      var generated := Mailbox.GenerateRandomName(letters1, numbers, letters2);
      var created := Mailbox.CreateEmail(ManagerFor(chosen.value), username, generated, server);
      if !Created(created) {
        return Err(MailboxCreationFailed);
      }
      var address := created.1.value;
      accounts := Put(accounts, address, NewAccount(address, created.0.value, chosen.value, now));
      StartWorker(slot.value, address, Register);
      return Ok(address);
    }

    /** `refresh_account` */
    method RefreshAccount(email: string, now: string) returns (r: Result<(), Reason>)
      requires Valid()
      modifies this
      ensures Valid()
      ensures Outcome(State(), r) == RefreshStep(old(State()), email, config.emailConfigs, config.maxWorkers, now)
    {
      var account: AccountInfo;
      if email in accounts.entries {
        account := accounts.entries[email];
      } else {
        var configs := config.GetEmailConfigs();
        var synthesized := AccountFromEmail(email, configs, now);
        if synthesized.None? {
          return Err(NotFound);
        }
        account := synthesized.value;
        accounts := Put(accounts, email, account);
      }
      var slot := GetAvailableWorkerSlot();
      if slot.None? {
        return Err(Capacity);
      }
      account := account.(status := UPDATING);
      accounts := Put(accounts, email, account);
      StartWorker(slot.value, account.email, Refresh);
      return Ok(());
    }

    /** `retry_account` */
    method RetryAccount(email: string) returns (r: Result<(), Reason>)
      requires Valid()
      modifies this
      ensures Valid()
      ensures Outcome(State(), r) == RetryStep(old(State()), email, config.maxWorkers)
    {
      if email !in accounts.entries {
        return Err(NotFound);
      }
      var account := accounts.entries[email];
      if account.status != FAILED {
        return Err(InvalidState);
      }
      var slot := GetAvailableWorkerSlot();
      if slot.None? {
        return Err(Capacity);
      }
      account := account.(status := PENDING, errorMessage := "");
      accounts := Put(accounts, email, account);
      StartWorker(slot.value, account.email, Register);
      return Ok(());
    }

    /** `delete_account` */
    method DeleteAccount(email: string) returns (r: Result<(), Reason>)
      requires Valid()
      modifies this
      ensures Valid()
      ensures Outcome(State(), r) == DeleteStep(old(State()), email)
    {
      if email in accounts.entries {
        accounts := Remove(accounts, email);
        return Ok(());
      }
      RemoveAbsent(accounts, email);
      return Err(NotFound);
    }

    /** One iteration of `refresh_all_accounts`: start a refresh worker for `account`, or queue it. */
    method DispatchAccount(account: AccountInfo)
      requires Valid()
      modifies this
      ensures Valid()
      ensures State() == DispatchOne(old(State()), account, config.maxWorkers)
    {
      var slot := GetAvailableWorkerSlot();
      if slot.Some? {
        accounts := Put(accounts, account.email, account.(status := UPDATING));
        StartWorker(slot.value, account.email, Refresh);
      } else {
        taskQueue := taskQueue + [Task(Refresh, account.email)];
      }
    }

    /** `refresh_all_accounts`: dispatch each SUCCESS account, or queue it when no slot is free. */
    method RefreshAll() returns (r: Result<nat, Reason>)
      requires Valid()
      modifies this
      ensures Valid()
      ensures Outcome(State(), r) == RefreshAllStep(old(State()), config.maxWorkers)
    {
      var pending := CollectSuccessAccounts(Values(accounts));
      if pending == [] {
        return Err(NothingToRefresh);
      }
      var queued := 0;
      for i := 0 to |pending|
        invariant Valid()
        invariant State() == DispatchAll(old(State()), pending[..i], config.maxWorkers)
        invariant queued == i
      {
        assert pending[..i + 1][..i] == pending[..i];
        DispatchAccount(pending[i]);
        queued := queued + 1;
      }
      assert pending[..|pending|] == pending;
      return Ok(queued);
    }

    /** `stop_account`: stop the first worker running the account and mark the account stopped. */
    method StopAccount(email: string) returns (r: Result<(), Reason>)
      requires Valid()
      modifies this
      ensures Valid()
      ensures Outcome(State(), r) == StopStep(old(State()), email)
    {
      var found := FindWorker(workers, email);
      if found.None? {
        return Err(NotFound);
      }
      var slot := workers.keys[found.value];
      workers := Remove(workers, slot);
      if email in accounts.entries {
        accounts := Put(accounts, email, Stopped(accounts.entries[email]));
      }
      return Ok(());
    }

    /** The loop of `stop_all` over `list(workers.items())`: each worker's account is marked stopped. */
    method MarkWorkersStopped() returns (stopped: nat)
      requires Valid()
      modifies this`accounts
      ensures Valid()
      ensures accounts == MarkAllStopped(old(accounts), WorkerEmails(workers))
      ensures stopped == |workers.keys|
    {
      var emails := WorkerEmails(workers);
      var marked;
      marked, stopped := MarkEach(accounts, emails);
      accounts := marked;
    }

    /** `while not task_queue.empty(): task_queue.get_nowait()` */
    method DrainQueue()
      modifies this`taskQueue
      ensures taskQueue == []
    {
      while taskQueue != []
        decreases |taskQueue|
      {
        taskQueue := taskQueue[1..];
      }
    }

    /** `stop_all`: mark every tracked worker's account stopped, clear the workers and drain the queue. */
    method StopAll() returns (stopped: nat)
      requires Valid()
      modifies this
      ensures Valid()
      ensures Outcome(State(), Ok(stopped)) == StopAllStep(old(State()))
    {
      stopped := MarkWorkersStopped();
      SizeOfKeys(workers);
      workers := Empty();
      DrainQueue();
    }

    /** One turn of `background_task_processor`. */
    method ProcessOnce() returns (p: Processed)
      requires Valid()
      modifies this
      ensures Valid()
      ensures (State(), p) == ProcessStep(old(State()), config.maxWorkers)
    {
      if taskQueue == [] {
        return Idle;
      }
      var task := taskQueue[0];
      taskQueue := taskQueue[1..];
      var slot := GetAvailableWorkerSlot();
      if slot.Some? {
        StartWorker(slot.value, task.accountEmail, task.mode);
        return Dispatched(slot.value, task);
      }
      taskQueue := taskQueue + [task];
      return Requeued(task);
    }

    /** `get_accounts`: one account by address, or a filtered page with the counters. */
    method GetAccounts(email: string, filter: string, search: string, page: int, perPage: int) returns (r: Result<Listing, Reason>)
      requires Valid()
      ensures r == ListSpec(accounts, email, filter, search, page, perPage)
    {
      if email != "" {
        if email in accounts.entries {
          return Ok(Single(accounts.entries[email]));
        }
        return Err(NotFound);
      }
      var result := FilterAccounts(Values(accounts), filter, search);
      var stats := CountStatuses(Values(accounts));
      if perPage == 0 {
        return Err(DivisionByZero);
      }
      var start := (page - 1) * perPage;
      var paginated := PySlice(result, start, start + perPage);
      return Ok(Page(paginated, |result|, page, perPage, TotalPages(|result|, perPage), stats));
    }

    /** `export_accounts`: `is_complete` is a parameter, `now` stands for `datetime.now().isoformat()`. */
    method ExportAccounts(isComplete: AccountInfo -> bool, now: string) returns (records: seq<ExportRecord>)
      requires Valid()
      ensures records == ExportRecords(Exportable(Values(accounts), isComplete), config.userAgent, now)
    {
      var selected := SelectExportable(Values(accounts), isComplete);
      records := BuildRecords(selected, config.userAgent, now);
    }
  }
}
