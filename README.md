# Gemini Business account manager — a verified model of its core

The system registers and refreshes Gemini Business accounts. Each account
has a throw-away mailbox on a self-hosted temporary-mail service. A Flask
application keeps a registry of accounts (`email -> AccountInfo`) and a
bounded pool of worker slots (`slot -> browser worker`). It also has a FIFO
queue for refresh tasks that could not get a slot straight away. These sit
beside a configuration store: the worker cap, the user agent, the browser
fingerprint and the list of mail providers (worker domain, e-mail domain,
admin password). A mailbox client creates addresses. It also polls the
newest message until it finds a six-character verification code.

This project models those three pieces in Dafny and proves what their code
promises:

- `wrappers.dfy`: `Option` and `Result`.
- `text.dfy`: the Python string operations the code relies on: `strip`,
  `split`, `join`, `lower`, `upper`, `replace`, `in` and `or`. `strip` and
  `\s` use Python's whitespace set; the case mappings are ASCII.
- `dicts.dfy`: an insertion-ordered dictionary, since dictionary order is
  observable in the source. It fixes the listing order, the refresh-all
  order and which worker `stop_account` stops.
- `config.py` becomes the `Config` module:
  - the `ConfigStore` class, whose fields are reassigned by its methods;
  - the environment parsing, as a loop proved against a fold;
  - the pure views: the clamped worker count, the masked provider list and
    the random pick.
- The mailbox client becomes the `Mailbox` module:
  - the random-name shape;
  - the request behind `create_email`;
  - the quoted-printable clean-up;
  - the four code patterns, searched leftmost-first;
  - the polling loop, as a method over a sequence of poll replies.
- The worker slots, lookups and handlers become two modules:
  - `Registry` states each handler as a pure transition
    `Fleet -> Outcome(Fleet, reply)`, where a `Fleet` is the registry, the
    worker map and the queue. It proves the allocator bound, the
    failure-leaves-state-unchanged conditions, the listing and paging
    arithmetic, and the export selection.
  - `Orchestrator.App` holds that state in mutable fields. Each handler
    method is proved to perform exactly its `Registry` transition.

Inputs the program reads from outside come in as parameters:

- the environment;
- the random draws;
- the clock (`now`);
- the mail server's replies (a function for address creation, a sequence of
  replies for polling);
- `AccountInfo.is_complete`.

## Model

| member | source | states |
|---|---|---|
| Config.ClampWorkers | config.py:79-81 | the stored cap is always in [1, 10]; a value already in range is kept, and values below or above are raised to 1 or lowered to 10 |
| Text.Strip | config.py:45-47 | the result is a contiguous piece of the input with only whitespace cut from either end, and it neither starts nor ends with whitespace |
| Config.FieldAt | config.py:45-47 | a missing position gives ""; any field read has no whitespace at either end |
| Config.FieldAtStripped | config.py:45-47 | a field at a present position is that list element with only its surrounding whitespace cut off |
| Text.Split | config.py:37-39 | `split(';')` gives one more piece than there are separators, and no piece contains the separator |
| Text.JoinSplit | config.py:37-39 | joining the pieces of a split with the separator gives back the original text |
| Config.CandidateAt | config.py:37-49 | candidate `i` of the `range(max_len)` loop is the triple built from position `i` of the three lists |
| Config.KeptMembers | config.py:51-54 | a triple survives parsing if and only if it is a candidate with all three fields non-empty |
| Config.KeptAllComplete | config.py:51-54 | when every candidate is complete, parsing keeps them all, in order |
| Config.LoadedAreComplete | config.py:37-54 | every loaded provider has three non-empty stripped fields and comes from some position below the longest list's length |
| Config.CompleteProviders | config.py:37-54 | the parsing loop yields exactly the complete candidates, in index order |
| Config.SafeView | config.py:95-105 | the safe view has the same length and order, keeps both domains, and masks every password as `***` |
| Config.RandomPick | config.py:107-111 | no pick if and only if the list is empty; otherwise the pick is an element of the list |
| Config.RandomPickReachesAll | config.py:107-111 | every configured provider can be returned by some random draw |
| Config.Overwrite | config.py:124-130 | an update field replaces the stored one exactly when it is given and non-empty |
| Config.ConfigStore.constructor | config.py:16-18 | a new store holds what `_load_from_env` reads: user agent, unclamped worker cap, headless flag, parsed providers, default fingerprint |
| Config.ConfigStore.LoadFromEnv | config.py:20-65 | reloading sets every field from the environment with the same defaults, and the cap is not clamped |
| Config.ConfigStore.LoadEmailConfigs | config.py:35-54 | the stored providers become exactly the complete candidates of the three split environment lists |
| Config.ConfigStore.GetMaxWorkers | config.py:75-77 | returns the stored cap |
| Config.ConfigStore.SetMaxWorkers | config.py:79-81 | after the call the cap is the clamped value and lies in [1, 10] |
| Config.ConfigStore.GetEmailConfigs | config.py:91-93 | returns the stored provider list |
| Config.ConfigStore.GetEmailConfigsSafe | config.py:95-105 | the loop returns the masked view of the stored list |
| Config.ConfigStore.GetRandomEmailConfig | config.py:107-111 | returns nothing exactly when no provider is configured, else one of them |
| Config.ConfigStore.AddEmailConfig | config.py:113-119 | appends exactly the new triple at the end; earlier entries are untouched |
| Config.ConfigStore.UpdateEmailConfig | config.py:121-132 | a bad index is an `IndexError` and nothing changes; a good one overwrites only the given non-empty fields of that entry, and the length and every other entry stay the same |
| Config.ConfigStore.DeleteEmailConfig | config.py:134-139 | a bad index is an `IndexError` and nothing changes; a good one removes exactly that entry and keeps the order of the rest |
| Config.ConfigStore.SetBrowserFingerprint | config.py:145-147 | the given keys take the new values; every other existing key keeps its value, and no other key appears |
| Mailbox.Choices | email_manager.py:27-29 | `''.join(random.choices(alphabet, k))`: one character per draw, each the alphabet entry at that draw |
| Mailbox.GenerateRandomName | email_manager.py:25-30 | the name has 9 characters: 4 lower-case letters, 2 digits, 3 lower-case letters |
| Mailbox.EveryShapedNameIsGenerated | email_manager.py:25-30 | every name of that shape is produced by some draws, so the shape is exact |
| Text.OrElse | email_manager.py:35 | Python's `a or b` on strings: a non-empty username is used as it is, otherwise the generated name; the export defaults its timestamps the same way |
| Mailbox.CreateEmail | email_manager.py:32-58 | only a 200 reply yields its `(jwt, address)`; any other status or a raised request yields `(None, None)` |
| Mailbox.CleanIsIdentityOnPlainText | email_manager.py:80 | the clean-up leaves text with no `=\r\n`, `=\n` or `=3D` unchanged |
| Mailbox.CleanNeverLonger | email_manager.py:80 | the cleaned text is never longer than the raw text |
| Mailbox.NextGt | email_manager.py:83-86 | `[^>]*>` stops at the first `>` from the given position |
| Mailbox.MatchAt | email_manager.py:82-87 | a pattern matched at a position has its six-character alphanumeric group inside the text |
| Mailbox.FirstHitIsFirst | email_manager.py:90 | the scan that `re.search` performs over start positions returns the first matching one: every earlier position, or every position when none is found, is a miss |
| Mailbox.FirstMatch | email_manager.py:90 | a match found by the scan is at an in-range position where the pattern matches |
| Mailbox.FirstMatchIsLeftmost | email_manager.py:90 | `re.search` reports the leftmost match: no earlier position matches |
| Mailbox.NoMatchAnywhere | email_manager.py:90 | when the scan finds nothing, the pattern matches at no position |
| Mailbox.Search | email_manager.py:90-92 | a group found is six case-insensitive letters or digits |
| Mailbox.SearchNoneIff | email_manager.py:90 | `re.search` finds nothing if and only if the pattern matches at no start position |
| Mailbox.SearchFindsLeftmost | email_manager.py:90-92 | a group found is the six characters captured by the match at the leftmost matching start position |
| Mailbox.ExtractCode | email_manager.py:89-95 | any code returned is six upper-case letters or digits |
| Mailbox.FirstSomeIsFirst | email_manager.py:89-95 | the first present attempt is absent exactly when all are; otherwise it is some attempt preceded only by absent ones |
| Mailbox.ExtractCodeFirstWins | email_manager.py:89-95 | no code if and only if every pattern fails; otherwise the code is the first accepted pattern's, and every earlier pattern failed |
| Mailbox.PollCode | email_manager.py:75-80 | a poll yields a code only on a 200 reply with a non-empty result list; on such a reply the result is exactly the code extracted from the cleaned first (newest) message |
| Mailbox.FindCode | email_manager.py:89-95 | the inner loop over the patterns returns the first accepted code |
| Mailbox.ReadPoll | email_manager.py:75-95 | one pass of the loop body computes the poll's code |
| Mailbox.PollLoopOutcome | email_manager.py:62-102 | at most `max_retries` polls; without a code all of them were made; with one, the last poll made found the code, the code is well formed, and no earlier poll yielded one |
| Mailbox.CheckVerificationCode | email_manager.py:60-102 | the retry loop returns what the loop specification gives; with `max_retries <= 0` it makes no poll and finds no code |
| Mailbox.CheckVerificationCodeByDefault | email_manager.py:60-62 | with the default `max_retries` of 30 the loop makes between one and thirty polls, and all thirty when no code turns up |
| Registry.AliveCountIsCard | app.py:78 | the alive count is the number of slots whose worker is alive |
| Registry.FirstFree | app.py:81-83 | the scan returns the first free or dead index in range, or reports that none is free |
| Registry.AvailableSlot | app.py:74-84 | nothing while the alive count is at least `max_workers`; otherwise the smallest index below `max_workers` that is free or dead |
| Registry.AllBusyMeansFull | app.py:81-84 | if every index below the cap is occupied by a live worker, the alive count is at least the cap |
| Registry.AvailableSlotIff | app.py:74-84 | a slot is granted if and only if fewer than `max_workers` workers are alive, so the final `return None` cannot be reached |
| Registry.GrantedSlotStaysWithinBound | app.py:74-100 | occupying a granted slot adds one live worker and stays within the cap |
| Registry.StartWorker | app.py:97-98 | the slot now holds a live worker for the account in the given mode; a new slot goes last in dictionary order |
| Registry.WorkerExited | app.py:78-82 | a worker whose thread ends keeps its slot in the dictionary, in the same order, with only its alive flag cleared |
| Registry.WorkerExitedFreesSlot | app.py:78-82 | after an alive worker exits, its slot counts as free and the alive count drops by exactly one |
| Registry.ReleaseSlot | app.py:109-113 | completion removes exactly that slot, is a no-op on an absent slot, and is idempotent |
| Dicts.WithoutKeepsOrder | app.py:112-113 | dropping one key from a key sequence without repeats keeps the other keys in their order |
| Dicts.RemoveKeepsOrder | app.py:112-113 | `del workers[worker_id]` keeps the insertion order of the remaining slots |
| Registry.DomainOf | app.py:118-121 | no domain if and only if the address has no `@` |
| Registry.DomainOfAddress | app.py:121 | the domain is the lower-cased text between the first `@` and the next `@` |
| Registry.ConfigIndex | app.py:124-128 | the scan returns the first provider whose lower-cased e-mail domain matches |
| Registry.ConfigByDomain | app.py:116-128 | no provider if and only if there is no `@` or no domain matches; otherwise the first matching provider |
| Registry.AccountFromEmail | app.py:131-152 | an account is synthesised exactly when a provider matches: PENDING, empty jwt, that provider, created now |
| Registry.CreateAccountStep | app.py:186-235 | checks slot, then provider, then mailbox; any failure leaves the state unchanged; success registers a PENDING account under the returned address with its jwt, and starts a register worker in the granted slot |
| Registry.RefreshStep | app.py:331-373 | an unknown address with no matching provider is not-found and nothing changes; a synthesised account stays registered even on a capacity failure; success marks it UPDATING and starts a refresh worker for the account object, recorded under the account's own address |
| Registry.StopFindsRefreshedWorker | app.py:362-367 | after a successful refresh, a stop by the account's own address finds its worker |
| Registry.RetryStep | app.py:412-446 | not-found, invalid-state (status not FAILED) and capacity, in that order, leave the state unchanged; success resets to PENDING with an empty error and starts a register worker for the account object, recorded under the account's own address |
| Registry.StopFindsRetriedWorker | app.py:437-441 | after a successful retry, a stop by the account's own address finds its worker, whatever key the account is stored under |
| Registry.DeleteStep | app.py:313-326 | succeeds exactly when the account exists, and removes only that account, keeping the others' keys in sequence; workers and queue are untouched |
| Registry.DeleteKeepsOrder | app.py:317 | deleting the account at position `p` leaves the other accounts in their listing order |
| Registry.Stopped | app.py:461-462 | a stopped account is FAILED with the manual-stop message and otherwise unchanged |
| Registry.MarkStopped | app.py:459-462 | only the named account is marked stopped; the keys and every other account stay the same |
| Registry.WorkerIndexOf | app.py:454-455 | the scan finds the first worker, in dictionary order, running the account |
| Registry.StopStep | app.py:451-472 | succeeds if and only if some worker runs the account; it then removes the first such worker and marks the account stopped; otherwise not-found with nothing changed |
| Registry.WorkerEmails | app.py:481-483 | the accounts of the tracked workers, in dictionary order |
| Registry.MarkAllStoppedEffect | app.py:481-490 | exactly the accounts of the tracked workers are marked stopped; the rest are unchanged |
| Registry.StopAllStep | app.py:477-502 | every account with a tracked worker, alive or not, is marked stopped; the worker map and the queue are emptied; the reported count is the prior number of workers |
| Registry.SuccessAccounts | app.py:381 | the selection holds exactly the SUCCESS accounts |
| Registry.DispatchOne | app.py:392-402 | one iteration of the refresh-all loop: with a free slot the account is stored as UPDATING and a refresh worker starts in that slot, the queue untouched; without one only a refresh task for it is appended to the queue |
| Registry.DispatchAllAccounts | app.py:392-402 | each selected account is either given a worker or appended to the queue as a refresh task; live workers added plus tasks queued equal the number selected; the old queue is a prefix and the cap is respected; which account went where is stated by `Registry.DispatchAllPerAccount` |
| Registry.DispatchAllPerAccount | app.py:392-402 | for pending accounts with distinct addresses, each one is either registered as UPDATING with a live worker running it, or has a refresh task among the newly queued ones with its entry untouched; the entry of every address not pending stays as it was |
| Registry.RefreshAllStep | app.py:378-407 | fails, with nothing changed, if and only if no account is SUCCESS; otherwise it dispatches every SUCCESS account and reports how many; the per-account outcome is `Registry.RefreshAllPerAccount` |
| Registry.RefreshAllPerAccount | app.py:378-407 | in a registry keyed by address, every SUCCESS account ends up UPDATING with a live worker, or queued for refresh with its entry untouched; every other account stays as it was |
| Registry.ProcessStep | app.py:689-700 | a queued task is either started in the granted slot, or re-appended at the tail with the queue's length and contents kept; accounts are never touched |
| Registry.ListedAccounts | app.py:261-280 | the list holds exactly the accounts passing the status filter and the case-insensitive search |
| Registry.UnfilteredListsAll | app.py:261-280 | with no known filter and no search, every account is listed, in order |
| Registry.TotalPagesIsCeiling | app.py:301 | for `per_page >= 1`, `total_pages` is the ceiling of `total / per_page` |
| Registry.PageWindow | app.py:291-294 | the page is the window `[(page-1)*per_page, page*per_page)` clipped to the list; it holds at most `per_page` items, and is empty exactly past the last page |
| Registry.StatsPartition | app.py:282-289 | success, in-progress and failed counts add up to the total |
| Registry.ListSpec | app.py:240-308 | an `email` query returns exactly that account or not-found; otherwise the filtered page and its total, with a division error exactly when `per_page` is 0; the reply echoes `page` and `per_page`, its `total_pages` is the ceiling of the total over `per_page`, and its stats count all accounts |
| Registry.ExportRecordOf | app.py:516-527 | the record carries the account's address, its session fields and the configured user agent; a set `updated_at` is kept, and a missing `created_at` becomes the current time |
| Registry.Exportable | app.py:510 | the export takes exactly the SUCCESS accounts that are complete |
| Registry.ExportRecords | app.py:516-527 | one record per selected account, in order: record `i` is the record of account `i` |
| Orchestrator.BuildRecords | app.py:516-527 | the record loop builds exactly the specified records |
| Orchestrator.FindWorker | app.py:454-455 | the worker loop finds the first worker running the account |
| Orchestrator.MarkEach | app.py:481-490 | the stop-all loop marks each worker's account and counts every worker |
| Orchestrator.CollectSuccessAccounts | app.py:381 | the comprehension collects exactly the SUCCESS accounts, in order |
| Orchestrator.FilterAccounts | app.py:261-280 | the filter loop yields exactly the listed accounts |
| Orchestrator.CountStatuses | app.py:282-289 | the counting pass yields the specified stats |
| Orchestrator.SelectExportable | app.py:510 | the comprehension yields exactly the exportable accounts |
| Orchestrator.App.constructor | app.py:32-35 | the application starts with no accounts, no workers and an empty queue |
| Orchestrator.App.GetAvailableWorkerSlot | app.py:74-84 | the allocator method returns the specified slot for the current workers and cap |
| Orchestrator.App.StartWorker | app.py:87-100 | only the worker map changes, as specified |
| Orchestrator.App.OnAccountUpdate | app.py:103-106 | only the account entry changes, to the reported value |
| Orchestrator.App.WorkerExited | app.py:78-82 | only the worker map changes: the exited worker's slot is kept and marked not alive |
| Orchestrator.App.OnWorkerComplete | app.py:109-113 | only the slot is released |
| Orchestrator.App.CreateAccount | app.py:186-235 | performs exactly the create transition, using the random pick and the generated name |
| Orchestrator.App.RefreshAccount | app.py:331-373 | performs exactly the refresh transition |
| Orchestrator.App.RetryAccount | app.py:412-446 | performs exactly the retry transition |
| Orchestrator.App.DeleteAccount | app.py:313-326 | performs exactly the delete transition |
| Orchestrator.App.DispatchAccount | app.py:393-402 | one iteration of the refresh-all loop: dispatch or enqueue |
| Orchestrator.App.RefreshAll | app.py:378-407 | performs exactly the refresh-all transition |
| Orchestrator.App.StopAccount | app.py:451-472 | performs exactly the stop transition |
| Orchestrator.App.MarkWorkersStopped | app.py:480-490 | marks every tracked worker's account stopped and counts the workers |
| Orchestrator.App.DrainQueue | app.py:493-497 | the queue is empty afterwards |
| Orchestrator.App.StopAll | app.py:477-502 | performs exactly the stop-all transition |
| Orchestrator.App.ProcessOnce | app.py:689-700 | performs exactly one processor step |
| Orchestrator.App.GetAccounts | app.py:240-308 | returns exactly the specified listing for the current registry |
| Orchestrator.App.ExportAccounts | app.py:507-529 | returns exactly the records of the exportable accounts, with the configured user agent |

## Left out

- The `print` logging (email_manager.py:57, :94 and elsewhere, and the
  processor's exception handler): it writes to standard output only.
- Threads, the locks, `time.sleep`, the blocking `queue.get(timeout=1)` and
  the processor's exception handler. Every operation is one atomic
  sequential step, and lock ordering is not modelled.
- Flask routing, authentication (`requires_auth`, `check_auth`, `login`),
  templates, JSON bodies and HTTP status codes. Each reply is an ok/error
  `Result` with a `Reason`.
- `browser_worker.py` is not part of this model. A worker is the record
  (account email, mode, alive flag). `AccountInfo` keeps only the fields the
  core reads or writes, with the defaults it is assumed to have.
  `is_complete` is a parameter. Thread start and the browser steps are not
  modelled.
- The worker's stop flag: a stop removes the worker entry in the same step.
- Aliasing. Accounts and provider entries are values. Python shares the
  `AccountInfo` objects between the registry and a worker. Account records
  share the provider dicts with the store (`get_email_configs` copies the
  list only). A later change through one of them is not seen through the
  other.
- HTTP calls. Address creation is a function from the request to a reply.
  Polling takes a sequence of replies. An exception, a JSON `null` `raw` or a
  body that is not JSON are all the single reply `PollRaised`.
- Randomness, the clock and `os.getenv` are parameters.
  - `int()` failures on the environment are not modelled.
  - The initial `MAX_WORKERS` value is taken as already parsed by `int()`;
    `HEADLESS` is parsed as the code does (lower-cased, compared with
    `true`).
- Mailbox.CheckVerificationCode: requires one reply per allowed poll
  (`max_retries <= |replies|`), because the replies stand in for the server.
- Python's Unicode case mapping. `lower`, `upper` and `IGNORECASE` cover
  ASCII only; `strip` and `\s` use Python's full whitespace set. Under
  `IGNORECASE` Python also lets characters such as `ſ` and the Kelvin sign
  match `[A-Z]`; the model does not.
- Full `re` semantics: only the four fixed patterns are modelled, each as a
  deterministic matcher.
- The user-agent and headless setters and getters, `get_status`, the settings
  routes and the e-mail-config routes. These are presentation over the
  modelled store.
- The background processor's `None` sentinel and its outer `while True`:
  `ProcessOnce` is one iteration.
- Registry.RefreshAllPerAccount: requires every registry entry to be stored
  under its own address (`KeyedByEmail`). The handlers store entries that
  way, and `on_account_update` relies on the worker doing so. Without it,
  two entries with one address could overwrite each other during the loop.
- Registry.ExportRecordOf: one `now` stands for every `datetime.now()`
  call of an export. The source reads the clock again for each record and
  for each defaulted field, so those timestamps may differ slightly.
- Orchestrator.App.OnAccountUpdate: accepts an account whose address
  differs from the key it is stored under, as the callback does. So
  `KeyedByEmail` is not an invariant of `App`, and no lemma shows that the
  handlers preserve it.
- Registry.StartWorker: re-occupying a dead worker's slot keeps that slot's
  place in dictionary order, as Python's dict does.

## Notes on the source's behaviour

- app.py:121: the provider lookup takes `email.split('@')[1]`, the text
  between the first `@` and the next one (`Registry.DomainOfAddress`).
- email_manager.py:60-102: the polling loop has one retry budget, 30 by
  default, used alike for register and refresh, and it accepts a code from
  the newest message whatever its age (`Mailbox.PollCode`).
- app.py:694-697: the processor starts a queued refresh task without setting
  the account to UPDATING (`Registry.ProcessStep` leaves the accounts
  untouched). Among the accounts refresh-all handles, only those it
  dispatches directly (app.py:395-397) are set to UPDATING;
  `refresh_account` (app.py:362) sets it too (`Registry.RefreshStep`).
