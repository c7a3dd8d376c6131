# BBVANotifier core, modelled in Dafny

BBVANotifier is a Telegram bot. A user proves who they are by sending the
bank user name; the bot keeps its keyed digest in the user's session. An
authorized user can then ask for the account balance (`/now`) or subscribe
to a daily balance message (`/updates`, `/off`). Subscriptions live in Redis
as entries `intervals:<userId>` holding the next fire time in milliseconds.
Every two minutes a sweep reads all entries. For each entry that is due and
whose user's session passes the gate, it fetches the balance behind a
progress message, sends the balance and moves the entry one day on. The
model's sweep `Bot.Sweep` reads the session awaited (the corrected read; as
written see `Scheduler.UnawaitedSweepFiresNothing` under "## Findings").

The project models these parts:

- `JsNumbers` (js_numbers.dfy): the JavaScript number/text conversions the
  table relies on. `${n}` for an integer becomes `IntToString`;
  `parseInt(s, 10)` becomes `ParseInt`, which skips leading white space,
  takes an optional sign and the leading digits, and gives `NaN` when there
  are no digits.
- `Utils` (utils.dfy): `crypt` and `isRightUser` of src/utils.ts. The HMAC
  is a function-valued field of `Config`, together with `SECRET` and
  `BBVA_USER`.
- `Intervals` (intervals.dfy): the interval table of src/intervals.ts.
  - The Redis database is a `map<string, string>`.
  - Functions `Lookup`, `Stored`, `Removed` and the `IsListing` predicate
    say what each operation reads or leaves.
  - Class `IntervalHandler` holds the database in its `client` field. Its
    methods are proved against those functions.
- `BotState` (bot_state.dfy): sessions, the messages the bot sends (an
  event trace), and the balance fetch. A fetch is the number of one-second
  ticks while it is pending, plus how it settles.
- `Progress` (progress.dfy): what `waitForLongTask` puts on the channel.
- `Scheduler` (scheduler.dfy): the sweep as a left fold `SweepPrefix` over
  the listed rows, and what it does to the table and the channel.
- `Router` (router.dfy): the command handlers of `registerCommands`, each
  as the session and state it leaves.
- `BotCore` (bot.dfy): class `Bot`.
  - Its fields are the sessions, the event log, the next message id, the
    running tickers, and its `IntervalHandler`.
  - Its methods are the sweep, the progress reporter and the handlers.
  - Each method is proved against the function above that specifies it.
    The class invariant `Valid` is kept by the sweep and by every handler.
  - `Valid` means: a well-formed table, and every running ticker belongs
    to a message already sent.

Inputs from outside are parameters:

- `Date.now()` for the sweep's row `i` is `clock(i)`.
- The sweep's k-th balance fetch is `fetches(k)`.
- The `/now` fetch is a `task` argument.
- The next fire time and its `toLocaleString` text are arguments of
  `/updates`.

Behaviour of the code worth noting (the model follows it):

- The sweep reschedules to `interval.start + ONE_DAY`, not to the time of
  the fire plus an offset.
- A row is due when `start < Date.now()` (strict).
- `waitForLongTask` has no `try`/`finally`. When the fetch rejects, the
  ticker keeps running and the progress message stays. The `await` throws,
  so `/now` sends no reply.
- In the sweep, a rejected fetch ends the sweep's async callback. That row
  and every later row are left as they were. Nothing catches either
  rejection; "## Left out" says what the model assumes happens next.

## Model

| member | source | states |
|---|---|---|
| JsNumbers.IntToString | src/intervals.ts:32 | `${n}` for an integer: a minus sign before the decimal text of the magnitude when negative, the decimal text otherwise |
| JsNumbers.ParseInt | src/intervals.ts:21 | `parseInt(s, 10)`: skips leading white space, reads an optional sign and the longest run of digits after it, and gives NaN when that run is empty |
| JsNumbers.NatToString | src/intervals.ts:32 | the decimal text of a natural number is non-empty, all digits, and has no leading zero unless it is "0" |
| JsNumbers.TrimStart | src/intervals.ts:21 | the text parseInt starts from is a suffix of the input that does not begin with white space, and every character dropped before it is white space |
| JsNumbers.LeadingDigits | src/intervals.ts:48-49 | the digits parseInt reads are all digits and are followed by a non-digit or the end |
| JsNumbers.DigitsValueOfNatToString | src/intervals.ts:32 | reading the digits of a number's decimal text gives the number back |
| JsNumbers.ParseIntOfIntToString | src/intervals.ts:17-33 | `parseInt(String(n), 10)` is `n` for every integer, negative ones included: what setInterval stores, getInterval reads back |
| JsNumbers.IntToStringInjective | src/intervals.ts:31-33 | distinct numbers are stored as distinct texts |
| JsNumbers.IntToStringIsCanonical | src/intervals.ts:31-33 | the stored text of a number has the canonical form: an optional minus sign, then digits with no leading zero |
| JsNumbers.ParseIntAcceptsLeadingZeros | src/intervals.ts:21 | parseInt still reads text no write produces: "007" reads as 7 but is not canonical |
| JsNumbers.ParseIntWithoutDigits | src/intervals.ts:48-49 | text with no leading digits ("", "abc", "-") reads as NaN |
| Utils.Crypt | src/utils.ts:5-7 | the digest of the text keyed with SECRET |
| Utils.IsRightUser | src/utils.ts:9-11 | the user is a present, non-empty string equal to crypt(BBVA_USER) |
| Utils.IsRightUserCases | src/utils.ts:9-11 | undefined, null and "" are rejected; a present string is accepted exactly when it is non-empty and equals crypt(BBVA_USER) |
| Utils.CryptDependsOnSecretAndText | src/utils.ts:5-7 | crypt is a function of SECRET and the text only |
| Utils.OwnDigestAccepted | src/utils.ts:5-11 | the hex digest of BBVA_USER passes the gate |
| Utils.DigestOfTextAccepted | src/utils.ts:5-11 | for a collision-free digest, crypt(text) passes the gate exactly when text is BBVA_USER |
| Intervals.Key | src/intervals.ts:19 | a user's entry key: `intervals:` followed by the user id's text |
| Intervals.MatchingKeys | src/intervals.ts:41 | the keys `KEYS intervals:*` matches: every stored key that starts with the prefix |
| Intervals.KeyUser | src/intervals.ts:48 | the user id of a listed key: the key with its prefix removed, parsed |
| Intervals.Decode | src/intervals.ts:47-50 | a listed key and its value as a row: the key with its prefix removed, parsed, as the user, and the value parsed as the start |
| Intervals.Lookup | src/intervals.ts:17-25 | what getInterval answers: undefined when the user's key is absent, otherwise its stored text parsed |
| Intervals.Stored | src/intervals.ts:31-33 | the table after setInterval: the user's key set to the number's text |
| Intervals.Removed | src/intervals.ts:35-37 | the table after removeInterval: the user's key gone |
| Intervals.KeyDecodes | src/intervals.ts:41-48 | a user's key matches `intervals:*`, and stripping the prefix and parsing gives the user back |
| Intervals.KeyInjective | src/intervals.ts:19 | distinct users have distinct keys |
| Intervals.SetThenGet | src/intervals.ts:17-33 | after setInterval(u, t) the key exists and getInterval(u) reads t |
| Intervals.SetOverwrites | src/intervals.ts:31-33 | setInterval is an upsert: a second call leaves the table as the second call alone would |
| Intervals.RemoveThenGet | src/intervals.ts:35-37 | after removeInterval(u) getInterval(u) is undefined; removing an absent entry changes nothing |
| Intervals.LookupUndefinedIff | src/intervals.ts:17-25 | getInterval is undefined exactly when the key does not exist |
| Intervals.OthersUnchanged | src/intervals.ts:31-37 | setting or removing one user's entry leaves every other user's entry as it was |
| Intervals.StoredWellFormed | src/intervals.ts:31-37 | writes through the handler keep every matching key a canonical user key holding a canonical number |
| Intervals.KeysOfWellFormed | src/intervals.ts:41 | in a well-formed table a user has its own key or none |
| Intervals.SetLeavesOneKey | src/intervals.ts:31-33 | after setInterval a user has exactly one entry |
| Intervals.ListingDecodes | src/intervals.ts:39-55 | each listed row of a well-formed table carries its key's user and that user's stored time |
| Intervals.ListingCovers | src/intervals.ts:39-55 | every stored user appears in the listing with its time |
| Intervals.ListingDistinctUsers | src/intervals.ts:39-55 | a well-formed listing names each user at most once |
| Intervals.IntervalHandler.constructor | src/intervals.ts:13-15 | the handler starts on the database's current contents |
| Intervals.IntervalHandler.IsIntervalSet | src/intervals.ts:27-29 | true exactly when the user's key exists |
| Intervals.IntervalHandler.GetInterval | src/intervals.ts:17-25 | undefined exactly when the key is absent, otherwise the stored text parsed |
| Intervals.IntervalHandler.SetInterval | src/intervals.ts:31-33 | the table becomes the old one with the user's key set to the number's text, and nothing else changes |
| Intervals.IntervalHandler.RemoveInterval | src/intervals.ts:35-37 | the table becomes the old one without the user's key, and nothing else changes |
| Intervals.IntervalHandler.Keys | src/intervals.ts:41 | `KEYS intervals:*` gives every matching key exactly once: as many keys as match, no repeats |
| Intervals.IntervalHandler.GetAllIntervals | src/intervals.ts:39-55 | the rows list every matching key exactly once, each decoded from its key and value, one row per matching key |
| BotState.SessionUser | src/bot.ts:47 | `session?.bbvaUser`: undefined for a null session, otherwise the record's `bbvaUser`, which may be missing |
| BotState.SessionOf | src/bot.ts:44 | a user's session in the session store; a user with nothing stored gets the empty record `{}` |
| Progress.Edits | src/bot.ts:80-83 | the edits of the first n ticks: the k-th sets the message to the label followed by k dots, the counter starting at 1 |
| Progress.ProgressTrace | src/bot.ts:75-91 | what waitForLongTask puts on the channel: the message sent, one edit per tick, then the stop and the delete when the task resolves |
| Progress.AfterProgress | src/bot.ts:75-91 | the state after waitForLongTask: table unchanged, the trace logged, one message id used, the ticker kept running unless the task resolved |
| Progress.Dots | src/bot.ts:81 | `'.'.repeat(k)` is k dots |
| Progress.EditAt | src/bot.ts:78-83 | the k-th tick edits the message to the label followed by k dots |
| Progress.EditsLength | src/bot.ts:80-83 | n ticks make n edits |
| Progress.EditsDoNotClean | src/bot.ts:80-83 | ticks never stop a ticker or delete a message |
| Progress.CountsAppend | src/bot.ts:87-88 | stops and deletes in a concatenated trace add up |
| Progress.CleanupOnResolve | src/bot.ts:75-91 | on resolve: the message is sent first, then the edits, then the ticker is stopped exactly once and the message deleted exactly once, last |
| Progress.NoCleanupOnReject | src/bot.ts:85-88 | on reject: neither the stop nor the delete happens |
| Progress.TickerAccounting | src/bot.ts:80-88 | a resolved task leaves the set of running tickers as it was; a rejected one leaves its ticker running; the table is untouched |
| Scheduler.CashText | src/bot.ts:54 | the balance message: `Current ` then the balance then `€`; the same text `/now` replies at src/bot.ts:177 |
| Scheduler.Due | src/bot.ts:41 | a row is due when its start is a number strictly below the clock reading; a NaN start is never due |
| Scheduler.ReadUser | src/bot.ts:44-47 | the `bbvaUser` the sweep sees for a row's user: always undefined as written (the session is not awaited); from the user's stored session when awaited; undefined for a NaN user id |
| Scheduler.Fires | src/bot.ts:41-49 | a row fires when it is due at its clock reading and its user's session, as read, passes the gate |
| Scheduler.Fire | src/bot.ts:52-57 | one fired row: the progress-wrapped fetch, then on resolve the balance message and the move of the user's entry to start + ONE_DAY |
| Scheduler.Step | src/bot.ts:40-58 | one loop iteration: nothing after a failed fetch or for a row that is not due or not authorized, otherwise a fire with the next fetch, recording the row as fetched or as the failure |
| Scheduler.SweepPrefix | src/bot.ts:40-60 | the sweep after its first n rows, as the loop runs them in order |
| Scheduler.FetchedRowsFire | src/bot.ts:40-52 | only due rows of authorized users are fetched, in row order, none after a failed fetch |
| Scheduler.EveryFiringRowFetched | src/bot.ts:40-52 | every due row of an authorized user is fetched, up to a failed fetch if there is one |
| Scheduler.UnfetchedUsersUnchanged | src/bot.ts:40-59 | a user with no fetched row keeps its entry: rows not due, unauthorized users and a failed fetch leave it alone |
| Scheduler.FireLookup | src/bot.ts:52-57 | one fire with a resolved fetch moves the row's user to start + ONE_DAY; with a rejected fetch it writes nothing; it never touches another user's entry |
| Scheduler.FireKeepsRescheduled | src/bot.ts:56-57 | when no two rows share a user, a resolved fire of row k adds k to the rescheduled rows and keeps the earlier ones at their new times |
| Scheduler.StepKeepsRescheduled | src/bot.ts:41-58 | one loop step keeps every rescheduled row at its new time |
| Scheduler.FetchedRowsRescheduled | src/bot.ts:56-57 | when no two rows share a user, each fetched row's user now holds that row's start plus ONE_DAY, whatever the clock read |
| Scheduler.NoFetchNoChange | src/bot.ts:34-62 | a sweep that fetched nothing and did not fail changed nothing |
| Scheduler.FailureEndsSweep | src/bot.ts:52 | after a rejected fetch the remaining rows are skipped |
| Scheduler.ProgressKeepsConsistent | src/bot.ts:75-91 | the progress reporter writes no table entry, and the one ticker it may leave running belongs to the message it sent |
| Scheduler.FireFacts | src/bot.ts:52-57 | a fire writes the table only on a resolved fetch, uses at least one message id, and adds at most the progress message's ticker |
| Scheduler.FireKeepsConsistent | src/bot.ts:52-57 | firing one row keeps the table well formed and every running ticker on an issued message |
| Scheduler.StepKeepsConsistent | src/bot.ts:41-58 | one loop step keeps that invariant |
| Scheduler.SweepKeepsConsistent | src/bot.ts:34-62 | a whole sweep keeps that invariant |
| Scheduler.UnawaitedSweepFiresNothing | src/bot.ts:44-49 | as written, whatever the table, sessions and clock, the sweep fetches nothing and changes nothing |
| Scheduler.AwaitedSweepFiresWhereUnawaitedDoesNot | src/bot.ts:41-57 | a due row of an authorized user with a resolving fetch is fetched and moved to start + ONE_DAY when the session is read from the store, and is skipped as written |
| Router.Authorized | src/bot.ts:123 | a handler's gate: `isRightUser(ctx.session?.bbvaUser)`, the same test at src/bot.ts:152, 171 and 199 |
| Router.Said | src/bot.ts:212 | the echo of free text: `You said: ` followed by the text |
| Router.StartCommand | src/bot.ts:112-116 | `start`: the session becomes null and the greeting is replied |
| Router.UpdatesCommand | src/bot.ts:118-145 | `/updates`: "What?" when not authorized, "already subscribed" when an entry exists, otherwise the next fire time stored and confirmed |
| Router.OffCommand | src/bot.ts:147-165 | `/off`: the entry removed and the removal confirmed when authorized and subscribed, otherwise "What?" |
| Router.NowCommand | src/bot.ts:168-183 | `/now`: "What?" when not authorized, otherwise the progress-wrapped fetch and, on resolve, the balance reply |
| Router.TextMessage | src/bot.ts:185-214 | free text: its digest kept as the session when it passes the gate; the menu when the session is authorized, otherwise the session cleared and the text echoed |
| Router.StartClearsSession | src/bot.ts:112-116 | `start` nulls the session, which then fails the gate, and only replies the greeting |
| Router.UnauthorizedCommandsRejected | src/bot.ts:118-183 | without an authorized session `/updates`, `/off` and `/now` reply "What?" and change nothing else |
| Router.UpdatesWhenSubscribed | src/bot.ts:123-126 | an authorized `/updates` with an entry present leaves the table as it was and replies "already subscribed" |
| Router.UpdatesSubscribes | src/bot.ts:127-139 | an authorized `/updates` with no entry stores the next fire time as the user's only entry, leaves other users alone and confirms |
| Router.OffUnsubscribes | src/bot.ts:147-165 | `/off` removes the entry exactly when the session is authorized and an entry exists, and otherwise replies "What?" with the table unchanged |
| Router.NowRepliesWithBalance | src/bot.ts:168-177 | an authorized `/now` with a resolving fetch never writes the table, deletes the progress message once and then replies with the balance |
| Router.TextLeavesSessionNullOrAuthorized | src/bot.ts:185-214 | after free text the session is null or authorized; the menu is sent exactly when it is authorized, and otherwise the text is echoed |
| Router.UpdatesKeepsConsistent | src/bot.ts:118-145 | `/updates` keeps the bot's invariant |
| Router.OffKeepsConsistent | src/bot.ts:147-165 | `/off` keeps the bot's invariant |
| Router.NowKeepsConsistent | src/bot.ts:168-183 | `/now` keeps the bot's invariant |
| Router.SignInThenNow | src/bot.ts:168-214 | sending BBVA_USER authorizes the session, after which `/now` with a resolving fetch ends with the balance reply |
| Router.UpdatesTwice | src/bot.ts:118-145 | a second `/updates` replies "already subscribed" and leaves the table as the first left it |
| BotCore.Bot.constructor | src/bot.ts:18-32 | the bot starts on the given table and sessions with nothing sent, and satisfies `Valid` when the table is well formed |
| BotCore.Bot.SendMessageToUser | src/bot.ts:69-73 | the message goes to the user under the next message id |
| BotCore.Bot.WaitForLongTask | src/bot.ts:75-91 | the new state is the progress trace of the task appended, one message id used and the ticker kept exactly when the task rejects; the result is the task's outcome |
| BotCore.Bot.FireRow | src/bot.ts:52-57 | the new state is what firing the row specifies, and the result is the fetch's outcome |
| BotCore.Bot.SweepRow | src/bot.ts:41-58 | a row fires exactly when it is due and its user's stored session passes the gate; a fired row does what firing specifies, any other row changes nothing |
| BotCore.Bot.SweepRows | src/bot.ts:40-59 | the loop leaves the state of the sweep fold over all rows, and reports completion exactly when no fetch rejected |
| BotCore.Bot.Sweep | src/bot.ts:34-62 | with the session read awaited (the corrected read; as written see `Scheduler.UnawaitedSweepFiresNothing`): the rows are a listing of the table; the new state is the sweep fold over them; the invariant is kept and the rows name distinct users |
| BotCore.Bot.OnStart | src/bot.ts:112-116 | the session store and state become what `start` specifies |
| BotCore.Bot.OnUpdates | src/bot.ts:118-145 | the state becomes what `/updates` specifies; sessions unchanged; invariant kept |
| BotCore.Bot.OnOff | src/bot.ts:147-165 | the state becomes what `/off` specifies; sessions unchanged; invariant kept |
| BotCore.Bot.OnNow | src/bot.ts:168-183 | the state becomes what `/now` specifies; sessions unchanged; invariant kept |
| BotCore.Bot.OnText | src/bot.ts:185-214 | the user's session and the state become what the text handler specifies; invariant kept |

## Left out

- Logging (`console.log`, `debug`) is not modelled. It has no effect on the modelled state. Outside production (`DEBUG_ACTIVE`), `debug` does write to a log file (src/logging.ts:11-14), and at src/bot.ts:189 that includes the raw text of every message, the plain `BBVA_USER` at sign-in among them.
- What happens to a rejection after it leaves a handler or the sweep is not modelled. Nothing catches it:
  - the `setInterval(async () => …)` callback at src/bot.ts:34 has no `catch`;
  - src/index.ts installs no `unhandledRejection` handler;
  - the `/now` rejection leaves through `bot.handleUpdate`, whose promise src/bot.ts:98 drops;
  - the fetch starts at src/bot.ts:52 and 175, before `await this.sendMessageToUser` (src/bot.ts:76), so a fetch that rejects before `await task` (src/bot.ts:85) is reached is reported unhandled as well.

  The model assumes Node's behaviour before version 15, which only reports an unhandled rejection: the `Bot` goes on handling later sweeps and updates. From version 15 on, Node's default ends the process, and then no later sweep or update runs. Which one applies depends on the Node version, and the repository's files do not fix it.
- The balance scraper (`getCash`, src/scrappers/) is a parameter of type `Task`. The webhook and update plumbing (`handleUpdate`, `initializeWebhook`, `removeWebhook`, `getSecrethPath`) is not part of this model.
- Timers are not modelled as timers. The two-minute sweep cadence becomes one call of `Sweep` per tick. The one-second progress ticker becomes the `ticks` count of a task. No two sweeps and no sweep and handler run at the same time.
- `getAllIntervals` starts its reads concurrently; the model reads the keys one by one over the same snapshot. The order of `KEYS` is left open: the listing is in any order.
- A fetch that never settles is not modelled: a `Task` always resolves or rejects after finitely many ticks. In src/scrappers/api.ts:54-84 the promise `accountReady` is built by an async executor that never calls `resolve` when a `fetch` throws. That `getCash` and every later one then stay pending for ever: the ticker edits without end, and neither `/now` nor the sweep finishes.
- Awaited calls other than the fetch never reject in the model: `await this.sendMessageToUser` (src/bot.ts:76), the Redis calls (src/intervals.ts:17-41) and `ctx.reply`. A rejection of any of them would end its handler, or the sweep, the way a rejected fetch does.
- Handlers for concurrent updates are not interleaved: each handler runs to its end before the next update is handled, and the awaits inside one handler never let another handler in.
- `sendMessageToUser` in the sweep and the edit/delete calls are not awaited. The model treats them as happening in program order and never failing.
- The fire time of `/updates` (tomorrow at 10:30 local time) and its `ca-ES` text are inputs. Calendar and locale arithmetic are not modelled.
- The balance is a JavaScript number rendered by a template literal; the model takes that text as given, without floating point.
- `Utils.Crypt`: the HMAC-SHA256 computation is an arbitrary function of key and text. Where a lemma needs collision resistance, it takes it as a precondition.
- `Utils.IsRightUser`: `===` is modelled as string equality; timing is not modelled.
- `JsNumbers.IntToString`: where `${n}` would print exponent notation (|n| ≥ 10^21) or lose precision (beyond 2^53), the model does not follow it. Fire times are far below both.
- `ctx.from` missing (`userId` undefined) is not modelled: every update that reaches a handler has a sender.
- Telegraf's matching of command names (`/updates` versus `updates`, bot-name suffixes) is not modelled: each handler is called directly.
- `ONE_DAY` is taken as 86400000 ms; src/constants.ts is not part of this model, and no proof depends on the value.
- A session whose stored JSON is not a session record is not modelled.

## Findings

| source | as written | input that shows it | evidently intended | confidence | as-written member | corrected member |
|---|---|---|---|---|---|---|
| src/bot.ts:44 | `this.session.getSession(...)` is not awaited. telegraf-session-redis returns a promise here, so `session?.bbvaUser` is always `undefined` and `isRightUser` is always false. | A due entry whose user's stored session holds crypt(BBVA_USER): the sweep skips it, and the sweep never fetches or reschedules anything. | `await` the session, so that a due row of an authorized user fires. `Bot.Sweep` reads the session store. | medium, not executed; it rests on the session library's return type, which is outside the repository | Scheduler.UnawaitedSweepFiresNothing | BotCore.Bot.Sweep |
