/** The recurring sweep set up in the constructor of src/bot.ts: take a
    listing of the interval table, and for each row whose start lies before
    the clock, check the user's session; for an authorized user fetch the
    balance through the progress reporter, send it, and move the row to
    `start + ONE_DAY`. The sweep is an async callback without a `catch`: a
    rejected fetch ends it. */
module Scheduler {
  import opened JsNumbers
  import opened Utils
  import opened Intervals
  import opened BotState
  import opened Progress

  /** `ONE_DAY` of `./constants`, in milliseconds (the value is assumed;
      nothing proved depends on it). */
  const OneDay: int := 24 * 60 * 60 * 1000

  const GettingCash: string := "Getting cash"

  /** The text of a balance message: `Current ${cash}€`. */
  function CashText(cash: string): string {
    "Current " + cash + "€"
  }

  /** `interval.start < Date.now()`; a `NaN` start compares false. */
  predicate Due(start: ParsedInt, now: int) {
    start.Int? && start.value < now
  }

  /** How the sweep reads a user's session. `Awaited` reads the session
      store; `Unawaited` is the code as written, which takes `bbvaUser` off
      the pending promise that `getSession` returns, and so always sees
      `undefined`. */
  datatype SessionRead = Awaited(sessions: map<int, Session>) | Unawaited

  /** `session?.bbvaUser` for the row's user. A `NaN` user id names the
      session key "NaN", which no Telegram user has. */
  function ReadUser(read: SessionRead, userId: ParsedInt): Nullable<string> {
    match read
    case Unawaited => Undefined
    case Awaited(sessions) =>
      if userId.Int? then SessionUser(SessionOf(sessions, userId.value)) else Undefined
  }

  /** A row fires when it is due at the clock reading taken for it and its
      user's session passes the gate. */
  predicate Fires(cfg: Config, read: SessionRead, row: Interval, now: int) {
    Due(row.start, now) && IsRightUser(cfg, ReadUser(read, row.userId))
  }

  /** One fired row: the progress-wrapped fetch; then, if it resolved, the
      balance message and the reschedule by `removeInterval` and
      `setInterval(userId, start + ONE_DAY)`. */
  function Fire(w: World, row: Interval, task: Task): World
    requires row.userId.Int? && row.start.Int?
  {
    var u := row.userId.value;
    var w1 := AfterProgress(w, u, GettingCash, task);
    match task.outcome
    case Rejected => w1
    case Resolved(cash) =>
      World(Stored(Removed(w1.store, u), u, row.start.value + OneDay),
            w1.log + [Send(u, w1.nextMessageId, CashText(cash))],
            w1.nextMessageId + 1, w1.tickers)
  }

  /** Where a sweep stands: the state so far, the rows whose fetch resolved
      (and were rescheduled), and the row whose fetch rejected, if any. */
  datatype SweepState = SweepState(world: World, fetched: seq<nat>, failedAt: Option<nat>)

  /** The loop body for row `i`; `clock(i)` is the `Date.now()` read for it,
      and the k-th fetch of the sweep behaves as `fetches(k)`. */
  function Step(cfg: Config, read: SessionRead, st: SweepState, rows: seq<Interval>, i: nat,
                clock: nat -> int, fetches: nat -> Task): SweepState
    requires i < |rows|
  {
    if st.failedAt.Some? || !Fires(cfg, read, rows[i], clock(i)) then st
    else
      var task := fetches(|st.fetched|);
      var w := Fire(st.world, rows[i], task);
      if task.outcome.Rejected? then SweepState(w, st.fetched, Some(i))
      else SweepState(w, st.fetched + [i], None)
  }

  /** The sweep after its first `n` rows. */
  function SweepPrefix(cfg: Config, read: SessionRead, w: World, rows: seq<Interval>, n: nat,
                       clock: nat -> int, fetches: nat -> Task): SweepState
    requires n <= |rows|
  {
    if n == 0 then SweepState(w, [], None)
    else Step(cfg, read, SweepPrefix(cfg, read, w, rows, n - 1, clock, fetches), rows, n - 1, clock, fetches)
  }

  predicate DistinctUsers(rows: seq<Interval>) {
    forall i, j :: 0 <= i < j < |rows| ==> rows[i].userId != rows[j].userId
  }

  // ---------------------------------------------------------------------
  // What a sweep does

  /** Only rows that fire are fetched: a row not yet due, or whose user is
      not authorized, gets no fetch. Rows are fetched in order, and nothing
      after a failed fetch. */
  lemma {:induction false} FetchedRowsFire(cfg: Config, read: SessionRead, w: World, rows: seq<Interval>, n: nat,
                                           clock: nat -> int, fetches: nat -> Task)
    requires n <= |rows|
    ensures var r := SweepPrefix(cfg, read, w, rows, n, clock, fetches);
      && (forall i :: i in r.fetched ==> i < n && Fires(cfg, read, rows[i], clock(i)))
      && (forall j, k :: 0 <= j < k < |r.fetched| ==> r.fetched[j] < r.fetched[k])
      && (r.failedAt.Some? ==> r.failedAt.value < n && Fires(cfg, read, rows[r.failedAt.value], clock(r.failedAt.value))
                               && forall i :: i in r.fetched ==> i < r.failedAt.value)
  {
    if n > 0 {
      var prev := SweepPrefix(cfg, read, w, rows, n - 1, clock, fetches);
      var r := SweepPrefix(cfg, read, w, rows, n, clock, fetches);
      FetchedRowsFire(cfg, read, w, rows, n - 1, clock, fetches);
      if prev.failedAt.Some? || !Fires(cfg, read, rows[n - 1], clock(n - 1)) {
        assert r == prev;
      } else if fetches(|prev.fetched|).outcome.Rejected? {
        assert r.fetched == prev.fetched && r.failedAt == Some(n - 1);
      } else {
        assert r.fetched == prev.fetched + [n - 1] && r.failedAt.None?;
        assert forall j :: 0 <= j < |prev.fetched| ==> prev.fetched[j] in prev.fetched;
      }
    }
  }

  /** A sweep that ran to the end fetched every row that fires; one that
      failed at row `f` fetched every row before `f` that fires. */
  lemma {:induction false} EveryFiringRowFetched(cfg: Config, read: SessionRead, w: World, rows: seq<Interval>, n: nat,
                                                 clock: nat -> int, fetches: nat -> Task)
    requires n <= |rows|
    ensures var r := SweepPrefix(cfg, read, w, rows, n, clock, fetches);
      forall i ::
        (0 <= i < n && Fires(cfg, read, rows[i], clock(i)) && (r.failedAt.None? || i < r.failedAt.value))
        ==> i in r.fetched
  {
    if n > 0 {
      EveryFiringRowFetched(cfg, read, w, rows, n - 1, clock, fetches);
      FetchedRowsFire(cfg, read, w, rows, n - 1, clock, fetches);
    }
  }

  /** A user none of whose rows was fetched and rescheduled keeps its entry:
      rows not due, rows of unauthorized users and a row whose fetch failed
      leave the table as it was. */
  lemma {:induction false} UnfetchedUsersUnchanged(cfg: Config, read: SessionRead, w: World, rows: seq<Interval>, n: nat,
                                                   clock: nat -> int, fetches: nat -> Task, v: int)
    requires n <= |rows|
    requires forall i :: 0 <= i < n && i in SweepPrefix(cfg, read, w, rows, n, clock, fetches).fetched ==> rows[i].userId != Int(v)
    ensures Lookup(SweepPrefix(cfg, read, w, rows, n, clock, fetches).world.store, v) == Lookup(w.store, v)
  {
    if n > 0 {
      var prev := SweepPrefix(cfg, read, w, rows, n - 1, clock, fetches);
      var r := SweepPrefix(cfg, read, w, rows, n, clock, fetches);
      assert forall i :: i in prev.fetched ==> i in r.fetched;
      UnfetchedUsersUnchanged(cfg, read, w, rows, n - 1, clock, fetches, v);
      if prev.failedAt.None? && Fires(cfg, read, rows[n - 1], clock(n - 1)) {
        var task := fetches(|prev.fetched|);
        if task.outcome.Resolved? {
          var u := rows[n - 1].userId.value;
          assert n - 1 in r.fetched;
          var s1 := AfterProgress(prev.world, u, GettingCash, task).store;
          OthersUnchanged(s1, u, v, 0);
          OthersUnchanged(Removed(s1, u), u, v, rows[n - 1].start.value + OneDay);
        }
      }
    }
  }

  /** What firing one row does to the table: a resolved fetch moves the
      row's user to `start + ONE_DAY`, a rejected one writes nothing, and
      other users' entries are never touched. */
  lemma FireLookup(w: World, row: Interval, task: Task, v: int)
    requires row.userId.Int? && row.start.Int?
    ensures task.outcome.Rejected? ==> Fire(w, row, task).store == w.store
    ensures task.outcome.Resolved? && v == row.userId.value ==>
      Lookup(Fire(w, row, task).store, v) == Some(Int(row.start.value + OneDay))
    ensures v != row.userId.value ==> Lookup(Fire(w, row, task).store, v) == Lookup(w.store, v)
  {
    var u := row.userId.value;
    var t := row.start.value + OneDay;
    assert AfterProgress(w, u, GettingCash, task).store == w.store;
    if task.outcome.Resolved? {
      assert Fire(w, row, task).store == Stored(Removed(w.store, u), u, t);
      SetThenGet(Removed(w.store, u), u, t);
      if v != u {
        OthersUnchanged(w.store, u, v, 0);
        OthersUnchanged(Removed(w.store, u), u, v, t);
      }
    }
  }

  /** Every row in `fetched` lies below `bound` and its user now holds its
      start plus `ONE_DAY` in `store`. */
  ghost predicate Rescheduled(rows: seq<Interval>, fetched: seq<nat>, store: map<string, string>, bound: nat) {
    bound <= |rows| &&
    forall i :: i in fetched ==>
      && i < bound && rows[i].userId.Int? && rows[i].start.Int?
      && Lookup(store, rows[i].userId.value) == Some(Int(rows[i].start.value + OneDay))
  }

  /** A resolved fire of row `k` adds `k` to the rescheduled rows and keeps
      the earlier ones, when no two rows name the same user. */
  lemma FireKeepsRescheduled(w: World, rows: seq<Interval>, fetched: seq<nat>, k: nat, task: Task)
    requires k < |rows| && DistinctUsers(rows) && Rescheduled(rows, fetched, w.store, k)
    requires rows[k].userId.Int? && rows[k].start.Int? && task.outcome.Resolved?
    ensures Rescheduled(rows, fetched + [k], Fire(w, rows[k], task).store, k + 1)
  {
    forall i | i in fetched + [k]
      ensures rows[i].userId.Int? && rows[i].start.Int?
      ensures Lookup(Fire(w, rows[k], task).store, rows[i].userId.value) == Some(Int(rows[i].start.value + OneDay))
    {
      if i != k {
        assert i in fetched;
        assert rows[i].userId != rows[k].userId;
      }
      FireLookup(w, rows[k], task, rows[i].userId.value);
    }
  }

  /** One step keeps the rescheduled rows rescheduled. */
  lemma StepKeepsRescheduled(cfg: Config, read: SessionRead, st: SweepState, rows: seq<Interval>, k: nat,
                             clock: nat -> int, fetches: nat -> Task)
    requires k < |rows| && DistinctUsers(rows) && Rescheduled(rows, st.fetched, st.world.store, k)
    ensures var r := Step(cfg, read, st, rows, k, clock, fetches);
      Rescheduled(rows, r.fetched, r.world.store, k + 1)
  {
    if st.failedAt.None? && Fires(cfg, read, rows[k], clock(k)) {
      var task := fetches(|st.fetched|);
      assert rows[k].userId.Int? && rows[k].start.Int?;
      if task.outcome.Resolved? {
        FireKeepsRescheduled(st.world, rows, st.fetched, k, task);
      } else {
        FireLookup(st.world, rows[k], task, 0);
      }
    }
  }

  /** When no two rows name the same user, every rescheduled row's user now
      holds `start + ONE_DAY`: the row's own start, whatever the clock read. */
  lemma {:induction false} FetchedRowsRescheduled(cfg: Config, read: SessionRead, w: World, rows: seq<Interval>, n: nat,
                                                  clock: nat -> int, fetches: nat -> Task)
    requires n <= |rows| && DistinctUsers(rows)
    ensures var r := SweepPrefix(cfg, read, w, rows, n, clock, fetches);
      Rescheduled(rows, r.fetched, r.world.store, n)
  {
    if n > 0 {
      var prev := SweepPrefix(cfg, read, w, rows, n - 1, clock, fetches);
      FetchedRowsRescheduled(cfg, read, w, rows, n - 1, clock, fetches);
      StepKeepsRescheduled(cfg, read, prev, rows, n - 1, clock, fetches);
      var r := Step(cfg, read, prev, rows, n - 1, clock, fetches);
      assert Rescheduled(rows, r.fetched, r.world.store, n);
    }
  }

  /** A sweep that fetched nothing changed nothing: no message, no write. */
  lemma {:induction false} NoFetchNoChange(cfg: Config, read: SessionRead, w: World, rows: seq<Interval>, n: nat,
                                           clock: nat -> int, fetches: nat -> Task)
    requires n <= |rows|
    requires SweepPrefix(cfg, read, w, rows, n, clock, fetches).fetched == []
    requires SweepPrefix(cfg, read, w, rows, n, clock, fetches).failedAt.None?
    ensures SweepPrefix(cfg, read, w, rows, n, clock, fetches).world == w
  {
    if n > 0 {
      NoFetchNoChange(cfg, read, w, rows, n - 1, clock, fetches);
    }
  }

  /** Once a fetch has failed, the remaining rows are skipped. */
  lemma {:induction false} FailureEndsSweep(cfg: Config, read: SessionRead, w: World, rows: seq<Interval>, k: nat, n: nat,
                                            clock: nat -> int, fetches: nat -> Task)
    requires k <= n <= |rows|
    requires SweepPrefix(cfg, read, w, rows, k, clock, fetches).failedAt.Some?
    ensures SweepPrefix(cfg, read, w, rows, n, clock, fetches) == SweepPrefix(cfg, read, w, rows, k, clock, fetches)
    decreases n
  {
    if k < n {
      FailureEndsSweep(cfg, read, w, rows, k, n - 1, clock, fetches);
    }
  }

  /** Every running ticker belongs to a message already handed out. */
  ghost predicate TickersIssued(w: World) {
    forall t :: t in w.tickers ==> t < w.nextMessageId
  }

  /** The invariant the bot keeps: a well-formed table, and no ticker for a
      message not yet sent. */
  ghost predicate Consistent(w: World) {
    WellFormed(w.store) && TickersIssued(w)
  }

  /** The progress reporter keeps the invariant: it writes no table entry,
      and the one ticker it may leave running belongs to the message it
      sent. */
  lemma ProgressKeepsConsistent(w: World, chat: int, text: string, task: Task)
    requires Consistent(w)
    ensures var w1 := AfterProgress(w, chat, text, task);
      w1.store == w.store && w1.nextMessageId == w.nextMessageId + 1
    ensures AfterProgress(w, chat, text, task).tickers <= w.tickers + {w.nextMessageId}
    ensures Consistent(AfterProgress(w, chat, text, task))
  {
  }

  /** Firing a row writes the table only on a resolved fetch, uses one or
      two message ids, and adds at most the progress message's ticker. */
  lemma FireFacts(w: World, row: Interval, task: Task)
    requires row.userId.Int? && row.start.Int?
    ensures var f := Fire(w, row, task);
      && f.store == (if task.outcome.Resolved?
                     then Stored(Removed(w.store, row.userId.value), row.userId.value, row.start.value + OneDay)
                     else w.store)
      && f.nextMessageId > w.nextMessageId
      && f.tickers <= w.tickers + {w.nextMessageId}
  {
    var w1 := AfterProgress(w, row.userId.value, GettingCash, task);
    assert w1.store == w.store && w1.nextMessageId == w.nextMessageId + 1;
    assert w1.tickers <= w.tickers + {w.nextMessageId};
  }

  lemma FireKeepsConsistent(w: World, row: Interval, task: Task)
    requires Consistent(w) && row.userId.Int? && row.start.Int?
    ensures Consistent(Fire(w, row, task))
  {
    var u := row.userId.value;
    FireFacts(w, row, task);
    if task.outcome.Resolved? {
      StoredWellFormed(w.store, u, 0);
      StoredWellFormed(Removed(w.store, u), u, row.start.value + OneDay);
    }
  }

  /** One step of the sweep keeps the invariant. */
  lemma StepKeepsConsistent(cfg: Config, read: SessionRead, st: SweepState, rows: seq<Interval>, i: nat,
                            clock: nat -> int, fetches: nat -> Task)
    requires i < |rows| && Consistent(st.world)
    ensures Consistent(Step(cfg, read, st, rows, i, clock, fetches).world)
  {
    if st.failedAt.None? && Fires(cfg, read, rows[i], clock(i)) {
      FireKeepsConsistent(st.world, rows[i], fetches(|st.fetched|));
    }
  }

  lemma {:induction false} SweepKeepsConsistent(cfg: Config, read: SessionRead, w: World, rows: seq<Interval>, n: nat,
                                                clock: nat -> int, fetches: nat -> Task)
    requires n <= |rows| && Consistent(w)
    ensures Consistent(SweepPrefix(cfg, read, w, rows, n, clock, fetches).world)
  {
    if n > 0 {
      var prev := SweepPrefix(cfg, read, w, rows, n - 1, clock, fetches);
      SweepKeepsConsistent(cfg, read, w, rows, n - 1, clock, fetches);
      StepKeepsConsistent(cfg, read, prev, rows, n - 1, clock, fetches);
      assert SweepPrefix(cfg, read, w, rows, n, clock, fetches) == Step(cfg, read, prev, rows, n - 1, clock, fetches);
    }
  }

  // ---------------------------------------------------------------------
  // The session read as written

  /** As written, the sweep never fires: whatever the table, the sessions
      and the clock, it fetches nothing and changes nothing. */
  lemma {:induction false} UnawaitedSweepFiresNothing(cfg: Config, w: World, rows: seq<Interval>, n: nat,
                                                      clock: nat -> int, fetches: nat -> Task)
    requires n <= |rows|
    ensures SweepPrefix(cfg, Unawaited, w, rows, n, clock, fetches) == SweepState(w, [], None)
  {
    if n > 0 {
      UnawaitedSweepFiresNothing(cfg, w, rows, n - 1, clock, fetches);
    }
  }

  /** A row that is due at its clock reading and whose user's stored session
      passes the gate, in a sweep whose fetch resolves: read through the
      session store it is fetched and rescheduled; read as written it is
      skipped. */
  lemma AwaitedSweepFiresWhereUnawaitedDoesNot(cfg: Config, sessions: map<int, Session>, w: World,
                                               userId: int, start: int, clock: nat -> int, fetches: nat -> Task)
    requires start < clock(0)
    requires IsRightUser(cfg, SessionUser(SessionOf(sessions, userId)))
    requires fetches(0).outcome.Resolved?
    ensures var rows := [Interval(Int(userId), Int(start))];
      && SweepPrefix(cfg, Awaited(sessions), w, rows, 1, clock, fetches).fetched == [0]
      && Lookup(SweepPrefix(cfg, Awaited(sessions), w, rows, 1, clock, fetches).world.store, userId) == Some(Int(start + OneDay))
      && SweepPrefix(cfg, Unawaited, w, rows, 1, clock, fetches).fetched == []
  {
    var rows := [Interval(Int(userId), Int(start))];
    var r := SweepPrefix(cfg, Awaited(sessions), w, rows, 1, clock, fetches);
    assert ReadUser(Awaited(sessions), Int(userId)) == SessionUser(SessionOf(sessions, userId));
    assert Fires(cfg, Awaited(sessions), rows[0], clock(0));
    assert SweepPrefix(cfg, Awaited(sessions), w, rows, 0, clock, fetches) == SweepState(w, [], None);
    assert r == Step(cfg, Awaited(sessions), SweepState(w, [], None), rows, 0, clock, fetches);
    var s1 := AfterProgress(w, userId, GettingCash, fetches(0)).store;
    assert r.world.store == Stored(Removed(s1, userId), userId, start + OneDay);
    SetThenGet(Removed(s1, userId), userId, start + OneDay);
  }
}
