/** The `Bot` class of src/bot.ts: the session store, the interval table
    (through its `IntervalHandler`) and the messaging channel, with the
    recurring sweep, the progress reporter and the command handlers as
    methods. Each method is proved against the function of the Scheduler,
    Progress or Router module that states what it does; the properties are
    proved about those functions. */
module BotCore {
  import opened JsNumbers
  import opened Utils
  import opened Intervals
  import opened BotState
  import opened Progress
  import opened Scheduler
  import opened Router

  class Bot {
    /** `secret` and `BBVA_USER`, read from the environment. */
    const cfg: Config
    const intervalHandler: IntervalHandler
    /** The session store, keyed by `ctx.from.id`. */
    var sessions: map<int, Session>
    /** Everything sent on the channel so far. */
    var log: seq<Event>
    /** The id the channel gives the next message sent. */
    var nextMessageId: nat
    /** The progress tickers still running, by the id of their message. */
    var tickers: set<nat>

    /** A bot over a Redis database holding `redis` and the sessions
        `sessions`, before anything is sent. */
    constructor (cfg: Config, redis: map<string, string>, sessions: map<int, Session>)
      ensures this.cfg == cfg && this.sessions == sessions
      ensures fresh(intervalHandler) && intervalHandler.client == redis
      ensures log == [] && nextMessageId == 0 && tickers == {}
      ensures WellFormed(redis) ==> Valid()
    {
      this.cfg := cfg;
      intervalHandler := new IntervalHandler(redis);
      this.sessions := sessions;
      log := [];
      nextMessageId := 0;
      tickers := {};
    }

    ghost function State(): World
      reads this, intervalHandler
    {
      World(intervalHandler.client, log, nextMessageId, tickers)
    }

    ghost predicate Valid()
      reads this, intervalHandler
    {
      Consistent(State())
    }

    /** `sendMessageToUser`: the message goes to `userId` and gets the next id. */
    method SendMessageToUser(userId: int, text: string) returns (messageId: nat)
      modifies this
      ensures messageId == old(nextMessageId) && nextMessageId == messageId + 1
      ensures log == old(log) + [Send(userId, messageId, text)]
      ensures sessions == old(sessions) && tickers == old(tickers)
    {
      messageId := nextMessageId;
      log := log + [Send(userId, messageId, text)];
      nextMessageId := nextMessageId + 1;
    }

    /** `waitForLongTask`: send `text`, edit it with one more dot on each
        tick while `task` is pending, and on resolve stop the ticker and
        delete the message. A rejection leaves both in place. */
    method WaitForLongTask(text: string, userId: int, task: Task) returns (result: Settled)
      modifies this
      ensures State() == AfterProgress(old(State()), userId, text, task)
      ensures sessions == old(sessions)
      ensures result == task.outcome
    {
      var id := SendMessageToUser(userId, text);
      var count := 1;
      tickers := tickers + {id};
      while count <= task.ticks
        invariant 1 <= count <= task.ticks + 1
        invariant log == old(log) + [Send(userId, id, text)] + Edits(userId, id, text, count - 1)
        invariant nextMessageId == id + 1 && tickers == old(tickers) + {id}
        invariant sessions == old(sessions)
      {
        log := log + [Edit(userId, id, text + Dots(count))];
        count := count + 1;
      }
      result := task.outcome;
      if result.Resolved? {
        tickers := tickers - {id};
        log := log + [StopTicker(id), Delete(userId, id)];
      }
    }

    /** A row that fires: the progress-wrapped fetch and, if it resolves,
        the balance message and the reschedule to `start + ONE_DAY`. */
    method FireRow(interval: Interval, task: Task) returns (cash: Settled)
      requires interval.userId.Int? && interval.start.Int?
      modifies this, intervalHandler
      ensures State() == Fire(old(State()), interval, task)
      ensures sessions == old(sessions) && cash == task.outcome
    {
      var userId := interval.userId.value;
      cash := WaitForLongTask(GettingCash, userId, task);
      if cash.Rejected? {
        return;
      }
      ghost var w1 := State();
      var _ := SendMessageToUser(userId, CashText(cash.cash));
      intervalHandler.RemoveInterval(userId);
      intervalHandler.SetInterval(userId, interval.start.value + OneDay);
      assert State() == World(Stored(Removed(w1.store, userId), userId, interval.start.value + OneDay),
                              w1.log + [Send(userId, w1.nextMessageId, CashText(cash.cash))],
                              w1.nextMessageId + 1, w1.tickers);
    }

    /** The body of the sweep's loop for one row, at clock reading `now`:
        a due row of an authorized user fires, and any other row is
        skipped. */
    method SweepRow(interval: Interval, now: int, task: Task) returns (fired: bool, cash: Settled)
      modifies this, intervalHandler
      ensures fired == Fires(cfg, Awaited(sessions), interval, now)
      ensures fired ==> State() == Fire(old(State()), interval, task) && cash == task.outcome
      ensures !fired ==> State() == old(State())
      ensures sessions == old(sessions)
    {
      fired := false;
      cash := Rejected;
      if interval.start.Int? && interval.start.value < now {
        var userId := interval.userId;
        var session := if userId.Int? then SessionOf(sessions, userId.value) else SessionRecord(Undefined);
        if IsRightUser(cfg, SessionUser(session)) {
          assert ReadUser(Awaited(sessions), userId) == SessionUser(session);
          fired := true;
          cash := FireRow(interval, task);
        }
      }
    }

    /** The loop of the sweep over the rows `intervals`: row `i` is read
        at clock reading `clock(i)`, and the k-th fetch behaves as
        `fetches(k)`. A rejected fetch ends the loop; `completed` says
        whether it ran to the end. */
    method SweepRows(intervals: seq<Interval>, clock: nat -> int, fetches: nat -> Task) returns (completed: bool)
      modifies this, intervalHandler
      ensures var r := SweepPrefix(cfg, Awaited(old(sessions)), old(State()), intervals, |intervals|, clock, fetches);
        State() == r.world && (completed <==> r.failedAt.None?)
      ensures sessions == old(sessions)
    {
      ghost var w0 := State();
      ghost var read := Awaited(sessions);
      ghost var st := SweepState(w0, [], None);
      var fetchCount := 0;
      var i := 0;
      while i < |intervals|
        invariant 0 <= i <= |intervals|
        invariant st == SweepPrefix(cfg, read, w0, intervals, i, clock, fetches)
        invariant st.failedAt.None? && State() == st.world && fetchCount == |st.fetched|
        invariant sessions == old(sessions)
      {
        ghost var task := fetches(fetchCount);
        var fired, cash := SweepRow(intervals[i], clock(i), fetches(fetchCount));
        ghost var next := Step(cfg, read, st, intervals, i, clock, fetches);
        if fired && cash.Rejected? {
          assert next == SweepState(Fire(st.world, intervals[i], task), st.fetched, Some(i));
          FailureEndsSweep(cfg, read, w0, intervals, i + 1, |intervals|, clock, fetches);
          return false;
        }
        if fired {
          fetchCount := fetchCount + 1;
        }
        st := next;
        i := i + 1;
      }
      completed := true;
    }

    /** One run of the recurring sweep: the listing, then its rows, with
        the session read through the session store. `completed` is false
        when a fetch rejected and ended the run; `rows` are the rows read
        and `keys` their keys. */
    method Sweep(clock: nat -> int, fetches: nat -> Task) returns (completed: bool, ghost rows: seq<Interval>, ghost keys: seq<string>)
      modifies this, intervalHandler
      ensures IsListing(old(intervalHandler.client), keys, rows)
      ensures var r := SweepPrefix(cfg, Awaited(old(sessions)), old(State()), rows, |rows|, clock, fetches);
        State() == r.world && (completed <==> r.failedAt.None?)
      ensures sessions == old(sessions)
      ensures old(Valid()) ==> Valid() && DistinctUsers(rows)
    {
      var intervals;
      intervals, keys := intervalHandler.GetAllIntervals();
      rows := intervals;
      if old(Valid()) {
        SweepKeepsConsistent(cfg, Awaited(sessions), State(), intervals, |intervals|, clock, fetches);
        ListingDistinctUsers(intervalHandler.client, keys, rows);
      }
      completed := SweepRows(intervals, clock, fetches);
    }

    /** `start`. */
    method OnStart(chat: int, user: int)
      modifies this
      ensures var h := StartCommand(SessionOf(old(sessions), user), old(State()), chat);
        sessions == old(sessions)[user := h.session] && State() == h.world
      ensures old(Valid()) ==> Valid()
    {
      var session := NullSession;
      log := log + [Reply(chat, Welcome)];
      sessions := sessions[user := session];
    }

    /** `/updates`, with the next fire time and its text as inputs. */
    method OnUpdates(chat: int, user: int, nextAt: int, nextAtText: string)
      modifies this, intervalHandler
      ensures var h := UpdatesCommand(cfg, SessionOf(old(sessions), user), old(State()), chat, user, nextAt, nextAtText);
        sessions == old(sessions) && State() == h.world
      ensures old(Valid()) ==> Valid()
    {
      ghost var h := UpdatesCommand(cfg, SessionOf(sessions, user), State(), chat, user, nextAt, nextAtText);
      var session := SessionOf(sessions, user);
      if IsRightUser(cfg, SessionUser(session)) {
        var isSet := intervalHandler.IsIntervalSet(user);
        if isSet {
          log := log + [Reply(chat, AlreadySubscribed)];
        } else {
          intervalHandler.SetInterval(user, nextAt);
          log := log + [Reply(chat, UpdatesActivated + nextAtText)];
        }
      } else {
        log := log + [Reply(chat, What)];
      }
      assert State() == h.world;
      if old(Valid()) {
        UpdatesKeepsConsistent(cfg, SessionOf(old(sessions), user), old(State()), chat, user, nextAt, nextAtText);
      }
    }

    /** `/off`. */
    method OnOff(chat: int, user: int)
      modifies this, intervalHandler
      ensures var h := OffCommand(cfg, SessionOf(old(sessions), user), old(State()), chat, user);
        sessions == old(sessions) && State() == h.world
      ensures old(Valid()) ==> Valid()
    {
      ghost var h := OffCommand(cfg, SessionOf(sessions, user), State(), chat, user);
      var session := SessionOf(sessions, user);
      var removed := false;
      if IsRightUser(cfg, SessionUser(session)) {
        var isSet := intervalHandler.IsIntervalSet(user);
        if isSet {
          intervalHandler.RemoveInterval(user);
          log := log + [Reply(chat, UpdatesDeactivated)];
          removed := true;
        }
      }
      if !removed {
        log := log + [Reply(chat, What)];
      }
      assert State() == h.world;
      if old(Valid()) {
        OffKeepsConsistent(cfg, SessionOf(old(sessions), user), old(State()), chat, user);
      }
    }

    /** `/now`, with the fetch as input; a rejected fetch ends the handler
        without a reply. */
    method OnNow(chat: int, user: int, task: Task)
      modifies this
      ensures var h := NowCommand(cfg, SessionOf(old(sessions), user), old(State()), chat, user, task);
        sessions == old(sessions) && State() == h.world
      ensures old(Valid()) ==> Valid()
    {
      ghost var h := NowCommand(cfg, SessionOf(sessions, user), State(), chat, user, task);
      var session := SessionOf(sessions, user);
      if IsRightUser(cfg, SessionUser(session)) {
        var cash := WaitForLongTask(GettingCash, user, task);
        if cash.Resolved? {
          log := log + [Reply(chat, CashText(cash.cash))];
        }
      } else {
        log := log + [Reply(chat, What)];
      }
      assert State() == h.world;
      if old(Valid()) {
        NowKeepsConsistent(cfg, SessionOf(old(sessions), user), old(State()), chat, user, task);
      }
    }

    /** Free text; the session middleware stores the handler's session
        afterwards. */
    method OnText(chat: int, user: int, text: string)
      modifies this
      ensures var h := TextMessage(cfg, SessionOf(old(sessions), user), old(State()), chat, text);
        sessions == old(sessions)[user := h.session] && State() == h.world
      ensures old(Valid()) ==> Valid()
    {
      var session := SessionOf(sessions, user);
      var token := Crypt(cfg, text);
      if IsRightUser(cfg, Value(token)) {
        session := SessionRecord(Value(token));
      }
      if IsRightUser(cfg, SessionUser(session)) {
        log := log + [Menu(chat, MenuText, MenuButtons)];
      } else {
        session := NullSession;
        log := log + [Reply(chat, Said(text))];
      }
      sessions := sessions[user := session];
    }
  }
}
