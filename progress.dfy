/** `waitForLongTask` of src/bot.ts: send a message, edit it once per tick
    with a growing run of dots while the task is pending, and when the task
    resolves stop the ticker and delete the message. When the task rejects,
    the `await` throws before either cleanup step. */
module Progress {
  import opened BotState

  /** `'.'.repeat(k)`. */
  function Dots(k: nat): (s: string)
    ensures |s| == k && forall i :: 0 <= i < k ==> s[i] == '.'
  {
    if k == 0 then "" else Dots(k - 1) + "."
  }

  /** The edits of the first `n` ticks; the counter starts at 1. */
  function Edits(chat: int, id: nat, text: string, n: nat): seq<Event> {
    if n == 0 then [] else Edits(chat, id, text, n - 1) + [Edit(chat, id, text + Dots(n))]
  }

  /** Everything `waitForLongTask(text, chat, task)` does on the channel when
      the message it sends gets id `id`. */
  function ProgressTrace(chat: int, id: nat, text: string, task: Task): seq<Event> {
    [Send(chat, id, text)] + Edits(chat, id, text, task.ticks)
    + (if task.outcome.Resolved? then [StopTicker(id), Delete(chat, id)] else [])
  }

  /** The state after `waitForLongTask`: its trace is logged, one message id
      is used, and the ticker it starts is still running unless the task
      resolved. */
  function AfterProgress(w: World, chat: int, text: string, task: Task): World {
    var id := w.nextMessageId;
    World(w.store, w.log + ProgressTrace(chat, id, text, task), id + 1,
          if task.outcome.Resolved? then (w.tickers + {id}) - {id} else w.tickers + {id})
  }

  /** How many times message `id` is deleted in `log`. */
  function Deletes(log: seq<Event>, id: nat): nat {
    if log == [] then 0
    else Deletes(log[..|log| - 1], id) + (if log[|log| - 1].Delete? && log[|log| - 1].messageId == id then 1 else 0)
  }

  /** How many times the ticker of message `id` is stopped in `log`. */
  function Stops(log: seq<Event>, id: nat): nat {
    if log == [] then 0
    else Stops(log[..|log| - 1], id) + (if log[|log| - 1] == StopTicker(id) then 1 else 0)
  }

  lemma {:induction false} CountsAppend(a: seq<Event>, b: seq<Event>, id: nat)
    ensures Deletes(a + b, id) == Deletes(a, id) + Deletes(b, id)
    ensures Stops(a + b, id) == Stops(a, id) + Stops(b, id)
    decreases |b|
  {
    if b == [] {
      assert a + b == a;
    } else {
      var b' := b[..|b| - 1];
      assert (a + b)[..|a + b| - 1] == a + b';
      CountsAppend(a, b', id);
    }
  }

  /** The k-th tick edits the message to `text` followed by k dots. */
  lemma {:induction false} EditAt(chat: int, id: nat, text: string, n: nat, k: nat)
    requires 1 <= k <= n
    ensures |Edits(chat, id, text, n)| == n
    ensures Edits(chat, id, text, n)[k - 1] == Edit(chat, id, text + Dots(k))
  {
    if k < n {
      EditAt(chat, id, text, n - 1, k);
    } else if n > 1 {
      EditAt(chat, id, text, n - 1, 1);
    }
  }

  /** Ticks never stop a ticker or delete a message. */
  lemma {:induction false} EditsDoNotClean(chat: int, id: nat, text: string, n: nat, other: nat)
    ensures Deletes(Edits(chat, id, text, n), other) == 0
    ensures Stops(Edits(chat, id, text, n), other) == 0
  {
    if n > 0 {
      var e := Edits(chat, id, text, n);
      assert e[..|e| - 1] == Edits(chat, id, text, n - 1);
      EditsDoNotClean(chat, id, text, n - 1, other);
    }
  }

  lemma {:induction false} EditsLength(chat: int, id: nat, text: string, n: nat)
    ensures |Edits(chat, id, text, n)| == n
  {
    if n > 0 {
      EditsLength(chat, id, text, n - 1);
    }
  }

  /** A resolved task: the message is sent first, then the edits, then the
      ticker is stopped once and the message deleted once, as the last step. */
  lemma CleanupOnResolve(chat: int, id: nat, text: string, task: Task)
    requires task.outcome.Resolved?
    ensures var t := ProgressTrace(chat, id, text, task);
      && |t| == task.ticks + 3
      && t[0] == Send(chat, id, text)
      && t[|t| - 2] == StopTicker(id) && t[|t| - 1] == Delete(chat, id)
      && Deletes(t, id) == 1 && Stops(t, id) == 1
  {
    var head := [Send(chat, id, text)];
    var edits := Edits(chat, id, text, task.ticks);
    var tail := [StopTicker(id), Delete(chat, id)];
    EditsLength(chat, id, text, task.ticks);
    EditsDoNotClean(chat, id, text, task.ticks, id);
    CountsAppend(head, edits, id);
    CountsAppend(head + edits, tail, id);
    assert tail[..1] == [StopTicker(id)];
    assert [StopTicker(id)][..0] == [];
    assert head[..0] == [];
  }

  /** A rejected task: the trace is the message and its edits only; nothing
      stops the ticker and nothing deletes the message. */
  lemma NoCleanupOnReject(chat: int, id: nat, text: string, task: Task)
    requires task.outcome.Rejected?
    ensures var t := ProgressTrace(chat, id, text, task);
      && |t| == task.ticks + 1
      && Deletes(t, id) == 0 && Stops(t, id) == 0
  {
    var head := [Send(chat, id, text)];
    var edits := Edits(chat, id, text, task.ticks);
    EditsLength(chat, id, text, task.ticks);
    EditsDoNotClean(chat, id, text, task.ticks, id);
    CountsAppend(head, edits, id);
    assert head[..0] == [];
    assert ProgressTrace(chat, id, text, task) == head + edits;
  }

  /** With a fresh message id, a resolved task leaves the running tickers as
      they were and a rejected one leaves its ticker running; the table is
      not touched. */
  lemma TickerAccounting(w: World, chat: int, text: string, task: Task)
    requires w.nextMessageId !in w.tickers
    ensures AfterProgress(w, chat, text, task).store == w.store
    ensures AfterProgress(w, chat, text, task).tickers ==
      if task.outcome.Resolved? then w.tickers else w.tickers + {w.nextMessageId}
  {
  }
}
