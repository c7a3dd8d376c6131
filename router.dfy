/** The command handlers of `registerCommands` in src/bot.ts, each as the
    reply it gives and the state it leaves: the user's session and the
    World (interval table, messages, tickers). `chat` is `ctx.chat.id`,
    where replies go; `user` is `ctx.from.id`, the key of the session and of
    the interval entry, and the chat the progress message goes to. */
module Router {
  import opened JsNumbers
  import opened Utils
  import opened Intervals
  import opened BotState
  import opened Progress
  import opened Scheduler

  datatype Handled = Handled(session: Session, world: World)

  const Welcome: string := "Welcome to the bot!"
  const AlreadySubscribed: string := "You are already subscribed to updates"
  const UpdatesActivated: string := "Updates activated! Next at: "
  const UpdatesDeactivated: string := "Updates deactivated!"
  const What: string := "What?"
  const MenuText: string := "What do you need?"
  const MenuButtons: seq<string> := ["/now", "/updates", "/off"]

  function Said(text: string): string {
    "You said: " + text
  }

  function Replied(w: World, chat: int, text: string): World {
    w.(log := w.log + [Reply(chat, text)])
  }

  function Authorized(cfg: Config, session: Session): bool {
    IsRightUser(cfg, SessionUser(session))
  }

  /** `start`: clear the session and greet. */
  function StartCommand(session: Session, w: World, chat: int): Handled {
    Handled(NullSession, Replied(w, chat, Welcome))
  }

  /** `/updates`. The next fire time `nextAt` (tomorrow at 10:30, local time)
      and its `toLocaleString` text are inputs. */
  function UpdatesCommand(cfg: Config, session: Session, w: World, chat: int, user: int,
                          nextAt: int, nextAtText: string): Handled
  {
    if !Authorized(cfg, session) then Handled(session, Replied(w, chat, What))
    else if Key(user) in w.store then Handled(session, Replied(w, chat, AlreadySubscribed))
    else Handled(session, Replied(w.(store := Stored(w.store, user, nextAt)), chat, UpdatesActivated + nextAtText))
  }

  /** `/off`. */
  function OffCommand(cfg: Config, session: Session, w: World, chat: int, user: int): Handled {
    if Authorized(cfg, session) && Key(user) in w.store then
      Handled(session, Replied(w.(store := Removed(w.store, user)), chat, UpdatesDeactivated))
    else Handled(session, Replied(w, chat, What))
  }

  /** `/now`: the fetch wrapped in the progress reporter, then the balance;
      a rejected fetch ends the handler without a reply. */
  function NowCommand(cfg: Config, session: Session, w: World, chat: int, user: int, task: Task): Handled {
    if !Authorized(cfg, session) then Handled(session, Replied(w, chat, What))
    else
      var w1 := AfterProgress(w, user, GettingCash, task);
      match task.outcome
      case Rejected => Handled(session, w1)
      case Resolved(cash) => Handled(session, Replied(w1, chat, CashText(cash)))
  }

  /** Free text: keep its digest as the session when it passes the gate;
      then show the menu if the session passes the gate, and otherwise clear
      the session and echo the text. */
  function TextMessage(cfg: Config, session: Session, w: World, chat: int, text: string): Handled {
    var token := Crypt(cfg, text);
    var session1 := if IsRightUser(cfg, Value(token)) then SessionRecord(Value(token)) else session;
    if Authorized(cfg, session1) then
      Handled(session1, w.(log := w.log + [Menu(chat, MenuText, MenuButtons)]))
    else Handled(NullSession, Replied(w, chat, Said(text)))
  }

  // ---------------------------------------------------------------------
  // Properties of the handlers

  /** `start` always leaves the session null and changes nothing else. */
  lemma StartClearsSession(cfg: Config, session: Session, w: World, chat: int)
    ensures StartCommand(session, w, chat).session == NullSession
    ensures !Authorized(cfg, StartCommand(session, w, chat).session)
    ensures StartCommand(session, w, chat).world == Replied(w, chat, Welcome)
  {
  }

  /** Without an authorized session `/updates`, `/off` and `/now` answer
      "What?" and change nothing else: no table write, no fetch. */
  lemma UnauthorizedCommandsRejected(cfg: Config, session: Session, w: World, chat: int, user: int,
                                     nextAt: int, nextAtText: string, task: Task)
    requires !Authorized(cfg, session)
    ensures UpdatesCommand(cfg, session, w, chat, user, nextAt, nextAtText) == Handled(session, Replied(w, chat, What))
    ensures OffCommand(cfg, session, w, chat, user) == Handled(session, Replied(w, chat, What))
    ensures NowCommand(cfg, session, w, chat, user, task) == Handled(session, Replied(w, chat, What))
  {
  }

  /** `/updates` when already subscribed: the table is unchanged. */
  lemma UpdatesWhenSubscribed(cfg: Config, session: Session, w: World, chat: int, user: int,
                              nextAt: int, nextAtText: string)
    requires Authorized(cfg, session) && Key(user) in w.store
    ensures var h := UpdatesCommand(cfg, session, w, chat, user, nextAt, nextAtText);
      h.world.store == w.store && h.world.log == w.log + [Reply(chat, AlreadySubscribed)]
      && Lookup(h.world.store, user) == Lookup(w.store, user)
  {
  }

  /** `/updates` when not subscribed: the user's entry now reads `nextAt`, it
      is the user's only key, and every other user's entry is as before. */
  lemma UpdatesSubscribes(cfg: Config, session: Session, w: World, chat: int, user: int,
                          nextAt: int, nextAtText: string, other: int)
    requires Authorized(cfg, session) && Key(user) !in w.store
    requires WellFormed(w.store) && other != user
    ensures var h := UpdatesCommand(cfg, session, w, chat, user, nextAt, nextAtText);
      && Lookup(h.world.store, user) == Some(Int(nextAt))
      && KeysOf(h.world.store, user) == {Key(user)}
      && Lookup(h.world.store, other) == Lookup(w.store, other)
      && WellFormed(h.world.store)
      && h.world.log == w.log + [Reply(chat, UpdatesActivated + nextAtText)]
  {
    SetThenGet(w.store, user, nextAt);
    SetLeavesOneKey(w.store, user, nextAt);
    OthersUnchanged(w.store, user, other, nextAt);
    StoredWellFormed(w.store, user, nextAt);
  }

  /** `/off` removes the entry exactly when the session is authorized and an
      entry exists; otherwise it answers "What?" and the table is unchanged.
      Other users' entries are never touched. */
  lemma OffUnsubscribes(cfg: Config, session: Session, w: World, chat: int, user: int, other: int)
    requires other != user
    ensures var h := OffCommand(cfg, session, w, chat, user);
      && (Authorized(cfg, session) && Key(user) in w.store ==>
            Lookup(h.world.store, user) == None && h.world.log == w.log + [Reply(chat, UpdatesDeactivated)])
      && (!(Authorized(cfg, session) && Key(user) in w.store) ==>
            h.world.store == w.store && h.world.log == w.log + [Reply(chat, What)])
      && Lookup(h.world.store, other) == Lookup(w.store, other)
  {
    OthersUnchanged(w.store, user, other, 0);
  }

  /** `/now` never writes the table; with a resolved fetch the last message
      is the balance, after the progress message has been deleted. */
  lemma NowRepliesWithBalance(cfg: Config, session: Session, w: World, chat: int, user: int, task: Task)
    requires Authorized(cfg, session) && task.outcome.Resolved?
    ensures var h := NowCommand(cfg, session, w, chat, user, task);
      && h.world.store == w.store
      && h.world.log == w.log + ProgressTrace(user, w.nextMessageId, GettingCash, task) + [Reply(chat, CashText(task.outcome.cash))]
      && Deletes(h.world.log[|w.log|..], w.nextMessageId) == 1
  {
    var trace := ProgressTrace(user, w.nextMessageId, GettingCash, task);
    var h := NowCommand(cfg, session, w, chat, user, task);
    assert h.world.log[|w.log|..] == trace + [Reply(chat, CashText(task.outcome.cash))];
    CleanupOnResolve(user, w.nextMessageId, GettingCash, task);
    CountsAppend(trace, [Reply(chat, CashText(task.outcome.cash))], w.nextMessageId);
    assert [Reply(chat, CashText(task.outcome.cash))][..0] == [];
  }

  /** After free text the session is null or authorized; the menu is sent
      exactly when it is authorized, and otherwise the text is echoed. */
  lemma TextLeavesSessionNullOrAuthorized(cfg: Config, session: Session, w: World, chat: int, text: string)
    ensures var h := TextMessage(cfg, session, w, chat, text);
      && (h.session == NullSession || Authorized(cfg, h.session))
      && (Authorized(cfg, h.session) <==> h.world.log == w.log + [Menu(chat, MenuText, MenuButtons)])
      && (!Authorized(cfg, h.session) <==> h.world.log == w.log + [Reply(chat, Said(text))])
      && h.world.store == w.store
  {
    var menu := w.log + [Menu(chat, MenuText, MenuButtons)];
    var echo := w.log + [Reply(chat, Said(text))];
    assert menu[|w.log|] != echo[|w.log|];
  }

  /** `/updates` keeps the invariant. */
  lemma UpdatesKeepsConsistent(cfg: Config, session: Session, w: World, chat: int, user: int,
                               nextAt: int, nextAtText: string)
    requires Consistent(w)
    ensures Consistent(UpdatesCommand(cfg, session, w, chat, user, nextAt, nextAtText).world)
  {
    StoredWellFormed(w.store, user, nextAt);
  }

  /** `/off` keeps the invariant. */
  lemma OffKeepsConsistent(cfg: Config, session: Session, w: World, chat: int, user: int)
    requires Consistent(w)
    ensures Consistent(OffCommand(cfg, session, w, chat, user).world)
  {
    StoredWellFormed(w.store, user, 0);
  }

  /** `/now` keeps the invariant. */
  lemma NowKeepsConsistent(cfg: Config, session: Session, w: World, chat: int, user: int, task: Task)
    requires Consistent(w)
    ensures Consistent(NowCommand(cfg, session, w, chat, user, task).world)
  {
    ProgressKeepsConsistent(w, user, GettingCash, task);
  }

  // ---------------------------------------------------------------------
  // Scenarios

  /** Sending the configured identity authorizes the session, after which
      `/now` with a resolving fetch replies with the balance. */
  lemma SignInThenNow(cfg: Config, session: Session, w: World, chat: int, user: int, task: Task)
    requires Crypt(cfg, cfg.bbvaUser) != ""
    requires task.outcome.Resolved?
    ensures var h := TextMessage(cfg, session, w, chat, cfg.bbvaUser);
      && Authorized(cfg, h.session)
      && var h2 := NowCommand(cfg, h.session, h.world, chat, user, task);
         h2.world.log[|h2.world.log| - 1] == Reply(chat, CashText(task.outcome.cash))
  {
  }

  /** `/updates` twice: the second answers "already subscribed" and leaves
      the table as the first left it. */
  lemma UpdatesTwice(cfg: Config, session: Session, w: World, chat: int, user: int,
                     t1: int, text1: string, t2: int, text2: string)
    requires Authorized(cfg, session)
    ensures var h1 := UpdatesCommand(cfg, session, w, chat, user, t1, text1);
      var h2 := UpdatesCommand(cfg, h1.session, h1.world, chat, user, t2, text2);
      && h2.world.store == h1.world.store
      && h2.world.log == h1.world.log + [Reply(chat, AlreadySubscribed)]
  {
    SetThenGet(w.store, user, t1);
  }
}
