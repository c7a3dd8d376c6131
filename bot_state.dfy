/** The state the bot of src/bot.ts works on besides the interval table:
    per-user sessions, the messages it sends (as an event trace), and the
    balance fetch it waits for. */
module BotState {
  import opened Utils

  /** `ctx.session`: `null`, or a record whose `bbvaUser` may be missing. */
  datatype Session = NullSession | SessionRecord(bbvaUser: Nullable<string>)

  /** `ctx.session?.bbvaUser`. */
  function SessionUser(session: Session): Nullable<string> {
    match session
    case NullSession => Undefined
    case SessionRecord(user) => user
  }

  /** The session of `userId` in the session store; a user with nothing
      stored gets the empty record `{}`. */
  function SessionOf(sessions: map<int, Session>, userId: int): Session {
    if userId in sessions then sessions[userId] else SessionRecord(Undefined)
  }

  /** What the bot does on the messaging channel, in order. */
  datatype Event =
    | Reply(chat: int, text: string)                         // ctx.reply(text)
    | Menu(chat: int, text: string, buttons: seq<string>)    // ctx.reply(text, keyboard)
    | Send(chat: int, messageId: nat, text: string)          // telegram.sendMessage
    | Edit(chat: int, messageId: nat, text: string)          // telegram.editMessageText
    | StopTicker(messageId: nat)                             // clearInterval of the ticker
    | Delete(chat: int, messageId: nat)                      // telegram.deleteMessage

  /** How the balance fetch settles: with the balance (as the text the
      template literal gives it), or by rejecting. */
  datatype Settled = Resolved(cash: string) | Rejected

  /** A fetch: how many times the one-second ticker fires while it is
      pending, and how it settles. */
  datatype Task = Task(ticks: nat, outcome: Settled)

  /** The part of the bot's state an operation changes: the Redis table, the
      events so far, the next message id the channel hands out, and the
      tickers still running. */
  datatype World = World(store: map<string, string>, log: seq<Event>, nextMessageId: nat, tickers: set<nat>)
}
