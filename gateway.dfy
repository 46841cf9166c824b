/** The real-time gateway of backend/index.js: the process-local `ONLINE_USERS`
    map (user id to socket id), the Socket.IO handlers `connection`,
    `sendMessage`, `messageRead`, `typing` and `disconnect`, each as one atomic
    step, and the global HTTP error handler. Everything the handlers emit
    (acknowledgements, pushes to one socket, broadcasts) is appended to an outbox. */
module Gateway {
  import opened Common
  import opened MessageModel
  import opened Store
  import opened Middleware
  import Auth

  /** `io.emit(...)` reaches every socket; `io.to(id).emit(...)`, `socket.emit(...)`
      and an acknowledgement callback reach one socket. */
  datatype Target = Everyone | ToSocket(socket: SocketId)

  /** The acknowledgement of `sendMessage`: `{status: 'ok', message}` or `{status: 'error', error}`. */
  datatype Ack = AckOk(message: Message) | AckError(error: SaveError)

  datatype Event =
    | OnlineUsers(ids: set<UserId>)
    | SendAck(ack: Ack)
    | ReceiveMessage(message: Message)
    | MessageReadAck(messageId: MessageId, read: bool)
    | MessageReadNotice(messageId: MessageId, readBy: UserId, at: nat)
    | TypingNotice(from: UserId, typing: bool)
    | ErrorNotice

  datatype Emit = Emit(target: Target, event: Event)

  /** A connected socket and the user its verified token names (`socket.user.sub`). */
  datatype Connection = Connection(socket: SocketId, user: UserId)

  /** The payload of the most recent `onlineUsers` broadcast, if any. */
  function LastOnlineBroadcast(outbox: seq<Emit>): Option<set<UserId>> {
    if outbox == [] then None
    else if outbox[|outbox| - 1].event.OnlineUsers? then Some(outbox[|outbox| - 1].event.ids)
    else LastOnlineBroadcast(outbox[..|outbox| - 1])
  }

  /** Every connected client has last been told exactly the current key set of
      `ONLINE_USERS` (nobody is online before the first broadcast). */
  ghost predicate PresenceAdvertised(outbox: seq<Emit>, online: map<UserId, SocketId>) {
    match LastOnlineBroadcast(outbox)
    case None => online == map[]
    case Some(ids) => ids == online.Keys
  }

  /** Events other than `onlineUsers` leave the last broadcast as it was. */
  lemma {:induction false} QuietEventsKeepBroadcast(outbox: seq<Emit>, more: seq<Emit>)
    requires forall i :: 0 <= i < |more| ==> !more[i].event.OnlineUsers?
    ensures LastOnlineBroadcast(outbox + more) == LastOnlineBroadcast(outbox)
  {
    if more != [] {
      QuietEventsKeepBroadcast(outbox, more[..|more| - 1]);
      assert (outbox + more)[..|outbox + more| - 1] == outbox + more[..|more| - 1];
    } else {
      assert outbox + more == outbox;
    }
  }

  /** The `sendMessage` draft: sender is the connection's user, `read` is left to its default. */
  function SendDraft(c: Connection, to: Option<UserId>, text: JsString): (d: Draft)
    ensures d.sender == Some(c.user) && d.receiver == to && d.content == text
    ensures d.read.None?
    ensures forall id, now :: Create(d, id, now).Ok? ==> !Create(d, id, now).value.read
  {
    Draft(Some(c.user), to, text, None)
  }

  /** The emits of `sendMessage` for a save outcome: the acknowledgement first
      (when the client gave a callback), then, only for a saved message whose
      recipient is online, the same message pushed to the recipient's socket. */
  function SendEmits(c: Connection, hasAck: bool, online: map<UserId, SocketId>, saved: Result<Message, SaveError>): (r: seq<Emit>)
    ensures forall i :: 0 <= i < |r| ==> !r[i].event.OnlineUsers?
    ensures hasAck <==> |r| > 0 && r[0].event.SendAck?
    ensures hasAck ==> r[0] == Emit(ToSocket(c.socket), SendAck(if saved.Ok? then AckOk(saved.value) else AckError(saved.error)))
    ensures saved.Err? ==> |r| == (if hasAck then 1 else 0)
    ensures saved.Ok? ==> |r| == (if hasAck then 1 else 0) + (if saved.value.receiver in online then 1 else 0)
    ensures saved.Ok? && saved.value.receiver in online ==>
      r[|r| - 1] == Emit(ToSocket(online[saved.value.receiver]), ReceiveMessage(saved.value))
  {
    var ack := if hasAck then [Emit(ToSocket(c.socket), SendAck(if saved.Ok? then AckOk(saved.value) else AckError(saved.error)))] else [];
    if saved.Ok? && saved.value.receiver in online then
      ack + [Emit(ToSocket(online[saved.value.receiver]), ReceiveMessage(saved.value))]
    else ack
  }

  class Gateway {
    const store: MessageStore
    /** `ONLINE_USERS`. */
    var online: map<UserId, SocketId>
    var outbox: seq<Emit>

    ghost predicate Valid()
      reads this, store
    {
      store.Valid() && PresenceAdvertised(outbox, online)
    }

    constructor(store: MessageStore)
      requires store.Valid()
      ensures Valid() && this.store == store
      ensures online == map[] && outbox == []
    {
      this.store := store;
      online := map[];
      outbox := [];
    }

    /** Emits events other than `onlineUsers`: what clients were last told about
        presence stays true. */
    method Deliver(emitted: seq<Emit>)
      requires Valid()
      requires forall i :: 0 <= i < |emitted| ==> !emitted[i].event.OnlineUsers?
      modifies this
      ensures Valid()
      ensures online == old(online)
      ensures outbox == old(outbox) + emitted
    {
      QuietEventsKeepBroadcast(outbox, emitted);
      outbox := outbox + emitted;
    }

    /** `connection`: the user's newest socket replaces any earlier one (last
        connect wins), then the key set is broadcast. */
    method Connect(c: Connection)
      requires Valid()
      modifies this
      ensures Valid()
      ensures online == old(online)[c.user := c.socket]
      ensures outbox == old(outbox) + [Emit(Everyone, OnlineUsers(online.Keys))]
      ensures LastOnlineBroadcast(outbox) == Some(online.Keys)
    {
      online := online[c.user := c.socket];
      outbox := outbox + [Emit(Everyone, OnlineUsers(online.Keys))];
    }

    /** The handshake: `verifySocket` runs first; a refused handshake never
        reaches `connection` and changes nothing. */
    method Handshake(socket: SocketId, auth: JsString, query: JsString, headers: JsString, verify: string -> Option<Claims>)
      returns (conn: Option<Connection>)
      requires Valid()
      modifies this
      ensures Valid()
      ensures conn.None? <==> VerifySocket(auth, query, headers, verify).Err?
      ensures conn.None? ==> online == old(online) && outbox == old(outbox)
      ensures conn.Some? ==>
        && conn.value == Connection(socket, VerifySocket(auth, query, headers, verify).value.sub)
        && online == old(online)[conn.value.user := socket]
        && outbox == old(outbox) + [Emit(Everyone, OnlineUsers(online.Keys))]
    {
      var verified := VerifySocket(auth, query, headers, verify);
      if verified.Err? {
        return None;
      }
      conn := Some(Connection(socket, verified.value.sub));
      Connect(conn.value);
    }

    /** `sendMessage {to, text}`: saves at most one message, then emits what
        `SendEmits` lists for the outcome. */
    method SendMessage(c: Connection, to: Option<UserId>, text: JsString, hasAck: bool, now: nat, fault: bool)
      requires Valid()
      modifies this, store
      ensures Valid()
      ensures online == old(online)
      ensures Evolves(old(store.messages), store.messages)
      ensures SaveOutcome(SendDraft(c, to, text), old(store.nextId), now, fault).Ok? ==>
        store.messages == old(store.messages) + [SaveOutcome(SendDraft(c, to, text), old(store.nextId), now, fault).value]
      ensures SaveOutcome(SendDraft(c, to, text), old(store.nextId), now, fault).Err? ==>
        store.messages == old(store.messages)
      ensures outbox == old(outbox) + SendEmits(c, hasAck, online, SaveOutcome(SendDraft(c, to, text), old(store.nextId), now, fault))
    {
      var saved := store.Save(SendDraft(c, to, text), now, fault);
      var emitted := SendEmits(c, hasAck, online, saved);
      Deliver(emitted);
    }

    /** `messageRead {messageId, from, to}`: marks that one message read, acks the
        caller, and tells `to` (the original sender, as the chat page sends it)
        that `from` read it, if `to` is online. A failed update (`fault`) or an
        unknown id yields an error event to the caller only, and the store is unchanged. */
    method MessageRead(c: Connection, messageId: MessageId, from: UserId, to: UserId, now: nat, fault: bool)
      requires Valid()
      modifies this, store
      ensures Valid()
      ensures online == old(online)
      ensures store.messages == if fault then old(store.messages) else MarkedById(old(store.messages), messageId, now)
      ensures Evolves(old(store.messages), store.messages)
      ensures fault || IndexOf(old(store.messages), messageId).None? ==>
        && store.messages == old(store.messages)
        && outbox == old(outbox) + [Emit(ToSocket(c.socket), ErrorNotice)]
      ensures !fault && IndexOf(old(store.messages), messageId).Some? ==>
        outbox == old(outbox)
          + [Emit(ToSocket(c.socket), MessageReadAck(messageId, true))]
          + (if to in online then [Emit(ToSocket(online[to]), MessageReadNotice(messageId, from, now))] else [])
    {
      if fault {
        Deliver([Emit(ToSocket(c.socket), ErrorNotice)]);
        return;
      }
      var msg := store.FindByIdAndMarkRead(messageId, now);
      var emitted: seq<Emit>;
      if msg.None? {
        emitted := [Emit(ToSocket(c.socket), ErrorNotice)];
      } else {
        emitted := [Emit(ToSocket(c.socket), MessageReadAck(messageId, msg.value.read))];
        if to in online {
          emitted := emitted + [Emit(ToSocket(online[to]), MessageReadNotice(messageId, from, now))];
        }
      }
      Deliver(emitted);
    }

    /** `typing {to, typing}`: relayed to an online recipient only; nothing is stored. */
    method Typing(c: Connection, to: UserId, typing: bool)
      requires Valid()
      modifies this
      ensures Valid()
      ensures online == old(online)
      ensures outbox == old(outbox)
        + (if to in online then [Emit(ToSocket(online[to]), TypingNotice(c.user, typing))] else [])
    {
      var emitted: seq<Emit> := [];
      if to in online {
        emitted := [Emit(ToSocket(online[to]), TypingNotice(c.user, typing))];
      }
      Deliver(emitted);
    }

    /** `disconnect`: removes the user's entry whichever socket it holds, even a
        newer one, then broadcasts the key set. */
    method Disconnect(c: Connection)
      requires Valid()
      modifies this
      ensures Valid()
      ensures online == old(online) - {c.user}
      ensures outbox == old(outbox) + [Emit(Everyone, OnlineUsers(online.Keys))]
      ensures LastOnlineBroadcast(outbox) == Some(online.Keys)
    {
      online := online - {c.user};
      outbox := outbox + [Emit(Everyone, OnlineUsers(online.Keys))];
    }
  }

  /** An error reaching the global handler: `err.status` may be absent. */
  datatype Thrown = Thrown(status: Option<int>, message: string)

  /** `err.status && err.status >= 400 && err.status < 600 ? err.status : 500`. */
  function ErrorStatus(status: Option<int>): (r: int)
    ensures 400 <= r < 600
    ensures status.Some? && 400 <= status.value < 600 ==> r == status.value
    ensures !(status.Some? && 400 <= status.value < 600) ==> r == 500
  {
    if status.Some? && status.value != 0 && 400 <= status.value && status.value < 600 then status.value else 500
  }

  /** The response of the global error handler: the clamped status and
      `{error: err.message || 'Internal Server Error'}`. */
  function HandleError(e: Thrown): (r: (int, string))
    ensures r.0 == ErrorStatus(e.status)
    ensures 400 <= r.0 < 600
    ensures r.1 != ""
    ensures e.message != "" ==> r.1 == e.message
    ensures e.message == "" ==> r.1 == "Internal Server Error"
  {
    (ErrorStatus(e.status), if e.message != "" then e.message else "Internal Server Error")
  }

  /** A rejected database call in a controller reaches the handler as an error
      without a status: its answer is the controllers' `DbError`. */
  lemma DbErrorIsHandlerAnswer(message: string)
    ensures HandleError(Thrown(None, message)) == (Auth.DbError(message).status, Auth.DbError(message).message)
  {
  }
}
