/** The chat page's state updates (frontend/chatter-box/src/pages/Chat.tsx): the
    `setState` updater functions and the guards of its event handlers, as pure
    list transforms. Timers, rendering and the socket itself are not modelled;
    "has a socket" is a flag. */
module ChatClient {
  import opened Common
  import opened MessageModel
  import opened ChatController
  import opened Gateway

  /** The page's `User` entry in the conversation list. */
  datatype UiUser = UiUser(id: UserId, username: string, isOnline: bool, lastMessage: Option<string>, unreadCount: nat)

  /** Requests the page emits over the socket. `messageId` is `msg.id` of a listed
      message, which a socket-delivered message does not have. */
  datatype SendRequest = SendRequest(to: UserId, text: string)
  datatype TypingRequest = TypingRequest(to: UserId, typing: bool)
  datatype ReadRequest = ReadRequest(messageId: Option<MessageId>, from: UserId, to: UserId)

  /** A `ChatMessage` in the page's list. A fetched row carries `id`; a message
      that arrived over the socket is the serialized saved document, whose JSON
      has `_id` but no `id`, so its `id` is absent. */
  datatype PageMessage = PageMessage(id: Option<MessageId>, sender: UserId, receiver: UserId, content: string, read: bool, createdAt: nat)

  /** A row of the `getMessages` body as the page stores it. */
  function FromRow(row: MessageRow): (p: PageMessage)
    ensures p.id == Some(row.id)
    ensures p.sender == row.sender && p.receiver == row.receiver && p.content == row.content && p.read == row.read
    ensures p.createdAt == row.createdAt
  {
    PageMessage(Some(row.id), row.sender, row.receiver, row.content, row.read, row.createdAt)
  }

  /** A saved document pushed by `receiveMessage` or returned in an ok send ack. */
  function FromDocument(m: Message): (p: PageMessage)
    ensures p.id.None?
    ensures p.sender == m.sender && p.receiver == m.receiver && p.content == m.content && p.read == m.read
    ensures p.createdAt == m.createdAt
  {
    PageMessage(None, m.sender, m.receiver, m.content, m.read, m.createdAt)
  }

  /** `setMessages(msgs)` after selecting a user: the fetched rows, in order. */
  function Fetched(rows: seq<MessageRow>): (r: seq<PageMessage>)
    ensures |r| == |rows|
    ensures forall i :: 0 <= i < |r| ==> r[i] == FromRow(rows[i])
  {
    seq(|rows|, i requires 0 <= i < |rows| => FromRow(rows[i]))
  }

  /** Server shape to UI shape for one fetched summary. */
  function UiUserOf(s: Summary): (r: UiUser)
    ensures r.id == s.id && r.username == s.username && !r.isOnline && r.unreadCount == s.unreadCount
    ensures r.lastMessage.Some? <==> s.lastMessage.Some?
  {
    UiUser(s.id, s.username, false, if s.lastMessage.Some? then Some(s.lastMessage.value.content) else None, s.unreadCount)
  }

  /** `fetched.map(u => ({id: u._id, ..., isOnline: false, lastMessage: u.lastMessage?.content, ...}))`. */
  function ToUiUsers(fetched: seq<Summary>): (r: seq<UiUser>)
    ensures |r| == |fetched|
    ensures forall i :: 0 <= i < |r| ==>
      && r[i].id == fetched[i].id && r[i].username == fetched[i].username
      && !r[i].isOnline
      && r[i].unreadCount == fetched[i].unreadCount
      && (r[i].lastMessage.Some? <==> fetched[i].lastMessage.Some?)
      && (r[i].lastMessage.Some? ==> r[i].lastMessage.value == fetched[i].lastMessage.value.content)
  {
    seq(|fetched|, i requires 0 <= i < |fetched| => UiUserOf(fetched[i]))
  }

  /** `prev.map(u => ({...u, isOnline: ids.includes(u.id)}))` on an `onlineUsers` event. */
  function SetOnline(users: seq<UiUser>, ids: set<UserId>): (r: seq<UiUser>)
    ensures |r| == |users|
    ensures forall i :: 0 <= i < |r| ==> r[i].isOnline == (users[i].id in ids)
    ensures forall i :: 0 <= i < |r| ==> r[i] == users[i].(isOnline := r[i].isOnline)
  {
    seq(|users|, i requires 0 <= i < |users| => users[i].(isOnline := users[i].id in ids))
  }

  /** Only the latest `onlineUsers` event matters: an earlier one is overwritten entirely. */
  lemma SetOnlineLatestWins(users: seq<UiUser>, earlier: set<UserId>, later: set<UserId>)
    ensures SetOnline(SetOnline(users, earlier), later) == SetOnline(users, later)
  {
  }

  /** The list the page shows after loading the summaries and then hearing the
      gateway's latest broadcast: every peer in summary order, online exactly
      when the gateway has a socket for it. */
  lemma OnlineFlagsMatchPresence(users: seq<User>, ms: seq<Message>, me: UserId, online: map<UserId, SocketId>)
    ensures var shown := SetOnline(ToUiUsers(Summaries(users, ms, me)), online.Keys);
      && |shown| == |Summaries(users, ms, me)|
      && forall i :: 0 <= i < |shown| ==>
        shown[i].id == Summaries(users, ms, me)[i].id && shown[i].id != me && (shown[i].isOnline <==> shown[i].id in online)
  {
    SummariesAreOtherUsers(users, ms, me);
    var rows := Summaries(users, ms, me);
    forall i | 0 <= i < |rows| ensures rows[i].id != me {
      assert rows[i] in rows;
    }
  }

  /** `[...prev, msg]` on `receiveMessage`, and for the message of an ok send ack. */
  function Appended(prev: seq<PageMessage>, msg: Message): (r: seq<PageMessage>)
    ensures |r| == |prev| + 1 && r[..|prev|] == prev && r[|prev|] == FromDocument(msg)
  {
    prev + [FromDocument(msg)]
  }

  /** The `sendMessage` ack callback: an ok ack appends its message; any other ack
      leaves the list unchanged. */
  function ApplySendAck(prev: seq<PageMessage>, ack: Ack): (r: seq<PageMessage>)
    ensures ack.AckOk? ==> |r| == |prev| + 1 && r[..|prev|] == prev && r[|prev|] == FromDocument(ack.message)
    ensures ack.AckError? ==> r == prev
  {
    if ack.AckOk? then Appended(prev, ack.message) else prev
  }

  /** `prev.map(m => m.id === messageId ? {...m, read: true} : m)` on a `messageRead`
      event; two absent ids compare equal, as `undefined === undefined` does. */
  function MarkReadById(prev: seq<PageMessage>, messageId: Option<MessageId>): (r: seq<PageMessage>)
    ensures |r| == |prev|
    ensures forall i :: 0 <= i < |r| && prev[i].id == messageId ==> r[i] == prev[i].(read := true)
    ensures forall i :: 0 <= i < |r| && prev[i].id != messageId ==> r[i] == prev[i]
  {
    seq(|prev|, i requires 0 <= i < |prev| => if prev[i].id == messageId then prev[i].(read := true) else prev[i])
  }

  /** Marking the same message read twice is marking it once. */
  lemma MarkReadByIdIdempotent(prev: seq<PageMessage>, messageId: Option<MessageId>)
    ensures MarkReadById(MarkReadById(prev, messageId), messageId) == MarkReadById(prev, messageId)
  {
  }

  /** The request one listed message contributes: one if it is addressed to `me` and unread, else none. */
  function RequestFor(p: PageMessage, me: UserId, peer: UserId): (r: seq<ReadRequest>)
    ensures r == [] || r == [ReadRequest(p.id, me, peer)]
    ensures r != [] <==> p.receiver == me && !p.read
  {
    if p.receiver == me && !p.read then [ReadRequest(p.id, me, peer)] else []
  }

  /** One `messageRead` request per message addressed to `me` that is still unread, in list order. */
  function ReadRequests(msgs: seq<PageMessage>, me: UserId, peer: UserId): (r: seq<ReadRequest>)
    ensures |r| <= |msgs|
    ensures forall k :: 0 <= k < |r| ==> r[k].from == me && r[k].to == peer
    ensures forall m :: m in msgs && m.receiver == me && !m.read ==> ReadRequest(m.id, me, peer) in r
    ensures forall q :: q in r ==> exists m :: m in msgs && m.id == q.messageId && m.receiver == me && !m.read
  {
    if msgs == [] then [] else RequestFor(msgs[0], me, peer) + ReadRequests(msgs[1..], me, peer)
  }

  /** `forEach` in list order: a further message adds exactly its own request, at the end. */
  lemma {:induction false} ReadRequestsAppend(msgs: seq<PageMessage>, m: PageMessage, me: UserId, peer: UserId)
    ensures ReadRequests(msgs + [m], me, peer) == ReadRequests(msgs, me, peer) + RequestFor(m, me, peer)
  {
    if msgs == [] {
      assert [m][1..] == [];
      assert msgs + [m] == [m];
    } else {
      assert (msgs + [m])[0] == msgs[0];
      assert (msgs + [m])[1..] == msgs[1..] + [m];
      calc {
        ReadRequests(msgs + [m], me, peer);
        RequestFor(msgs[0], me, peer) + ReadRequests(msgs[1..] + [m], me, peer);
        { ReadRequestsAppend(msgs[1..], m, me, peer); }
        RequestFor(msgs[0], me, peer) + (ReadRequests(msgs[1..], me, peer) + RequestFor(m, me, peer));
        (RequestFor(msgs[0], me, peer) + ReadRequests(msgs[1..], me, peer)) + RequestFor(m, me, peer);
      }
    }
  }

  /** The effect that emits read receipts: nothing without a socket or an active
      conversation; otherwise `{messageId, from: me, to: activeUser.id}` per unread incoming message. */
  function ReadEmits(msgs: seq<PageMessage>, me: UserId, hasSocket: bool, active: Option<UiUser>): (r: seq<ReadRequest>)
    ensures !hasSocket || active.None? ==> r == []
    ensures hasSocket && active.Some? ==> r == ReadRequests(msgs, me, active.value.id)
  {
    if !hasSocket || active.None? then [] else ReadRequests(msgs, me, active.value.id)
  }

  /** Once every listed message is read, no receipt is emitted. */
  lemma {:induction false} NoReceiptsWhenAllRead(msgs: seq<PageMessage>, me: UserId, peer: UserId)
    requires forall i :: 0 <= i < |msgs| ==> msgs[i].read
    ensures ReadRequests(msgs, me, peer) == []
  {
    if msgs != [] {
      NoReceiptsWhenAllRead(msgs[1..], me, peer);
    }
  }

  /** For a fetched history, every receipt names, by its id, a message that `peer` sent to `me`. */
  lemma ReceiptsForFetchedHistoryGoToSender(ms: seq<Message>, me: UserId, peer: UserId)
    ensures forall q :: q in ReadRequests(Fetched(Rows(History(ms, me, peer))), me, peer) ==>
      && q.to == peer && q.messageId.Some?
      && exists m :: m in ms && m.id == q.messageId.value && m.sender == peer && m.receiver == me
  {
    var h := History(ms, me, peer);
    var page := Fetched(Rows(h));
    HistoryIsConversationNewestFirst(ms, me, peer);
    forall q | q in ReadRequests(page, me, peer)
      ensures q.messageId.Some? && exists m :: m in ms && m.id == q.messageId.value && m.sender == peer && m.receiver == me
    {
      var p :| p in page && p.id == q.messageId && p.receiver == me && !p.read;
      var m := FetchedEntryOf(h, p);
      assert m in ms && Between(m, me, peer);
    }
  }

  /** Every entry of a fetched page is some fetched message, named by its id. */
  lemma FetchedEntryOf(h: seq<Message>, p: PageMessage) returns (m: Message)
    requires p in Fetched(Rows(h))
    ensures m in h && p.id == Some(m.id) && p.sender == m.sender && p.receiver == m.receiver
  {
    var page := Fetched(Rows(h));
    var i :| 0 <= i < |page| && page[i] == p;
    m := h[i];
  }

  /** A message that arrived over the socket gets a receipt with no message id:
      the page cannot name it to the gateway. */
  lemma PushedMessageReceiptHasNoId(prev: seq<PageMessage>, m: Message, me: UserId, peer: UserId)
    requires m.receiver == me && !m.read
    ensures ReadRequest(None, me, peer) in ReadRequests(Appended(prev, m), me, peer)
  {
    assert FromDocument(m) in Appended(prev, m);
  }

  /** The typing handler: only events from the active peer change the indicator;
      `typing = true` shows "<username> is typing…", `typing = false` clears it. */
  function TypingIndicator(current: Option<string>, active: Option<UiUser>, from: UserId, typing: bool): (r: Option<string>)
    ensures active.None? || from != active.value.id ==> r == current
    ensures active.Some? && from == active.value.id && typing ==> r == Some(active.value.username + " is typing…")
    ensures active.Some? && from == active.value.id && !typing ==> r == None
  {
    if active.None? || from != active.value.id then current
    else if typing then Some(active.value.username + " is typing…")
    else None
  }

  /** `handleSend`: no emit without a socket or an active user. */
  function HandleSend(hasSocket: bool, active: Option<UiUser>, text: string): (r: Option<SendRequest>)
    ensures r.None? <==> !hasSocket || active.None?
    ensures r.Some? ==> r.value.to == active.value.id && r.value.text == text
  {
    if !hasSocket || active.None? then None else Some(SendRequest(active.value.id, text))
  }

  /** `handleTyping`: the immediate `typing: true` emit, none without a socket or an active user. */
  function HandleTyping(hasSocket: bool, active: Option<UiUser>): (r: Option<TypingRequest>)
    ensures r.None? <==> !hasSocket || active.None?
    ensures r.Some? ==> r.value == TypingRequest(active.value.id, true)
  {
    if !hasSocket || active.None? then None else Some(TypingRequest(active.value.id, true))
  }
}
