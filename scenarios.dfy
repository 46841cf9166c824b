/** End-to-end runs of the gateway, the store, the conversation controller and the
    chat page together, each on fresh state: what two users see when one sends to
    an offline peer, presence across connects and disconnects (including a stale
    socket's disconnect), typing relays, and a read receipt travelling back. */
module Scenarios {
  import opened Common
  import opened MessageModel
  import opened Store
  import opened ChatController
  import opened Gateway
  import opened ChatClient

  const Alice: UserId := 1
  const Bob: UserId := 2

  /** Saving a send of "hi" from `from` to `to` stores an unread message with that text. */
  lemma HiIsSaved(from: UserId, to: UserId, id: MessageId, now: nat)
    ensures SaveOutcome(Draft(Some(from), Some(to), Some("hi"), None), id, now, false)
         == Ok(Message(id, from, to, "hi", false, now, now))
  {
    var hi := "hi";
    assert !IsSpace(hi[0]) && !IsSpace(hi[1]);
    assert IsTrimmed(hi) && !AllSpace(hi);
    TrimmedIsKept(hi);
  }

  /** A store holding one message of the conversation shows exactly that message. */
  lemma SingleMessageHistory(m: Message, me: UserId, peer: UserId)
    requires Between(m, me, peer)
    ensures History([m], me, peer) == [m]
  {
    assert Conversation([m], me, peer) == [m];
  }

  /** A page holding one unread incoming message emits one receipt for it. */
  lemma SingleUnreadReceipt(p: PageMessage, me: UserId, peer: UserId)
    requires p.receiver == me && !p.read
    ensures ReadRequests([p], me, peer) == [ReadRequest(p.id, me, peer)]
  {
    assert [p][1..] == [];
  }

  /** A fetched history of one unread incoming message emits one receipt carrying its id. */
  lemma FetchedSingleReceipt(m: Message, me: UserId, peer: UserId)
    requires m.receiver == me && !m.read
    ensures ReadRequests(Fetched(Rows([m])), me, peer) == [ReadRequest(Some(m.id), me, peer)]
  {
    var page := Fetched(Rows([m]));
    assert page == [FromRow(Rows([m])[0])];
    SingleUnreadReceipt(page[0], me, peer);
  }

  /** The sender's copy of a message, appended from the send ack, has no id, so a
      read notice naming the message by its id leaves that copy as it was. */
  lemma AckCopyNotTicked(m: Message, id: MessageId)
    ensures MarkReadById(ApplySendAck([], AckOk(m)), Some(id)) == [FromDocument(m)]
  {
  }

  /** Alice sends "hi" to Bob, who is offline: the ack is ok and nothing is pushed;
      Bob's later history fetch shows the message unread, and marks it read. */
  method OfflineSendThenFetch() returns (ack: Emit, pushes: nat, seen: seq<MessageRow>, readAfter: bool)
    ensures ack.target == ToSocket(10) && ack.event.SendAck? && ack.event.ack.AckOk?
    ensures pushes == 0
    ensures |seen| == 1 && seen[0].sender == Alice && seen[0].receiver == Bob
    ensures seen[0].content == "hi" && !seen[0].read
    ensures readAfter
  {
    var store := new MessageStore();
    var gateway := new Gateway(store);
    gateway.Connect(Connection(10, Alice));
    var before := |gateway.outbox|;
    HiIsSaved(Alice, Bob, store.nextId, 5);
    gateway.SendMessage(Connection(10, Alice), Some(Bob), Some("hi"), true, 5, false);
    var m := store.messages[0];
    assert store.messages == [m] && m == Message(m.id, Alice, Bob, "hi", false, 5, 5);
    assert gateway.outbox == gateway.outbox[..before] + [Emit(ToSocket(10), SendAck(AckOk(m)))];
    ack := gateway.outbox[before];
    pushes := |gateway.outbox| - before - 1;
    SingleMessageHistory(m, Bob, Alice);
    var fetched := GetMessages(store, Bob, Alice, 6, false);
    seen := fetched.value.messages;
    readAfter := store.messages[0].read;
  }

  /** Alice connects twice; the first socket's late disconnect removes her entry
      although her second socket is still open, and the broadcast says nobody is online. */
  method StaleDisconnect() returns (aliceOnline: bool, advertised: Option<set<UserId>>)
    ensures !aliceOnline
    ensures advertised == Some({})
  {
    var store := new MessageStore();
    var gateway := new Gateway(store);
    gateway.Connect(Connection(10, Alice));
    gateway.Connect(Connection(11, Alice));
    gateway.Disconnect(Connection(10, Alice));
    assert gateway.online.Keys == {};
    aliceOnline := Alice in gateway.online;
    advertised := LastOnlineBroadcast(gateway.outbox);
  }

  /** Alice and Bob connect; both ids are broadcast; Bob leaves and the next
      broadcast holds Alice only. */
  method PresenceAcrossDisconnect() returns (bothOnline: set<UserId>, afterLeave: set<UserId>)
    ensures bothOnline == {Alice, Bob}
    ensures afterLeave == {Alice}
  {
    var store := new MessageStore();
    var gateway := new Gateway(store);
    gateway.Connect(Connection(10, Alice));
    gateway.Connect(Connection(20, Bob));
    bothOnline := gateway.outbox[|gateway.outbox| - 1].event.ids;
    gateway.Disconnect(Connection(20, Bob));
    afterLeave := gateway.outbox[|gateway.outbox| - 1].event.ids;
  }

  /** Alice types and stops: Bob's socket receives exactly the two transitions,
      and nothing is stored. */
  method TypingRelayed() returns (relayed: seq<Emit>, stored: nat)
    ensures relayed == [Emit(ToSocket(20), TypingNotice(Alice, true)), Emit(ToSocket(20), TypingNotice(Alice, false))]
    ensures stored == 0
  {
    var store := new MessageStore();
    var gateway := new Gateway(store);
    gateway.Connect(Connection(10, Alice));
    gateway.Connect(Connection(20, Bob));
    var before := |gateway.outbox|;
    gateway.Typing(Connection(10, Alice), Bob, true);
    gateway.Typing(Connection(10, Alice), Bob, false);
    relayed := gateway.outbox[before..];
    stored := |store.messages|;
  }

  /** Both online, Alice sends "hi"; Bob's page appends the pushed document, which
      has no `id`, so the one receipt it emits names no message, and the stored
      message stays unread. */
  method PushedReceiptNamesNoMessage() returns (receipts: seq<ReadRequest>, storedUnread: bool)
    ensures receipts == [ReadRequest(None, Bob, Alice)]
    ensures storedUnread
  {
    var store := new MessageStore();
    var gateway := new Gateway(store);
    gateway.Connect(Connection(10, Alice));
    gateway.Connect(Connection(20, Bob));
    var before := |gateway.outbox|;
    HiIsSaved(Alice, Bob, store.nextId, 5);
    gateway.SendMessage(Connection(10, Alice), Some(Bob), Some("hi"), true, 5, false);
    var m := store.messages[0];
    assert m.receiver == Bob && !m.read && m.sender == Alice;
    var push := gateway.outbox[before + 1];
    assert push == Emit(ToSocket(20), ReceiveMessage(m));
    var bobPage := Appended([], push.event.message);
    assert bobPage == [FromDocument(m)];
    SingleUnreadReceipt(FromDocument(m), Bob, Alice);
    receipts := ReadEmits(bobPage, Bob, true, Some(UiUser(Alice, "alice", true, None, 0)));
    storedUnread := !store.messages[0].read;
  }

  /** Alice's "hi" to Bob is stored; Bob opens the conversation and fetches it over
      HTTP: the fetched row carries the message's id, and his page emits one
      receipt naming it, addressed to Alice. `sent` is the document as saved, which
      the send ack carries. */
  method FetchThenReceipt() returns (store: MessageStore, sent: Message, receipts: seq<ReadRequest>)
    ensures fresh(store) && store.Valid()
    ensures |store.messages| == 1 && store.messages[0].id == sent.id
    ensures store.messages[0].sender == Alice && store.messages[0].content == "hi"
    ensures !sent.read
    ensures receipts == [ReadRequest(Some(sent.id), Bob, Alice)]
  {
    store := new MessageStore();
    HiIsSaved(Alice, Bob, store.nextId, 5);
    var saved := store.Save(Draft(Some(Alice), Some(Bob), Some("hi"), None), 5, false);
    var m := saved.value;
    sent := m;
    assert store.messages == [m] && m == Message(m.id, Alice, Bob, "hi", false, 5, 5);
    SingleMessageHistory(m, Bob, Alice);
    var fetched := GetMessages(store, Bob, Alice, 6, false);
    FetchedSingleReceipt(m, Bob, Alice);
    receipts := ReadEmits(Fetched(fetched.value.messages), Bob, true, Some(UiUser(Alice, "alice", true, None, 0)));
  }

  /** The receipt of `FetchThenReceipt` travels back: with both connected, the
      gateway marks the named message read and notifies Alice's socket that Bob
      read it. Alice's own copy, appended from the send ack (`AckOk` of the stored
      message) without an `id`, is not ticked by the notice. */
  method FetchedReceiptRoundTrip() returns (receipts: seq<ReadRequest>, notice: Emit, stored: Message, aliceTicked: bool)
    ensures |receipts| == 1 && receipts[0].from == Bob && receipts[0].to == Alice
    ensures receipts[0].messageId == Some(stored.id)
    ensures notice == Emit(ToSocket(10), MessageReadNotice(stored.id, Bob, 7))
    ensures stored.read && stored.sender == Alice && stored.content == "hi"
    ensures !aliceTicked
  {
    var store, sent;
    store, sent, receipts := FetchThenReceipt();
    var m := store.messages[0];
    var gateway := new Gateway(store);
    gateway.Connect(Connection(10, Alice));
    gateway.Connect(Connection(20, Bob));
    assert IndexOf(store.messages, m.id) == Some(0);
    gateway.MessageRead(Connection(20, Bob), receipts[0].messageId.value, Bob, Alice, 7, false);
    notice := gateway.outbox[|gateway.outbox| - 1];
    stored := store.messages[0];
    AckCopyNotTicked(sent, notice.event.messageId);
    aliceTicked := MarkReadById(ApplySendAck([], AckOk(sent)), Some(notice.event.messageId))[0].read;
  }
}
