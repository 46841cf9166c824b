/** The conversation read side (backend/controllers/chatController.js):
    `getUsers`, the per-peer summaries with last message and unread count, and
    `getMessages`, the two-way history that also marks the caller's incoming
    messages read. */
module ChatController {
  import opened Common
  import opened MessageModel
  import opened Store
  import opened Sorting

  /** The conversation filter of both queries: `{sender, receiver}` is `{me, peer}`. */
  predicate Between(m: Message, me: UserId, peer: UserId) {
    (m.sender == peer && m.receiver == me) || (m.sender == me && m.receiver == peer)
  }

  /** The messages between `me` and `peer`, in store order. */
  function Conversation(ms: seq<Message>, me: UserId, peer: UserId): (r: seq<Message>)
    ensures |r| <= |ms|
    ensures forall m :: m in r <==> m in ms && Between(m, me, peer)
  {
    if ms == [] then []
    else if Between(ms[0], me, peer) then [ms[0]] + Conversation(ms[1..], me, peer)
    else Conversation(ms[1..], me, peer)
  }

  /** `$sort: {createdAt: -1}`: `a` may come before `b` when it is not older. */
  predicate NewerOrSame(a: Message, b: Message) {
    a.createdAt >= b.createdAt
  }

  /** The gathered messages of both queries, newest first. */
  function History(ms: seq<Message>, me: UserId, peer: UserId): (r: seq<Message>)
    ensures |r| == |Conversation(ms, me, peer)|
    ensures multiset(r) == multiset(Conversation(ms, me, peer))
  {
    SortBy(Conversation(ms, me, peer), NewerOrSame)
  }

  lemma NewerOrSameIsTotalPreorder()
    ensures TotalPreorder(NewerOrSame)
  {
  }

  /** The history holds exactly the messages between the two users, each as often
      as in the store, newest first. */
  lemma HistoryIsConversationNewestFirst(ms: seq<Message>, me: UserId, peer: UserId)
    ensures multiset(History(ms, me, peer)) == multiset(Conversation(ms, me, peer))
    ensures forall m :: m in History(ms, me, peer) <==> m in ms && Between(m, me, peer)
    ensures forall i, j :: 0 <= i < j < |History(ms, me, peer)| ==>
      History(ms, me, peer)[i].createdAt >= History(ms, me, peer)[j].createdAt
  {
    var c := Conversation(ms, me, peer);
    NewerOrSameIsTotalPreorder();
    SortBySorted(c, NewerOrSame);
    forall m ensures m in History(ms, me, peer) <==> m in c {
      SortByMembers(c, NewerOrSame, m);
    }
  }

  /** A message newer than everything stored heads its conversation's history
      once it is stored, and it is unread as created. */
  lemma NewestMessageHeadsHistory(ms: seq<Message>, m: Message, me: UserId, peer: UserId)
    requires Between(m, me, peer)
    requires forall x :: x in ms ==> x.createdAt < m.createdAt
    ensures History(ms + [m], me, peer) != [] && History(ms + [m], me, peer)[0] == m
  {
    var h := History(ms + [m], me, peer);
    HistoryIsConversationNewestFirst(ms + [m], me, peer);
    assert m in h;
    var k :| 0 <= k < |h| && h[k] == m;
    assert h[0] in ms + [m];
  }

  /** Counting unread messages distributes over concatenation. */
  lemma {:induction false} UnreadFromConcat(a: seq<Message>, b: seq<Message>, from: UserId, to: UserId)
    ensures UnreadFrom(a + b, from, to) == UnreadFrom(a, from, to) + UnreadFrom(b, from, to)
  {
    if b != [] {
      UnreadFromConcat(a, b[..|b| - 1], from, to);
      assert (a + b)[..|a + b| - 1] == a + b[..|b| - 1];
    } else {
      assert a + b == a;
    }
  }

  /** Counting over `[x] + s`: the head's contribution plus the tail's count. */
  lemma UnreadFromCons(x: Message, s: seq<Message>, from: UserId, to: UserId)
    ensures UnreadFrom([x] + s, from, to) == (if UnreadFromTo(x, from, to) then 1 else 0) + UnreadFrom(s, from, to)
  {
    UnreadFromConcat([x], s, from, to);
    assert [x][..0] == [];
  }

  /** Inserting one message adds exactly its own contribution to the count. */
  lemma UnreadFromHead(s: seq<Message>, from: UserId, to: UserId)
    requires s != []
    ensures UnreadFrom(s, from, to) == (if UnreadFromTo(s[0], from, to) then 1 else 0) + UnreadFrom(s[1..], from, to)
  {
    UnreadFromCons(s[0], s[1..], from, to);
    assert s == [s[0]] + s[1..];
  }

  lemma {:induction false} UnreadFromInsert(x: Message, s: seq<Message>, le: (Message, Message) -> bool, from: UserId, to: UserId)
    ensures UnreadFrom(Insert(x, s, le), from, to) == (if UnreadFromTo(x, from, to) then 1 else 0) + UnreadFrom(s, from, to)
  {
    if s == [] || le(x, s[0]) {
      UnreadFromCons(x, s, from, to);
    } else {
      UnreadFromInsert(x, s[1..], le, from, to);
      UnreadFromCons(s[0], Insert(x, s[1..], le), from, to);
      UnreadFromHead(s, from, to);
    }
  }

  /** Sorting does not change how many unread messages there are. */
  lemma {:induction false} UnreadFromSortBy(s: seq<Message>, le: (Message, Message) -> bool, from: UserId, to: UserId)
    ensures UnreadFrom(SortBy(s, le), from, to) == UnreadFrom(s, from, to)
  {
    if s != [] {
      UnreadFromSortBy(s[1..], le, from, to);
      UnreadFromInsert(s[0], SortBy(s[1..], le), le, from, to);
      UnreadFromHead(s, from, to);
    }
  }

  /** Restricting the store to one conversation keeps every unread message from `peer` to `me`. */
  lemma {:induction false} UnreadFromConversation(ms: seq<Message>, me: UserId, peer: UserId)
    ensures UnreadFrom(Conversation(ms, me, peer), peer, me) == UnreadFrom(ms, peer, me)
  {
    if ms != [] {
      UnreadFromConversation(ms[1..], me, peer);
      UnreadFromConcat([ms[0]], ms[1..], peer, me);
      assert ms == [ms[0]] + ms[1..];
      if Between(ms[0], me, peer) {
        UnreadFromConcat([ms[0]], Conversation(ms[1..], me, peer), peer, me);
      } else {
        assert [ms[0]][..0] == [];
        assert UnreadFrom([ms[0]], peer, me) == 0;
      }
    }
  }

  /** One row of the `getUsers` result. */
  datatype Summary = Summary(id: UserId, username: string, email: string, lastMessage: Option<Message>, unreadCount: nat)

  /** The `$lookup`, `$addFields` and `$project` stages for one candidate peer. */
  function SummaryOf(u: User, ms: seq<Message>, me: UserId): (r: Summary)
    ensures r.id == u.id && r.username == u.username && r.email == u.email
  {
    var h := History(ms, me, u.id);
    Summary(u.id, u.username, u.email,
            if h == [] then None else Some(h[0]),
            UnreadFrom(h, u.id, me))
  }

  /** The last message is the newest message between the two users, absent when
      there is none; the unread count is the number of unread messages from the
      peer to the caller, at most the size of the conversation. */
  lemma SummaryOfIsCorrect(u: User, ms: seq<Message>, me: UserId)
    ensures SummaryOf(u, ms, me).id == u.id
    ensures SummaryOf(u, ms, me).lastMessage.None? <==> forall m :: m in ms ==> !Between(m, me, u.id)
    ensures SummaryOf(u, ms, me).lastMessage.Some? ==>
      var last := SummaryOf(u, ms, me).lastMessage.value;
      && last in ms && Between(last, me, u.id)
      && forall m :: m in ms && Between(m, me, u.id) ==> m.createdAt <= last.createdAt
    ensures SummaryOf(u, ms, me).unreadCount == UnreadFrom(ms, u.id, me)
    ensures SummaryOf(u, ms, me).unreadCount <= |Conversation(ms, me, u.id)|
  {
    var h := History(ms, me, u.id);
    HistoryIsConversationNewestFirst(ms, me, u.id);
    if h != [] {
      forall m | m in ms && Between(m, me, u.id) ensures m.createdAt <= h[0].createdAt {
        assert m in h;
        var k :| 0 <= k < |h| && h[k] == m;
      }
    } else {
      assert forall m :: m in ms ==> !Between(m, me, u.id);
    }
    UnreadFromSortBy(Conversation(ms, me, u.id), NewerOrSame, u.id, me);
    UnreadFromConversation(ms, me, u.id);
  }

  /** `$sort: {"lastMessage.createdAt": -1, username: 1}`: a missing last message
      sorts lowest, so such peers come after every peer with history. */
  predicate SummaryBefore(a: Summary, b: Summary): (r: bool)
    ensures a.lastMessage.Some? && b.lastMessage.None? ==> r
    ensures a.lastMessage.None? && b.lastMessage.Some? ==> !r
    ensures a.lastMessage.Some? && b.lastMessage.Some? && a.lastMessage.value.createdAt > b.lastMessage.value.createdAt ==> r
    ensures a.lastMessage.Some? && b.lastMessage.Some? && a.lastMessage.value.createdAt < b.lastMessage.value.createdAt ==> !r
    ensures a.lastMessage.Some? && b.lastMessage.Some? && a.lastMessage.value.createdAt == b.lastMessage.value.createdAt ==>
      (r <==> LexLe(a.username, b.username))
    ensures a.lastMessage.None? && b.lastMessage.None? ==> (r <==> LexLe(a.username, b.username))
  {
    match (a.lastMessage, b.lastMessage)
    case (Some(x), Some(y)) =>
      x.createdAt > y.createdAt || (x.createdAt == y.createdAt && LexLe(a.username, b.username))
    case (Some(_), None) => true
    case (None, Some(_)) => false
    case (None, None) => LexLe(a.username, b.username)
  }

  lemma SummaryBeforeIsTotalPreorder()
    ensures TotalPreorder(SummaryBefore)
  {
    forall a, b ensures SummaryBefore(a, b) || SummaryBefore(b, a) {
      LexTotal(a.username, b.username);
    }
    forall a, b, c | SummaryBefore(a, b) && SummaryBefore(b, c) ensures SummaryBefore(a, c) {
      if LexLe(a.username, b.username) && LexLe(b.username, c.username) {
        LexTransitive(a.username, b.username, c.username);
      }
    }
  }

  /** The `$match` stage: every user except the caller, in collection order. */
  function Candidates(users: seq<User>, me: UserId): (r: seq<User>)
    ensures forall u :: u in r <==> u in users && u.id != me
  {
    if users == [] then []
    else if users[0].id != me then [users[0]] + Candidates(users[1..], me)
    else Candidates(users[1..], me)
  }

  /** The whole aggregation pipeline of `getUsers`. */
  function Summaries(users: seq<User>, ms: seq<Message>, me: UserId): (r: seq<Summary>)
    ensures |r| == |Candidates(users, me)|
  {
    var c := Candidates(users, me);
    SortBy(seq(|c|, i requires 0 <= i < |c| => SummaryOf(c[i], ms, me)), SummaryBefore)
  }

  /** The summaries are exactly those of the users other than the caller: the
      caller never appears, and every other user does. */
  lemma SummariesAreOtherUsers(users: seq<User>, ms: seq<Message>, me: UserId)
    ensures |Summaries(users, ms, me)| == |Candidates(users, me)|
    ensures forall s :: s in Summaries(users, ms, me) ==> s.id != me
    ensures forall u :: u in users && u.id != me ==> SummaryOf(u, ms, me) in Summaries(users, ms, me)
    ensures forall s :: s in Summaries(users, ms, me) ==>
      exists u :: u in users && u.id != me && s == SummaryOf(u, ms, me)
  {
    var c := Candidates(users, me);
    var rows := seq(|c|, i requires 0 <= i < |c| => SummaryOf(c[i], ms, me));
    forall s ensures s in Summaries(users, ms, me) <==> s in rows {
      SortByMembers(rows, SummaryBefore, s);
    }
    forall s | s in rows ensures s.id != me && exists u :: u in users && u.id != me && s == SummaryOf(u, ms, me) {
      var i :| 0 <= i < |rows| && rows[i] == s;
      assert c[i] in c;
      SummaryOfIsCorrect(c[i], ms, me);
    }
    forall u | u in users && u.id != me ensures SummaryOf(u, ms, me) in rows {
      var i :| 0 <= i < |c| && c[i] == u;
      assert rows[i] == SummaryOf(u, ms, me);
    }
  }

  /** The rows are in `$sort` order; in particular peers with no messages come last. */
  lemma SummariesSorted(users: seq<User>, ms: seq<Message>, me: UserId)
    ensures SortedBy(Summaries(users, ms, me), SummaryBefore)
    ensures forall i, j :: 0 <= i < j < |Summaries(users, ms, me)| && Summaries(users, ms, me)[i].lastMessage.None? ==>
      Summaries(users, ms, me)[j].lastMessage.None?
  {
    var c := Candidates(users, me);
    SummaryBeforeIsTotalPreorder();
    SortBySorted(seq(|c|, i requires 0 <= i < |c| => SummaryOf(c[i], ms, me)), SummaryBefore);
  }

  datatype UsersResponse = UsersResponse(status: int, message: string, users: seq<Summary>)

  /** `getUsers`; `fault` stands for a failing aggregation (rethrown with status 400). */
  function GetUsers(users: seq<User>, ms: seq<Message>, me: UserId, fault: bool): (r: Result<UsersResponse, HttpError>)
    ensures r.Err? <==> fault
    ensures r.Err? ==> r.error.status == 400
    ensures r.Ok? ==> r.value.users == Summaries(users, ms, me)
    ensures r.Ok? ==> (r.value.status == 404 <==> forall u :: u in users ==> u.id == me)
    ensures r.Ok? ==> (r.value.status == 404 || r.value.status == 200)
  {
    SummariesAreOtherUsers(users, ms, me);
    if fault then Err(HttpError(400, "Error fetching users"))
    else
      var rows := Summaries(users, ms, me);
      if rows == [] then
        assert forall u :: u in users ==> u.id == me;
        Ok(UsersResponse(404, "No users found", []))
      else
        assert rows[0] in rows;
        Ok(UsersResponse(200, "Users fetched successfully", rows))
  }

  /** One row of the `getMessages` body: the document without `updatedAt`, its
      `_id` exposed as `id`. */
  datatype MessageRow = MessageRow(id: MessageId, sender: UserId, receiver: UserId, content: string, read: bool, createdAt: nat)

  /** `fetchMessages.map(message => ({id: message._id, sender, receiver, content, read, createdAt}))`. */
  function Rows(ms: seq<Message>): (r: seq<MessageRow>)
    ensures |r| == |ms|
    ensures forall i :: 0 <= i < |r| ==>
      r[i] == MessageRow(ms[i].id, ms[i].sender, ms[i].receiver, ms[i].content, ms[i].read, ms[i].createdAt)
  {
    seq(|ms|, i requires 0 <= i < |ms| =>
      MessageRow(ms[i].id, ms[i].sender, ms[i].receiver, ms[i].content, ms[i].read, ms[i].createdAt))
  }

  datatype MessagesResponse = MessagesResponse(status: int, message: string, messages: seq<MessageRow>)

  /** `getMessages`: reads the history first, then bulk-marks the peer's messages
      to the caller read. `fault` stands for a failing query (rethrown with status 400). */
  method GetMessages(store: MessageStore, me: UserId, peer: UserId, now: nat, fault: bool)
    returns (r: Result<MessagesResponse, HttpError>)
    requires store.Valid()
    modifies store
    ensures store.Valid()
    ensures fault ==> r == Err(HttpError(400, "Error fetching messages")) && store.messages == old(store.messages)
    ensures !fault ==> r.Ok? && r.value.status == 200 && r.value.messages == Rows(History(old(store.messages), me, peer))
    ensures !fault ==> store.messages == MarkedRead(old(store.messages), peer, me, now)
    ensures History(old(store.messages), me, peer) == [] ==> store.messages == old(store.messages)
    ensures !fault ==> forall i :: 0 <= i < |store.messages| && store.messages[i].sender == peer && store.messages[i].receiver == me ==>
      store.messages[i].read
    ensures forall i :: 0 <= i < |old(store.messages)| && !UnreadFromTo(old(store.messages)[i], peer, me) ==>
      store.messages[i] == old(store.messages)[i]
  {
    if fault {
      return Err(HttpError(400, "Error fetching messages"));
    }
    var fetched := History(store.messages, me, peer);
    if fetched == [] {
      EmptyHistoryNothingToMark(store.messages, me, peer, now);
      return Ok(MessagesResponse(200, "No messages found", []));
    }
    var _ := store.UpdateManyRead(peer, me, now);
    r := Ok(MessagesResponse(200, "Messages fetched successfully", Rows(fetched)));
  }

  /** With no history there is nothing for the bulk update to mark. */
  lemma EmptyHistoryNothingToMark(ms: seq<Message>, me: UserId, peer: UserId, now: nat)
    requires History(ms, me, peer) == []
    ensures MarkedRead(ms, peer, me, now) == ms
  {
    HistoryIsConversationNewestFirst(ms, me, peer);
    forall i | 0 <= i < |ms| ensures !UnreadFromTo(ms[i], peer, me) {
      assert ms[i] in ms;
    }
  }
}
