/** The message collection as the back end uses it: `new Message(...).save()`,
    `Message.findByIdAndUpdate(id, {read: true}, {new: true})` and
    `Message.updateMany({sender, receiver, read: false}, {read: true})`.
    Documents are kept in insertion order; the schema's `timestamps` option sets
    `updatedAt` on every update. */
module Store {
  import opened Common
  import opened MessageModel

  /** Why `save()` rejected a message. */
  datatype SaveError = Invalid(fields: set<Field>) | StoreFault

  /** `m` is an unread message from `from` to `to`: the updateMany filter. */
  predicate UnreadFromTo(m: Message, from: UserId, to: UserId) {
    m.sender == from && m.receiver == to && !m.read
  }

  /** The number of unread messages from `from` to `to`. */
  function UnreadFrom(ms: seq<Message>, from: UserId, to: UserId): (n: nat)
    ensures n <= |ms|
  {
    if ms == [] then 0
    else UnreadFrom(ms[..|ms| - 1], from, to) + (if UnreadFromTo(ms[|ms| - 1], from, to) then 1 else 0)
  }

  /** The count is zero exactly when no document matches. */
  lemma {:induction false} UnreadFromZeroIff(ms: seq<Message>, from: UserId, to: UserId)
    ensures UnreadFrom(ms, from, to) == 0 <==> forall i :: 0 <= i < |ms| ==> !UnreadFromTo(ms[i], from, to)
  {
    if ms != [] {
      var init := ms[..|ms| - 1];
      UnreadFromZeroIff(init, from, to);
      assert forall i :: 0 <= i < |init| ==> init[i] == ms[i];
    }
  }

  /** One document after the updateMany: matched documents become read. */
  function MarkIncoming(m: Message, from: UserId, to: UserId, now: nat): Message {
    if UnreadFromTo(m, from, to) then m.(read := true, updatedAt := now) else m
  }

  /** The collection after `updateMany({sender: from, receiver: to, read: false}, {read: true})`. */
  function MarkedRead(ms: seq<Message>, from: UserId, to: UserId, now: nat): (r: seq<Message>)
    ensures |r| == |ms|
    ensures forall i :: 0 <= i < |r| ==> r[i].id == ms[i].id && (r[i].read <==> ms[i].read || UnreadFromTo(ms[i], from, to))
  {
    seq(|ms|, i requires 0 <= i < |ms| => MarkIncoming(ms[i], from, to, now))
  }

  /** Position of the first document whose `_id` is `id`. */
  function IndexOf(ms: seq<Message>, id: MessageId): (r: Option<nat>)
    ensures r.Some? ==> r.value < |ms| && ms[r.value].id == id
    ensures r.Some? ==> forall k :: 0 <= k < r.value ==> ms[k].id != id
    ensures r.None? <==> forall k :: 0 <= k < |ms| ==> ms[k].id != id
  {
    if ms == [] then None
    else if ms[0].id == id then Some(0)
    else match IndexOf(ms[1..], id)
      case None => None
      case Some(k) => Some(k + 1)
  }

  /** The collection after `findByIdAndUpdate(id, {read: true})`. */
  function MarkedById(ms: seq<Message>, id: MessageId, now: nat): (r: seq<Message>)
    ensures |r| == |ms|
    ensures IndexOf(ms, id).None? ==> r == ms
    ensures forall i :: 0 <= i < |r| ==> (r[i] == ms[i] || (ms[i].id == id && r[i] == ms[i].(read := true, updatedAt := now)))
    ensures IndexOf(ms, id).Some? ==> r[IndexOf(ms, id).value].read
  {
    match IndexOf(ms, id)
    case None => ms
    case Some(i) => ms[i := ms[i].(read := true, updatedAt := now)]
  }

  /** `after` is `before` evolved by the allowed operations: documents are only
      appended, never removed or reordered; identity, parties, content and
      creation time never change; `read` only goes from false to true. */
  ghost predicate Evolves(before: seq<Message>, after: seq<Message>) {
    && |before| <= |after|
    && forall i :: 0 <= i < |before| ==>
      && after[i].id == before[i].id
      && after[i].sender == before[i].sender
      && after[i].receiver == before[i].receiver
      && after[i].content == before[i].content
      && after[i].createdAt == before[i].createdAt
      && (before[i].read ==> after[i].read)
  }

  /** Document identifiers strictly increase in insertion order and stay below `next`. */
  ghost predicate IdsBelow(ms: seq<Message>, next: MessageId) {
    && (forall i :: 0 <= i < |ms| ==> ms[i].id < next)
    && (forall i, j :: 0 <= i < j < |ms| ==> ms[i].id < ms[j].id)
  }

  /** Appending a document with the next identifier keeps identifiers increasing
      and is an allowed evolution. */
  lemma AppendNext(ms: seq<Message>, next: MessageId, m: Message)
    requires IdsBelow(ms, next) && m.id == next
    ensures IdsBelow(ms + [m], next + 1)
    ensures Evolves(ms, ms + [m])
  {
  }

  /** After the bulk update no unread message from `from` to `to` is left. */
  lemma {:induction false} MarkedReadLeavesNoUnread(ms: seq<Message>, from: UserId, to: UserId, now: nat)
    ensures UnreadFrom(MarkedRead(ms, from, to, now), from, to) == 0
  {
    var r := MarkedRead(ms, from, to, now);
    forall i | 0 <= i < |r| ensures !UnreadFromTo(r[i], from, to) {
    }
    UnreadFromZeroIff(r, from, to);
  }

  /** The bulk update touches exactly the unread messages from `from` to `to`;
      every other document is unchanged. */
  lemma MarkedReadEffect(ms: seq<Message>, from: UserId, to: UserId, now: nat, i: nat)
    requires i < |ms|
    ensures |MarkedRead(ms, from, to, now)| == |ms|
    ensures UnreadFromTo(ms[i], from, to) ==>
      MarkedRead(ms, from, to, now)[i] == ms[i].(read := true, updatedAt := now)
    ensures !UnreadFromTo(ms[i], from, to) ==> MarkedRead(ms, from, to, now)[i] == ms[i]
  {
  }

  /** Repeating the bulk update changes nothing. */
  lemma MarkedReadIdempotent(ms: seq<Message>, from: UserId, to: UserId, now: nat, later: nat)
    ensures MarkedRead(MarkedRead(ms, from, to, now), from, to, later) == MarkedRead(ms, from, to, now)
  {
  }

  lemma MarkedReadEvolves(ms: seq<Message>, from: UserId, to: UserId, now: nat)
    ensures Evolves(ms, MarkedRead(ms, from, to, now))
  {
  }

  lemma MarkedReadKeepsIds(ms: seq<Message>, from: UserId, to: UserId, now: nat, next: MessageId)
    requires IdsBelow(ms, next)
    ensures IdsBelow(MarkedRead(ms, from, to, now), next)
  {
  }

  lemma MarkedByIdEvolves(ms: seq<Message>, id: MessageId, now: nat)
    ensures Evolves(ms, MarkedById(ms, id, now))
  {
  }

  lemma {:induction false} UnreadFromPrefix(ms: seq<Message>, i: nat, from: UserId, to: UserId)
    requires i < |ms|
    ensures UnreadFrom(ms[..i + 1], from, to)
         == UnreadFrom(ms[..i], from, to) + (if UnreadFromTo(ms[i], from, to) then 1 else 0)
  {
    assert ms[..i + 1][..i] == ms[..i];
  }

  /** What saving a draft under identifier `id` yields: the validation error
      first, then the database failure, otherwise the created document. */
  function SaveOutcome(d: Draft, id: MessageId, now: nat, fault: bool): (r: Result<Message, SaveError>)
    ensures r.Ok? <==> !fault && Create(d, id, now).Ok?
    ensures r.Ok? ==> Create(d, id, now) == Ok(r.value)
    ensures Create(d, id, now).Err? ==> r == Err(Invalid(Create(d, id, now).error))
    ensures fault && Create(d, id, now).Ok? ==> r == Err(StoreFault)
  {
    match Create(d, id, now)
    case Err(missing) => Err(Invalid(missing))
    case Ok(m) => if fault then Err(StoreFault) else Ok(m)
  }

  /** The document-by-document pass of the bulk update: marks every unread
      message from `from` to `to` and counts them. */
  method MarkEach(ms: seq<Message>, from: UserId, to: UserId, now: nat) returns (marked: seq<Message>, modified: nat)
    ensures marked == MarkedRead(ms, from, to, now)
    ensures modified == UnreadFrom(ms, from, to)
  {
    marked := ms;
    modified := 0;
    var i := 0;
    while i < |marked|
      invariant 0 <= i <= |marked| == |ms|
      invariant forall k :: 0 <= k < i ==> marked[k] == MarkIncoming(ms[k], from, to, now)
      invariant forall k :: i <= k < |marked| ==> marked[k] == ms[k]
      invariant modified == UnreadFrom(ms[..i], from, to)
    {
      UnreadFromPrefix(ms, i, from, to);
      if UnreadFromTo(ms[i], from, to) {
        marked := marked[i := MarkIncoming(ms[i], from, to, now)];
        modified := modified + 1;
      }
      i := i + 1;
    }
    assert ms[..i] == ms;
    assert forall k :: 0 <= k < |marked| ==> marked[k] == MarkedRead(ms, from, to, now)[k];
  }

  class MessageStore {
    var messages: seq<Message>
    /** The identifier the next saved document receives (ObjectId generation). */
    var nextId: MessageId

    ghost predicate Valid()
      reads this
    {
      IdsBelow(messages, nextId)
    }

    constructor()
      ensures Valid() && messages == []
    {
      messages := [];
      nextId := 0;
    }

    /** `new Message(draft).save()` at time `now`; `fault` stands for a database failure. */
    method Save(d: Draft, now: nat, fault: bool) returns (r: Result<Message, SaveError>)
      requires Valid()
      modifies this
      ensures Valid()
      ensures r == SaveOutcome(d, old(nextId), now, fault)
      ensures r.Ok? ==> messages == old(messages) + [r.value]
      ensures r.Err? ==> messages == old(messages)
      ensures Evolves(old(messages), messages)
    {
      var created := Create(d, nextId, now);
      if created.Err? {
        return Err(Invalid(created.error));
      }
      if fault {
        return Err(StoreFault);
      }
      AppendNext(messages, nextId, created.value);
      messages := messages + [created.value];
      nextId := nextId + 1;
      r := Ok(created.value);
    }

    /** `findByIdAndUpdate(id, {read: true}, {new: true})`: the updated document, or None when no document has that id. */
    method FindByIdAndMarkRead(id: MessageId, now: nat) returns (r: Option<Message>)
      requires Valid()
      modifies this
      ensures Valid()
      ensures messages == MarkedById(old(messages), id, now)
      ensures r.None? <==> IndexOf(old(messages), id).None?
      ensures r.Some? ==> r.value.id == id && r.value.read && r.value in messages
      ensures Evolves(old(messages), messages)
    {
      var i := 0;
      while i < |messages| && messages[i].id != id
        invariant 0 <= i <= |messages|
        invariant forall k :: 0 <= k < i ==> messages[k].id != id
      {
        i := i + 1;
      }
      if i == |messages| {
        assert IndexOf(messages, id).None?;
        return None;
      }
      assert IndexOf(messages, id) == Some(i);
      var updated := messages[i].(read := true, updatedAt := now);
      messages := messages[i := updated];
      assert messages[i] == updated;
      r := Some(updated);
    }

    /** `updateMany({sender: from, receiver: to, read: false}, {read: true})`; returns the modified count. */
    method UpdateManyRead(from: UserId, to: UserId, now: nat) returns (modified: nat)
      requires Valid()
      modifies this
      ensures Valid()
      ensures messages == MarkedRead(old(messages), from, to, now)
      ensures modified == UnreadFrom(old(messages), from, to)
      ensures UnreadFrom(messages, from, to) == 0
      ensures Evolves(old(messages), messages)
    {
      MarkedReadKeepsIds(messages, from, to, now, nextId);
      MarkedReadLeavesNoUnread(messages, from, to, now);
      MarkedReadEvolves(messages, from, to, now);
      messages, modified := MarkEach(messages, from, to, now);
    }
  }
}
