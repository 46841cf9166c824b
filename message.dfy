/** The message record (backend/models/Message.js): required sender and receiver,
    required content stored trimmed, `read` defaulting to false, and the
    `createdAt`/`updatedAt` timestamps the store assigns. */
module MessageModel {
  import opened Common

  datatype Message = Message(
    id: MessageId,
    sender: UserId,
    receiver: UserId,
    content: string,
    read: bool,
    createdAt: nat,
    updatedAt: nat)

  /** The fields handed to `new Message({...})`; any of them may be absent. */
  datatype Draft = Draft(sender: Option<UserId>, receiver: Option<UserId>, content: JsString, read: Option<bool>)

  /** The schema paths whose `required` validator can fail. */
  datatype Field = SenderPath | ReceiverPath | ContentPath

  /** White space and line terminators removed by JavaScript's `String.prototype.trim`. */
  predicate IsSpace(c: char) {
    || c == '\t' || c == '\n' || c == '\U{000B}' || c == '\U{000C}' || c == '\r' || c == ' '
    || c == '\U{00A0}' || c == '\U{1680}' || ('\U{2000}' <= c <= '\U{200A}')
    || c == '\U{2028}' || c == '\U{2029}' || c == '\U{202F}' || c == '\U{205F}'
    || c == '\U{3000}' || c == '\U{FEFF}'
  }

  predicate AllSpace(s: string) {
    forall i :: 0 <= i < |s| ==> IsSpace(s[i])
  }

  /** Neither end of `s` is white space. */
  predicate IsTrimmed(s: string) {
    s == [] || (!IsSpace(s[0]) && !IsSpace(s[|s| - 1]))
  }

  /** Drops leading white space: the result is the suffix after a blank prefix. */
  function TrimStart(s: string): (r: string)
    ensures |r| <= |s| && r == s[|s| - |r|..]
    ensures AllSpace(s[..|s| - |r|])
    ensures r == [] || !IsSpace(r[0])
  {
    if s != [] && IsSpace(s[0]) then TrimStart(s[1..]) else s
  }

  /** Drops trailing white space: the result is the prefix before a blank suffix. */
  function TrimEnd(s: string): (r: string)
    ensures |r| <= |s| && r == s[..|r|]
    ensures AllSpace(s[|r|..])
    ensures r == [] || !IsSpace(r[|r| - 1])
  {
    if s != [] && IsSpace(s[|s| - 1]) then TrimEnd(s[..|s| - 1]) else s
  }

  /** The schema option `trim: true`. */
  function Trim(s: string): (r: string)
    ensures IsTrimmed(r)
    ensures |r| <= |s|
  {
    var t := TrimStart(s);
    var r := TrimEnd(t);
    assert r != [] ==> r[0] == t[0];
    r
  }

  /** A prefix of a suffix of `s` is a slice of `s`, and what follows it is the rest of `s`. */
  lemma PrefixOfSuffix<T>(s: seq<T>, t: seq<T>, r: seq<T>)
    requires |t| <= |s| && t == s[|s| - |t|..]
    requires |r| <= |t| && r == t[..|r|]
    ensures r == s[|s| - |t|..|s| - |t| + |r|]
    ensures t[|r|..] == s[|s| - |t| + |r|..]
  {
  }

  /** What `trim: true` keeps: the stored content is the input with a blank prefix
      and a blank suffix cut off, the middle kept as it is. */
  lemma TrimIsMiddle(s: string) returns (i: nat, j: nat)
    ensures i <= j <= |s|
    ensures Trim(s) == s[i..j]
    ensures AllSpace(s[..i]) && AllSpace(s[j..])
  {
    var t := TrimStart(s);
    var r := TrimEnd(t);
    assert Trim(s) == r;
    i := |s| - |t|;
    j := i + |r|;
    PrefixOfSuffix(s, t, r);
    var rest := t[|r|..];
    assert AllSpace(rest);
    assert rest == s[j..];
  }

  /** Content with no white space at either end is stored as given. */
  lemma TrimmedIsKept(s: string)
    requires IsTrimmed(s)
    ensures Trim(s) == s
  {
    assert TrimStart(s) == s;
    assert TrimEnd(s) == s;
  }

  /** Trimming twice is trimming once. */
  lemma TrimIdempotent(s: string)
    ensures Trim(Trim(s)) == Trim(s)
  {
    var r := Trim(s);
    assert TrimStart(r) == r;
    assert TrimEnd(r) == r;
  }

  /** Trimming leaves nothing exactly when the content is all white space. */
  lemma TrimEmptyIffBlank(s: string)
    ensures Trim(s) == [] <==> AllSpace(s)
  {
    var t := TrimStart(s);
    if Trim(s) == [] {
      assert t == [];
      assert s[..|s|] == s;
    }
  }

  lemma ContentBlankIff(d: Draft)
    ensures d.content.Some? ==> (Trim(d.content.value) == [] <==> AllSpace(d.content.value))
  {
    if d.content.Some? { TrimEmptyIffBlank(d.content.value); }
  }

  /** The paths whose `required` validator rejects the draft (content is checked after trimming). */
  function MissingFields(d: Draft): set<Field> {
    (if d.sender.None? then {SenderPath} else {})
    + (if d.receiver.None? then {ReceiverPath} else {})
    + (if d.content.None? || Trim(d.content.value) == "" then {ContentPath} else {})
  }

  /** Validates a draft and builds the stored record with identifier `id` at time `now`. */
  function Create(d: Draft, id: MessageId, now: nat): (r: Result<Message, set<Field>>)
    ensures r.Ok? <==> d.sender.Some? && d.receiver.Some? && d.content.Some? && !AllSpace(d.content.value)
    ensures r.Err? ==> r.error != {} && r.error == MissingFields(d)
    ensures r.Ok? ==>
      && r.value.id == id
      && r.value.sender == d.sender.value && r.value.receiver == d.receiver.value
      && r.value.content != [] && IsTrimmed(r.value.content) && r.value.content == Trim(d.content.value)
      && r.value.read == (d.read.Some? && d.read.value)
      && r.value.createdAt == now && r.value.updatedAt == now
  {
    ContentBlankIff(d);
    var missing := MissingFields(d);
    if missing != {} then
      Err(missing)
    else
      Ok(Message(id, d.sender.value, d.receiver.value, Trim(d.content.value),
                 if d.read.Some? then d.read.value else false, now, now))
  }
}
