/** Message fingerprints and the replay check of a chat conversation. The digest of the encoded canonical text is taken
    to be injective, so its bytes stand for it. */
module ChatReplay {
  import opened Wrappers
  import opened JsonText
  import opened CanonicalJson
  import Utf8

  datatype Message = Message(contentType: Text, body: Option<Text>, attachment: Option<Text>, metadata: Json)
  {
    predicate Ok() { metadata.Object? && Valid(metadata) }
  }

  function OrNull(t: Option<Text>): Json { if t.Some? then String(t.value) else Null }

  const CONTENT_TYPE: Text := Ascii("contentType")
  const BODY: Text := Ascii("body")
  const ATTACHMENT_ID: Text := Ascii("attachmentId")
  const METADATA: Text := Ascii("metadata")

  function Payload(m: Message): Json {
    Object([Member(CONTENT_TYPE, String(m.contentType)), Member(BODY, OrNull(m.body)),
            Member(ATTACHMENT_ID, OrNull(m.attachment)), Member(METADATA, m.metadata)])
  }

  function Fingerprint(m: Message): Utf8.Bytes { Utf8.Encode(Canonical(Payload(m))) }

  /** The same content type, body and attachment, present or absent, and the same metadata up to key order. */
  ghost predicate SameMessage(m: Message, n: Message) {
    m.contentType == n.contentType && m.body == n.body && m.attachment == n.attachment && Same(m.metadata, n.metadata)
  }

  lemma PayloadIsValid(m: Message)
    requires m.Ok()
    ensures Valid(Payload(m)) && |Payload(m).members| == 4
  {
    assert |CONTENT_TYPE| == 11 && |BODY| == 4 && |ATTACHMENT_ID| == 12 && |METADATA| == 8;
  }

  lemma SameByPosition(ms: seq<Member>, ns: seq<Member>)
    requires |ms| == |ns| && forall i :: 0 <= i < |ms| ==> ms[i].key == ns[i].key && Same(ms[i].value, ns[i].value)
    ensures Covers(ms, ns) && CoveredBy(ms, ns)
  {
    forall i | 0 <= i < |ms| ensures TwinOf(ms, i, ns) && TwinFor(ms, ns, i) {
      assert SameMember(ms, i, ns, i);
    }
  }

  lemma PositionsAreSame(ms: seq<Member>, ns: seq<Member>, i: nat)
    requires |ms| == |ns| && DistinctKeys(ms) && forall k :: 0 <= k < |ms| ==> ms[k].key == ns[k].key
    requires Covers(ms, ns) && i < |ms|
    ensures Same(ms[i].value, ns[i].value)
  {
    assert TwinOf(ms, i, ns);
    var j :| 0 <= j < |ns| && SameMember(ms, i, ns, j);
    assert ms[j].key == ms[i].key;
  }

  lemma OptionsAreSame(s: Option<Text>, t: Option<Text>)
    ensures Same(OrNull(s), OrNull(t)) <==> s == t
  {
  }

  lemma SameMessagesHaveSamePayloads(m: Message, n: Message)
    requires SameMessage(m, n)
    ensures Same(Payload(m), Payload(n))
  {
    OptionsAreSame(m.body, n.body);
    OptionsAreSame(m.attachment, n.attachment);
    SameByPosition(Payload(m).members, Payload(n).members);
  }

  lemma MembersOfSamePayloads(m: Message, n: Message, i: nat)
    requires m.Ok() && Same(Payload(m), Payload(n)) && i < 4
    ensures Same(Payload(m).members[i].value, Payload(n).members[i].value)
  {
    PayloadIsValid(m);
    PositionsAreSame(Payload(m).members, Payload(n).members, i);
  }

  lemma SamePayloadsAreSameMessages(m: Message, n: Message)
    requires m.Ok() && Same(Payload(m), Payload(n))
    ensures SameMessage(m, n)
  {
    MembersOfSamePayloads(m, n, 0);
    MembersOfSamePayloads(m, n, 1);
    MembersOfSamePayloads(m, n, 2);
    MembersOfSamePayloads(m, n, 3);
    OptionsAreSame(m.body, n.body);
    OptionsAreSame(m.attachment, n.attachment);
  }

  /** Two messages have the same fingerprint exactly when they are the same message up to metadata key order. */
  lemma FingerprintIdentifies(m: Message, n: Message)
    requires m.Ok() && n.Ok()
    ensures Fingerprint(m) == Fingerprint(n) <==> SameMessage(m, n)
  {
    PayloadIsValid(m);
    PayloadIsValid(n);
    CanonicalIdentifies(Payload(m), Payload(n));
    CanonicalIsWellFormed(Payload(m));
    CanonicalIsWellFormed(Payload(n));
    if Fingerprint(m) == Fingerprint(n) { Utf8.EncodeIsInjective(Canonical(Payload(m)), Canonical(Payload(n))); }
    if SameMessage(m, n) { SameMessagesHaveSamePayloads(m, n); }
    if Same(Payload(m), Payload(n)) { SamePayloadsAreSameMessages(m, n); }
  }

  // ----------------------------------------------------- what is fingerprinted

  function Written(t: Option<Text>): Text { if t.Some? then Quote(t.value) else NULL }

  /** The text behind a fingerprint holds the four parts of the message in the order of their names. */
  lemma FingerprintedText(m: Message)
    requires m.Ok()
    ensures Sort(Entries(Payload(m).members))
            == [Entry(ATTACHMENT_ID, Written(m.attachment)), Entry(BODY, Written(m.body)),
                Entry(CONTENT_TYPE, Quote(m.contentType)), Entry(METADATA, Canonical(m.metadata))]
  {
    PayloadIsValid(m);
    var es, a, b := Entries(Payload(m).members), Written(m.attachment), Written(m.body);
    var s := [Entry(ATTACHMENT_ID, a), Entry(BODY, b), Entry(CONTENT_TYPE, Quote(m.contentType)),
              Entry(METADATA, Canonical(m.metadata))];
    assert es == [s[2], s[1], s[0], s[3]];
    SortIsAscending(es);
    assert ATTACHMENT_ID[0] == 97 && BODY[0] == 98 && CONTENT_TYPE[0] == 99 && METADATA[0] == 109;
    AscendingIsUnique(Sort(es), s);
  }

  /** A stored message row. */
  datatype Row = Row(message: Message, fingerprint: Utf8.Bytes)

  datatype SendResult = Sent | Replay | KeyReused

  /** The messages of one sender in one conversation, by client message identifier. */
  class SentMessages {
    var rows: map<nat, Row>

    ghost predicate Valid()
      reads this
    {
      forall id :: id in rows ==> rows[id].message.Ok() && rows[id].fingerprint == Fingerprint(rows[id].message)
    }

    constructor ()
      ensures Valid() && rows == map[]
    {
      rows := map[];
    }

    /** A new identifier stores the message; a used one stores nothing, and is a replay exactly when the message is the
        one stored under it. */
    method Send(id: nat, m: Message) returns (r: SendResult)
      requires Valid() && m.Ok()
      modifies this
      ensures Valid()
      ensures id !in old(rows) ==> r == Sent && rows == old(rows)[id := Row(m, Fingerprint(m))]
      ensures id in old(rows) ==>
                rows == old(rows) && (r == if SameMessage(old(rows)[id].message, m) then Replay else KeyReused)
    {
      var fingerprint := Fingerprint(m);
      if id !in rows {
        rows := rows[id := Row(m, fingerprint)];
        return Sent;
      }
      FingerprintIdentifies(rows[id].message, m);
      if rows[id].fingerprint != fingerprint { return KeyReused; }
      return Replay;
    }
  }

  /** Why the fingerprint is exact up to non-finite numbers: they read as null, and nothing on the way from the sender
      to the fingerprint turns them away. */
  lemma NonFiniteReadsAsNull(key: Text)
    ensures var a, b := Object([Member(key, NonFinite)]), Object([Member(key, Null)]);
            Valid(a) && Valid(b) && a != b && Canonical(a) == Canonical(b)
  {
    var a, b := [Member(key, NonFinite)], [Member(key, Null)];
    assert SameMember(a, 0, b, 0);
    assert TwinOf(a, 0, b) && TwinFor(a, b, 0);
    CanonicalIdentifies(Object(a), Object(b));
  }
}
