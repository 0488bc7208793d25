/** One JSON reader and writer that meets what `Ndjson.Codec` asks: a record is written as an object
    with one member, whose name spells the record as a binary tree. */
module TextCodec {
  import opened Wrappers
  import opened Events
  import opened SourceLines
  import JsonText
  import Ndjson

  datatype Tree = Leaf | Pair(left: Tree, right: Tree)

  // ----- records as trees -----

  function Nat(n: nat): Tree { if n == 0 then Leaf else Pair(Leaf, Nat(n - 1)) }

  function Int(n: int): Tree { if n >= 0 then Pair(Leaf, Nat(n)) else Pair(Pair(Leaf, Leaf), Nat(-n)) }

  function Text(s: string): Tree { if s == [] then Leaf else Pair(Nat(s[0] as int), Text(s[1..])) }

  function Texts(s: seq<string>): Tree { if s == [] then Leaf else Pair(Text(s[0]), Texts(s[1..])) }

  function Maybe(s: Option<string>): Tree { if s.None? then Leaf else Pair(Leaf, Text(s.value)) }

  lemma {:induction false} NatInjective(a: nat, b: nat)
    requires Nat(a) == Nat(b)
    ensures a == b
  {
    if a > 0 && b > 0 {
      NatInjective(a - 1, b - 1);
    }
  }

  lemma IntInjective(a: int, b: int)
    requires Int(a) == Int(b)
    ensures a == b
  {
    if a >= 0 {
      NatInjective(a, b);
    } else {
      NatInjective(-a, -b);
    }
  }

  lemma {:induction false} TextInjective(a: string, b: string)
    requires Text(a) == Text(b)
    ensures a == b
  {
    if a != [] && b != [] {
      NatInjective(a[0] as int, b[0] as int);
      TextInjective(a[1..], b[1..]);
      assert a == [a[0]] + a[1..] && b == [b[0]] + b[1..];
    }
  }

  lemma {:induction false} TextsInjective(a: seq<string>, b: seq<string>)
    requires Texts(a) == Texts(b)
    ensures a == b
  {
    if a != [] && b != [] {
      TextInjective(a[0], b[0]);
      TextsInjective(a[1..], b[1..]);
      assert a == [a[0]] + a[1..] && b == [b[0]] + b[1..];
    }
  }

  lemma MaybeInjective(a: Option<string>, b: Option<string>)
    requires Maybe(a) == Maybe(b)
    ensures a == b
  {
    if a.Some? { TextInjective(a.value, b.value); }
  }

  function Time(t: Timestamp): Tree { Pair(Nat(t.day), Text(t.clock)) }

  lemma TimeInjective(a: Timestamp, b: Timestamp)
    requires Time(a) == Time(b)
    ensures a == b
  {
    NatInjective(a.day, b.day);
    TextInjective(a.clock, b.clock);
  }

  function Class(c: RecordClass): Tree { if c.Observation? then Leaf else Pair(Leaf, Leaf) }

  function Place(c: Context): Tree {
    Pair(Texts([c.repoId, c.repoRoot, c.artifactsRoot, c.publishedFrom, c.resolutionSource]), Maybe(c.streamClass))
  }

  lemma PlaceInjective(a: Context, b: Context)
    requires Place(a) == Place(b)
    ensures a == b
  {
    var x := [a.repoId, a.repoRoot, a.artifactsRoot, a.publishedFrom, a.resolutionSource];
    var y := [b.repoId, b.repoRoot, b.artifactsRoot, b.publishedFrom, b.resolutionSource];
    TextsInjective(x, y);
    MaybeInjective(a.streamClass, b.streamClass);
    assert x[0] == y[0] && x[1] == y[1] && x[2] == y[2] && x[3] == y[3] && x[4] == y[4];
  }

  function Asked(i: Intent): Tree {
    Pair(Pair(Int(i.generation), Int(i.workRevision)),
         Pair(Maybe(i.producerModel),
              Texts([i.caseId, i.analysisKind, i.profile, i.recipeDigest, i.basisRef, i.basisDigest, i.workRef])))
  }

  lemma AskedInjective(a: Intent, b: Intent)
    requires Asked(a) == Asked(b)
    ensures a == b
  {
    var x := [a.caseId, a.analysisKind, a.profile, a.recipeDigest, a.basisRef, a.basisDigest, a.workRef];
    var y := [b.caseId, b.analysisKind, b.profile, b.recipeDigest, b.basisRef, b.basisDigest, b.workRef];
    IntInjective(a.generation, b.generation);
    IntInjective(a.workRevision, b.workRevision);
    MaybeInjective(a.producerModel, b.producerModel);
    TextsInjective(x, y);
    assert x[0] == y[0] && x[1] == y[1] && x[2] == y[2] && x[3] == y[3];
    assert x[4] == y[4] && x[5] == y[5] && x[6] == y[6];
  }

  function Finding(r: SemanticResult): Tree {
    Pair(Pair(Asked(r.intent), Asked(r.key.preimage)),
         Pair(Pair(Time(r.extractedAt), Maybe(r.supersedes)), Pair(Text(r.statement), Text(r.usage))))
  }

  lemma FindingInjective(a: SemanticResult, b: SemanticResult)
    requires Finding(a) == Finding(b)
    ensures a == b
  {
    AskedInjective(a.intent, b.intent);
    AskedInjective(a.key.preimage, b.key.preimage);
    TimeInjective(a.extractedAt, b.extractedAt);
    MaybeInjective(a.supersedes, b.supersedes);
    TextInjective(a.statement, b.statement);
    TextInjective(a.usage, b.usage);
  }

  function MaybeFinding(r: Option<SemanticResult>): Tree {
    if r.None? then Leaf else Pair(Leaf, Finding(r.value))
  }

  function MaybeDigest(d: Option<Sha256<SemanticResult>>): Tree {
    if d.None? then Leaf else Pair(Leaf, Finding(d.value.preimage))
  }

  function About(m: Metadata): Tree {
    Pair(Pair(Pair(Maybe(m.runtimeSession), Maybe(m.basisRevision)), Pair(Maybe(m.correlation), Maybe(m.causation))),
         Pair(Pair(MaybeFinding(m.semantic), MaybeDigest(m.resultDigest)), Text(m.other)))
  }

  lemma FindingsInjective(a: Metadata, b: Metadata)
    requires MaybeFinding(a.semantic) == MaybeFinding(b.semantic)
    requires MaybeDigest(a.resultDigest) == MaybeDigest(b.resultDigest)
    ensures a.semantic == b.semantic && a.resultDigest == b.resultDigest
  {
    if a.semantic.Some? { FindingInjective(a.semantic.value, b.semantic.value); }
    if a.resultDigest.Some? { FindingInjective(a.resultDigest.value.preimage, b.resultDigest.value.preimage); }
  }

  lemma AboutInjective(a: Metadata, b: Metadata)
    requires About(a) == About(b)
    ensures a == b
  {
    MaybeInjective(a.runtimeSession, b.runtimeSession);
    MaybeInjective(a.basisRevision, b.basisRevision);
    MaybeInjective(a.correlation, b.correlation);
    MaybeInjective(a.causation, b.causation);
    FindingsInjective(a, b);
    TextInjective(a.other, b.other);
  }

  function Content(p: Payload): Tree {
    Pair(Pair(Text(p.summary), Maybe(p.detail)), Pair(Pair(Texts(p.refs), Text(p.source)), About(p.metadata)))
  }

  lemma ContentInjective(a: Payload, b: Payload)
    requires Content(a) == Content(b)
    ensures a == b
  {
    TextInjective(a.summary, b.summary);
    MaybeInjective(a.detail, b.detail);
    TextsInjective(a.refs, b.refs);
    TextInjective(a.source, b.source);
    AboutInjective(a.metadata, b.metadata);
  }

  function Wrapping(v: Envelope): Tree {
    Pair(Pair(Texts([v.eventId, v.stream, v.mappedType]), Pair(Class(v.recordClass), Time(v.occurredAt))),
         Pair(Pair(Pair(Int(v.schemaVersion), Int(v.seqNo)),
                   Pair(Content(v.payload), Content(v.payloadDigest.preimage))),
              Pair(Pair(Maybe(v.runtimeSession), Maybe(v.basisRevision)),
                   Pair(Maybe(v.correlation), Maybe(v.causation)))))
  }

  lemma WrappingNames(a: Envelope, b: Envelope)
    requires Texts([a.eventId, a.stream, a.mappedType]) == Texts([b.eventId, b.stream, b.mappedType])
    ensures a.eventId == b.eventId && a.stream == b.stream && a.mappedType == b.mappedType
  {
    var x, y := [a.eventId, a.stream, a.mappedType], [b.eventId, b.stream, b.mappedType];
    TextsInjective(x, y);
    assert x[0] == y[0] && x[1] == y[1] && x[2] == y[2];
  }

  lemma WrappingInjective(a: Envelope, b: Envelope)
    requires Wrapping(a) == Wrapping(b)
    ensures a == b
  {
    WrappingNames(a, b);
    TimeInjective(a.occurredAt, b.occurredAt);
    IntInjective(a.schemaVersion, b.schemaVersion);
    IntInjective(a.seqNo, b.seqNo);
    ContentInjective(a.payload, b.payload);
    ContentInjective(a.payloadDigest.preimage, b.payloadDigest.preimage);
    MaybeInjective(a.runtimeSession, b.runtimeSession);
    MaybeInjective(a.basisRevision, b.basisRevision);
    MaybeInjective(a.correlation, b.correlation);
    MaybeInjective(a.causation, b.causation);
  }

  function Central(r: CentralRecord): Tree {
    Pair(Pair(Texts([r.stream, r.eventId, r.eventType, r.actor, r.producerCreatedAt]),
              Pair(Class(r.recordClass), Time(r.occurredAt))),
         Pair(Pair(Pair(Int(r.schemaVersion), Int(r.seqNo)),
                   Pair(Content(r.payload), Content(r.payloadDigest.preimage))),
              Pair(Pair(Maybe(r.runtimeSession), Maybe(r.basisRevision)),
                   Pair(Maybe(r.correlation), Maybe(r.causation)))))
  }

  lemma CentralNames(a: CentralRecord, b: CentralRecord)
    requires Texts([a.stream, a.eventId, a.eventType, a.actor, a.producerCreatedAt])
          == Texts([b.stream, b.eventId, b.eventType, b.actor, b.producerCreatedAt])
    ensures a.stream == b.stream && a.eventId == b.eventId && a.eventType == b.eventType
    ensures a.actor == b.actor && a.producerCreatedAt == b.producerCreatedAt
  {
    var x := [a.stream, a.eventId, a.eventType, a.actor, a.producerCreatedAt];
    var y := [b.stream, b.eventId, b.eventType, b.actor, b.producerCreatedAt];
    TextsInjective(x, y);
    assert x[0] == y[0] && x[1] == y[1] && x[2] == y[2] && x[3] == y[3] && x[4] == y[4];
  }

  lemma CentralInjective(a: CentralRecord, b: CentralRecord)
    requires Central(a) == Central(b)
    ensures a == b
  {
    CentralNames(a, b);
    TimeInjective(a.occurredAt, b.occurredAt);
    IntInjective(a.schemaVersion, b.schemaVersion);
    IntInjective(a.seqNo, b.seqNo);
    ContentInjective(a.payload, b.payload);
    ContentInjective(a.payloadDigest.preimage, b.payloadDigest.preimage);
    MaybeInjective(a.runtimeSession, b.runtimeSession);
    MaybeInjective(a.basisRevision, b.basisRevision);
    MaybeInjective(a.correlation, b.correlation);
    MaybeInjective(a.causation, b.causation);
  }

  /** The members of a record that are optional as a whole. */
  function Optionals(e: Event): Tree {
    Pair(Pair(if e.context.None? then Leaf else Pair(Leaf, Place(e.context.value)),
              if e.envelope.None? then Leaf else Pair(Leaf, Wrapping(e.envelope.value))),
         Pair(if e.recordDigest.None? then Leaf else Pair(Leaf, Central(e.recordDigest.value.preimage)),
              Maybe(e.idempotencyKey)))
  }

  lemma OptionalsInjective(a: Event, b: Event)
    requires Optionals(a) == Optionals(b)
    ensures a.context == b.context && a.envelope == b.envelope
    ensures a.recordDigest == b.recordDigest && a.idempotencyKey == b.idempotencyKey
  {
    if a.context.Some? { PlaceInjective(a.context.value, b.context.value); }
    if a.envelope.Some? { WrappingInjective(a.envelope.value, b.envelope.value); }
    if a.recordDigest.Some? { CentralInjective(a.recordDigest.value.preimage, b.recordDigest.value.preimage); }
    MaybeInjective(a.idempotencyKey, b.idempotencyKey);
  }

  function Record(e: Event): Tree {
    Pair(Pair(Texts([e.id, e.eventType, e.actor, e.createdAt]), Time(e.ts)),
         Pair(Content(ObservationPayload(e)), Optionals(e)))
  }

  lemma RecordNames(a: Event, b: Event)
    requires Texts([a.id, a.eventType, a.actor, a.createdAt]) == Texts([b.id, b.eventType, b.actor, b.createdAt])
    ensures a.id == b.id && a.eventType == b.eventType && a.actor == b.actor && a.createdAt == b.createdAt
  {
    var x, y := [a.id, a.eventType, a.actor, a.createdAt], [b.id, b.eventType, b.actor, b.createdAt];
    TextsInjective(x, y);
    assert x[0] == y[0] && x[1] == y[1] && x[2] == y[2] && x[3] == y[3];
  }

  lemma RecordInjective(a: Event, b: Event)
    requires Record(a) == Record(b)
    ensures a == b
  {
    RecordNames(a, b);
    TimeInjective(a.ts, b.ts);
    ContentInjective(ObservationPayload(a), ObservationPayload(b));
    OptionalsInjective(a, b);
  }

  // ----- trees as texts -----

  const LEAF: Byte := 108
  const PAIR: Byte := 112

  function Spell(t: Tree): (s: Bytes)
    ensures s != []
  {
    match t
    case Leaf => [LEAF]
    case Pair(left, right) => [PAIR] + Spell(left) + Spell(right)
  }

  lemma PairSpelling(t: Tree, x: Bytes)
    requires t.Pair?
    ensures Spell(t) + x == [PAIR] + (Spell(t.left) + (Spell(t.right) + x))
  {
    var a, b := Spell(t.left), Spell(t.right);
    JsonText.Associate([PAIR] + a, b, x);
    JsonText.Associate([PAIR], a, b + x);
  }

  lemma DropFirst(b: Byte, x: Bytes, y: Bytes)
    requires [b] + x == [b] + y
    ensures x == y
  {
    assert ([b] + x)[1..] == x && ([b] + y)[1..] == y;
  }

  lemma FirstLetter(t: Tree, x: Bytes)
    ensures (Spell(t) + x)[0] == if t.Leaf? then LEAF else PAIR
  {
  }

  /** No spelling begins another. */
  lemma {:induction false} SpellSplits(t: Tree, x: Bytes, u: Tree, y: Bytes)
    requires Spell(t) + x == Spell(u) + y
    ensures t == u && x == y
    decreases t
  {
    FirstLetter(t, x);
    FirstLetter(u, y);
    match t
    case Leaf => DropFirst(LEAF, x, y);
    case Pair(a, b) =>
      PairSpelling(t, x);
      PairSpelling(u, y);
      DropFirst(PAIR, Spell(a) + (Spell(b) + x), Spell(u.left) + (Spell(u.right) + y));
      SpellSplits(a, Spell(b) + x, u.left, Spell(u.right) + y);
      SpellSplits(b, x, u.right, y);
  }

  predicate Letters(s: Bytes) {
    forall i :: 0 <= i < |s| ==> s[i] == LEAF || s[i] == PAIR
  }

  lemma {:induction false} SpellsLetters(t: Tree)
    ensures Letters(Spell(t))
    decreases t
  {
    match t
    case Leaf =>
    case Pair(left, right) =>
      SpellsLetters(left);
      SpellsLetters(right);
  }

  lemma {:induction false} LettersAreBody(s: Bytes)
    requires Letters(s)
    ensures JsonText.IsBody(s)
  {
    if s != [] {
      LettersAreBody(s[1..]);
    }
  }

  // ----- the codec -----

  const ZERO: Byte := 48

  /** An object whose one member is named by the letters and has the value 0. */
  function ObjectOf(letters: Bytes): Bytes {
    [JsonText.OPEN_BRACE] + JsonText.Quoted(letters) + [JsonText.COLON, ZERO, JsonText.CLOSE_BRACE]
  }

  lemma ObjectIsCanonical(letters: Bytes)
    requires Letters(letters)
    ensures Ndjson.CanonicalText(ObjectOf(letters))
  {
    LettersAreBody(letters);
    var rest := JsonText.NoMembers;
    var member := JsonText.Member([], letters, [], [], JsonText.Scalar([ZERO]), [], rest);
    var j := JsonText.Object([], member);
    assert JsonText.RenderMembers(rest) == [];
    assert JsonText.RenderMembers(member) == JsonText.Quoted(letters) + [JsonText.COLON] + [ZERO];
    assert JsonText.Render(j) == ObjectOf(letters);
    assert JsonText.IsObjectAs(ObjectOf(letters), j);
  }

  function Encode(e: Event): Bytes { ObjectOf(Spell(Record(e))) }

  lemma EncodeInjective(a: Event, b: Event)
    requires Encode(a) == Encode(b)
    ensures a == b
  {
    var s, t := Spell(Record(a)), Spell(Record(b));
    assert |Encode(a)| == |s| + 6 && |Encode(b)| == |t| + 6;
    assert Encode(a)[2..|s| + 2] == s && Encode(b)[2..|s| + 2] == t;
    assert s + [] == s && t + [] == t;
    SpellSplits(Record(a), [], Record(b), []);
    RecordInjective(a, b);
  }

  ghost predicate Spells(text: Bytes, e: Event) { ValidEvent(e) && Encode(e) == text }

  /** Accepts exactly the canonical texts of valid records, and skips empty lines. */
  ghost function Decode(text: Bytes): Ndjson.Loaded {
    if text == [] then Ndjson.Blank
    else if exists e :: Spells(text, e) then
      var e :| Spells(text, e);
      Ndjson.Loaded(e)
    else Ndjson.NotJson
  }

  lemma EncodedIsCanonical(e: Event)
    ensures Ndjson.CanonicalText(Encode(e))
  {
    SpellsLetters(Record(e));
    ObjectIsCanonical(Spell(Record(e)));
  }

  lemma DecodedSpells(text: Bytes, e: Event) returns (f: Event)
    requires text != [] && Spells(text, e)
    ensures Decode(text) == Ndjson.Loaded(f) && Spells(text, f)
  {
    f := Decode(text).event;
  }

  lemma DecodeInverts(e: Event)
    requires ValidEvent(e)
    ensures Decode(Encode(e)) == Ndjson.Loaded(e)
  {
    var f := DecodedSpells(Encode(e), e);
    EncodeInjective(f, e);
  }

  lemma ObjectIsJson(text: Bytes)
    requires JsonText.IsObjectText(text)
    ensures JsonText.IsJson(text)
  {
    var j :| JsonText.IsObjectAs(text, j);
    assert [] + JsonText.Render(j) + [] == text;
    assert JsonText.IsJsonAs(text, [], j, []);
  }

  lemma DecodedIsJson(text: Bytes)
    requires text != [] && Decode(text) != Ndjson.NotJson
    ensures JsonText.IsJson(text)
  {
    var e :| Spells(text, e);
    EncodedIsCanonical(e);
    ObjectIsJson(text);
  }

  lemma JsonIsStrict(load: Ndjson.Loader, text: Bytes)
    requires text != [] && JsonText.IsJson(text)
    ensures Ndjson.Strict(load, text)
  {
    assert text[..|text|] == text;
  }

  lemma DecodeIsStrict(text: Bytes)
    ensures Ndjson.Strict(Decode, text)
  {
    if text != [] && Decode(text) != Ndjson.NotJson {
      DecodedIsJson(text);
      JsonIsStrict(Decode, text);
    }
  }

  /** The codec that the shard theorems assume exists. */
  lemma CodecExists()
    ensures Ndjson.Codec(Encode, Decode)
  {
    forall e ensures Ndjson.CanonicalText(Encode(e)) && (ValidEvent(e) ==> Decode(Encode(e)) == Ndjson.Loaded(e)) {
      EncodedIsCanonical(e);
      if ValidEvent(e) { DecodeInverts(e); }
    }
    forall text ensures Ndjson.Strict(Decode, text) {
      DecodeIsStrict(text);
    }
  }
}
