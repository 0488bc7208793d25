/** Offline qualification of a frozen source set: identity, origin tuple, digest, idempotency and
    gap checks over every line of every source. */
module SourcePreflight {
  import opened Wrappers
  import opened Events
  import opened SequenceGaps
  import SourceLines

  type Bytes = SourceLines.Bytes

  /** JSON parsing and event validation, as one partial function of the bytes of a line. */
  type Parser = Bytes -> Option<Event>

  type Identity = (EventId, Sha256<Bytes>)

  /** One parsed line: where it was found, what its source says about it, and its event. */
  datatype Item = Item(
    source: nat, number: nat, offset: nat, repoId: string, centralDomain: bool, line: Bytes, event: Event)

  datatype PreflightError =
    | Frame(error: SourceLines.FrameError)
    | InvalidEvent
    | EmptyEventId
    | ConflictingIdentity
    | TupleCollision
    | DigestDiffers
    | EmptyKey
    | KeyCollision
    | SequenceGap

  // ----- what is accepted -----

  function IdOf(it: Item): Option<EventId> { Some(it.event.id) }

  function OriginOf(it: Item): Option<(StreamId, int)> {
    if it.event.Enveloped() then Some((it.event.Stream(), it.event.SeqNo())) else None
  }

  function KeyOf(it: Item): Option<string> { it.event.idempotencyKey }

  /** An event id is bound to its exact line and repository. */
  function Binding(it: Item): (Sha256<Bytes>, string) { (Sha256(it.line), it.repoId) }

  /** Tuples and keys are bound to an event id and its exact line. */
  function IdentityOf(it: Item): Identity { (it.event.id, Sha256(it.line)) }

  /** Two lines that share a key share what the key is bound to. */
  predicate Coherent<K(==), V(==)>(a: Item, b: Item, key: Item -> Option<K>, value: Item -> V) {
    key(a).Some? && key(a) == key(b) ==> value(a) == value(b)
  }

  /** What any two lines must satisfy together. */
  predicate Agree(a: Item, b: Item) {
    && Coherent(a, b, IdOf, Binding)
    && Coherent(a, b, OriginOf, IdentityOf)
    && Coherent(a, b, KeyOf, IdentityOf)
  }

  /** A digest in the central domain is the one the central ledger would compute. */
  predicate DigestOk(it: Item) {
    it.event.recordDigest.Some? && it.centralDomain && Prepare(it.event).Some? ==>
      it.event.recordDigest.value == RecordDigest(Prepare(it.event).value)
  }

  /** What one line must satisfy by itself. */
  predicate ItemOk(it: Item) {
    && ValidEvent(it.event)
    && (it.event.Enveloped() ==> Prepare(it.event).Some?)
    && it.event.id != ""
    && DigestOk(it)
    && it.event.idempotencyKey != Some("")
  }

  ghost predicate AllOk(items: seq<Item>) {
    forall i :: 0 <= i < |items| ==> ItemOk(items[i])
  }

  ghost predicate AgreesWithAll(items: seq<Item>, it: Item) {
    forall i :: 0 <= i < |items| ==> Agree(items[i], it)
  }

  ghost predicate AllAgree(items: seq<Item>) {
    forall i, j :: 0 <= i < j < |items| ==> Agree(items[i], items[j])
  }

  ghost predicate HasOrigin(items: seq<Item>, stream: StreamId, q: int) {
    exists i :: 0 <= i < |items| && OriginOf(items[i]) == Some((stream, q))
  }

  /** The numbers of a stream are exactly 1 to n. */
  ghost predicate NumberedTo(items: seq<Item>, stream: StreamId, n: nat) {
    forall q :: HasOrigin(items, stream, q) <==> 1 <= q <= n
  }

  ghost predicate Gapless(items: seq<Item>, stream: StreamId) {
    exists n :: NumberedTo(items, stream, n)
  }

  ghost predicate NoGaps(items: seq<Item>) {
    forall stream :: Gapless(items, stream)
  }

  // ----- tables -----

  /** A table holds exactly the keys of the lines, each bound as its lines say. */
  ghost predicate Describes<K, V>(table: map<K, V>, items: seq<Item>, key: Item -> Option<K>, value: Item -> V) {
    && (forall i :: 0 <= i < |items| && key(items[i]).Some? ==>
          key(items[i]).value in table && table[key(items[i]).value] == value(items[i]))
    && forall k :: k in table ==> exists i :: 0 <= i < |items| && key(items[i]) == Some(k)
  }

  predicate Clash<K, V(==)>(table: map<K, V>, it: Item, key: Item -> Option<K>, value: Item -> V) {
    key(it).Some? && key(it).value in table && table[key(it).value] != value(it)
  }

  function Bound<K, V>(table: map<K, V>, it: Item, key: Item -> Option<K>, value: Item -> V): map<K, V> {
    if key(it).Some? then table[key(it).value := value(it)] else table
  }

  /** One lookup in a table answers for all the lines before. */
  lemma ClashMeansIncoherent<K, V>(table: map<K, V>, items: seq<Item>, it: Item,
                                   key: Item -> Option<K>, value: Item -> V)
    requires Describes(table, items, key, value)
    ensures Clash(table, it, key, value) <==>
              exists i :: 0 <= i < |items| && !Coherent(items[i], it, key, value)
  {
    if Clash(table, it, key, value) {
      var i :| 0 <= i < |items| && key(items[i]) == Some(key(it).value);
      assert !Coherent(items[i], it, key, value);
    }
  }

  lemma BoundDescribes<K, V>(table: map<K, V>, items: seq<Item>, it: Item, key: Item -> Option<K>, value: Item -> V)
    requires Describes(table, items, key, value) && !Clash(table, it, key, value)
    ensures Describes(Bound(table, it, key, value), items + [it], key, value)
  {
    var after, longer := Bound(table, it, key, value), items + [it];
    forall k | k in after
      ensures exists i :: 0 <= i < |longer| && key(longer[i]) == Some(k)
    {
      if k in table {
        var i :| 0 <= i < |items| && key(items[i]) == Some(k);
        assert key(longer[i]) == Some(k);
      } else {
        assert key(longer[|items|]) == Some(k);
      }
    }
  }

  lemma AgreeMeansNoClash(items: seq<Item>, it: Item,
                          ids: map<EventId, (Sha256<Bytes>, string)>, tuples: map<(StreamId, int), Identity>,
                          keys: map<string, Identity>)
    requires Describes(ids, items, IdOf, Binding)
    requires Describes(tuples, items, OriginOf, IdentityOf)
    requires Describes(keys, items, KeyOf, IdentityOf)
    ensures AgreesWithAll(items, it) <==>
              !Clash(ids, it, IdOf, Binding) && !Clash(tuples, it, OriginOf, IdentityOf) &&
              !Clash(keys, it, KeyOf, IdentityOf)
  {
    ClashMeansIncoherent(ids, items, it, IdOf, Binding);
    ClashMeansIncoherent(tuples, items, it, OriginOf, IdentityOf);
    ClashMeansIncoherent(keys, items, it, KeyOf, IdentityOf);
    if !Clash(ids, it, IdOf, Binding) && !Clash(tuples, it, OriginOf, IdentityOf) &&
       !Clash(keys, it, KeyOf, IdentityOf) {
      forall i | 0 <= i < |items|
        ensures Agree(items[i], it)
      {
      }
    }
  }

  datatype DigestStatus = Verified | UnknownDomain | UnverifiableDomain | Absent

  function StatusOf(it: Item): DigestStatus {
    if it.event.recordDigest.None? then Absent
    else if !it.centralDomain then UnknownDomain
    else if it.event.Enveloped() then Verified
    else UnverifiableDomain
  }

  ghost predicate AllVerified(items: seq<Item>) {
    forall i :: 0 <= i < |items| ==> StatusOf(items[i]) == Verified
  }

  ghost predicate Accepted(items: seq<Item>) {
    AllOk(items) && AllAgree(items)
  }

  lemma AcceptedExtends(items: seq<Item>, it: Item)
    requires Accepted(items)
    ensures Accepted(items + [it]) <==> ItemOk(it) && AgreesWithAll(items, it)
  {
    var longer := items + [it];
    assert longer[|items|] == it;
    if Accepted(longer) {
      forall i | 0 <= i < |items|
        ensures Agree(items[i], it)
      {
        assert Agree(longer[i], longer[|items|]);
      }
    }
  }

  lemma AllVerifiedExtends(items: seq<Item>, it: Item)
    ensures AllVerified(items + [it]) <==> AllVerified(items) && StatusOf(it) == Verified
  {
    assert (items + [it])[|items|] == it;
    assert forall i :: 0 <= i < |items| ==> (items + [it])[i] == items[i];
  }

  lemma KeyCount<V>(before: map<EventId, V>, after: map<EventId, V>, id: EventId)
    requires after.Keys == before.Keys + {id}
    ensures |after| == |before| + if id in before then 0 else 1
  {
    assert |after| == |after.Keys| && |before| == |before.Keys|;
    assert id in before ==> after.Keys == before.Keys;
  }

  // ----- the lines of a source set -----

  function Append(a: Option<seq<Item>>, b: Option<seq<Item>>): Option<seq<Item>> {
    if a.None? || b.None? then None else Some(a.value + b.value)
  }

  /** The item of one line, if it parses. */
  function LineItem(s: SourceLines.Source, k: nat, parse: Parser, lines: seq<Bytes>, n: nat): Option<seq<Item>>
    requires n < |lines|
  {
    var event := parse(SourceLines.Body(lines[n]));
    if event.None? then None
    else Some([Item(k, n + 1, SourceLines.Offset(lines, n), s.repoId, s.centralDomain, lines[n], event.value)])
  }

  /** All the parts, one after the other, if they are all there. */
  function Concat(parts: seq<Option<seq<Item>>>): Option<seq<Item>> {
    if parts == [] then Some([])
    else Append(Concat(parts[..|parts| - 1]), parts[|parts| - 1])
  }

  function LineParts(s: SourceLines.Source, k: nat, parse: Parser, lines: seq<Bytes>): seq<Option<seq<Item>>> {
    seq(|lines|, n requires 0 <= n < |lines| => LineItem(s, k, parse, lines, n))
  }

  function SourceItems(s: SourceLines.Source, k: nat, parse: Parser): Option<seq<Item>> {
    if s.file.None? then None else Concat(LineParts(s, k, parse, SourceLines.KeepEnds(s.file.value)))
  }

  function SourceParts(sources: seq<SourceLines.Source>, parse: Parser): seq<Option<seq<Item>>> {
    seq(|sources|, k requires 0 <= k < |sources| => SourceItems(sources[k], k, parse))
  }

  /** Every line of every source, in order. */
  function AllItems(sources: seq<SourceLines.Source>, parse: Parser): Option<seq<Item>> {
    Concat(SourceParts(sources, parse))
  }

  lemma AppendAssociates(a: Option<seq<Item>>, b: Option<seq<Item>>, c: Option<seq<Item>>)
    ensures Append(Append(a, b), c) == Append(a, Append(b, c))
  {
    if a.Some? && b.Some? && c.Some? {
      assert (a.value + b.value) + c.value == a.value + (b.value + c.value);
    }
  }

  lemma {:induction false} ConcatSplits(parts: seq<Option<seq<Item>>>, n: nat)
    requires n <= |parts|
    ensures Concat(parts) == Append(Concat(parts[..n]), Concat(parts[n..]))
    decreases |parts|
  {
    if n == |parts| {
      assert parts[..n] == parts;
      if Concat(parts).Some? {
        assert Concat(parts).value + [] == Concat(parts).value;
      }
    } else {
      var front, last := parts[..|parts| - 1], parts[|parts| - 1];
      ConcatSplits(front, n);
      assert front[..n] == parts[..n] && parts[n..] == front[n..] + [last];
      AppendAssociates(Concat(parts[..n]), Concat(front[n..]), last);
    }
  }

  /** Some lines are all there and can stand beside the lines before them. */
  ghost predicate Fits(before: seq<Item>, items: Option<seq<Item>>) {
    match items
    case None => false
    case Some(more) => Accepted(before + more)
  }

  /** Some lines have been taken in after the lines before them. */
  ghost predicate Reached(before: seq<Item>, sofar: seq<Item>, items: Option<seq<Item>>) {
    match items
    case None => false
    case Some(more) => sofar == before + more
  }

  lemma AcceptedPrefix(front: seq<Item>, items: seq<Item>)
    requires front <= items && Accepted(items)
    ensures Accepted(front)
  {
  }

  lemma ReachedThen(before: seq<Item>, sofar: seq<Item>, first: Option<seq<Item>>, second: Option<seq<Item>>)
    requires Reached(before, sofar, first)
    ensures Fits(before, Append(first, second)) <==> Fits(sofar, second)
    ensures second.Some? ==> Reached(before, sofar + second.value, Append(first, second))
  {
    if second.Some? {
      assert (before + first.value) + second.value == before + (first.value + second.value);
    }
  }

  /** Lines that do not fit are not made to fit by later ones. */
  lemma FirstFits(before: seq<Item>, first: Option<seq<Item>>, second: Option<seq<Item>>)
    ensures Fits(before, Append(first, second)) ==> Fits(before, first)
  {
    if Fits(before, Append(first, second)) {
      AcceptedPrefix(before + first.value, before + (first.value + second.value));
    }
  }

  lemma RejectsMiddle(before: seq<Item>, sofar: seq<Item>, first: Option<seq<Item>>, part: Option<seq<Item>>,
                      rest: Option<seq<Item>>)
    requires Reached(before, sofar, first) && !Fits(sofar, part)
    ensures !Fits(before, Append(Append(first, part), rest))
  {
    ReachedThen(before, sofar, first, part);
    FirstFits(before, Append(first, part), rest);
  }

  lemma ConcatStep(parts: seq<Option<seq<Item>>>, n: nat)
    requires n < |parts|
    ensures Concat(parts[..n + 1]) == Append(Concat(parts[..n]), parts[n])
  {
    assert parts[..n + 1][..n] == parts[..n];
  }

  lemma ReachedPart(before: seq<Item>, sofar: seq<Item>, parts: seq<Option<seq<Item>>>, n: nat)
    requires n < |parts| && Reached(before, sofar, Concat(parts[..n])) && parts[n].Some?
    ensures Reached(before, sofar + parts[n].value, Concat(parts[..n + 1]))
  {
    ConcatStep(parts, n);
    ReachedThen(before, sofar, Concat(parts[..n]), parts[n]);
  }

  lemma ConcatAround(parts: seq<Option<seq<Item>>>, n: nat)
    requires n < |parts|
    ensures Concat(parts) == Append(Append(Concat(parts[..n]), parts[n]), Concat(parts[n + 1..]))
  {
    ConcatStep(parts, n);
    ConcatSplits(parts, n + 1);
  }

  /** A part that does not fit is a fault of the whole. */
  lemma RejectsPart(before: seq<Item>, sofar: seq<Item>, parts: seq<Option<seq<Item>>>, n: nat)
    requires n < |parts| && Reached(before, sofar, Concat(parts[..n])) && !Fits(sofar, parts[n])
    ensures !Fits(before, Concat(parts))
  {
    ConcatAround(parts, n);
    RejectsMiddle(before, sofar, Concat(parts[..n]), parts[n], Concat(parts[n + 1..]));
  }

  ghost predicate IsFramed(s: SourceLines.Source) {
    s.file.Some? && SourceLines.Framed(s, s.file.value)
  }

  ghost predicate FramedUpTo(sources: seq<SourceLines.Source>, n: nat)
    requires n <= |sources|
  {
    forall k :: 0 <= k < n ==> IsFramed(sources[k])
  }

  lemma FramedMore(sources: seq<SourceLines.Source>, n: nat)
    requires n < |sources| && FramedUpTo(sources, n) && IsFramed(sources[n])
    ensures FramedUpTo(sources, n + 1)
  {
  }

  // ----- what is wrong with a line -----

  /** The digest that a line of a central-domain source supplies is not that of its record. */
  predicate WrongDigest(it: Item) {
    && it.centralDomain && it.event.recordDigest.Some? && ValidEvent(it.event) && it.event.Enveloped()
    && it.event.recordDigest.value != RecordHash(CopyOf(it.event))
  }

  /** Two lines that may not stand together because they share an event id, a tuple or a key. */
  predicate SharesId(a: Item, b: Item) {
    a.event.id == b.event.id && (a.line != b.line || a.repoId != b.repoId)
  }

  predicate SharesTuple(a: Item, b: Item) {
    && a.event.Enveloped() && b.event.Enveloped()
    && a.event.Stream() == b.event.Stream() && a.event.SeqNo() == b.event.SeqNo()
    && (a.event.id != b.event.id || a.line != b.line)
  }

  predicate SharesKey(a: Item, b: Item) {
    && a.event.idempotencyKey.Some? && a.event.idempotencyKey == b.event.idempotencyKey
    && (a.event.id != b.event.id || a.line != b.line)
  }

  ghost predicate Faulty(before: seq<Item>, it: Item, error: PreflightError) {
    match error
    case InvalidEvent => !ValidEvent(it.event) || (it.event.Enveloped() && HasBlankMember(it.event))
    case EmptyEventId => it.event.id == ""
    case ConflictingIdentity => exists i :: 0 <= i < |before| && SharesId(before[i], it)
    case TupleCollision => exists i :: 0 <= i < |before| && SharesTuple(before[i], it)
    case DigestDiffers => WrongDigest(it)
    case EmptyKey => it.event.idempotencyKey == Some("")
    case KeyCollision => exists i :: 0 <= i < |before| && SharesKey(before[i], it)
    case _ => false
  }

  /** The order in which a line is checked. */
  function Rank(error: PreflightError): nat {
    match error
    case InvalidEvent => 0
    case EmptyEventId => 1
    case ConflictingIdentity => 2
    case TupleCollision => 3
    case DigestDiffers => 4
    case EmptyKey => 5
    case KeyCollision => 6
    case _ => 7
  }

  /** The first thing that is wrong with a line. */
  ghost predicate IsFault(before: seq<Item>, it: Item, error: PreflightError) {
    Faulty(before, it, error) && forall other :: Faulty(before, it, other) ==> Rank(error) <= Rank(other)
  }

  lemma DigestFault(it: Item)
    requires ValidEvent(it.event) && (it.event.Enveloped() ==> Prepare(it.event).Some?)
    ensures WrongDigest(it) <==> !DigestOk(it)
  {
    Preparation(it.event);
  }

  lemma IncoherentIds(a: Item, b: Item)
    ensures !Coherent(a, b, IdOf, Binding) <==> SharesId(a, b)
    ensures !Coherent(a, b, OriginOf, IdentityOf) <==> SharesTuple(a, b)
    ensures !Coherent(a, b, KeyOf, IdentityOf) <==> SharesKey(a, b)
  {
  }

  /** Nothing is wrong with a line exactly when it can stand after the lines before it. */
  lemma FaultlessFits(before: seq<Item>, it: Item)
    ensures ItemOk(it) && AgreesWithAll(before, it) <==> forall error :: !Faulty(before, it, error)
  {
    Preparation(it.event);
    forall i | 0 <= i < |before|
      ensures Agree(before[i], it) <==>
                !SharesId(before[i], it) && !SharesTuple(before[i], it) && !SharesKey(before[i], it)
    {
      IncoherentIds(before[i], it);
    }
    if ValidEvent(it.event) && (it.event.Enveloped() ==> Prepare(it.event).Some?) {
      DigestFault(it);
    }
    if ItemOk(it) && AgreesWithAll(before, it) {
      forall error ensures !Faulty(before, it, error) {
        NoFault(before, it, error);
      }
    }
    if forall error :: !Faulty(before, it, error) {
      assert !Faulty(before, it, InvalidEvent) && !Faulty(before, it, EmptyEventId);
      assert !Faulty(before, it, ConflictingIdentity) && !Faulty(before, it, TupleCollision);
      assert !Faulty(before, it, DigestDiffers) && !Faulty(before, it, EmptyKey);
      assert !Faulty(before, it, KeyCollision);
    }
  }

  lemma NoFault(before: seq<Item>, it: Item, error: PreflightError)
    requires ItemOk(it) && AgreesWithAll(before, it)
    ensures !Faulty(before, it, error)
  {
    Preparation(it.event);
    DigestFault(it);
    forall i | 0 <= i < |before|
      ensures !SharesId(before[i], it) && !SharesTuple(before[i], it) && !SharesKey(before[i], it)
    {
      assert Agree(before[i], it);
      IncoherentIds(before[i], it);
    }
  }

  // ----- what the loops fill -----

  /** Where a line was found, and its identities. */
  datatype Location = Location(
    source: nat, line: nat, offset: nat, rawDigest: Sha256<Bytes>, eventId: EventId,
    origin: Option<(StreamId, int)>, recordDigest: Option<RecordHash>)

  function LocationOf(it: Item): Location {
    Location(it.source, it.number, it.offset, Sha256(it.line), it.event.id, OriginOf(it),
             if Prepare(it.event).Some? then Some(RecordDigest(Prepare(it.event).value)) else None)
  }

  /** Dictionaries, counters and the list of locations. */
  datatype Tables = Tables(
    eventsById: map<EventId, (Sha256<Bytes>, string)>, producerTuples: map<(StreamId, int), Identity>,
    idempotencyKeys: map<string, Identity>, duplicateCopies: nat,
    verified: nat, unknown: nat, absent: nat, unverifiable: nat, locations: seq<Location>)

  const EMPTY_TABLES := Tables(map[], map[], map[], 0, 0, 0, 0, 0, [])

  /** The assignments that follow the checks of a line. */
  function Entered(t: Tables, it: Item): Tables {
    var status := StatusOf(it);
    Tables(
      Bound(t.eventsById, it, IdOf, Binding), Bound(t.producerTuples, it, OriginOf, IdentityOf),
      Bound(t.idempotencyKeys, it, KeyOf, IdentityOf),
      if it.event.id in t.eventsById then t.duplicateCopies + 1 else t.duplicateCopies,
      if status == Verified then t.verified + 1 else t.verified,
      if status == UnknownDomain then t.unknown + 1 else t.unknown,
      if status == Absent then t.absent + 1 else t.absent,
      if status == UnverifiableDomain then t.unverifiable + 1 else t.unverifiable,
      t.locations + [LocationOf(it)])
  }

  function Filled(items: seq<Item>): Tables {
    if items == [] then EMPTY_TABLES else Entered(Filled(items[..|items| - 1]), items[|items| - 1])
  }

  lemma FilledStep(items: seq<Item>, it: Item)
    ensures Filled(items + [it]) == Entered(Filled(items), it)
  {
    assert (items + [it])[..|items|] == items;
  }

  ghost predicate TablesOk(t: Tables, items: seq<Item>) {
    && Describes(t.eventsById, items, IdOf, Binding)
    && Describes(t.producerTuples, items, OriginOf, IdentityOf)
    && Describes(t.idempotencyKeys, items, KeyOf, IdentityOf)
  }

  lemma EnteredTables(t: Tables, items: seq<Item>, it: Item)
    requires TablesOk(t, items) && AgreesWithAll(items, it)
    ensures TablesOk(Entered(t, it), items + [it])
  {
    AgreeMeansNoClash(items, it, t.eventsById, t.producerTuples, t.idempotencyKeys);
    BoundDescribes(t.eventsById, items, it, IdOf, Binding);
    BoundDescribes(t.producerTuples, items, it, OriginOf, IdentityOf);
    BoundDescribes(t.idempotencyKeys, items, it, KeyOf, IdentityOf);
  }

  /** As long as the lines agree, each dictionary knows exactly their keys and bindings. */
  lemma {:induction false} FilledDescribes(items: seq<Item>)
    requires Accepted(items)
    ensures TablesOk(Filled(items), items)
  {
    if items != [] {
      var front, it := items[..|items| - 1], items[|items| - 1];
      assert items == front + [it];
      AcceptedPrefix(front, items);
      AcceptedExtends(front, it);
      FilledDescribes(front);
      EnteredTables(Filled(front), front, it);
    }
  }

  ghost predicate CountsOk(t: Tables, items: seq<Item>) {
    && |t.eventsById| + t.duplicateCopies == |items|
    && t.verified + t.unknown + t.absent + t.unverifiable == |items|
    && (t.verified == |items| <==> AllVerified(items))
  }

  /** Every line is either the first of its event or a counted duplicate, and is counted once by
      the standing of its digest. */
  lemma {:induction false} FilledCounts(items: seq<Item>)
    ensures CountsOk(Filled(items), items)
  {
    if items != [] {
      var front, it := items[..|items| - 1], items[|items| - 1];
      assert items == front + [it];
      FilledCounts(front);
      AllVerifiedExtends(front, it);
      var ids := Filled(front).eventsById;
      assert Bound(ids, it, IdOf, Binding).Keys == ids.Keys + {it.event.id};
      KeyCount(ids, Bound(ids, it, IdOf, Binding), it.event.id);
    }
  }

  lemma {:induction false} FilledLocations(items: seq<Item>)
    ensures |Filled(items).locations| == |items|
    ensures forall i :: 0 <= i < |items| ==> Filled(items).locations[i] == LocationOf(items[i])
  {
    if items != [] {
      FilledLocations(items[..|items| - 1]);
    }
  }

  // ----- the loops -----

  lemma IdClash(t: Tables, items: seq<Item>, it: Item)
    requires Describes(t.eventsById, items, IdOf, Binding)
    ensures Clash(t.eventsById, it, IdOf, Binding) <==> Faulty(items, it, ConflictingIdentity)
  {
    ClashMeansIncoherent(t.eventsById, items, it, IdOf, Binding);
    forall i | 0 <= i < |items| ensures !Coherent(items[i], it, IdOf, Binding) <==> SharesId(items[i], it) {
      IncoherentIds(items[i], it);
    }
  }

  lemma TupleClash(t: Tables, items: seq<Item>, it: Item)
    requires Describes(t.producerTuples, items, OriginOf, IdentityOf)
    ensures Clash(t.producerTuples, it, OriginOf, IdentityOf) <==> Faulty(items, it, TupleCollision)
  {
    ClashMeansIncoherent(t.producerTuples, items, it, OriginOf, IdentityOf);
    forall i | 0 <= i < |items| ensures !Coherent(items[i], it, OriginOf, IdentityOf) <==> SharesTuple(items[i], it) {
      IncoherentIds(items[i], it);
    }
  }

  lemma KeyClash(t: Tables, items: seq<Item>, it: Item)
    requires Describes(t.idempotencyKeys, items, KeyOf, IdentityOf)
    ensures Clash(t.idempotencyKeys, it, KeyOf, IdentityOf) <==> Faulty(items, it, KeyCollision)
  {
    ClashMeansIncoherent(t.idempotencyKeys, items, it, KeyOf, IdentityOf);
    forall i | 0 <= i < |items| ensures !Coherent(items[i], it, KeyOf, IdentityOf) <==> SharesKey(items[i], it) {
      IncoherentIds(items[i], it);
    }
  }

  /** What each check finds. */
  lemma CheckFaults(t: Tables, items: seq<Item>, it: Item)
    requires TablesOk(t, items)
    ensures Clash(t.eventsById, it, IdOf, Binding) <==> Faulty(items, it, ConflictingIdentity)
    ensures Clash(t.producerTuples, it, OriginOf, IdentityOf) <==> Faulty(items, it, TupleCollision)
    ensures Clash(t.idempotencyKeys, it, KeyOf, IdentityOf) <==> Faulty(items, it, KeyCollision)
    ensures !ValidEvent(it.event) || (it.event.Enveloped() && Prepare(it.event).None?)
       <==> Faulty(items, it, InvalidEvent)
    ensures !Faulty(items, it, InvalidEvent) ==> (DigestOk(it) <==> !Faulty(items, it, DigestDiffers))
  {
    IdClash(t, items, it);
    TupleClash(t, items, it);
    KeyClash(t, items, it);
    Preparation(it.event);
    if !Faulty(items, it, InvalidEvent) { DigestFault(it); }
  }

  /** The checks before this rank found nothing. */
  ghost predicate ClearBelow(items: seq<Item>, it: Item, rank: nat) {
    forall error :: Rank(error) < rank ==> !Faulty(items, it, error)
  }

  lemma ClearNext(items: seq<Item>, it: Item, error: PreflightError, next: nat)
    requires next <= 7 && Rank(error) + 1 == next && ClearBelow(items, it, next - 1) && !Faulty(items, it, error)
    ensures ClearBelow(items, it, next)
  {
    forall other | Rank(other) < next ensures !Faulty(items, it, other) {
      assert Rank(other) == Rank(error) ==> other == error;
    }
  }

  lemma FirstFound(items: seq<Item>, it: Item, error: PreflightError, rank: nat)
    requires rank == Rank(error) && ClearBelow(items, it, rank) && Faulty(items, it, error)
    ensures IsFault(items, it, error) && !(ItemOk(it) && AgreesWithAll(items, it))
  {
    FaultlessFits(items, it);
  }

  lemma NothingFound(items: seq<Item>, it: Item)
    requires ClearBelow(items, it, 7)
    ensures ItemOk(it) && AgreesWithAll(items, it)
  {
    forall error ensures !Faulty(items, it, error) {
      assert Rank(error) >= 7 ==> error.Frame? || error.SequenceGap?;
    }
    FaultlessFits(items, it);
  }

  /** The checks of one line, in their order: the error is the first thing that is wrong. */
  method Check(t: Tables, it: Item, ghost items: seq<Item>) returns (error: Option<PreflightError>)
    requires TablesOk(t, items)
    ensures error.None? <==> ItemOk(it) && AgreesWithAll(items, it)
    ensures error.Some? ==> IsFault(items, it, error.value)
  {
    CheckFaults(t, items, it);
    if !ValidEvent(it.event) || (it.event.Enveloped() && Prepare(it.event).None?) {
      FirstFound(items, it, InvalidEvent, 0);
      return Some(InvalidEvent);
    }
    ClearNext(items, it, InvalidEvent, 1);
    if it.event.id == "" {
      FirstFound(items, it, EmptyEventId, 1);
      return Some(EmptyEventId);
    }
    ClearNext(items, it, EmptyEventId, 2);
    if Clash(t.eventsById, it, IdOf, Binding) {
      FirstFound(items, it, ConflictingIdentity, 2);
      return Some(ConflictingIdentity);
    }
    ClearNext(items, it, ConflictingIdentity, 3);
    if Clash(t.producerTuples, it, OriginOf, IdentityOf) {
      FirstFound(items, it, TupleCollision, 3);
      return Some(TupleCollision);
    }
    ClearNext(items, it, TupleCollision, 4);
    if !DigestOk(it) {
      FirstFound(items, it, DigestDiffers, 4);
      return Some(DigestDiffers);
    }
    ClearNext(items, it, DigestDiffers, 5);
    if it.event.idempotencyKey == Some("") {
      FirstFound(items, it, EmptyKey, 5);
      return Some(EmptyKey);
    }
    ClearNext(items, it, EmptyKey, 6);
    if Clash(t.idempotencyKeys, it, KeyOf, IdentityOf) {
      FirstFound(items, it, KeyCollision, 6);
      return Some(KeyCollision);
    }
    ClearNext(items, it, KeyCollision, 7);
    NothingFound(items, it);
    return None;
  }

  /** What is wrong with one line of a source: it is no JSON record, or has a fault. */
  ghost predicate FaultAt(before: seq<Item>, s: SourceLines.Source, k: nat, parse: Parser, lines: seq<Bytes>, n: nat,
                          error: PreflightError)
    requires n < |lines|
  {
    match LineItem(s, k, parse, lines, n)
    case None => error == InvalidEvent
    case Some(one) => |one| == 1 && IsFault(before, one[0], error)
  }

  /** The lines of a source fit up to one that is at fault. */
  ghost predicate SourceFault(before: seq<Item>, s: SourceLines.Source, k: nat, parse: Parser, lines: seq<Bytes>,
                              error: PreflightError)
  {
    exists n: nat, more ::
      n < |lines| && Concat(LineParts(s, k, parse, lines)[..n]) == Some(more) && Accepted(before + more) &&
      FaultAt(before + more, s, k, parse, lines, n, error)
  }

  /** The sources are framed and fit up to one that is not framed or has a line at fault. */
  ghost predicate SetFault(sources: seq<SourceLines.Source>, parse: Parser, error: PreflightError) {
    exists k: nat, items ::
      k < |sources| && FramedUpTo(sources, k) && Concat(SourceParts(sources, parse)[..k]) == Some(items) &&
      Accepted(items) && FaultIn(items, sources[k], k, parse, error)
  }

  ghost predicate FaultIn(items: seq<Item>, s: SourceLines.Source, k: nat, parse: Parser, error: PreflightError) {
    if IsFramed(s) then SourceFault(items, s, k, parse, SourceLines.KeepEnds(s.file.value), error)
    else error.Frame? && SourceLines.IsFrameFault(s, error.error)
  }

  /** The body of the inner loop: parse a line, check it against the tables, enter it. */
  method ScanLine(t: Tables, s: SourceLines.Source, k: nat, parse: Parser, lines: seq<Bytes>, n: nat,
                  offset: nat, ghost items: seq<Item>)
    returns (error: Option<PreflightError>, after: Tables)
    requires Accepted(items) && t == Filled(items)
    requires n < |lines| && offset == SourceLines.Offset(lines, n)
    ensures error.None? <==> Fits(items, LineItem(s, k, parse, lines, n))
    ensures error.None? ==> after == Filled(items + LineItem(s, k, parse, lines, n).value)
    ensures error.Some? ==> FaultAt(items, s, k, parse, lines, n, error.value)
  {
    after := t;
    var event := parse(SourceLines.Body(lines[n]));
    if event.None? {
      return Some(InvalidEvent), t;
    }
    var it := Item(k, n + 1, offset, s.repoId, s.centralDomain, lines[n], event.value);
    FilledDescribes(items);
    FilledStep(items, it);
    AcceptedExtends(items, it);
    error := Check(t, it, items);
    if error.None? {
      after := Entered(t, it);
    }
  }

  lemma TakeAll<T>(parts: seq<T>, n: nat)
    requires n == |parts|
    ensures parts[..n] == parts
  {
  }

  lemma ReachedNothing(before: seq<Item>, parts: seq<Option<seq<Item>>>)
    ensures Reached(before, before, Concat(parts[..0]))
  {
    assert before + [] == before;
  }

  lemma ReachedAll(before: seq<Item>, sofar: seq<Item>, parts: seq<Option<seq<Item>>>)
    requires Reached(before, sofar, Concat(parts[..|parts|])) && Accepted(sofar)
    ensures Fits(before, Concat(parts)) && sofar == before + Concat(parts).value
    ensures before == [] ==> sofar == Concat(parts).value
  {
    TakeAll(parts, |parts|);
  }

  ghost predicate Arrived(before: seq<Item>, sofar: seq<Item>, items: Option<seq<Item>>, more: seq<Item>, t: Tables) {
    items == Some(more) && sofar == before + more && Accepted(sofar) && t == Filled(sofar)
  }

  /** The state of the inner loop after n lines. */
  ghost predicate AtLine(s: SourceLines.Source, k: nat, parse: Parser, lines: seq<Bytes>, n: nat,
                         before: seq<Item>, sofar: seq<Item>, t: Tables, offset: nat)
    requires n <= |lines|
  {
    exists more ::
      Arrived(before, sofar, Concat(LineParts(s, k, parse, lines)[..n]), more, t) &&
      offset == SourceLines.Offset(lines, n)
  }

  lemma AtFirstLine(s: SourceLines.Source, k: nat, parse: Parser, lines: seq<Bytes>, before: seq<Item>)
    requires Accepted(before)
    ensures AtLine(s, k, parse, lines, 0, before, before, Filled(before), 0)
  {
    ReachedNothing(before, LineParts(s, k, parse, lines));
    assert Arrived(before, before, Concat(LineParts(s, k, parse, lines)[..0]), [], Filled(before));
  }

  lemma AtNextLine(s: SourceLines.Source, k: nat, parse: Parser, lines: seq<Bytes>, n: nat,
                   before: seq<Item>, sofar: seq<Item>, t: Tables, offset: nat)
    requires n < |lines| && AtLine(s, k, parse, lines, n, before, sofar, t, offset)
    requires Fits(sofar, LineItem(s, k, parse, lines, n))
    ensures var longer := sofar + LineItem(s, k, parse, lines, n).value;
      AtLine(s, k, parse, lines, n + 1, before, longer, Filled(longer), offset + |lines[n]|)
  {
    var parts := LineParts(s, k, parse, lines);
    ReachedPart(before, sofar, parts, n);
    var longer := sofar + parts[n].value;
    assert Arrived(before, longer, Concat(parts[..n + 1]), Concat(parts[..n + 1]).value, Filled(longer));
  }

  lemma StuckAtLine(s: SourceLines.Source, k: nat, parse: Parser, lines: seq<Bytes>, n: nat,
                    before: seq<Item>, sofar: seq<Item>, t: Tables, offset: nat)
    requires n < |lines| && AtLine(s, k, parse, lines, n, before, sofar, t, offset)
    requires !Fits(sofar, LineItem(s, k, parse, lines, n))
    ensures !Fits(before, Concat(LineParts(s, k, parse, lines)))
  {
    RejectsPart(before, sofar, LineParts(s, k, parse, lines), n);
  }

  lemma FaultAfter(s: SourceLines.Source, k: nat, parse: Parser, lines: seq<Bytes>, n: nat,
                   before: seq<Item>, sofar: seq<Item>, t: Tables, offset: nat, error: PreflightError)
    requires n < |lines| && AtLine(s, k, parse, lines, n, before, sofar, t, offset)
    requires FaultAt(sofar, s, k, parse, lines, n, error)
    ensures SourceFault(before, s, k, parse, lines, error)
  {
    var more :| Arrived(before, sofar, Concat(LineParts(s, k, parse, lines)[..n]), more, t);
    assert FaultAt(before + more, s, k, parse, lines, n, error);
  }

  /** One more line: where the scan stands after it, or that no later line can help. */
  method ScanOne(t: Tables, s: SourceLines.Source, k: nat, parse: Parser, lines: seq<Bytes>, n: nat, offset: nat,
                 ghost before: seq<Item>, ghost items: seq<Item>)
    returns (error: Option<PreflightError>, after: Tables, next: nat, ghost longer: seq<Item>)
    requires n < |lines| && AtLine(s, k, parse, lines, n, before, items, t, offset)
    ensures error.None? ==> AtLine(s, k, parse, lines, n + 1, before, longer, after, next)
    ensures error.Some? ==> !Fits(before, Concat(LineParts(s, k, parse, lines)))
    ensures error.Some? ==> SourceFault(before, s, k, parse, lines, error.value)
  {
    error, after := ScanLine(t, s, k, parse, lines, n, offset, items);
    longer, next := items, offset + |lines[n]|;
    if error.Some? {
      StuckAtLine(s, k, parse, lines, n, before, items, t, offset);
      FaultAfter(s, k, parse, lines, n, before, items, t, offset, error.value);
    } else {
      AtNextLine(s, k, parse, lines, n, before, items, t, offset);
      longer := items + LineItem(s, k, parse, lines, n).value;
    }
  }

  lemma AtLastLine(s: SourceLines.Source, k: nat, parse: Parser, lines: seq<Bytes>,
                   before: seq<Item>, sofar: seq<Item>, t: Tables, offset: nat)
    requires AtLine(s, k, parse, lines, |lines|, before, sofar, t, offset)
    ensures Fits(before, Concat(LineParts(s, k, parse, lines)))
    ensures t == Filled(before + Concat(LineParts(s, k, parse, lines)).value)
  {
    ReachedAll(before, sofar, LineParts(s, k, parse, lines));
  }

  /** The inner loop over the lines of one source. */
  method ScanSource(t: Tables, s: SourceLines.Source, k: nat, parse: Parser, lines: seq<Bytes>,
                    ghost items: seq<Item>)
    returns (error: Option<PreflightError>, after: Tables)
    requires Accepted(items) && t == Filled(items)
    ensures error.None? <==> Fits(items, Concat(LineParts(s, k, parse, lines)))
    ensures error.None? ==> after == Filled(items + Concat(LineParts(s, k, parse, lines)).value)
    ensures error.Some? ==> SourceFault(items, s, k, parse, lines, error.value)
  {
    ghost var sofar := items;
    var n, offset := 0, 0;
    error, after := None, t;
    AtFirstLine(s, k, parse, lines, items);
    while n < |lines|
      invariant n <= |lines| && error.None?
      invariant AtLine(s, k, parse, lines, n, items, sofar, after, offset)
    {
      error, after, offset, sofar := ScanOne(after, s, k, parse, lines, n, offset, items, sofar);
      if error.Some? {
        return;
      }
      n := n + 1;
    }
    AtLastLine(s, k, parse, lines, items, sofar, after, offset);
  }

  /** One round of the outer loop: read the frozen bytes and scan them. */
  method ScanNext(t: Tables, s: SourceLines.Source, k: nat, parse: Parser, ghost items: seq<Item>)
    returns (error: Option<PreflightError>, after: Tables)
    requires Accepted(items) && t == Filled(items)
    ensures error.None? <==> IsFramed(s) && Fits(items, SourceItems(s, k, parse))
    ensures error.None? ==> after == Filled(items + SourceItems(s, k, parse).value)
    ensures error.Some? ==> FaultIn(items, s, k, parse, error.value)
  {
    var raw := SourceLines.ReadFrozen(s);
    if raw.Err? {
      return Some(Frame(raw.error)), t;
    }
    var lines := SourceLines.ScanLines(raw.value);
    error, after := ScanSource(t, s, k, parse, lines, items);
  }

  lemma FaultInSet(sources: seq<SourceLines.Source>, parse: Parser, k: nat, items: seq<Item>, error: PreflightError)
    requires k < |sources| && FramedUpTo(sources, k) && Accepted(items)
    requires Reached([], items, Concat(SourceParts(sources, parse)[..k]))
    requires FaultIn(items, sources[k], k, parse, error)
    ensures SetFault(sources, parse, error)
  {
    var more := Concat(SourceParts(sources, parse)[..k]).value;
    assert [] + more == more;
  }

  /** The state of the outer loop after k sources. */
  ghost predicate AtSource(sources: seq<SourceLines.Source>, parse: Parser, k: nat, items: seq<Item>, t: Tables)
    requires k <= |sources|
  {
    exists more ::
      Arrived([], items, Concat(SourceParts(sources, parse)[..k]), more, t) && FramedUpTo(sources, k)
  }

  lemma AtFirstSource(sources: seq<SourceLines.Source>, parse: Parser)
    ensures AtSource(sources, parse, 0, [], EMPTY_TABLES)
  {
    ReachedNothing([], SourceParts(sources, parse));
    assert Arrived([], [], Concat(SourceParts(sources, parse)[..0]), [], EMPTY_TABLES);
  }

  lemma AtNextSource(sources: seq<SourceLines.Source>, parse: Parser, k: nat, items: seq<Item>, t: Tables)
    requires k < |sources| && AtSource(sources, parse, k, items, t)
    requires IsFramed(sources[k]) && Fits(items, SourceItems(sources[k], k, parse))
    ensures var longer := items + SourceItems(sources[k], k, parse).value;
      AtSource(sources, parse, k + 1, longer, Filled(longer))
  {
    var parts := SourceParts(sources, parse);
    FramedMore(sources, k);
    ReachedPart([], items, parts, k);
    var longer := items + parts[k].value;
    assert Arrived([], longer, Concat(parts[..k + 1]), Concat(parts[..k + 1]).value, Filled(longer));
  }

  lemma StuckAtSource(sources: seq<SourceLines.Source>, parse: Parser, k: nat, items: seq<Item>, t: Tables,
                      error: PreflightError)
    requires k < |sources| && AtSource(sources, parse, k, items, t)
    requires !(IsFramed(sources[k]) && Fits(items, SourceItems(sources[k], k, parse)))
    requires FaultIn(items, sources[k], k, parse, error)
    ensures !(FramedUpTo(sources, |sources|) && Fits([], AllItems(sources, parse)))
    ensures SetFault(sources, parse, error)
  {
    FaultInSet(sources, parse, k, items, error);
    if IsFramed(sources[k]) {
      RejectsPart([], items, SourceParts(sources, parse), k);
    }
  }

  lemma AtLastSource(sources: seq<SourceLines.Source>, parse: Parser, items: seq<Item>, t: Tables)
    requires AtSource(sources, parse, |sources|, items, t)
    ensures FramedUpTo(sources, |sources|) && Fits([], AllItems(sources, parse))
    ensures t == Filled(AllItems(sources, parse).value)
  {
    ReachedAll([], items, SourceParts(sources, parse));
  }

  /** One more source: where the scan stands after it, or what is at fault. */
  method ScanRound(t: Tables, sources: seq<SourceLines.Source>, parse: Parser, k: nat, ghost items: seq<Item>)
    returns (error: Option<PreflightError>, after: Tables, ghost longer: seq<Item>)
    requires k < |sources| && AtSource(sources, parse, k, items, t)
    ensures error.None? ==> AtSource(sources, parse, k + 1, longer, after)
    ensures error.Some? ==>
      !(FramedUpTo(sources, |sources|) && Fits([], AllItems(sources, parse))) &&
      SetFault(sources, parse, error.value)
  {
    error, after := ScanNext(t, sources[k], k, parse, items);
    longer := items;
    if error.Some? {
      StuckAtSource(sources, parse, k, items, t, error.value);
    } else {
      AtNextSource(sources, parse, k, items, t);
      longer := items + SourceItems(sources[k], k, parse).value;
    }
  }

  /** The outer loop over the sources. */
  method ScanAll(sources: seq<SourceLines.Source>, parse: Parser)
    returns (error: Option<PreflightError>, after: Tables)
    ensures error.None? <==> FramedUpTo(sources, |sources|) && Fits([], AllItems(sources, parse))
    ensures error.None? ==> after == Filled(AllItems(sources, parse).value)
    ensures error.Some? ==> SetFault(sources, parse, error.value)
  {
    ghost var items: seq<Item> := [];
    var k := 0;
    error, after := None, EMPTY_TABLES;
    AtFirstSource(sources, parse);
    while k < |sources|
      invariant k <= |sources| && error.None? && AtSource(sources, parse, k, items, after)
    {
      error, after, items := ScanRound(after, sources, parse, k, items);
      if error.Some? {
        return;
      }
      k := k + 1;
    }
    AtLastSource(sources, parse, items, after);
  }

  // ----- gaps -----

  predicate Seen(sequences: map<StreamId, set<int>>, stream: StreamId, q: int) {
    stream in sequences && q in sequences[stream]
  }

  ghost predicate LocatedUpTo(locations: seq<Location>, n: nat, stream: StreamId, q: int)
    requires n <= |locations|
  {
    exists i :: 0 <= i < n && locations[i].origin == Some((stream, q))
  }

  /** `setdefault(stream, set()).add(q)` */
  function Added(sequences: map<StreamId, set<int>>, stream: StreamId, q: int): map<StreamId, set<int>> {
    sequences[stream := (if stream in sequences then sequences[stream] else {}) + {q}]
  }

  ghost predicate Grouped(sequences: map<StreamId, set<int>>, locations: seq<Location>, n: nat)
    requires n <= |locations|
  {
    && (forall stream, q :: Seen(sequences, stream, q) <==> LocatedUpTo(locations, n, stream, q))
    && forall stream :: stream in sequences ==> exists q :: Seen(sequences, stream, q)
  }

  lemma LocatedStep(locations: seq<Location>, n: nat, stream: StreamId, q: int)
    requires n < |locations|
    ensures LocatedUpTo(locations, n + 1, stream, q)
       <==> LocatedUpTo(locations, n, stream, q) || locations[n].origin == Some((stream, q))
  {
    if LocatedUpTo(locations, n, stream, q) {
      var i :| 0 <= i < n && locations[i].origin == Some((stream, q));
      assert 0 <= i < n + 1;
    }
  }

  lemma GroupedStep(sequences: map<StreamId, set<int>>, locations: seq<Location>, n: nat)
    requires n < |locations| && Grouped(sequences, locations, n)
    ensures match locations[n].origin
      case None => Grouped(sequences, locations, n + 1)
      case Some(o) => Grouped(Added(sequences, o.0, o.1), locations, n + 1)
  {
    var after := if locations[n].origin.None? then sequences
                 else Added(sequences, locations[n].origin.value.0, locations[n].origin.value.1);
    forall stream, q
      ensures Seen(after, stream, q) <==> LocatedUpTo(locations, n + 1, stream, q)
    {
      LocatedStep(locations, n, stream, q);
      assert Seen(sequences, stream, q) <==> LocatedUpTo(locations, n, stream, q);
    }
    forall stream | stream in after
      ensures exists q :: Seen(after, stream, q)
    {
      if stream in sequences {
        var q :| Seen(sequences, stream, q);
        assert Seen(after, stream, q);
      } else {
        assert Seen(after, stream, locations[n].origin.value.1);
      }
    }
  }

  /** Groups the origin tuples of the locations by stream. */
  method Group(locations: seq<Location>) returns (sequences: map<StreamId, set<int>>)
    ensures Grouped(sequences, locations, |locations|)
  {
    sequences := map[];
    var i := 0;
    while i < |locations|
      invariant i <= |locations| && Grouped(sequences, locations, i)
    {
      GroupedStep(sequences, locations, i);
      if locations[i].origin.Some? {
        sequences := Added(sequences, locations[i].origin.value.0, locations[i].origin.value.1);
      }
      i := i + 1;
    }
  }

  /** The gaps of all streams. */
  method FindGaps(sequences: map<StreamId, set<int>>) returns (gaps: seq<(int, int)>)
    ensures gaps == [] <==> forall stream :: stream in sequences ==> IsInitial(sequences[stream])
  {
    gaps := [];
    var pending := sequences.Keys;
    while pending != {}
      invariant pending <= sequences.Keys
      invariant gaps == [] <==>
        forall stream :: stream in sequences && stream !in pending ==> IsInitial(sequences[stream])
      decreases |pending|
    {
      var stream :| stream in pending;
      var more := FindSteps(sequences[stream]);
      gaps := gaps + more;
      pending := pending - {stream};
    }
  }

  lemma GaplessGroup(items: seq<Item>, sequences: map<StreamId, set<int>>, stream: StreamId)
    requires forall q :: Seen(sequences, stream, q) <==> HasOrigin(items, stream, q)
    ensures Gapless(items, stream) <==> stream !in sequences || IsInitial(sequences[stream])
  {
    if stream !in sequences {
      assert forall q :: !Seen(sequences, stream, q);
      assert NumberedTo(items, stream, 0);
    } else {
      assert forall q :: Seen(sequences, stream, q) <==> q in sequences[stream];
      if IsInitial(sequences[stream]) {
        var n: nat :| IsUpTo(sequences[stream], n);
        assert NumberedTo(items, stream, n);
      }
      if Gapless(items, stream) {
        var n :| NumberedTo(items, stream, n);
        assert IsUpTo(sequences[stream], n);
      }
    }
  }

  lemma LocatedOrigins(items: seq<Item>, stream: StreamId, q: int)
    ensures |Filled(items).locations| == |items|
    ensures LocatedUpTo(Filled(items).locations, |items|, stream, q) <==> HasOrigin(items, stream, q)
  {
    FilledLocations(items);
    var locations := Filled(items).locations;
    assert forall i :: 0 <= i < |items| ==> locations[i].origin == OriginOf(items[i]);
  }

  /** The report, reduced to what the checks establish. */
  datatype Report = Report(
    lineCount: nat, distinctEvents: nat, duplicateCopies: nat, digestsComplete: bool,
    verified: nat, unknown: nat, absent: nat, unverifiable: nat,
    records: seq<Location>, streamCount: nat, keyCount: nat)

  /** What a source set must satisfy to qualify. */
  ghost predicate Qualifies(sources: seq<SourceLines.Source>, parse: Parser) {
    && FramedUpTo(sources, |sources|)
    && Fits([], AllItems(sources, parse))
    && NoGaps(AllItems(sources, parse).value)
  }

  function StreamsOf(items: seq<Item>): set<StreamId> {
    set it | it in items && it.event.Enveloped() :: it.event.Stream()
  }

  ghost predicate Reports(r: Report, items: seq<Item>) {
    && r.lineCount == |items| && r.records == Filled(items).locations
    && r.distinctEvents == |set it | it in items :: it.event.id|
    && r.distinctEvents + r.duplicateCopies == r.lineCount
    && (r.digestsComplete <==> AllCarryDigest(items))
    && r.verified == CountOf(items, CarriesDigest) && r.absent == CountOf(items, LacksDigest)
    && r.unknown == CountOf(items, CarriesUnknown) && r.unverifiable == CountOf(items, CarriesUnverifiable)
    && r.streamCount == |StreamsOf(items)|
    && r.keyCount == |set it | it in items && it.event.idempotencyKey.Some? :: it.event.idempotencyKey.value|
  }

  ghost function CountOf(items: seq<Item>, p: Item -> bool): nat {
    if items == [] then 0
    else CountOf(items[..|items| - 1], p) + if p(items[|items| - 1]) then 1 else 0
  }

  /** An enveloped line of a central-domain source that supplies the digest of the record of its
      event. */
  predicate CarriesDigest(it: Item) {
    && it.event.Enveloped() && it.centralDomain
    && it.event.recordDigest == Some(RecordHash(CopyOf(it.event)))
  }

  predicate LacksDigest(it: Item) { it.event.recordDigest.None? }

  predicate CarriesUnknown(it: Item) { it.event.recordDigest.Some? && !it.centralDomain }

  predicate CarriesUnverifiable(it: Item) {
    it.event.recordDigest.Some? && it.centralDomain && !it.event.Enveloped()
  }

  ghost predicate AllCarryDigest(items: seq<Item>) {
    forall i :: 0 <= i < |items| ==> CarriesDigest(items[i])
  }

  lemma GroupedStreams(items: seq<Item>, sequences: map<StreamId, set<int>>)
    requires forall stream, q :: Seen(sequences, stream, q) <==> HasOrigin(items, stream, q)
    requires forall stream :: stream in sequences ==> exists q :: Seen(sequences, stream, q)
    ensures sequences.Keys == StreamsOf(items)
  {
    forall stream
      ensures stream in sequences <==> stream in StreamsOf(items)
    {
      if stream in sequences {
        var q :| Seen(sequences, stream, q);
        var i :| 0 <= i < |items| && OriginOf(items[i]) == Some((stream, q));
        assert items[i] in items;
      }
      if stream in StreamsOf(items) {
        var it :| it in items && it.event.Enveloped() && it.event.Stream() == stream;
        assert HasOrigin(items, stream, it.event.SeqNo());
        assert Seen(sequences, stream, it.event.SeqNo());
      }
    }
  }

  lemma FilledIds(items: seq<Item>)
    requires Accepted(items)
    ensures Filled(items).eventsById.Keys == set it | it in items :: it.event.id
  {
    FilledDescribes(items);
    assert forall i :: 0 <= i < |items| ==> IdOf(items[i]).Some?;
  }

  predicate Complete(t: Tables) {
    t.unknown == 0 && t.absent == 0 && t.unverifiable == 0
  }

  lemma OkStatus(it: Item)
    requires ItemOk(it)
    ensures StatusOf(it) == Verified <==> CarriesDigest(it)
    ensures StatusOf(it) == Absent <==> LacksDigest(it)
    ensures StatusOf(it) == UnknownDomain <==> CarriesUnknown(it)
    ensures StatusOf(it) == UnverifiableDomain <==> CarriesUnverifiable(it)
  {
    Preparation(it.event);
  }

  /** The counters count the lines by what their digests are. */
  lemma {:induction false} FilledDigests(items: seq<Item>)
    requires AllOk(items)
    ensures Filled(items).verified == CountOf(items, CarriesDigest)
    ensures Filled(items).absent == CountOf(items, LacksDigest)
    ensures Filled(items).unknown == CountOf(items, CarriesUnknown)
    ensures Filled(items).unverifiable == CountOf(items, CarriesUnverifiable)
  {
    if items != [] {
      var n := |items| - 1;
      assert AllOk(items[..n]) && ItemOk(items[n]);
      FilledDigests(items[..n]);
      OkStatus(items[n]);
    }
  }

  lemma CompleteMeansVerified(items: seq<Item>)
    ensures Complete(Filled(items)) <==> AllVerified(items)
  {
    FilledCounts(items);
  }

  lemma VerifiedMeansCarried(items: seq<Item>)
    requires AllOk(items)
    ensures AllVerified(items) <==> AllCarryDigest(items)
  {
    forall i | 0 <= i < |items| ensures StatusOf(items[i]) == Verified <==> CarriesDigest(items[i]) {
      OkStatus(items[i]);
    }
  }

  lemma FilledKeys(items: seq<Item>)
    requires Accepted(items)
    ensures |Filled(items).idempotencyKeys|
         == |set it | it in items && it.event.idempotencyKey.Some? :: it.event.idempotencyKey.value|
  {
    FilledDescribes(items);
    var keys := Filled(items).idempotencyKeys;
    var wanted := set it | it in items && it.event.idempotencyKey.Some? :: it.event.idempotencyKey.value;
    forall k ensures k in keys <==> k in wanted {
      if k in keys {
        var i :| 0 <= i < |items| && KeyOf(items[i]) == Some(k);
        assert items[i] in items;
      }
      if k in wanted {
        var it :| it in items && it.event.idempotencyKey == Some(k);
        var i :| 0 <= i < |items| && items[i] == it;
        assert KeyOf(items[i]).Some?;
      }
    }
    assert keys.Keys == wanted && |keys| == |keys.Keys|;
  }

  lemma DistinctAndDuplicates(items: seq<Item>)
    requires Accepted(items)
    ensures |Filled(items).eventsById| == |set it | it in items :: it.event.id|
    ensures |Filled(items).eventsById| + Filled(items).duplicateCopies == |items|
  {
    FilledCounts(items);
    FilledIds(items);
    assert |Filled(items).eventsById| == |Filled(items).eventsById.Keys|;
  }

  lemma StreamCount(items: seq<Item>, sequences: map<StreamId, set<int>>)
    requires forall stream, q :: Seen(sequences, stream, q) <==> HasOrigin(items, stream, q)
    requires forall stream :: stream in sequences ==> exists q :: Seen(sequences, stream, q)
    ensures |sequences| == |StreamsOf(items)|
  {
    GroupedStreams(items, sequences);
    assert |sequences| == |sequences.Keys|;
  }

  function ReportOf(t: Tables, streams: nat): Report {
    Report(
      |t.locations|, |t.eventsById|, t.duplicateCopies, Complete(t), t.verified, t.unknown, t.absent, t.unverifiable,
      t.locations, streams, |t.idempotencyKeys|)
  }

  lemma ReportCounts(items: seq<Item>)
    requires Accepted(items)
    ensures Reports(ReportOf(Filled(items), |StreamsOf(items)|), items)
  {
    FilledLocations(items);
    CompleteMeansVerified(items);
    VerifiedMeansCarried(items);
    FilledDigests(items);
    FilledKeys(items);
    DistinctAndDuplicates(items);
  }

  /** No accepted line of a central-domain source supplies a wrong digest. */
  lemma AcceptedDigests(items: seq<Item>)
    requires Accepted(items)
    ensures forall it :: it in items ==> !WrongDigest(it)
  {
    forall it | it in items ensures !WrongDigest(it) {
      var i :| 0 <= i < |items| && items[i] == it;
      assert ItemOk(items[i]);
      DigestFault(it);
    }
  }

  /** The groups have no gap exactly when the streams have none, and there is one for every stream. */
  lemma GroupTells(items: seq<Item>, sequences: map<StreamId, set<int>>)
    requires |Filled(items).locations| == |items| ==> Grouped(sequences, Filled(items).locations, |items|)
    ensures NoGaps(items) <==> forall stream :: stream in sequences ==> IsInitial(sequences[stream])
    ensures |sequences| == |StreamsOf(items)|
  {
    FilledLocations(items);
    forall stream, q ensures Seen(sequences, stream, q) <==> HasOrigin(items, stream, q) {
      LocatedOrigins(items, stream, q);
    }
    forall stream ensures Gapless(items, stream) <==> stream !in sequences || IsInitial(sequences[stream]) {
      GaplessGroup(items, sequences, stream);
    }
    StreamCount(items, sequences);
  }

  /** The checks after the scan. */
  method Conclude(t: Tables, ghost items: seq<Item>) returns (result: Result<Report, PreflightError>)
    requires Accepted(items) && t == Filled(items)
    ensures result.Ok? <==> NoGaps(items)
    ensures result.Ok? ==> Reports(result.value, items)
    ensures result.Err? ==> result.error == SequenceGap
  {
    FilledLocations(items);
    var sequences := Group(t.locations);
    GroupTells(items, sequences);
    var gaps := FindGaps(sequences);
    if gaps != [] {
      return Err(SequenceGap);
    }
    ReportCounts(items);
    return Ok(ReportOf(t, |sequences|));
  }

  /** The whole preflight: it accepts exactly the source sets that qualify, its report counts every line
      once, and its error is the first thing that is wrong. */
  method Preflight(sources: seq<SourceLines.Source>, parse: Parser) returns (result: Result<Report, PreflightError>)
    ensures result.Ok? <==> Qualifies(sources, parse)
    ensures result.Ok? ==> Reports(result.value, AllItems(sources, parse).value)
    ensures result.Ok? ==> forall it :: it in AllItems(sources, parse).value ==> !WrongDigest(it)
    ensures result.Err? ==>
      if FramedUpTo(sources, |sources|) && Fits([], AllItems(sources, parse)) then result.error == SequenceGap
      else SetFault(sources, parse, result.error)
  {
    var error, t := ScanAll(sources, parse);
    if error.Some? {
      return Err(error.value);
    }
    ghost var items := AllItems(sources, parse).value;
    assert [] + items == items;
    AcceptedDigests(items);
    result := Conclude(t, items);
  }

  // ----- locations -----

  lemma {:induction false} FromPart(parts: seq<Option<seq<Item>>>, it: Item) returns (n: nat)
    requires Concat(parts).Some? && it in Concat(parts).value
    ensures n < |parts| && parts[n].Some? && it in parts[n].value
  {
    var last := |parts| - 1;
    if it in parts[last].value {
      n := last;
    } else {
      n := FromPart(parts[..last], it);
    }
  }

  lemma {:induction false} PartIsThere(parts: seq<Option<seq<Item>>>, n: nat)
    requires n < |parts| && Concat(parts).Some?
    ensures parts[n].Some?
    decreases |parts|
  {
    if n < |parts| - 1 {
      PartIsThere(parts[..|parts| - 1], n);
    }
  }

  lemma {:induction false} PartIsIn(parts: seq<Option<seq<Item>>>, n: nat, it: Item)
    requires n < |parts| && Concat(parts).Some? && parts[n].Some? && it in parts[n].value
    ensures it in Concat(parts).value
    decreases |parts|
  {
    var last := |parts| - 1;
    if n < last {
      PartIsIn(parts[..last], n, it);
    }
  }

  /** The item was found as line `number` of its source, at its offset. */
  ghost predicate FoundIn(sources: seq<SourceLines.Source>, parse: Parser, it: Item) {
    && it.source < |sources| && sources[it.source].file.Some?
    && var lines := SourceLines.KeepEnds(sources[it.source].file.value);
    && 1 <= it.number <= |lines|
    && LineItem(sources[it.source], it.source, parse, lines, it.number - 1) == Some([it])
  }

  lemma ItemsAreFound(sources: seq<SourceLines.Source>, parse: Parser, it: Item)
    requires AllItems(sources, parse).Some? && it in AllItems(sources, parse).value
    ensures FoundIn(sources, parse, it)
  {
    var k := FromPart(SourceParts(sources, parse), it);
    var lines := SourceLines.KeepEnds(sources[k].file.value);
    var n := FromPart(LineParts(sources[k], k, parse, lines), it);
    assert LineItem(sources[k], k, parse, lines, n) == Some([it]);
  }

  lemma LinesAreItems(sources: seq<SourceLines.Source>, parse: Parser, k: nat, n: nat)
    requires AllItems(sources, parse).Some? && k < |sources| && sources[k].file.Some?
    requires n < |SourceLines.KeepEnds(sources[k].file.value)|
    ensures var lines := SourceLines.KeepEnds(sources[k].file.value);
      LineItem(sources[k], k, parse, lines, n).Some? &&
      LineItem(sources[k], k, parse, lines, n).value[0] in AllItems(sources, parse).value
  {
    var lines := SourceLines.KeepEnds(sources[k].file.value);
    var parts := LineParts(sources[k], k, parse, lines);
    PartIsThere(SourceParts(sources, parse), k);
    PartIsThere(parts, n);
    PartIsIn(parts, n, parts[n].value[0]);
    PartIsIn(SourceParts(sources, parse), k, parts[n].value[0]);
  }

  /** The location slices its frozen source to exactly the line of the item, and the last line of
      a source ends where the source ends. */
  ghost predicate Slices(sources: seq<SourceLines.Source>, loc: Location, it: Item) {
    && loc.source < |sources| && sources[loc.source].file.Some?
    && var raw := sources[loc.source].file.value; var end := loc.offset + |it.line|;
    && end <= |raw| && raw[loc.offset..end] == it.line
    && (loc.line == sources[loc.source].lineCount ==> end == sources[loc.source].byteCount)
  }

  /** The location names the line's place, bytes, event, tuple and central record. */
  ghost predicate Names(loc: Location, it: Item) {
    && loc.source == it.source && loc.line == it.number && loc.offset == it.offset
    && loc.rawDigest == Sha256(it.line) && loc.eventId == it.event.id
    && loc.origin == (if it.event.Enveloped() then Some((it.event.Stream(), it.event.SeqNo())) else None)
    && loc.recordDigest == (if it.event.Enveloped() then Some(RecordHash(CopyOf(it.event))) else None)
  }

  lemma LocationNames(it: Item)
    requires ItemOk(it)
    ensures Names(LocationOf(it), it)
  {
    Preparation(it.event);
  }

  lemma FoundSlices(sources: seq<SourceLines.Source>, parse: Parser, it: Item)
    requires FoundIn(sources, parse, it) && IsFramed(sources[it.source])
    ensures Slices(sources, LocationOf(it), it)
  {
    SourceLines.OffsetsSlice(sources[it.source].file.value, it.number - 1);
  }

  lemma QualifiedIsFramed(sources: seq<SourceLines.Source>, parse: Parser, k: nat)
    requires Qualifies(sources, parse) && k < |sources|
    ensures IsFramed(sources[k])
  {
  }

  /** Every recorded location slices its source, and the bytes it slices are the record. */
  lemma LocationSlices(sources: seq<SourceLines.Source>, parse: Parser, i: nat)
    requires Qualifies(sources, parse) && i < |AllItems(sources, parse).value|
    ensures |Filled(AllItems(sources, parse).value).locations| == |AllItems(sources, parse).value|
    ensures Slices(sources, Filled(AllItems(sources, parse).value).locations[i], AllItems(sources, parse).value[i])
    ensures var it := AllItems(sources, parse).value[i]; parse(SourceLines.Body(it.line)) == Some(it.event)
  {
    var items := AllItems(sources, parse).value;
    FilledLocations(items);
    ItemsAreFound(sources, parse, items[i]);
    QualifiedIsFramed(sources, parse, items[i].source);
    FoundSlices(sources, parse, items[i]);
  }

  /** And it names what is there. */
  lemma RecordNames(sources: seq<SourceLines.Source>, parse: Parser, i: nat)
    requires Qualifies(sources, parse) && i < |AllItems(sources, parse).value|
    ensures |Filled(AllItems(sources, parse).value).locations| == |AllItems(sources, parse).value|
    ensures Names(Filled(AllItems(sources, parse).value).locations[i], AllItems(sources, parse).value[i])
  {
    var items := AllItems(sources, parse).value;
    FilledLocations(items);
    assert [] + items == items && ItemOk(items[i]);
    LocationNames(items[i]);
  }

  /** Every item is a line of its source, with the repository and the digest domain of that source,
      and the event that the line parses to. */
  lemma ItemIsLine(sources: seq<SourceLines.Source>, parse: Parser, it: Item)
    requires AllItems(sources, parse).Some? && it in AllItems(sources, parse).value
    ensures it.source < |sources| && sources[it.source].file.Some?
    ensures var s := sources[it.source]; var lines := SourceLines.KeepEnds(s.file.value);
      && 1 <= it.number <= |lines| && it.line == lines[it.number - 1]
      && it.repoId == s.repoId && it.centralDomain == s.centralDomain
      && parse(SourceLines.Body(it.line)) == Some(it.event)
  {
    ItemsAreFound(sources, parse, it);
  }

  // ----- the order of the records -----

  /** Source by source, and line by line within a source. */
  predicate Precedes(a: Item, b: Item) {
    a.source < b.source || (a.source == b.source && a.number < b.number)
  }

  ghost predicate InOrder(items: seq<Item>) {
    forall i, j :: 0 <= i < j < |items| ==> Precedes(items[i], items[j])
  }

  lemma InOrderAppend(a: seq<Item>, b: seq<Item>)
    requires InOrder(a) && InOrder(b)
    requires forall x, y :: x in a && y in b ==> Precedes(x, y)
    ensures InOrder(a + b)
  {
    forall i, j | 0 <= i < j < |a + b| ensures Precedes((a + b)[i], (a + b)[j]) {
      if i < |a| && j >= |a| {
        assert a[i] in a && b[j - |a|] in b;
      }
    }
  }

  lemma {:induction false} LinesInOrder(s: SourceLines.Source, k: nat, parse: Parser, lines: seq<Bytes>, n: nat)
    requires n <= |lines| && Concat(LineParts(s, k, parse, lines)[..n]).Some?
    ensures var items := Concat(LineParts(s, k, parse, lines)[..n]).value;
      |items| == n && InOrder(items) && forall it :: it in items ==> it.source == k && 1 <= it.number <= n
  {
    if n > 0 {
      var parts := LineParts(s, k, parse, lines);
      ConcatStep(parts, n - 1);
      LinesInOrder(s, k, parse, lines, n - 1);
      InOrderAppend(Concat(parts[..n - 1]).value, parts[n - 1].value);
    }
  }

  lemma {:induction false} SourcesInOrder(sources: seq<SourceLines.Source>, parse: Parser, k: nat)
    requires k <= |sources| && Concat(SourceParts(sources, parse)[..k]).Some?
    ensures var items := Concat(SourceParts(sources, parse)[..k]).value;
      InOrder(items) && forall it :: it in items ==> it.source < k
  {
    if k > 0 {
      var parts := SourceParts(sources, parse);
      ConcatStep(parts, k - 1);
      SourcesInOrder(sources, parse, k - 1);
      SourceInOrder(sources[k - 1], k - 1, parse);
      InOrderAppend(Concat(parts[..k - 1]).value, parts[k - 1].value);
    }
  }

  lemma SourceInOrder(s: SourceLines.Source, k: nat, parse: Parser)
    requires SourceItems(s, k, parse).Some?
    ensures var items := SourceItems(s, k, parse).value;
      InOrder(items) && forall it :: it in items ==> it.source == k
  {
    var lines := SourceLines.KeepEnds(s.file.value);
    TakeAll(LineParts(s, k, parse, lines), |lines|);
    LinesInOrder(s, k, parse, lines, |lines|);
  }

  /** The records come in the order of the sources and of their lines. */
  lemma RecordsInOrder(sources: seq<SourceLines.Source>, parse: Parser)
    requires AllItems(sources, parse).Some?
    ensures InOrder(AllItems(sources, parse).value)
  {
    TakeAll(SourceParts(sources, parse), |sources|);
    SourcesInOrder(sources, parse, |sources|);
  }
}
