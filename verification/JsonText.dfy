/** Just enough of the JSON grammar (RFC 8259, sections 2 to 7) to tell a whole object text from a
    cut one. The grammar here accepts more than the standard, so what it rejects is not JSON. */
module JsonText {
  import opened SourceLines

  const QUOTE: Byte := 34
  const BACKSLASH: Byte := 92
  const COMMA: Byte := 44
  const COLON: Byte := 58
  const OPEN_BRACKET: Byte := 91
  const CLOSE_BRACKET: Byte := 93
  const OPEN_BRACE: Byte := 123
  const CLOSE_BRACE: Byte := 125

  /** A value with its whitespace. Array elements and object members are lists. */
  datatype Json =
    | Scalar(text: Bytes)
    | Text(body: Bytes)
    | Array(pad: Bytes, items: Items)
    | Object(pad: Bytes, members: Members)

  datatype Items = NoItems | Item(before: Bytes, value: Json, after: Bytes, rest: Items)

  datatype Members =
    | NoMembers
    | Member(lead: Bytes, key: Bytes, gap: Bytes, mid: Bytes, value: Json, after: Bytes, rest: Members)

  function Quoted(body: Bytes): Bytes { [QUOTE] + body + [QUOTE] }

  function Render(j: Json): Bytes {
    match j
    case Scalar(text) => text
    case Text(body) => Quoted(body)
    case Array(pad, items) => [OPEN_BRACKET] + pad + RenderItems(items) + [CLOSE_BRACKET]
    case Object(pad, members) => [OPEN_BRACE] + pad + RenderMembers(members) + [CLOSE_BRACE]
  }

  function RenderItems(items: Items): Bytes {
    match items
    case NoItems => []
    case Item(before, value, after, rest) =>
      before + Render(value) + after + (if rest.NoItems? then [] else [COMMA]) + RenderItems(rest)
  }

  function RenderMembers(members: Members): Bytes {
    match members
    case NoMembers => []
    case Member(lead, key, gap, mid, value, after, rest) =>
      lead + Quoted(key) + gap + [COLON] + mid + Render(value) + after +
      (if rest.NoMembers? then [] else [COMMA]) + RenderMembers(rest)
  }

  predicate IsWhite(b: Byte) { b == 32 || b == 9 || b == 10 || b == 13 }

  predicate White(s: Bytes) {
    forall i :: 0 <= i < |s| ==> IsWhite(s[i])
  }

  /** Bytes that neither open nor close anything. */
  predicate IsQuiet(b: Byte) {
    && b != QUOTE && b != BACKSLASH && b != OPEN_BRACKET && b != CLOSE_BRACKET
    && b != OPEN_BRACE && b != CLOSE_BRACE
  }

  predicate Quiet(s: Bytes) {
    forall i :: 0 <= i < |s| ==> IsQuiet(s[i])
  }

  /** The inside of a string: quotation marks and backslashes occur only after a backslash. */
  predicate IsBody(s: Bytes) {
    if s == [] then true
    else if s[0] == QUOTE then false
    else if s[0] == BACKSLASH then |s| >= 2 && IsBody(s[2..])
    else IsBody(s[1..])
  }

  predicate WellFormed(j: Json) {
    match j
    case Scalar(text) => text != [] && Quiet(text) && !IsWhite(text[0])
    case Text(body) => IsBody(body)
    case Array(pad, items) => White(pad) && WellFormedItems(items)
    case Object(pad, members) => White(pad) && WellFormedMembers(members)
  }

  predicate WellFormedItems(items: Items) {
    match items
    case NoItems => true
    case Item(before, value, after, rest) =>
      White(before) && WellFormed(value) && White(after) && WellFormedItems(rest)
  }

  predicate WellFormedMembers(members: Members) {
    match members
    case NoMembers => true
    case Member(lead, key, gap, mid, value, after, rest) =>
      && White(lead) && IsBody(key) && White(gap) && White(mid)
      && WellFormed(value) && White(after) && WellFormedMembers(rest)
  }

  ghost predicate IsJson(text: Bytes) {
    exists lead, j, trail :: IsJsonAs(text, lead, j, trail)
  }

  ghost predicate IsJsonAs(text: Bytes, lead: Bytes, j: Json, trail: Bytes) {
    White(lead) && WellFormed(j) && White(trail) && text == lead + Render(j) + trail
  }

  // ----- a scanner for object texts -----

  /** Outside or inside a string at some depth, the object closed, or not an object any more. */
  datatype State = Out(depth: nat) | In(depth: nat) | Esc(depth: nat) | Closed | Bad

  /** What may be stripped from the end of a line: whitespace, and bytes of wider characters. */
  predicate IsStrip(b: Byte) { 9 <= b <= 13 || 28 <= b <= 32 || b >= 128 }

  function Step(s: State, b: Byte): State {
    match s
    case Out(d) =>
      if b == QUOTE then In(d)
      else if b == OPEN_BRACKET || b == OPEN_BRACE then Out(d + 1)
      else if b == CLOSE_BRACKET || b == CLOSE_BRACE then if d <= 1 then Closed else Out(d - 1)
      else if b == BACKSLASH then Bad
      else Out(d)
    case In(d) => if b == QUOTE then Out(d) else if b == BACKSLASH then Esc(d) else In(d)
    case Esc(d) => In(d)
    case Closed => if IsStrip(b) then Closed else Bad
    case Bad => Bad
  }

  function Scan(s: State, text: Bytes): State
    decreases |text|
  {
    if text == [] then s else Scan(Step(s, text[0]), text[1..])
  }

  lemma {:induction false} ScanAppend(s: State, a: Bytes, b: Bytes)
    ensures Scan(s, a + b) == Scan(Scan(s, a), b)
    decreases |a|
  {
    if a == [] {
      assert a + b == b;
    } else {
      ScanAppend(Step(s, a[0]), a[1..], b);
      assert (a + b)[1..] == a[1..] + b;
    }
  }

  lemma {:induction false} QuietScan(s: State, text: Bytes)
    requires Quiet(text) && (s.Out? || s.In? || s.Bad?)
    ensures Scan(s, text) == s
  {
    if text != [] {
      QuietScan(s, text[1..]);
    }
  }

  lemma WhiteIsQuiet(text: Bytes)
    requires White(text)
    ensures Quiet(text)
  {
  }

  lemma {:induction false} BodyScan(d: nat, body: Bytes)
    requires IsBody(body)
    ensures Scan(In(d), body) == In(d)
  {
    if body != [] {
      if body[0] == BACKSLASH {
        BodyScan(d, body[2..]);
        assert body[1..][1..] == body[2..];
      } else {
        BodyScan(d, body[1..]);
      }
    }
  }

  lemma QuotedScan(d: nat, body: Bytes)
    requires IsBody(body)
    ensures Scan(Out(d), Quoted(body)) == Out(d)
  {
    BodyScan(d, body);
    ScanAppend(Out(d), [QUOTE], body);
    ScanAppend(Out(d), [QUOTE] + body, [QUOTE]);
  }

  /** Inside an object a whole value leaves the scanner where it was. */
  lemma {:induction false} ValueScan(d: nat, j: Json)
    requires d >= 1 && WellFormed(j)
    ensures Scan(Out(d), Render(j)) == Out(d)
    decreases j
  {
    match j
    case Scalar(text) => QuietScan(Out(d), text);
    case Text(body) => QuotedScan(d, body);
    case Array(pad, items) =>
      ItemsScan(d + 1, items);
      BracketScan(d, OPEN_BRACKET, pad, RenderItems(items), CLOSE_BRACKET);
    case Object(pad, members) =>
      MembersScan(d + 1, members);
      BracketScan(d, OPEN_BRACE, pad, RenderMembers(members), CLOSE_BRACE);
  }

  lemma BracketScan(d: nat, open: Byte, pad: Bytes, inner: Bytes, close: Byte)
    requires d >= 1 && (open == OPEN_BRACKET || open == OPEN_BRACE)
    requires close == CLOSE_BRACKET || close == CLOSE_BRACE
    requires White(pad) && Scan(Out(d + 1), inner) == Out(d + 1)
    ensures Scan(Out(d), [open] + pad + inner + [close]) == Out(d)
  {
    WhiteIsQuiet(pad);
    QuietScan(Out(d + 1), pad);
    ScanAppend(Out(d), [open], pad);
    ScanAppend(Out(d), [open] + pad, inner);
    ScanAppend(Out(d), [open] + pad + inner, [close]);
  }

  /** A quiet piece, a value, a quiet piece. */
  lemma AroundScan(s: State, before: Bytes, value: Bytes, after: Bytes)
    requires (s.Out? || s.In? || s.Bad?) && Quiet(before) && Quiet(after)
    requires Scan(s, value).Out? || Scan(s, value).In? || Scan(s, value).Bad?
    ensures Scan(s, before + value + after) == Scan(s, value)
  {
    QuietScan(s, before);
    QuietScan(Scan(s, value), after);
    ScanAppend(s, before, value);
    ScanAppend(s, before + value, after);
  }

  lemma {:induction false} ItemsScan(d: nat, items: Items)
    requires d >= 1 && WellFormedItems(items)
    ensures Scan(Out(d), RenderItems(items)) == Out(d)
    decreases items
  {
    match items
    case NoItems =>
    case Item(before, value, after, rest) =>
      ValueScan(d, value);
      ItemsScan(d, rest);
      var tail := after + if rest.NoItems? then [] else [COMMA];
      Associate(before + Render(value), after, if rest.NoItems? then [] else [COMMA]);
      AroundScan(Out(d), before, Render(value), tail);
      ScanAppend(Out(d), before + Render(value) + tail, RenderItems(rest));
  }

  /** The bytes of a member up to its value, and from it to the next member. */
  function MemberHead(lead: Bytes, key: Bytes, gap: Bytes, mid: Bytes): Bytes {
    lead + Quoted(key) + (gap + [COLON] + mid)
  }

  function MemberTail(after: Bytes, last: bool): Bytes {
    after + if last then [] else [COMMA]
  }

  lemma Associate(a: Bytes, b: Bytes, c: Bytes)
    ensures (a + b) + c == a + (b + c)
  {
  }

  lemma MemberSplits(m: Members)
    requires m.Member?
    ensures RenderMembers(m) ==
      MemberHead(m.lead, m.key, m.gap, m.mid) + ([] + Render(m.value) + MemberTail(m.after, m.rest.NoMembers?)) +
      RenderMembers(m.rest)
  {
    var key, value, comma := m.lead + Quoted(m.key), Render(m.value), if m.rest.NoMembers? then [] else [COMMA];
    var head := MemberHead(m.lead, m.key, m.gap, m.mid);
    Associate(key, m.gap, [COLON]);
    Associate(key, m.gap + [COLON], m.mid);
    Associate(head, value, m.after);
    Associate(head, value + m.after, comma);
    Associate(value, m.after, comma);
    assert [] + value == value;
  }

  lemma {:induction false} MembersScan(d: nat, members: Members)
    requires d >= 1 && WellFormedMembers(members)
    ensures Scan(Out(d), RenderMembers(members)) == Out(d)
    decreases members
  {
    match members
    case NoMembers =>
    case Member(lead, key, gap, mid, value, after, rest) =>
      ValueScan(d, value);
      MembersScan(d, rest);
      QuotedScan(d, key);
      MemberParts(Out(d), members);
  }

  /** A member scans as its key, then its value, then the members after it. */
  lemma MemberParts(s: State, m: Members)
    requires m.Member? && WellFormedMembers(m) && (s.Out? || s.In? || s.Bad?)
    requires var k := Scan(s, Quoted(m.key)); k.Out? || k.In? || k.Bad?
    requires var v := Scan(Scan(s, Quoted(m.key)), Render(m.value)); v.Out? || v.In? || v.Bad?
    ensures Scan(s, RenderMembers(m)) == Scan(Scan(Scan(s, Quoted(m.key)), Render(m.value)), RenderMembers(m.rest))
  {
    var k := Scan(s, Quoted(m.key));
    var head, tail := MemberHead(m.lead, m.key, m.gap, m.mid), MemberTail(m.after, m.rest.NoMembers?);
    MemberSplits(m);
    AroundScan(s, m.lead, Quoted(m.key), m.gap + [COLON] + m.mid);
    AroundScan(k, [], Render(m.value), tail);
    ScanAppend(s, head, [] + Render(m.value) + tail);
    ScanAppend(s, head + ([] + Render(m.value) + tail), RenderMembers(m.rest));
  }

  // ----- a value met inside a string -----

  /** Inside a string, or past saving: a state that never turns into a closed object here. */
  predicate Lost(s: State) { s.In? || s.Bad? }

  lemma {:induction false} BadStays(text: Bytes)
    ensures Scan(Bad, text) == Bad
  {
    if text != [] {
      BadStays(text[1..]);
    }
  }

  /** The body of a string, met outside of strings, and the quotation mark after it. */
  lemma {:induction false} BodyOutside(s: State, body: Bytes)
    requires IsBody(body) && (s.Out? || s.Closed? || s.Bad?)
    ensures Lost(Scan(s, body + [QUOTE]))
    decreases |body|
  {
    var text := body + [QUOTE];
    if body != [] {
      assert text[1..] == body[1..] + [QUOTE];
      if body[0] == BACKSLASH {
        BadStays(text[1..]);
      } else {
        BodyOutside(Step(s, body[0]), body[1..]);
      }
    }
  }

  lemma QuotedInside(s: State, body: Bytes)
    requires IsBody(body) && Lost(s)
    ensures Lost(Scan(s, Quoted(body)))
  {
    assert Quoted(body) == [QUOTE] + (body + [QUOTE]);
    ScanAppend(s, [QUOTE], body + [QUOTE]);
    BodyOutside(Step(s, QUOTE), body);
  }

  /** A value met inside a string swaps strings and structure, and ends inside a string again. */
  lemma {:induction false} ValueInside(s: State, j: Json)
    requires WellFormed(j) && Lost(s)
    ensures Lost(Scan(s, Render(j)))
    decreases j
  {
    match j
    case Scalar(text) => QuietScan(s, text);
    case Text(body) => QuotedInside(s, body);
    case Array(pad, items) =>
      ItemsInside(s, items);
      BracketInside(s, OPEN_BRACKET, pad, RenderItems(items), CLOSE_BRACKET);
    case Object(pad, members) =>
      MembersInside(s, members);
      BracketInside(s, OPEN_BRACE, pad, RenderMembers(members), CLOSE_BRACE);
  }

  lemma BracketInside(s: State, open: Byte, pad: Bytes, inner: Bytes, close: Byte)
    requires open != QUOTE && open != BACKSLASH && close != QUOTE && close != BACKSLASH
    requires White(pad) && Lost(s) && Lost(Scan(s, inner))
    ensures Scan(s, [open] + pad + inner + [close]) == Scan(s, inner)
  {
    WhiteIsQuiet(pad);
    QuietScan(s, pad);
    ScanAppend(s, [open], pad);
    ScanAppend(s, [open] + pad, inner);
    ScanAppend(s, [open] + pad + inner, [close]);
  }

  lemma {:induction false} ItemsInside(s: State, items: Items)
    requires WellFormedItems(items) && Lost(s)
    ensures Lost(Scan(s, RenderItems(items)))
    decreases items
  {
    match items
    case NoItems =>
    case Item(before, value, after, rest) =>
      ValueInside(s, value);
      ItemsInside(Scan(s, Render(value)), rest);
      var tail := after + if rest.NoItems? then [] else [COMMA];
      Associate(before + Render(value), after, if rest.NoItems? then [] else [COMMA]);
      AroundScan(s, before, Render(value), tail);
      ScanAppend(s, before + Render(value) + tail, RenderItems(rest));
  }

  lemma {:induction false} MembersInside(s: State, members: Members)
    requires WellFormedMembers(members) && Lost(s)
    ensures Lost(Scan(s, RenderMembers(members)))
    decreases members
  {
    match members
    case NoMembers =>
    case Member(lead, key, gap, mid, value, after, rest) =>
      QuotedInside(s, key);
      ValueInside(Scan(s, Quoted(key)), value);
      MembersInside(Scan(Scan(s, Quoted(key)), Render(value)), rest);
      MemberParts(s, members);
  }

  // ----- whole objects, cut objects, joined objects -----

  /** The text of one object and nothing around it. */
  ghost predicate IsObjectText(text: Bytes) {
    exists j :: IsObjectAs(text, j)
  }

  ghost predicate IsObjectAs(text: Bytes, j: Json) {
    j.Object? && WellFormed(j) && text == Render(j)
  }

  const START := Out(0)

  /** Whatever the grammar accepts and starts with a brace closes exactly at its end. */
  lemma JsonCloses(text: Bytes)
    requires IsJson(text) && text != [] && text[0] == OPEN_BRACE
    ensures Scan(START, text) == Closed
  {
    var lead, j, trail :| IsJsonAs(text, lead, j, trail);
    assert lead == [] || IsWhite(text[0]);
    assert text == Render(j) + trail;
    RenderStarts(j);
    ObjectCloses(j);
    ScanAppend(START, Render(j), trail);
    TrailScan(trail);
  }

  lemma RenderStarts(j: Json)
    requires WellFormed(j)
    ensures Render(j) != []
    ensures Render(j)[0] == OPEN_BRACE <==> j.Object?
  {
  }

  lemma ObjectCloses(j: Json)
    requires j.Object? && WellFormed(j)
    ensures Scan(START, Render(j)) == Closed
  {
    MembersScan(1, j.members);
    WhiteIsQuiet(j.pad);
    QuietScan(Out(1), j.pad);
    var inner := RenderMembers(j.members);
    ScanAppend(START, [OPEN_BRACE], j.pad);
    ScanAppend(START, [OPEN_BRACE] + j.pad, inner);
    ScanAppend(START, [OPEN_BRACE] + j.pad + inner, [CLOSE_BRACE]);
  }

  lemma {:induction false} TrailScan(trail: Bytes)
    requires forall i :: 0 <= i < |trail| ==> IsStrip(trail[i])
    ensures Scan(Closed, trail) == Closed
  {
    if trail != [] {
      TrailScan(trail[1..]);
    }
  }

  lemma {:induction false} ClosedThenMore(text: Bytes)
    requires text != [] && !IsStrip(text[|text| - 1])
    ensures Scan(Closed, text) == Bad
  {
    if IsStrip(text[0]) {
      ClosedThenMore(text[1..]);
    } else {
      BadStays(text[1..]);
    }
  }

  /** No proper prefix of an object text is closed. */
  lemma CutIsOpen(text: Bytes, n: nat)
    requires IsObjectText(text) && n < |text|
    ensures Scan(START, text[..n]) != Closed
  {
    var j :| IsObjectAs(text, j);
    ObjectCloses(j);
    assert text[|text| - 1] == CLOSE_BRACE;
    assert text == text[..n] + text[n..];
    ScanAppend(START, text[..n], text[n..]);
    if Scan(START, text[..n]) == Closed {
      ClosedThenMore(text[n..]);
    }
  }

  /** An object text after anything that has begun an object, whole or cut, does not close it. */
  lemma JoinedIsOpen(front: Bytes, text: Bytes)
    requires IsObjectText(text) && front != [] && front[0] == OPEN_BRACE
    ensures Scan(START, front + text) != Closed
  {
    var j :| IsObjectAs(text, j);
    ScanAppend(START, front, text);
    BegunState(START, front);
    var s := Scan(START, front);
    match s
    case Out(d) => ValueScan(d, j);
    case In(d) => ValueInside(s, j);
    case Esc(d) =>
      assert Step(s, text[0]) == Step(In(d), text[0]);
      ValueInside(In(d), j);
    case Closed => BadStays(text[1..]);
    case Bad => BadStays(text);
  }

  /** A second object after a closed one is past saving. */
  lemma SecondIsOpen(front: Bytes, more: Bytes)
    requires IsObjectText(front) && more != [] && more[0] == OPEN_BRACE
    ensures Scan(START, front + more) == Bad
  {
    var j :| IsObjectAs(front, j);
    ObjectCloses(j);
    ScanAppend(START, front, more);
    BadStays(more[1..]);
  }

  /** Once an object has begun, the scanner is at depth 1 or more until it closes. */
  lemma {:induction false} BegunState(s: State, text: Bytes)
    requires s.Out? && s.depth == 0 ==> text != [] && text[0] == OPEN_BRACE
    requires s.In? || s.Esc? ==> s.depth >= 1
    ensures Scan(s, text).Out? ==> Scan(s, text).depth >= 1
    decreases |text|
  {
    if text != [] {
      BegunState(Step(s, text[0]), text[1..]);
    }
  }
}
