/** Line framing of a frozen source file. */
module SourceLines {
  import opened Wrappers

  type Byte = b: int | 0 <= b < 256

  type Bytes = seq<Byte>

  const CR: Byte := 13
  const LF: Byte := 10

  /** The end of the first match of the boundary pattern at or after a position: a carriage return
      with the newline after it, a lone carriage return, or a newline. */
  function BoundaryEnd(raw: Bytes, i: nat): (end: Option<nat>)
    requires i <= |raw|
    ensures end.Some? ==> i < end.value <= |raw|
    decreases |raw| - i
  {
    if i == |raw| then None
    else if raw[i] == CR && i + 1 < |raw| && raw[i + 1] == LF then Some(i + 2)
    else if raw[i] == CR || raw[i] == LF then Some(i + 1)
    else BoundaryEnd(raw, i + 1)
  }

  /** Keep-ends line splitting, line by line. */
  function KeepEnds(raw: Bytes): (lines: seq<Bytes>) {
    if raw == [] then []
    else
      match BoundaryEnd(raw, 0)
      case None => [raw]
      case Some(end) => [raw[..end]] + KeepEnds(raw[end..])
  }

  function Joined(lines: seq<Bytes>): Bytes {
    if lines == [] then [] else lines[0] + Joined(lines[1..])
  }

  // ----- what a split is -----

  predicate EndsLine(line: Bytes) {
    line != [] && (line[|line| - 1] == LF || line[|line| - 1] == CR)
  }

  /** No line ends inside the piece. */
  ghost predicate OneLine(line: Bytes) {
    forall k :: 0 <= k < |line| - 1 ==>
      line[k] != LF && (line[k] == CR ==> k == |line| - 2 && line[|line| - 1] == LF)
  }

  /** Between two pieces a line ends, and not in the middle of a pair. */
  predicate Breaks(line: Bytes, next: Bytes) {
    EndsLine(line) && next != [] && !(line[|line| - 1] == CR && next[0] == LF)
  }

  ghost predicate IsSplit(raw: Bytes, lines: seq<Bytes>) {
    && Joined(lines) == raw
    && (forall i :: 0 <= i < |lines| ==> lines[i] != [] && OneLine(lines[i]))
    && forall i :: 0 <= i < |lines| - 1 ==> Breaks(lines[i], lines[i + 1])
  }

  lemma OneLineGrows(b: Byte, line: Bytes)
    requires OneLine(line) && b != CR && b != LF
    ensures OneLine([b] + line)
  {
    assert forall k :: 0 < k <= |line| ==> ([b] + line)[k] == line[k - 1];
  }

  /** The first boundary ends the first line: no boundary ends earlier, and no pair is cut. */
  lemma {:induction false} BoundaryIsFirst(raw: Bytes, i: nat)
    requires i <= |raw|
    ensures BoundaryEnd(raw, i).Some? ==>
      var end := BoundaryEnd(raw, i).value;
      OneLine(raw[i..end]) && EndsLine(raw[i..end]) && !(raw[end - 1] == CR && end < |raw| && raw[end] == LF)
    ensures BoundaryEnd(raw, i).None? ==> forall k :: i <= k < |raw| ==> raw[k] != LF && raw[k] != CR
    decreases |raw| - i
  {
    if i < |raw| && raw[i] != CR && raw[i] != LF {
      BoundaryIsFirst(raw, i + 1);
      if BoundaryEnd(raw, i).Some? {
        var end := BoundaryEnd(raw, i).value;
        assert raw[i..end] == [raw[i]] + raw[i + 1..end];
        OneLineGrows(raw[i], raw[i + 1..end]);
      }
    }
  }

  /** Keep-ends splitting is a split. */
  lemma {:induction false} KeepEndsIsSplit(raw: Bytes)
    ensures IsSplit(raw, KeepEnds(raw))
  {
    if raw != [] {
      BoundaryIsFirst(raw, 0);
      match BoundaryEnd(raw, 0)
      case None => assert Joined([raw][1..]) == [];
      case Some(end) =>
        KeepEndsIsSplit(raw[end..]);
        SplitGrows(raw, end, KeepEnds(raw[end..]));
    }
  }

  lemma SplitGrows(raw: Bytes, end: nat, rest: seq<Bytes>)
    requires 0 < end <= |raw| && IsSplit(raw[end..], rest)
    requires OneLine(raw[..end]) && EndsLine(raw[..end])
    requires !(raw[end - 1] == CR && end < |raw| && raw[end] == LF)
    ensures IsSplit(raw, [raw[..end]] + rest)
  {
    var lines := [raw[..end]] + rest;
    assert lines[1..] == rest;
    if rest != [] {
      assert raw[end..] == rest[0] + Joined(rest[1..]);
      assert rest[0][0] == raw[end..][0];
    }
    assert forall i :: 0 < i < |lines| ==> lines[i] == rest[i - 1];
  }

  /** A line cannot go on past the end of a piece of the same bytes. */
  lemma NotLonger(a: Bytes, rest: Bytes, b: Bytes)
    requires a != [] && b <= a + rest && OneLine(b)
    requires rest != [] ==> Breaks(a, rest)
    ensures |b| <= |a|
  {
    var raw := a + rest;
    assert forall k {:trigger raw[k]} :: 0 <= k < |b| ==> b[k] == raw[k];
    assert raw[|a| - 1] == a[|a| - 1];
    assert rest != [] ==> raw[|a|] == rest[0];
  }

  lemma SamePiece(a: Bytes, restA: Bytes, b: Bytes, restB: Bytes)
    requires a + restA == b + restB && a != [] && b != [] && OneLine(a) && OneLine(b)
    requires restA != [] ==> Breaks(a, restA)
    requires restB != [] ==> Breaks(b, restB)
    ensures a == b && restA == restB
  {
    var raw := a + restA;
    assert a == raw[..|a|] && b == raw[..|b|];
    NotLonger(a, restA, b);
    NotLonger(b, restB, a);
    assert restA == raw[|a|..] && restB == raw[|b|..];
  }

  lemma {:induction false} JoinedStarts(lines: seq<Bytes>)
    requires lines != [] && lines[0] != []
    ensures Joined(lines) != [] && Joined(lines)[0] == lines[0][0]
  {
  }

  lemma SplitTail(raw: Bytes, lines: seq<Bytes>)
    requires IsSplit(raw, lines) && lines != []
    ensures IsSplit(Joined(lines[1..]), lines[1..])
    ensures Joined(lines[1..]) != [] ==> Breaks(lines[0], Joined(lines[1..]))
  {
    if |lines| > 1 {
      assert Breaks(lines[0], lines[1]);
      JoinedStarts(lines[1..]);
    }
  }

  /** A byte string has one split. */
  lemma {:induction false} SplitIsUnique(raw: Bytes, a: seq<Bytes>, b: seq<Bytes>)
    requires IsSplit(raw, a) && IsSplit(raw, b)
    ensures a == b
    decreases |a|
  {
    if a == [] || b == [] {
      if a != [] {
        JoinedStarts(a);
      }
      if b != [] {
        JoinedStarts(b);
      }
    } else {
      SplitTail(raw, a);
      SplitTail(raw, b);
      SamePiece(a[0], Joined(a[1..]), b[0], Joined(b[1..]));
      SplitIsUnique(Joined(a[1..]), a[1..], b[1..]);
      assert a == [a[0]] + a[1..] && b == [b[0]] + b[1..];
    }
  }

  // ----- the scanner -----

  lemma KeepEndsStep(raw: Bytes, start: nat)
    requires start <= |raw|
    ensures match BoundaryEnd(raw, start)
      case None => KeepEnds(raw[start..]) == if start < |raw| then [raw[start..]] else []
      case Some(end) => KeepEnds(raw[start..]) == [raw[start..end]] + KeepEnds(raw[end..])
  {
    BoundaryShift(raw, start, start);
    if BoundaryEnd(raw, start).Some? {
      var end := BoundaryEnd(raw, start).value;
      assert raw[start..][..end - start] == raw[start..end];
      assert raw[start..][end - start..] == raw[end..];
    }
  }

  lemma {:induction false} BoundaryShift(raw: Bytes, start: nat, i: nat)
    requires start <= i <= |raw|
    ensures match BoundaryEnd(raw, i)
      case None => BoundaryEnd(raw[start..], i - start).None?
      case Some(end) => BoundaryEnd(raw[start..], i - start) == Some(end - start)
    decreases |raw| - i
  {
    if i < |raw| {
      BoundaryShift(raw, start, i + 1);
    }
  }

  /** Walks the boundaries from left to right, yielding the bytes up to each. */
  method ScanLines(raw: Bytes) returns (lines: seq<Bytes>)
    ensures lines == KeepEnds(raw)
  {
    lines := [];
    var start := 0;
    var boundary := BoundaryEnd(raw, start);
    assert raw[0..] == raw;
    while boundary.Some?
      invariant start <= |raw| && boundary == BoundaryEnd(raw, start)
      invariant KeepEnds(raw) == lines + KeepEnds(raw[start..])
      decreases |raw| - start
    {
      KeepEndsStep(raw, start);
      lines := lines + [raw[start..boundary.value]];
      start := boundary.value;
      boundary := BoundaryEnd(raw, start);
    }
    KeepEndsStep(raw, start);
    if start < |raw| {
      lines := lines + [raw[start..]];
    }
  }

  /** The scanner agrees with any way of splitting that keeps line ends. */
  lemma OnlySplit(raw: Bytes, lines: seq<Bytes>)
    ensures IsSplit(raw, lines) <==> lines == KeepEnds(raw)
  {
    KeepEndsIsSplit(raw);
    if IsSplit(raw, lines) {
      SplitIsUnique(raw, lines, KeepEnds(raw));
    }
  }

  // ----- offsets -----

  /** Where a line starts. */
  function Offset(lines: seq<Bytes>, i: nat): nat
    requires i <= |lines|
  {
    if i == 0 then 0 else Offset(lines, i - 1) + |lines[i - 1]|
  }

  lemma {:induction false} OffsetOfRest(lines: seq<Bytes>, i: nat)
    requires 0 < i <= |lines|
    ensures Offset(lines, i) == |lines[0]| + Offset(lines[1..], i - 1)
  {
    if i > 1 {
      OffsetOfRest(lines, i - 1);
    }
  }

  lemma {:induction false} JoinedSlice(lines: seq<Bytes>, i: nat)
    requires i < |lines|
    ensures Offset(lines, i) + |lines[i]| <= |Joined(lines)|
    ensures Joined(lines)[Offset(lines, i)..Offset(lines, i) + |lines[i]|] == lines[i]
    ensures i == |lines| - 1 ==> Offset(lines, i) + |lines[i]| == |Joined(lines)|
    decreases |lines|
  {
    if i == 0 {
      assert |lines| == 1 ==> Joined(lines[1..]) == [];
    } else {
      JoinedSlice(lines[1..], i - 1);
      OffsetOfRest(lines, i);
      var at := Offset(lines[1..], i - 1);
      assert Joined(lines)[|lines[0]| + at..|lines[0]| + at + |lines[i]|]
          == Joined(lines[1..])[at..at + |lines[i]|];
    }
  }

  /** A recorded offset slices the file to exactly its line, and the last line ends the file. */
  lemma OffsetsSlice(raw: Bytes, i: nat)
    requires i < |KeepEnds(raw)|
    ensures var lines := KeepEnds(raw); var at := Offset(lines, i);
      && at + |lines[i]| <= |raw| && raw[at..at + |lines[i]|] == lines[i]
      && (i == |lines| - 1 ==> at + |lines[i]| == |raw|)
  {
    SplitSlices(raw, KeepEnds(raw), i);
  }

  lemma SplitSlices(raw: Bytes, lines: seq<Bytes>, i: nat)
    requires i < |lines| && lines == KeepEnds(raw)
    ensures var at := Offset(lines, i);
      && at + |lines[i]| <= |raw| && raw[at..at + |lines[i]|] == lines[i]
      && (i == |lines| - 1 ==> at + |lines[i]| == |raw|)
  {
    KeepEndsIsSplit(raw);
    JoinedSlice(lines, i);
  }

  /** `rstrip(b"\r\n")` */
  function Body(line: Bytes): Bytes {
    if line == [] || (line[|line| - 1] != LF && line[|line| - 1] != CR) then line
    else Body(line[..|line| - 1])
  }

  lemma {:induction false} BodyIsClean(line: Bytes)
    requires OneLine(line)
    ensures Body(line) <= line && CR !in Body(line) && LF !in Body(line)
    ensures EndsLine(line) ==> 1 <= |line| - |Body(line)| <= 2
  {
    if line != [] && (line[|line| - 1] == LF || line[|line| - 1] == CR) {
      var shorter := line[..|line| - 1];
      assert forall k :: 0 <= k < |shorter| ==> shorter[k] == line[k];
      if shorter != [] && shorter[|shorter| - 1] == CR {
        assert Body(shorter) == Body(shorter[..|shorter| - 1]);
        assert forall k :: 0 <= k < |shorter| - 1 ==> shorter[..|shorter| - 1][k] == line[k];
        NoEnds(shorter[..|shorter| - 1]);
      } else {
        NoEnds(shorter);
      }
    } else {
      NoEnds(line);
    }
  }

  lemma NoEnds(line: Bytes)
    requires forall k :: 0 <= k < |line| ==> line[k] != LF && line[k] != CR
    ensures Body(line) == line && CR !in line && LF !in line
  {
  }

  // ----- framing of a frozen source -----

  /** A source descriptor with the bytes found at its path. */
  datatype Source = Source(
    sourceId: string, repoId: string, centralDomain: bool,
    byteCount: int, lineCount: int, digest: Sha256<Bytes>, file: Option<Bytes>)

  datatype FrameError = Unavailable | TooLarge | SizeDiffers | Changed | NoFinalNewline | FramingChanged

  const MAX_SOURCE_BYTES := 512 * 1024 * 1024

  predicate IsBlankByte(b: Byte) { 9 <= b <= 13 || b == 32 }

  /** `not line.strip()` */
  predicate Blank(line: Bytes) {
    forall i :: 0 <= i < |line| ==> IsBlankByte(line[i])
  }

  ghost predicate Framed(s: Source, raw: Bytes) {
    && s.file == Some(raw) && |raw| <= MAX_SOURCE_BYTES && |raw| == s.byteCount
    && Sha256(raw) == s.digest
    && raw != [] && raw[|raw| - 1] == LF
    && |KeepEnds(raw)| == s.lineCount
    && forall i :: 0 <= i < |KeepEnds(raw)| ==> !Blank(KeepEnds(raw)[i])
  }

  /** The first thing that is wrong with a frozen file. */
  ghost predicate IsFrameFault(s: Source, error: FrameError) {
    match s.file
    case None => error == Unavailable
    case Some(raw) =>
      match error
      case Unavailable => false
      case TooLarge => |raw| > 512 * 1024 * 1024
      case SizeDiffers => |raw| <= 512 * 1024 * 1024 && |raw| != s.byteCount
      case Changed => |raw| <= 512 * 1024 * 1024 && |raw| == s.byteCount && s.digest.preimage != raw
      case NoFinalNewline =>
        |raw| <= 512 * 1024 * 1024 && |raw| == s.byteCount && s.digest.preimage == raw && !EndsInNewline(raw)
      case FramingChanged =>
        && |raw| <= 512 * 1024 * 1024 && |raw| == s.byteCount && s.digest.preimage == raw && EndsInNewline(raw)
        && (|KeepEnds(raw)| != s.lineCount || exists i :: 0 <= i < |KeepEnds(raw)| && IsAllSpace(KeepEnds(raw)[i]))
  }

  predicate EndsInNewline(raw: Bytes) { raw != [] && raw[|raw| - 1] == 10 }

  /** Nothing but tabs, line ends, form feeds and spaces. */
  predicate IsAllSpace(line: Bytes) {
    forall b :: b in line ==> b in [9, 10, 11, 12, 13, 32]
  }

  lemma BlankIsAllSpace(line: Bytes)
    ensures Blank(line) <==> IsAllSpace(line)
  {
    if IsAllSpace(line) {
      forall i | 0 <= i < |line| ensures IsBlankByte(line[i]) {
        assert line[i] in line;
      }
    }
  }

  /** Reads one source and checks its bytes and its lines against the manifest. */
  method ReadFrozen(s: Source) returns (result: Result<Bytes, FrameError>)
    ensures result.Ok? ==> Framed(s, result.value)
    ensures result.Err? ==> forall raw :: !Framed(s, raw)
    ensures result.Err? ==> IsFrameFault(s, result.error)
  {
    if s.file.None? {
      return Err(Unavailable);
    }
    var raw := s.file.value;
    if |raw| > MAX_SOURCE_BYTES {
      return Err(TooLarge);
    }
    if |raw| != s.byteCount {
      return Err(SizeDiffers);
    }
    if Sha256(raw) != s.digest {
      return Err(Changed);
    }
    if raw == [] || raw[|raw| - 1] != LF {
      return Err(NoFinalNewline);
    }
    var lines := ScanLines(raw);
    var count := 0;
    while count < |lines|
      invariant 0 <= count <= |lines| && (count > 0 ==> count <= s.lineCount)
      invariant forall i :: 0 <= i < count ==> !Blank(lines[i])
    {
      if count + 1 > s.lineCount || Blank(lines[count]) {
        BlankIsAllSpace(lines[count]);
        return Err(FramingChanged);
      }
      count := count + 1;
    }
    if count != s.lineCount {
      return Err(FramingChanged);
    }
    return Ok(raw);
  }

  /** Every line of a framed source is ended, so its body is the record alone. */
  lemma FramedLinesEnd(s: Source, raw: Bytes, i: nat)
    requires Framed(s, raw) && i < |KeepEnds(raw)|
    ensures EndsLine(KeepEnds(raw)[i])
    ensures var line := KeepEnds(raw)[i]; Body(line) <= line && CR !in Body(line) && LF !in Body(line)
  {
    var lines := KeepEnds(raw);
    KeepEndsIsSplit(raw);
    OffsetsSlice(raw, i);
    if i < |lines| - 1 {
      assert Breaks(lines[i], lines[i + 1]);
    }
    BodyIsClean(lines[i]);
  }
}
