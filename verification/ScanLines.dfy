/** The line splitter of the installation output (`ScanLines` in
    pkg/console/util.go) under `bufio.Scanner`, for every way the stream may
    arrive in pieces. */
module ScanLines {
  import opened Wrappers

  type Bytes = seq<char>

  const CR: char := '\r'
  const LF: char := '\n'

  predicate IsTerminator(c: char) {
    c == CR || c == LF
  }

  /** No terminator among these bytes. */
  predicate Plain(data: Bytes) {
    Without(data, CR) && Without(data, LF)
  }

  predicate Without(data: Bytes, c: char) {
    forall i :: 0 <= i < |data| ==> data[i] != c
  }

  /** `bytes.IndexByte`; None when the byte is absent. */
  function IndexByte(data: Bytes, c: char): (i: Option<nat>)
    ensures i.Some? ==> i.value < |data| && data[i.value] == c && Without(data[..i.value], c)
    ensures i.None? ==> Without(data, c)
  {
    if data == [] then None
    else if data[0] == c then Some(0)
    else match IndexByte(data[1..], c)
      case None => None
      case Some(i) => assert data[..i + 1] == [data[0]] + data[1..][..i]; Some(i + 1)
  }

  function DropCR(data: Bytes): Bytes {
    if |data| > 0 && data[|data| - 1] == CR then data[..|data| - 1] else data
  }

  /** Result of one `ScanLines` call: how far to advance, and the token if there
      is one. */
  datatype Split = Split(advance: nat, token: Option<Bytes>)

  function ScanLines(data: Bytes, atEOF: bool): Split {
    if atEOF && |data| == 0 then Split(0, None)
    else match IndexByte(data, CR)
      case Some(i) => Split(i + 1, Some(DropCR(data[..i])))
      case None =>
        match IndexByte(data, LF)
        case Some(i) => Split(i + 1, Some(DropCR(data[..i])))
        case None => if atEOF then Split(|data|, Some(DropCR(data))) else Split(0, None)
  }

  /** A call that yields a token takes at least one byte and at most what there
      is; the token is what it takes, less the one terminator byte. A CR anywhere
      in the data ends the token, even after an LF. */
  lemma ScanLinesProgress(data: Bytes, atEOF: bool)
    ensures var r := ScanLines(data, atEOF);
      match r.token
      case None => r.advance == 0 && Plain(data) && (atEOF ==> data == [])
      case Some(token) =>
        && 0 < r.advance <= |data|
        && Without(token, CR)
        && if Plain(data) then
             atEOF && token == data && r.advance == |data|
           else
             && token == data[..r.advance - 1]
             && IsTerminator(data[r.advance - 1])
             && (!Without(token, LF) || !Without(data, CR) ==> data[r.advance - 1] == CR)
  {
    var cr, lf := IndexByte(data, CR), IndexByte(data, LF);
    if cr.None? && lf.Some? {
      assert Without(data[..lf.value], CR);
    }
  }

  /** One token and the bytes it stands for in the stream. */
  datatype Line = Line(token: Bytes, terminator: Bytes) {
    function Bytes(): Bytes {
      token + terminator
    }
  }

  function Concat(lines: seq<Line>): Bytes {
    if lines == [] then [] else lines[0].Bytes() + Concat(lines[1..])
  }

  function Flatten(chunks: seq<Bytes>): Bytes {
    if chunks == [] then [] else chunks[0] + Flatten(chunks[1..])
  }

  /** `Scanner.Scan` to exhaustion, after `buffer` has arrived and with `chunks`
      still to be read: the buffer is offered to `ScanLines`, and the next piece
      is read only when that wants more data. */
  function Scan(buffer: Bytes, chunks: seq<Bytes>): seq<Line>
    decreases |chunks|, |buffer|
  {
    var r := ScanLines(buffer, chunks == []);
    ScanLinesProgress(buffer, chunks == []);
    if r.token.Some? then
      [Line(r.token.value, buffer[|r.token.value|..r.advance])] + Scan(buffer[r.advance..], chunks)
    else if chunks == [] then []
    else Scan(buffer + chunks[0], chunks[1..])
  }

  lemma Assoc(a: Bytes, b: Bytes, c: Bytes)
    ensures (a + b) + c == a + (b + c)
  {
  }

  /** One step of a scan, seen from outside. */
  lemma ScanStep(buffer: Bytes, chunks: seq<Bytes>) returns (line: Line, rest: Bytes)
    requires ScanLines(buffer, chunks == []).token.Some?
    ensures Scan(buffer, chunks) == [line] + Scan(rest, chunks)
    ensures line.Bytes() + rest == buffer && |rest| < |buffer|
    ensures Without(line.token, CR)
    ensures if Plain(buffer) then line == Line(buffer, []) && chunks == []
            else |line.terminator| == 1 && IsTerminator(line.terminator[0])
                 && (!Without(line.token, LF) || !Without(buffer, CR) ==> line.terminator == [CR])
  {
    line, rest := CutLine(buffer, chunks == []);
    ScanUnfolds(buffer, chunks);
  }

  /** The line one call cuts off, and what it leaves. */
  lemma CutLine(buffer: Bytes, atEOF: bool) returns (line: Line, rest: Bytes)
    requires ScanLines(buffer, atEOF).token.Some?
    ensures var r := ScanLines(buffer, atEOF);
      && |r.token.value| <= r.advance <= |buffer|
      && line == Line(r.token.value, buffer[|r.token.value|..r.advance]) && rest == buffer[r.advance..]
    ensures line.Bytes() + rest == buffer && |rest| < |buffer|
    ensures Without(line.token, CR)
    ensures if Plain(buffer) then line == Line(buffer, []) && atEOF
            else |line.terminator| == 1 && IsTerminator(line.terminator[0])
                 && (!Without(line.token, LF) || !Without(buffer, CR) ==> line.terminator == [CR])
  {
    var r := ScanLines(buffer, atEOF);
    ScanLinesProgress(buffer, atEOF);
    line, rest := Line(r.token.value, buffer[|r.token.value|..r.advance]), buffer[r.advance..];
  }

  lemma ScanUnfolds(buffer: Bytes, chunks: seq<Bytes>)
    requires ScanLines(buffer, chunks == []).token.Some?
    ensures var r := ScanLines(buffer, chunks == []);
      && |r.token.value| <= r.advance <= |buffer|
      && Scan(buffer, chunks) ==
           [Line(r.token.value, buffer[|r.token.value|..r.advance])] + Scan(buffer[r.advance..], chunks)
  {
    ScanLinesProgress(buffer, chunks == []);
  }

  lemma ScanReads(buffer: Bytes, chunks: seq<Bytes>)
    requires ScanLines(buffer, chunks == []).token.None?
    ensures Plain(buffer)
    ensures chunks == [] ==> buffer == [] && Scan(buffer, chunks) == []
    ensures chunks != [] ==> Scan(buffer, chunks) == Scan(buffer + chunks[0], chunks[1..])
  {
    ScanLinesProgress(buffer, chunks == []);
  }

  lemma ConcatCons(line: Line, lines: seq<Line>)
    ensures Concat([line] + lines) == line.Bytes() + Concat(lines)
  {
    assert ([line] + lines)[1..] == lines;
  }

  /** Nothing is lost and nothing invented: tokens with their terminators put
      back are the stream, whatever the pieces it came in. */
  lemma {:induction false} Reassembles(buffer: Bytes, chunks: seq<Bytes>)
    ensures Concat(Scan(buffer, chunks)) == buffer + Flatten(chunks)
    decreases |chunks|, |buffer|
  {
    if ScanLines(buffer, chunks == []).token.Some? {
      var line, rest := ScanStep(buffer, chunks);
      Reassembles(rest, chunks);
      ConcatCons(line, Scan(rest, chunks));
      Assoc(line.Bytes(), rest, Flatten(chunks));
    } else {
      ScanReads(buffer, chunks);
      if chunks != [] {
        Reassembles(buffer + chunks[0], chunks[1..]);
        Assoc(buffer, chunks[0], Flatten(chunks[1..]));
      }
    }
  }

  /** The shape of every scan: no token holds a CR, each line but possibly the
      last gave up exactly one terminator byte, and an unterminated last line is
      not empty. */
  ghost predicate WellCut(lines: seq<Line>) {
    && (forall line <- lines :: Without(line.token, CR))
    && forall i :: 0 <= i < |lines| ==>
         if |lines[i].terminator| == 1 then IsTerminator(lines[i].terminator[0])
         else i == |lines| - 1 && lines[i].terminator == [] && lines[i].token != []
  }

  lemma {:induction false} ScanIsWellCut(buffer: Bytes, chunks: seq<Bytes>)
    ensures WellCut(Scan(buffer, chunks))
    decreases |chunks|, |buffer|
  {
    if ScanLines(buffer, chunks == []).token.Some? {
      var line, rest := ScanStep(buffer, chunks);
      ScanIsWellCut(rest, chunks);
      if Plain(buffer) {
        assert line.Bytes() == buffer;
      }
    } else {
      ScanReads(buffer, chunks);
      if chunks != [] {
        ScanIsWellCut(buffer + chunks[0], chunks[1..]);
      }
    }
  }

  // ----- When the pieces do not matter

  /** The cut at every terminator, defined without buffers. */
  function CutAll(stream: Bytes): seq<Line> {
    if stream == [] then []
    else if IsTerminator(stream[0]) then [Line([], [stream[0]])] + CutAll(stream[1..])
    else
      var rest := CutAll(stream[1..]);
      if rest == [] then [Line([stream[0]], [])]
      else [Line([stream[0]] + rest[0].token, rest[0].terminator)] + rest[1..]
  }

  ghost predicate LFBeforeCR(stream: Bytes) {
    exists i, j :: 0 <= i < j < |stream| && stream[i] == LF && stream[j] == CR
  }

  lemma {:induction false} CutAllFirst(stream: Bytes, k: nat)
    requires k < |stream| && IsTerminator(stream[k])
    requires Plain(stream[..k])
    ensures CutAll(stream) == [Line(stream[..k], [stream[k]])] + CutAll(stream[k + 1..])
  {
    if k > 0 {
      assert stream[..k] == [stream[0]] + stream[1..][..k - 1];
      assert stream[..k][0] == stream[0];
      CutAllFirst(stream[1..], k - 1);
      assert stream[1..][k..] == stream[k + 1..];
    }
  }

  lemma {:induction false} CutAllLast(stream: Bytes)
    requires Plain(stream) && stream != []
    ensures CutAll(stream) == [Line(stream, [])]
  {
    var rest := stream[1..];
    if rest == [] {
      assert stream == [stream[0]];
    } else {
      CutAllLast(rest);
      assert [stream[0]] + rest == stream;
    }
  }

  lemma LFBeforeCRSuffix(stream: Bytes, k: nat)
    requires k <= |stream| && LFBeforeCR(stream[k..])
    ensures LFBeforeCR(stream)
  {
    var rest := stream[k..];
    var i, j :| 0 <= i < j < |rest| && rest[i] == LF && rest[j] == CR;
    assert stream[k + i] == LF && stream[k + j] == CR;
  }

  lemma FirstCut(line: Line, rest: Bytes, buffer: Bytes, later: Bytes)
    requires line.Bytes() + rest == buffer && Without(line.token, CR)
    requires |line.terminator| == 1 && IsTerminator(line.terminator[0])
    requires !Without(line.token, LF) ==> line.terminator == [CR]
    requires !LFBeforeCR(buffer + later)
    ensures CutAll(buffer + later) == [line] + CutAll(rest + later) && !LFBeforeCR(rest + later)
  {
    var stream, k := buffer + later, |line.token|;
    assert stream[..k] == line.token && stream[k] == line.terminator[0];
    assert stream[k + 1..] == rest + later;
    assert line == Line(stream[..k], [stream[k]]);
    CutAllFirst(stream, k);
    if LFBeforeCR(stream[k + 1..]) {
      LFBeforeCRSuffix(stream, k + 1);
    }
  }

  /** As long as no line feed comes before a carriage return, every arrival of
      the stream is cut at every terminator. */
  lemma {:induction false} ScanCutsAll(buffer: Bytes, chunks: seq<Bytes>)
    requires !LFBeforeCR(buffer + Flatten(chunks))
    ensures Scan(buffer, chunks) == CutAll(buffer + Flatten(chunks))
    decreases |chunks|, |buffer|
  {
    var stream := buffer + Flatten(chunks);
    if ScanLines(buffer, chunks == []).token.None? {
      ScanReads(buffer, chunks);
      if chunks != [] {
        Assoc(buffer, chunks[0], Flatten(chunks[1..]));
        ScanCutsAll(buffer + chunks[0], chunks[1..]);
      }
    } else {
      var line, rest := ScanStep(buffer, chunks);
      if Plain(buffer) {
        assert stream == buffer;
        CutAllLast(buffer);
        ScanNothing(rest);
      } else {
        FirstCut(line, rest, buffer, Flatten(chunks));
        ScanCutsAll(rest, chunks);
      }
    }
  }

  lemma ScanNothing(rest: Bytes)
    requires rest == []
    ensures Scan(rest, []) == []
  {
  }

  /** Fed one byte at a time, every stream is cut at every terminator. */
  function Bytewise(stream: Bytes): seq<Bytes> {
    if stream == [] then [] else [[stream[0]]] + Bytewise(stream[1..])
  }

  lemma {:induction false} FlattenBytewise(stream: Bytes)
    ensures Flatten(Bytewise(stream)) == stream && |Bytewise(stream)| == |stream|
  {
    if stream != [] {
      FlattenBytewise(stream[1..]);
      assert Bytewise(stream)[1..] == Bytewise(stream[1..]);
    }
  }

  /** The buffer never holds more than one terminator, so the cut is always at
      the first one. */
  lemma {:induction false} BytewiseCutsAll(buffer: Bytes, stream: Bytes)
    requires Plain(buffer)
    ensures Scan(buffer, Bytewise(stream)) == CutAll(buffer + stream)
    decreases |stream|
  {
    if stream == [] {
      assert buffer + stream == buffer;
      if buffer != [] {
        CutAllLast(buffer);
        var line, rest := ScanStep(buffer, []);
        ScanNothing(rest);
      }
    } else {
      var next := buffer + [stream[0]];
      BytewiseStep(buffer, stream);
      assert buffer + stream == next + stream[1..];
      if IsTerminator(stream[0]) {
        assert [] + stream[1..] == stream[1..];
        BytewiseCutsAll([], stream[1..]);
        CutOneTerminator(buffer, stream[0], Bytewise(stream[1..]));
        var k := |buffer|;
        assert (buffer + stream)[..k] == buffer && (buffer + stream)[k + 1..] == stream[1..];
        CutAllFirst(buffer + stream, k);
      } else {
        BytewiseCutsAll(next, stream[1..]);
      }
    }
  }

  lemma BytewiseStep(buffer: Bytes, stream: Bytes)
    requires Plain(buffer) && stream != []
    ensures Scan(buffer, Bytewise(stream)) == Scan(buffer + [stream[0]], Bytewise(stream[1..]))
  {
    ScanLinesProgress(buffer, false);
    assert Bytewise(stream)[1..] == Bytewise(stream[1..]);
  }

  lemma CutOneTerminator(buffer: Bytes, terminator: char, chunks: seq<Bytes>)
    requires Plain(buffer) && IsTerminator(terminator)
    ensures Scan(buffer + [terminator], chunks) == [Line(buffer, [terminator])] + Scan([], chunks)
  {
    var next := buffer + [terminator];
    ScanLinesProgress(next, chunks == []);
    assert next[|buffer|] == terminator;
    var line, rest := ScanStep(next, chunks);
    OnlyTerminator(line, rest, buffer, terminator);
  }

  lemma OnlyTerminator(line: Line, rest: Bytes, buffer: Bytes, terminator: char)
    requires Plain(buffer) && line.Bytes() + rest == buffer + [terminator]
    requires |line.terminator| == 1 && IsTerminator(line.terminator[0])
    ensures line == Line(buffer, [terminator]) && rest == []
  {
    var next, k := buffer + [terminator], |line.token|;
    assert (line.Bytes() + rest)[k] == line.terminator[0];
    assert next[..k] == line.token;
  }

  ghost predicate SomeTokenHoldsLF(lines: seq<Line>) {
    exists line <- lines :: !Without(line.token, LF)
  }

  lemma {:induction false} CutAllTokens(stream: Bytes)
    ensures !SomeTokenHoldsLF(CutAll(stream))
  {
    if stream != [] {
      CutAllTokens(stream[1..]);
    }
  }

  /** Read in one piece, a stream with a line feed before a carriage return
      yields a token with that line feed inside. */
  lemma {:induction false} WholeKeepsLF(stream: Bytes)
    requires LFBeforeCR(stream)
    ensures SomeTokenHoldsLF(Scan(stream, []))
    decreases |stream|
  {
    var line, rest := CutAtCR(stream);
    LFOfFirstLine(stream, line, rest);
    if Without(line.token, LF) {
      WholeKeepsLF(rest);
    }
    FirstOrLater(line, Scan(rest, []));
  }

  lemma CutAtCR(stream: Bytes) returns (line: Line, rest: Bytes)
    requires LFBeforeCR(stream)
    ensures Scan(stream, []) == [line] + Scan(rest, [])
    ensures line.Bytes() + rest == stream && line.terminator == [CR] && |rest| < |stream|
  {
    ScanLinesProgress(stream, true);
    line, rest := ScanStep(stream, []);
  }

  lemma LFOfFirstLine(stream: Bytes, line: Line, rest: Bytes)
    requires LFBeforeCR(stream) && line.Bytes() + rest == stream && line.terminator == [CR]
    ensures Without(line.token, LF) ==> LFBeforeCR(rest)
  {
    var i, j :| 0 <= i < j < |stream| && stream[i] == LF && stream[j] == CR;
    PiecesOf(stream, line, rest);
    var k := |line.token|;
    if i < k {
      assert line.token[i] == LF;
    } else {
      assert rest[i - k - 1] == LF && rest[j - k - 1] == CR;
    }
  }

  lemma PiecesOf(stream: Bytes, line: Line, rest: Bytes)
    requires line.Bytes() + rest == stream && |line.terminator| == 1
    ensures var k := |line.token|;
      k < |stream| && stream[k] == line.terminator[0] && stream[..k] == line.token && stream[k + 1..] == rest
  {
  }

  lemma FirstOrLater(line: Line, lines: seq<Line>)
    requires !Without(line.token, LF) || SomeTokenHoldsLF(lines)
    ensures SomeTokenHoldsLF([line] + lines)
  {
    if !Without(line.token, LF) {
      assert line in [line] + lines;
    } else {
      var deeper :| deeper in lines && !Without(deeper.token, LF);
      assert deeper in [line] + lines;
    }
  }

  ghost predicate IndependentOfArrival(stream: Bytes) {
    forall one, other :: Flatten(one) == stream && Flatten(other) == stream ==> Scan([], one) == Scan([], other)
  }

  /** The lines do not depend on how the stream arrives if and only if no line
      feed of the stream comes before a carriage return. */
  lemma LinesIndependentOfArrival(stream: Bytes)
    ensures IndependentOfArrival(stream) <==> !LFBeforeCR(stream)
  {
    if LFBeforeCR(stream) {
      TwoArrivalsDiffer(stream);
    } else {
      forall one | Flatten(one) == stream
        ensures Scan([], one) == CutAll(stream)
      {
        assert [] + Flatten(one) == stream;
        ScanCutsAll([], one);
      }
    }
  }

  lemma WholeArrival(stream: Bytes)
    ensures Flatten([stream]) == stream && Scan([], [stream]) == Scan(stream, [])
  {
    ScanLinesProgress([], false);
    assert [stream][1..] == [];
    ScanReads([], [stream]);
    assert [] + stream == stream;
  }

  lemma BytewiseDiffers(stream: Bytes)
    requires LFBeforeCR(stream)
    ensures Scan([], [stream]) != Scan([], Bytewise(stream))
  {
    WholeArrival(stream);
    WholeKeepsLF(stream);
    CutAllTokens(stream);
    BytewiseCutsAll([], stream);
    assert [] + stream == stream;
  }

  lemma TwoArrivalsDiffer(stream: Bytes)
    requires LFBeforeCR(stream)
    ensures !IndependentOfArrival(stream)
  {
    BytewiseDiffers(stream);
    WholeArrival(stream);
    FlattenBytewise(stream);
  }
}
