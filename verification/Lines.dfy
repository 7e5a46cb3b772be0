/** Rebuilding lines from chunks that may be cut anywhere:
    `BaseSSHClient._read_output_buffer` and the `find_eol` it calls. */
module Lines {
  import opened Octets

  ghost predicate NoLf(s: Bytes, from: int, to: int) {
    forall k :: 0 <= from <= k < to <= |s| ==> s[k] != LF
  }

  // ----- The library call -----

  /** `find_eol(data, pos)`: the offset from `pos` of the end of the line, and the length
      of its separator.  A CR directly before the LF counts as part of the separator only
      when it lies in the slice that is searched.  The offset is -1 when there is no LF. */
  function FindEol(data: Bytes, pos: nat): (r: (int, nat))
    requires pos <= |data|
    ensures r.0 == -1 ==> NoLf(data, pos, |data|)
    ensures r.0 != -1 ==>
              var j := pos + r.0 + r.1 - 1;
              && 0 <= r.0 && 1 <= r.1 <= 2 && j < |data|
              && data[j] == LF && NoLf(data, pos, j)
              && (r.1 == 2 <==> pos < j && data[j - 1] == CR)
  {
    var j := FirstLf(data, pos);
    if j == |data| then (-1, 0)
    else if j > pos && data[j - 1] == CR then (j - 1 - pos, 2)
    else (j - pos, 1)
  }

  function FirstLf(s: Bytes, from: nat): (j: nat)
    requires from <= |s|
    ensures from <= j <= |s| && NoLf(s, from, j)
    ensures j < |s| ==> s[j] == LF
    decreases |s| - from
  {
    if from == |s| || s[from] == LF then from else FirstLf(s, from + 1)
  }

  // ----- What the reader is meant to yield -----

  datatype Scan = Scan(lines: seq<Bytes>, start: nat)

  /** The line `s[start..j]` ended by the LF at `j`.  Its trailing CR is dropped, unless the
      stream was cut between that CR and the LF. */
  function Line(s: Bytes, cuts: set<nat>, start: nat, j: nat): Bytes
    requires start <= j <= |s|
  {
    if start < j && s[j - 1] == CR && j !in cuts then s[start..j - 1] else s[start..j]
  }

  /** Octet by octet: the lines completed within `s[..n]`, and where the open line starts. */
  function Split(s: Bytes, cuts: set<nat>, n: nat): (r: Scan)
    requires n <= |s|
    ensures r.start <= n && NoLf(s, r.start, n)
    ensures r.start == 0 || s[r.start - 1] == LF
  {
    if n == 0 then Scan([], 0)
    else
      var p := Split(s, cuts, n - 1);
      if s[n - 1] == LF then Scan(p.lines + [Line(s, cuts, p.start, n - 1)], n) else p
  }

  /** Every line of a whole stream; an unterminated last one only if it is not empty. */
  function AllLines(s: Bytes, cuts: set<nat>): seq<Bytes> {
    var r := Split(s, cuts, |s|);
    r.lines + if r.start < |s| then [s[r.start..]] else []
  }

  /** The offsets of the stream at which a chunk starts. */
  function Cuts(chunks: seq<Bytes>): set<nat> {
    set i | 0 <= i < |chunks| :: |Concat(chunks[..i])|
  }

  // ----- Moving over the stream -----

  lemma {:induction false} SplitSkip(s: Bytes, cuts: set<nat>, a: nat, b: nat)
    requires a <= b <= |s| && NoLf(s, a, b)
    ensures Split(s, cuts, b) == Split(s, cuts, a)
  {
    if a < b {
      SplitSkip(s, cuts, a, b - 1);
    }
  }

  lemma SplitAtLf(s: Bytes, cuts: set<nat>, a: nat, j: nat)
    requires a <= j < |s| && NoLf(s, a, j) && s[j] == LF
    ensures var p := Split(s, cuts, a);
            Split(s, cuts, j + 1) == Scan(p.lines + [Line(s, cuts, p.start, j)], j + 1)
  {
    SplitSkip(s, cuts, a, j);
  }

  /** Lines already found do not depend on what follows, nor on later cuts. */
  lemma {:induction false} SplitLocal(s: Bytes, t: Bytes, cuts: set<nat>, more: set<nat>, n: nat)
    requires n <= |s|
    requires forall c :: c in more ==> c >= n
    ensures Split(s + t, cuts + more, n) == Split(s, cuts, n)
  {
    if n > 0 {
      SplitLocal(s, t, cuts, more, n - 1);
      var p := Split(s, cuts, n - 1);
      assert (s + t)[p.start..n - 1] == s[p.start..n - 1];
      assert p.start < n - 1 ==> (s + t)[p.start..n - 2] == s[p.start..n - 2];
    }
  }

  // ----- The generator -----

  lemma {:induction false} CutsBetween(chunks: seq<Bytes>, i: nat, c: nat)
    requires i < |chunks| && |Concat(chunks[..i])| < c < |Concat(chunks[..i + 1])|
    ensures c !in Cuts(chunks)
  {
    forall k | 0 <= k < |chunks| ensures |Concat(chunks[..k])| != c {
      if k <= i {
        ConcatPrefix(chunks[..i], k);
        assert chunks[..i][..k] == chunks[..k];
      } else {
        ConcatPrefix(chunks[..k], i + 1);
        assert chunks[..k][..i + 1] == chunks[..i + 1];
      }
    }
  }

  /** What the loop holds of a stream `s` when it stands at `pos` of the chunk `data`, which
      starts at `base`: the open line is the remainder, and only whole lines were yielded. */
  ghost predicate Holds(s: Bytes, cuts: set<nat>, base: nat, data: Bytes, pos: nat, remainder: Bytes, lines: seq<Bytes>)
  {
    && pos <= |data| && base + |data| <= |s| && s[base..base + |data|] == data
    && |remainder| <= base + pos
    && Split(s, cuts, base + pos) == Scan(lines, base + pos - |remainder|)
    && remainder == s[base + pos - |remainder|..base + pos]
  }

  /** The chunk's own cut is the only one up to its end. */
  ghost predicate OneCut(cuts: set<nat>, base: nat, data: Bytes) {
    base in cuts && forall c :: base < c < base + |data| ==> c !in cuts
  }

  /** The line that the loop cuts out of the current chunk, behind the held remainder, is
      the next line of the stream. */
  lemma NextLine(s: Bytes, cuts: set<nat>, base: nat, data: Bytes, pos: nat, remainder: Bytes, lines: seq<Bytes>)
    requires Holds(s, cuts, base, data, pos, remainder, lines) && OneCut(cuts, base, data)
    requires pos < |data| && (remainder != [] ==> pos == 0)
    requires FindEol(data, pos).0 != -1
    ensures var (len, sep) := FindEol(data, pos);
            Holds(s, cuts, base, data, pos + len + sep, [], lines + [remainder + data[pos..pos + len]])
  {
    hide Line, FirstLf, FindEol, Split, OneCut, NoLf;
    var (len, sep) := FindEol(data, pos);
    var j := base + pos + len + sep - 1;
    LfShift(s, base, data, pos, j - base);
    SplitAtLf(s, cuts, base + pos, j);
    LineText(s, cuts, base, data, pos, remainder);
    assert s[j + 1..j + 1] == [];
  }

  /** Where the line ends in the stream: the CR before its LF is dropped exactly when the
      finder counts it. */
  lemma LineCut(s: Bytes, cuts: set<nat>, base: nat, data: Bytes, pos: nat, start: nat)
    requires pos < |data| && base + |data| <= |s| && s[base..base + |data|] == data
    requires start <= base + pos && (start < base + pos ==> pos == 0)
    requires OneCut(cuts, base, data) && FindEol(data, pos).0 != -1
    ensures var (len, sep) := FindEol(data, pos);
            Line(s, cuts, start, base + pos + len + sep - 1) == s[start..base + pos + len]
  {
    hide FindEol, NoLf;
    var (len, sep) := FindEol(data, pos);
    var k := pos + len + sep - 1;
    if k > pos {
      OctetAt(s, base, data, k - 1);
    }
  }

  lemma OctetAt(s: Bytes, base: nat, data: Bytes, k: nat)
    requires base + |data| <= |s| && s[base..base + |data|] == data && k < |data|
    ensures s[base + k] == data[k]
  {
    assert s[base..base + |data|][k] == s[base + k];
  }

  lemma LineText(s: Bytes, cuts: set<nat>, base: nat, data: Bytes, pos: nat, remainder: Bytes)
    requires pos < |data| && base + |data| <= |s| && s[base..base + |data|] == data
    requires |remainder| <= base + pos && remainder == s[base + pos - |remainder|..base + pos]
    requires OneCut(cuts, base, data) && (remainder != [] ==> pos == 0)
    requires FindEol(data, pos).0 != -1
    ensures var (len, sep) := FindEol(data, pos);
            Line(s, cuts, base + pos - |remainder|, base + pos + len + sep - 1)
            == remainder + data[pos..pos + len]
  {
    hide Line, FindEol, NoLf, OneCut;
    var (len, sep) := FindEol(data, pos);
    LineCut(s, cuts, base, data, pos, base + pos - |remainder|);
    SliceOfSlice(s, base, data, pos, pos + len);
    SliceJoin(s, base + pos - |remainder|, base + pos, base + pos + len);
  }

  lemma LfShift(s: Bytes, base: nat, data: Bytes, pos: nat, j: nat)
    requires base + |data| <= |s| && s[base..base + |data|] == data && pos <= j <= |data| && NoLf(data, pos, j)
    ensures NoLf(s, base + pos, base + j) && (j < |data| ==> s[base + j] == data[j])
  {
    ChunkAt(s, base, data);
  }

  lemma ChunkAt(s: Bytes, base: nat, data: Bytes)
    requires base + |data| <= |s| && s[base..base + |data|] == data
    ensures forall k :: base <= k < base + |data| ==> s[k] == data[k - base]
  {
    forall k | base <= k < base + |data| ensures s[k] == data[k - base] {
      assert s[base..base + |data|][k - base] == s[k];
    }
  }

  /** A chunk with no LF left is held back whole. */
  lemma NoNextLine(s: Bytes, cuts: set<nat>, base: nat, data: Bytes, pos: nat, remainder: Bytes, lines: seq<Bytes>)
    requires Holds(s, cuts, base, data, pos, remainder, lines)
    requires FindEol(data, pos).0 == -1
    ensures Holds(s, cuts, base, data, |data|, remainder + data[pos..], lines)
  {
    hide Split, FindEol, FirstLf, NoLf;
    LfShift(s, base, data, pos, |data|);
    SplitSkip(s, cuts, base + pos, base + |data|);
    SliceOfSlice(s, base, data, pos, |data|);
    SliceJoin(s, base + pos - |remainder|, base + pos, base + |data|);
  }

  /** Passing from one chunk to the next changes nothing. */
  lemma EnterChunk(s: Bytes, cuts: set<nat>, base: nat, data: Bytes, remainder: Bytes, lines: seq<Bytes>)
    requires base + |data| <= |s| && s[base..base + |data|] == data
    ensures Holds(s, cuts, base, [], 0, remainder, lines) <==> Holds(s, cuts, base, data, 0, remainder, lines)
    ensures Holds(s, cuts, base, data, |data|, remainder, lines)
       <==> Holds(s, cuts, base + |data|, [], 0, remainder, lines)
  {
    assert s[base..base] == [] && s[base + |data|..base + |data|] == [];
  }

  /** At the end of the stream the remainder, if any, is the last line. */
  lemma HoldsAll(s: Bytes, cuts: set<nat>, remainder: Bytes, lines: seq<Bytes>)
    requires Holds(s, cuts, |s|, [], 0, remainder, lines)
    ensures AllLines(s, cuts) == lines + if |remainder| > 0 then [remainder] else []
  {
    assert remainder == s[|s| - |remainder|..];
  }

  /** One turn of the inner loop: the new position, the new remainder, and the line
      yielded, if any. */
  function ScanOnce(data: Bytes, pos: nat, remainder: Bytes): (r: (nat, Bytes, seq<Bytes>))
    requires pos < |data|
    ensures pos < r.0 <= |data| && (r.1 != [] ==> r.0 == |data|)
  {
    var (len, sep) := FindEol(data, pos);
    if len == -1 then (|data|, remainder + data[pos..], [])
    else (pos + len + sep, [], [remainder + data[pos..pos + len]])
  }

  lemma ScanOnceHolds(s: Bytes, cuts: set<nat>, base: nat, data: Bytes, pos: nat, remainder: Bytes, lines: seq<Bytes>)
    requires Holds(s, cuts, base, data, pos, remainder, lines) && OneCut(cuts, base, data)
    requires pos < |data| && (remainder != [] ==> pos == 0)
    ensures var (pos', remainder', more) := ScanOnce(data, pos, remainder);
            Holds(s, cuts, base, data, pos', remainder', lines + more)
  {
    if FindEol(data, pos).0 == -1 {
      NoNextLine(s, cuts, base, data, pos, remainder, lines);
      assert lines + [] == lines;
    } else {
      NextLine(s, cuts, base, data, pos, remainder, lines);
    }
  }

  /** The inner loop: one chunk, behind what is held from the chunks before it. */
  method SplitChunk(ghost s: Bytes, ghost cuts: set<nat>, ghost base: nat,
                    data: Bytes, held: Bytes, yielded: seq<Bytes>)
    returns (remainder: Bytes, lines: seq<Bytes>)
    requires Holds(s, cuts, base, data, 0, held, yielded) && OneCut(cuts, base, data)
    ensures Holds(s, cuts, base, data, |data|, remainder, lines)
  {
    remainder, lines := held, yielded;
    var pos := 0;
    hide Holds, Line, Split, FirstLf;
    while pos < |data|
      invariant pos <= |data|
      invariant Holds(s, cuts, base, data, pos, remainder, lines)
      invariant remainder != [] && pos < |data| ==> pos == 0
      decreases |data| - pos
    {
      ScanOnceHolds(s, cuts, base, data, pos, remainder, lines);
      var (linesep, newLinePos) := FindEol(data, pos);
      if linesep == -1 {
        assert lines + [] == lines;
        remainder := remainder + data[pos..];
        pos := |data|;
        break;
      }
      lines := lines + [remainder + data[pos..pos + linesep]];
      remainder := [];
      pos := pos + linesep + newLinePos;
    }
  }

  /** What the outer loop holds before chunk `i`. */
  ghost predicate Between(chunks: seq<Bytes>, i: nat, remainder: Bytes, lines: seq<Bytes>) {
    && i <= |chunks|
    && Holds(Concat(chunks), Cuts(chunks), |Concat(chunks[..i])|, [], 0, remainder, lines)
  }

  lemma BetweenIs(chunks: seq<Bytes>, i: nat, remainder: Bytes, lines: seq<Bytes>)
    requires i <= |chunks|
    ensures Between(chunks, i, remainder, lines)
       <==> Holds(Concat(chunks), Cuts(chunks), |Concat(chunks[..i])|, [], 0, remainder, lines)
    ensures i == |chunks| ==> chunks[..i] == chunks
  {
  }

  lemma BetweenStart(chunks: seq<Bytes>)
    ensures Between(chunks, 0, [], [])
  {
    assert Concat(chunks)[0..0] == [];
  }

  /** The whole generator, over the chunks that iterating the buffer produced. */
  method ReadOutputBuffer(chunks: seq<Bytes>) returns (lines: seq<Bytes>)
    ensures lines == AllLines(Concat(chunks), Cuts(chunks))
  {
    hide *;
    lines := [];
    var remainder: Bytes := [];
    BetweenStart(chunks);
    for i := 0 to |chunks|
      invariant Between(chunks, i, remainder, lines)
    {
      BetweenIs(chunks, i, remainder, lines);
      ConcatStep(chunks, i);
      ghost var s, cuts, base := Concat(chunks), Cuts(chunks), |Concat(chunks[..i])|;
      EnterChunk(s, cuts, base, chunks[i], remainder, lines);
      remainder, lines := SplitChunk(s, cuts, base, chunks[i], remainder, lines);
      EnterChunk(s, cuts, base, chunks[i], remainder, lines);
      BetweenIs(chunks, i + 1, remainder, lines);
    }
    BetweenIs(chunks, |chunks|, remainder, lines);
    HoldsAll(Concat(chunks), Cuts(chunks), remainder, lines);
    if |remainder| > 0 {
      lines := lines + [remainder];
    } else {
      assert lines + [] == lines;
    }
  }

  lemma ConcatStep(chunks: seq<Bytes>, i: nat)
    requires i < |chunks|
    ensures var base := |Concat(chunks[..i])|;
            && base + |chunks[i]| == |Concat(chunks[..i + 1])| <= |Concat(chunks)|
            && Concat(chunks)[base..base + |chunks[i]|] == chunks[i]
            && OneCut(Cuts(chunks), base, chunks[i])
  {
    var base := |Concat(chunks[..i])|;
    assert chunks[..i + 1] == chunks[..i] + [chunks[i]];
    ConcatSnoc(chunks[..i], chunks[i]);
    ConcatPrefix(chunks, i + 1);
    forall c | base < c < base + |chunks[i]| ensures c !in Cuts(chunks) {
      CutsBetween(chunks, i, c);
    }
  }

  // ----- Chunking and CRLF -----

  ghost predicate CrLfAt(s: Bytes, j: int) {
    0 < j < |s| && s[j - 1] == CR && s[j] == LF
  }

  /** Two ways of cutting one stream give the same lines exactly when they agree on every
      cut that falls between a CR and its LF. */
  lemma SameLinesIff(s: Bytes, c1: set<nat>, c2: set<nat>)
    ensures AllLines(s, c1) == AllLines(s, c2)
       <==> forall j :: CrLfAt(s, j) ==> (j in c1 <==> j in c2)
  {
    SameScanIff(s, c1, c2, |s|);
    var r1, r2 := Split(s, c1, |s|), Split(s, c2, |s|);
    if AllLines(s, c1) == AllLines(s, c2) {
      assert r1.lines == AllLines(s, c1)[..|r1.lines|];
      assert r2.lines == AllLines(s, c2)[..|r2.lines|];
    }
  }

  lemma {:induction false} SameScanIff(s: Bytes, c1: set<nat>, c2: set<nat>, n: nat)
    requires n <= |s|
    ensures Split(s, c1, n).start == Split(s, c2, n).start
    ensures |Split(s, c1, n).lines| == |Split(s, c2, n).lines|
    ensures Split(s, c1, n).lines == Split(s, c2, n).lines
       <==> forall j :: CrLfAt(s, j) && j < n ==> (j in c1 <==> j in c2)
  {
    if n > 0 {
      SameScanIff(s, c1, c2, n - 1);
      var r1, r2 := Split(s, c1, n), Split(s, c2, n);
      var p1, p2 := Split(s, c1, n - 1), Split(s, c2, n - 1);
      if s[n - 1] == LF {
        var l1, l2 := Line(s, c1, p1.start, n - 1), Line(s, c2, p2.start, n - 1);
        assert r1.lines == p1.lines + [l1] && r2.lines == p2.lines + [l2];
        assert r1.lines[..|p1.lines|] == p1.lines && r2.lines[..|p2.lines|] == p2.lines;
        assert r1.lines == r2.lines <==> p1.lines == p2.lines && l1 == l2;
        assert p1.start < n - 1 <== CrLfAt(s, n - 1);
        assert l1 == l2 <==> (CrLfAt(s, n - 1) ==> (n - 1 in c1 <==> n - 1 in c2)) by {
          if CrLfAt(s, n - 1) {
            assert |s[p1.start..n - 1]| != |s[p1.start..n - 2]|;
          }
        }
      }
    }
  }

  /** For the chunks a reader really saw: cutting changes nothing exactly when no chunk
      starts with an LF that follows a CR. */
  lemma ChunkingIrrelevantIff(chunks: seq<Bytes>)
    ensures AllLines(Concat(chunks), Cuts(chunks)) == AllLines(Concat(chunks), Cuts([Concat(chunks)]))
       <==> forall j :: CrLfAt(Concat(chunks), j) ==> j !in Cuts(chunks)
  {
    SameLinesIff(Concat(chunks), Cuts(chunks), Cuts([Concat(chunks)]));
    assert [Concat(chunks)][..0] == [];
  }

  function StripCr(line: Bytes): Bytes {
    if line != [] && line[|line| - 1] == CR then StripCr(line[..|line| - 1]) else line
  }

  function StripAll(lines: seq<Bytes>): seq<Bytes> {
    seq(|lines|, i requires 0 <= i < |lines| => StripCr(lines[i]))
  }

  /** However the stream was cut, the lines are the same up to trailing CRs. */
  lemma SameLinesButCr(s: Bytes, c1: set<nat>, c2: set<nat>)
    ensures StripAll(AllLines(s, c1)) == StripAll(AllLines(s, c2))
  {
    SameScanButCr(s, c1, c2, |s|);
    var r1, r2 := Split(s, c1, |s|), Split(s, c2, |s|);
    if r1.start < |s| {
      StripAllSnoc(r1.lines, s[r1.start..]);
      StripAllSnoc(r2.lines, s[r2.start..]);
    } else {
      assert r1.lines + [] == r1.lines && r2.lines + [] == r2.lines;
    }
  }

  lemma SameLineButCr(s: Bytes, c1: set<nat>, c2: set<nat>, start: nat, j: nat)
    requires start <= j <= |s|
    ensures StripCr(Line(s, c1, start, j)) == StripCr(Line(s, c2, start, j))
  {
    if start < j && s[j - 1] == CR {
      StripsOne(s[start..j - 1]);
      assert s[start..j] == s[start..j - 1] + [CR];
    }
  }

  lemma StripsOne(line: Bytes)
    ensures StripCr(line + [CR]) == StripCr(line)
  {
    assert (line + [CR])[..|line|] == line;
  }

  lemma {:induction false} SameScanButCr(s: Bytes, c1: set<nat>, c2: set<nat>, n: nat)
    requires n <= |s|
    ensures StripAll(Split(s, c1, n).lines) == StripAll(Split(s, c2, n).lines)
    ensures Split(s, c1, n).start == Split(s, c2, n).start
  {
    hide StripCr, StripAll, Line;
    if n == 0 {
      assert Split(s, c1, 0) == Split(s, c2, 0);
    } else {
      SameScanButCr(s, c1, c2, n - 1);
      var p1, p2 := Split(s, c1, n - 1), Split(s, c2, n - 1);
      if s[n - 1] == LF {
        SameLineButCr(s, c1, c2, p1.start, n - 1);
        StripAllSnoc(p1.lines, Line(s, c1, p1.start, n - 1));
        StripAllSnoc(p2.lines, Line(s, c2, p2.start, n - 1));
      }
    }
  }

  lemma StripAllSnoc(lines: seq<Bytes>, line: Bytes)
    ensures StripAll(lines + [line]) == StripAll(lines) + [StripCr(line)]
  {
  }

  // ----- The plain split on LF -----

  /** The pieces of `s` between its LFs; one more than there are LFs. */
  function SplitOn(s: Bytes): (r: seq<Bytes>)
    ensures |r| > 0
  {
    var j := FirstLf(s, 0);
    if j == |s| then [s] else [s[..j]] + SplitOn(s[j + 1..])
  }

  function DropEmptyLast(pieces: seq<Bytes>): seq<Bytes>
    requires |pieces| > 0
  {
    var n := |pieces| - 1;
    if pieces[n] == [] then pieces[..n] else pieces
  }

  lemma FirstLfIs(s: Bytes, j: nat)
    requires j <= |s| && NoLf(s, 0, j) && (j < |s| ==> s[j] == LF)
    ensures FirstLf(s, 0) == j
  {
  }

  /** One more octet either opens a new piece or goes to the end of the last one. */
  function Extend(pieces: seq<Bytes>, b: octet): seq<Bytes>
    requires |pieces| > 0
  {
    var n := |pieces| - 1;
    if b == LF then pieces + [[]] else pieces[..n] + [pieces[n] + [b]]
  }

  lemma ExtendCons(piece: Bytes, pieces: seq<Bytes>, b: octet)
    requires |pieces| > 0
    ensures Extend([piece] + pieces, b) == [piece] + Extend(pieces, b)
  {
    var n := |pieces| - 1;
    assert ([piece] + pieces)[..n + 1] == [piece] + pieces[..n];
  }

  lemma SplitOnAt(s: Bytes, j: nat)
    requires j <= |s| && NoLf(s, 0, j) && (j < |s| ==> s[j] == LF)
    ensures SplitOn(s) == if j == |s| then [s] else [s[..j]] + SplitOn(s[j + 1..])
  {
    hide FirstLf;
    FirstLfIs(s, j);
  }

  lemma SplitOnLast(s: Bytes, b: octet)
    requires NoLf(s, 0, |s|)
    ensures SplitOn(s + [b]) == Extend([s], b)
  {
    hide SplitOn;
    var t := s + [b];
    SplitOnAt(t, if b == LF then |s| else |t|);
    SplitOnAt([], 0);
    if b == LF {
      assert t[..|s|] == s;
      assert t[|s| + 1..] == [];
    } else {
      assert [s][..0] + [t] == [t];
    }
  }

  lemma {:induction false} SplitOnSnoc(s: Bytes, b: octet)
    ensures SplitOn(s + [b]) == Extend(SplitOn(s), b)
    decreases |s|
  {
    var j, t := FirstLf(s, 0), s + [b];
    if j == |s| {
      SplitOnLast(s, b);
    } else {
      SplitOnSnoc(s[j + 1..], b);
      FirstLfIs(t, j);
      assert t[..j] == s[..j] && t[j + 1..] == s[j + 1..] + [b];
      ExtendCons(s[..j], SplitOn(s[j + 1..]), b);
    }
  }

  function Everywhere(s: Bytes): (cuts: set<nat>)
    ensures forall j :: CrLfAt(s, j) ==> j in cuts
  {
    set j | 0 <= j < |s| && s[j] == LF
  }

  /** With a cut everywhere no CR is ever dropped: the reader is then the plain split. */
  lemma {:induction false} SplitIsSplitOn(s: Bytes, cuts: set<nat>, n: nat)
    requires n <= |s|
    requires forall j :: CrLfAt(s, j) ==> j in cuts
    ensures SplitOn(s[..n]) == Pieces(s, cuts, n)
  {
    if n > 0 {
      SplitIsSplitOn(s, cuts, n - 1);
      SplitOnSnoc(s[..n - 1], s[n - 1]);
      assert s[..n] == s[..n - 1] + [s[n - 1]];
      PiecesSnoc(s, cuts, n);
    }
  }

  function Pieces(s: Bytes, cuts: set<nat>, n: nat): (r: seq<Bytes>)
    requires n <= |s|
    ensures |r| > 0
  {
    var p := Split(s, cuts, n);
    p.lines + [s[p.start..n]]
  }

  lemma PiecesSnoc(s: Bytes, cuts: set<nat>, n: nat)
    requires 0 < n <= |s|
    requires forall j :: CrLfAt(s, j) ==> j in cuts
    ensures Pieces(s, cuts, n) == Extend(Pieces(s, cuts, n - 1), s[n - 1])
  {
    var p := Split(s, cuts, n - 1);
    var open := s[p.start..n - 1];
    assert (p.lines + [open])[..|p.lines|] == p.lines;
    if s[n - 1] == LF {
      assert p.start < n - 1 && s[n - 2] == CR ==> CrLfAt(s, n - 1);
      assert s[n..n] == [];
    } else {
      assert s[p.start..n] == open + [s[n - 1]];
    }
  }

  /** The lines are the plain split on LF, less an empty last piece, exactly when every CRLF
      of the stream has been cut in two; always so when the stream has no CRLF. */
  lemma LinesAreSplitOnIff(s: Bytes, cuts: set<nat>)
    ensures AllLines(s, cuts) == DropEmptyLast(SplitOn(s)) <==> forall j :: CrLfAt(s, j) ==> j in cuts
  {
    var all := Everywhere(s);
    SplitIsSplitOn(s, all, |s|);
    assert s[..|s|] == s;
    assert AllLines(s, all) == DropEmptyLast(SplitOn(s));
    SameLinesIff(s, cuts, all);
  }

  /** In every case they are that split up to trailing CRs. */
  lemma LinesAreSplitOnButCr(s: Bytes, cuts: set<nat>)
    ensures StripAll(AllLines(s, cuts)) == StripAll(DropEmptyLast(SplitOn(s)))
  {
    var all := Everywhere(s);
    LinesAreSplitOnIff(s, all);
    SameLinesButCr(s, cuts, all);
  }
}
