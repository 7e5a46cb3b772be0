/** Writing through partial writes and EAGAIN: `_eagain_write_errcode`, the uploads and the
    tunnel on top of it, and several greenlets writing to one shell channel. */
module Writes {
  import opened Distinct
  import opened Octets

  // ----- One writer -----

  /** How the channel answers one call: it takes at most `most` octets, and may report EAGAIN. */
  datatype Answer = Answer(most: nat, again: bool)

  /** The far end of a channel or of a remote file.  It gives the listed answers, with any
      number of refusals among them, and then accepts whatever it is given. */
  class Sink {
    var received: Bytes
    var answers: seq<Answer>

    constructor (answers: seq<Answer>)
      ensures received == [] && this.answers == answers
    {
      this.received, this.answers := [], answers;
    }

    method Write(data: Bytes) returns (again: bool, n: nat)
      modifies this
      ensures n <= |data| && received == old(received) + data[..n]
      ensures old(answers) == [] ==> n == |data| && answers == []
      ensures old(answers) != [] ==> answers == old(answers)[1..]
    {
      if answers == [] {
        again, n := false, |data|;
      } else {
        again, n := answers[0].again, if answers[0].most < |data| then answers[0].most else |data|;
        answers := answers[1..];
      }
      received := received + data[..n];
    }
  }

  /** Every octet arrives once and in order, whatever the channel takes at a time. */
  method EagainWrite(sink: Sink, data: Bytes)
    modifies sink
    ensures sink.received == old(sink.received) + data
  {
    var total := 0;
    while total < |data|
      invariant total <= |data|
      invariant sink.received == old(sink.received) + data[..total]
      decreases |sink.answers|, |data| - total
    {
      var again, n := sink.Write(data[total..]);
      assert data[..total] + data[total..][..n] == data[..total + n];
      total := total + n;
    }
  }

  const BUF_SIZE := 2048 * 1024

  class LocalFile {
    const contents: Bytes
    var pos: nat

    constructor (contents: Bytes)
      ensures this.contents == contents && pos == 0
    {
      this.contents, pos := contents, 0;
    }

    /** Up to `size` octets; none only at the end. */
    method Read(size: nat) returns (data: Bytes)
      requires pos <= |contents|
      modifies this
      ensures old(pos) <= pos <= |contents| && data == contents[old(pos)..pos]
      ensures data == [] <==> size == 0 || old(pos) == |contents|
    {
      var end := if pos + size < |contents| then pos + size else |contents|;
      data := contents[pos..end];
      pos := end;
    }
  }

  /** `_sftp_put`, and the loop of `_scp_send`: the remote end gets the file, block by block. */
  method Put(sink: Sink, file: LocalFile)
    requires file.pos == 0
    modifies sink, file
    ensures sink.received == old(sink.received) + file.contents
  {
    var data := file.Read(BUF_SIZE);
    while data != []
      invariant |data| <= file.pos <= |file.contents| && data == file.contents[file.pos - |data|..file.pos]
      invariant sink.received == old(sink.received) + file.contents[..file.pos - |data|]
      invariant data == [] ==> file.pos == |file.contents|
      decreases |file.contents| - file.pos + |data|
    {
      assert file.contents[..file.pos - |data|] + data == file.contents[..file.pos];
      EagainWrite(sink, data);
      data := file.Read(BUF_SIZE);
    }
  }

  // ----- The tunnel -----

  const RECV_SIZE := 1024

  /** `_read_forward_sock`: `taken` is all that was received from the socket, `block` the last
      of it, of which `total` octets have been written to the channel. */
  datatype Relay = Relay(taken: Bytes, block: Bytes, total: nat, channel: Bytes)

  datatype RelayEvent = Recv(data: Bytes) | Accept(n: nat)

  ghost predicate RelayStep(r: Relay, e: RelayEvent, r': Relay) {
    && r.total <= |r.block|
    && match e
       case Recv(data) =>
         && r.total == |r.block| && |data| <= RECV_SIZE
         && r' == Relay(r.taken + data, data, 0, r.channel)
       case Accept(n) =>
         && r.total < |r.block| && r.total + n <= |r.block|
         && r' == r.(channel := r.channel + r.block[r.total..r.total + n], total := r.total + n)
  }

  ghost predicate RelayRun(r: Relay, es: seq<RelayEvent>, rs: seq<Relay>) {
    && |rs| == |es| + 1 && rs[0] == r
    && forall k {:trigger es[k]} :: 0 <= k < |es| ==> RelayStep(rs[k], es[k], rs[k + 1])
  }

  ghost predicate InHand(r: Relay) {
    && r.total <= |r.block| <= RECV_SIZE
    && r.channel + r.block[r.total..] == r.taken
    && r.total <= |r.channel| && r.channel[|r.channel| - r.total..] == r.block[..r.total]
  }

  /** At every step the channel has a prefix of the socket's octets, and lacks no more than
      the block in hand. */
  lemma {:induction false} RelayInOrder(es: seq<RelayEvent>, rs: seq<Relay>, k: nat)
    requires RelayRun(Relay([], [], 0, []), es, rs) && k < |rs|
    ensures InHand(rs[k])
    ensures rs[k].channel <= rs[k].taken && |rs[k].taken| - |rs[k].channel| <= 1024
  {
    if k > 0 {
      RelayInOrder(es, rs, k - 1);
      assert RelayStep(rs[k - 1], es[k - 1], rs[k]);
      StepInHand(rs[k - 1], es[k - 1], rs[k]);
    }
    hide RelayRun, RelayStep;
    LacksBlock(rs[k]);
  }

  lemma StepInHand(r: Relay, e: RelayEvent, r': Relay)
    requires InHand(r) && RelayStep(r, e, r')
    ensures InHand(r')
  {
    match e {
      case Accept(n) =>
        SliceJoin(r.block, r.total, r.total + n, |r.block|);
        Append(r.channel, r.block[r.total..r.total + n], r.block[r.total + n..]);
      case Recv(data) =>
        assert r.block[r.total..] == [] && data[0..] == data;
        assert r.channel + [] == r.channel;
    }
  }

  lemma LacksBlock(r: Relay)
    requires InHand(r)
    ensures r.channel <= r.taken && |r.taken| - |r.channel| <= RECV_SIZE
  {
  }

  lemma {:induction false} RunExtended(r: Relay, es: seq<RelayEvent>, rs: seq<Relay>, e: RelayEvent, r': Relay)
    requires RelayRun(r, es, rs) && RelayStep(rs[|es|], e, r')
    ensures RelayRun(r, es + [e], rs + [r'])
  {
    var es', rs' := es + [e], rs + [r'];
    forall k {:trigger es'[k]} | 0 <= k < |es'| ensures RelayStep(rs'[k], es'[k], rs'[k + 1]) {
      if k < |es| {
        assert RelayStep(rs[k], es[k], rs[k + 1]);
      }
    }
  }

  /** Whatever blocks come from the socket, and whatever the channel takes of each at first,
      there is a run that passes them all on. */
  lemma {:induction false} RelayDelivers(blocks: seq<Bytes>, firsts: seq<nat>)
    returns (es: seq<RelayEvent>, rs: seq<Relay>)
    requires |firsts| == |blocks|
    requires forall k :: 0 <= k < |blocks| ==> 0 < |blocks[k]| <= 1024 && firsts[k] < |blocks[k]|
    ensures RelayRun(Relay([], [], 0, []), es, rs)
    ensures var last := rs[|rs| - 1];
            last.taken == last.channel == Concat(blocks) && last.total == |last.block|
    ensures |es| == 3 * |blocks|
  {
    if blocks == [] {
      es, rs := [], [Relay([], [], 0, [])];
    } else {
      var n := |blocks| - 1;
      es, rs := RelayDelivers(blocks[..n], firsts[..n]);
      var block, first, last := blocks[n], firsts[n], rs[|rs| - 1];
      var r1 := Relay(last.taken + block, block, 0, last.channel);
      var r2 := Relay(r1.taken, block, first, r1.channel + block[0..first]);
      var r3 := Relay(r1.taken, block, |block|, r2.channel + block[first..|block|]);
      SliceJoin(block, 0, first, |block|);
      Append(last.channel, block[0..first], block[first..|block|]);
      assert block[0..|block|] == block;
      RunExtended(Relay([], [], 0, []), es, rs, Recv(block), r1);
      RunExtended(Relay([], [], 0, []), es + [Recv(block)], rs + [r1], Accept(first), r2);
      es, rs := es + [Recv(block)] + [Accept(first)], rs + [r1] + [r2];
      RunExtended(Relay([], [], 0, []), es, rs, Accept(|block| - first), r3);
      es, rs := es + [Accept(|block| - first)], rs + [r3];
    }
  }

  /** The states that a run can come to are exactly those with all but the rest of the block in
      the channel. */
  lemma RelayReachesIff(r: Relay)
    ensures (exists es, rs :: RelayRun(Relay([], [], 0, []), es, rs) && rs[|rs| - 1] == r) <==> InHand(r)
  {
    if es, rs :| RelayRun(Relay([], [], 0, []), es, rs) && rs[|rs| - 1] == r {
      RelayInOrder(es, rs, |rs| - 1);
    }
    if InHand(r) {
      var es, rs := RelayReaches(r);
      assert RelayRun(Relay([], [], 0, []), es, rs) && rs[|rs| - 1] == r;
    }
  }

  lemma RelayReaches(r: Relay) returns (es: seq<RelayEvent>, rs: seq<Relay>)
    requires InHand(r)
    ensures RelayRun(Relay([], [], 0, []), es, rs) && rs[|rs| - 1] == r
  {
    var before := r.channel[..|r.channel| - r.total];
    es, rs := RelayOctets(before);
    var r1 := Relay(before + r.block, r.block, 0, before);
    BlockComes(r, rs[|rs| - 1], before);
    hide InHand, RelayStep;
    RunExtended(Relay([], [], 0, []), es, rs, Recv(r.block), r1);
    es, rs := es + [Recv(r.block)], rs + [r1];
    if r.total > 0 {
      RunExtended(Relay([], [], 0, []), es, rs, Accept(r.total), r);
      es, rs := es + [Accept(r.total)], rs + [r];
    }
  }

  lemma BlockComes(r: Relay, r0: Relay, before: Bytes)
    requires InHand(r) && before == r.channel[..|r.channel| - r.total]
    requires r0.taken == r0.channel == before && r0.total == |r0.block|
    ensures var r1 := Relay(before + r.block, r.block, 0, before);
            && RelayStep(r0, Recv(r.block), r1)
            && if r.total > 0 then RelayStep(r1, Accept(r.total), r) else r1 == r
  {
    assert r.channel == before + r.block[..r.total];
    assert r.block == r.block[..r.total] + r.block[r.total..];
    Append(before, r.block[..r.total], r.block[r.total..]);
    assert r.block[0..r.total] == r.block[..r.total];
  }

  lemma {:induction false} RelayOctets(data: Bytes) returns (es: seq<RelayEvent>, rs: seq<Relay>)
    ensures RelayRun(Relay([], [], 0, []), es, rs)
    ensures var last := rs[|rs| - 1];
            last.taken == last.channel == data && last.total == |last.block|
  {
    if data == [] {
      es, rs := [], [Relay([], [], 0, [])];
    } else {
      var n := |data| - 1;
      es, rs := RelayOctets(data[..n]);
      assert data[..n] + [data[n]] == data && [data[n]][0..1] == [data[n]];
      var r1, r2 := Relay(data, [data[n]], 0, data[..n]), Relay(data, [data[n]], 1, data);
      RunExtended(Relay([], [], 0, []), es, rs, Recv([data[n]]), r1);
      RunExtended(Relay([], [], 0, []), es + [Recv([data[n]])], rs + [r1], Accept(1), r2);
      es, rs := es + [Recv([data[n]])] + [Accept(1)], rs + [r1] + [r2];
    }
  }

  // ----- Several writers on one shell -----

  /** One greenlet running `shell.run(cmd)`; `data` is the command and its newline. */
  datatype Writer = Writer(data: Bytes, written: nat)

  /** `pieces` are the accepted pieces, each with the number of its writer. */
  datatype Shell = Shell(writers: seq<Writer>, pieces: seq<(nat, Bytes)>)

  function OpenShell(commands: seq<Bytes>): Shell {
    Shell(seq(|commands|, i requires 0 <= i < |commands| => Writer(commands[i] + [LF], 0)), [])
  }

  /** Writer `i` calls the channel's write with what it has left, and `n` octets are taken. */
  datatype Turn = Turn(i: nat, n: nat)

  predicate CanTake(s: Shell, t: Turn) {
    t.i < |s.writers| && s.writers[t.i].written < |s.writers[t.i].data|
    && s.writers[t.i].written + t.n <= |s.writers[t.i].data|
  }

  function Take(s: Shell, t: Turn): Shell
    requires CanTake(s, t)
  {
    var w := s.writers[t.i];
    Shell(s.writers[t.i := w.(written := w.written + t.n)],
          s.pieces + [(t.i, w.data[w.written..w.written + t.n])])
  }

  ghost predicate Runs(s: Shell, ts: seq<Turn>, s': Shell)
    decreases |ts|
  {
    if ts == [] then s == s' else CanTake(s, ts[0]) && Runs(Take(s, ts[0]), ts[1..], s')
  }

  /** What the channel received. */
  function Received(pieces: seq<(nat, Bytes)>): Bytes {
    if pieces == [] then [] else Received(pieces[..|pieces| - 1]) + pieces[|pieces| - 1].1
  }

  /** What it received from writer `i`. */
  function From(pieces: seq<(nat, Bytes)>, i: nat): Bytes {
    if pieces == [] then []
    else
      var last := pieces[|pieces| - 1];
      From(pieces[..|pieces| - 1], i) + if last.0 == i then last.1 else []
  }

  ghost predicate InOrder(s: Shell) {
    && (forall i :: 0 <= i < |s.writers| ==>
          && s.writers[i].written <= |s.writers[i].data|
          && From(s.pieces, i) == s.writers[i].data[..s.writers[i].written])
    && forall k :: 0 <= k < |s.pieces| ==> s.pieces[k].0 < |s.writers|
  }

  lemma TakeInOrder(s: Shell, t: Turn)
    requires InOrder(s) && CanTake(s, t)
    ensures InOrder(Take(s, t))
  {
    var s', w := Take(s, t), s.writers[t.i];
    assert s'.pieces[..|s.pieces|] == s.pieces;
    forall i | 0 <= i < |s'.writers|
      ensures From(s'.pieces, i) == s'.writers[i].data[..s'.writers[i].written]
    {
      var piece := w.data[w.written..w.written + t.n];
      assert w.data[..w.written] + piece == w.data[..w.written + t.n];
      assert From(s.pieces, i) + [] == From(s.pieces, i);
    }
  }

  /** Whatever the schedule, what is received is an interleaving of the commands that keeps
      the octets of each in order: its pieces, taken together, are the part written so far. */
  lemma {:induction false} CommandsInterleave(s: Shell, ts: seq<Turn>, s': Shell)
    requires InOrder(s) && Runs(s, ts, s')
    ensures InOrder(s') && |s'.writers| == |s.writers|
    ensures forall i :: 0 <= i < |s.writers| ==> s'.writers[i].data == s.writers[i].data
    decreases |ts|
  {
    if ts != [] {
      TakeInOrder(s, ts[0]);
      CommandsInterleave(Take(s, ts[0]), ts[1..], s');
    }
  }

  lemma OpenInOrder(commands: seq<Bytes>)
    ensures InOrder(OpenShell(commands))
  {
    forall i | 0 <= i < |commands| ensures From([], i) == (commands[i] + [LF])[..0] {
    }
  }

  /** So once every command is written, each arrived whole, in order and once. */
  lemma ShellReceives(commands: seq<Bytes>, ts: seq<Turn>, s: Shell)
    requires Runs(OpenShell(commands), ts, s)
    ensures |s.writers| == |commands| && forall k :: 0 <= k < |s.pieces| ==> s.pieces[k].0 < |commands|
    ensures forall i :: 0 <= i < |commands| ==>
              && From(s.pieces, i) <= commands[i] + [LF]
              && (s.writers[i].written == |s.writers[i].data| ==> From(s.pieces, i) == commands[i] + [LF])
  {
    OpenInOrder(commands);
    CommandsInterleave(OpenShell(commands), ts, s);
    forall i | 0 <= i < |commands|
      ensures From(s.pieces, i) == (commands[i] + [LF])[..s.writers[i].written]
    {
      assert s.writers[i].data == OpenShell(commands).writers[i].data == commands[i] + [LF];
    }
    forall i | 0 <= i < |commands| && s.writers[i].written == |s.writers[i].data|
      ensures From(s.pieces, i) == commands[i] + [LF]
    {
      assert s.writers[i].data == OpenShell(commands).writers[i].data == commands[i] + [LF];
    }
  }

  /** Every piece comes from a command that was not yet written, and goes on with it. */
  ghost predicate Possible(commands: seq<Bytes>, pieces: seq<(nat, Bytes)>) {
    forall k :: 0 <= k < |pieces| ==> NextPiece(commands, pieces[..k], pieces[k])
  }

  ghost predicate NextPiece(commands: seq<Bytes>, before: seq<(nat, Bytes)>, piece: (nat, Bytes)) {
    && piece.0 < |commands|
    && |From(before, piece.0)| < |commands[piece.0]| + 1
    && From(before, piece.0) + piece.1 <= commands[piece.0] + [LF]
  }

  lemma {:induction false} RunsPossible(commands: seq<Bytes>, ts: seq<Turn>, s: Shell)
    requires Runs(OpenShell(commands), ts, s)
    ensures Possible(commands, s.pieces)
    decreases |ts|
  {
    if ts == [] {
      assert s.pieces == [];
    } else {
      var n := |ts| - 1;
      var s0 := RunsSplit(OpenShell(commands), ts);
      RunsPossible(commands, ts[..n], s0);
      hide Possible, NextPiece, Runs, From, OpenShell;
      TurnIsNext(commands, ts[..n], s0, ts[n]);
      OneMorePossible(commands, s0.pieces, s.pieces[|s0.pieces|]);
    }
  }

  lemma TurnIsNext(commands: seq<Bytes>, ts: seq<Turn>, s: Shell, t: Turn)
    requires Runs(OpenShell(commands), ts, s) && CanTake(s, t)
    ensures |commands| == |s.writers|
    ensures Take(s, t).pieces == s.pieces + [Take(s, t).pieces[|s.pieces|]]
    ensures NextPiece(commands, s.pieces, Take(s, t).pieces[|s.pieces|])
  {
    hide Runs, From, OpenShell;
    SameWriters(commands, ts, s);
    WrittenPart(commands, ts, s, t.i);
    SliceJoin(commands[t.i] + [LF], 0, s.writers[t.i].written, s.writers[t.i].written + t.n);
  }

  lemma SameWriters(commands: seq<Bytes>, ts: seq<Turn>, s: Shell)
    requires Runs(OpenShell(commands), ts, s)
    ensures |s.writers| == |commands|
  {
    OpenInOrder(commands);
    CommandsInterleave(OpenShell(commands), ts, s);
  }

  lemma OneMorePossible(commands: seq<Bytes>, before: seq<(nat, Bytes)>, piece: (nat, Bytes))
    requires Possible(commands, before) && NextPiece(commands, before, piece)
    ensures Possible(commands, before + [piece])
  {
    var pieces := before + [piece];
    hide NextPiece;
    forall k | 0 <= k < |pieces| ensures NextPiece(commands, pieces[..k], pieces[k]) {
      assert k < |before| ==> pieces[..k] == before[..k];
      assert pieces[..|before|] == before;
    }
  }

  lemma {:induction false} RunsSplit(s: Shell, ts: seq<Turn>) returns (s0: Shell)
    requires ts != [] && exists s' :: Runs(s, ts, s')
    ensures Runs(s, ts[..|ts| - 1], s0) && CanTake(s0, ts[|ts| - 1])
    ensures forall s' :: Runs(s, ts, s') <==> s' == Take(s0, ts[|ts| - 1])
    decreases |ts|
  {
    if |ts| == 1 {
      s0 := s;
    } else {
      s0 := RunsSplit(Take(s, ts[0]), ts[1..]);
      assert ts[..|ts| - 1][1..] == ts[1..][..|ts[1..]| - 1];
    }
  }

  lemma {:induction false} RunsOnTo(s: Shell, ts: seq<Turn>, s': Shell, t: Turn)
    requires Runs(s, ts, s') && CanTake(s', t)
    ensures Runs(s, ts + [t], Take(s', t))
    decreases |ts|
  {
    if ts == [] {
      assert [t][1..] == [];
    } else {
      assert (ts + [t])[1..] == ts[1..] + [t];
      RunsOnTo(Take(s, ts[0]), ts[1..], s', t);
    }
  }

  lemma FrontPossible(commands: seq<Bytes>, pieces: seq<(nat, Bytes)>)
    requires Possible(commands, pieces) && pieces != []
    ensures var n := |pieces| - 1;
            Possible(commands, pieces[..n]) && NextPiece(commands, pieces[..n], pieces[n])
  {
    hide NextPiece;
    var n := |pieces| - 1;
    forall k | 0 <= k < n ensures NextPiece(commands, pieces[..n][..k], pieces[..n][k]) {
      assert pieces[..n][..k] == pieces[..k];
    }
  }

  lemma {:induction false} PossibleRuns(commands: seq<Bytes>, pieces: seq<(nat, Bytes)>)
    returns (ts: seq<Turn>, s: Shell)
    requires Possible(commands, pieces)
    ensures Runs(OpenShell(commands), ts, s) && s.pieces == pieces
  {
    if pieces == [] {
      ts, s := [], OpenShell(commands);
    } else {
      var n := |pieces| - 1;
      var before, piece := pieces[..n], pieces[n];
      FrontPossible(commands, pieces);
      hide Possible, NextPiece, Runs, CanTake, Take, From, OpenShell;
      var ts0, s0 := PossibleRuns(commands, before);
      NextTurn(commands, ts0, s0, piece);
      var t := Turn(piece.0, |piece.1|);
      RunsOnTo(OpenShell(commands), ts0, s0, t);
      ts, s := ts0 + [t], Take(s0, t);
      assert pieces == before + [piece];
    }
  }

  lemma NextTurn(commands: seq<Bytes>, ts: seq<Turn>, s: Shell, piece: (nat, Bytes))
    requires Runs(OpenShell(commands), ts, s) && NextPiece(commands, s.pieces, piece)
    ensures var t := Turn(piece.0, |piece.1|);
            CanTake(s, t) && Take(s, t).pieces == s.pieces + [piece]
  {
    hide Runs, From, OpenShell;
    WrittenPart(commands, ts, s, piece.0);
    PartGoesOn(commands[piece.0] + [LF], s.writers[piece.0].written, piece.1);
  }

  lemma WrittenPart(commands: seq<Bytes>, ts: seq<Turn>, s: Shell, i: nat)
    requires Runs(OpenShell(commands), ts, s) && i < |commands|
    ensures |s.writers| == |commands| && s.writers[i].data == commands[i] + [LF]
    ensures s.writers[i].written <= |commands[i]| + 1
    ensures From(s.pieces, i) == (commands[i] + [LF])[..s.writers[i].written]
  {
    hide Runs, From;
    OpenInOrder(commands);
    CommandsInterleave(OpenShell(commands), ts, s);
    assert OpenShell(commands).writers[i].data == commands[i] + [LF];
  }

  lemma PartGoesOn(whole: Bytes, a: nat, part: Bytes)
    requires a <= |whole| && whole[..a] + part <= whole
    ensures a + |part| <= |whole| && whole[a..a + |part|] == part
  {
    assert whole[..a + |part|] == whole[..a] + part;
    assert whole[..a + |part|][a..] == part;
  }

  /** What can arrive is exactly that: any number of octets may be taken from any writer that
      has some left, none as well. */
  lemma PiecesReachedIff(commands: seq<Bytes>, pieces: seq<(nat, Bytes)>)
    ensures (exists ts, s :: Runs(OpenShell(commands), ts, s) && s.pieces == pieces) <==> Possible(commands, pieces)
  {
    if ts, s :| Runs(OpenShell(commands), ts, s) && s.pieces == pieces {
      RunsPossible(commands, ts, s);
    }
    if Possible(commands, pieces) {
      var ts, s := PossibleRuns(commands, pieces);
      assert Runs(OpenShell(commands), ts, s) && s.pieces == pieces;
    }
  }

  // ----- Commands in one piece -----

  ghost predicate NoneOrAll(s: Shell, j: nat)
    requires j < |s.writers|
  {
    s.writers[j].written == 0 || s.writers[j].written == |s.writers[j].data|
  }

  /** Octets are only taken from a writer while every other one has written nothing or
      everything. */
  ghost predicate Turnwise(s: Shell, ts: seq<Turn>)
    decreases |ts|
  {
    ts == [] ||
    (CanTake(s, ts[0])
     && (ts[0].n > 0 ==> forall j :: 0 <= j < |s.writers| && j != ts[0].i ==> NoneOrAll(s, j))
     && Turnwise(Take(s, ts[0]), ts[1..]))
  }

  /** Piece `a` has something in it. */
  predicate Solid(pieces: seq<(nat, Bytes)>, a: int) {
    0 <= a < |pieces| && pieces[a].1 != []
  }

  /** No piece of another writer lies between two pieces of one. */
  ghost predicate Grouped(pieces: seq<(nat, Bytes)>) {
    forall a, b, c ::
      a < b < c && Solid(pieces, a) && Solid(pieces, b) && Solid(pieces, c) && pieces[a].0 == pieces[c].0 ==>
        pieces[b].0 == pieces[a].0
  }

  /** Nothing came after the pieces of a writer that is half through. */
  ghost predicate HalfIsLast(s: Shell) {
    forall a, b ::
      a < b && Solid(s.pieces, a) && Solid(s.pieces, b)
      && s.pieces[a].0 < |s.writers| && !NoneOrAll(s, s.pieces[a].0) ==>
        s.pieces[b].0 == s.pieces[a].0
  }

  lemma {:induction false} FromHolds(pieces: seq<(nat, Bytes)>, a: nat)
    requires a < |pieces|
    ensures |pieces[a].1| <= |From(pieces, pieces[a].0)|
  {
    var n := |pieces| - 1;
    if a < n {
      FromHolds(pieces[..n], a);
    }
  }

  lemma WrittenHolds(s: Shell, a: nat)
    requires InOrder(s) && a < |s.pieces| && s.pieces[a].1 != []
    ensures s.pieces[a].0 < |s.writers| && s.writers[s.pieces[a].0].written > 0
  {
    FromHolds(s.pieces, a);
  }

  lemma TakeGroups(s: Shell, t: Turn)
    requires InOrder(s) && CanTake(s, t) && Grouped(s.pieces) && HalfIsLast(s)
    requires t.n > 0 ==> forall j :: 0 <= j < |s.writers| && j != t.i ==> NoneOrAll(s, j)
    ensures Grouped(Take(s, t).pieces) && HalfIsLast(Take(s, t))
  {
    hide From, InOrder;
    var s', n := Take(s, t), |s.pieces|;
    assert forall a :: 0 <= a < n ==> s'.pieces[a] == s.pieces[a];
    assert forall a :: Solid(s'.pieces, a) ==> if a < n then Solid(s.pieces, a) else a == n && t.n > 0;
    forall a, b, c | a < b < c && Solid(s'.pieces, a) && Solid(s'.pieces, b) && Solid(s'.pieces, c)
                     && s'.pieces[a].0 == s'.pieces[c].0
      ensures s'.pieces[b].0 == s'.pieces[a].0
    {
      if c == n {
        WrittenHolds(s, a);
        assert !NoneOrAll(s, t.i);
      }
    }
    forall a, b | a < b && Solid(s'.pieces, a) && Solid(s'.pieces, b)
                  && s'.pieces[a].0 < |s'.writers| && !NoneOrAll(s', s'.pieces[a].0)
      ensures s'.pieces[b].0 == s'.pieces[a].0
    {
      WrittenHolds(s, a);
      var i := s.pieces[a].0;
      assert i != t.i ==> s'.writers[i] == s.writers[i];
      assert !NoneOrAll(s, i);
    }
  }

  lemma {:induction false} TurnwiseGroups(s: Shell, ts: seq<Turn>, s': Shell)
    requires InOrder(s) && Runs(s, ts, s') && Turnwise(s, ts) && Grouped(s.pieces) && HalfIsLast(s)
    ensures Grouped(s'.pieces)
    decreases |ts|
  {
    hide InOrder, Grouped, HalfIsLast;
    if ts != [] {
      TakeInOrder(s, ts[0]);
      TakeGroups(s, ts[0]);
      TurnwiseGroups(Take(s, ts[0]), ts[1..], s');
    }
  }

  ghost predicate AllDone(s: Shell) {
    forall i :: 0 <= i < |s.writers| ==> s.writers[i].written == |s.writers[i].data|
  }

  lemma {:induction false} RunExtends(s: Shell, ts: seq<Turn>, s': Shell)
    requires Runs(s, ts, s')
    ensures |s.pieces| <= |s'.pieces| && s'.pieces[..|s.pieces|] == s.pieces
    decreases |ts|
  {
    if ts != [] {
      RunExtends(Take(s, ts[0]), ts[1..], s');
      assert s'.pieces[..|s.pieces|] == s'.pieces[..|s.pieces| + 1][..|s.pieces|];
    }
  }

  /** A writer that wrote more has a piece among the later ones. */
  lemma {:induction false} LaterPiece(pieces: seq<(nat, Bytes)>, k: nat, j: nat) returns (c: nat)
    requires k <= |pieces| && |From(pieces, j)| > |From(pieces[..k], j)|
    ensures k <= c < |pieces| && pieces[c].0 == j && pieces[c].1 != []
    decreases |pieces|
  {
    assert pieces[..|pieces|] == pieces;
    var n := |pieces| - 1;
    if pieces[n].0 == j && pieces[n].1 != [] {
      c := n;
    } else {
      assert pieces[..n][..k] == pieces[..k];
      assert |From(pieces, j)| == |From(pieces[..n], j)|;
      c := LaterPiece(pieces[..n], k, j);
    }
  }

  lemma PieceBefore(s: Shell, j: nat) returns (a: nat)
    requires InOrder(s) && j < |s.writers| && s.writers[j].written > 0
    ensures Solid(s.pieces, a) && s.pieces[a].0 == j
  {
    assert s.pieces[..0] == [];
    a := LaterPiece(s.pieces, 0, j);
  }

  /** A writer that is not through when a run starts has a piece in it. */
  lemma PieceAfter(s: Shell, ts: seq<Turn>, s': Shell, j: nat) returns (c: nat)
    requires InOrder(s) && Runs(s, ts, s') && AllDone(s')
    requires j < |s.writers| && s.writers[j].written < |s.writers[j].data|
    ensures |s.pieces| <= c && Solid(s'.pieces, c) && s'.pieces[c].0 == j
  {
    hide From, Runs;
    CommandsInterleave(s, ts, s');
    RunExtends(s, ts, s');
    assert s'.writers[j].data == s.writers[j].data;
    c := LaterPiece(s'.pieces, |s.pieces|, j);
  }

  lemma PieceStays(s: Shell, ts: seq<Turn>, s': Shell, a: nat)
    requires Runs(s, ts, s') && a < |s.pieces|
    ensures a < |s'.pieces| && s'.pieces[a] == s.pieces[a]
  {
    hide Runs;
    RunExtends(s, ts, s');
    assert s'.pieces[..|s.pieces|][a] == s'.pieces[a];
  }

  /** A turn that comes while another writer is half through splits that writer's command. */
  lemma SplitsHalf(s: Shell, t: Turn, ts: seq<Turn>, s': Shell, j: nat)
    requires InOrder(s) && CanTake(s, t) && t.n > 0 && Runs(Take(s, t), ts, s') && AllDone(s')
    requires j < |s.writers| && j != t.i && !NoneOrAll(s, j)
    ensures !Grouped(s'.pieces)
  {
    hide From, Runs, AllDone;
    var s1, n := Take(s, t), |s.pieces|;
    HalfWritten(s, j);
    TakeInOrder(s, t);
    hide InOrder;
    var a := PieceBefore(s, j);
    var c := PieceAfter(s1, ts, s', j);
    PieceStays(s1, ts, s', a);
    PieceStays(s1, ts, s', n);
    assert Solid(s'.pieces, n) && s'.pieces[n].0 == t.i;
  }

  lemma HalfWritten(s: Shell, j: nat)
    requires InOrder(s) && j < |s.writers| && !NoneOrAll(s, j)
    ensures 0 < s.writers[j].written < |s.writers[j].data|
  {
  }

  lemma {:induction false} GroupedIsTurnwise(s: Shell, ts: seq<Turn>, s': Shell)
    requires InOrder(s) && Runs(s, ts, s') && AllDone(s') && Grouped(s'.pieces)
    ensures Turnwise(s, ts)
    decreases |ts|
  {
    hide InOrder, Grouped, AllDone, NoneOrAll;
    if ts != [] {
      var t := ts[0];
      forall j | 0 <= j < |s.writers| && j != t.i && t.n > 0 ensures NoneOrAll(s, j) {
        if !NoneOrAll(s, j) { SplitsHalf(s, t, ts[1..], s', j); }
      }
      TakeInOrder(s, t);
      GroupedIsTurnwise(Take(s, t), ts[1..], s');
    }
  }

  /** When all commands are written, each arrived in one piece exactly if no octet was taken
      from a writer while another was half through.  Partial writes as such do no harm. */
  lemma GroupedIff(commands: seq<Bytes>, ts: seq<Turn>, s: Shell)
    requires Runs(OpenShell(commands), ts, s) && AllDone(s)
    ensures Grouped(s.pieces) <==> Turnwise(OpenShell(commands), ts)
  {
    OpenInOrder(commands);
    if Turnwise(OpenShell(commands), ts) {
      TurnwiseGroups(OpenShell(commands), ts, s);
    }
    if Grouped(s.pieces) {
      GroupedIsTurnwise(OpenShell(commands), ts, s);
    }
  }

  /** Each call is taken whole or refused. */
  ghost predicate NoPartial(s: Shell, ts: seq<Turn>)
    decreases |ts|
  {
    ts == [] ||
    (CanTake(s, ts[0])
     && (ts[0].n == 0 || s.writers[ts[0].i].written + ts[0].n == |s.writers[ts[0].i].data|)
     && NoPartial(Take(s, ts[0]), ts[1..]))
  }

  /** Without partial writes no writer is ever half through. */
  lemma {:induction false} NoPartialIsTurnwise(s: Shell, ts: seq<Turn>)
    requires NoPartial(s, ts) && forall j :: 0 <= j < |s.writers| ==> NoneOrAll(s, j)
    ensures Turnwise(s, ts)
    decreases |ts|
  {
    if ts != [] {
      var s' := Take(s, ts[0]);
      forall j | 0 <= j < |s'.writers| ensures NoneOrAll(s', j) {
        assert NoneOrAll(s, j);
        assert j != ts[0].i ==> s'.writers[j] == s.writers[j];
      }
      NoPartialIsTurnwise(s', ts[1..]);
    }
  }

  function Data(s: Shell, order: seq<nat>): seq<Bytes>
    requires forall k :: 0 <= k < |order| ==> order[k] < |s.writers|
  {
    seq(|order|, k requires 0 <= k < |order| => s.writers[order[k]].data)
  }

  /** What the writers of `order` wrote one after the other, all but the last of them their
      whole command. */
  function Sequel(s: Shell, order: seq<nat>): Bytes
    requires forall k :: 0 <= k < |order| ==> order[k] < |s.writers|
    requires order != [] ==> var w := s.writers[order[|order| - 1]]; w.written <= |w.data|
  {
    if order == [] then []
    else
      var w := s.writers[order[|order| - 1]];
      Concat(Data(s, order[..|order| - 1])) + w.data[..w.written]
  }

  /** The writers that have written anything are those of `order`, one after the other. */
  ghost predicate OneByOne(s: Shell, order: seq<nat>) {
    && Below(order, |s.writers|) && AllDistinct(order)
    && (forall i :: 0 <= i < |s.writers| ==>
          s.writers[i].written <= |s.writers[i].data| && (i in order <==> s.writers[i].written > 0))
    && (forall k :: 0 <= k < |order| - 1 ==> s.writers[order[k]].written == |s.writers[order[k]].data|)
    && Received(s.pieces) == Sequel(s, order)
  }

  lemma ReceivedTake(s: Shell, t: Turn)
    requires CanTake(s, t)
    ensures var w := s.writers[t.i];
            Received(Take(s, t).pieces) == Received(s.pieces) + w.data[w.written..w.written + t.n]
  {
    assert Take(s, t).pieces[..|s.pieces|] == s.pieces;
  }

  lemma DataTake(s: Shell, t: Turn, order: seq<nat>)
    requires CanTake(s, t) && forall k :: 0 <= k < |order| ==> order[k] < |s.writers|
    ensures Data(Take(s, t), order) == Data(s, order)
  {
  }

  lemma TakeNothing(s: Shell, t: Turn, order: seq<nat>)
    requires OneByOne(s, order) && CanTake(s, t) && t.n == 0
    ensures OneByOne(Take(s, t), order)
  {
    hide Received, Concat, Data;
    ReceivedTake(s, t);
    var w := s.writers[t.i];
    assert Received(s.pieces) + w.data[w.written..w.written] == Received(s.pieces);
    assert w.(written := w.written + 0) == w;
    assert s.writers[t.i := w] == s.writers;
    assert Take(s, t).writers == s.writers;
    if order != [] {
      DataTake(s, t, order[..|order| - 1]);
    }
  }

  /** The writer that wrote last goes on. */
  lemma TakeMore(s: Shell, t: Turn, order: seq<nat>)
    requires OneByOne(s, order) && CanTake(s, t) && order != [] && order[|order| - 1] == t.i
    ensures OneByOne(Take(s, t), order)
  {
    hide Received, Concat, Data;
    var s', w := Take(s, t), s.writers[t.i];
    ReceivedTake(s, t);
    DataTake(s, t, order[..|order| - 1]);
    assert w.data[..w.written] + w.data[w.written..w.written + t.n] == w.data[..w.written + t.n];
    forall k | 0 <= k < |order| - 1 ensures s'.writers[order[k]] == s.writers[order[k]] {
      assert order[k] != order[|order| - 1];
    }
  }

  lemma SequelDone(s: Shell, order: seq<nat>)
    requires forall k :: 0 <= k < |order| ==> order[k] < |s.writers|
    requires order != [] ==> var w := s.writers[order[|order| - 1]]; w.written == |w.data|
    ensures Sequel(s, order) == Concat(Data(s, order))
  {
    if order != [] {
      var n := |order| - 1;
      var w := s.writers[order[n]];
      assert order == order[..n] + [order[n]];
      DataSnoc(s, order[..n], order[n]);
      ConcatSnoc(Data(s, order[..n]), w.data);
      assert w.data[..|w.data|] == w.data;
    }
  }

  lemma SequelFirst(s: Shell, t: Turn, order: seq<nat>)
    requires OneByOne(s, order) && CanTake(s, t) && s.writers[t.i].written == 0
    requires order != [] ==> NoneOrAll(s, order[|order| - 1])
    ensures Received(Take(s, t).pieces) == Concat(Data(s, order)) + s.writers[t.i].data[..t.n]
  {
    hide Received, Concat, Data;
    assert order != [] ==> order[|order| - 1] in order;
    ReceivedTake(s, t);
    SequelDone(s, order);
  }

  /** Another writer starts, the last one being through. */
  lemma TakeFirst(s: Shell, t: Turn, order: seq<nat>)
    requires OneByOne(s, order) && CanTake(s, t) && t.n > 0 && t.i !in order
    requires order != [] ==> NoneOrAll(s, order[|order| - 1])
    ensures OneByOne(Take(s, t), order + [t.i])
  {
    hide Received, Concat, Data;
    var s', order' := Take(s, t), order + [t.i];
    SequelFirst(s, t, order);
    DataTake(s, t, order);
    assert order'[..|order|] == order;
    forall i | 0 <= i < |s'.writers| ensures i in order' <==> s'.writers[i].written > 0 {
      assert i in order' <==> i in order || i == t.i;
    }
    forall k | 0 <= k < |order|
      ensures s'.writers[order[k]] == s.writers[order[k]]
      ensures s.writers[order[k]].written == |s.writers[order[k]].data|
    {
      assert order[k] in order;
    }
  }

  lemma DataSnoc(s: Shell, order: seq<nat>, i: nat)
    requires i < |s.writers| && forall k :: 0 <= k < |order| ==> order[k] < |s.writers|
    ensures Data(s, order + [i]) == Data(s, order) + [s.writers[i].data]
  {
  }

  /** Where turns are kept so, what arrives is at every point whole commands one after the
      other, each once, and then the start of one more. */
  lemma {:induction false} CommandsContiguous(s: Shell, ts: seq<Turn>, s': Shell, order: seq<nat>)
    returns (order': seq<nat>)
    requires OneByOne(s, order) && Runs(s, ts, s') && Turnwise(s, ts)
    ensures OneByOne(s', order')
    decreases |ts|
  {
    if ts == [] {
      order' := order;
    } else {
      var t, mid := ts[0], order;
      if t.n == 0 {
        TakeNothing(s, t, order);
      } else if t.i !in order {
        mid := order + [t.i];
        assert order != [] ==> order[|order| - 1] in order;
        TakeFirst(s, t, order);
      } else {
        var k :| 0 <= k < |order| && order[k] == t.i;
        assert k == |order| - 1;
        TakeMore(s, t, order);
      }
      order' := CommandsContiguous(Take(s, t), ts[1..], s', mid);
    }
  }

  lemma OpenOneByOne(commands: seq<Bytes>)
    ensures OneByOne(OpenShell(commands), [])
  {
  }

  /** An order of the first `n` numbers. */
  ghost predicate Arrangement(order: seq<nat>, n: nat) {
    Below(order, n) && AllDistinct(order) && |order| == n
  }

  function Arranged(commands: seq<Bytes>, order: seq<nat>): seq<Bytes>
    requires forall k :: 0 <= k < |order| ==> order[k] < |commands|
  {
    seq(|order|, k requires 0 <= k < |order| => commands[order[k]] + [LF])
  }

  lemma AllWritten(s: Shell, order: seq<nat>)
    requires OneByOne(s, order) && AllDone(s)
    requires forall i :: 0 <= i < |s.writers| ==> 0 < |s.writers[i].data|
    ensures Arrangement(order, |s.writers|) && Received(s.pieces) == Concat(Data(s, order))
  {
    hide Received, Concat, Data;
    forall i: nat | i < |s.writers| ensures i in order {
      assert s.writers[i].written > 0;
    }
    CoversIff(order, |s.writers|);
    assert Members(order) == Range(|s.writers|);
    SequelDone(s, order);
  }

  /** In the end that is all the commands, each contiguous, in some order. */
  lemma AllContiguous(commands: seq<Bytes>, ts: seq<Turn>, s: Shell)
    requires Runs(OpenShell(commands), ts, s) && Turnwise(OpenShell(commands), ts) && AllDone(s)
    ensures exists order: seq<nat> ::
              Arrangement(order, |commands|) && Received(s.pieces) == Concat(Arranged(commands, order))
  {
    hide Concat, Received, Runs, Turnwise, InOrder;
    var start := OpenShell(commands);
    OpenOneByOne(commands);
    var order := CommandsContiguous(start, ts, s, []);
    OpenInOrder(commands);
    CommandsInterleave(start, ts, s);
    forall i | 0 <= i < |commands| ensures s.writers[i].data == commands[i] + [LF] {
      assert s.writers[i].data == start.writers[i].data;
    }
    AllWritten(s, order);
    assert Data(s, order) == Arranged(commands, order);
  }

  /** So they are if no write is partial. */
  lemma WholeWritesContiguous(commands: seq<Bytes>, ts: seq<Turn>, s: Shell)
    requires Runs(OpenShell(commands), ts, s) && NoPartial(OpenShell(commands), ts) && AllDone(s)
    ensures Grouped(s.pieces)
    ensures exists order: seq<nat> ::
              Arrangement(order, |commands|) && Received(s.pieces) == Concat(Arranged(commands, order))
  {
    hide Runs, NoPartial, Turnwise, AllDone, Received, Concat, Grouped;
    NoPartialIsTurnwise(OpenShell(commands), ts);
    GroupedIff(commands, ts, s);
    AllContiguous(commands, ts, s);
  }

  /** A partial write lets one command land inside another. */
  lemma PartialWriteSplits(a: octet, b: octet)
    ensures exists ts, s ::
              && Runs(OpenShell([[a, a], [b]]), ts, s)
              && Received(s.pieces) == [a, b, LF, a, LF]
  {
    var s0 := OpenShell([[a, a], [b]]);
    assert [a, a] + [LF] == [a, a, LF] && [b] + [LF] == [b, LF];
    assert s0.writers == [Writer([a, a, LF], 0), Writer([b, LF], 0)];
    var s1 := Take(s0, Turn(0, 1));
    assert s1.writers == [Writer([a, a, LF], 1), Writer([b, LF], 0)];
    var ts, s := FinishInside(s1, a, b);
    ReceivedTake(s0, Turn(0, 1));
    assert [a, a, LF][0..1] == [a];
    assert ([Turn(0, 1)] + ts)[1..] == ts;
    assert Runs(s0, [Turn(0, 1)] + ts, s);
  }

  lemma FinishInside(s1: Shell, a: octet, b: octet) returns (ts: seq<Turn>, s: Shell)
    requires s1.writers == [Writer([a, a, LF], 1), Writer([b, LF], 0)]
    ensures Runs(s1, ts, s) && Received(s.pieces) == Received(s1.pieces) + [b, LF, a, LF]
  {
    var s2 := Take(s1, Turn(1, 2));
    assert s2.writers == [Writer([a, a, LF], 1), Writer([b, LF], 2)];
    s := Take(s2, Turn(0, 2));
    ts := [Turn(1, 2), Turn(0, 2)];
    assert ts[1..] == [Turn(0, 2)] && Runs(s, [], s) && Runs(s2, [Turn(0, 2)], s);
    ReceivedTake(s1, Turn(1, 2));
    ReceivedTake(s2, Turn(0, 2));
    assert [a, a, LF][1..3] == [a, LF] && [b, LF][0..2] == [b, LF];
  }
}
