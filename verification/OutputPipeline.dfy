/** From channel to lines: a greenlet copies channel reads into the buffer
    (`_read_output_to_buffer`, in both clients) while a consumer pulls lines out of it
    (`_read_output_buffer`).  The two interleave in any way; the consumer may be interrupted
    by its read timeout or by being abandoned, and reading then resumes on the same buffer. */
module OutputPipeline {
  import opened Lines
  import opened Octets
  import opened Options
  import opened ReaderBuffer

  // ----- The channel -----

  datatype Library = LibSsh2 | LibSsh

  /** One attempt to read from the channel.  `Done` is the end of the stream, or the negative
      size by which ssh2 reports an error; `Raised` is an exception. */
  datatype ChannelRead = Again | Got(data: Bytes) | Done | Raised

  /** Whether the reader stops: ssh2 stops on a size of zero as on an error; ssh only on the
      end-of-file exception or another one. */
  predicate Stops(lib: Library, r: ChannelRead) {
    r.Done? || r.Raised? || (lib.LibSsh2? && r.Got? && r.data == [])
  }

  /** All that the reader takes from a channel that will answer its reads with `script`; a
      channel with nothing more to say has ended. */
  function Stream(lib: Library, script: seq<ChannelRead>): Bytes {
    if script == [] || Stops(lib, script[0]) then []
    else (if script[0].Got? then script[0].data else []) + Stream(lib, script[1..])
  }

  /** Whether it stops on an exception, which then ends the greenlet with an error. */
  predicate EndsInError(lib: Library, script: seq<ChannelRead>) {
    script != [] && if Stops(lib, script[0]) then script[0].Raised? else EndsInError(lib, script[1..])
  }

  /** The octets of the reads that got any, in order. */
  function DataOf(before: seq<ChannelRead>): Bytes {
    if before == [] then []
    else DataOf(before[..|before| - 1]) + if before[|before| - 1].Got? then before[|before| - 1].data else []
  }

  /** Reads after which there are more: not ready yet, or octets; for ssh also none of them. */
  ghost predicate Ongoing(lib: Library, before: seq<ChannelRead>) {
    forall k :: 0 <= k < |before| ==>
      before[k].Again? || (before[k].Got? && (before[k].data != [] || lib == LibSsh))
  }

  /** The end of the stream, of ssh2 also a read of nothing, or an error. */
  ghost predicate Final(lib: Library, last: ChannelRead) {
    last == Done || last == Raised || (lib == LibSsh2 && last == Got([]))
  }

  lemma {:induction false} DataCons(r: ChannelRead, before: seq<ChannelRead>)
    ensures DataOf([r] + before) == (if r.Got? then r.data else []) + DataOf(before)
  {
    if before == [] {
      assert [r] + before == [r] && [r][..0] == [];
    } else {
      var n := |before| - 1;
      DataCons(r, before[..n]);
      assert ([r] + before)[..n + 1] == [r] + before[..n];
    }
  }

  /** The stream is the octets of every read before the final one, whatever EAGAINs lie
      between them, and nothing after it; an error is what ends it, or not. */
  lemma {:induction false} StreamIs(lib: Library, before: seq<ChannelRead>, tail: seq<ChannelRead>)
    requires Ongoing(lib, before) && (tail == [] || Final(lib, tail[0]))
    ensures Stream(lib, before + tail) == DataOf(before)
    ensures EndsInError(lib, before + tail) <==> tail != [] && tail[0] == Raised
    decreases |before|
  {
    if before == [] {
      assert before + tail == tail;
    } else {
      assert (before + tail)[1..] == before[1..] + tail;
      assert before == [before[0]] + before[1..];
      StreamIs(lib, before[1..], tail);
      DataCons(before[0], before[1..]);
    }
  }

  /** Every script is of that form. */
  lemma {:induction false} ScriptSplits(lib: Library, script: seq<ChannelRead>) returns (n: nat)
    ensures n <= |script| && Ongoing(lib, script[..n]) && (script[n..] == [] || Final(lib, script[n..][0]))
    decreases |script|
  {
    if script == [] || Final(lib, script[0]) {
      n := 0;
    } else {
      var k := ScriptSplits(lib, script[1..]);
      n := k + 1;
      assert script[..n] == [script[0]] + script[1..][..k];
      assert script[n..] == script[1..][k..];
    }
  }

  /** How the stream, and the way it ends, unfold along the script. */
  lemma StreamStep(lib: Library, script: seq<ChannelRead>, i: nat)
    requires i <= |script|
    ensures var rest := script[i..];
            if i == |script| || Stops(lib, script[i]) then
              && Stream(lib, rest) == []
              && (EndsInError(lib, rest) <==> i < |script| && script[i].Raised?)
            else
              && Stream(lib, rest) == (if script[i].Got? then script[i].data else []) + Stream(lib, script[i + 1..])
              && EndsInError(lib, rest) == EndsInError(lib, script[i + 1..])
    ensures script[0..] == script
  {
    assert i < |script| ==> script[i..][1..] == script[i + 1..];
  }

  /** The reader greenlet run on its own, in the form of its loop.  The end is set on every way
      out, also when an exception goes on to the caller. */
  method ReadOutputToBuffer(lib: Library, script: seq<ChannelRead>, buffer: ConcurrentRWBuffer) returns (raised: bool)
    requires buffer.State().Valid() && !buffer.eof
    modifies buffer, buffer.buffer
    ensures buffer.State().Valid() && buffer.eof
    ensures buffer.State().stored == old(buffer.State().stored) + Stream(lib, script)
    ensures buffer.readPos == old(buffer.readPos)
    ensures raised == EndsInError(lib, script)
  {
    hide Overwrite, Buf.Write, Buf.Unread, Stream, EndsInError;
    raised := false;
    var i := 0;
    ghost var all := old(buffer.State().stored) + Stream(lib, script);
    StreamStep(lib, script, 0);
    while i < |script|
      invariant i <= |script| && buffer.State().Valid() && buffer.readPos == old(buffer.readPos)
      invariant buffer.State().stored + Stream(lib, script[i..]) == all
      invariant !buffer.eof && !raised && EndsInError(lib, script[i..]) == EndsInError(lib, script)
    {
      var r := script[i];
      StreamStep(lib, script, i);
      if Stops(lib, r) {
        raised := r.Raised?;
        break;
      }
      ghost var stored, rest := buffer.State().stored, Stream(lib, script[i + 1..]);
      if r.Got? && |r.data| > 0 {
        WriteAppends(buffer.State(), r.data);
        buffer.Write(r.data);
        Append(stored, r.data, rest);
      } else {
        assert [] + rest == rest;
      }
      i := i + 1;
    }
    StreamStep(lib, script, i);
    assert buffer.State().stored + [] == buffer.State().stored;
    buffer.SetEof();
  }

  // ----- The two greenlets together -----

  /** What the consumer handed out, or dropped when it was interrupted. */
  datatype Item = Whole(text: Bytes, sep: Bytes) | Last(text: Bytes) | Lost(text: Bytes)

  datatype Place = AtBuffer | InChunk | Asleep | Finished

  datatype Consumer = Consumer(
    at: Place, data: Bytes, pos: nat, remainder: Bytes, log: seq<Item>, cuts: set<nat>)

  datatype System = System(lib: Library, script: seq<ChannelRead>, reading: bool, buf: Buf, con: Consumer)

  datatype Event = Reader | Consume | Interrupt

  function Start(lib: Library, script: seq<ChannelRead>): System {
    System(lib, script, true, EMPTY, Consumer(AtBuffer, [], 0, [], [], {}))
  }

  predicate Enabled(s: System, e: Event) {
    match e
    case Reader => s.reading
    case Consume => s.con.at == AtBuffer || s.con.at == InChunk
    case Interrupt => s.con.at != Finished
  }

  function Step(s: System, e: Event): System
    requires Enabled(s, e) && s.con.pos <= |s.con.data|
  {
    match e
    case Reader => ReaderStep(s)
    case Consume => if s.con.at == AtBuffer then Fetch(s) else Scan(s)
    case Interrupt => s.(con := Resume(s.con))
  }

  /** The consumer wakes with the flag, and only so. */
  function Awake(s: System, b: Buf): Consumer {
    if Wakes(s.buf, b) && s.con.at == Asleep then s.con.(at := AtBuffer) else s.con
  }

  function ReaderStep(s: System): System {
    if s.script == [] || Stops(s.lib, s.script[0]) then
      s.(reading := false, buf := s.buf.SetEof(), con := Awake(s, s.buf.SetEof()))
    else if s.script[0].Got? && s.script[0].data != [] then
      var b := s.buf.Write(s.script[0].data);
      s.(script := s.script[1..], buf := b, con := Awake(s, b))
    else s.(script := s.script[1..])
  }

  /** The head of the outer loop: the buffer is iterated once. */
  function Fetch(s: System): System {
    match s.buf.Iter()
    case (b, Yield(data)) =>
      s.(buf := b, con := s.con.(at := InChunk, data := data, pos := 0,
                                 cuts := s.con.cuts + {s.buf.readPos}))
    case (b, Wait) => s.(buf := b, con := if b.unread then s.con else s.con.(at := Asleep))
    case (b, Stop) =>
      s.(buf := b, con := s.con.(at := Finished, remainder := [],
        log := s.con.log + if |s.con.remainder| > 0 then [Last(s.con.remainder)] else []))
  }

  /** The head of the inner loop.  A line is yielded and the position moved past it in one
      step: nothing can observe the consumer in between. */
  function Scan(s: System): System
    requires s.con.pos <= |s.con.data|
  {
    var c := s.con;
    if c.pos == |c.data| then s.(con := c.(at := AtBuffer))
    else
      var (pos, remainder, lines) := ScanOnce(c.data, c.pos, c.remainder);
      s.(con := c.(pos := pos, remainder := remainder,
                   log := c.log + Items(lines, FindEol(c.data, c.pos).1)))
  }

  function Items(lines: seq<Bytes>, sep: nat): seq<Item> {
    if lines == [] then [] else [Whole(lines[0], if sep == 2 then [CR, LF] else [LF])]
  }

  function Held(c: Consumer): Bytes
    requires c.pos <= |c.data|
  {
    c.remainder + c.data[c.pos..]
  }

  /** The generator is dropped with what it held; a new one starts on the same buffer. */
  function Resume(c: Consumer): Consumer
    requires c.pos <= |c.data|
  {
    Consumer(AtBuffer, [], 0, [], c.log + [Lost(Held(c))], c.cuts)
  }

  ghost predicate Leads(s: System, es: seq<Event>, t: System)
    decreases |es|
  {
    if es == [] then s == t
    else s.con.pos <= |s.con.data| && Enabled(s, es[0]) && Leads(Step(s, es[0]), es[1..], t)
  }

  // ----- No octet is unaccounted for -----

  function OctetsOf(item: Item): Bytes {
    match item
    case Whole(text, sep) => text + sep
    case Last(text) => text
    case Lost(text) => text
  }

  function Spent(log: seq<Item>): Bytes {
    if log == [] then [] else Spent(log[..|log| - 1]) + OctetsOf(log[|log| - 1])
  }

  lemma SpentSnoc(log: seq<Item>, item: Item)
    ensures Spent(log + [item]) == Spent(log) + OctetsOf(item)
  {
    assert (log + [item])[..|log|] == log;
  }

  /** Where the control state stands. */
  ghost predicate Control(s: System) {
    && s.buf.Valid() && s.con.pos <= |s.con.data|
    && (s.buf.eof <==> !s.reading)
    && (s.con.at == Asleep ==> !s.buf.unread && !s.buf.eof)
    && (s.con.at != InChunk ==> s.con.pos == |s.con.data|)
    && (s.con.remainder != [] && s.con.pos < |s.con.data| ==> s.con.pos == 0)
    && (s.con.at == Finished ==> s.buf.eof && s.buf.Unread() == [] && s.con.remainder == [])
  }

  /** Octets handed out with their separators and octets dropped, in order, then what the
      consumer holds, then what the buffer holds, then what the channel still has, are the
      whole stream. */
  ghost predicate Account(s: System, stream: Bytes) {
    && Control(s)
    && Spent(s.con.log) + Held(s.con) + s.buf.Unread() == s.buf.stored
    && s.buf.stored + (if s.reading then Stream(s.lib, s.script) else []) == stream
  }

  lemma WriteKeepsAccount(spent: Bytes, held: Bytes, b: Buf, data: Bytes, rest: Bytes)
    requires b.Valid() && b.readPos <= |b.stored| && spent + held + b.Unread() == b.stored
    ensures b.Write(data).readPos <= |b.Write(data).stored|
    ensures spent + held + b.Write(data).Unread() == b.Write(data).stored
    ensures b.Write(data).stored + rest == b.stored + (data + rest)
  {
    hide *;
    WriteAppends(b, data);
    Append(spent + held, b.Unread(), data);
    Append(b.stored, data, rest);
  }

  lemma ReaderKeepsAccount(s: System, stream: Bytes)
    requires Account(s, stream) && s.reading
    ensures Account(ReaderStep(s), stream)
  {
    hide Overwrite, Spent, Buf.Write;
    if s.script != [] && !Stops(s.lib, s.script[0]) {
      var rest := Stream(s.lib, s.script[1..]);
      if s.script[0].Got? && s.script[0].data != [] {
        WriteAppends(s.buf, s.script[0].data);
        WriteKeepsAccount(Spent(s.con.log), Held(s.con), s.buf, s.script[0].data, rest);
      } else {
        assert [] + rest == rest;
      }
    }
  }

  lemma FetchKeepsAccount(s: System, stream: Bytes)
    requires Account(s, stream) && s.con.at == AtBuffer
    ensures Account(Fetch(s), stream)
  {
    hide Overwrite, Spent, Stream, Buf.Iter, Buf.Read;
    TurnIs(s.buf);
    assert s.con.data[s.con.pos..] == [];
    assert s.con.remainder + [] == s.con.remainder;
    var data := s.buf.Unread();
    match s.buf.Iter().1 {
      case Yield(_) =>
        assert data[0..] == data;
        Append(Spent(s.con.log), s.con.remainder, data);
      case Wait =>
      case Stop =>
        assert data == [];
        if |s.con.remainder| > 0 {
          SpentSnoc(s.con.log, Last(s.con.remainder));
        } else {
          assert s.con.log + [] == s.con.log;
        }
    }
  }

  lemma SepText(data: Bytes, pos: nat)
    requires pos <= |data| && FindEol(data, pos).0 != -1
    ensures var (len, sep) := FindEol(data, pos);
            data[pos + len..pos + len + sep] == if sep == 2 then [CR, LF] else [LF]
  {
  }

  lemma ScanOnceIs(data: Bytes, at: nat, held: Bytes)
    requires at < |data|
    ensures var (len, sep) := FindEol(data, at);
            var (pos, remainder, lines) := ScanOnce(data, at, held);
            if len == -1 then pos == |data| && remainder == held + data[at..] && lines == []
            else
              && at <= at + len <= at + len + sep == pos <= |data|
              && remainder == [] && lines == [held + data[at..at + len]]
  {
    hide FirstLf;
  }

  /** What one turn of the inner loop takes off the chunk is what it yields. */
  lemma ScanKeepsOctets(data: Bytes, at: nat, held: Bytes, log: seq<Item>)
    requires at < |data|
    ensures var (pos, remainder, lines) := ScanOnce(data, at, held);
            Spent(log + Items(lines, FindEol(data, at).1)) + (remainder + data[pos..])
            == Spent(log) + (held + data[at..])
  {
    hide FirstLf, Spent, FindEol, ScanOnce;
    var (len, sep) := FindEol(data, at);
    var (pos, remainder, lines) := ScanOnce(data, at, held);
    ScanOnceIs(data, at, held);
    if len == -1 {
      assert log + [] == log;
      assert data[pos..] == [];
      assert remainder + [] == remainder;
    } else {
      SepText(data, at);
      LineKeepsOctets(data, at, at + len, pos, held, log);
      assert [] + data[pos..] == data[pos..];
    }
  }

  lemma LineKeepsOctets(data: Bytes, at: nat, mid: nat, pos: nat, held: Bytes, log: seq<Item>)
    requires at <= mid <= pos <= |data|
    ensures Spent(log + [Whole(held + data[at..mid], data[mid..pos])]) + data[pos..] == Spent(log) + (held + data[at..])
  {
    hide Spent;
    var text, end, rest := data[at..mid], data[mid..pos], data[pos..];
    SpentSnoc(log, Whole(held + text, end));
    SliceJoin(data, mid, pos, |data|);
    SliceJoin(data, at, mid, |data|);
    Append(held, text, end + rest);
    Append(held + text, end, rest);
    Append(Spent(log), held + text + end, rest);
  }

  lemma ScanKeepsAccount(s: System, stream: Bytes)
    requires Account(s, stream) && s.con.at == InChunk
    ensures Account(Scan(s), stream)
  {
    hide Overwrite, Spent, Stream, FirstLf, FindEol;
    var c := s.con;
    if c.pos < |c.data| {
      ScanKeepsOctets(c.data, c.pos, c.remainder, c.log);
    }
  }

  lemma InterruptKeepsAccount(s: System, stream: Bytes)
    requires Account(s, stream) && s.con.at != Finished
    ensures Account(s.(con := Resume(s.con)), stream)
  {
    hide Spent, Stream;
    SpentSnoc(s.con.log, Lost(Held(s.con)));
    assert Held(Resume(s.con)) == [];
  }

  lemma StepKeepsAccount(s: System, e: Event, stream: Bytes)
    requires Account(s, stream) && Enabled(s, e)
    ensures Account(Step(s, e), stream)
  {
    hide Account, Overwrite, Spent, Stream, FirstLf, FindEol;
    match e {
      case Reader => ReaderKeepsAccount(s, stream);
      case Consume => if s.con.at == AtBuffer { FetchKeepsAccount(s, stream); } else { ScanKeepsAccount(s, stream); }
      case Interrupt => InterruptKeepsAccount(s, stream);
    }
  }

  /** The interruption account, at every point of every run. */
  lemma {:induction false} EveryOctetAccounted(s: System, es: seq<Event>, t: System, stream: Bytes)
    requires Account(s, stream) && Leads(s, es, t)
    ensures Account(t, stream)
    decreases |es|
  {
    if es != [] {
      StepKeepsAccount(s, es[0], stream);
      EveryOctetAccounted(Step(s, es[0]), es[1..], t, stream);
    }
  }

  lemma StartAccount(lib: Library, script: seq<ChannelRead>)
    ensures Account(Start(lib, script), Stream(lib, script))
  {
  }

  /** The octets that were handed out. */
  function Kept(log: seq<Item>): Bytes {
    if log == [] then []
    else Kept(log[..|log| - 1]) + if log[|log| - 1].Lost? then [] else OctetsOf(log[|log| - 1])
  }

  /** No interruption dropped anything: each one came when nothing was held. */
  ghost predicate Lossless(log: seq<Item>) {
    forall k :: 0 <= k < |log| && log[k].Lost? ==> log[k].text == []
  }

  lemma {:induction false} KeptIsSpentIff(log: seq<Item>)
    ensures |Kept(log)| <= |Spent(log)|
    ensures Kept(log) == Spent(log) <==> Lossless(log)
  {
    if log != [] {
      var n := |log| - 1;
      KeptIsSpentIff(log[..n]);
      var k, sp := Kept(log[..n]), Spent(log[..n]);
      if log[n].Lost? {
        assert Kept(log) == k;
        if log[n].text == [] {
          assert Spent(log) == sp;
        }
      } else {
        var o := OctetsOf(log[n]);
        assert Kept(log) == Spent(log) ==> k == (k + o)[..|k|] == (sp + o)[..|sp|] == sp;
      }
    }
  }

  /** Reading that is interrupted and resumed, however often, hands out the whole stream
      exactly when nothing was held at any interruption. */
  lemma ResumptionLosslessIff(lib: Library, script: seq<ChannelRead>, es: seq<Event>, t: System)
    requires Leads(Start(lib, script), es, t) && t.con.at == Finished
    ensures Kept(t.con.log) == Stream(lib, script) <==> Lossless(t.con.log)
  {
    hide Kept, Spent, Stream, Lossless, Leads;
    StartAccount(lib, script);
    EveryOctetAccounted(Start(lib, script), es, t, Stream(lib, script));
    KeptIsSpentIff(t.con.log);
    assert t.con.data[t.con.pos..] == [];
  }

  /** In every reachable state: the reader may go on until the stream has ended, the consumer
      while there is something to take or the end to see, and it may be interrupted until it has
      finished. */
  lemma AnyoneMayGo(lib: Library, script: seq<ChannelRead>, es: seq<Event>, t: System)
    requires Leads(Start(lib, script), es, t)
    ensures Control(t)
    ensures Enabled(t, Reader) <==> !t.buf.eof
    ensures t.con.at != Finished && (t.buf.Unread() != [] || t.buf.eof) ==> Enabled(t, Consume)
    ensures Enabled(t, Interrupt) <==> t.con.at != Finished
  {
    hide Spent, Stream, Leads;
    StartAccount(lib, script);
    EveryOctetAccounted(Start(lib, script), es, t, Stream(lib, script));
  }

  lemma LeadsOne(s: System, e: Event, es: seq<Event>, t: System)
    requires s.con.pos <= |s.con.data| && Enabled(s, e) && Leads(Step(s, e), es, t)
    ensures Leads(s, [e] + es, t)
  {
    assert ([e] + es)[1..] == es;
  }

  /** Interrupting and resuming does lose what was held: a line of which only the start has been
      read, interrupted there, is handed out without its start. */
  lemma InterruptionLoses(a: octet, b: octet)
    requires a != LF && b != LF && b != CR
    ensures exists es, t ::
              && Leads(Start(LibSsh2, [Got([a]), Got([b, LF])]), es, t)
              && t.con.at == Finished && LinesOf(t.con.log) == [[b]]
  {
    hide Lines.FirstLf;
    var s0 := Start(LibSsh2, [Got([a]), Got([b, LF])]);
    var s1 := ReaderStep(s0);
    assert s1.buf == Buf([a], 1, 0, 1, true, false) && s1.script == [Got([b, LF])];
    var s2 := Fetch(s1);
    assert s2.buf == Buf([a], 1, 1, 1, true, false);
    assert s2.con == Consumer(InChunk, [a], 0, [], [], {0});
    var s3 := Scan(s2);
    NoLfIn([a]);
    assert [] + [a][0..] == [a];
    assert s3.con == Consumer(InChunk, [a], 1, [a], [], {0});
    var s4 := s3.(con := Resume(s3.con));
    assert [a] + [a][1..] == [a];
    assert s4.con == Consumer(AtBuffer, [], 0, [], [Lost([a])], {0});
    var es, t := FinishSecond(s4, a, b);
    LeadsOne(s3, Interrupt, es, t);
    LeadsOne(s2, Consume, [Interrupt] + es, t);
    LeadsOne(s1, Consume, [Consume] + ([Interrupt] + es), t);
    LeadsOne(s0, Reader, [Consume] + ([Consume] + ([Interrupt] + es)), t);
  }

  lemma NoLfIn(s: Bytes)
    requires NoLf(s, 0, |s|)
    ensures FindEol(s, 0).0 == -1
  {
    FirstLfIs(s, |s|);
  }

  lemma FinishSecond(s4: System, a: octet, b: octet) returns (es: seq<Event>, t: System)
    requires a != LF && b != LF && b != CR
    requires s4 == System(LibSsh2, [Got([b, LF])], true, Buf([a], 1, 1, 1, true, false),
                          Consumer(AtBuffer, [], 0, [], [Lost([a])], {0}))
    ensures Leads(s4, es, t) && t.con.at == Finished && LinesOf(t.con.log) == [[b]]
  {
    hide Lines.FirstLf;
    var s5 := ReaderStep(s4);
    assert s5.buf.stored == [a, b, LF] && s5.buf.writePos == 3 && s5.buf.readPos == 1 && s5.script == [];
    var s6 := ReaderStep(s5);
    assert s6.buf.stored[1..] == [b, LF];
    var s7 := Fetch(s6);
    es, t := FinishChunk(s7, a, b);
    LeadsOne(s6, Consume, es, t);
    LeadsOne(s5, Reader, [Consume] + es, t);
    LeadsOne(s4, Reader, [Reader] + ([Consume] + es), t);
    es := [Reader] + ([Reader] + ([Consume] + es));
  }

  lemma FinishChunk(s7: System, a: octet, b: octet) returns (es: seq<Event>, t: System)
    requires a != LF && b != LF && b != CR
    requires s7.buf == Buf([a, b, LF], 3, 3, 3, true, true)
    requires s7.con == Consumer(InChunk, [b, LF], 0, [], [Lost([a])], {0, 1})
    ensures Leads(s7, es, t) && t.con.at == Finished && LinesOf(t.con.log) == [[b]]
  {
    hide Lines.FirstLf;
    FirstLfIs([b, LF], 1);
    var s8 := Scan(s7);
    assert FindEol([b, LF], 0) == (1, 1) by { LfSecond(b); }
    assert [] + [b, LF][0..1] == [b];
    assert s8.con == Consumer(InChunk, [b, LF], 2, [], [Lost([a])] + [Whole([b], [LF])], {0, 1});
    var s9 := Scan(s8);
    t := Fetch(s9);
    assert t.con.at == Finished && t.con.log == [Lost([a]), Whole([b], [LF])] + [];
    LinesSnoc([Lost([a])], Whole([b], [LF]));
    LinesSnoc([], Lost([a]));
    assert [] + [Lost([a])] == [Lost([a])] && [Lost([a])] + [Whole([b], [LF])] == t.con.log;
    assert Leads(t, [], t);
    LeadsOne(s9, Consume, [], t);
    LeadsOne(s8, Consume, [Consume] + [], t);
    LeadsOne(s7, Consume, [Consume] + ([Consume] + []), t);
    es := [Consume] + ([Consume] + ([Consume] + []));
  }

  lemma LfSecond(b: octet)
    requires b != LF
    ensures FindEol([b, LF], 0) == (1, 1) || b == CR
  {
    FirstLfIs([b, LF], 1);
  }

  // ----- The lines are the lines of the stream -----

  function LinesOf(log: seq<Item>): seq<Bytes> {
    if log == [] then []
    else
      LinesOf(log[..|log| - 1]) + if log[|log| - 1].Lost? then [] else [log[|log| - 1].text]
  }

  lemma LinesSnoc(log: seq<Item>, item: Item)
    ensures LinesOf(log + [item]) == LinesOf(log) + if item.Lost? then [] else [item.text]
  {
    assert (log + [item])[..|log|] == log;
  }

  /** Where the current chunk starts in the stream. */
  function Base(s: System): int {
    s.buf.readPos - |s.con.data|
  }

  /** The lines handed out are those of what was read, and the held remainder is the open
      line.  Every cut so far is where a chunk started. */
  ghost predicate Faithful(s: System) {
    && Control(s) && 0 <= Base(s)
    && (forall c :: c in s.con.cuts ==> c <= Base(s))
    && (s.con.pos < |s.con.data| ==> Base(s) in s.con.cuts)
    && (Lossless(s.con.log) ==>
          if s.con.at == Finished then LinesOf(s.con.log) == AllLines(s.buf.stored, s.con.cuts)
          else Holds(s.buf.stored, s.con.cuts, Base(s), s.con.data, s.con.pos, s.con.remainder, LinesOf(s.con.log)))
  }

  lemma HoldsLocal(s: Bytes, t: Bytes, cuts: set<nat>, more: set<nat>, base: nat, data: Bytes,
                   pos: nat, remainder: Bytes, lines: seq<Bytes>)
    requires Holds(s, cuts, base, data, pos, remainder, lines)
    requires forall c :: c in more ==> c >= base + pos
    ensures Holds(s + t, cuts + more, base, data, pos, remainder, lines)
  {
    hide Split, Line;
    SplitLocal(s, t, cuts, more, base + pos);
    assert (s + t)[base..base + |data|] == s[base..base + |data|];
    assert (s + t)[base + pos - |remainder|..base + pos] == s[base + pos - |remainder|..base + pos];
  }

  lemma ReaderKeepsFaithful(s: System)
    requires Faithful(s) && s.reading
    ensures Faithful(ReaderStep(s))
  {
    hide Split, Line, Holds, Overwrite, LinesOf, AllLines, Buf.Write;
    var c := s.con;
    if s.script != [] && !Stops(s.lib, s.script[0]) && s.script[0].Got? && s.script[0].data != [] {
      WriteAppends(s.buf, s.script[0].data);
      if Lossless(c.log) {
        HoldsLocal(s.buf.stored, s.script[0].data, c.cuts, {}, Base(s), c.data, c.pos, c.remainder, LinesOf(c.log));
        assert c.cuts + {} == c.cuts;
      }
      WriteFlag(s.buf, s.script[0].data);
    }
  }

  lemma WriteFlag(b: Buf, data: Bytes)
    requires b.Valid() && data != []
    ensures b.Write(data).unread
  {
  }

  /** With the chunk exhausted, what is held is held of the stream read so far. */
  lemma HoldsNextChunk(b: Buf, cuts: set<nat>, base: nat, data: Bytes, remainder: Bytes, lines: seq<Bytes>)
    requires b.Valid() && base + |data| == b.readPos
    requires Holds(b.stored, cuts, base, data, |data|, remainder, lines)
    ensures Holds(b.stored, cuts, b.readPos, [], 0, remainder, lines)
    ensures Holds(b.stored, cuts + {b.readPos}, b.readPos, b.Unread(), 0, remainder, lines)
  {
    hide Split, Line;
    EnterChunk(b.stored, cuts, base, data, remainder, lines);
    var cuts' := cuts + {b.readPos};
    HoldsLocal(b.stored, [], cuts, {b.readPos}, b.readPos, [], 0, remainder, lines);
    assert b.stored + [] == b.stored;
    EnterChunk(b.stored, cuts', b.readPos, b.Unread(), remainder, lines);
  }

  lemma LosslessSnoc(log: seq<Item>, item: Item)
    ensures Lossless(log + [item]) <==> Lossless(log) && (item.Lost? ==> item.text == [])
  {
    assert (log + [item])[|log|] == item;
    assert forall k :: 0 <= k < |log| ==> (log + [item])[k] == log[k];
  }

  lemma FetchKeepsFaithful(s: System)
    requires Faithful(s) && s.con.at == AtBuffer
    ensures Faithful(Fetch(s))
  {
    hide Split, Line, Holds, LinesOf, AllLines, Lossless;
    var c := s.con;
    ReadTakesAll(s.buf);
    if Lossless(c.log) {
      HoldsNextChunk(s.buf, c.cuts, Base(s), c.data, c.remainder, LinesOf(c.log));
    }
    if s.buf.Iter().1.Stop? {
      if Lossless(c.log) {
        HoldsAll(s.buf.stored, c.cuts, c.remainder, LinesOf(c.log));
      }
      if |c.remainder| > 0 {
        LosslessSnoc(c.log, Last(c.remainder));
        LinesSnoc(c.log, Last(c.remainder));
      } else {
        assert c.log + [] == c.log;
        assert LinesOf(c.log) + [] == LinesOf(c.log);
      }
    }
  }

  lemma ScanKeepsFaithful(s: System)
    requires Faithful(s) && s.con.at == InChunk
    ensures Faithful(Scan(s))
  {
    hide Split, Line, Holds, LinesOf, AllLines, Lossless, FindEol;
    var c := s.con;
    if c.pos < |c.data| {
      var (pos, remainder, lines) := ScanOnce(c.data, c.pos, c.remainder);
      var items := Items(lines, FindEol(c.data, c.pos).1);
      ScanItems(c.log, lines, FindEol(c.data, c.pos).1, c.data, c.pos, c.remainder);
      if Lossless(c.log) {
        ScanOnceHolds(s.buf.stored, c.cuts, Base(s), c.data, c.pos, c.remainder, LinesOf(c.log));
      }
    }
  }

  lemma ScanItems(log: seq<Item>, lines: seq<Bytes>, sep: nat, data: Bytes, pos: nat, remainder: Bytes)
    requires pos < |data| && lines == ScanOnce(data, pos, remainder).2
    ensures LinesOf(log + Items(lines, sep)) == LinesOf(log) + lines
    ensures Lossless(log + Items(lines, sep)) <==> Lossless(log)
  {
    hide LinesOf, Lossless, FindEol;
    if lines == [] {
      assert log + [] == log;
    } else {
      var item := Whole(lines[0], if sep == 2 then [CR, LF] else [LF]);
      LinesSnoc(log, item);
      LosslessSnoc(log, item);
    }
  }

  lemma InterruptKeepsFaithful(s: System)
    requires Faithful(s) && s.con.at != Finished
    ensures Faithful(s.(con := Resume(s.con)))
  {
    hide Split, Line, Holds, LinesOf, AllLines, Lossless;
    var c := s.con;
    LosslessSnoc(c.log, Lost(Held(c)));
    LinesSnoc(c.log, Lost(Held(c)));
    assert LinesOf(c.log) + [] == LinesOf(c.log);
    if Lossless(c.log + [Lost(Held(c))]) {
      assert c.remainder == [] && c.pos == |c.data| by { assert |Held(c)| == 0; }
      HoldsNextChunk(s.buf, c.cuts, Base(s), c.data, c.remainder, LinesOf(c.log));
    }
  }

  lemma StepKeepsFaithful(s: System, e: Event)
    requires Faithful(s) && Enabled(s, e)
    ensures Faithful(Step(s, e))
  {
    hide Split, Line, Holds, LinesOf, AllLines, Lossless, Overwrite, FindEol;
    match e {
      case Reader => ReaderKeepsFaithful(s);
      case Consume => if s.con.at == AtBuffer { FetchKeepsFaithful(s); } else { ScanKeepsFaithful(s); }
      case Interrupt => InterruptKeepsFaithful(s);
    }
  }

  lemma {:induction false} StaysFaithful(s: System, es: seq<Event>, t: System)
    requires Faithful(s) && Leads(s, es, t)
    ensures Faithful(t)
    decreases |es|
  {
    hide Faithful;
    if es != [] {
      StepKeepsFaithful(s, es[0]);
      StaysFaithful(Step(s, es[0]), es[1..], t);
    }
  }

  lemma StartFaithful(lib: Library, script: seq<ChannelRead>)
    ensures Faithful(Start(lib, script))
  {
  }

  lemma FinishedState(s: System, stream: Bytes)
    requires Account(s, stream) && Faithful(s) && s.con.at == Finished && Lossless(s.con.log)
    ensures s.buf.stored == stream && LinesOf(s.con.log) == AllLines(stream, s.con.cuts)
  {
    hide LinesOf, AllLines, Spent, Holds, Stream, Lossless;
  }

  /** End to end: however reads were split and greenlets interleaved, a finished reading
      that lost nothing handed out exactly the lines of the stream. */
  lemma EndToEnd(lib: Library, script: seq<ChannelRead>, es: seq<Event>, t: System)
    requires Leads(Start(lib, script), es, t) && t.con.at == Finished && Lossless(t.con.log)
    ensures LinesOf(t.con.log) == AllLines(Stream(lib, script), t.con.cuts)
  {
    hide *;
    StartAccount(lib, script);
    EveryOctetAccounted(Start(lib, script), es, t, Stream(lib, script));
    StartFaithful(lib, script);
    StaysFaithful(Start(lib, script), es, t);
    FinishedState(t, Stream(lib, script));
  }

  /** These are the pieces of the stream between its LFs, up to trailing CRs; and they are
      just those pieces exactly when chunk boundaries cut every CRLF in two, as they do when
      there is none. */
  lemma EndToEndSplit(lib: Library, script: seq<ChannelRead>, es: seq<Event>, t: System)
    requires Leads(Start(lib, script), es, t) && t.con.at == Finished && Lossless(t.con.log)
    ensures StripAll(LinesOf(t.con.log)) == StripAll(DropEmptyLast(SplitOn(Stream(lib, script))))
    ensures LinesOf(t.con.log) == DropEmptyLast(SplitOn(Stream(lib, script)))
       <==> forall j :: CrLfAt(Stream(lib, script), j) ==> j in t.con.cuts
  {
    hide *;
    EndToEnd(lib, script, es, t);
    LinesAreSplitOnIff(Stream(lib, script), t.con.cuts);
    LinesAreSplitOnButCr(Stream(lib, script), t.con.cuts);
  }

  // ----- Reading ends -----

  /** A bound on the steps that remain. */
  function Potential(s: System): nat
    requires s.con.pos <= |s.con.data| && s.buf.readPos <= |s.buf.stored|
  {
    (if s.reading then 4 * |Stream(s.lib, s.script)| + 2 * |s.script| + 2 else 0)
    + 4 * |s.buf.Unread()| + 2 * (|s.con.data| - s.con.pos)
    + match s.con.at case AtBuffer => 1 case InChunk => 2 case _ => 0
  }

  lemma StepSpendsPotential(s: System, e: Event)
    requires Control(s) && Enabled(s, e)
    ensures Control(Step(s, e))
    ensures Potential(Step(s, e)) + (if e == Interrupt then -1 else 1) <= Potential(s)
  {
    hide Overwrite, FindEol, Buf.Write;
    match e {
      case Reader =>
        if s.script != [] && !Stops(s.lib, s.script[0]) && s.script[0].Got? && s.script[0].data != [] {
          WriteAppends(s.buf, s.script[0].data);
          WriteFlag(s.buf, s.script[0].data);
        }
      case Consume => ReadTakesAll(s.buf);
      case Interrupt =>
    }
  }

  function Interrupts(es: seq<Event>): nat {
    if es == [] then 0 else (if es[0] == Interrupt then 1 else 0) + Interrupts(es[1..])
  }

  lemma {:induction false} RunSpendsPotential(s: System, es: seq<Event>, t: System)
    requires Control(s) && Leads(s, es, t)
    ensures Control(t) && |es| + Potential(t) <= Potential(s) + 2 * Interrupts(es)
    decreases |es|
  {
    hide Control, Potential;
    if es != [] {
      StepSpendsPotential(s, es[0]);
      RunSpendsPotential(Step(s, es[0]), es[1..], t);
    }
  }

  /** Reading always ends: the steps of a run are bounded by the size of the stream, and a
      reading that is not finished can move.  So no wakeup is lost, and an uninterrupted
      consumer reaches the end of the stream whatever the schedule. */
  lemma ReadingEnds(lib: Library, script: seq<ChannelRead>, es: seq<Event>, t: System)
    requires Leads(Start(lib, script), es, t)
    ensures |es| <= 4 * |Stream(lib, script)| + 2 * |script| + 3 + 2 * Interrupts(es)
    ensures t.con.at != Finished ==> Enabled(t, Reader) || Enabled(t, Consume)
  {
    RunSpendsPotential(Start(lib, script), es, t);
  }

  lemma StepIsLossless(s: System, e: Event)
    requires s.con.pos <= |s.con.data| && Enabled(s, e) && e != Interrupt && Lossless(s.con.log)
    ensures Lossless(Step(s, e).con.log)
  {
    hide Buf.Iter, Buf.Write, Buf.SetEof, ScanOnce, FindEol;
  }

  /** Nothing is lost where nothing interrupts. */
  lemma {:induction false} UninterruptedIsLossless(s: System, es: seq<Event>, t: System)
    requires Leads(s, es, t) && Interrupts(es) == 0 && Lossless(s.con.log)
    ensures Lossless(t.con.log)
    decreases |es|
  {
    hide Step, Lossless, Enabled;
    if es != [] {
      StepIsLossless(s, es[0]);
      UninterruptedIsLossless(Step(s, es[0]), es[1..], t);
    }
  }

  /** An uninterrupted reading that has finished handed out exactly the lines of the octets that
      were read before the stream ended. */
  lemma UninterruptedReading(
    lib: Library, before: seq<ChannelRead>, tail: seq<ChannelRead>, es: seq<Event>, t: System)
    requires Ongoing(lib, before) && (tail == [] || Final(lib, tail[0]))
    requires Leads(Start(lib, before + tail), es, t) && Interrupts(es) == 0 && t.con.at == Finished
    ensures LinesOf(t.con.log) == AllLines(DataOf(before), t.con.cuts)
    ensures StripAll(LinesOf(t.con.log)) == StripAll(DropEmptyLast(SplitOn(DataOf(before))))
    ensures (forall j :: CrLfAt(DataOf(before), j) ==> j in t.con.cuts)
       <==> LinesOf(t.con.log) == DropEmptyLast(SplitOn(DataOf(before)))
  {
    hide AllLines, LinesOf, Stream, SplitOn, StripAll, Leads, DataOf, Ongoing, Final;
    StreamIs(lib, before, tail);
    UninterruptedIsLossless(Start(lib, before + tail), es, t);
    EndToEnd(lib, before + tail, es, t);
    EndToEndSplit(lib, before + tail, es, t);
  }
}
