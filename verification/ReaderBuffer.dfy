/** `ConcurrentRWBuffer`: one `BytesIO`, whose single cursor serves both reading and
    writing, with a wakeup flag and an end-of-file event. */
module ReaderBuffer {
  import opened Octets
  import opened Options

  // ----- The buffer as a value -----

  /** `BytesIO.write`: overwrites from the cursor on, padding with zeros when it lies past
      the end. */
  function Overwrite(stored: Bytes, cursor: nat, data: Bytes): Bytes {
    if data == [] then stored
    else
      var padded := stored + seq(if cursor > |stored| then cursor - |stored| else 0, _ => 0 as octet);
      padded[..cursor] + data + if cursor + |data| < |padded| then padded[cursor + |data|..] else []
  }

  /** What one resumption of `__iter__` does, up to its next yield, wait or end. */
  datatype Turn = Yield(data: Bytes) | Wait | Stop

  /** `stored` and `cursor` are the `BytesIO`; the rest are the buffer's own fields. */
  datatype Buf = Buf(stored: Bytes, cursor: nat, readPos: nat, writePos: nat, unread: bool, eof: bool) {
    ghost predicate Valid() {
      && readPos <= writePos == |stored|
      && (!unread ==> readPos == writePos)
    }

    function Unread(): Bytes
      requires readPos <= |stored|
    {
      stored[readPos..]
    }

    function Write(data: Bytes): Buf {
      var end := writePos + |data|;
      this.(stored := Overwrite(stored, writePos, data), cursor := end, writePos := end,
            unread := unread || readPos < end)
    }

    function Read(): (Buf, Option<Bytes>) {
      if writePos == 0 || readPos == writePos then (this.(unread := false), None)
      else
        var data := if readPos <= |stored| then stored[readPos..] else [];
        (this.(cursor := readPos + |data|, readPos := readPos + |data|), Some(data))
    }

    function SetEof(): Buf {
      this.(unread := true, eof := true)
    }

    function Iter(): (Buf, Turn) {
      if eof && readPos == writePos then (this, Stop)
      else
        match Read()
        case (b, Some(data)) => if data != [] then (b, Yield(data)) else (b, Wait)
        case (b, None) => (b, Wait)
    }
  }

  /** The wakeup flag went from clear to set, which wakes whoever waits for it. */
  predicate Wakes(b: Buf, b': Buf) {
    !b.unread && b'.unread
  }

  const EMPTY := Buf([], 0, 0, 0, false, false)

  lemma WriteAppends(b: Buf, data: Bytes)
    requires b.Valid()
    ensures b.Write(data).Valid()
    ensures b.Write(data).stored == b.stored + data
    ensures b.Write(data).Unread() == b.Unread() + data
    ensures b.Write(data).readPos == b.readPos && b.Write(data).eof == b.eof
    ensures b.Write(data).unread <==> b.unread || b.Unread() + data != []
  {
  }

  lemma ReadTakesAll(b: Buf)
    requires b.Valid()
    ensures var (b', r) := b.Read();
            && b'.Valid() && b'.stored == b.stored && b'.Unread() == []
            && r == (if b.Unread() == [] then None else Some(b.Unread()))
            && (b'.unread <==> b.unread && b.Unread() != []) && b'.eof == b.eof
  {
  }

  /** An iteration gives out all that is unread, ends only at the end and changes nothing then,
      and otherwise waits, with the flag clear. */
  lemma TurnIs(b: Buf)
    requires b.Valid()
    ensures var (b', turn) := b.Iter();
            && b'.Valid() && b'.stored == b.stored && b'.eof == b.eof
            && turn == (if b.Unread() != [] then Yield(b.Unread()) else if b.eof then Stop else Wait)
            && (turn.Yield? ==> b'.Unread() == [] && b'.unread)
            && (turn.Stop? ==> b' == b)
            && (turn.Wait? ==> b' == b.(unread := false))
  {
  }

  // ----- The class -----

  class BytesIO {
    var data: Bytes
    var pos: nat

    constructor ()
      ensures data == [] && pos == 0
    {
      data, pos := [], 0;
    }

    method Seek(to: nat)
      modifies this
      ensures data == old(data) && pos == to
    {
      pos := to;
    }

    method Write(bytes: Bytes) returns (n: nat)
      modifies this
      ensures data == Overwrite(old(data), old(pos), bytes)
      ensures n == |bytes| && pos == old(pos) + n
    {
      if bytes != [] {
        if pos > |data| {
          data := data + seq(pos - |data|, _ => 0 as octet);
        }
        data := data[..pos] + bytes + if pos + |bytes| < |data| then data[pos + |bytes|..] else [];
      }
      n := |bytes|;
      pos := pos + n;
    }

    method Read() returns (bytes: Bytes)
      modifies this
      ensures data == old(data)
      ensures bytes == if old(pos) <= |data| then data[old(pos)..] else []
      ensures pos == old(pos) + |bytes|
    {
      bytes := if pos <= |data| then data[pos..] else [];
      pos := pos + |bytes|;
    }
  }

  class ConcurrentRWBuffer {
    const buffer: BytesIO
    var readPos: nat
    var writePos: nat
    var unreadData: bool
    var eof: bool

    ghost function State(): Buf
      reads this, buffer
    {
      Buf(buffer.data, buffer.pos, readPos, writePos, unreadData, eof)
    }

    constructor ()
      ensures fresh(buffer) && State() == EMPTY
    {
      buffer := new BytesIO();
      readPos, writePos, unreadData, eof := 0, 0, false, false;
    }

    method Write(data: Bytes)
      modifies this, buffer
      ensures State() == old(State()).Write(data)
    {
      if buffer.pos != writePos {
        buffer.Seek(writePos);
      }
      var n := buffer.Write(data);
      writePos := writePos + n;
      if !unreadData && readPos < writePos {
        unreadData := true;
      }
    }

    method Read() returns (data: Option<Bytes>)
      modifies this, buffer
      ensures (State(), data) == old(State()).Read()
    {
      if writePos == 0 || readPos == writePos {
        unreadData := false;
        return None;
      } else if buffer.pos != readPos {
        buffer.Seek(readPos);
      }
      var bytes := buffer.Read();
      readPos := readPos + |bytes|;
      data := Some(bytes);
    }

    /** `eof.set()`: the wakeup flag first, then the event itself. */
    method SetEof()
      modifies this
      ensures State() == old(State()).SetEof()
    {
      unreadData := true;
      eof := true;
    }

    /** One resumption of the iterator. */
    method Iterate() returns (turn: Turn)
      modifies this, buffer
      ensures (State(), turn) == old(State()).Iter()
    {
      if eof && readPos == writePos {
        return Stop;
      }
      var data := Read();
      if data.Some? && data.value != [] {
        return Yield(data.value);
      }
      return Wait;
    }
  }

  // ----- Refinement of a FIFO -----

  /** Any use of the buffer, including moves of the `BytesIO` cursor from outside. */
  datatype Op = OpWrite(data: Bytes) | OpRead | OpIter | OpSetEof | OpSeek(to: nat)

  /** What an operation gives back: a chunk, or nothing. */
  function Apply(b: Buf, op: Op): (Buf, Bytes) {
    match op
    case OpWrite(data) => (b.Write(data), [])
    case OpRead =>
      (match b.Read() case (b', Some(data)) => (b', data) case (b', None) => (b', []))
    case OpIter =>
      (match b.Iter() case (b', Yield(data)) => (b', data) case (b', _) => (b', []))
    case OpSetEof => (b.SetEof(), [])
    case OpSeek(to) => (b.(cursor := to), [])
  }

  /** The same on a plain queue of octets, from which every read takes all there is. */
  function ApplyQueue(q: Bytes, op: Op): (Bytes, Bytes) {
    match op
    case OpWrite(data) => (q + data, [])
    case OpRead => ([], q)
    case OpIter => ([], q)
    case OpSetEof => (q, [])
    case OpSeek(to) => (q, [])
  }

  function Run(b: Buf, ops: seq<Op>): (Buf, seq<Bytes>)
    decreases |ops|
  {
    if ops == [] then (b, [])
    else
      var (b', out) := Apply(b, ops[0]);
      var (b'', outs) := Run(b', ops[1..]);
      (b'', [out] + outs)
  }

  function RunQueue(q: Bytes, ops: seq<Op>): (Bytes, seq<Bytes>)
    decreases |ops|
  {
    if ops == [] then (q, [])
    else
      var (q', out) := ApplyQueue(q, ops[0]);
      var (q'', outs) := RunQueue(q', ops[1..]);
      (q'', [out] + outs)
  }

  function Written(ops: seq<Op>): Bytes {
    if ops == [] then []
    else (if ops[0].OpWrite? then ops[0].data else []) + Written(ops[1..])
  }

  lemma ApplyRefines(b: Buf, op: Op)
    requires b.Valid()
    ensures var (b', out) := Apply(b, op);
            && b'.Valid() && (b'.Unread(), out) == ApplyQueue(b.Unread(), op)
            && b'.stored == b.stored + if op.OpWrite? then op.data else []
  {
    ReadTakesAll(b);
    match op {
      case OpWrite(data) => WriteAppends(b, data);
      case _ =>
    }
  }

  /** Over any run the buffer gives out exactly what the queue would, and the stored octets
      are everything written: none lost to a moved cursor, none beyond the write position. */
  lemma {:induction false} RefinesQueue(b: Buf, ops: seq<Op>)
    requires b.Valid()
    ensures var (b', outs) := Run(b, ops);
            && b'.Valid() && (b'.Unread(), outs) == RunQueue(b.Unread(), ops)
            && b'.stored == b.stored + Written(ops)
    decreases |ops|
  {
    hide Apply, ApplyQueue, Buf.Valid;
    if ops == [] {
      assert b.stored + [] == b.stored;
    } else {
      var (b1, out) := Apply(b, ops[0]);
      var w := if ops[0].OpWrite? then ops[0].data else [];
      ApplyRefines(b, ops[0]);
      ValidBounds(b);
      ValidBounds(b1);
      RefinesQueue(b1, ops[1..]);
      Append(b.stored, w, Written(ops[1..]));
    }
  }

  lemma ValidBounds(b: Buf)
    requires b.Valid()
    ensures b.readPos <= |b.stored|
  {
  }

  lemma QueueStepConserves(q: Bytes, op: Op)
    ensures var (q', out) := ApplyQueue(q, op);
            out + q' == q + if op.OpWrite? then op.data else []
  {
  }

  lemma ConcatCons(out: Bytes, outs: seq<Bytes>)
    ensures Concat([out] + outs) == out + Concat(outs)
  {
    ConcatAppend([out], outs);
    assert [out][..0] == [];
  }

  lemma {:induction false} QueueConserves(q: Bytes, ops: seq<Op>)
    ensures var (q', outs) := RunQueue(q, ops); Concat(outs) + q' == q + Written(ops)
    decreases |ops|
  {
    hide Concat, ApplyQueue;
    if ops == [] {
      assert Concat([]) == [] by { ConcatNone(); }
      assert [] + q == q + [];
    } else {
      var (q1, out) := ApplyQueue(q, ops[0]);
      var w, ws := if ops[0].OpWrite? then ops[0].data else [], Written(ops[1..]);
      QueueStepConserves(q, ops[0]);
      QueueConserves(q1, ops[1..]);
      var (q', outs) := RunQueue(q1, ops[1..]);
      ConcatCons(out, outs);
      Append(out, Concat(outs), q');
      Append(out, q1, ws);
      Append(q, w, ws);
    }
  }

  lemma ConcatNone()
    ensures Concat([]) == []
  {
  }

  /** What any run on a new buffer gave out, followed by what is still unread, is everything
      written to it, in order and once. */
  lemma ConservesOctets(ops: seq<Op>)
    ensures var (b, outs) := Run(EMPTY, ops);
            b.Valid() && Concat(outs) + b.Unread() == Written(ops) == b.stored
  {
    RefinesQueue(EMPTY, ops);
    QueueConserves([], ops);
  }
}
