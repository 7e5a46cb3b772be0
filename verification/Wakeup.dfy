/** Any number of greenlets iterating, reading and writing one `ConcurrentRWBuffer`.
    Control moves only where an iterator yields its chunk or waits, so one resumption of an
    iterator, one `write`, one `read` and one `eof.set()` are single steps. */
module Wakeup {
  import opened Octets
  import opened Options
  import opened ReaderBuffer

  /** A parked iterator sleeps in `wait()` and nothing has woken it; once woken it is ready. */
  datatype Status = Ready | Parked | Ended

  datatype System = System(buf: Buf, iters: seq<Status>, taken: seq<Bytes>)

  /** `SetFlagOnly` and `SetEventOnly` are the two halves of `eof.set()`.  They belong to no
      run of the code as it is: they are there to show why it must be one step. */
  datatype Event =
    | DoWrite(data: Bytes)
    | DoSetEof
    | DoIter(i: nat)
    | DoRead
    | DoSeek(to: nat)
    | SetFlagOnly
    | SetEventOnly

  function Start(n: nat): System {
    System(EMPTY, seq(n, _ => Ready), [])
  }

  /** `set()` wakes every parked waiter. */
  function Wake(iters: seq<Status>): seq<Status> {
    seq(|iters|, i requires 0 <= i < |iters| => if iters[i] == Parked then Ready else iters[i])
  }

  predicate Enabled(s: System, e: Event) {
    e.DoIter? ==> e.i < |s.iters| && s.iters[e.i] == Ready
  }

  /** A step that leaves the buffer as `b`: parked iterators wake with the flag, and only so. */
  function Left(s: System, b: Buf): System {
    s.(buf := b, iters := if Wakes(s.buf, b) then Wake(s.iters) else s.iters)
  }

  function Step(s: System, e: Event): System
    requires Enabled(s, e)
  {
    match e
    case DoWrite(data) => Left(s, s.buf.Write(data))
    case DoSetEof => Left(s, s.buf.SetEof())
    case DoIter(i) =>
      var (b, turn) := s.buf.Iter();
      (match turn
       case Yield(data) => s.(buf := b, taken := s.taken + [data])
       case Wait => s.(buf := b, iters := if b.unread then s.iters else s.iters[i := Parked])
       case Stop => s.(buf := b, iters := s.iters[i := Ended]))
    case DoRead =>
      var (b, r) := s.buf.Read();
      s.(buf := b, taken := s.taken + if r.Some? then [r.value] else [])
    case DoSeek(to) => Left(s, s.buf.(cursor := to))
    case SetFlagOnly => Left(s, s.buf.(unread := true))
    case SetEventOnly => Left(s, s.buf.(eof := true))
  }

  ghost predicate Leads(s: System, es: seq<Event>, t: System)
    decreases |es|
  {
    if es == [] then s == t else Enabled(s, es[0]) && Leads(Step(s, es[0]), es[1..], t)
  }

  /** A run of the code as it is. */
  ghost predicate Whole(es: seq<Event>) {
    forall e :: e in es ==> !e.SetFlagOnly? && !e.SetEventOnly?
  }

  function Written(es: seq<Event>): Bytes {
    if es == [] then [] else (if es[0].DoWrite? then es[0].data else []) + Written(es[1..])
  }

  // ----- No wakeup is lost -----

  /** A clear flag means there is nothing unread, and an iterator that sleeps unnotified has
      missed neither data nor the end. */
  ghost predicate Inv(s: System) {
    && s.buf.Valid()
    && (forall i :: 0 <= i < |s.iters| && s.iters[i] == Parked ==> !s.buf.unread && !s.buf.eof)
    && Concat(s.taken) + s.buf.Unread() == s.buf.stored
    && forall k :: 0 <= k < |s.taken| ==> s.taken[k] != []
  }

  lemma IterKeepsInv(s: System, i: nat)
    requires Inv(s) && Enabled(s, DoIter(i))
    ensures Inv(Step(s, DoIter(i)))
  {
    ReadTakesAll(s.buf);
    if s.buf.Unread() != [] {
      ConcatSnoc(s.taken, s.buf.Unread());
    }
  }

  lemma ReadKeepsInv(s: System)
    requires Inv(s)
    ensures Inv(Step(s, DoRead))
  {
    ReadTakesAll(s.buf);
    if s.buf.Unread() != [] {
      ConcatSnoc(s.taken, s.buf.Unread());
    } else {
      assert s.taken + [] == s.taken;
    }
  }

  lemma WriteKeepsInv(s: System, data: Bytes)
    requires Inv(s)
    ensures Inv(Step(s, DoWrite(data)))
  {
    hide Concat, Overwrite, Buf.Write;
    WriteAppends(s.buf, data);
    Append(Concat(s.taken), s.buf.Unread(), data);
  }

  lemma StepKeepsInv(s: System, e: Event)
    requires Inv(s) && Enabled(s, e) && Whole([e])
    ensures Inv(Step(s, e))
    ensures Step(s, e).buf.stored == s.buf.stored + if e.DoWrite? then e.data else []
    ensures |Step(s, e).iters| == |s.iters|
  {
    assert e in [e];
    match e {
      case DoWrite(data) => WriteKeepsInv(s, data); WriteAppends(s.buf, data);
      case DoIter(i) => IterKeepsInv(s, i); ReadTakesAll(s.buf);
      case DoRead => ReadKeepsInv(s); ReadTakesAll(s.buf);
      case _ =>
    }
  }

  lemma WholeTail(es: seq<Event>)
    requires es != [] && Whole(es)
    ensures Whole([es[0]]) && Whole(es[1..])
  {
    assert es[0] in es && forall e :: e in es[1..] ==> e in es;
  }

  /** Holds after every run, for any number of iterators, readers and writers. */
  lemma {:induction false} NoLostWakeup(s: System, es: seq<Event>, t: System)
    requires Inv(s) && Leads(s, es, t) && Whole(es)
    ensures Inv(t) && |t.iters| == |s.iters|
    decreases |es|
  {
    if es != [] {
      WholeTail(es);
      StepKeepsInv(s, es[0]);
      NoLostWakeup(Step(s, es[0]), es[1..], t);
    }
  }

  lemma InvBounds(s: System)
    requires Inv(s)
    ensures s.buf.readPos <= |s.buf.stored| && Concat(s.taken) + s.buf.Unread() == s.buf.stored
  {
  }

  /** All the chunks taken, in the order they were taken, followed by what is still unread,
      are all the octets written, whoever wrote and whoever read. */
  lemma {:induction false} StoredIsWritten(s: System, es: seq<Event>, t: System)
    requires Inv(s) && Leads(s, es, t) && Whole(es)
    ensures Inv(t) && t.buf.readPos <= |t.buf.stored|
    ensures Concat(t.taken) + t.buf.Unread() == s.buf.stored + Written(es)
    decreases |es|
  {
    hide Step, Concat, Inv, Whole;
    InvBounds(s);
    if es != [] {
      WholeTail(es);
      StepKeepsInv(s, es[0]);
      var u, w, ws := Step(s, es[0]), if es[0].DoWrite? then es[0].data else [], Written(es[1..]);
      StoredIsWritten(u, es[1..], t);
      Append(s.buf.stored, w, ws);
    } else {
      assert s.buf.stored + [] == s.buf.stored;
    }
  }

  lemma StartIsGood(n: nat)
    ensures Inv(Start(n))
  {
  }

  /** In every reachable state writers, readers and the end may come next, and so may every
      iterator that has something to take or the end to see. */
  lemma AnyoneMayGo(n: nat, es: seq<Event>, t: System, e: Event)
    requires Leads(Start(n), es, t) && Whole(es) && |t.iters| == n
    requires e.DoIter? ==> e.i < n && t.iters[e.i] != Ended && (t.buf.unread || t.buf.eof)
    ensures Enabled(t, e)
  {
    StartIsGood(n);
    NoLostWakeup(Start(n), es, t);
  }

  /** The cursor of the store may be anywhere at any time, with the rest of the state as it is: a
      run leads there too. */
  lemma {:induction false} CursorMayBeAnywhere(s: System, es: seq<Event>, t: System, to: nat)
    requires Leads(s, es, t)
    ensures Leads(s, es + [DoSeek(to)], t.(buf := t.buf.(cursor := to)))
    decreases |es|
  {
    if es == [] {
      assert [DoSeek(to)][1..] == [];
    } else {
      assert (es + [DoSeek(to)])[1..] == es[1..] + [DoSeek(to)];
      CursorMayBeAnywhere(Step(s, es[0]), es[1..], t, to);
    }
  }

  // ----- Every iterator ends -----

  function Live(iters: seq<Status>): nat {
    if iters == [] then 0 else (if iters[0] == Ended then 0 else 1) + Live(iters[1..])
  }

  function Iterations(es: seq<Event>): nat {
    if es == [] then 0 else (if es[0].DoIter? then 1 else 0) + Iterations(es[1..])
  }

  lemma {:induction false} LiveUpdate(iters: seq<Status>, i: nat, w: Status)
    requires i < |iters|
    ensures Live(iters[i := w])
         == Live(iters) - (if iters[i] == Ended then 0 else 1) + if w == Ended then 0 else 1
  {
    if i > 0 {
      assert iters[i := w][1..] == iters[1..][i - 1 := w];
      LiveUpdate(iters[1..], i - 1, w);
    } else {
      assert iters[0 := w][1..] == iters[1..];
    }
  }

  lemma {:induction false} LiveWake(iters: seq<Status>)
    ensures Live(Wake(iters)) == Live(iters)
  {
    if iters != [] {
      assert Wake(iters)[1..] == Wake(iters[1..]);
      LiveWake(iters[1..]);
    }
  }

  ghost predicate NoWrites(es: seq<Event>) {
    forall e :: e in es ==> !e.DoWrite?
  }

  /** Once the end is set and nothing more is written, all the iterators together take at
      most one turn each, and one more for the data still unread. */
  lemma {:induction false} IteratorsEnd(s: System, es: seq<Event>, t: System)
    requires Inv(s) && s.buf.eof && Leads(s, es, t) && Whole(es) && NoWrites(es)
    ensures t.buf.eof && Inv(t)
    ensures Iterations(es) + Live(t.iters) + (if t.buf.Unread() == [] then 0 else 1)
         <= Live(s.iters) + if s.buf.Unread() == [] then 0 else 1
    decreases |es|
  {
    if es != [] {
      var e, u := es[0], Step(s, es[0]);
      assert e in es && forall e' :: e' in es[1..] ==> e' in es;
      StepKeepsInv(s, e);
      ReadTakesAll(s.buf);
      if e.DoSetEof? { LiveWake(s.iters); }
      if e.DoIter? { LiveUpdate(s.iters, e.i, u.iters[e.i]); }
      IteratorsEnd(u, es[1..], t);
    }
  }

  /** And none is left asleep: when no iterator can move, all have ended. */
  lemma NoneStranded(n: nat, es: seq<Event>, t: System)
    requires Leads(Start(n), es, t) && Whole(es) && t.buf.eof
    requires forall i: nat :: !Enabled(t, DoIter(i))
    ensures |t.iters| == n && forall i :: 0 <= i < n ==> t.iters[i] == Ended
  {
    StartIsGood(n);
    NoLostWakeup(Start(n), es, t);
    forall i | 0 <= i < n ensures t.iters[i] == Ended {
      assert !Enabled(t, DoIter(i));
    }
  }

  // ----- Why `eof.set()` has to be one step -----

  /** It sets the flag and then the event, with nothing in between. */
  lemma SetIsBothHalves(s: System)
    ensures Step(Step(s, SetFlagOnly), SetEventOnly) == Step(s, DoSetEof)
    ensures Step(s, DoSetEof).buf.unread && Step(s, DoSetEof).buf.eof
  {
  }

  /** If another greenlet ran between its two halves, an iterator could wake, find neither
      data nor the end, and go back to sleep for good. */
  lemma SplitSetStrands()
    ensures exists es, t :: Leads(Start(1), es, t) && t.buf.eof && t.iters == [Parked] && !t.buf.unread
  {
    var es := [DoIter(0), SetFlagOnly, DoIter(0), SetEventOnly];
    var s0 := Start(1);
    var s1 := Step(s0, DoIter(0));
    assert s1.iters == [Parked];
    var s2 := Step(s1, SetFlagOnly);
    assert s2.iters == [Ready];
    var s3 := Step(s2, DoIter(0));
    assert s3.iters == [Parked];
    var t := Step(s3, SetEventOnly);
    assert Leads(t, [], t);
    assert es[3..][1..] == [] && Leads(s3, es[3..], t);
    assert es[2..][1..] == es[3..] && Leads(s2, es[2..], t);
    assert es[1..][1..] == es[2..] && Leads(s1, es[1..], t);
    assert Leads(s0, es, t);
  }

  /** From there on it sleeps through any run with no further octet and no second `set()`. */
  lemma {:induction false} StrandedForGood(s: System, es: seq<Event>, t: System)
    requires s.iters == [Parked] && !s.buf.unread && s.buf.Valid()
    requires Leads(s, es, t)
    requires forall e :: e in es ==> !e.DoSetEof? && !e.SetFlagOnly? && (e.DoWrite? ==> e.data == [])
    ensures t.iters == [Parked]
    decreases |es|
  {
    if es != [] {
      assert es[0] in es && forall e :: e in es[1..] ==> e in es;
      StrandedForGood(Step(s, es[0]), es[1..], t);
    }
  }
}
