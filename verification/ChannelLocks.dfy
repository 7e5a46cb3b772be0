/** The two channel locks of the native client: output readers take one around each read,
    `close_channel` takes both, stdout first, around its whole EAGAIN loop. */
module ChannelLocks {
  import opened Options

  /** One `close_channel` call.  `again` is how often the channel still answers EAGAIN. */
  datatype Phase = Outside | HasStdout | Closing(again: nat) | Leaving | Gone

  datatype System = System(stdoutLock: Option<nat>, stderrLock: Option<nat>, closers: seq<Phase>, tries: seq<nat>)

  /** `Read` is one locked channel read: nothing in it yields, so lock, read and unlock are
      one step.  `Abort` is a timeout or an error raised inside the call. */
  datatype Event =
    | Read(isStderr: bool)
    | TakeStdout(c: nat)
    | TakeStderr(c: nat)
    | Try(c: nat)
    | Leave(c: nat)
    | Abort(c: nat)

  /** `tries[c]` is how often closer `c` will be told EAGAIN. */
  function Begin(tries: seq<nat>): System {
    System(None, None, seq(|tries|, _ => Outside), tries)
  }

  predicate Enabled(s: System, e: Event) {
    match e
    case Read(isStderr) => if isStderr then s.stderrLock.None? else s.stdoutLock.None?
    case TakeStdout(c) => c < |s.closers| && s.closers[c] == Outside && s.stdoutLock.None?
    case TakeStderr(c) => c < |s.closers| && s.closers[c] == HasStdout && s.stderrLock.None?
    case Try(c) => c < |s.closers| && s.closers[c].Closing?
    case Leave(c) => c < |s.closers| && s.closers[c] == Leaving
    case Abort(c) => c < |s.closers| && s.closers[c] != Gone
  }

  function Release(lock: Option<nat>, c: nat): Option<nat> {
    if lock == Some(c) then None else lock
  }

  function Step(s: System, e: Event): System
    requires Enabled(s, e) && |s.tries| == |s.closers|
  {
    match e
    case Read(_) => s
    case TakeStdout(c) => s.(stdoutLock := Some(c), closers := s.closers[c := HasStdout])
    case TakeStderr(c) => s.(stderrLock := Some(c), closers := s.closers[c := Closing(s.tries[c])])
    case Try(c) =>
      var again := s.closers[c].again;
      s.(closers := s.closers[c := if again > 0 then Closing(again - 1) else Leaving])
    case Leave(c) => Exit(s, c)
    case Abort(c) => Exit(s, c)
  }

  /** Leaving the `with` block, normally or not, releases what the call holds. */
  function Exit(s: System, c: nat): System
    requires c < |s.closers|
  {
    System(Release(s.stdoutLock, c), Release(s.stderrLock, c), s.closers[c := Gone], s.tries)
  }

  ghost predicate Leads(s: System, es: seq<Event>, t: System)
    decreases |es|
  {
    if es == [] then s == t
    else |s.tries| == |s.closers| && Enabled(s, es[0]) && Leads(Step(s, es[0]), es[1..], t)
  }

  predicate InLoop(p: Phase) {
    p.Closing? || p == Leaving
  }

  /** The locks say exactly where every closer is. */
  ghost predicate Inv(s: System) {
    && |s.tries| == |s.closers|
    && (forall c :: 0 <= c < |s.closers| ==>
          && (s.stdoutLock == Some(c) <==> s.closers[c] == HasStdout || InLoop(s.closers[c]))
          && (s.stderrLock == Some(c) <==> InLoop(s.closers[c])))
    && (s.stdoutLock.Some? ==> s.stdoutLock.value < |s.closers|)
    && (s.stderrLock.Some? ==> s.stderrLock.value < |s.closers|)
  }

  lemma {:induction false} LocksTell(s: System, es: seq<Event>, t: System)
    requires Inv(s) && Leads(s, es, t)
    ensures Inv(t) && |t.closers| == |s.closers|
    decreases |es|
  {
    if es != [] {
      LocksTell(Step(s, es[0]), es[1..], t);
    }
  }

  /** A read can start only while no `close_channel` of the client is in its EAGAIN loop,
      whichever of the two locks the reader takes; and no two such loops overlap. */
  lemma ReadsAndClosesExclude(tries: seq<nat>, es: seq<Event>, t: System)
    requires Leads(Begin(tries), es, t)
    ensures forall c, isStderr :: 0 <= c < |t.closers| && InLoop(t.closers[c]) ==> !Enabled(t, Read(isStderr))
    ensures forall c, d :: 0 <= c < d < |t.closers| ==> !(InLoop(t.closers[c]) && InLoop(t.closers[d]))
  {
    LocksTell(Begin(tries), es, t);
  }

  /** A stdout read can start exactly while no closer has the stdout lock, a stderr read while
      none is in its loop; the code only uses the first kind. */
  lemma ReadStartsIff(tries: seq<nat>, es: seq<Event>, t: System)
    requires Leads(Begin(tries), es, t)
    ensures Enabled(t, Read(false))
       <==> forall c :: 0 <= c < |t.closers| ==> t.closers[c] != HasStdout && !InLoop(t.closers[c])
    ensures Enabled(t, Read(true)) <==> forall c :: 0 <= c < |t.closers| ==> !InLoop(t.closers[c])
  {
    LocksTell(Begin(tries), es, t);
  }

  /** When a closer can go on: into the first lock when no other has it, into the second at
      once, and from there always; and at any time it may be aborted. */
  lemma MovesIff(tries: seq<nat>, es: seq<Event>, t: System, c: nat)
    requires Leads(Begin(tries), es, t) && c < |t.closers|
    ensures Enabled(t, TakeStdout(c))
       <==> t.closers[c] == Outside
            && forall d :: 0 <= d < |t.closers| ==> t.closers[d] != HasStdout && !InLoop(t.closers[d])
    ensures Enabled(t, TakeStderr(c)) <==> t.closers[c] == HasStdout
    ensures Enabled(t, Try(c)) <==> InLoop(t.closers[c]) && t.closers[c] != Leaving
    ensures Enabled(t, Leave(c)) <==> InLoop(t.closers[c]) && !t.closers[c].Closing?
    ensures Enabled(t, Abort(c)) <==> t.closers[c] != Gone
  {
    LocksTell(Begin(tries), es, t);
  }

  /** Leaving, normally or not, frees what the closer held, and nothing else changes. */
  lemma ExitFrees(tries: seq<nat>, es: seq<Event>, t: System, c: nat, e: Event)
    requires Leads(Begin(tries), es, t) && (e == Leave(c) || e == Abort(c)) && Enabled(t, e)
    ensures |t.tries| == |t.closers|
    ensures var u := Step(t, e);
            && u.closers == t.closers[c := Gone]
            && u.stdoutLock == (if t.closers[c] == HasStdout || InLoop(t.closers[c]) then None else t.stdoutLock)
            && u.stderrLock == (if InLoop(t.closers[c]) then None else t.stderrLock)
  {
    LocksTell(Begin(tries), es, t);
  }

  // ----- Every EAGAIN is answered -----

  /** How often closer `c` called the channel. */
  function Calls(es: seq<Event>, c: nat): nat {
    if es == [] then 0 else (if es[0] == Try(c) then 1 else 0) + Calls(es[1..], c)
  }

  /** The calls that a closer has made by then, unless it was aborted. */
  ghost predicate CalledFor(p: Phase, tries: nat, calls: nat) {
    match p
    case Outside => calls == 0
    case HasStdout => calls == 0
    case Closing(again) => again <= tries && calls == tries - again
    case Leaving => calls == tries + 1
    case Gone => calls == tries + 1
  }

  lemma {:induction false} CallsMade(s: System, es: seq<Event>, t: System, c: nat, calls: nat)
    requires Inv(s) && Leads(s, es, t) && c < |s.closers| && Abort(c) !in es
    requires CalledFor(s.closers[c], s.tries[c], calls)
    ensures |t.closers| == |s.closers| && t.tries == s.tries
    ensures CalledFor(t.closers[c], s.tries[c], calls + Calls(es, c))
    decreases |es|
  {
    if es != [] {
      assert es[0] in es && forall e :: e in es[1..] ==> e in es;
      var u := Step(s, es[0]);
      LocksTell(s, [es[0]], u);
      CallsMade(u, es[1..], t, c, calls + if es[0] == Try(c) then 1 else 0);
    }
  }

  /** A closer that was not aborted calls the channel again after every EAGAIN, and leaves its
      loop with the first other answer. */
  lemma ClosesToTheEnd(tries: seq<nat>, es: seq<Event>, t: System, c: nat)
    requires Leads(Begin(tries), es, t) && c < |tries| && Abort(c) !in es
    ensures |t.closers| == |tries| && CalledFor(t.closers[c], tries[c], Calls(es, c))
  {
    CallsMade(Begin(tries), es, t, c, 0);
  }

  // ----- No deadlock -----

  /** What is left to do for one closer, each step of it counted. */
  function Left(p: Phase, tries: nat): nat {
    match p
    case Outside => tries + 4
    case HasStdout => tries + 3
    case Closing(again) => again + 2
    case Leaving => 1
    case Gone => 0
  }

  function TotalLeft(closers: seq<Phase>, tries: seq<nat>): nat
    requires |tries| == |closers|
  {
    if closers == [] then 0 else Left(closers[0], tries[0]) + TotalLeft(closers[1..], tries[1..])
  }

  lemma {:induction false} TotalUpdate(closers: seq<Phase>, tries: seq<nat>, c: nat, p: Phase)
    requires |tries| == |closers| && c < |closers|
    ensures TotalLeft(closers[c := p], tries)
         == TotalLeft(closers, tries) - Left(closers[c], tries[c]) + Left(p, tries[c])
  {
    if c > 0 {
      assert closers[c := p][1..] == closers[1..][c - 1 := p];
      TotalUpdate(closers[1..], tries[1..], c - 1, p);
    } else {
      assert closers[0 := p][1..] == closers[1..];
    }
  }

  function CloserSteps(es: seq<Event>): nat {
    if es == [] then 0 else (if es[0].Read? then 0 else 1) + CloserSteps(es[1..])
  }

  lemma StepUses(s: System, e: Event)
    requires Inv(s) && Enabled(s, e)
    ensures Inv(Step(s, e))
    ensures TotalLeft(Step(s, e).closers, s.tries) + (if e.Read? then 0 else 1) <= TotalLeft(s.closers, s.tries)
    ensures Step(s, e).tries == s.tries
  {
    if !e.Read? {
      TotalUpdate(s.closers, s.tries, e.c, Step(s, e).closers[e.c]);
    }
  }

  /** Closers take a bounded number of steps in all, however reads come between. */
  lemma {:induction false} ClosersEnd(s: System, es: seq<Event>, t: System)
    requires Inv(s) && Leads(s, es, t)
    ensures Inv(t) && t.tries == s.tries
    ensures CloserSteps(es) + TotalLeft(t.closers, s.tries) <= TotalLeft(s.closers, s.tries)
    decreases |es|
  {
    if es != [] {
      StepUses(s, es[0]);
      ClosersEnd(Step(s, es[0]), es[1..], t);
    }
  }

  /** A closer makes progress on its own: it enters, tries again, or leaves. */
  ghost predicate Moves(s: System, c: nat) {
    Enabled(s, TakeStdout(c)) || Enabled(s, TakeStderr(c)) || Enabled(s, Try(c)) || Enabled(s, Leave(c))
  }

  /** The fixed order of the locks admits no deadlock: while a closer is not through, some
      closer can move without any being aborted. */
  lemma NoDeadlock(tries: seq<nat>, es: seq<Event>, t: System)
    requires Leads(Begin(tries), es, t)
    ensures (exists c :: 0 <= c < |t.closers| && t.closers[c] != Gone) ==> exists c: nat :: Moves(t, c)
  {
    LocksTell(Begin(tries), es, t);
    if c :| 0 <= c < |t.closers| && t.closers[c] != Gone {
      if t.stdoutLock.Some? {
        var d := t.stdoutLock.value;
        assert t.closers[d] == HasStdout ==> t.stderrLock.None?;
        assert Moves(t, d);
      } else {
        assert t.closers[c] == Outside;
        assert Moves(t, c);
      }
    }
  }
}
