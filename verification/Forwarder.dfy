/** The rendezvous between the threads that need a proxy port and the `LocalForwarder`
    thread that starts tunnel servers for them, over two queues of size one. */
module Forwarder {
  import opened Options

  /** A request is known by its number; its server listens on the port of that number. */
  datatype Caller =
    | Idle
    | Waiting(request: nat)
    | Served(request: nat, port: nat)

  /** `issued` and `delivered` record what went into `in_q` and out of `out_q`, and `lost` the
      request whose server failed to start, which ended the thread. */
  datatype System = System(
    callers: seq<Caller>, inQueue: Option<nat>, serving: Option<nat>, outQueue: Option<nat>,
    lost: Option<nat>, issued: seq<nat>, delivered: seq<nat>)

  /** `Enqueue` and `Collect` are the two blocking queue calls of `_connect_proxy`; `Accept`,
      `Start` and `Fail` are `_start_server` taking a request, putting the port of a started
      server, and raising, which ends the thread. */
  datatype Event = Enqueue(caller: nat) | Accept | Start | Fail | Collect(caller: nat) | Again(caller: nat)

  function Begin(callers: nat): System {
    System(seq(callers, _ => Idle), None, None, None, None, [], [])
  }

  predicate Alive(s: System) {
    s.lost.None?
  }

  predicate Enabled(s: System, e: Event) {
    match e
    case Enqueue(c) => c < |s.callers| && s.callers[c].Idle? && s.inQueue.None?
    case Accept => Alive(s) && s.serving.None? && s.inQueue.Some?
    case Start => Alive(s) && s.serving.Some? && s.outQueue.None?
    case Fail => Alive(s) && s.serving.Some?
    case Collect(c) => c < |s.callers| && s.callers[c].Waiting? && s.outQueue.Some?
    case Again(c) => c < |s.callers| && s.callers[c].Served?
  }

  function Step(s: System, e: Event): System
    requires Enabled(s, e)
  {
    match e
    case Enqueue(c) =>
      var r := |s.issued|;
      s.(callers := s.callers[c := Waiting(r)], inQueue := Some(r), issued := s.issued + [r])
    case Accept => s.(inQueue := None, serving := s.inQueue)
    case Start => s.(serving := None, outQueue := s.serving)
    case Fail => s.(serving := None, lost := s.serving)
    case Collect(c) =>
      var port := s.outQueue.value;
      s.(callers := s.callers[c := Served(s.callers[c].request, port)], outQueue := None,
         delivered := s.delivered + [port])
    case Again(c) => s.(callers := s.callers[c := Idle])
  }

  ghost predicate Leads(s: System, es: seq<Event>, t: System)
    decreases |es|
  {
    if es == [] then s == t else Enabled(s, es[0]) && Leads(Step(s, es[0]), es[1..], t)
  }

  // ----- Conservation and order -----

  function Stage(o: Option<nat>): seq<nat> {
    if o.Some? then [o.value] else []
  }

  /** Requests that have got no port yet, oldest first. */
  function InFlight(s: System): seq<nat> {
    Stage(s.outQueue) + Stage(s.serving) + Stage(s.lost) + Stage(s.inQueue)
  }

  function WaitingCount(callers: seq<Caller>): nat {
    if callers == [] then 0 else (if callers[0].Waiting? then 1 else 0) + WaitingCount(callers[1..])
  }

  lemma {:induction false} WaitingUpdate(callers: seq<Caller>, c: nat, w: Caller)
    requires c < |callers|
    ensures WaitingCount(callers[c := w])
         == WaitingCount(callers) - (if callers[c].Waiting? then 1 else 0) + if w.Waiting? then 1 else 0
  {
    if c > 0 {
      assert callers[c := w][1..] == callers[1..][c - 1 := w];
      WaitingUpdate(callers[1..], c - 1, w);
    } else {
      assert callers[0 := w][1..] == callers[1..];
    }
  }

  lemma {:induction false} WaitingPositiveIff(callers: seq<Caller>)
    ensures WaitingCount(callers) > 0 <==> exists c :: 0 <= c < |callers| && callers[c].Waiting?
  {
    if callers != [] {
      WaitingPositiveIff(callers[1..]);
      var rest := callers[1..];
      assert forall c :: 0 < c < |callers| ==> callers[c] == rest[c - 1];
      assert forall c :: 0 <= c < |rest| ==> rest[c] == callers[c + 1];
    }
  }

  ghost predicate Counted(s: System) {
    forall k :: 0 <= k < |s.issued| ==> s.issued[k] == k
  }

  /** The requests issued are the ports delivered, then those in `out_q`, being served or
      lost, and in `in_q`, in the order of issue; there is one without a port for every waiting
      caller.  So at most one request is ever lost, and the thread serves none after it. */
  ghost predicate Inv(s: System) {
    && Counted(s)
    && (s.lost.Some? ==> s.serving.None?)
    && s.issued == s.delivered + InFlight(s)
    && WaitingCount(s.callers) == |InFlight(s)|
  }

  /** What a step does to the requests without a port. */
  lemma StepMovesRequests(s: System, e: Event)
    requires Enabled(s, e) && (s.lost.Some? ==> s.serving.None?)
    ensures var t := Step(s, e);
            && (t.lost.Some? ==> t.serving.None?)
            && match e
               case Enqueue(_) => InFlight(t) == InFlight(s) + [|s.issued|]
               case Collect(_) => InFlight(s) == [s.outQueue.value] + InFlight(t)
               case _ => InFlight(t) == InFlight(s)
  {
  }

  lemma StepCountsWaiting(s: System, e: Event)
    requires Enabled(s, e)
    ensures var t := Step(s, e);
            && |t.callers| == |s.callers|
            && WaitingCount(t.callers) == WaitingCount(s.callers)
                                        + match e case Enqueue(_) => 1 case Collect(_) => -1 case _ => 0
  {
    hide WaitingCount;
    if e.Enqueue? || e.Collect? || e.Again? {
      WaitingUpdate(s.callers, e.caller, Step(s, e).callers[e.caller]);
    }
  }

  lemma StepKeepsInv(s: System, e: Event)
    requires Inv(s) && Enabled(s, e)
    ensures Inv(Step(s, e)) && |Step(s, e).callers| == |s.callers|
  {
    hide WaitingCount, InFlight;
    StepMovesRequests(s, e);
    StepCountsWaiting(s, e);
    var t := Step(s, e);
    assert t.issued == t.delivered + InFlight(t);
  }

  lemma {:induction false} RunKeepsInv(s: System, es: seq<Event>, t: System)
    requires Inv(s) && Leads(s, es, t)
    ensures Inv(t) && |t.callers| == |s.callers|
    decreases |es|
  {
    if es != [] {
      StepKeepsInv(s, es[0]);
      RunKeepsInv(Step(s, es[0]), es[1..], t);
    }
  }

  lemma {:induction false} BeginIsGood(n: nat)
    ensures Inv(Begin(n)) && WaitingCount(Begin(n).callers) == 0
  {
    WaitingPositiveIff(Begin(n).callers);
  }

  /** Ports leave in the order in which the requests came: whether or not the thread has
      ended, the k-th port delivered is that of the k-th request. */
  lemma PortsInOrder(n: nat, es: seq<Event>, t: System)
    requires Leads(Begin(n), es, t)
    ensures t.issued == t.delivered + InFlight(t)
    ensures forall k :: 0 <= k < |t.delivered| ==> t.delivered[k] == k
    ensures WaitingCount(t.callers) == |t.issued| - |t.delivered| <= 3
  {
    BeginIsGood(n);
    RunKeepsInv(Begin(n), es, t);
    forall k | 0 <= k < |t.delivered| ensures t.delivered[k] == k {
      assert t.issued[k] == t.delivered[k];
    }
  }

  /** A server that fails to start costs exactly its own request: all others without a port
      are still in the queues, and exactly one caller more waits than there are of them. */
  lemma OneRequestIsLost(n: nat, es: seq<Event>, t: System)
    requires Leads(Begin(n), es, t) && !Alive(t)
    ensures t.issued == t.delivered + Stage(t.outQueue) + [t.lost.value] + Stage(t.inQueue)
    ensures WaitingCount(t.callers) == |Stage(t.outQueue)| + 1 + |Stage(t.inQueue)|
    ensures t.lost.value == |t.delivered| + |Stage(t.outQueue)|
  {
    BeginIsGood(n);
    RunKeepsInv(Begin(n), es, t);
    assert t.issued == t.delivered + Stage(t.outQueue) + [t.lost.value] + Stage(t.inQueue);
    assert t.issued[|t.delivered| + |Stage(t.outQueue)|] == t.lost.value;
  }

  /** Each stage may be full whatever the others hold, and the thread may end at any time while it
      serves: everything in flight but a request being served after one was lost can occur. */
  lemma AnyStages(n: nat, out: bool, serving: bool, lost: bool, waiting: bool)
    returns (es: seq<Event>, t: System)
    requires n >= 3 && !(serving && lost)
    ensures Leads(Begin(n), es, t)
    ensures t.outQueue.Some? == out && t.serving.Some? == serving
    ensures t.lost.Some? == lost && t.inQueue.Some? == waiting
  {
    es, t := [], Begin(n);
    if out {
      es, t := OneMore(n, es, t, Enqueue(0));
      es, t := OneMore(n, es, t, Accept);
      es, t := OneMore(n, es, t, Start);
    }
    if serving || lost {
      es, t := OneMore(n, es, t, Enqueue(1));
      es, t := OneMore(n, es, t, Accept);
    }
    if lost {
      es, t := OneMore(n, es, t, Fail);
    }
    if waiting {
      es, t := OneMore(n, es, t, Enqueue(2));
    }
  }

  lemma OneMore(n: nat, es: seq<Event>, t: System, e: Event) returns (es': seq<Event>, t': System)
    requires Leads(Begin(n), es, t) && Enabled(t, e)
    ensures Leads(Begin(n), es', t') && t' == Step(t, e)
  {
    LeadsOnTo(Begin(n), es, t, e);
    es', t' := es + [e], Step(t, e);
  }

  lemma {:induction false} LeadsOnTo(s: System, es: seq<Event>, t: System, e: Event)
    requires Leads(s, es, t) && Enabled(t, e)
    ensures Leads(s, es + [e], Step(t, e))
    decreases |es|
  {
    if es == [] {
      assert ([e])[1..] == [];
    } else {
      assert (es + [e])[1..] == es[1..] + [e];
      LeadsOnTo(Step(s, es[0]), es[1..], t, e);
    }
  }

  // ----- Whose port -----

  ghost predicate OwnPorts(s: System) {
    forall c :: 0 <= c < |s.callers| && s.callers[c].Served? ==> s.callers[c].port == s.callers[c].request
  }

  /** With one calling thread a request waits alone, so what comes out is its own. */
  ghost predicate Alone(s: System) {
    && |s.callers| == 1 && OwnPorts(s)
    && (forall k :: k in InFlight(s) ==> s.callers[0] == Waiting(k))
  }

  lemma {:induction false} SingleThreadGetsItsOwn(s: System, es: seq<Event>, t: System)
    requires Alone(s) && Inv(s) && Leads(s, es, t)
    ensures Alone(t)
    decreases |es|
  {
    if es != [] {
      var e, u := es[0], Step(s, es[0]);
      StepKeepsInv(s, e);
      if e.Enqueue? {
        assert s.callers == [Idle];
        assert WaitingCount(s.callers[1..]) == 0;
        assert InFlight(u) == [|s.issued|];
      } else if e.Collect? {
        assert s.outQueue.value in InFlight(s);
        assert forall k :: k in InFlight(u) ==> k in InFlight(s);
        CollectEmpties(s, u);
      } else if e.Again? {
        assert forall k :: k in InFlight(s) ==> s.callers[0] == Waiting(k);
      } else {
        assert InFlight(u) == InFlight(s);
      }
      SingleThreadGetsItsOwn(u, es[1..], t);
    }
  }

  lemma OneThread(es: seq<Event>, t: System)
    requires Leads(Begin(1), es, t)
    ensures |t.callers| == 1 && OwnPorts(t)
  {
    BeginIsGood(1);
    SingleThreadGetsItsOwn(Begin(1), es, t);
  }

  lemma CollectEmpties(s: System, u: System)
    requires Inv(s) && Alone(s) && Enabled(s, Collect(0)) && u == Step(s, Collect(0))
    ensures InFlight(u) == []
  {
    assert s.callers == [s.callers[0]];
    assert WaitingCount(s.callers) == 1 + WaitingCount(s.callers[1..]) == 1;
  }

  /** Every port is taken out of `out_q` by the caller that has waited longest. */
  ghost predicate OldestFirst(s: System, es: seq<Event>)
    decreases |es|
  {
    es == [] ||
    (Enabled(s, es[0])
     && (es[0].Collect? ==> s.callers[es[0].caller].request == |s.delivered|)
     && OldestFirst(Step(s, es[0]), es[1..]))
  }

  /** At every point of the run the callers that are served hold their own ports. */
  ghost predicate OwnThroughout(s: System, es: seq<Event>)
    decreases |es|
  {
    OwnPorts(s) && (es == [] || (Enabled(s, es[0]) && OwnThroughout(Step(s, es[0]), es[1..])))
  }

  lemma CollectsOwnIff(s: System, c: nat)
    requires Inv(s) && Enabled(s, Collect(c))
    ensures var w := Step(s, Collect(c)).callers[c];
            w.Served? && (w.port == w.request <==> s.callers[c].request == |s.delivered|)
  {
    assert s.issued[|s.delivered|] == s.outQueue.value;
  }

  /** Callers get their own ports exactly in the runs in which ports are taken in the order of
      the requests, which nothing in the queues sees to. */
  lemma {:induction false} OwnPortsIff(s: System, es: seq<Event>, t: System)
    requires Inv(s) && OwnPorts(s) && Leads(s, es, t)
    ensures OwnThroughout(s, es) <==> OldestFirst(s, es)
    decreases |es|
  {
    if es != [] {
      var e, u := es[0], Step(s, es[0]);
      StepKeepsInv(s, e);
      if e.Collect? {
        CollectsOwnIff(s, e.caller);
        assert OwnPorts(u) ==> u.callers[e.caller].port == u.callers[e.caller].request;
      }
      if OwnPorts(u) {
        OwnPortsIff(u, es[1..], t);
      }
    }
  }

  lemma OwnPortsFromBegin(n: nat, es: seq<Event>, t: System)
    requires Leads(Begin(n), es, t)
    ensures OwnThroughout(Begin(n), es) <==> OldestFirst(Begin(n), es)
  {
    BeginIsGood(n);
    OwnPortsIff(Begin(n), es, t);
  }

  /** With two or more, ports can go to the wrong callers: nothing ties what leaves `out_q` to
      the one that asked. */
  lemma ThreadsCanSwap(n: nat)
    requires n >= 2
    ensures exists es, t ::
              && Leads(Begin(n), es, t) && Alive(t) && |t.callers| == n
              && t.callers[0] == Served(0, 1) && t.callers[1] == Served(1, 0)
  {
    var s0 := Begin(n);
    var rest := s0.callers[2..];
    assert s0.callers == [Idle, Idle] + rest;
    var s1 := Step(s0, Enqueue(0));
    assert s1.callers == [Waiting(0), Idle] + rest;
    var es := FromOneWaiting(s1, rest);
    LeadsOne(s0, Enqueue(0), es, Swapped(rest));
  }

  function Swapped(rest: seq<Caller>): System {
    System([Served(0, 1), Served(1, 0)] + rest, None, None, None, None, [0, 1], [0, 1])
  }

  lemma FromOneWaiting(s1: System, rest: seq<Caller>) returns (es: seq<Event>)
    requires s1 == System([Waiting(0), Idle] + rest, Some(0), None, None, None, [0], [])
    ensures Leads(s1, es, Swapped(rest))
  {
    var s3 := Step(Step(s1, Accept), Start);
    var s4 := Step(s3, Enqueue(1));
    assert s4.callers == [Waiting(0), Waiting(1)] + rest;
    es := FromBothWaiting(s4, rest);
    LeadsOne(s3, Enqueue(1), es, Swapped(rest));
    LeadsOne(Step(s1, Accept), Start, [Enqueue(1)] + es, Swapped(rest));
    LeadsOne(s1, Accept, [Start] + ([Enqueue(1)] + es), Swapped(rest));
    es := [Accept] + ([Start] + ([Enqueue(1)] + es));
  }

  lemma FromBothWaiting(s4: System, rest: seq<Caller>) returns (es: seq<Event>)
    requires s4 == System([Waiting(0), Waiting(1)] + rest, Some(1), None, Some(0), None, [0, 1], [])
    ensures Leads(s4, es, Swapped(rest))
  {
    var s5 := Step(s4, Collect(1));
    assert s5.callers == [Waiting(0), Served(1, 0)] + rest;
    var s7 := Step(Step(s5, Accept), Start);
    var t := Step(s7, Collect(0));
    assert t.callers == [Served(0, 1), Served(1, 0)] + rest && t.delivered == [0, 1];
    LeadsOne(s7, Collect(0), [], t);
    LeadsOne(Step(s5, Accept), Start, [Collect(0)] + [], t);
    LeadsOne(s5, Accept, [Start] + ([Collect(0)] + []), t);
    LeadsOne(s4, Collect(1), [Accept] + ([Start] + ([Collect(0)] + [])), t);
    es := [Collect(1)] + ([Accept] + ([Start] + ([Collect(0)] + [])));
  }

  /** In every run every caller gets its own port exactly when there is at most one. */
  lemma AlwaysOwnIff(n: nat)
    ensures (forall es, t :: Leads(Begin(n), es, t) ==> OwnPorts(t)) <==> n <= 1
  {
    if n >= 2 {
      ThreadsCanSwap(n);
      var es, t :| Leads(Begin(n), es, t) && |t.callers| == n && t.callers[0] == Served(0, 1);
      assert !OwnPorts(t);
    } else {
      forall es, t | Leads(Begin(n), es, t) ensures OwnPorts(t) {
        if n == 1 {
          OneThread(es, t);
        } else {
          BeginIsGood(0);
          RunKeepsInv(Begin(0), es, t);
        }
      }
    }
  }

  lemma LeadsOne(s: System, e: Event, es: seq<Event>, t: System)
    requires Enabled(s, e) && Leads(Step(s, e), es, t)
    ensures Leads(s, [e] + es, t)
  {
    assert ([e] + es)[1..] == es;
  }

  // ----- Nobody waits for ever -----

  ghost predicate SomeoneWaits(s: System) {
    exists c :: 0 <= c < |s.callers| && s.callers[c].Waiting?
  }

  /** With the thread alive and someone waiting, a step other than a new request can be
      taken. */
  lemma NeverStuck(s: System)
    requires Inv(s) && Alive(s) && SomeoneWaits(s)
    ensures Enabled(s, Accept) || Enabled(s, Start)
         || exists c: nat :: c < |s.callers| && Enabled(s, Collect(c))
  {
    WaitingPositiveIff(s.callers);
    var c :| 0 <= c < |s.callers| && s.callers[c].Waiting?;
    if s.outQueue.Some? {
      assert Enabled(s, Collect(c));
    } else if s.serving.None? {
      assert s.inQueue.Some? by { assert |InFlight(s)| > 0; }
    }
  }

  /** And such steps run out, three to a request: what is asked for is answered. */
  function Work(s: System): nat {
    (if s.inQueue.Some? then 3 else 0) + (if s.serving.Some? then 2 else 0)
    + if s.outQueue.Some? then 1 else 0
  }

  ghost predicate Serves(es: seq<Event>) {
    forall e :: e in es ==> e.Accept? || e.Start? || e.Collect?
  }

  lemma {:induction false} WorkRunsOut(s: System, es: seq<Event>, t: System)
    requires Leads(s, es, t) && Serves(es)
    ensures |es| + Work(t) == Work(s) <= 6
    ensures Alive(t) == Alive(s)
    decreases |es|
  {
    if es != [] {
      assert es[0] in es && forall e :: e in es[1..] ==> e in es;
      WorkRunsOut(Step(s, es[0]), es[1..], t);
    }
  }

  /** No caller that waits, nor the thread, can take a step. */
  ghost predicate Stuck(s: System) {
    && !Enabled(s, Accept) && !Enabled(s, Start)
    && forall c: nat :: !Enabled(s, Collect(c))
  }

  /** Callers are stuck exactly when the thread has ended and left no port behind. */
  lemma StuckIff(n: nat, es: seq<Event>, t: System)
    requires Leads(Begin(n), es, t) && SomeoneWaits(t)
    ensures Stuck(t) <==> !Alive(t) && t.outQueue.None?
  {
    BeginIsGood(n);
    RunKeepsInv(Begin(n), es, t);
    if Alive(t) {
      NeverStuck(t);
    } else {
      var c :| 0 <= c < |t.callers| && t.callers[c].Waiting?;
      assert t.outQueue.Some? ==> Enabled(t, Collect(c));
    }
  }

  /** And then for ever: once a server failed to start, a caller with nothing in `out_q` can
      never move again. */
  lemma {:induction false} StuckAfterFailure(s: System, es: seq<Event>, t: System, c: nat)
    requires !Alive(s) && s.outQueue.None? && s.serving.None?
    requires c < |s.callers| && s.callers[c].Waiting? && Leads(s, es, t)
    ensures |t.callers| == |s.callers| && t.callers[c] == s.callers[c]
    decreases |es|
  {
    if es != [] {
      StuckAfterFailure(Step(s, es[0]), es[1..], t, c);
    }
  }

  lemma FailureStrands()
    ensures exists es, t :: Leads(Begin(1), es, t) && !Alive(t) && t.callers == [Waiting(0)] && t.outQueue.None?
  {
    var s0 := Begin(1);
    assert s0.callers == [Idle];
    var s1 := Step(s0, Enqueue(0));
    assert s1.callers == [Waiting(0)];
    var s2 := Step(s1, Accept);
    var t := Step(s2, Fail);
    LeadsOne(s2, Fail, [], t);
    LeadsOne(s1, Accept, [Fail], t);
    LeadsOne(s0, Enqueue(0), [Accept, Fail], t);
    assert Leads(Begin(1), [Enqueue(0)] + [Accept, Fail], t);
  }

  /** A caller that has its port may ask again: it then waits like any other. */
  lemma MayAskAgain(s: System, c: nat)
    requires c < |s.callers| && s.callers[c].Served? && s.inQueue.None?
    ensures Enabled(s, Again(c)) && Enabled(Step(s, Again(c)), Enqueue(c))
    ensures var t := Step(Step(s, Again(c)), Enqueue(c));
            && t.callers == s.callers[c := Waiting(|s.issued|)] && t.issued == s.issued + [|s.issued|]
            && t.delivered == s.delivered && InFlight(t) == InFlight(s) + [|s.issued|]
  {
  }

  function Enqueues(es: seq<Event>): nat {
    if es == [] then 0 else (if es[0].Enqueue? then 1 else 0) + Enqueues(es[1..])
  }

  /** After the end of the thread `in_q` is never emptied: at most one more request goes in, and
      none once it is full. */
  lemma {:induction false} DeadQueueFills(s: System, es: seq<Event>, t: System)
    requires !Alive(s) && Leads(s, es, t)
    ensures !Alive(t) && Enqueues(es) == |Stage(t.inQueue)| - |Stage(s.inQueue)| <= 1
    ensures s.inQueue.Some? ==> t.inQueue == s.inQueue
    decreases |es|
  {
    if es != [] {
      DeadQueueFills(Step(s, es[0]), es[1..], t);
    }
  }

  /** A caller that has no port: it waits for one, or is still to put its request into `in_q`. */
  ghost predicate SomeoneWants(s: System) {
    exists c :: 0 <= c < |s.callers| && !s.callers[c].Served?
  }

  ghost predicate SomeoneIdle(s: System) {
    exists c :: 0 <= c < |s.callers| && s.callers[c].Idle?
  }

  /** Neither the thread nor any of these callers can take a step. */
  ghost predicate Halted(s: System) {
    Stuck(s) && forall c: nat :: !Enabled(s, Enqueue(c))
  }

  /** With the callers that block on a full `in_q` counted too: all are stuck exactly when the
      thread has ended, left no port behind, and `in_q` is full or nobody is about to ask. */
  lemma HaltedIff(n: nat, es: seq<Event>, t: System)
    requires Leads(Begin(n), es, t) && SomeoneWants(t)
    ensures Halted(t) <==>
              !Alive(t) && (t.outQueue.None? || !SomeoneWaits(t)) && (t.inQueue.Some? || !SomeoneIdle(t))
  {
    BeginIsGood(n);
    RunKeepsInv(Begin(n), es, t);
    if SomeoneWaits(t) {
      StuckIff(n, es, t);
    } else {
      WaitingPositiveIff(t.callers);
      assert |InFlight(t)| == 0;
    }
    IdleCanAskIff(t);
  }

  lemma IdleCanAskIff(s: System)
    ensures (exists c: nat :: Enabled(s, Enqueue(c))) <==> SomeoneIdle(s) && s.inQueue.None?
  {
    if SomeoneIdle(s) && s.inQueue.None? {
      var c :| 0 <= c < |s.callers| && s.callers[c].Idle?;
      assert Enabled(s, Enqueue(c));
    }
  }
}
