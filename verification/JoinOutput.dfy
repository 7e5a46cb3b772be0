/** What the parallel client makes of the greenlets that `joinall` reports: the finished and the
    unfinished outputs of `join` with a timeout, and the shells of `open_shell`. */
module JoinOutput {
  import opened Distinct
  import opened Options

  /** A `HostOutput`; it has no client when the command could not be run on its host. */
  datatype Output = Output(id: nat, hasClient: bool)

  type Item = Option<Output>

  datatype Result =
    | Completed
    | Failed
    | IndexError
    | TimedOut(finished: seq<Item>, unfinished: set<Item>)

  /** What `_join` returns for an output: nothing when there is no client. */
  function JoinOne(o: Item): Item {
    if o.Some? && o.value.hasClient then o else None
  }

  function Elements(items: seq<Item>): set<Item> {
    set i | 0 <= i < |items| :: items[i]
  }

  /** What `joinall` reports: the greenlets that finished within the timeout, each once, in
      any order. */
  ghost predicate Reported(outputs: seq<Item>, done: seq<nat>) {
    Below(done, |outputs|) && AllDistinct(done)
  }

  function FinishedOutput(outputs: seq<Item>, done: seq<nat>): seq<Item>
    requires forall k :: 0 <= k < |done| ==> done[k] < |outputs|
  {
    seq(|done|, k requires 0 <= k < |done| => JoinOne(outputs[done[k]]))
  }

  function UnfinishedOutput(outputs: seq<Item>, done: seq<nat>): set<Item>
    requires forall k :: 0 <= k < |done| ==> done[k] < |outputs|
  {
    Elements(outputs) - Elements(FinishedOutput(outputs, done))
  }

  lemma NothingLeftIff(done: seq<nat>, n: nat)
    requires Below(done, n) && AllDistinct(done)
    ensures Range(n) - Members(done) == {} <==> |done| == n
  {
    CoversIff(done, n);
    assert Members(done) <= Range(n);
    if Range(n) - Members(done) == {} {
      assert Range(n) <= Members(done);
    }
  }

  lemma ReportedBelow(outputs: seq<Item>, done: seq<nat>)
    requires Reported(outputs, done)
    ensures Below(done, |outputs|) && AllDistinct(done)
    ensures forall k :: 0 <= k < |done| ==> done[k] < |outputs|
  {
  }

  lemma FinishedIs(outputs: seq<Item>, done: seq<nat>, finished: seq<Item>)
    requires forall k :: 0 <= k < |done| ==> done[k] < |outputs|
    requires |finished| == |done|
    requires forall k :: 0 <= k < |done| ==> finished[k] == JoinOne(outputs[done[k]])
    ensures finished == FinishedOutput(outputs, done)
    ensures Elements(outputs) - Elements(finished) == UnfinishedOutput(outputs, done)
  {
    hide Elements;
    assert finished == FinishedOutput(outputs, done);
  }

  /** `raised` says whether a finished greenlet raised, and `hosts` is the length of the host
      list, which is indexed by the position of each finished greenlet. */
  method Join(outputs: seq<Item>, done: seq<nat>, raised: bool, timeout: bool, hosts: nat) returns (r: Result)
    requires Reported(outputs, done)
    ensures r == if raised then Failed
                 else if !timeout || |done| == |outputs| then Completed
                 else if |done| > hosts then IndexError
                 else TimedOut(FinishedOutput(outputs, done), UnfinishedOutput(outputs, done))
  {
    hide *;
    ReportedBelow(outputs, done);
    if raised {
      return Failed;
    }
    if !timeout {
      return Completed;
    }
    var unfinished := Range(|outputs|) - Members(done);
    NothingLeftIff(done, |outputs|);
    if unfinished == {} {
      return Completed;
    }
    var finished: seq<Item> := [];
    for k := 0 to |done|
      invariant k <= hosts && |finished| == k
      invariant forall j :: 0 <= j < k ==> finished[j] == JoinOne(outputs[done[j]])
    {
      if k >= hosts {
        return IndexError;
      }
      finished := finished + [JoinOne(outputs[done[k]])];
    }
    FinishedIs(outputs, done, finished);
    return TimedOut(finished, Elements(outputs) - Elements(finished));
  }

  /** An output is reported unfinished exactly when no greenlet that finished stood for it
      with a client; so one without a client always is, whether or not its own finished. */
  lemma UnfinishedIff(outputs: seq<Item>, done: seq<nat>, o: Output)
    requires Reported(outputs, done) && Some(o) in outputs
    ensures Some(o) in UnfinishedOutput(outputs, done)
       <==> !(o.hasClient && exists k :: 0 <= k < |done| && outputs[done[k]] == Some(o))
  {
    var finished := FinishedOutput(outputs, done);
    assert Some(o) in Elements(outputs);
    if k :| 0 <= k < |done| && outputs[done[k]] == Some(o) && o.hasClient {
      assert finished[k] == Some(o);
    }
    if Some(o) in Elements(finished) {
      var k :| 0 <= k < |finished| && finished[k] == Some(o);
      assert outputs[done[k]] == Some(o);
    }
  }

  ghost predicate Ordinary(outputs: seq<Item>) {
    && (forall i :: 0 <= i < |outputs| ==> outputs[i].Some? && outputs[i].value.hasClient)
    && (forall i, j :: 0 <= i < j < |outputs| ==> outputs[i] != outputs[j])
  }

  /** For distinct outputs that all have clients the two lists hold every output once
      between them. */
  lemma {:induction false} TimeoutPartitions(outputs: seq<Item>, done: seq<nat>)
    requires Reported(outputs, done) && Ordinary(outputs)
    ensures multiset(FinishedOutput(outputs, done)) + multiset(UnfinishedOutput(outputs, done))
         == multiset(outputs)
  {
    var finished, unfinished := FinishedOutput(outputs, done), UnfinishedOutput(outputs, done);
    forall x: Item
      ensures (multiset(finished) + multiset(unfinished))[x] == multiset(outputs)[x]
    {
      OnceIff(outputs, x);
      forall j, k | 0 <= j < k < |finished| ensures finished[j] != finished[k] {
        assert finished[j] == outputs[done[j]] && finished[k] == outputs[done[k]];
      }
      OnceIff(finished, x);
      if x in finished {
        var k :| 0 <= k < |finished| && finished[k] == x;
        assert outputs[done[k]] == x;
      }
      assert x in Elements(outputs) <==> x in outputs;
      assert x in Elements(finished) <==> x in finished;
    }
  }

  lemma {:induction false} OnceIff(items: seq<Item>, x: Item)
    requires forall i, j :: 0 <= i < j < |items| ==> items[i] != items[j]
    ensures multiset(items)[x] == if x in items then 1 else 0
  {
    if items != [] {
      var n := |items| - 1;
      OnceIff(items[..n], x);
      assert items == items[..n] + [items[n]];
    }
  }

  // ----- The shells of `open_shell` -----

  /** A shell is known by the position of its host. */
  datatype Shell = Shell(host: nat)

  /** `done` is the order in which the greenlets finished, one to a host. */
  method OpenShell(done: seq<nat>, hosts: nat) returns (shells: seq<Shell>)
    requires Below(done, hosts) && AllDistinct(done) && |done| == hosts
    ensures |shells| == hosts && forall k :: 0 <= k < hosts ==> shells[k] == Shell(done[k])
    ensures forall h: nat :: h < hosts ==> Shell(h) in shells
  {
    shells := [];
    for k := 0 to |done|
      invariant |shells| == k && forall i :: 0 <= i < k ==> shells[i] == Shell(done[i])
    {
      shells := shells + [Shell(done[k])];
    }
    CoversIff(done, hosts);
    forall h: nat | h < hosts ensures Shell(h) in shells {
      assert h in Members(done);
      var k :| 0 <= k < |done| && done[k] == h;
      assert shells[k] == Shell(h);
    }
  }

  ghost predicate Ascending(done: seq<nat>) {
    forall j, k :: 0 <= j < k < |done| ==> done[j] < done[k]
  }

  lemma {:induction false} AscendsFast(done: seq<nat>, k: nat)
    requires Ascending(done) && k < |done|
    ensures done[k] >= k
  {
    if k > 0 {
      AscendsFast(done, k - 1);
    }
  }

  lemma {:induction false} AscendsSlowly(done: seq<nat>, hosts: nat, k: nat)
    requires Ascending(done) && Below(done, hosts) && |done| == hosts && k < hosts
    ensures done[k] <= k
    decreases hosts - k
  {
    if k + 1 < hosts {
      AscendsSlowly(done, hosts, k + 1);
    }
  }

  /** The shells are in the order of the hosts, as is promised, exactly when the greenlets
      happened to finish in that order. */
  lemma ShellsInOrderIff(done: seq<nat>, hosts: nat, shells: seq<Shell>)
    requires Below(done, hosts) && |done| == hosts
    requires |shells| == hosts && forall k :: 0 <= k < hosts ==> shells[k] == Shell(done[k])
    ensures (forall k :: 0 <= k < hosts ==> shells[k].host == k) <==> Ascending(done)
  {
    if Ascending(done) {
      forall k | 0 <= k < hosts ensures shells[k].host == k {
        AscendsFast(done, k);
        AscendsSlowly(done, hosts, k);
      }
    } else {
      var j, k :| 0 <= j < k < |done| && done[j] >= done[k];
      assert shells[j].host >= shells[k].host;
    }
  }
}
