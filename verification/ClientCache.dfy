/** The client cache of the parallel client: the `hosts` setter and `_get_ssh_client`, whose
    check and store lie on the two sides of building a client. */
module ClientCache {
  import opened Options

  type Key = (nat, string)

  /** The key is a position of the host list with the host that stands there. */
  predicate Fits(hosts: seq<string>, k: Key) {
    k.0 < |hosts| && hosts[k.0] == k.1
  }

  function Enumerate(hosts: seq<string>): set<Key> {
    set i | 0 <= i < |hosts| :: (i, hosts[i])
  }

  /** The cache after the host list changed. */
  function Prune(clients: map<Key, nat>, oldHosts: seq<string>, newHosts: seq<string>): map<Key, nat> {
    map k | k in clients && !(Fits(oldHosts, k) && !Fits(newHosts, k)) :: clients[k]
  }

  /** A reassignment drops a client exactly when its pair was in the list and no longer is; so
      one whose pair was not in the list is kept. */
  lemma PruneKeepsIff(clients: map<Key, nat>, oldHosts: seq<string>, newHosts: seq<string>, k: Key)
    requires k in clients
    ensures k in Prune(clients, oldHosts, newHosts) <==> (Fits(oldHosts, k) ==> Fits(newHosts, k))
    ensures k in Prune(clients, oldHosts, newHosts) ==> Prune(clients, oldHosts, newHosts)[k] == clients[k]
  {
  }

  // ----- Any number of requests -----

  /** `Raised`: the client could not be built. */
  datatype Phase = Spawned | Building | Done(client: nat) | Raised

  predicate Over(p: Phase) {
    p.Done? || p.Raised?
  }

  /** One `_get_ssh_client` call; `straddled` when the host list changed before it was done. */
  datatype Request = Request(key: Key, phase: Phase, straddled: bool)

  datatype System = System(hosts: seq<string>, clients: map<Key, nat>, built: nat, requests: seq<Request>)

  datatype Event = Spawn(i: nat) | Check(r: nat) | Finish(r: nat) | Raise(r: nat) | Reassign(hosts: seq<string>)

  function Begin(hosts: seq<string>): System {
    System(hosts, map[], 0, [])
  }

  predicate Enabled(s: System, e: Event) {
    match e
    case Spawn(i) => i < |s.hosts|
    case Check(r) => r < |s.requests| && s.requests[r].phase == Spawned
    case Finish(r) => r < |s.requests| && s.requests[r].phase == Building
    case Raise(r) => r < |s.requests| && s.requests[r].phase == Building
    case Reassign(_) => true
  }

  function Straddle(requests: seq<Request>): seq<Request> {
    seq(|requests|, r requires 0 <= r < |requests| =>
      if Over(requests[r].phase) then requests[r] else requests[r].(straddled := true))
  }

  function Step(s: System, e: Event): System
    requires Enabled(s, e)
  {
    match e
    case Spawn(i) => s.(requests := s.requests + [Request((i, s.hosts[i]), Spawned, false)])
    case Check(r) =>
      var q := s.requests[r];
      var phase := if q.key in s.clients then Done(s.clients[q.key]) else Building;
      s.(requests := s.requests[r := q.(phase := phase)])
    case Finish(r) =>
      var q := s.requests[r];
      s.(clients := s.clients[q.key := s.built], built := s.built + 1,
         requests := s.requests[r := q.(phase := Done(s.built))])
    case Raise(r) => s.(requests := s.requests[r := s.requests[r].(phase := Raised)])
    case Reassign(hosts) =>
      s.(hosts := hosts, clients := Prune(s.clients, s.hosts, hosts), requests := Straddle(s.requests))
  }

  ghost predicate Leads(s: System, es: seq<Event>, t: System)
    decreases |es|
  {
    if es == [] then s == t else Enabled(s, es[0]) && Leads(Step(s, es[0]), es[1..], t)
  }

  /** A call can be made for every position of the list, and is for the host that stands
      there. */
  lemma SpawnsForItsHost(s: System, i: nat)
    requires i < |s.hosts|
    ensures Enabled(s, Spawn(i))
    ensures var t := Step(s, Spawn(i));
            && t.requests[..|s.requests|] == s.requests && |t.requests| == |s.requests| + 1
            && t.requests[|s.requests|].key.0 == i && Fits(s.hosts, t.requests[|s.requests|].key)
            && t.requests[|s.requests|].phase == Spawned && !t.requests[|s.requests|].straddled
            && t.(requests := []) == s.(requests := [])
  {
  }

  /** It keeps that pair through every run, and once it is over nothing happens to it. */
  lemma {:induction false} CallsKeepTheirPair(s: System, es: seq<Event>, t: System, r: nat)
    requires Leads(s, es, t) && r < |s.requests|
    ensures |s.requests| <= |t.requests| && t.requests[r].key == s.requests[r].key
    ensures Over(s.requests[r].phase) ==> t.requests[r] == s.requests[r]
    decreases |es|
  {
    if es != [] {
      CallsKeepTheirPair(Step(s, es[0]), es[1..], t, r);
    }
  }

  /** And the client that it is done with is the one that is then cached under its pair: that
      from the cache if there is one, otherwise a new one. */
  lemma DoneWithItsClient(s: System, e: Event, r: nat)
    requires Enabled(s, e) && r < |s.requests| && !Over(s.requests[r].phase)
    requires Step(s, e).requests[r].phase.Done?
    ensures var t, key := Step(s, e), s.requests[r].key;
            && key in t.clients && t.clients[key] == t.requests[r].phase.client
            && (s.requests[r].phase == Spawned ==> key in s.clients && t.clients == s.clients && t.built == s.built)
            && (s.requests[r].phase == Building ==> t.clients[key] == s.built < t.built)
  {
  }

  /** A call goes on to build a client only when there is none for its pair. */
  lemma BuildsIfNone(s: System, r: nat)
    requires Enabled(s, Check(r))
    ensures Step(s, Check(r)).requests[r].phase == Building <==> s.requests[r].key !in s.clients
  {
  }

  /** Building may fail at any time; it leaves nothing behind, and the next call for the pair
      builds again. */
  lemma RaiseLeavesNothing(s: System, r: nat, q: nat)
    requires r < |s.requests| && s.requests[r].phase == Building
    requires q < |s.requests| && s.requests[q].phase == Spawned && s.requests[q].key == s.requests[r].key
    requires s.requests[r].key !in s.clients
    ensures Enabled(s, Raise(r))
    ensures var t := Step(s, Raise(r));
            && Over(t.requests[r].phase) && !t.requests[r].phase.Done?
            && t.(requests := []) == s.(requests := [])
            && t.requests[q] == s.requests[q]
            && Step(t, Check(q)).requests[q].phase == Building
  {
  }

  // ----- The client -----

  /** A client is known by a number of its own.  `requests` records the `_get_ssh_client` calls
      that were made. */
  class ParallelClient {
    var hosts: seq<string>
    var clients: map<Key, nat>
    var built: nat
    ghost var requests: seq<Request>

    ghost function State(): System
      reads this
    {
      System(hosts, clients, built, requests)
    }

    constructor (hosts: seq<string>)
      ensures State() == Begin(hosts)
    {
      this.hosts, clients, built, requests := hosts, map[], 0, [];
    }

    method SetHosts(newHosts: seq<string>)
      modifies this
      ensures State() == Step(old(State()), Reassign(newHosts))
    {
      var toRemove := Enumerate(hosts) - Enumerate(newHosts);
      ghost var all := toRemove;
      while toRemove != {}
        invariant toRemove <= all && hosts == old(hosts) && built == old(built) && requests == old(requests)
        invariant clients == map k | k in old(clients) && k !in all - toRemove :: old(clients)[k]
        decreases toRemove
      {
        var k :| k in toRemove;
        clients := map j | j in clients && j != k :: clients[j];
        toRemove := toRemove - {k};
      }
      forall k: Key ensures k in all <==> Fits(hosts, k) && !Fits(newHosts, k) {
        assert Fits(hosts, k) <==> k in Enumerate(hosts);
        assert Fits(newHosts, k) <==> k in Enumerate(newHosts);
      }
      hosts := newHosts;
      requests := Straddle(requests);
    }

    /** The part of `_get_ssh_client` before the yield, for call number `r`: without a cached
        client it goes on to build one. */
    method Find(key: Key, ghost r: nat) returns (client: Option<nat>)
      requires Enabled(State(), Check(r)) && requests[r].key == key
      modifies this`requests
      ensures State() == Step(old(State()), Check(r))
      ensures requests[r].phase == if client.Some? then Done(client.value) else Building
    {
      client := if key in clients then Some(clients[key]) else None;
      ghost var phase := if client.Some? then Done(client.value) else Building;
      requests := requests[r := requests[r].(phase := phase)];
    }

    /** The part after it: the client that was built is stored, whatever happened meanwhile. */
    method Store(key: Key, ghost r: nat) returns (client: nat)
      requires Enabled(State(), Finish(r)) && requests[r].key == key
      modifies this
      ensures State() == Step(old(State()), Finish(r))
      ensures requests[r].phase == Done(client)
    {
      client, built := built, built + 1;
      clients := clients[key := client];
      requests := requests[r := requests[r].(phase := Done(client))];
    }
  }

  /** A request for the key was overtaken by a change of the host list. */
  ghost predicate Overtaken(s: System, k: Key) {
    exists r :: 0 <= r < |s.requests| && s.requests[r].key == k && s.requests[r].straddled && s.requests[r].phase.Done?
  }

  ghost predicate Inv(s: System) {
    && (forall k :: k in s.clients ==> Fits(s.hosts, k) || Overtaken(s, k))
    && (forall r :: 0 <= r < |s.requests| && !s.requests[r].straddled && !Over(s.requests[r].phase) ==>
          Fits(s.hosts, s.requests[r].key))
  }

  /** Requests only gain marks. */
  lemma StaysOvertaken(s: System, e: Event, k: Key)
    requires Enabled(s, e) && Overtaken(s, k)
    ensures Overtaken(Step(s, e), k)
  {
    var r :| 0 <= r < |s.requests| && s.requests[r].key == k && s.requests[r].straddled && s.requests[r].phase.Done?;
    assert Step(s, e).requests[r] == s.requests[r];
  }

  lemma StepKeepsInv(s: System, e: Event)
    requires Inv(s) && Enabled(s, e)
    ensures Inv(Step(s, e))
  {
    var t := Step(s, e);
    forall k | k in t.clients ensures Fits(t.hosts, k) || Overtaken(t, k) {
      if e.Finish? && k == s.requests[e.r].key {
        assert t.requests[e.r].key == k && t.requests[e.r].phase.Done?;
      } else if Overtaken(s, k) {
        StaysOvertaken(s, e, k);
      }
    }
  }

  /** Over all runs: a cached key is a pair of the current host list, unless its client was
      asked for before a change of the list and stored after it. */
  lemma {:induction false} CacheFits(s: System, es: seq<Event>, t: System)
    requires Inv(s) && Leads(s, es, t)
    ensures Inv(t)
    decreases |es|
  {
    if es != [] {
      StepKeepsInv(s, es[0]);
      CacheFits(Step(s, es[0]), es[1..], t);
    }
  }

  /** The list changes only while no request is under way. */
  ghost predicate Quiet(s: System, es: seq<Event>)
    decreases |es|
  {
    es == [] ||
    (Enabled(s, es[0])
     && (es[0].Reassign? ==> forall r :: 0 <= r < |s.requests| ==> Over(s.requests[r].phase))
     && Quiet(Step(s, es[0]), es[1..]))
  }

  ghost predicate NoneStraddled(s: System) {
    forall r :: 0 <= r < |s.requests| ==> !s.requests[r].straddled
  }

  /** Then every cached key fits. */
  lemma {:induction false} QuietCacheFits(s: System, es: seq<Event>, t: System)
    requires Inv(s) && NoneStraddled(s) && Leads(s, es, t) && Quiet(s, es)
    ensures forall k :: k in t.clients ==> Fits(t.hosts, k)
    decreases |es|
  {
    if es != [] {
      StepKeepsInv(s, es[0]);
      QuietCacheFits(Step(s, es[0]), es[1..], t);
    }
  }

  // ----- When every cached key fits -----

  ghost predicate CacheIsCurrent(s: System) {
    forall k :: k in s.clients ==> Fits(s.hosts, k)
  }

  /** The cache is current at every point of the run. */
  ghost predicate CurrentThroughout(s: System, es: seq<Event>)
    decreases |es|
  {
    CacheIsCurrent(s) && (es == [] || (Enabled(s, es[0]) && CurrentThroughout(Step(s, es[0]), es[1..])))
  }

  /** Every client is stored while its pair is in the list: a check that the code does not make
      after building it. */
  ghost predicate Timely(s: System, es: seq<Event>)
    decreases |es|
  {
    es == [] ||
    (Enabled(s, es[0])
     && (es[0].Finish? ==> Fits(s.hosts, s.requests[es[0].r].key))
     && Timely(Step(s, es[0]), es[1..]))
  }

  /** The cache stays current in exactly those runs. */
  lemma {:induction false} CurrentIff(s: System, es: seq<Event>, t: System)
    requires CacheIsCurrent(s) && Leads(s, es, t)
    ensures CurrentThroughout(s, es) <==> Timely(s, es)
    decreases |es|
  {
    if es != [] {
      var e, u := es[0], Step(s, es[0]);
      assert CacheIsCurrent(u) <==> (e.Finish? ==> Fits(s.hosts, s.requests[e.r].key)) by {
        if e.Finish? { assert s.requests[e.r].key in u.clients; }
      }
      if CacheIsCurrent(u) {
        CurrentIff(u, es[1..], t);
      }
    }
  }

  /** A cached client stays cached throughout the run. */
  ghost predicate StaysCached(s: System, es: seq<Event>, k: Key)
    decreases |es|
  {
    k in s.clients && (es == [] || (Enabled(s, es[0]) && StaysCached(Step(s, es[0]), es[1..], k)))
  }

  /** Some reassignment takes the pair out of the list. */
  ghost predicate TakenOut(s: System, es: seq<Event>, k: Key)
    decreases |es|
  {
    es != [] && Enabled(s, es[0])
    && ((es[0].Reassign? && Fits(s.hosts, k) && !Fits(es[0].hosts, k)) || TakenOut(Step(s, es[0]), es[1..], k))
  }

  /** A client is dropped exactly when a reassignment takes its pair out of the list. */
  lemma {:induction false} StaysCachedIff(s: System, es: seq<Event>, t: System, k: Key)
    requires k in s.clients && Leads(s, es, t)
    ensures StaysCached(s, es, k) <==> !TakenOut(s, es, k)
    decreases |es|
  {
    if es != [] {
      var u := Step(s, es[0]);
      if es[0].Reassign? { PruneKeepsIff(s.clients, s.hosts, es[0].hosts, k); }
      assert k in u.clients <==> !(es[0].Reassign? && Fits(s.hosts, k) && !Fits(es[0].hosts, k));
      if k in u.clients {
        StaysCachedIff(u, es[1..], t, k);
      }
    }
  }

  ghost predicate NeverListed(s: System, es: seq<Event>, k: Key) {
    !Fits(s.hosts, k) && forall e :: e in es && e.Reassign? ==> !Fits(e.hosts, k)
  }

  /** So a stale one survives every reassignment to a list that does not have its pair: it goes
      only after a list took the pair in again and a later one left it out. */
  lemma {:induction false} StaleSurvives(s: System, es: seq<Event>, t: System, k: Key)
    requires k in s.clients && Leads(s, es, t) && NeverListed(s, es, k)
    ensures StaysCached(s, es, k) && k in t.clients
    decreases |es|
  {
    if es != [] {
      assert es[0] in es && forall e :: e in es[1..] ==> e in es;
      StaleSurvives(Step(s, es[0]), es[1..], t, k);
    }
  }

  lemma LeadsOne(s: System, e: Event, es: seq<Event>, t: System)
    requires Enabled(s, e) && Leads(Step(s, e), es, t)
    ensures Leads(s, [e] + es, t)
  {
    assert ([e] + es)[1..] == es;
  }

  /** Otherwise a stale key can stay behind. */
  lemma StaleKeyReachable(a: string, b: string)
    requires a != b
    ensures exists es, t :: Leads(Begin([a]), es, t) && t.hosts == [b] && t.clients.Keys == {(0, a)}
  {
    var s0 := Begin([a]);
    var s1 := Step(s0, Spawn(0));
    var s2 := Step(s1, Check(0));
    var s3 := Step(s2, Reassign([b]));
    assert s3.requests[0] == Request((0, a), Building, true);
    var t := Step(s3, Finish(0));
    LeadsOne(s3, Finish(0), [], t);
    LeadsOne(s2, Reassign([b]), [Finish(0)] + [], t);
    LeadsOne(s1, Check(0), [Reassign([b])] + ([Finish(0)] + []), t);
    LeadsOne(s0, Spawn(0), [Check(0)] + ([Reassign([b])] + ([Finish(0)] + [])), t);
  }

  /** And two requests for one host at once get two clients, the second replacing the first. */
  lemma TwoClientsReachable(a: string)
    ensures exists es, t ::
              && Leads(Begin([a]), es, t) && |t.requests| == 2
              && t.requests[0] == Request((0, a), Done(0), false)
              && t.requests[1] == Request((0, a), Done(1), false)
              && t.clients == map[(0, a) := 1]
  {
    var s0 := Begin([a]);
    var s2 := Step(Step(s0, Spawn(0)), Spawn(0));
    var s3 := Step(s2, Check(0));
    var s4 := Step(s3, Check(1));
    var s5 := Step(s4, Finish(0));
    var t := Step(s5, Finish(1));
    LeadsOne(s5, Finish(1), [], t);
    LeadsOne(s4, Finish(0), [Finish(1)] + [], t);
    LeadsOne(s3, Check(1), [Finish(0)] + ([Finish(1)] + []), t);
    LeadsOne(s2, Check(0), [Check(1)] + ([Finish(0)] + ([Finish(1)] + [])), t);
    var es := [Check(0)] + ([Check(1)] + ([Finish(0)] + ([Finish(1)] + [])));
    LeadsOne(Step(s0, Spawn(0)), Spawn(0), es, t);
    LeadsOne(s0, Spawn(0), [Spawn(0)] + es, t);
  }

  // ----- One client to a key -----

  /** No two requests for one key are under way together, and the list stays as it is. */
  ghost predicate OneAtATime(s: System) {
    forall q, r :: 0 <= q < r < |s.requests| && s.requests[q].key == s.requests[r].key ==>
      Over(s.requests[q].phase) || Over(s.requests[r].phase)
  }

  ghost predicate Apart(s: System, es: seq<Event>)
    decreases |es|
  {
    && OneAtATime(s)
    && (es == [] || (Enabled(s, es[0]) && !es[0].Reassign? && Apart(Step(s, es[0]), es[1..])))
  }

  /** Every request that is done has the cached client of its key. */
  ghost predicate Agreed(s: System) {
    forall r :: 0 <= r < |s.requests| && s.requests[r].phase.Done? ==>
      s.requests[r].key in s.clients && s.clients[s.requests[r].key] == s.requests[r].phase.client
  }

  ghost predicate Shared(s: System) {
    && Agreed(s)
    && (forall r :: 0 <= r < |s.requests| && s.requests[r].phase == Building ==> s.requests[r].key !in s.clients)
  }

  lemma StepShares(s: System, e: Event)
    requires Shared(s) && OneAtATime(s) && Enabled(s, e) && !e.Reassign?
    ensures Shared(Step(s, e))
  {
    if e.Finish? {
      var k := s.requests[e.r].key;
      assert k !in s.clients;
      assert forall r :: 0 <= r < |s.requests| && s.requests[r].key == k && !Over(s.requests[r].phase) ==>
          r <= e.r && e.r <= r;
    }
  }

  /** Then all requests for a key, over the whole run, get the one client of the cache. */
  lemma {:induction false} OneClientPerKey(s: System, es: seq<Event>, t: System)
    requires Shared(s) && Leads(s, es, t) && Apart(s, es)
    ensures Shared(t)
    decreases |es|
  {
    if es != [] {
      StepShares(s, es[0]);
      OneClientPerKey(Step(s, es[0]), es[1..], t);
    }
  }

  // And exactly when.

  ghost predicate AgreedThroughout(s: System, es: seq<Event>)
    decreases |es|
  {
    Agreed(s) && (es == [] || (Enabled(s, es[0]) && AgreedThroughout(Step(s, es[0]), es[1..])))
  }

  /** No client is stored over another one: again a check that the code makes only before it
      builds the client. */
  ghost predicate NeverOver(s: System, es: seq<Event>)
    decreases |es|
  {
    es == [] ||
    (Enabled(s, es[0])
     && (es[0].Finish? ==> s.requests[es[0].r].key !in s.clients)
     && NeverOver(Step(s, es[0]), es[1..]))
  }

  /** A cached client was built, and was handed to a request for its key. */
  ghost predicate Owned(s: System) {
    && (forall k :: k in s.clients ==> s.clients[k] < s.built)
    && (forall k :: k in s.clients ==>
          exists r :: 0 <= r < |s.requests| && s.requests[r].key == k && s.requests[r].phase.Done?)
  }

  ghost predicate NoReassign(es: seq<Event>) {
    forall e :: e in es ==> !e.Reassign?
  }

  lemma StepOwns(s: System, e: Event)
    requires Owned(s) && Enabled(s, e) && !e.Reassign?
    ensures Owned(Step(s, e))
  {
    var t := Step(s, e);
    forall k | k in t.clients
      ensures exists r :: 0 <= r < |t.requests| && t.requests[r].key == k && t.requests[r].phase.Done?
    {
      if e.Finish? && k == s.requests[e.r].key {
        assert t.requests[e.r].phase.Done?;
      } else {
        var r :| 0 <= r < |s.requests| && s.requests[r].key == k && s.requests[r].phase.Done?;
        assert t.requests[r] == s.requests[r];
      }
    }
  }

  lemma StepAgreesIff(s: System, e: Event)
    requires Owned(s) && Agreed(s) && Enabled(s, e) && !e.Reassign?
    ensures Agreed(Step(s, e)) <==> (e.Finish? ==> s.requests[e.r].key !in s.clients)
  {
    var t := Step(s, e);
    if e.Finish? {
      var k := s.requests[e.r].key;
      if k in s.clients {
        var r :| 0 <= r < |s.requests| && s.requests[r].key == k && s.requests[r].phase.Done?;
        assert t.requests[r] == s.requests[r];
        assert t.clients[k] == s.built && t.requests[r].phase.client < s.built;
      }
    }
  }

  /** While the list stays as it is, every request that is done has the cached client of its
      key, at every point, exactly in the runs in which no client is stored over another. */
  lemma {:induction false} AgreedIff(s: System, es: seq<Event>, t: System)
    requires Owned(s) && Agreed(s) && Leads(s, es, t) && NoReassign(es)
    ensures AgreedThroughout(s, es) <==> NeverOver(s, es)
    decreases |es|
  {
    if es != [] {
      var e, u := es[0], Step(s, es[0]);
      assert e in es && forall e' :: e' in es[1..] ==> e' in es;
      StepOwns(s, e);
      StepAgreesIff(s, e);
      if Agreed(u) {
        AgreedIff(u, es[1..], t);
      }
    }
  }

  lemma BeginIsGood(hosts: seq<string>)
    ensures Owned(Begin(hosts)) && Agreed(Begin(hosts)) && CacheIsCurrent(Begin(hosts)) && Inv(Begin(hosts))
  {
  }

  /** The three together, for the runs of a new client. */
  lemma FromBegin(hosts: seq<string>, es: seq<Event>, t: System)
    requires Leads(Begin(hosts), es, t)
    ensures Inv(t)
    ensures CurrentThroughout(Begin(hosts), es) <==> Timely(Begin(hosts), es)
    ensures NoReassign(es) ==> (AgreedThroughout(Begin(hosts), es) <==> NeverOver(Begin(hosts), es))
  {
    BeginIsGood(hosts);
    CacheFits(Begin(hosts), es, t);
    CurrentIff(Begin(hosts), es, t);
    if NoReassign(es) {
      AgreedIff(Begin(hosts), es, t);
    }
  }
}
