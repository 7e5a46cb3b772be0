/** Connecting with retries: `_connect`, `_connect_socket`, `_init_session` and
    `_connect_init_session_retry`, which call one another. */
module Connect {
  import opened Options

  // ----- The network -----

  /** `getaddrinfo` after the IPv6 filter. */
  datatype Lookup = Unresolved | NoIpv6 | Addresses(count: nat)

  /** One `sock.connect`. `SocketError` is any socket error but a refusal. */
  datatype Attempt = Accepted | Refused | SocketError

  /** How the k-th lookup, socket attempt and handshake of a client turn out. */
  datatype Network = Network(lookup: nat -> Lookup, attempt: nat -> Attempt, handshake: nat -> bool)

  /** A lookup that succeeds has at least one address, and here at most `n`. */
  ghost predicate AtMost(net: Network, n: nat) {
    forall k {:trigger net.lookup(k)} :: net.lookup(k).Addresses? ==> 0 < net.lookup(k).count <= n
  }

  datatype Outcome =
    | Returned
    | ConnectionRefused
    | ConnectionFailed
    | UnknownHost
    | NoIpv6AddressFound
    | HandshakeFailed

  /** A session is new, or has shaken hands over one socket. */
  datatype Session = New | Shook(over: Option<nat>)

  /** A socket is known by the number of the attempt it was made for. */
  datatype Client = Client(
    lookups: nat, attempts: nat, handshakes: nat, sock: Option<nat>, session: Option<Session>)

  const START := Client(0, 0, 0, None, None)

  // ----- What the calls do -----

  function Gap(limit: nat, retries: nat): nat {
    if retries < limit then limit - retries else 0
  }

  function ConnectTo(net: Network, limit: nat, c: Client, retries: nat): (Client, Outcome)
    decreases Gap(limit, retries), 2, 0
  {
    var c1 := c.(lookups := c.lookups + 1);
    match net.lookup(c.lookups)
    case Unresolved => if retries < limit then ConnectTo(net, limit, c1, retries + 1) else (c1, UnknownHost)
    case NoIpv6 => (c1, NoIpv6AddressFound)
    case Addresses(n) => TryFrom(net, limit, c1, retries, 0, n)
  }

  /** The address loop from address `i` on.  A refusal, also one raised by the retries below
      an earlier address, moves on to the next address. */
  function TryFrom(net: Network, limit: nat, c: Client, retries: nat, i: nat, n: nat): (Client, Outcome)
    requires i <= n
    decreases Gap(limit, retries), 1, n - i
  {
    if i == n then (c, Returned)
    else
      var (c1, outcome) := TrySocket(net, limit, c, retries);
      if outcome == ConnectionRefused && i + 1 < n then TryFrom(net, limit, c1, retries, i + 1, n)
      else (c1, outcome)
  }

  function TrySocket(net: Network, limit: nat, c: Client, retries: nat): (Client, Outcome)
    decreases Gap(limit, retries), 0, 0
  {
    var c1 := c.(sock := Some(c.attempts), attempts := c.attempts + 1);
    match net.attempt(c.attempts)
    case Accepted => (c1, Returned)
    case Refused => (c1, ConnectionRefused)
    case SocketError =>
      if retries < limit then ConnectTo(net, limit, c1, retries + 1) else (c1, ConnectionFailed)
  }

  function SetUpSession(net: Network, limit: nat, c: Client, retries: nat): (Client, Outcome)
    decreases Gap(limit, retries), 1
  {
    var c1 := c.(session := Some(New), handshakes := c.handshakes + 1);
    if net.handshake(c.handshakes) then (c1.(session := Some(Shook(c.sock))), Returned)
    else if retries < limit then Reconnect(net, limit, c1, retries + 1)
    else (c1, HandshakeFailed)
  }

  function Reconnect(net: Network, limit: nat, c: Client, retries: nat): (Client, Outcome)
    decreases Gap(limit, retries), 2
  {
    var (c1, outcome) := ConnectTo(net, limit, c.(session := None, sock := None), retries);
    if outcome == Returned then SetUpSession(net, limit, c1, retries) else (c1, outcome)
  }

  function Init(net: Network, limit: nat): (Client, Outcome) {
    var (c, outcome) := ConnectTo(net, limit, START, 1);
    if outcome == Returned then SetUpSession(net, limit, c, 1) else (c, outcome)
  }

  // ----- The client -----

  class SshClient {
    const net: Network
    const numRetries: nat
    var lookups: nat
    var attempts: nat
    var handshakes: nat
    var sock: Option<nat>
    var session: Option<Session>

    function State(): Client
      reads this
    {
      Client(lookups, attempts, handshakes, sock, session)
    }

    constructor (net: Network, numRetries: nat)
      ensures this.net == net && this.numRetries == numRetries && State() == START
    {
      this.net, this.numRetries := net, numRetries;
      lookups, attempts, handshakes, sock, session := 0, 0, 0, None, None;
    }

    method Connect(retries: nat) returns (outcome: Outcome)
      modifies this
      ensures (State(), outcome) == ConnectTo(net, numRetries, old(State()), retries)
      decreases Gap(numRetries, retries), 2
    {
      var found := net.lookup(lookups);
      lookups := lookups + 1;
      match found {
        case Unresolved =>
          if retries < numRetries {
            outcome := Connect(retries + 1);
            return;
          }
          return UnknownHost;
        case NoIpv6 => return NoIpv6AddressFound;
        case Addresses(n) =>
          ghost var entry := State();
          for i := 0 to n
            invariant TryFrom(net, numRetries, State(), retries, i, n)
                   == TryFrom(net, numRetries, entry, retries, 0, n)
          {
            outcome := ConnectSocket(retries);
            if outcome != ConnectionRefused || i + 1 == n {
              return;
            }
          }
          return Returned;
      }
    }

    method ConnectSocket(retries: nat) returns (outcome: Outcome)
      modifies this
      ensures (State(), outcome) == TrySocket(net, numRetries, old(State()), retries)
      decreases Gap(numRetries, retries), 1
    {
      var attempt := net.attempt(attempts);
      sock, attempts := Some(attempts), attempts + 1;
      match attempt {
        case Accepted => return Returned;
        case Refused => return ConnectionRefused;
        case SocketError =>
          if retries < numRetries {
            outcome := Connect(retries + 1);
            return;
          }
          return ConnectionFailed;
      }
    }

    method InitSession(retries: nat) returns (outcome: Outcome)
      modifies this
      ensures (State(), outcome) == SetUpSession(net, numRetries, old(State()), retries)
      decreases Gap(numRetries, retries), 3
    {
      session := Some(New);
      var ok := net.handshake(handshakes);
      handshakes := handshakes + 1;
      if ok {
        session := Some(Shook(sock));
        return Returned;
      }
      if retries < numRetries {
        outcome := ConnectInitSessionRetry(retries + 1);
        return;
      }
      return HandshakeFailed;
    }

    method ConnectInitSessionRetry(retries: nat) returns (outcome: Outcome)
      modifies this
      ensures (State(), outcome) == Reconnect(net, numRetries, old(State()), retries)
      decreases Gap(numRetries, retries), 4
    {
      session, sock := None, None;
      outcome := Connect(retries);
      if outcome == Returned {
        outcome := InitSession(retries);
      }
    }

    method InitClient() returns (outcome: Outcome)
      requires State() == START
      modifies this
      ensures (State(), outcome) == Init(net, numRetries)
    {
      outcome := Connect(1);
      if outcome == Returned {
        outcome := InitSession(1);
      }
    }
  }

  // ----- The calls as one loop -----

  /** What comes next at the innermost level: a lookup, or an attempt at an address. */
  datatype Task = Look | Try

  /** The calls under way, flattened: `pending` has for each of them the number of addresses it
      has left, after the one that it is at, innermost last. */
  datatype Flat = Going(client: Client, task: Task, pending: seq<nat>) | Stopped(client: Client, outcome: Outcome)

  /** A refusal goes on with the next address of the innermost call that has one left. */
  function Resume(c: Client, pending: seq<nat>): Flat {
    if pending == [] then Stopped(c, ConnectionRefused)
    else
      var n := |pending| - 1;
      if pending[n] > 0 then Going(c, Try, pending[..n] + [pending[n] - 1]) else Resume(c, pending[..n])
  }

  /** One lookup or one attempt, where the outermost call was made with `retries`. */
  function FlatStep(net: Network, limit: nat, retries: nat, m: Flat): Flat {
    match m
    case Stopped(_, _) => m
    case Going(c, Look, pending) =>
      var c1 := c.(lookups := c.lookups + 1);
      (match net.lookup(c.lookups)
       case Unresolved =>
         if retries + |pending| < limit then Going(c1, Look, pending + [0]) else Stopped(c1, UnknownHost)
       case NoIpv6 => Stopped(c1, NoIpv6AddressFound)
       case Addresses(n) => if n == 0 then Stopped(c1, Returned) else Going(c1, Try, pending + [n - 1]))
    case Going(c, Try, pending) =>
      var c1 := c.(sock := Some(c.attempts), attempts := c.attempts + 1);
      match net.attempt(c.attempts)
      case Accepted => Stopped(c1, Returned)
      case Refused => Resume(c1, pending)
      case SocketError =>
        if retries + |pending| - 1 < limit then Going(c1, Look, pending) else Stopped(c1, ConnectionFailed)
  }

  function FlatSteps(net: Network, limit: nat, retries: nat, m: Flat, k: nat): Flat
    decreases k
  {
    if k == 0 then m else FlatSteps(net, limit, retries, FlatStep(net, limit, retries, m), k - 1)
  }

  /** Where the loop stands when a call has ended. */
  function After(r: (Client, Outcome), pending: seq<nat>): Flat {
    if r.1 == ConnectionRefused then Resume(r.0, pending) else Stopped(r.0, r.1)
  }

  lemma {:induction false} StepsMore(net: Network, limit: nat, retries: nat, m: Flat, j: nat, k: nat)
    ensures FlatSteps(net, limit, retries, m, j + k)
         == FlatSteps(net, limit, retries, FlatSteps(net, limit, retries, m, j), k)
    decreases j
  {
    if j > 0 {
      StepsMore(net, limit, retries, FlatStep(net, limit, retries, m), j - 1, k);
    }
  }

  lemma {:induction false} ConnectSteps(net: Network, limit: nat, base: nat, c: Client, pending: seq<nat>)
    returns (k: nat)
    ensures FlatSteps(net, limit, base, Going(c, Look, pending), k)
         == After(ConnectTo(net, limit, c, base + |pending|), pending)
    decreases Gap(limit, base + |pending|), 2, 0
  {
    var retries, c1 := base + |pending|, c.(lookups := c.lookups + 1);
    var j := 0;
    match net.lookup(c.lookups) {
      case Unresolved =>
        if retries < limit {
          j := ConnectSteps(net, limit, base, c1, pending + [0]);
          assert (pending + [0])[..|pending|] == pending;
        }
      case NoIpv6 =>
      case Addresses(n) =>
        if n > 0 {
          j := TrySteps(net, limit, base, c1, pending, 0, n);
        }
    }
    k := j + 1;
  }

  lemma {:induction false} TrySteps(
    net: Network, limit: nat, base: nat, c: Client, pending: seq<nat>, i: nat, n: nat)
    returns (k: nat)
    requires i < n
    ensures FlatSteps(net, limit, base, Going(c, Try, pending + [n - i - 1]), k)
         == After(TryFrom(net, limit, c, base + |pending|, i, n), pending)
    decreases Gap(limit, base + |pending|), 1, n - i
  {
    var p := pending + [n - i - 1];
    assert p[..|p| - 1] == pending;
    k := SocketSteps(net, limit, base, c, p);
    var (c1, outcome) := TrySocket(net, limit, c, base + |pending|);
    if outcome == ConnectionRefused && i + 1 < n {
      var j := TrySteps(net, limit, base, c1, pending, i + 1, n);
      StepsMore(net, limit, base, Going(c, Try, p), k, j);
      k := k + j;
    }
  }

  lemma {:induction false} SocketSteps(net: Network, limit: nat, base: nat, c: Client, pending: seq<nat>)
    returns (k: nat)
    requires pending != []
    ensures FlatSteps(net, limit, base, Going(c, Try, pending), k)
         == After(TrySocket(net, limit, c, base + |pending| - 1), pending)
    decreases Gap(limit, base + |pending| - 1), 0, 0
  {
    var retries := base + |pending| - 1;
    var j := 0;
    if net.attempt(c.attempts) == SocketError && retries < limit {
      j := ConnectSteps(net, limit, base, c.(sock := Some(c.attempts), attempts := c.attempts + 1), pending);
    }
    k := j + 1;
  }

  /** The calls that call one another come to the same, client and outcome, as one loop over
      lookups and attempts. */
  lemma ConnectIsFlat(net: Network, limit: nat, c: Client, retries: nat)
    ensures exists k ::
              var (c', outcome) := ConnectTo(net, limit, c, retries);
              FlatSteps(net, limit, retries, Going(c, Look, []), k) == Stopped(c', outcome)
  {
    var k := ConnectSteps(net, limit, retries, c, []);
    assert FlatSteps(net, limit, retries, Going(c, Look, []), k)
        == Stopped(ConnectTo(net, limit, c, retries).0, ConnectTo(net, limit, c, retries).1);
  }

  // ----- Why it gives up -----

  /** Lookups that fail are made again while retries are left, and the first that does not fail
      is used. */
  lemma {:induction false} FailedLookupsRetry(net: Network, limit: nat, c: Client, retries: nat, j: nat)
    requires j <= Gap(limit, retries)
    requires forall k :: c.lookups <= k < c.lookups + j ==> net.lookup(k) == Unresolved
    ensures ConnectTo(net, limit, c, retries) == ConnectTo(net, limit, c.(lookups := c.lookups + j), retries + j)
    decreases j
  {
    if j > 0 {
      FailedLookupsRetry(net, limit, c.(lookups := c.lookups + 1), retries + 1, j - 1);
    } else {
      assert c.(lookups := c.lookups + 0) == c;
    }
  }

  /** A host that is never found is given up exactly after one lookup a level. */
  lemma {:induction false} NeverFound(net: Network, limit: nat, c: Client, retries: nat)
    requires forall k :: c.lookups <= k < c.lookups + Levels(limit, retries) ==> net.lookup(k) == Unresolved
    ensures ConnectTo(net, limit, c, retries) == (c.(lookups := c.lookups + Levels(limit, retries)), UnknownHost)
    decreases Gap(limit, retries)
  {
    assert net.lookup(c.lookups) == Unresolved;
    if retries < limit {
      NeverFound(net, limit, c.(lookups := c.lookups + 1), retries + 1);
    }
  }

  /** Sockets that only fail are given up exactly after one attempt a level: other addresses are
      for refusals only. */
  lemma {:induction false} AlwaysFails(net: Network, limit: nat, c: Client, retries: nat)
    requires forall k {:trigger net.lookup(k)} :: net.lookup(k).Addresses? && net.lookup(k).count > 0
    requires forall k :: c.attempts <= k < c.attempts + Levels(limit, retries) ==> net.attempt(k) == SocketError
    ensures var (c', outcome) := ConnectTo(net, limit, c, retries);
            && outcome == ConnectionFailed
            && c'.attempts == c.attempts + Levels(limit, retries) && c'.lookups == c.lookups + Levels(limit, retries)
    decreases Gap(limit, retries)
  {
    assert net.lookup(c.lookups).Addresses? && net.attempt(c.attempts) == SocketError;
    var c1 := c.(lookups := c.lookups + 1);
    if retries < limit {
      AlwaysFails(net, limit, c1.(sock := Some(c.attempts), attempts := c.attempts + 1), retries + 1);
    }
    assert TrySocket(net, limit, c1, retries).1 == ConnectionFailed;
    var n := net.lookup(c.lookups).count;
    assert TryFrom(net, limit, c1, retries, 0, n) == TrySocket(net, limit, c1, retries);
  }

  /** Refusals alone are never retried: each address is tried once, up to the first that
      accepts. */
  lemma RefusalsTryEach(net: Network, limit: nat, c: Client, retries: nat, n: nat, i: nat)
    requires net.lookup(c.lookups) == Addresses(n) && i < n
    requires forall k :: c.attempts <= k < c.attempts + i ==> net.attempt(k) == Refused
    requires net.attempt(c.attempts + i) == Accepted || (i == n - 1 && net.attempt(c.attempts + i) == Refused)
    ensures var (c', outcome) := ConnectTo(net, limit, c, retries);
            && c'.attempts == c.attempts + i + 1 && c'.lookups == c.lookups + 1
            && outcome == if net.attempt(c.attempts + i) == Accepted then Returned else ConnectionRefused
  {
    RefusedUpTo(net, limit, c.(lookups := c.lookups + 1), retries, 0, n, i);
  }

  lemma {:induction false} RefusedUpTo(net: Network, limit: nat, c: Client, retries: nat, at: nat, n: nat, i: nat)
    requires at <= i < n
    requires forall k :: c.attempts <= k < c.attempts + i - at ==> net.attempt(k) == Refused
    requires net.attempt(c.attempts + i - at) == Accepted
          || (i == n - 1 && net.attempt(c.attempts + i - at) == Refused)
    ensures var (c', outcome) := TryFrom(net, limit, c, retries, at, n);
            && c'.attempts == c.attempts + i - at + 1 && c'.lookups == c.lookups
            && outcome == if net.attempt(c.attempts + i - at) == Accepted then Returned else ConnectionRefused
    decreases n - at
  {
    if at < i {
      assert net.attempt(c.attempts) == Refused;
      RefusedUpTo(net, limit, c.(sock := Some(c.attempts), attempts := c.attempts + 1), retries, at + 1, n, i);
    }
  }

  /** Every outcome names the last thing that happened. */
  ghost predicate Blames(net: Network, from: Client, to: Client, outcome: Outcome) {
    match outcome
    case Returned => from.attempts < to.attempts && net.attempt(to.attempts - 1) == Accepted
    case ConnectionRefused => from.attempts < to.attempts && net.attempt(to.attempts - 1) == Refused
    case ConnectionFailed => from.attempts < to.attempts && net.attempt(to.attempts - 1) == SocketError
    case UnknownHost => from.lookups < to.lookups && net.lookup(to.lookups - 1) == Unresolved
    case NoIpv6AddressFound => from.lookups < to.lookups && net.lookup(to.lookups - 1) == NoIpv6
    case HandshakeFailed => from.handshakes < to.handshakes && !net.handshake(to.handshakes - 1)
  }

  ghost predicate Forward(from: Client, to: Client) {
    from.lookups <= to.lookups && from.attempts <= to.attempts && from.handshakes == to.handshakes
  }

  lemma {:induction false} ConnectBlames(net: Network, limit: nat, c: Client, retries: nat, n: nat)
    requires AtMost(net, n)
    ensures var (c', outcome) := ConnectTo(net, limit, c, retries);
            outcome != HandshakeFailed && Blames(net, c, c', outcome) && Forward(c, c')
    decreases Gap(limit, retries), 2, 0
  {
    var c1 := c.(lookups := c.lookups + 1);
    match net.lookup(c.lookups) {
      case Unresolved => if retries < limit { ConnectBlames(net, limit, c1, retries + 1, n); }
      case NoIpv6 =>
      case Addresses(k) => TryBlames(net, limit, c1, retries, 0, k, n);
    }
  }

  lemma {:induction false} TryBlames(net: Network, limit: nat, c: Client, retries: nat, i: nat, k: nat, n: nat)
    requires AtMost(net, n) && i < k
    ensures var (c', outcome) := TryFrom(net, limit, c, retries, i, k);
            outcome != HandshakeFailed && Blames(net, c, c', outcome) && Forward(c, c')
    decreases Gap(limit, retries), 1, k - i
  {
    SocketBlames(net, limit, c, retries, n);
    var (c1, outcome) := TrySocket(net, limit, c, retries);
    if outcome == ConnectionRefused && i + 1 < k {
      TryBlames(net, limit, c1, retries, i + 1, k, n);
    }
  }

  lemma {:induction false} SocketBlames(net: Network, limit: nat, c: Client, retries: nat, n: nat)
    requires AtMost(net, n)
    ensures var (c', outcome) := TrySocket(net, limit, c, retries);
            outcome != HandshakeFailed && Blames(net, c, c', outcome) && Forward(c, c')
    decreases Gap(limit, retries), 0, 0
  {
    if net.attempt(c.attempts) == SocketError && retries < limit {
      ConnectBlames(net, limit, c.(sock := Some(c.attempts), attempts := c.attempts + 1), retries + 1, n);
    }
  }

  lemma {:induction false} ConnectKeeps(net: Network, limit: nat, c: Client, retries: nat)
    ensures var c' := ConnectTo(net, limit, c, retries).0;
            && c'.session == c.session && c'.handshakes == c.handshakes && c.attempts <= c'.attempts
            && c'.sock == if c'.attempts == c.attempts then c.sock else Some(c'.attempts - 1)
    decreases Gap(limit, retries), 2, 0
  {
    var c1 := c.(lookups := c.lookups + 1);
    match net.lookup(c.lookups) {
      case Unresolved => if retries < limit { ConnectKeeps(net, limit, c1, retries + 1); }
      case NoIpv6 =>
      case Addresses(k) => TryKeeps(net, limit, c1, retries, 0, k);
    }
  }

  lemma {:induction false} TryKeeps(net: Network, limit: nat, c: Client, retries: nat, i: nat, k: nat)
    requires i <= k
    ensures var c' := TryFrom(net, limit, c, retries, i, k).0;
            && c'.session == c.session && c'.handshakes == c.handshakes && c.attempts <= c'.attempts
            && c'.sock == if c'.attempts == c.attempts then c.sock else Some(c'.attempts - 1)
    decreases Gap(limit, retries), 1, k - i
  {
    if i < k {
      SocketKeeps(net, limit, c, retries);
      TryKeeps(net, limit, TrySocket(net, limit, c, retries).0, retries, i + 1, k);
    }
  }

  lemma {:induction false} SocketKeeps(net: Network, limit: nat, c: Client, retries: nat)
    ensures var c' := TrySocket(net, limit, c, retries).0;
            && c'.session == c.session && c'.handshakes == c.handshakes && c.attempts < c'.attempts
            && c'.sock == Some(c'.attempts - 1)
    decreases Gap(limit, retries), 0, 0
  {
    if net.attempt(c.attempts) == SocketError && retries < limit {
      ConnectKeeps(net, limit, c.(sock := Some(c.attempts), attempts := c.attempts + 1), retries + 1);
    }
  }

  /** A reconnect that fails leaves no session, and a socket only if it made an attempt. */
  lemma FailedReconnectLeaves(net: Network, limit: nat, c: Client, retries: nat)
    requires ConnectTo(net, limit, c.(session := None, sock := None), retries).1 != Returned
    ensures var (c', outcome) := Reconnect(net, limit, c, retries);
            && outcome != Returned && c'.session == None && c'.handshakes == c.handshakes
            && (c'.sock == None <==> c'.attempts == c.attempts)
  {
    ConnectKeeps(net, limit, c.(session := None, sock := None), retries);
  }

  /** Shaking hands is tried again, over a new connection, while retries are left: all
      handshakes but perhaps the last failed, it is given up exactly after one a level, and a
      connection that fails in between gives its own outcome. */
  lemma {:induction false} SessionEnds(net: Network, limit: nat, c: Client, retries: nat, n: nat)
    requires AtMost(net, n)
    ensures var (c', outcome) := SetUpSession(net, limit, c, retries);
            var shakes := c'.handshakes - c.handshakes;
            && 1 <= shakes <= Levels(limit, retries)
            && (forall k :: c.handshakes <= k < c'.handshakes - 1 ==> !net.handshake(k))
            && (outcome == Returned <==> net.handshake(c'.handshakes - 1))
            && (outcome == HandshakeFailed ==> shakes == Levels(limit, retries) && c'.session == Some(New))
            && (outcome != Returned && outcome != HandshakeFailed ==>
                  shakes < Levels(limit, retries) && Blames(net, c, c', outcome))
    decreases Gap(limit, retries)
  {
    if !net.handshake(c.handshakes) && retries < limit {
      var c1 := c.(session := None, sock := None, handshakes := c.handshakes + 1);
      ConnectBlames(net, limit, c1, retries + 1, n);
      var (c2, outcome) := ConnectTo(net, limit, c1, retries + 1);
      if outcome == Returned {
        SessionEnds(net, limit, c2, retries + 1, n);
      }
    }
  }

  lemma AcceptedAtOnce(net: Network, limit: nat, c: Client, retries: nat)
    requires net.lookup(c.lookups).Addresses? && net.lookup(c.lookups).count > 0 && net.attempt(c.attempts) == Accepted
    ensures ConnectTo(net, limit, c, retries)
         == (c.(lookups := c.lookups + 1, sock := Some(c.attempts), attempts := c.attempts + 1), Returned)
  {
    var c1 := c.(lookups := c.lookups + 1);
    assert TrySocket(net, limit, c1, retries).1 == Returned;
    var n := net.lookup(c.lookups).count;
    assert TryFrom(net, limit, c1, retries, 0, n) == TrySocket(net, limit, c1, retries);
  }

  /** Where every reconnect succeeds, it goes on to the first handshake that succeeds, or to the
      last. */
  lemma {:induction false} HandshakesRetry(net: Network, limit: nat, c: Client, retries: nat, j: nat)
    requires forall k {:trigger net.lookup(k)} :: net.lookup(k).Addresses? && net.lookup(k).count > 0
    requires forall k {:trigger net.attempt(k)} :: net.attempt(k) == Accepted
    requires j <= Gap(limit, retries)
    requires forall k :: c.handshakes <= k < c.handshakes + j ==> !net.handshake(k)
    requires net.handshake(c.handshakes + j) || j == Gap(limit, retries)
    ensures var (c', outcome) := SetUpSession(net, limit, c, retries);
            && c'.handshakes == c.handshakes + j + 1
            && c'.attempts == c.attempts + j && c'.lookups == c.lookups + j
            && outcome == if net.handshake(c.handshakes + j) then Returned else HandshakeFailed
    decreases j
  {
    if j > 0 {
      assert !net.handshake(c.handshakes);
      var c1 := c.(session := None, sock := None, handshakes := c.handshakes + 1);
      assert net.lookup(c1.lookups).Addresses? && net.attempt(c1.attempts) == Accepted;
      AcceptedAtOnce(net, limit, c1, retries + 1);
      HandshakesRetry(net, limit, ConnectTo(net, limit, c1, retries + 1).0, retries + 1, j - 1);
    }
  }

  /** Connecting and shaking hands together: hands are shaken only after a connect that returned,
      and whatever ends it is the cause of the last step taken. */
  lemma InitEnds(net: Network, limit: nat, n: nat)
    requires AtMost(net, n)
    ensures var (c, outcome) := Init(net, limit);
            && (c.handshakes == 0 <==> ConnectTo(net, limit, START, 1).1 != Returned)
            && (c.handshakes == 0 ==> c.session == None && (c.sock == None <==> c.attempts == 0))
            && (forall k :: 0 <= k < c.handshakes - 1 ==> !net.handshake(k))
            && (outcome == Returned <==> 0 < c.handshakes && net.handshake(c.handshakes - 1))
            && (outcome == HandshakeFailed ==> c.handshakes == Levels(limit, 1) && c.session == Some(New))
            && (outcome != Returned && outcome != HandshakeFailed ==>
                  c.handshakes < Levels(limit, 1) && Blames(net, START, c, outcome))
  {
    ConnectBlames(net, limit, START, 1, n);
    ConnectKeeps(net, limit, START, 1);
    var (c, outcome) := ConnectTo(net, limit, START, 1);
    if outcome == Returned {
      SessionEnds(net, limit, c, 1, n);
    }
  }

  // ----- How many attempts -----

  /** The levels of retrying open to a call made with `retries`. */
  function Levels(limit: nat, retries: nat): nat {
    Gap(limit, retries) + 1
  }

  /** n + n^2 + ... + n^m, in the form of the calls: each of `n` addresses costs one attempt
      and whatever the level below costs. */
  function Tower(n: nat, m: nat): nat {
    if m == 0 then 0 else n * (1 + Tower(n, m - 1))
  }

  function Power(n: nat, m: nat): nat {
    if m == 0 then 1 else n * Power(n, m - 1)
  }

  function PowerSum(n: nat, m: nat): nat {
    if m == 0 then 0 else PowerSum(n, m - 1) + Power(n, m)
  }

  lemma {:induction false} TowerIsPowerSum(n: nat, m: nat)
    ensures Tower(n, m) == PowerSum(n, m)
  {
    if m > 0 {
      TowerIsPowerSum(n, m - 1);
      PowerSumShift(n, m - 1);
    }
  }

  lemma {:induction false} PowerSumShift(n: nat, m: nat)
    ensures n * (1 + PowerSum(n, m)) == PowerSum(n, m + 1)
  {
    if m > 0 {
      PowerSumShift(n, m - 1);
      MulAdd(n, 1 + PowerSum(n, m - 1), Power(n, m));
    } else {
      assert PowerSum(n, 1) == PowerSum(n, 0) + Power(n, 1) == n * Power(n, 0);
    }
  }

  lemma MulAdd(a: nat, x: nat, y: nat)
    ensures a * (x + y) == a * x + a * y
  {
  }

  /** No call of `_connect` makes more attempts than that. */
  lemma {:induction false} ConnectBound(net: Network, limit: nat, c: Client, retries: nat, n: nat)
    requires AtMost(net, n)
    ensures var (c', _) := ConnectTo(net, limit, c, retries);
            c.attempts <= c'.attempts <= c.attempts + Tower(n, Levels(limit, retries))
    decreases Gap(limit, retries), 2, 0
  {
    var c1 := c.(lookups := c.lookups + 1);
    match net.lookup(c.lookups) {
      case Unresolved =>
        if retries < limit {
          ConnectBound(net, limit, c1, retries + 1, n);
          TowerGrows(n, Levels(limit, retries + 1));
        }
      case NoIpv6 =>
      case Addresses(k) =>
        TryBound(net, limit, c1, retries, 0, k, n);
        MulMonotone(k, n, 1 + Tower(n, Gap(limit, retries)));
    }
  }

  lemma {:induction false} TryBound(net: Network, limit: nat, c: Client, retries: nat, i: nat, k: nat, n: nat)
    requires AtMost(net, n) && i <= k
    ensures var (c', _) := TryFrom(net, limit, c, retries, i, k);
            c.attempts <= c'.attempts <= c.attempts + (k - i) * (1 + Tower(n, Gap(limit, retries)))
    decreases Gap(limit, retries), 1, k - i
  {
    if i < k {
      SocketBound(net, limit, c, retries, n);
      var (c1, _) := TrySocket(net, limit, c, retries);
      TryBound(net, limit, c1, retries, i + 1, k, n);
      MulStep(k - i, 1 + Tower(n, Gap(limit, retries)));
    }
  }

  lemma {:induction false} SocketBound(net: Network, limit: nat, c: Client, retries: nat, n: nat)
    requires AtMost(net, n)
    ensures var (c', _) := TrySocket(net, limit, c, retries);
            c.attempts < c'.attempts <= c.attempts + 1 + Tower(n, Gap(limit, retries))
    decreases Gap(limit, retries), 0, 0
  {
    if net.attempt(c.attempts) == SocketError && retries < limit {
      ConnectBound(net, limit, c.(sock := Some(c.attempts), attempts := c.attempts + 1), retries + 1, n);
    }
  }

  lemma MulMonotone(a: nat, b: nat, x: nat)
    requires a <= b
    ensures a * x <= b * x
  {
  }

  lemma MulStep(a: nat, x: nat)
    requires a > 0
    ensures a * x == (a - 1) * x + x
  {
  }

  lemma {:induction false} TowerGrows(n: nat, m: nat)
    ensures Tower(n, m) <= Tower(n, m + 1)
  {
    if m > 0 {
      TowerGrows(n, m - 1);
      MulMonotone(1 + Tower(n, m - 1), 1 + Tower(n, m), n);
    }
  }

  /** So connecting anew with R retries makes at most n + n^2 + ... + n^max(1, R) attempts. */
  lemma ConnectPowerBound(net: Network, limit: nat, c: Client, n: nat)
    requires AtMost(net, n)
    ensures ConnectTo(net, limit, c, 1).0.attempts - c.attempts <= PowerSum(n, if limit < 1 then 1 else limit)
  {
    ConnectBound(net, limit, c, 1, n);
    TowerIsPowerSum(n, Levels(limit, 1));
  }

  // ----- How many lookups -----

  /** 1 + n + ... + n^(m - 1): each address may lead to a lookup a level below. */
  function Lookups(n: nat, m: nat): nat {
    if m == 0 then 0 else 1 + n * Lookups(n, m - 1)
  }

  /** The bound on attempts is that on lookups, n to each. */
  lemma {:induction false} TowerIsLookups(n: nat, m: nat)
    ensures Tower(n, m) == n * Lookups(n, m)
  {
    if m > 0 {
      TowerIsLookups(n, m - 1);
    }
  }

  lemma LookupsGrow(n: nat, m: nat)
    requires n > 0
    ensures 1 + Lookups(n, m) <= Lookups(n, m + 1)
  {
    MulMonotone(1, n, Lookups(n, m));
  }

  lemma {:induction false} LookupBound(net: Network, limit: nat, c: Client, retries: nat, n: nat)
    requires AtMost(net, n) && n > 0
    ensures ConnectTo(net, limit, c, retries).0.lookups <= c.lookups + Lookups(n, Levels(limit, retries))
    decreases Gap(limit, retries), 2, 0
  {
    hide Lookups;
    var c1 := c.(lookups := c.lookups + 1);
    LookupsLevel(n, Gap(limit, retries));
    match net.lookup(c.lookups) {
      case Unresolved =>
        if retries < limit {
          LookupBound(net, limit, c1, retries + 1, n);
          LookupsGrow(n, Levels(limit, retries + 1));
        }
      case NoIpv6 =>
      case Addresses(k) =>
        TryLookupBound(net, limit, c1, retries, 0, k, n);
        MulMonotone(k, n, Lookups(n, Gap(limit, retries)));
    }
  }

  lemma LookupsLevel(n: nat, m: nat)
    ensures Lookups(n, m + 1) == 1 + n * Lookups(n, m) >= 1
  {
  }

  lemma {:induction false} TryLookupBound(net: Network, limit: nat, c: Client, retries: nat, i: nat, k: nat, n: nat)
    requires AtMost(net, n) && n > 0 && i <= k
    ensures TryFrom(net, limit, c, retries, i, k).0.lookups <= c.lookups + (k - i) * Lookups(n, Gap(limit, retries))
    decreases Gap(limit, retries), 1, k - i
  {
    hide Lookups;
    if i < k {
      SocketLookupBound(net, limit, c, retries, n);
      TryLookupBound(net, limit, TrySocket(net, limit, c, retries).0, retries, i + 1, k, n);
      MulStep(k - i, Lookups(n, Gap(limit, retries)));
      MulMonotone(0, k - i - 1, Lookups(n, Gap(limit, retries)));
    }
  }

  lemma {:induction false} SocketLookupBound(net: Network, limit: nat, c: Client, retries: nat, n: nat)
    requires AtMost(net, n) && n > 0
    ensures TrySocket(net, limit, c, retries).0.lookups <= c.lookups + Lookups(n, Gap(limit, retries))
    decreases Gap(limit, retries), 0, 0
  {
    hide Lookups;
    if net.attempt(c.attempts) == SocketError && retries < limit {
      LookupBound(net, limit, c.(sock := Some(c.attempts), attempts := c.attempts + 1), retries + 1, n);
    }
  }

  // ----- The last socket is the accepted one -----

  /** Between two states of a client, no attempt but the last was accepted. */
  ghost predicate NoneAcceptedBefore(net: Network, from: nat, to: nat) {
    forall k :: from <= k < to - 1 ==> net.attempt(k) != Accepted
  }

  ghost predicate Settled(net: Network, from: nat, c: Client, outcome: Outcome) {
    && NoneAcceptedBefore(net, from, c.attempts)
    && (outcome == Returned <==> from < c.attempts && net.attempt(c.attempts - 1) == Accepted)
    && (outcome == Returned ==> c.sock == Some(c.attempts - 1))
  }

  /** `_connect` returns normally exactly when its last attempt was accepted, no earlier one
      was, and then `self.sock` is the socket of that attempt. */
  lemma {:induction false} ConnectSettles(net: Network, limit: nat, c: Client, retries: nat, n: nat)
    requires AtMost(net, n)
    ensures var (c', outcome) := ConnectTo(net, limit, c, retries);
            Settled(net, c.attempts, c', outcome) && c'.handshakes == c.handshakes
    decreases Gap(limit, retries), 2, 0
  {
    var c1 := c.(lookups := c.lookups + 1);
    match net.lookup(c.lookups) {
      case Unresolved => if retries < limit { ConnectSettles(net, limit, c1, retries + 1, n); }
      case NoIpv6 =>
      case Addresses(k) => TrySettles(net, limit, c1, retries, 0, k, n);
    }
  }

  lemma {:induction false} TrySettles(net: Network, limit: nat, c: Client, retries: nat, i: nat, k: nat, n: nat)
    requires AtMost(net, n) && i < k
    ensures var (c', outcome) := TryFrom(net, limit, c, retries, i, k);
            Settled(net, c.attempts, c', outcome) && c'.handshakes == c.handshakes
    decreases Gap(limit, retries), 1, k - i
  {
    SocketSettles(net, limit, c, retries, n);
    var (c1, outcome) := TrySocket(net, limit, c, retries);
    if outcome == ConnectionRefused && i + 1 < k {
      SocketBound(net, limit, c, retries, n);
      TryBound(net, limit, c1, retries, i + 1, k, n);
      TrySettles(net, limit, c1, retries, i + 1, k, n);
    }
  }

  lemma {:induction false} SocketSettles(net: Network, limit: nat, c: Client, retries: nat, n: nat)
    requires AtMost(net, n)
    ensures var (c', outcome) := TrySocket(net, limit, c, retries);
            Settled(net, c.attempts, c', outcome) && c'.handshakes == c.handshakes
    decreases Gap(limit, retries), 0, 0
  {
    if net.attempt(c.attempts) == SocketError && retries < limit {
      var c1 := c.(sock := Some(c.attempts), attempts := c.attempts + 1);
      ConnectSettles(net, limit, c1, retries + 1, n);
      ConnectBound(net, limit, c1, retries + 1, n);
    }
  }

  // ----- The bound is met -----

  /** A schedule of attempts that spends every retry at every address, and whose very last
      attempt ends in `last`. */
  function Worst(n: nat, m: nat, last: Attempt): seq<Attempt>
    requires n > 0 && m > 0
    decreases m, 1, n
  {
    WorstFrom(n, n, m, last)
  }

  /** The last `k` of the `n` addresses of a level. */
  function WorstFrom(k: nat, n: nat, m: nat, last: Attempt): seq<Attempt>
    requires 0 < k <= n && m > 0
    decreases m, 0, k
  {
    if k == 1 then WorstOne(n, m, last) else WorstOne(n, m, Refused) + WorstFrom(k - 1, n, m, last)
  }

  function WorstOne(n: nat, m: nat, last: Attempt): seq<Attempt>
    requires n > 0 && m > 0
    decreases m - 1, 2, 0
  {
    if m == 1 then [last] else [SocketError] + Worst(n, m - 1, last)
  }

  /** The attempts of `net` from number `from` on are those of `plan`. */
  ghost predicate Follows(net: Network, from: nat, plan: seq<Attempt>) {
    forall k :: 0 <= k < |plan| ==> net.attempt(from + k) == plan[k]
  }

  ghost predicate AlwaysFinds(net: Network, n: nat) {
    forall k {:trigger net.lookup(k)} :: net.lookup(k) == Addresses(n)
  }

  function Ending(last: Attempt): Outcome {
    if last == Accepted then Returned else ConnectionRefused
  }

  lemma FollowsParts(net: Network, from: nat, a: seq<Attempt>, b: seq<Attempt>)
    requires Follows(net, from, a + b)
    ensures Follows(net, from, a) && Follows(net, from + |a|, b)
  {
    forall k | 0 <= k < |a| ensures net.attempt(from + k) == a[k] {
      assert (a + b)[k] == a[k];
    }
    forall k | 0 <= k < |b| ensures net.attempt(from + |a| + k) == b[k] {
      assert (a + b)[|a| + k] == b[k];
    }
  }

  /** Under such a schedule `_connect` makes exactly n + n^2 + ... + n^m attempts and
      1 + n + ... + n^(m - 1) lookups; and it may still return normally after them. */
  lemma {:induction false} WorstIsMet(net: Network, limit: nat, c: Client, retries: nat, n: nat, last: Attempt)
    requires n > 0 && last != SocketError && AlwaysFinds(net, n)
    requires Follows(net, c.attempts, Worst(n, Levels(limit, retries), last))
    ensures var (c', outcome) := ConnectTo(net, limit, c, retries);
            && c'.attempts == c.attempts + Tower(n, Levels(limit, retries))
            && c'.lookups == c.lookups + Lookups(n, Levels(limit, retries))
            && outcome == Ending(last)
    decreases Gap(limit, retries), 2, 0
  {
    assert net.lookup(c.lookups) == Addresses(n);
    WorstFromIsMet(net, limit, c.(lookups := c.lookups + 1), retries, 0, n, last);
  }

  lemma {:induction false} WorstFromIsMet(
    net: Network, limit: nat, c: Client, retries: nat, i: nat, n: nat, last: Attempt)
    requires i < n && last != SocketError && AlwaysFinds(net, n)
    requires Follows(net, c.attempts, WorstFrom(n - i, n, Levels(limit, retries), last))
    ensures var (c', outcome) := TryFrom(net, limit, c, retries, i, n);
            && c'.attempts == c.attempts + (n - i) * (1 + Tower(n, Gap(limit, retries)))
            && c'.lookups == c.lookups + (n - i) * Lookups(n, Gap(limit, retries))
            && outcome == Ending(last)
    decreases Gap(limit, retries), 1, n - i
  {
    hide Tower, Lookups, Follows, AlwaysFinds, TrySocket;
    var m := Levels(limit, retries);
    if i + 1 == n {
      WorstOneIsMet(net, limit, c, retries, n, last);
    } else {
      FollowsParts(net, c.attempts, WorstOne(n, m, Refused), WorstFrom(n - i - 1, n, m, last));
      WorstOneIsMet(net, limit, c, retries, n, Refused);
      var (c1, _) := TrySocket(net, limit, c, retries);
      WorstFromIsMet(net, limit, c1, retries, i + 1, n, last);
      MulStep(n - i, 1 + Tower(n, m - 1));
      MulStep(n - i, Lookups(n, m - 1));
    }
  }

  lemma {:induction false} WorstOneIsMet(
    net: Network, limit: nat, c: Client, retries: nat, n: nat, last: Attempt)
    requires n > 0 && last != SocketError && AlwaysFinds(net, n)
    requires Follows(net, c.attempts, WorstOne(n, Levels(limit, retries), last))
    ensures var (c', outcome) := TrySocket(net, limit, c, retries);
            && c'.attempts == c.attempts + 1 + Tower(n, Gap(limit, retries))
            && c'.attempts == c.attempts + |WorstOne(n, Levels(limit, retries), last)|
            && c'.lookups == c.lookups + Lookups(n, Gap(limit, retries))
            && outcome == Ending(last)
    decreases Gap(limit, retries), 0, 0
  {
    var m := Levels(limit, retries);
    assert net.attempt(c.attempts + 0) == WorstOne(n, m, last)[0];
    WorstLength(n, m, last);
    if m > 1 {
      FollowsParts(net, c.attempts, [SocketError], Worst(n, m - 1, last));
      WorstIsMet(net, limit, c.(sock := Some(c.attempts), attempts := c.attempts + 1), retries + 1, n, last);
    }
  }

  lemma {:induction false} WorstLength(n: nat, m: nat, last: Attempt)
    requires n > 0 && m > 0
    ensures |WorstOne(n, m, last)| == 1 + Tower(n, m - 1) && |Worst(n, m, last)| == Tower(n, m)
    decreases m, 1
  {
    if m > 1 { WorstLength(n, m - 1, last); }
    WorstFromLength(n, n, m, last);
  }

  lemma {:induction false} WorstFromLength(k: nat, n: nat, m: nat, last: Attempt)
    requires 0 < k <= n && m > 0
    ensures |WorstFrom(k, n, m, last)| == k * (1 + Tower(n, m - 1))
    decreases m, 0, k
  {
    if m > 1 { WorstLength(n, m - 1, last); WorstLength(n, m - 1, Refused); }
    if k > 1 {
      WorstFromLength(k - 1, n, m, last);
      MulStep(k, 1 + Tower(n, m - 1));
    }
  }

  /** The network that finds `n` addresses every time, answers the attempts as planned, and
      lets the handshakes fail before number `shakes`. */
  function Planned(n: nat, plan: seq<Attempt>, shakes: nat): Network {
    Network(_ => Addresses(n), (k: nat) => if k < |plan| then plan[k] else Accepted, (k: nat) => k >= shakes)
  }

  lemma PlannedIs(n: nat, plan: seq<Attempt>, shakes: nat)
    requires n > 0
    ensures var net := Planned(n, plan, shakes);
            && AlwaysFinds(net, n) && AtMost(net, n) && Follows(net, 0, plan)
            && forall k: nat {:trigger net.handshake(k)} :: net.handshake(k) <==> k >= shakes
  {
  }

  lemma LevelsFromOne(limit: nat)
    requires limit > 0
    ensures Levels(limit, 1) == limit && Gap(limit, 1) == limit - 1
  {
  }

  /** Such a network exists for any number of addresses, retries and either ending. */
  lemma BoundIsAttained(limit: nat, n: nat, last: Attempt)
    requires n > 0 && limit > 0 && last != SocketError
    ensures exists net ::
              && AtMost(net, n)
              && ConnectTo(net, limit, START, 1).0.attempts == PowerSum(n, limit)
              && ConnectTo(net, limit, START, 1).0.lookups == Lookups(n, limit)
              && ConnectTo(net, limit, START, 1).1 == Ending(last)
  {
    hide Worst, ConnectTo, Tower, PowerSum, Lookups, Follows, AtMost, AlwaysFinds, Planned, Levels, Gap;
    LevelsFromOne(limit);
    var plan := Worst(n, limit, last);
    var net := Planned(n, plan, 0);
    PlannedIs(n, plan, 0);
    WorstIsMet(net, limit, START, 1, n, last);
    TowerIsPowerSum(n, limit);
    assert AtMost(net, n);
  }

  // ----- Connecting and shaking hands -----

  /** The attempts of all the levels together. */
  function TowerSum(n: nat, m: nat): nat {
    if m == 0 then 0 else TowerSum(n, m - 1) + Tower(n, m)
  }

  ghost predicate ShookOverAccepted(net: Network, c: Client) {
    && 0 < c.attempts && c.sock == Some(c.attempts - 1) && net.attempt(c.attempts - 1) == Accepted
    && c.session == Some(Shook(c.sock))
  }

  /** `_init_session`: at most one handshake a level, and below the first the attempts of one
      `_connect` a level; on normal return the session shook hands over the current socket,
      which is the accepted one. */
  lemma {:induction false} SessionBound(net: Network, limit: nat, c: Client, retries: nat, n: nat)
    requires AtMost(net, n)
    requires 0 < c.attempts && c.sock == Some(c.attempts - 1) && net.attempt(c.attempts - 1) == Accepted
    ensures var (c', outcome) := SetUpSession(net, limit, c, retries);
            && c'.handshakes <= c.handshakes + Levels(limit, retries)
            && c'.attempts <= c.attempts + TowerSum(n, Gap(limit, retries))
            && (outcome == Returned ==>
                  ShookOverAccepted(net, c') && 0 < c'.handshakes && net.handshake(c'.handshakes - 1))
    decreases Gap(limit, retries)
  {
    if !net.handshake(c.handshakes) && retries < limit {
      var c1 := c.(session := None, sock := None, handshakes := c.handshakes + 1);
      ConnectBound(net, limit, c1, retries + 1, n);
      ConnectSettles(net, limit, c1, retries + 1, n);
      var (c2, outcome) := ConnectTo(net, limit, c1, retries + 1);
      if outcome == Returned {
        SessionBound(net, limit, c2, retries + 1, n);
      }
    }
  }

  /** The whole of connecting: at most max(1, R) handshakes and the sum over the levels of
      n + n^2 + ... + n^m attempts. */
  lemma InitBound(net: Network, limit: nat, n: nat)
    requires AtMost(net, n)
    ensures var (c, outcome) := Init(net, limit);
            && c.handshakes <= Levels(limit, 1)
            && c.attempts <= TowerSum(n, Levels(limit, 1))
            && (outcome == Returned ==>
                  ShookOverAccepted(net, c) && 0 < c.handshakes && net.handshake(c.handshakes - 1))
  {
    ConnectBound(net, limit, START, 1, n);
    ConnectSettles(net, limit, START, 1, n);
    var (c, outcome) := ConnectTo(net, limit, START, 1);
    if outcome == Returned {
      SessionBound(net, limit, c, 1, n);
    }
  }

  /** With a single address that is R(R + 1) / 2 attempts. */
  lemma {:induction false} SingleAddress(m: nat)
    ensures Tower(1, m) == m && TowerSum(1, m) * 2 == m * (m + 1)
  {
    if m > 0 {
      SingleAddress(m - 1);
    }
  }

  /** The lookups of all the levels together. */
  function LookupSum(n: nat, m: nat): nat {
    if m == 0 then 0 else LookupSum(n, m - 1) + Lookups(n, m)
  }

  lemma {:induction false} SessionLookupBound(net: Network, limit: nat, c: Client, retries: nat, n: nat)
    requires AtMost(net, n) && n > 0
    ensures SetUpSession(net, limit, c, retries).0.lookups <= c.lookups + LookupSum(n, Gap(limit, retries))
    decreases Gap(limit, retries)
  {
    if !net.handshake(c.handshakes) && retries < limit {
      var c1 := c.(session := None, sock := None, handshakes := c.handshakes + 1);
      LookupBound(net, limit, c1, retries + 1, n);
      var (c2, outcome) := ConnectTo(net, limit, c1, retries + 1);
      if outcome == Returned {
        SessionLookupBound(net, limit, c2, retries + 1, n);
      }
    }
  }

  lemma InitLookupBound(net: Network, limit: nat, n: nat)
    requires AtMost(net, n) && n > 0
    ensures Init(net, limit).0.lookups <= LookupSum(n, Levels(limit, 1))
  {
    LookupBound(net, limit, START, 1, n);
    var (c, outcome) := ConnectTo(net, limit, START, 1);
    if outcome == Returned {
      SessionLookupBound(net, limit, c, 1, n);
    }
  }

  lemma InitSingleAddress(net: Network, limit: nat)
    requires AtMost(net, 1) && limit > 0
    ensures Init(net, limit).0.attempts <= limit * (limit + 1) / 2 && Init(net, limit).0.handshakes <= limit
  {
    InitBound(net, limit, 1);
    SingleAddress(limit);
  }

  // The bound on connecting and shaking hands is met as well.

  /** Every level spends all it can, is accepted at the very last attempt, and then fails its
      handshake. */
  function WorstOfAll(n: nat, m: nat): seq<Attempt>
    requires n > 0
  {
    if m == 0 then [] else Worst(n, m, Accepted) + WorstOfAll(n, m - 1)
  }

  lemma {:induction false} WorstSessionIsMet(net: Network, limit: nat, c: Client, retries: nat, n: nat)
    requires n > 0 && AlwaysFinds(net, n) && Follows(net, c.attempts, WorstOfAll(n, Gap(limit, retries)))
    requires forall k: nat {:trigger net.handshake(k)} ::
               net.handshake(k) <==> k >= c.handshakes + Gap(limit, retries)
    ensures var (c', outcome) := SetUpSession(net, limit, c, retries);
            && c'.handshakes == c.handshakes + Levels(limit, retries)
            && c'.attempts == c.attempts + TowerSum(n, Gap(limit, retries))
            && c'.lookups == c.lookups + LookupSum(n, Gap(limit, retries))
            && outcome == Returned
    decreases Gap(limit, retries)
  {
    assert net.handshake(c.handshakes) <==> Gap(limit, retries) == 0;
    if retries < limit {
      var m := Gap(limit, retries);
      FollowsParts(net, c.attempts, Worst(n, m, Accepted), WorstOfAll(n, m - 1));
      WorstLength(n, m, Accepted);
      var c1 := c.(session := None, sock := None, handshakes := c.handshakes + 1);
      WorstIsMet(net, limit, c1, retries + 1, n, Accepted);
      assert AtMost(net, n);
      ConnectSettles(net, limit, c1, retries + 1, n);
      WorstSessionIsMet(net, limit, ConnectTo(net, limit, c1, retries + 1).0, retries + 1, n);
    }
  }

  lemma InitBoundIsAttained(limit: nat, n: nat)
    requires n > 0 && limit > 0
    ensures exists net ::
              && AtMost(net, n)
              && Init(net, limit).0.attempts == TowerSum(n, limit)
              && Init(net, limit).0.lookups == LookupSum(n, limit)
              && Init(net, limit).0.handshakes == limit
              && Init(net, limit).1 == Returned
  {
    hide Worst, WorstOfAll, ConnectTo, SetUpSession, Tower, Lookups, Follows, AtMost, AlwaysFinds;
    hide Planned, Settled, Levels, Gap;
    LevelsFromOne(limit);
    var plan := WorstOfAll(n, limit);
    var net := Planned(n, plan, limit - 1);
    PlannedIs(n, plan, limit - 1);
    WorstParts(n, limit);
    FollowsParts(net, 0, Worst(n, limit, Accepted), WorstOfAll(n, limit - 1));
    WorstLength(n, limit, Accepted);
    WorstIsMet(net, limit, START, 1, n, Accepted);
    ConnectSettles(net, limit, START, 1, n);
    WorstSessionIsMet(net, limit, ConnectTo(net, limit, START, 1).0, 1, n);
    assert AtMost(net, n);
  }

  lemma WorstParts(n: nat, m: nat)
    requires n > 0 && m > 0
    ensures WorstOfAll(n, m) == Worst(n, m, Accepted) + WorstOfAll(n, m - 1)
  {
  }
}
