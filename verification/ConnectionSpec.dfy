/** The connection table of lab2/rfss.c as a list of values, its operations, and what holds over any
    sequence of them. The linked list in ConnectionTables.dfy is proved against these functions. */
module ConnectionSpec {
  import opened Protocol

  const NUM_CONNECTIONS := 5

  datatype Conn = Conn(host: string, ip: string, fd: int)

  /** The open connections in list order, and the descriptors closed so far. */
  datatype Tab = Tab(conns: seq<Conn>, closed: seq<int>)

  function Fds(cs: seq<Conn>): (fds: seq<int>)
    ensures |fds| == |cs| && forall i :: 0 <= i < |cs| ==> fds[i] == cs[i].fd
  {
    seq(|cs|, i requires 0 <= i < |cs| => cs[i].fd)
  }

  function RemoveAt<T>(s: seq<T>, k: nat): (rest: seq<T>)
    requires k < |s|
    ensures |rest| == |s| - 1
    ensures forall i :: 0 <= i < |rest| ==> rest[i] == s[if i < k then i else i + 1]
  {
    s[..k] + s[k + 1..]
  }

  predicate IsDup(cs: seq<Conn>, host: string) {
    exists i :: 0 <= i < |cs| && cs[i].host == host
  }

  /** A connection to the host may be tried: only then connectMachine creates a socket. */
  predicate MayConnect(t: Tab, host: string, ownName: string) {
    |t.conns| < NUM_CONNECTIONS && !IsDup(t.conns, host) && host != ownName
  }

  /** Opening a connection to a named host; accepted says that the peer answered with success. */
  function Connect(t: Tab, c: Conn, ownName: string, accepted: bool): Tab {
    if MayConnect(t, c.host, ownName) && accepted then t.(conns := t.conns + [c]) else t
  }

  /** A peer connects; its name may not be resolvable. */
  function Establish(t: Tab, name: Option<string>, ip: string, fd: int): Tab {
    if |t.conns| >= NUM_CONNECTIONS || name.None? then t
    else t.(conns := t.conns + [Conn(name.value, ip, fd)])
  }

  /** Close the k-th connection (counted from 0) and take it out of the list. */
  function CloseAt(t: Tab, k: nat): Tab
    requires k < |t.conns|
  {
    Tab(RemoveAt(t.conns, k), t.closed + [t.conns[k].fd])
  }

  function Terminate(t: Tab, id: int): Tab
    requires id >= 1
  {
    if id > |t.conns| then t else CloseAt(t, id - 1)
  }

  /** The search for a descriptor: it compares all connections but the last, and settles for the last. */
  function Pick(cs: seq<Conn>, fd: int): (k: nat)
    requires cs != []
    ensures k < |cs|
    ensures k < |cs| - 1 ==> cs[k].fd == fd
    ensures forall i :: 0 <= i < k ==> cs[i].fd != fd
  {
    if |cs| == 1 || cs[0].fd == fd then 0
    else
      var k := Pick(cs[1..], fd);
      assert forall i :: 0 < i < k + 1 ==> cs[i] == cs[1..][i - 1];
      k + 1
  }

  function PeerTerminates(t: Tab, fd: int): Tab {
    if t.conns == [] then t else CloseAt(t, Pick(t.conns, fd))
  }

  function Exit(t: Tab): Tab {
    Tab([], t.closed + Fds(t.conns))
  }

  /** A connection is added exactly when there are fewer than five, none with the same host, and the host
      is another one that accepts. */
  lemma ConnectAddsExactly(t: Tab, c: Conn, ownName: string, accepted: bool)
    ensures Connect(t, c, ownName, accepted) ==
            if |t.conns| < 5 && (forall x :: x in t.conns ==> x.host != c.host) && c.host != ownName && accepted
            then Tab(t.conns + [c], t.closed)
            else t
  {
    if x :| x in t.conns && x.host == c.host {
      assert IsDup(t.conns, c.host);
    }
  }

  /** A peer is added exactly when there are fewer than five connections and it has a name, under this name
      and its address. */
  lemma EstablishAddsExactly(t: Tab, name: Option<string>, ip: string, fd: int)
    ensures Establish(t, name, ip, fd) ==
            if |t.conns| < 5 && name.Some? then Tab(t.conns + [Conn(name.value, ip, fd)], t.closed) else t
  {
  }

  /** Although the search never compares the last connection, the connection it removes is the one
      with the given descriptor exactly when the descriptor is in the table. */
  lemma PickIsRight(cs: seq<Conn>, fd: int)
    requires cs != []
    ensures cs[Pick(cs, fd)].fd == fd <==> fd in Fds(cs)
  {
  }

  /** A descriptor that is in no connection: the last connection is closed instead. */
  lemma AbsentDescriptorClosesLast(t: Tab, fd: int)
    requires t.conns != [] && fd !in Fds(t.conns)
    ensures PeerTerminates(t, fd) == Tab(t.conns[..|t.conns| - 1], t.closed + [t.conns[|t.conns| - 1].fd])
  {
  }

  ghost predicate DistinctFds(cs: seq<Conn>) {
    forall i, j :: 0 <= i < j < |cs| ==> cs[i].fd != cs[j].fd
  }

  /** With pairwise different descriptors, exactly the connection of a known descriptor goes, and the
      others keep their order. */
  lemma PeerTerminatesExactly(t: Tab, fd: int)
    requires DistinctFds(t.conns) && fd in Fds(t.conns)
    ensures exists k :: 0 <= k < |t.conns| && t.conns[k].fd == fd && PeerTerminates(t, fd) == CloseAt(t, k)
    ensures fd !in Fds(PeerTerminates(t, fd).conns)
  {
  }

  // ---------- Any sequence of operations ----------

  datatype Op =
    | ConnectTo(conn: Conn, ownName: string, accepted: bool)
    | PeerConnects(name: Option<string>, ip: string, fd: int)
    | TerminateId(id: int)
    | PeerLeaves(fd: int)
    | ExitAll

  /** Ids are at least 1, and the system gives new connections descriptors that are not in use. */
  predicate Admissible(t: Tab, op: Op) {
    match op
    case ConnectTo(c, _, _) => c.fd !in Fds(t.conns)
    case PeerConnects(_, _, fd) => fd !in Fds(t.conns)
    case TerminateId(id) => id >= 1
    case _ => true
  }

  function Do(t: Tab, op: Op): Tab
    requires Admissible(t, op)
  {
    match op
    case ConnectTo(c, ownName, accepted) => Connect(t, c, ownName, accepted)
    case PeerConnects(name, ip, fd) => Establish(t, name, ip, fd)
    case TerminateId(id) => Terminate(t, id)
    case PeerLeaves(fd) => PeerTerminates(t, fd)
    case ExitAll => Exit(t)
  }

  /** The descriptor that an operation adds to the table, if any. */
  function Opened(t: Tab, op: Op): multiset<int>
    requires Admissible(t, op)
  {
    if |Do(t, op).conns| <= |t.conns| then multiset{}
    else if op.ConnectTo? then multiset{op.conn.fd}
    else if op.PeerConnects? then multiset{op.fd}
    else multiset{}
  }

  predicate OpRun(ops: seq<Op>)
    decreases |ops|, 0
  {
    ops == [] || (OpRun(ops[..|ops| - 1]) && Admissible(TabAfter(ops[..|ops| - 1]), ops[|ops| - 1]))
  }

  function TabAfter(ops: seq<Op>): Tab
    requires OpRun(ops)
    decreases |ops|, 1
  {
    if ops == [] then Tab([], []) else Do(TabAfter(ops[..|ops| - 1]), ops[|ops| - 1])
  }

  function AllOpened(ops: seq<Op>): multiset<int>
    requires OpRun(ops)
  {
    if ops == [] then multiset{}
    else AllOpened(ops[..|ops| - 1]) + Opened(TabAfter(ops[..|ops| - 1]), ops[|ops| - 1])
  }

  /** What one operation keeps and how it moves descriptors. */
  ghost predicate Balanced(t: Tab, t': Tab, added: multiset<int>) {
    && |t'.conns| <= NUM_CONNECTIONS && DistinctFds(t'.conns)
    && multiset(Fds(t'.conns)) + multiset(t'.closed) == multiset(Fds(t.conns)) + multiset(t.closed) + added
  }

  lemma ClosingBalances(t: Tab, k: nat)
    requires k < |t.conns| <= NUM_CONNECTIONS && DistinctFds(t.conns)
    ensures Balanced(t, CloseAt(t, k), multiset{})
  {
    var fds := Fds(t.conns);
    assert Fds(RemoveAt(t.conns, k)) == fds[..k] + fds[k + 1..];
    assert fds == fds[..k] + [fds[k]] + fds[k + 1..];
  }

  lemma AddingBalances(t: Tab, c: Conn)
    requires |t.conns| < NUM_CONNECTIONS && DistinctFds(t.conns) && c.fd !in Fds(t.conns)
    ensures Balanced(t, t.(conns := t.conns + [c]), multiset{c.fd})
  {
    assert Fds(t.conns + [c]) == Fds(t.conns) + [c.fd];
    forall i | 0 <= i < |t.conns| ensures t.conns[i].fd != c.fd {
      assert Fds(t.conns)[i] == t.conns[i].fd;
    }
  }

  lemma DoBalances(t: Tab, op: Op)
    requires Admissible(t, op) && |t.conns| <= NUM_CONNECTIONS && DistinctFds(t.conns)
    ensures Balanced(t, Do(t, op), Opened(t, op))
  {
    match op
    case ConnectTo(c, _, _) =>
      if Do(t, op) != t {
        AddingBalances(t, c);
      }
    case PeerConnects(name, ip, fd) =>
      if Do(t, op) != t {
        AddingBalances(t, Conn(name.value, ip, fd));
      }
    case TerminateId(id) =>
      if id <= |t.conns| {
        ClosingBalances(t, id - 1);
      }
    case PeerLeaves(fd) =>
      if t.conns != [] {
        ClosingBalances(t, Pick(t.conns, fd));
      }
    case ExitAll =>
  }

  /** Over any sequence of operations there are never too many connections, their descriptors are
      pairwise different, and every descriptor ever put into the table is either still there or has
      been closed, as often as it was put in: none is lost, none is closed twice. */
  lemma {:induction false} DescriptorsAreKept(ops: seq<Op>)
    requires OpRun(ops)
    ensures var t := TabAfter(ops);
            && |t.conns| <= 5 && DistinctFds(t.conns)
            && multiset(Fds(t.conns)) + multiset(t.closed) == AllOpened(ops)
  {
    if ops != [] {
      DescriptorsAreKept(ops[..|ops| - 1]);
      DoBalances(TabAfter(ops[..|ops| - 1]), ops[|ops| - 1]);
    }
  }

  // ---------- Where connections come from, and where they go ----------

  predicate AskedFor(op: Op, c: Conn) {
    op.ConnectTo? && op.conn == c && op.accepted && op.ownName != c.host
  }

  predicate CameFromPeer(op: Op, c: Conn) {
    op.PeerConnects? && op.name == Some(c.host) && op.ip == c.ip && op.fd == c.fd
  }

  /** A new connection is what the operation says. */
  lemma NewConnection(t: Tab, op: Op, c: Conn)
    requires Admissible(t, op) && c in Do(t, op).conns && c !in t.conns
    ensures AskedFor(op, c) || CameFromPeer(op, c)
  {
  }

  /** Every connection is one that was asked for, or one that a peer made, as it was then. */
  lemma {:induction false} EveryConnectionWasMade(ops: seq<Op>, c: Conn)
    requires OpRun(ops) && c in TabAfter(ops).conns
    ensures exists k :: 0 <= k < |ops| && (AskedFor(ops[k], c) || CameFromPeer(ops[k], c))
  {
    var before := ops[..|ops| - 1];
    if c in TabAfter(before).conns {
      EveryConnectionWasMade(before, c);
      var k :| 0 <= k < |before| && (AskedFor(before[k], c) || CameFromPeer(before[k], c));
      assert ops[k] == before[k];
    } else {
      NewConnection(TabAfter(before), ops[|ops| - 1], c);
    }
  }

  /** One is listed before the other, and both name the same host. */
  ghost predicate Twins(cs: seq<Conn>, c: Conn, twin: Conn) {
    c.host == twin.host && exists i, j :: 0 <= i < j < |cs| && cs[i] == c && cs[j] == twin
  }

  lemma NewTwin(t: Tab, op: Op, c: Conn, twin: Conn)
    requires Admissible(t, op) && Twins(Do(t, op).conns, c, twin) && !Twins(t.conns, c, twin)
    ensures CameFromPeer(op, twin)
  {
  }

  /** Of two connections with one host, the later one was made by a peer: the duplicate test covers the
      connections that are asked for. */
  lemma {:induction false} TwinsComeFromPeers(ops: seq<Op>, c: Conn, twin: Conn)
    requires OpRun(ops) && Twins(TabAfter(ops).conns, c, twin)
    ensures exists k :: 0 <= k < |ops| && CameFromPeer(ops[k], twin)
  {
    var before := ops[..|ops| - 1];
    if Twins(TabAfter(before).conns, c, twin) {
      TwinsComeFromPeers(before, c, twin);
      var k :| 0 <= k < |before| && CameFromPeer(before[k], twin);
      assert ops[k] == before[k];
    } else {
      NewTwin(TabAfter(before), ops[|ops| - 1], c, twin);
    }
  }

  /** From t to later the descriptor was closed. */
  ghost predicate ClosedSince(t: Tab, later: Tab, fd: int) {
    t.closed <= later.closed && fd in later.closed[|t.closed|..]
  }

  /** From t to later, connection c stayed in the table, or its descriptor was closed. */
  ghost predicate StaysOrCloses(t: Tab, later: Tab, c: Conn) {
    t.closed <= later.closed && (c in later.conns || ClosedSince(t, later, c.fd))
  }

  lemma ClosedOrKept(t: Tab, k: nat, i: nat)
    requires k < |t.conns| && i < |t.conns|
    ensures StaysOrCloses(t, CloseAt(t, k), t.conns[i])
  {
    var later := CloseAt(t, k);
    if i == k {
      assert later.closed[|t.closed|..] == [t.conns[k].fd];
    } else {
      assert later.conns[if i < k then i else i - 1] == t.conns[i];
    }
  }

  lemma ConnectionGoesByClosing(t: Tab, op: Op, c: Conn)
    requires Admissible(t, op) && c in t.conns
    ensures StaysOrCloses(t, Do(t, op), c)
  {
    var i :| 0 <= i < |t.conns| && t.conns[i] == c;
    match op
    case ConnectTo(_, _, _) =>
    case PeerConnects(_, _, _) =>
    case TerminateId(id) =>
      if id <= |t.conns| {
        ClosedOrKept(t, id - 1, i);
      }
    case PeerLeaves(fd) => ClosedOrKept(t, Pick(t.conns, fd), i);
    case ExitAll => assert Exit(t).closed[|t.closed|..] == Fds(t.conns) && Fds(t.conns)[i] == c.fd;
  }

  lemma StaysOrClosesLonger(t: Tab, mid: Tab, later: Tab, c: Conn)
    requires StaysOrCloses(t, mid, c) && mid.closed <= later.closed
    requires c in mid.conns ==> StaysOrCloses(mid, later, c)
    ensures StaysOrCloses(t, later, c)
  {
    if c.fd in mid.closed[|t.closed|..] {
      var i :| 0 <= i < |mid.closed[|t.closed|..]| && mid.closed[|t.closed|..][i] == c.fd;
      assert later.closed[|t.closed|..][i] == c.fd;
    } else if c.fd in later.closed[|mid.closed|..] {
      var i :| 0 <= i < |later.closed[|mid.closed|..]| && later.closed[|mid.closed|..][i] == c.fd;
      assert later.closed[|t.closed|..][i + |mid.closed| - |t.closed|] == c.fd;
    }
  }

  lemma ClosingsAreKept(t: Tab, op: Op)
    requires Admissible(t, op)
    ensures t.closed <= Do(t, op).closed
  {
  }

  lemma {:induction false} UntilItIsClosed(ops: seq<Op>, more: seq<Op>, c: Conn)
    requires OpRun(ops + more) && OpRun(ops) && c in TabAfter(ops).conns
    ensures StaysOrCloses(TabAfter(ops), TabAfter(ops + more), c)
  {
    if more == [] {
      assert ops + more == ops;
    } else {
      var less := more[..|more| - 1];
      assert (ops + more)[..|ops + more| - 1] == ops + less;
      UntilItIsClosed(ops, less, c);
      var t, mid, op := TabAfter(ops), TabAfter(ops + less), more[|more| - 1];
      ClosingsAreKept(mid, op);
      if c in mid.conns {
        ConnectionGoesByClosing(mid, op, c);
      }
      StaysOrClosesLonger(t, mid, Do(mid, op), c);
    }
  }

  /** As long as the descriptor of a connection is not closed, asking for its host again changes nothing,
      whether it was asked for or made by a peer. */
  lemma ConnectedHostIsRefused(ops: seq<Op>, more: seq<Op>, c: Conn, again: Conn, ownName: string, accepted: bool)
    requires OpRun(ops + more) && OpRun(ops) && c in TabAfter(ops).conns && again.host == c.host
    requires !ClosedSince(TabAfter(ops), TabAfter(ops + more), c.fd)
    ensures Connect(TabAfter(ops + more), again, ownName, accepted) == TabAfter(ops + more)
  {
    UntilItIsClosed(ops, more, c);
    ConnectAddsExactly(TabAfter(ops + more), again, ownName, accepted);
  }

  // ---------- Sockets ----------

  /** The socket that an operation opens, or gets from accept, whether or not a connection comes of it. */
  function Socket(t: Tab, op: Op): multiset<int> {
    match op
    case ConnectTo(c, ownName, _) => if MayConnect(t, c.host, ownName) then multiset{c.fd} else multiset{}
    case PeerConnects(_, _, fd) => multiset{fd}
    case _ => multiset{}
  }

  /** A socket that gets neither into the table nor closed: nobody can close it any more. */
  function Leaked(t: Tab, op: Op): multiset<int>
    requires Admissible(t, op)
  {
    Socket(t, op) - Opened(t, op)
  }

  /** Exactly the refused connections leak: those that a peer does not accept after the socket was made, and
      those of peers for which there is no room or no name. */
  lemma LeaksExactly(t: Tab, op: Op)
    requires Admissible(t, op)
    ensures Leaked(t, op) + Opened(t, op) == Socket(t, op)
    ensures Leaked(t, op) ==
            match op
            case ConnectTo(c, ownName, accepted) =>
              if |t.conns| < 5 && (forall x :: x in t.conns ==> x.host != c.host) && c.host != ownName && !accepted
              then multiset{c.fd} else multiset{}
            case PeerConnects(name, _, fd) =>
              if |t.conns| >= 5 || name.None? then multiset{fd} else multiset{}
            case _ => multiset{}
  {
    if op.TerminateId? || op.PeerLeaves? || op.ExitAll? {
      assert |Do(t, op).conns| <= |t.conns|;
    }
  }

  function AllSockets(ops: seq<Op>): multiset<int>
    requires OpRun(ops)
  {
    if ops == [] then multiset{}
    else AllSockets(ops[..|ops| - 1]) + Socket(TabAfter(ops[..|ops| - 1]), ops[|ops| - 1])
  }

  function AllLeaked(ops: seq<Op>): multiset<int>
    requires OpRun(ops)
  {
    if ops == [] then multiset{}
    else AllLeaked(ops[..|ops| - 1]) + Leaked(TabAfter(ops[..|ops| - 1]), ops[|ops| - 1])
  }

  lemma {:induction false} OpenedOrLeaked(ops: seq<Op>)
    requires OpRun(ops)
    ensures AllOpened(ops) + AllLeaked(ops) == AllSockets(ops)
  {
    if ops != [] {
      OpenedOrLeaked(ops[..|ops| - 1]);
      LeaksExactly(TabAfter(ops[..|ops| - 1]), ops[|ops| - 1]);
    }
  }

  /** Over any sequence of operations every socket ever opened is in the table, has been closed, or was
      leaked by a refused connection, and only one of these. */
  lemma SocketsAreAccountedFor(ops: seq<Op>)
    requires OpRun(ops)
    ensures var t := TabAfter(ops);
            multiset(Fds(t.conns)) + multiset(t.closed) + AllLeaked(ops) == AllSockets(ops)
  {
    DescriptorsAreKept(ops);
    OpenedOrLeaked(ops);
  }
}
