/** The connection table in memory (lab2/rfss.c): a singly linked list and a separate counter. */
module ConnectionTables {
  import opened Protocol
  import opened ConnectionSpec

  class Connection {
    var host: string
    var ip: string
    var fd: int
    var next: Connection?

    constructor (host: string, ip: string, fd: int)
      ensures this.host == host && this.ip == ip && this.fd == fd && next == null
    {
      this.host, this.ip, this.fd, next := host, ip, fd, null;
    }
  }

  /** The i-th connection, or null past the end. */
  ghost function At(s: seq<Connection>, i: nat): Connection? {
    if i < |s| then s[i] else null
  }

  lemma ExitAfterFirst(t: Tab)
    requires t.conns != []
    ensures Exit(CloseAt(t, 0)) == Exit(t)
  {
  }

  lemma PickIs(cs: seq<Conn>, fd: int, k: nat)
    requires k < |cs| && (k < |cs| - 1 ==> cs[k].fd == fd)
    requires forall i :: 0 <= i < k ==> cs[i].fd != fd
    ensures Pick(cs, fd) == k
  {
  }

  class ConnectionTable {
    var head: Connection?
    var active: int          // active_connections
    var closed: seq<int>     // the calls of close, in order
    var exitThread: bool
    ghost var spine: seq<Connection>  // the connections in list order

    /** The list is null-terminated and free of cycles, and the counter is its length. */
    ghost predicate Valid()
      reads this, spine
    {
      && head == At(spine, 0)
      && (forall i {:trigger spine[i].next} :: 0 <= i < |spine| ==> spine[i].next == At(spine, i + 1))
      && (forall i, j :: 0 <= i < j < |spine| ==> spine[i] != spine[j])
      && active == |spine|
    }

    ghost function Conns(): (cs: seq<Conn>)
      reads this, spine
      ensures |cs| == |spine|
      ensures forall i :: 0 <= i < |cs| ==> cs[i] == Conn(spine[i].host, spine[i].ip, spine[i].fd)
    {
      seq(|spine|, i requires 0 <= i < |spine| reads this, spine =>
        Conn(spine[i].host, spine[i].ip, spine[i].fd))
    }

    ghost function State(): Tab
      reads this, spine
    {
      Tab(Conns(), closed)
    }

    constructor ()
      ensures Valid() && State() == Tab([], []) && !exitThread
    {
      head, active, closed, exitThread, spine := null, 0, [], false, [];
    }

    /** ctable_add: append at the end. */
    method Add(host: string, ip: string, fd: int)
      requires Valid()
      modifies this`head, this`active, this`spine, spine`next
      ensures Valid() && Conns() == old(Conns()) + [Conn(host, ip, fd)]
      ensures |spine| == |old(spine)| + 1 && spine[..|old(spine)|] == old(spine) && fresh(spine[|old(spine)|])
    {
      active := active + 1;
      var temp := new Connection(host, ip, fd);
      if head == null {
        head := temp;
        spine := [temp];
        return;
      }
      var curr: Connection := head;
      ghost var k := 0;
      while curr.next != null
        invariant 0 <= k < |spine| && curr == spine[k]
        decreases |spine| - k
      {
        curr := curr.next;
        k := k + 1;
      }
      curr.next := temp;
      spine := spine + [temp];
    }

    /** Taking connection i, which is not the first, out of the list behind its predecessor. */
    method Unlink(prev: Connection, curr: Connection, i: int)
      requires Valid() && 2 <= i <= |spine| && prev == spine[i - 2] && curr == spine[i - 1]
      modifies this`active, this`spine, spine`next
      ensures Valid() && spine == RemoveAt(old(spine), i - 1)
      ensures Conns() == RemoveAt(old(Conns()), i - 1)
    {
      prev.next := curr.next;
      active := active - 1;
      spine := RemoveAt(spine, i - 1);
      forall k | 0 <= k < |spine| ensures spine[k].next == At(spine, k + 1) {
        if k == i - 2 {
          assert old(spine)[i - 1].next == At(old(spine), i);
        } else {
          var j := if k < i - 1 then k else k + 1;
          assert old(spine)[j].next == At(old(spine), j + 1);
        }
      }
    }

    /** ctable_delete: unlink the connection number connectionId, counted from 1. */
    method Delete(connectionId: int) returns (r: int)
      requires Valid()
      requires spine == [] || 1 <= connectionId <= |spine|
      modifies this`head, this`active, this`spine, spine`next
      ensures Valid()
      ensures old(spine) == [] ==> r == -1 && spine == []
      ensures old(spine) != [] ==>
        && r == 1
        && spine == RemoveAt(old(spine), connectionId - 1)
        && Conns() == RemoveAt(old(Conns()), connectionId - 1)
    {
      if head == null {
        return -1;
      }
      var curr: Connection := head;
      if connectionId == 1 {
        head := curr.next;
        active := active - 1;
        spine := RemoveAt(spine, 0);
        return 1;
      }
      var prev := curr;
      var i := 1;
      while i < connectionId
        invariant 1 <= i <= connectionId && curr == spine[i - 1]
        invariant i > 1 ==> prev == spine[i - 2]
      {
        prev := curr;
        curr := curr.next;
        i := i + 1;
      }
      Unlink(prev, curr, connectionId);
      return 1;
    }

    method HasHost(host: string) returns (dup: bool)
      requires Valid()
      ensures dup == IsDup(Conns(), host)
    {
      var curr := head;
      ghost var k := 0;
      while curr != null
        invariant 0 <= k <= |spine| && curr == At(spine, k)
        invariant forall i :: 0 <= i < k ==> Conns()[i].host != host
        decreases |spine| - k
      {
        if curr.host == host {
          assert Conns()[k].host == host;
          return true;
        }
        curr := curr.next;
        k := k + 1;
      }
      return false;
    }

    /** connectMachine, with what the system and the peer answer as parameters. */
    method ConnectMachine(c: Conn, ownName: string, accepted: bool) returns (r: int, socketMade: bool)
      requires Valid()
      modifies this`head, this`active, this`spine, spine`next
      ensures Valid() && State() == Connect(old(State()), c, ownName, accepted)
      ensures socketMade <==>
              |old(spine)| < 5 && (forall x :: x in old(Conns()) ==> x.host != c.host) && c.host != ownName
      ensures socketMade <==> MayConnect(old(State()), c.host, ownName)
      ensures r == if socketMade && accepted then 1 else -1
      ensures Conns() == if r == 1 then old(Conns()) + [c] else old(Conns())
    {
      if active >= NUM_CONNECTIONS {
        return -1, false;
      }
      var dup := HasHost(c.host);
      if dup {
        return -1, false;
      }
      if ownName == c.host {
        return -1, false;
      }
      socketMade := true;
      if accepted {
        Add(c.host, c.ip, c.fd);
        return 1, socketMade;
      }
      return -1, socketMade;
    }

    method EstablishConnection(name: Option<string>, ip: string, fd: int) returns (r: int)
      requires Valid()
      modifies this`head, this`active, this`spine, spine`next
      ensures Valid() && State() == Establish(old(State()), name, ip, fd)
      ensures r == if |old(spine)| < 5 && name.Some? then 1 else -1
      ensures Conns() == if r == 1 then old(Conns()) + [Conn(name.value, ip, fd)] else old(Conns())
    {
      if active >= NUM_CONNECTIONS {
        return -1;
      }
      if name.Some? {
        Add(name.value, ip, fd);
        return 1;
      }
      return -1;
    }

    /** Both ways of terminating end with closing the socket of connection i and deleting it. */
    method CloseAndDelete(curr: Connection, i: int) returns (r: int)
      requires Valid() && 1 <= i <= |spine| && curr == spine[i - 1]
      modifies this`head, this`active, this`spine, this`closed, spine`next
      ensures Valid() && State() == CloseAt(old(State()), i - 1) && r == 1
      ensures spine == RemoveAt(old(spine), i - 1)
    {
      closed := closed + [curr.fd];
      r := Delete(i);
    }

    method TerminateMachine(connectionId: int) returns (r: int)
      requires Valid() && connectionId >= 1
      modifies this`head, this`active, this`spine, this`closed, spine`next
      ensures Valid() && State() == Terminate(old(State()), connectionId)
      ensures r == if connectionId > |old(spine)| then -1 else 1
      ensures r == 1 ==> spine == RemoveAt(old(spine), connectionId - 1)
    {
      if connectionId > active {
        return -1;
      }
      var i := 1;
      var curr := head;
      while i < connectionId
        invariant 1 <= i <= connectionId && curr == spine[i - 1]
      {
        curr := curr.next;
        i := i + 1;
      }
      r := CloseAndDelete(curr, connectionId);
    }

    /** terminateConnection: the loop stops before it compares the last connection. */
    method TerminateConnection(fd: int) returns (r: int)
      requires Valid()
      modifies this`head, this`active, this`spine, this`closed, spine`next
      ensures Valid() && State() == PeerTerminates(old(State()), fd)
      ensures r == if old(spine) == [] then -1 else 1
    {
      var curr := head;
      var i := 1;
      while i < active
        invariant 1 <= i && (active > 0 ==> i <= active)
        invariant curr == At(spine, i - 1)
        invariant forall k :: 0 <= k < i - 1 && k < |spine| ==> Conns()[k].fd != fd
      {
        if curr.fd == fd {
          break;
        }
        curr := curr.next;
        i := i + 1;
      }
      if curr == null {
        return -1;
      }
      PickIs(Conns(), fd, i - 1);
      r := CloseAndDelete(curr, i);
    }

    /** exitMachine: terminate the first connection as often as there are connections. */
    method ExitMachine()
      requires Valid()
      modifies this, spine`next
      ensures Valid() && State() == Exit(old(State()))
      ensures exitThread == (old(exitThread) || old(spine) == [])
    {
      if active == 0 {
        exitThread := true;
        return;
      }
      var total := active;
      var i := 1;
      while i <= total
        invariant 1 <= i <= total + 1 && Valid() && exitThread == old(exitThread)
        invariant spine == old(spine)[i - 1..]
        invariant Exit(State()) == Exit(old(State()))
      {
        ExitAfterFirst(State());
        var _ := TerminateMachine(1);
        i := i + 1;
      }
    }
  }
}
