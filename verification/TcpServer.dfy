/** The socket server's event loop and the reverse interface it notifies. */
module TcpServer {
  import opened Wrappers

  const INVALID_SOCKET: int := -1

  // ---------------------------------------------------------------------
  // The reverse interface
  // ---------------------------------------------------------------------

  /** Program-state notifications that start with false and never repeat. */
  predicate Alternates(notified: seq<bool>) {
    && |notified| > 0 && !notified[0]
    && forall i :: 0 <= i < |notified| - 1 ==> notified[i + 1] == !notified[i]
  }

  lemma Notified(notified: seq<bool>, state: bool)
    ensures Alternates(notified) && notified[|notified| - 1] != state ==> Alternates(notified + [state])
  {
  }

  class ReverseInterface {
    var clientFd: int
    var notified: seq<bool>   // arguments handle_program_state_ was called with

    constructor ()
      ensures clientFd == INVALID_SOCKET && notified == [false]
    {
      clientFd, notified := INVALID_SOCKET, [false];
    }

    /** The last notification says whether a robot is connected. */
    ghost predicate Consistent()
      reads this
    {
      Alternates(notified) && (notified[|notified| - 1] <==> clientFd != INVALID_SOCKET)
    }

    /** `connectionCallback`: a second robot is ignored. */
    method ConnectionCallback(fd: int)
      modifies this
      ensures clientFd == if old(clientFd) == INVALID_SOCKET then fd else old(clientFd)
      ensures notified == if old(clientFd) == INVALID_SOCKET then old(notified) + [true] else old(notified)
    {
      if clientFd == INVALID_SOCKET {
        clientFd := fd;
        notified := notified + [true];
      }
    }

    /** `disconnectionCallback`. */
    method DisconnectionCallback(fd: int)
      modifies this
      ensures clientFd == INVALID_SOCKET && notified == old(notified) + [false]
    {
      clientFd := INVALID_SOCKET;
      notified := notified + [false];
    }
  }

  // ---------------------------------------------------------------------
  // The server
  // ---------------------------------------------------------------------

  predicate Distinct(s: seq<int>) { forall i, j :: 0 <= i < j < |s| ==> s[i] != s[j] }

  function Erase(s: seq<int>, x: int): (r: seq<int>)
  {
    if s == [] then [] else if s[0] == x then s[1..] else [s[0]] + Erase(s[1..], x)
  }

  lemma {:induction false} EraseDistinct(s: seq<int>, x: int)
    requires Distinct(s)
    ensures Distinct(Erase(s, x))
    ensures forall y :: y in Erase(s, x) <==> y in s && y != x
    ensures x in s ==> |Erase(s, x)| == |s| - 1
  {
    if s != [] {
      var rest := s[1..];
      HeadApart(s);
      if s[0] != x {
        EraseDistinct(rest, x);
        var r := Erase(rest, x);
        assert s[0] !in r;
        HeadAdded(s[0], r);
        assert forall y :: y in s <==> y == s[0] || y in rest;
      }
    }
  }

  lemma HeadApart(s: seq<int>)
    requires Distinct(s) && s != []
    ensures Distinct(s[1..]) && s[0] !in s[1..]
    ensures forall y :: y in s <==> y == s[0] || y in s[1..]
  {
    assert s == [s[0]] + s[1..];
  }

  lemma HeadAdded(x: int, r: seq<int>)
    requires Distinct(r) && x !in r
    ensures Distinct([x] + r)
  {
    assert forall i :: 0 <= i < |r| ==> r[i] in r;
  }

  lemma EraseStep(s: seq<int>, i: nat, x: int)
    requires i < |s| && Erase(s, x) == s[..i] + Erase(s[i..], x)
    ensures Erase(s, x) == s[..i] + if s[i] == x then s[i + 1..] else [s[i]] + Erase(s[i + 1..], x)
    ensures s[i] != x ==> Erase(s, x) == s[..i + 1] + Erase(s[i + 1..], x)
  {
    assert s[i..][0] == s[i] && s[i..][1..] == s[i + 1..];
    assert s[..i + 1] == s[..i] + [s[i]];
    assert s[..i] + ([s[i]] + Erase(s[i + 1..], x)) == s[..i] + [s[i]] + Erase(s[i + 1..], x);
  }

  /** What the operating system answers: the descriptor of a new connection, given those open,
      and the number of bytes read from a client. */
  datatype System = System(accept: set<int> -> int, recv: int -> int)

  /** `accept` hands out a descriptor that is not open, or fails. */
  ghost predicate Honest(system: System) {
    forall fds :: system.accept(fds) == INVALID_SOCKET || (system.accept(fds) >= 0 && system.accept(fds) !in fds)
  }

  function Members(s: seq<int>): set<int> { set x | x in s }

  lemma {:induction false} MembersCount(s: seq<int>)
    requires Distinct(s)
    ensures |Members(s)| == |s|
  {
    if s != [] {
      HeadApart(s);
      MembersCount(s[1..]);
      assert Members(s) == {s[0]} + Members(s[1..]);
    }
  }

  lemma EraseMembers(s: seq<int>, x: int)
    requires Distinct(s)
    ensures Members(Erase(s, x)) == Members(s) - {x}
  {
    EraseDistinct(s, x);
  }

  /** The clients left once the ready descriptors below `bound` have been served. */
  function Left(clients: set<int>, bound: int, ready: set<int>, system: System): set<int> {
    set fd | fd in clients && !(fd < bound && fd in ready && system.recv(fd) <= 0)
  }

  predicate AcceptFails(listenFd: int, clients: set<int>, ready: set<int>, system: System) {
    listenFd in ready && system.accept({listenFd} + Left(clients, listenFd, ready, system)) == INVALID_SOCKET
  }

  /** The client accepted once the ready descriptors below `bound` have been served. */
  function Added(listenFd: int, most: nat, clients: set<int>, bound: int, ready: set<int>, system: System): set<int> {
    var present := Left(clients, listenFd, ready, system);
    if listenFd in ready && listenFd < bound && (most == 0 || |present| < most)
    then {system.accept({listenFd} + present)} else {}
  }

  lemma LeftNext(clients: set<int>, i: int, ready: set<int>, system: System)
    ensures Left(clients, i + 1, ready, system)
         == if i in ready && system.recv(i) <= 0 then Left(clients, i, ready, system) - {i}
            else Left(clients, i, ready, system)
  {
  }

  lemma LeftBelow(clients: set<int>, bound: int, ready: set<int>, system: System)
    requires forall fd :: fd in clients ==> bound <= fd
    ensures Left(clients, bound, ready, system) == clients
  {
  }

  lemma LeftAll(clients: set<int>, bound: int, ready: set<int>, system: System)
    requires forall fd :: fd in clients ==> fd < bound
    ensures Left(clients, bound, ready, system) == set x | x in clients && !(x in ready && system.recv(x) <= 0)
  {
  }

  lemma SmallerLeft(clients: set<int>, bound: int, ready: set<int>, system: System)
    ensures |Left(clients, bound, ready, system)| <= |clients|
  {
    Fewer(Left(clients, bound, ready, system), clients);
  }

  lemma Fewer(a: set<int>, b: set<int>)
    requires a <= b
    ensures |a| <= |b|
  {
    assert b == a + (b - a) && a * (b - a) == {};
  }

  /** What one round makes of the clients, or nothing if accepting throws: descriptors are served
      in increasing order, so a connection is accepted among the clients left by then. */
  function Served(listenFd: int, most: nat, clients: set<int>, ready: set<int>, system: System): Option<set<int>> {
    var present := Left(clients, listenFd, ready, system);
    var fd := system.accept({listenFd} + present);
    var kept := set x | x in clients && !(x in ready && system.recv(x) <= 0);
    if listenFd !in ready then Some(kept)
    else if fd == INVALID_SOCKET then None
    else Some(if most == 0 || |present| < most then kept + {fd} else kept)
  }

  function ServedAll(listenFd: int, most: nat, clients: set<int>, rounds: seq<(set<int>, System)>): Option<set<int>> {
    if rounds == [] then Some(clients)
    else
      match ServedAll(listenFd, most, clients, rounds[..|rounds| - 1])
      case None => None
      case Some(now) =>
        var (ready, system) := rounds[|rounds| - 1];
        Served(listenFd, most, now, ready * ({listenFd} + now), system)
  }

  /** What serving one descriptor makes of the clients. */
  predicate OneServed(listenFd: int, most: nat, i: int, active: bool, system: System,
                      clients: set<int>, threw: bool, after: set<int>) {
    if !active then !threw && after == clients
    else if i != listenFd then !threw && after == if system.recv(i) > 0 then clients else clients - {i}
    else
      var fd := system.accept({listenFd} + clients);
      && (threw <==> fd == INVALID_SOCKET)
      && (!threw ==> after == if most == 0 || |clients| < most then clients + {fd} else clients)
  }

  /** The clients once the ready descriptors below `bound` have been served. */
  function ServedUpTo(listenFd: int, most: nat, clients: set<int>, bound: int, ready: set<int>,
                      system: System): set<int> {
    Left(clients, bound, ready, system) + Added(listenFd, most, clients, bound, ready, system)
  }

  lemma StartsServed(listenFd: int, most: nat, clients: set<int>, ready: set<int>, system: System)
    requires 0 <= listenFd && forall fd :: fd in clients ==> 0 <= fd
    ensures ServedUpTo(listenFd, most, clients, 0, ready, system) == clients
  {
    LeftBelow(clients, 0, ready, system);
  }

  lemma NextServed(listenFd: int, most: nat, clients: set<int>, i: int, ready: set<int>, system: System,
                   now: set<int>, threw: bool, after: set<int>)
    requires now == ServedUpTo(listenFd, most, clients, i, ready, system) && Honest(system) && listenFd !in clients
    requires OneServed(listenFd, most, i, i in ready, system, now, threw, after)
    requires i > listenFd ==> !AcceptFails(listenFd, clients, ready, system)
    requires ready <= {listenFd} + clients
    ensures threw <==> i == listenFd && AcceptFails(listenFd, clients, ready, system)
    ensures !threw ==> after == ServedUpTo(listenFd, most, clients, i + 1, ready, system)
  {
    LeftNext(clients, i, ready, system);
    var left := Left(clients, i, ready, system);
    if i <= listenFd {
      assert now == left;
    } else if i in ready {
      NewcomerApart(listenFd, most, clients, i, ready, system);
    }
  }

  /** A client accepted in this round is not one that is still to be served in it. */
  lemma NewcomerApart(listenFd: int, most: nat, clients: set<int>, i: int, ready: set<int>, system: System)
    requires i > listenFd && Honest(system) && !AcceptFails(listenFd, clients, ready, system)
    requires ready <= {listenFd} + clients && i in ready
    ensures i !in Added(listenFd, most, clients, i, ready, system)
  {
    assert i in Left(clients, listenFd, ready, system);
  }

  lemma RoundFails(listenFd: int, most: nat, clients: set<int>, ready: set<int>, system: System)
    requires AcceptFails(listenFd, clients, ready, system)
    ensures Served(listenFd, most, clients, ready, system) == None
  {
  }

  /** A round seen as a whole. */
  lemma RoundServed(listenFd: int, most: nat, clientFds: seq<int>, end: int, ready: set<int>, system: System)
    requires Distinct(clientFds) && listenFd < end && forall fd :: fd in Members(clientFds) ==> fd < end
    requires !AcceptFails(listenFd, Members(clientFds), ready, system)
    ensures var clients := Members(clientFds);
            var added := Added(listenFd, most, clients, end, ready, system);
            var after := Left(clients, end, ready, system) + added;
            && Served(listenFd, most, clients, ready, system) == Some(after)
            && |added| <= 1 && (listenFd !in ready ==> added == {})
            && (listenFd in ready && (most == 0 || |clientFds| < most) ==> |added| == 1)
            && forall fd :: fd in after <==>
                 fd in added || (fd in clientFds && !(fd in ready && system.recv(fd) <= 0))
  {
    var clients := Members(clientFds);
    LeftAll(clients, end, ready, system);
    SmallerLeft(clients, listenFd, ready, system);
    MembersCount(clientFds);
    assert Left(clients, end, ready, system) + {} == Left(clients, end, ready, system);
  }

  lemma NoRounds(listenFd: int, most: nat, clients: set<int>, rounds: seq<(set<int>, System)>)
    ensures ServedAll(listenFd, most, clients, rounds[..0]) == Some(clients)
  {
  }

  lemma OneRoundMore(listenFd: int, most: nat, clients: set<int>, rounds: seq<(set<int>, System)>, k: nat)
    requires k < |rounds| && ServedAll(listenFd, most, clients, rounds[..k]).Some?
    ensures var now := ServedAll(listenFd, most, clients, rounds[..k]).value;
            ServedAll(listenFd, most, clients, rounds[..k + 1])
              == Served(listenFd, most, now, rounds[k].0 * ({listenFd} + now), rounds[k].1)
  {
    hide Served;
    assert rounds[..k + 1][..k] == rounds[..k];
  }

  class Server {
    const listenFd: int
    const maxClientsAllowed: nat
    const callbacks: ReverseInterface
    var masterFds: set<int>
    var clientFds: seq<int>
    var maxFd: int

    /** The descriptors watched are the listening one and the clients'. */
    ghost predicate Valid()
      reads this
    {
      && listenFd >= 0
      && Distinct(clientFds) && listenFd !in clientFds
      && (forall fd :: fd in masterFds <==> fd == listenFd || fd in clientFds)
      && (forall fd :: fd in masterFds ==> 0 <= fd <= maxFd)
      && (maxClientsAllowed > 0 ==> |clientFds| <= maxClientsAllowed)
    }

    /** With one client allowed, the interface's descriptor is that client's. */
    ghost predicate Single()
      reads this, callbacks
    {
      && maxClientsAllowed == 1
      && clientFds == (if callbacks.clientFd == INVALID_SOCKET then [] else [callbacks.clientFd])
      && callbacks.Consistent()
    }

    constructor (listenFd: int, callbacks: ReverseInterface, maxClientsAllowed: nat)
      requires listenFd >= 0
      ensures Valid() && clientFds == [] && this.callbacks == callbacks && this.maxClientsAllowed == maxClientsAllowed
      ensures this.listenFd == listenFd
    {
      this.listenFd, this.callbacks, this.maxClientsAllowed := listenFd, callbacks, maxClientsAllowed;
      masterFds, clientFds, maxFd := {listenFd}, [], listenFd;
    }

    /** `handleConnect`: throws when accepting fails, closes a connection that is one too many. */
    method HandleConnect(fd: int) returns (threw: bool)
      requires Valid() && (fd == INVALID_SOCKET || (fd >= 0 && fd !in masterFds))
      modifies this, callbacks
      ensures Valid() && (old(Single()) ==> Single())
      ensures threw <==> fd == INVALID_SOCKET
      ensures maxFd >= old(maxFd)
      ensures clientFds == if !threw && (|old(clientFds)| < maxClientsAllowed || maxClientsAllowed == 0)
                           then old(clientFds) + [fd] else old(clientFds)
    {
      if fd == INVALID_SOCKET {
        return true;
      }
      if |clientFds| < maxClientsAllowed || maxClientsAllowed == 0 {
        clientFds := clientFds + [fd];
        masterFds := masterFds + {fd};
        if fd > maxFd {
          maxFd := fd;
        }
        Notified(callbacks.notified, true);
        callbacks.ConnectionCallback(fd);
      }
      return false;
    }

    /** `handleDisconnect`. */
    method HandleDisconnect(fd: int)
      requires Valid() && fd in clientFds
      modifies this, callbacks
      ensures Valid() && (old(Single()) ==> Single())
      ensures clientFds == Erase(old(clientFds), fd) && maxFd == old(maxFd)
      ensures masterFds == old(masterFds) - {fd}
    {
      Notified(callbacks.notified, false);
      EraseDistinct(clientFds, fd);
      assert Erase([fd], fd) == [];
      callbacks.DisconnectionCallback(fd);
      masterFds := masterFds - {fd};
      RemoveClient(fd);
    }

    /** The loop of `handleDisconnect`. */
    method RemoveClient(fd: int)
      modifies this`clientFds
      ensures clientFds == Erase(old(clientFds), fd)
    {
      ghost var clients := clientFds;
      assert clients[0..] == clients && clients[..0] + Erase(clients, fd) == Erase(clients, fd);
      var i := 0;
      while i < |clientFds|
        invariant i <= |clientFds| && clientFds == clients
        invariant Erase(clients, fd) == clients[..i] + Erase(clients[i..], fd)
      {
        EraseStep(clients, i, fd);
        if clientFds[i] == fd {
          clientFds := clientFds[..i] + clientFds[i + 1..];
          return;
        }
        i := i + 1;
      }
      assert clients[..i] + Erase(clients[i..], fd) == clients;
    }

    /** `readData`: data is handed on, anything else ends the connection. */
    method ReadData(fd: int, received: int)
      requires Valid() && fd in clientFds
      modifies this, callbacks
      ensures Valid() && (old(Single()) ==> Single()) && maxFd == old(maxFd)
      ensures clientFds == if received > 0 then old(clientFds) else Erase(old(clientFds), fd)
    {
      if received <= 0 {
        HandleDisconnect(fd);
      }
    }

    /** `spin`: every ready descriptor is served once, in increasing order. */
    method Spin(ready: set<int>, system: System) returns (threw: bool, ghost added: set<int>)
      requires Valid() && Honest(system) && ready <= masterFds
      modifies this, callbacks
      ensures Valid() && (old(Single()) ==> Single())
      ensures |added| <= 1 && (listenFd !in ready ==> added == {})
      ensures !threw && listenFd in ready && (maxClientsAllowed == 0 || |old(clientFds)| < maxClientsAllowed) ==>
                |added| == 1
      ensures !threw ==> forall fd :: fd in clientFds <==>
                fd in added || (fd in old(clientFds) && !(fd in ready && system.recv(fd) <= 0))
      ensures var served := Served(listenFd, maxClientsAllowed, Members(old(clientFds)), ready, system);
              (threw <==> served.None?) && (!threw ==> Members(clientFds) == served.value)
    {
      hide Single, Left, Added, Served, AcceptFails, OneServed;
      ghost var before := Members(clientFds);
      StartsServed(listenFd, maxClientsAllowed, before, ready, system);
      Watched();
      var i := 0;
      while i <= maxFd
        invariant 0 <= i <= maxFd + 1 && Valid() && (old(Single()) ==> Single())
        invariant forall fd :: fd in ready && fd >= i ==> fd in masterFds
        invariant maxFd >= old(maxFd)
        invariant Members(clientFds) == ServedUpTo(listenFd, maxClientsAllowed, before, i, ready, system)
        invariant i > listenFd ==> !AcceptFails(listenFd, before, ready, system)
        decreases i <= listenFd, maxFd - i
      {
        ghost var now := Members(clientFds);
        Watched();
        threw := ServeOne(i, i in ready, system);
        NextServed(listenFd, maxClientsAllowed, before, i, ready, system, now, threw, Members(clientFds));
        if threw {
          RoundFails(listenFd, maxClientsAllowed, before, ready, system);
          added := {};
          return;
        }
        i := i + 1;
      }
      threw := false;
      added := Added(listenFd, maxClientsAllowed, before, i, ready, system);
      assert forall fd :: fd in before ==> fd in old(masterFds) && fd < i;
      RoundServed(listenFd, maxClientsAllowed, old(clientFds), i, ready, system);
    }

    /** One turn of the loop of `spin`. */
    method ServeOne(i: int, active: bool, system: System) returns (threw: bool)
      requires Valid() && Honest(system) && (active ==> i in masterFds)
      modifies this, callbacks
      ensures Valid() && (old(Single()) ==> Single()) && maxFd >= old(maxFd)
      ensures old(masterFds) - {i} <= masterFds && (i == listenFd || maxFd == old(maxFd))
      ensures OneServed(listenFd, maxClientsAllowed, i, active, system,
                        Members(old(clientFds)), threw, Members(clientFds))
    {
      hide Single;
      threw := false;
      Watched();
      if active {
        if listenFd == i {
          threw := Accept(system);
        } else {
          EraseMembers(clientFds, i);
          ReadData(i, system.recv(i));
          Watched();
        }
      }
    }

    /** A new connection, accepted among the descriptors that are open. */
    method Accept(system: System) returns (threw: bool)
      requires Valid() && Honest(system)
      modifies this, callbacks
      ensures Valid() && (old(Single()) ==> Single()) && maxFd >= old(maxFd)
      ensures var clients := Members(old(clientFds));
              var fd := system.accept({listenFd} + clients);
              && (threw <==> fd == INVALID_SOCKET)
              && (fd != INVALID_SOCKET ==> fd !in old(masterFds))
              && (!threw ==>
                    Members(clientFds) ==
                      if maxClientsAllowed == 0 || |clients| < maxClientsAllowed then clients + {fd} else clients)
              && old(masterFds) <= masterFds
    {
      hide Single;
      Watched();
      MembersCount(clientFds);
      threw := HandleConnect(system.accept(masterFds));
    }

    lemma Watched()
      requires Valid()
      ensures masterFds == {listenFd} + Members(clientFds)
    {
      forall fd ensures fd in masterFds <==> fd in {listenFd} + Members(clientFds) {
      }
    }

    /** `worker`: rounds of `spin` until one throws; `select` reports watched descriptors only. */
    method Worker(rounds: seq<(set<int>, System)>) returns (threw: bool)
      requires Valid() && forall k :: 0 <= k < |rounds| ==> Honest(rounds[k].1)
      modifies this, callbacks
      ensures Valid() && (old(Single()) ==> Single())
      ensures !threw ==>
                ServedAll(listenFd, maxClientsAllowed, Members(old(clientFds)), rounds) == Some(Members(clientFds))
      ensures threw ==>
                exists k :: 0 < k <= |rounds|
                            && ServedAll(listenFd, maxClientsAllowed, Members(old(clientFds)), rounds[..k]).None?
    {
      hide Single, Served, ServedAll, Honest, Members;
      threw := false;
      ghost var before := Members(clientFds);
      NoRounds(listenFd, maxClientsAllowed, before, rounds);
      for k := 0 to |rounds|
        invariant Valid() && (old(Single()) ==> Single())
        invariant ServedAll(listenFd, maxClientsAllowed, before, rounds[..k]) == Some(Members(clientFds))
      {
        OneRoundMore(listenFd, maxClientsAllowed, before, rounds, k);
        Watched();
        var failed, _ := Spin(rounds[k].0 * masterFds, rounds[k].1);
        if failed {
          return true;
        }
      }
      assert rounds[..|rounds|] == rounds;
    }
  }

  /** A reverse interface over every run of its server: the notifications start with false and
      strictly alternate, and the last one says whether a client is connected. */
  method Serve(listenFd: int, rounds: seq<(set<int>, System)>)
    returns (interface: ReverseInterface, server: Server, threw: bool)
    requires listenFd >= 0 && forall k :: 0 <= k < |rounds| ==> Honest(rounds[k].1)
    ensures server.callbacks == interface && server.Valid() && server.Single()
    ensures Alternates(interface.notified)
    ensures interface.notified[|interface.notified| - 1] <==> |server.clientFds| == 1
    ensures !threw ==> ServedAll(listenFd, 1, {}, rounds) == Some(Members(server.clientFds))
  {
    interface := new ReverseInterface();
    server := new Server(listenFd, interface, 1);
    assert Members(server.clientFds) == {};
    threw := server.Worker(rounds);
  }
}
