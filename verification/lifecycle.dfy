/** The life of a connection over whole runs: the registry agrees at every point, nobody is served
    who has not authenticated, and what a connection may do wrong on hold is bounded. */
module Lifecycle {
  import opened Header
  import opened PollTables
  import opened Registry
  import opened RegistryAgreement

  // ------------------------------------------------------------------------------ what a step keeps

  lemma ConnKeeps(c: Config, s: State, fd: int, conn: Conn)
    requires Agreement(c, s) && fd in s.conns && ConnOk(c, fd, conn)
    ensures Agreement(c, s.(conns := s.conns[fd := conn]))
  {
    hide HoldOk, ClientsOk, AdminsOk, Members, ConnOk;
    assert s.conns[fd := conn].Keys == s.conns.Keys;
  }

  lemma NextIdKeeps(c: Config, s: State)
    requires Agreement(c, s)
    ensures Agreement(c, s.(nextId := s.nextId + 1))
  {
    hide HoldOk, ClientsOk, AdminsOk, Members, Partition, ConnsOk;
  }

  lemma AcceptKeeps(c: Config, s: State, fd: int)
    requires c.Sane() && Agreement(c, s) && Possible(c, s, Accept(fd))
    ensures Agreement(c, AcceptNew(c, s, fd))
  {
    hide Agreement, Hold;
    var t := s.(conns := s.conns[fd := Conn(MAX_AUTH_TRIES, 0)]);
    assert Without(t.conns, [fd]) == s.conns;
    assert Close(t, fd) == s;
    if c.authRequired {
      if FREE in s.hold.slots {
        HoldKeeps(c, t, fd);
      }
    } else {
      var u := t.(nextId := s.nextId + 1);
      NextIdKeeps(c, s);
      assert Close(u, fd) == s.(nextId := s.nextId + 1);
      FreshId(c, s);
      RegisterClientKeeps(c, u, s.nextId, Client(None, [fd], 0), fd);
    }
  }

  lemma FreshId(c: Config, s: State)
    requires Agreement(c, s)
    ensures s.nextId !in s.clients && s.nextId !in s.admins
  {
    hide HoldOk, ClientsOk, AdminsOk, Members, Partition, ConnsOk;
  }

  lemma AuthenticatedFresh(c: Config, s: State, fd: int) returns (t: State)
    requires c.Sane() && Agreement(c, s) && fd in s.holdMap
    ensures t == Authenticated(s, fd).(nextId := s.nextId + 1) && Loose(c, t, fd)
  {
    hide Agreement, Authenticated;
    HeldIsOpen(c, s, fd);
    AuthenticatedIsLoose(c, s, fd);
    var u := Authenticated(s, fd);
    assert u.nextId == s.nextId by {
      AuthenticatedFrame(s, fd);
    }
    t := u.(nextId := s.nextId + 1);
    NextIdKeeps(c, Close(u, fd));
    assert Close(t, fd) == Close(u, fd).(nextId := s.nextId + 1);
  }

  lemma AuthenticatedFrame(s: State, fd: int)
    requires fd in s.conns
    ensures var t := Authenticated(s, fd);
      && t.main == s.main && t.clientOf == s.clientOf && t.clients == s.clients
      && t.admin == s.admin && t.admins == s.admins && t.nextId == s.nextId
  {
  }

  lemma HeldIsOpen(c: Config, s: State, fd: int)
    requires Agreement(c, s) && fd in s.holdMap
    ensures fd in s.conns
  {
    hide HoldOk, ClientsOk, AdminsOk, Members, ConnsOk, IdsOk;
  }

  lemma ConnIsOk(c: Config, s: State, fd: int)
    requires Agreement(c, s) && fd in s.conns
    ensures ConnOk(c, fd, s.conns[fd])
  {
    hide HoldOk, ClientsOk, AdminsOk, Members, Partition, IdsOk;
  }

  lemma BadPacketKeeps(c: Config, s: State, fd: int)
    requires Agreement(c, s) && fd in s.conns
    requires fd in s.holdMap || s.conns[fd].badPackets + 1 < c.maxBadPackets
    ensures Agreement(c, BadPacket(c, s, fd))
  {
    hide Agreement, HoldDrop;
    ConnIsOk(c, s, fd);
    if s.conns[fd].badPackets + 1 < c.maxBadPackets {
      ConnKeeps(c, s, fd, s.conns[fd].(badPackets := s.conns[fd].badPackets + 1));
    } else {
      HoldDropKeeps(c, s, fd);
    }
  }

  lemma AuthFailedKeeps(c: Config, s: State, fd: int)
    requires Agreement(c, s) && fd in s.conns
    requires fd in s.holdMap || s.conns[fd].authTries > 1
    ensures Agreement(c, AuthFailed(s, fd))
  {
    hide Agreement, HoldDrop;
    ConnIsOk(c, s, fd);
    if s.conns[fd].authTries > 1 {
      ConnKeeps(c, s, fd, s.conns[fd].(authTries := s.conns[fd].authTries - 1));
    } else {
      HoldDropKeeps(c, s, fd);
    }
  }

  /** A packet of a connection on hold. */
  lemma HeldPacketKeeps(c: Config, s: State, fd: int, p: Packet, v: Verdict)
    requires c.Sane() && Agreement(c, s) && fd in s.holdMap && fd in s.conns
    requires FREE in s.main.slots && FreshSession(s, v.session)
    requires Decide(c, s, p, v).Join? && Decide(c, s, p, v).admin ==> FREE in s.admin.slots
    ensures Agreement(c, HandleOnHold(c, s, fd, p, v))
  {
    hide Agreement, Loose, Decide, Owner, Authenticated, RegisterClient, RegisterAdmin, JoinClient, JoinAdmin, HoldDrop,
         BadPacket, AuthFailed;
    ConnIsOk(c, s, fd);
    HoldDropKeeps(c, s, fd);
    AuthenticatedFrame(s, fd);
    match Decide(c, s, p, v)
    case Ignored =>
    case Bad =>
      BadPacketKeeps(c, s, fd);
    case Failed =>
      AuthFailedKeeps(c, s, fd);
    case Refused =>
    case NoSession =>
      DropThenId(c, s, fd);
    case New(admin) =>
      var t := AuthenticatedFresh(c, s, fd);
      FreshId(c, s);
      NewHasSession(c, s, p, v);
      var client := Newcomer(c, admin, v, fd);
      if admin {
        RegisterAdminKeeps(c, t, s.nextId, client, fd);
      } else {
        RegisterClientKeeps(c, t, s.nextId, client, fd);
      }
    case Join(admin, id) =>
      AuthenticatedIsLoose(c, s, fd);
      if admin && id in s.admins {
        JoinAdminKeeps(c, Authenticated(s, fd), id, fd);
      } else if !admin && id in s.clients {
        JoinClientKeeps(c, Authenticated(s, fd), id, fd);
      }
  }

  /** A client that is let in under a session has one. */
  lemma NewHasSession(c: Config, s: State, p: Packet, v: Verdict)
    ensures Decide(c, s, p, v).New? && c.useSessions ==> v.session.Some?
  {
    hide Owner;
  }

  lemma DropThenId(c: Config, s: State, fd: int)
    requires c.Sane() && Agreement(c, s) && fd in s.holdMap
    ensures Agreement(c, HoldDrop(s, fd).(nextId := s.nextId + 1))
  {
    hide Agreement;
    HoldDropKeeps(c, s, fd);
    NextIdKeeps(c, HoldDrop(s, fd));
  }

  /** A packet of any connection that changes at most its two counters. */
  lemma StayingPacketKeeps(c: Config, s: State, fd: int, p: Packet, v: Verdict)
    requires Agreement(c, s) && fd in s.conns && Stays(c, s, fd, p, v)
    ensures Agreement(c, HandleOnHold(c, s, fd, p, v))
  {
    hide Agreement, Decide, BadPacket, AuthFailed;
    match Decide(c, s, p, v)
    case Ignored =>
    case Bad => BadPacketKeeps(c, s, fd);
    case Failed => AuthFailedKeeps(c, s, fd);
    case Refused =>
    case NoSession =>
    case New(_) =>
    case Join(_, _) =>
  }

  lemma InMain(c: Config, s: State, fd: int)
    requires Agreement(c, s) && fd in s.main.slots && fd != FREE && fd != c.sock
    ensures fd in s.clientOf && s.clientOf[fd] in s.clients && fd in s.clients[s.clientOf[fd]].fds
  {
    hide HoldOk, AdminsOk, Members, ConnsOk, IdsOk, Partition;
    var i :| 0 <= i < |s.main.slots| && s.main.slots[i] == fd;
    assert s.main.slots[..1][0] == c.sock;
  }

  lemma InAdmin(c: Config, s: State, fd: int)
    requires Agreement(c, s) && fd in s.admin.slots && fd != FREE
    ensures fd in Members(s.admins)
    ensures AdminOf(s.admins, fd).Some?
  {
    hide HoldOk, ClientsOk, ConnsOk, IdsOk, Partition;
    var i :| 0 <= i < |s.admin.slots| && s.admin.slots[i] == fd;
  }

  lemma StepKeeps(c: Config, s: State, e: Event)
    requires c.Sane() && Agreement(c, s) && Possible(c, s, e) && Safe(c, s, e) && Picks(c, s, e)
    ensures Agreement(c, Step(c, s, e))
  {
    hide Agreement, HandleOnHold, Decide, Stays, HoldDrop, RemoveConnection, ClientDrop, RemoveAdminConnection, AdminDrop, AcceptNew, Removes, RemovesAdmin;
    match e
    case Accept(fd) =>
      AcceptKeeps(c, s, fd);
    case OnHold(fd, p, v) =>
      if fd in s.holdMap {
        HeldPacketKeeps(c, s, fd, p, v);
      } else {
        StayingPacketKeeps(c, s, fd, p, v);
      }
    case HoldFailed(fd) =>
      HeldInSlots(c, s, fd);
      HoldDropKeeps(c, s, fd);
    case CloseConnection(fd) =>
      InMain(c, s, fd);
      RemoveConnectionKeeps(c, s, s.clientOf[fd], fd);
    case Disconnect(fd) =>
      InMain(c, s, fd);
      ClientDropKeeps(c, s, s.clientOf[fd]);
    case AdminClose(fd) =>
      InAdmin(c, s, fd);
      RemoveAdminConnectionKeeps(c, s, AdminOf(s.admins, fd).value, fd);
    case AdminDisconnect(fd) =>
      InAdmin(c, s, fd);
      AdminDropKeeps(c, s, AdminOf(s.admins, fd).value);
  }

  lemma ValidPicks(c: Config, s: State, e: Event)
    requires c.Valid() && Agreement(c, s) && DistinctAdmins(s.admins)
    ensures Picks(c, s, e)
  {
    hide Removes, HoldOk, AdminsOk, Members, Lists, Groups, UniqueSessions, Keyed, Maps, ConnsOk, IdsOk, Partition;
    if (e.CloseConnection? || e.Disconnect?) && e.fd in s.clientOf && s.clientOf[e.fd] in s.clients {
      KeysTellApart(c, s.clients, s.clientOf[e.fd]);
    }
  }

  lemma HeldInSlots(c: Config, s: State, fd: int)
    requires Agreement(c, s)
    ensures fd in s.holdMap <==> fd in s.hold.slots && fd != FREE
  {
    hide HoldOk, ClientsOk, AdminsOk, Members, ConnsOk, IdsOk, Partition;
    InHold(s.hold, s.holdTree, s.holdMap, fd);
  }

  // -------------------------------------------------------------------- what an unsafe step breaks

  lemma NotOpen(c: Config, s: State, fd: int)
    requires Agreement(c, s) && fd !in s.conns
    ensures fd !in s.clientOf && fd !in Members(s.admins) && fd !in s.holdMap
  {
    hide HoldOk, ClientsOk, AdminsOk, Members, ConnsOk, IdsOk;
  }

  lemma OnePlace(c: Config, s: State, fd: int)
    requires Agreement(c, s)
    ensures fd in s.conns ==> fd in s.holdMap || fd in s.clientOf || fd in Members(s.admins)
    ensures !(fd in s.clientOf && fd in Members(s.admins))
    ensures !(fd in s.holdMap && fd in s.clientOf) && !(fd in s.holdMap && fd in Members(s.admins))
  {
    hide HoldOk, ClientsOk, AdminsOk, Members, ConnsOk, IdsOk;
  }

  lemma OneClient(c: Config, s: State, id: nat, i: nat, fd: int)
    requires Agreement(c, s) && id in s.clients && i < |s.clients[id].fds| && s.clients[id].fds[i] == fd
    ensures fd in s.clientOf && s.clientOf[fd] == id
    ensures forall j :: 0 <= j < |s.clients[id].fds| && s.clients[id].fds[j] == fd ==> j == i
  {
    hide HoldOk, AdminsOk, Members, ConnsOk, IdsOk, Partition, Lists;
    assert fd in s.clients[id].fds;
  }

  lemma OneAdmin(c: Config, s: State, id: nat, i: nat, fd: int)
    requires Agreement(c, s) && id in s.admins && i < |s.admins[id].fds| && s.admins[id].fds[i] == fd
    ensures fd in Members(s.admins) && fd in s.admin.slots
    ensures forall k, j :: k in s.admins && 0 <= j < |s.admins[k].fds| && s.admins[k].fds[j] == fd ==> k == id && j == i
  {
    hide HoldOk, ClientsOk, ConnsOk, IdsOk, Partition;
    assert fd in s.admins[id].fds;
    forall k, j | k in s.admins && 0 <= j < |s.admins[k].fds| && s.admins[k].fds[j] == fd
      ensures k == id && j == i
    {
      assert fd in s.admins[k].fds;
    }
  }

  /** A second registration of an open client or admin connection. */
  lemma ClientTwice(c: Config, s: State, r: State, id: nat, fd: int)
    requires Agreement(c, s) && fd in s.conns && fd !in s.holdMap
    requires r.admins == s.admins
    requires id in r.clients && r.clients.Keys == s.clients.Keys + {id}
    requires forall k :: k in s.clients && k != id ==> r.clients[k] == s.clients[k]
    requires r.clients[id].fds == (if id in s.clients then s.clients[id].fds else []) + [fd]
    ensures !Agreement(c, r)
  {
    hide Agreement, Members;
    OnePlace(c, s, fd);
    if Agreement(c, r) {
      OneClient(c, r, id, |r.clients[id].fds| - 1, fd);
      OnePlace(c, r, fd);
      var k, i := ServedBy(c, s, fd);
      assert r.clients[k].fds[i] == fd;
      OneClient(c, r, k, i, fd);
      assert false;
    }
  }

  lemma ServedBy(c: Config, s: State, fd: int) returns (k: nat, i: nat)
    requires Agreement(c, s) && fd in s.clientOf
    ensures k in s.clients && i < |s.clients[k].fds| && s.clients[k].fds[i] == fd
  {
    hide HoldOk, AdminsOk, Members, ConnsOk, IdsOk, Partition, Lists;
    k := s.clientOf[fd];
    i :| 0 <= i < |s.clients[k].fds| && s.clients[k].fds[i] == fd;
  }

  lemma AdminTwice(c: Config, s: State, r: State, id: nat, fd: int)
    requires Agreement(c, s) && fd in s.conns && fd !in s.holdMap
    requires r.clientOf == s.clientOf
    requires id in r.admins && r.admins.Keys == s.admins.Keys + {id}
    requires forall k :: k in s.admins && k != id ==> r.admins[k] == s.admins[k]
    requires r.admins[id].fds == (if id in s.admins then s.admins[id].fds else []) + [fd]
    ensures !Agreement(c, r)
  {
    hide Agreement, Members;
    OnePlace(c, s, fd);
    if Agreement(c, r) {
      OneAdmin(c, r, id, |r.admins[id].fds| - 1, fd);
      OnePlace(c, r, fd);
      var k, i := AdministeredBy(s, fd);
      OneAdmin(c, r, k, i, fd);
      assert false;
    }
  }

  lemma AdministeredBy(s: State, fd: int) returns (k: nat, i: nat)
    requires fd in Members(s.admins)
    ensures k in s.admins && i < |s.admins[k].fds| && s.admins[k].fds[i] == fd
  {
    k :| k in s.admins && fd in s.admins[k].fds;
    i :| 0 <= i < |s.admins[k].fds| && s.admins[k].fds[i] == fd;
  }

  /** A connection that is closed while it is still registered. */
  lemma ClosedInPlace(c: Config, s: State, r: State, fd: int)
    requires Agreement(c, s) && fd in s.conns && fd !in s.holdMap
    requires r.clientOf == s.clientOf && r.admins == s.admins && fd !in r.conns
    ensures !Agreement(c, r)
  {
    hide Agreement, Members;
    OnePlace(c, s, fd);
    if Agreement(c, r) {
      NotOpen(c, r, fd);
      assert false;
    }
  }

  lemma UnholdNothing(c: Config, s: State, fd: int)
    requires Agreement(c, s) && fd in s.conns && fd !in s.holdMap
    ensures Unhold(s, fd) == s
  {
    hide Agreement;
    HeldInSlots(c, s, fd);
    ConnIsOk(c, s, fd);
  }

  /** A client's connection that has been taken out of client_sock_fd_map. */
  lemma UnmappedInPlace(c: Config, s: State, r: State, fd: int)
    requires Agreement(c, s) && fd in s.clientOf
    requires r.clients == s.clients && fd !in r.clientOf
    ensures !Agreement(c, r)
  {
    hide Agreement;
    if Agreement(c, r) {
      var k, i := ServedBy(c, s, fd);
      OneClient(c, r, k, i, fd);
      assert false;
    }
  }

  lemma LateJoinBreaks(c: Config, s: State, fd: int, admin: bool, id: nat)
    requires Agreement(c, s) && fd in s.conns && fd !in s.holdMap
    requires if admin then id in s.admins else id in s.clients
    ensures admin ==> !Agreement(c, JoinAdmin(Authenticated(s, fd), id, fd))
    ensures !admin ==> !Agreement(c, JoinClient(Authenticated(s, fd), id, fd))
  {
    hide Agreement, Unhold, Add, Inserted;
    UnholdNothing(c, s, fd);
    if admin {
      AdminTwice(c, s, JoinAdmin(Authenticated(s, fd), id, fd), id, fd);
    } else {
      ClientTwice(c, s, JoinClient(Authenticated(s, fd), id, fd), id, fd);
    }
  }

  /** A new client whose only connection belongs to somebody already. */
  lemma LateClientBreaks(c: Config, s: State, t: State, client: Client, fd: int)
    requires Agreement(c, s) && fd in s.conns && fd !in s.holdMap
    requires t.clientOf == s.clientOf && t.clients == s.clients && t.admins == s.admins
    requires client.fds == [fd] && FreshSession(s, client.session) && (c.useSessions ==> client.session.Some?)
    ensures !Agreement(c, RegisterClient(c, t, s.nextId, client, fd))
  {
    hide Agreement, Add, Remove;
    FreshId(c, s);
    var r := RegisterClient(c, t, s.nextId, client, fd);
    if fd in s.clientOf {
      assert Equals(c, s.clients, s.nextId, client.session) == {};
      UnmappedInPlace(c, s, r, fd);
    } else {
      ClientTwice(c, s, r, s.nextId, fd);
    }
  }

  /** A new admin likewise. */
  lemma LateAdminBreaks(c: Config, s: State, t: State, client: Client, fd: int)
    requires Agreement(c, s) && fd in s.conns && fd !in s.holdMap
    requires t.clientOf == s.clientOf && t.admins == s.admins
    requires client.fds == [fd]
    ensures !Agreement(c, RegisterAdmin(t, s.nextId, client, fd))
  {
    hide Agreement, Add;
    FreshId(c, s);
    var r := RegisterAdmin(t, s.nextId, client, fd);
    if FREE in t.admin.slots {
      AdminTwice(c, s, r, s.nextId, fd);
    } else {
      ClosedInPlace(c, s, r, fd);
    }
  }

  /** A packet handled as an on hold one for a connection that has left the on hold table. */
  lemma LatePacketBreaks(c: Config, s: State, fd: int, p: Packet, v: Verdict)
    requires Agreement(c, s) && fd in s.conns && fd !in s.holdMap && !Stays(c, s, fd, p, v)
    requires FreshSession(s, v.session)
    ensures !Agreement(c, HandleOnHold(c, s, fd, p, v))
  {
    hide Agreement, Decide, Unhold, Members, Add, RegisterClient, RegisterAdmin, JoinClient, JoinAdmin, Authenticated;
    var r := HandleOnHold(c, s, fd, p, v);
    UnholdNothing(c, s, fd);
    match Decide(c, s, p, v)
    case Ignored =>
    case Bad => ClosedInPlace(c, s, r, fd);
    case Failed => ClosedInPlace(c, s, r, fd);
    case Refused => ClosedInPlace(c, s, r, fd);
    case NoSession => ClosedInPlace(c, s, r, fd);
    case New(admin) =>
      AuthenticatedFrame(s, fd);
      NewHasSession(c, s, p, v);
      var t := Authenticated(s, fd).(nextId := s.nextId + 1);
      var client := Newcomer(c, admin, v, fd);
      if admin {
        LateAdminBreaks(c, s, t, client, fd);
      } else {
        LateClientBreaks(c, s, t, client, fd);
      }
    case Join(admin, id) =>
      JoinIsKnown(c, s, p, v);
      LateJoinBreaks(c, s, fd, admin, id);
  }

  lemma JoinIsKnown(c: Config, s: State, p: Packet, v: Verdict)
    ensures var o := Decide(c, s, p, v);
      o.Join? ==> if o.admin then o.id in s.admins else o.id in s.clients
  {
  }

  /** A connection joins an admin whose table is full. */
  lemma FullTableBreaks(c: Config, s: State, fd: int, id: nat)
    requires Agreement(c, s) && fd in s.conns && fd in s.holdMap && id in s.admins && FREE !in s.admin.slots
    ensures !Agreement(c, JoinAdmin(Authenticated(s, fd), id, fd))
  {
    hide Agreement, Members;
    var r := JoinAdmin(Authenticated(s, fd), id, fd);
    AuthenticatedFrame(s, fd);
    assert r.admin == s.admin;
    ConnIsOk(c, s, fd);
    OnePlace(c, s, fd);
    if Agreement(c, r) {
      OneAdmin(c, r, id, |r.admins[id].fds| - 1, fd);
      InAdmin(c, s, fd);
      assert false;
    }
  }

  /** Whatever can happen keeps the registry in agreement exactly when the guard holds and, when the
      event ends a client or an admin, the tree or the list removes that one and no other. */
  lemma AgreementKeptIff(c: Config, s: State, e: Event)
    requires c.Sane() && Agreement(c, s) && Possible(c, s, e)
    ensures Agreement(c, Step(c, s, e)) <==> Safe(c, s, e) && Picks(c, s, e)
  {
    hide Agreement, HandleOnHold, Decide, Stays, HoldDrop, AcceptNew, RemoveConnection, RemoveAdminConnection,
         ClientDrop, AdminDrop, Removes, RemovesAdmin;
    if Safe(c, s, e) && Picks(c, s, e) {
      StepKeeps(c, s, e);
    } else if e.OnHold? {
      var OnHold(fd, p, v) := e;
      if fd !in s.holdMap && !Stays(c, s, fd, p, v) {
        LatePacketBreaks(c, s, fd, p, v);
      } else {
        JoinNeedsRoom(c, s, fd, p, v);
      }
    } else if e.CloseConnection? || e.Disconnect? {
      InMain(c, s, e.fd);
      if e.Disconnect? {
        ClientDropBreaks(c, s, s.clientOf[e.fd]);
      } else {
        RemoveConnectionBreaks(c, s, s.clientOf[e.fd], e.fd);
      }
    } else {
      InAdmin(c, s, e.fd);
      var id := AdminOf(s.admins, e.fd).value;
      if e.AdminDisconnect? {
        AdminDropBreaks(c, s, id);
      } else {
        RemoveAdminConnectionBreaks(c, s, id, e.fd);
      }
    }
  }

  lemma JoinNeedsRoom(c: Config, s: State, fd: int, p: Packet, v: Verdict)
    requires Agreement(c, s) && fd in s.conns && FREE !in s.admin.slots
    requires Decide(c, s, p, v).Join? && Decide(c, s, p, v).admin
    ensures !Agreement(c, HandleOnHold(c, s, fd, p, v))
  {
    hide Agreement, Decide, JoinAdmin, Authenticated;
    JoinIsKnown(c, s, p, v);
    if fd in s.holdMap {
      FullTableBreaks(c, s, fd, Decide(c, s, p, v).id);
    } else {
      LateJoinBreaks(c, s, fd, true, Decide(c, s, p, v).id);
    }
  }

  // ------------------------------------------------------------------------------------- whole runs

  lemma InitialAgrees(c: Config, s: State)
    requires c.Sane() && Initial(c, s)
    ensures Agreement(c, s) && DistinctAdmins(s.admins)
  {
    hide Lists;
    assert Members(s.admins) == {} == s.clientOf.Keys;
    assert s.conns.Keys == {};
  }

  lemma {:induction false} GuardedAgrees(c: Config, ss: seq<State>, es: seq<Event>, n: nat)
    requires c.Sane() && PossibleTrace(c, ss, es) && Agreement(c, ss[0]) && n <= |es|
    requires forall i :: 0 <= i < n ==> Safe(c, ss[i], es[i]) && Picks(c, ss[i], es[i])
    ensures Agreement(c, ss[n])
    decreases n
  {
    hide Agreement, Step, Possible, Safe, Picks;
    if n == 0 {
    } else {
      GuardedAgrees(c, ss, es, n - 1);
      assert ss[n] == Step(c, ss[n - 1], es[n - 1]);
      AgreementKeptIff(c, ss[n - 1], es[n - 1]);
    }
  }

  /** A run stays in agreement exactly as long as its events pass the guard. */
  lemma {:induction false} RunAgreesIff(c: Config, ss: seq<State>, es: seq<Event>)
    requires c.Sane() && PossibleTrace(c, ss, es) && Agreement(c, ss[0])
    ensures (forall i :: 0 <= i <= |es| ==> Agreement(c, ss[i]))
       <==> (forall i :: 0 <= i < |es| ==> Safe(c, ss[i], es[i]) && Picks(c, ss[i], es[i]))
  {
    hide Agreement, Step, Possible, Safe, Picks;
    if forall i :: 0 <= i <= |es| ==> Agreement(c, ss[i]) {
      forall i | 0 <= i < |es| ensures Safe(c, ss[i], es[i]) && Picks(c, ss[i], es[i]) {
        assert Agreement(c, ss[i]) && Agreement(c, ss[i + 1]);
        AgreementKeptIff(c, ss[i], es[i]);
      }
    }
    if forall i :: 0 <= i < |es| ==> Safe(c, ss[i], es[i]) && Picks(c, ss[i], es[i]) {
      forall i | 0 <= i <= |es| ensures Agreement(c, ss[i]) {
        GuardedAgrees(c, ss, es, i);
      }
    }
  }

  /** What can happen to the admins: their connections change, one leaves, one comes. */
  ghost predicate AdminsMove(admins: map<nat, Client>, moved: map<nat, Client>, nextId: nat, newcomer: nat) {
    forall id :: id in moved ==>
      if id in admins then moved[id].adminId == admins[id].adminId
      else id == nextId && moved[id].adminId == newcomer
  }

  /** The operations on hold do not touch the admins. */
  lemma HoldAdminsFrame(c: Config, s: State, fd: int)
    ensures HoldDrop(s, fd).admins == s.admins
    ensures fd in s.conns ==> BadPacket(c, s, fd).admins == AuthFailed(s, fd).admins == s.admins
  {
  }

  lemma RegisterAdminsFrame(c: Config, t: State, id: nat, client: Client, fd: int)
    ensures RegisterClient(c, t, id, client, fd).admins == t.admins
    ensures RegisterAdmin(t, id, client, fd).admins
         == if FREE in t.admin.slots then t.admins[id := client] else t.admins
  {
    hide Add, Remove, Equals, Without, Forget;
  }

  lemma PacketMovesAdmins(c: Config, s: State, fd: int, p: Packet, v: Verdict)
    requires fd in s.conns && s.nextId !in s.admins
    ensures AdminsMove(s.admins, HandleOnHold(c, s, fd, p, v).admins, s.nextId, v.adminId)
  {
    hide Decide, Owner, HoldDrop, BadPacket, AuthFailed, Authenticated, RegisterClient, RegisterAdmin, Add;
    HoldAdminsFrame(c, s, fd);
    AuthenticatedFrame(s, fd);
    match Decide(c, s, p, v)
    case Ignored =>
    case Bad =>
    case Failed =>
    case Refused =>
    case NoSession =>
    case New(admin) =>
      RegisterAdminsFrame(c, Authenticated(s, fd).(nextId := s.nextId + 1), s.nextId, Newcomer(c, admin, v, fd), fd);
    case Join(admin, id) =>
  }

  lemma EndingAdminsFrame(c: Config, s: State, id: nat, fd: int)
    ensures RemoveConnection(c, s, id, fd).admins == s.admins == ClientDrop(c, s, id).admins
  {
    hide Remove, RemoveAll, RemoveFirst, Equals, Without, Forget;
  }

  lemma AdminDropMoves(s: State, id: nat)
    ensures AdminsMove(s.admins, AdminDrop(s, id).admins, s.nextId, 0)
    ensures AdminDrop(s, id).admins.Keys <= s.admins.Keys
  {
    hide RemoveAll, Without;
  }

  lemma EndingMovesAdmins(s: State, id: nat, fd: int)
    ensures AdminsMove(s.admins, RemoveAdminConnection(s, id, fd).admins, s.nextId, 0)
    ensures RemoveAdminConnection(s, id, fd).admins.Keys <= s.admins.Keys
  {
    hide AdminDrop, Remove, RemoveFirst, Without;
    AdminDropMoves(s, id);
    if id in s.admins && |s.admins[id].fds| == 1 {
      AdminDropMoves(DropAdminConnection(s, id, s.admins[id].fds[0]), id);
    }
  }

  lemma StepMovesAdmins(c: Config, s: State, e: Event)
    requires Possible(c, s, e) && s.nextId !in s.admins
    ensures AdminsMove(s.admins, Step(c, s, e).admins, s.nextId, if e.OnHold? then e.verdict.adminId else 0)
    ensures !e.OnHold? ==> Step(c, s, e).admins.Keys <= s.admins.Keys
  {
    hide HandleOnHold, HoldDrop, RegisterClient, RemoveConnection, ClientDrop, RemoveAdminConnection, AdminDrop, Add;
    match e
    case Accept(fd) =>
      RegisterAdminsFrame(c, s.(conns := s.conns[fd := Conn(MAX_AUTH_TRIES, 0)], nextId := s.nextId + 1), s.nextId,
                          Client(None, [fd], 0), fd);
    case OnHold(fd, p, v) => PacketMovesAdmins(c, s, fd, p, v);
    case HoldFailed(fd) => HoldAdminsFrame(c, s, fd);
    case CloseConnection(fd) =>
      if fd in s.clientOf {
        EndingAdminsFrame(c, s, s.clientOf[fd], fd);
      }
    case Disconnect(fd) =>
      if fd in s.clientOf {
        EndingAdminsFrame(c, s, s.clientOf[fd], fd);
      }
    case AdminClose(fd) =>
      if AdminOf(s.admins, fd).Some? {
        EndingMovesAdmins(s, AdminOf(s.admins, fd).value, fd);
      }
    case AdminDisconnect(fd) =>
      if AdminOf(s.admins, fd).Some? {
        AdminDropMoves(s, AdminOf(s.admins, fd).value);
      }
  }

  lemma StepKeepsDistinct(c: Config, s: State, e: Event)
    requires Agreement(c, s) && Possible(c, s, e) && FreshAdmin(s, e) && DistinctAdmins(s.admins)
    ensures DistinctAdmins(Step(c, s, e).admins)
  {
    hide Agreement, Step, Possible;
    FreshId(c, s);
    StepMovesAdmins(c, s, e);
  }

  /** The registry is in agreement at every point of every run. */
  lemma {:induction false} RunKeeps(c: Config, ss: seq<State>, es: seq<Event>, i: nat)
    requires c.Valid() && Trace(c, ss, es) && Initial(c, ss[0]) && i <= |es|
    ensures Agreement(c, ss[i]) && DistinctAdmins(ss[i].admins)
    decreases i
  {
    hide Agreement, Step, Possible, Safe, FreshAdmin, Picks, DistinctAdmins, Initial;
    if i == 0 {
      InitialAgrees(c, ss[0]);
    } else {
      RunKeeps(c, ss, es, i - 1);
      assert Next(c, ss[i - 1], es[i - 1], ss[i]);
      ValidPicks(c, ss[i - 1], es[i - 1]);
      StepKeeps(c, ss[i - 1], es[i - 1]);
      StepKeepsDistinct(c, ss[i - 1], es[i - 1]);
    }
  }

  /** The descriptors a poll array watches from entry `low` on. */
  ghost function Watched(slots: seq<int>, low: nat): set<int> {
    set i | low <= i < |slots| && slots[i] != FREE :: slots[i]
  }

  lemma ListsWatched(t: Table, head: seq<int>, fds: set<int>)
    requires Lists(t, head, fds)
    ensures Watched(t.slots, |head|) == fds
    ensures forall i, j :: 0 <= i < j < |t.slots| && t.slots[i] != FREE ==> t.slots[i] != t.slots[j]
    ensures t.nfds == |Watched(t.slots, |head|)| + |head| && t.connections == |Watched(t.slots, |head|)|
  {
    forall fd | fd in fds ensures fd in Watched(t.slots, |head|) {
      HeadFirst(t, head, fd);
      var i :| 0 <= i < |t.slots| && t.slots[i] == fd;
      assert |head| <= i < |t.slots| && t.slots[i] != FREE;
    }
  }

  /** In every reachable state the main poll array, client_sock_fd_map, the clients' connections and
      the counters say the same, and entry 0 is the listening socket's. */
  lemma {:induction false} ClientRegistryAgrees(c: Config, ss: seq<State>, es: seq<Event>, i: nat)
    requires c.Valid() && Trace(c, ss, es) && Initial(c, ss[0]) && i <= |es|
    ensures var s := ss[i];
      && |s.main.slots| > 0 && s.main.slots[0] == c.sock
      && (forall i, j :: 0 <= i < j < |s.main.slots| && s.main.slots[i] != FREE ==> s.main.slots[i] != s.main.slots[j])
      && Watched(s.main.slots, 1) == s.clientOf.Keys == Members(s.clients)
      && (forall fd :: fd in s.clientOf ==> s.clientOf[fd] in s.clients && fd in s.clients[s.clientOf[fd]].fds)
      && (forall id, fd :: id in s.clients && fd in s.clients[id].fds ==> fd in s.clientOf && s.clientOf[fd] == id)
      && (forall id :: id in s.clients ==> s.clients[id].fds != [] && NoDuplicates(s.clients[id].fds))
      && s.main.nfds == |Watched(s.main.slots, 1)| + 1
      && s.main.connections == |Watched(s.main.slots, 1)|
      && s.connectedClients == |s.clients|
  {
    hide Next, HoldOk, AdminsOk, Members, ConnsOk, IdsOk, Partition, Lists, Initial;
    RunKeeps(c, ss, es, i);
    var s := ss[i];
    ListsWatched(s.main, [c.sock], s.clientOf.Keys);
    MembersAreMapped(s.clientOf, s.clients);
    MainHead(s.main, c.sock, s.clientOf.Keys);
  }

  lemma MainHead(t: Table, sock: int, fds: set<int>)
    requires Lists(t, [sock], fds)
    ensures |t.slots| > 0 && t.slots[0] == sock
  {
    assert t.slots[..1][0] == sock;
  }

  /** And so do the admin poll array, the admins' connections and the counters. */
  lemma {:induction false} AdminRegistryAgrees(c: Config, ss: seq<State>, es: seq<Event>, i: nat)
    requires c.Valid() && Trace(c, ss, es) && Initial(c, ss[0]) && i <= |es|
    ensures var s := ss[i];
      && Watched(s.admin.slots, 0) == Members(s.admins)
      && (forall i, j :: 0 <= i < j < |s.admin.slots| && s.admin.slots[i] != FREE ==> s.admin.slots[i] != s.admin.slots[j])
      && (forall a, b, fd :: a in s.admins && b in s.admins && fd in s.admins[a].fds && fd in s.admins[b].fds ==> a == b)
      && (forall id :: id in s.admins ==> s.admins[id].fds != [] && NoDuplicates(s.admins[id].fds))
      && s.admin.nfds == s.admin.connections == |Watched(s.admin.slots, 0)|
      && s.connectedAdmins == |s.admins|
  {
    hide Next, HoldOk, ClientsOk, Members, ConnsOk, IdsOk, Partition, Lists, Initial;
    RunKeeps(c, ss, es, i);
    var s := ss[i];
    ListsWatched(s.admin, [], Members(s.admins));
  }

  /** In every reachable state a descriptor that is not closed is watched by exactly one poll array,
      and a closed one by none; the on hold table, tree and map are the same. */
  lemma {:induction false} InOnePlace(c: Config, ss: seq<State>, es: seq<Event>, i: nat, fd: int)
    requires c.Valid() && Trace(c, ss, es) && Initial(c, ss[0]) && i <= |es|
    ensures var s := ss[i];
      && Watched(s.hold.slots, 0) == s.holdTree == s.holdMap
      && s.hold.nfds == s.hold.connections == |s.holdMap|
      && (fd !in s.conns ==>
            fd !in Watched(s.hold.slots, 0) && fd !in Watched(s.main.slots, 1) && fd !in Watched(s.admin.slots, 0))
      && (fd in s.conns ==>
            || (fd in Watched(s.hold.slots, 0) && fd !in Watched(s.main.slots, 1) && fd !in Watched(s.admin.slots, 0))
            || (fd !in Watched(s.hold.slots, 0) && fd in Watched(s.main.slots, 1) && fd !in Watched(s.admin.slots, 0))
            || (fd !in Watched(s.hold.slots, 0) && fd !in Watched(s.main.slots, 1) && fd in Watched(s.admin.slots, 0)))
  {
    hide Agreement, Next, Members, Initial, Watched;
    RunKeeps(c, ss, es, i);
    var s := ss[i];
    AllWatched(c, s);
    OnePlace(c, s, fd);
    NotOpenAnywhere(c, s, fd);
  }

  lemma NotOpenAnywhere(c: Config, s: State, fd: int)
    requires Agreement(c, s)
    ensures fd !in s.conns ==> fd !in s.clientOf && fd !in Members(s.admins) && fd !in s.holdMap
  {
    hide Agreement, Members;
    if fd !in s.conns {
      NotOpen(c, s, fd);
    }
  }

  lemma AllWatched(c: Config, s: State)
    requires Agreement(c, s)
    ensures Watched(s.hold.slots, 0) == s.holdTree == s.holdMap
    ensures s.hold.nfds == s.hold.connections == |s.holdMap|
    ensures Watched(s.main.slots, 1) == s.clientOf.Keys
    ensures Watched(s.admin.slots, 0) == Members(s.admins)
  {
    hide Members, ConnsOk, IdsOk, Lists, Watched, Maps, Groups, UniqueSessions, Partition;
    ListsWatched(s.hold, [], s.holdMap);
    ListsWatched(s.main, [c.sock], s.clientOf.Keys);
    ListsWatched(s.admin, [], Members(s.admins));
  }

  // ------------------------------------------------------------------------ only the authenticated

  /** In the main table or the admin table. */
  ghost predicate Served(s: State, fd: int) {
    fd in s.conns && fd !in s.holdMap
  }

  /** The token of a registered client or admin, or credentials the application's method accepts. */
  ghost predicate Accepted(c: Config, registered: map<nat, Client>, data: seq<byte>, v: Verdict) {
    if c.useSessions && |data| == TOKEN_SIZE then
      exists id :: id in registered && registered[id].session == Some(Token(data))
    else
      v.accepted && (c.useSessions ==> v.session.Some?)
  }

  ghost predicate Grants(c: Config, s: State, e: Event, fd: int) {
    && e.OnHold? && e.fd == fd && fd in s.holdMap && e.packet.AuthPacket? && e.packet.data != []
    && match e.packet.request
       case ClientAuth => c.authenticate && Accepted(c, s.clients, e.packet.data, e.verdict)
       case AdminAuth => c.admin && c.adminAuthenticate && Accepted(c, s.admins, e.packet.data, e.verdict)
       case UnknownRequest => false
  }

  lemma GrantsIff(c: Config, s: State, fd: int, p: Packet, v: Verdict)
    requires fd in s.holdMap
    ensures Grants(c, s, OnHold(fd, p, v), fd) <==> Decide(c, s, p, v).New? || Decide(c, s, p, v).Join?
  {
  }

  ghost predicate SameFor(s: State, r: State, x: int) {
    && (x in r.conns <==> x in s.conns) && (x in r.holdMap <==> x in s.holdMap)
    && (x in s.conns ==> r.conns[x] == s.conns[x])
  }

  /** Dropping touches one connection, which is closed. */
  lemma DropFrame(s: State, fd: int, x: int)
    ensures x != fd ==> SameFor(s, HoldDrop(s, fd), x)
    ensures fd !in HoldDrop(s, fd).conns
  {
  }

  lemma BadFrame(c: Config, s: State, fd: int, x: int)
    requires fd in s.conns
    ensures x != fd ==> SameFor(s, BadPacket(c, s, fd), x)
    ensures fd in s.holdMap ==> !Served(BadPacket(c, s, fd), fd)
  {
    hide HoldDrop;
    DropFrame(s, fd, x);
  }

  lemma FailedFrame(s: State, fd: int, x: int)
    requires fd in s.conns
    ensures x != fd ==> SameFor(s, AuthFailed(s, fd), x)
    ensures fd in s.holdMap ==> !Served(AuthFailed(s, fd), fd)
  {
    hide HoldDrop;
    DropFrame(s, fd, x);
  }

  lemma AuthenticatedOnly(s: State, fd: int, x: int)
    requires fd in s.conns
    ensures x != fd ==> SameFor(s, Authenticated(s, fd), x)
    ensures fd in s.hold.slots ==> Served(Authenticated(s, fd), fd)
  {
  }

  /** Registering does not change the other connections, nor bring one back on hold. */
  lemma RegisterFrame(c: Config, t: State, id: nat, client: Client, fd: int, x: int)
    ensures var r := RegisterClient(c, t, id, client, fd);
      && (x != fd ==> SameFor(t, r, x)) && r.holdMap == t.holdMap
      && (fd !in t.clientOf ==> r.conns == t.conns)
    ensures var r := RegisterAdmin(t, id, client, fd);
      && (x != fd ==> SameFor(t, r, x)) && r.holdMap == t.holdMap
      && (FREE in t.admin.slots ==> r.conns == t.conns)
      && (FREE !in t.admin.slots ==> fd !in r.conns)
  {
    hide Add, Remove, Equals, Forget;
  }

  lemma JoinFrame(t: State, id: nat, fd: int)
    ensures id in t.clients ==> JoinClient(t, id, fd).conns == t.conns && JoinClient(t, id, fd).holdMap == t.holdMap
    ensures id in t.admins ==> JoinAdmin(t, id, fd).conns == t.conns && JoinAdmin(t, id, fd).holdMap == t.holdMap
  {
  }

  /** What happens to other connections. */
  lemma OthersStay(c: Config, s: State, fd: int, p: Packet, v: Verdict, x: int)
    requires fd in s.conns && x != fd
    ensures SameFor(s, HandleOnHold(c, s, fd, p, v), x)
  {
    hide SameFor, Decide, Owner, HoldDrop, BadPacket, AuthFailed, Authenticated, RegisterClient, RegisterAdmin,
         JoinClient, JoinAdmin;
    DropFrame(s, fd, x);
    BadFrame(c, s, fd, x);
    FailedFrame(s, fd, x);
    AuthenticatedOnly(s, fd, x);
    var r, t := HandleOnHold(c, s, fd, p, v), Authenticated(s, fd);
    match Decide(c, s, p, v)
    case Ignored =>
      SameThrough(s, s, r, x);
    case Bad =>
    case Failed =>
    case Refused =>
    case NoSession =>
      SameThrough(s, HoldDrop(s, fd), r, x);
    case New(admin) =>
      var u := t.(nextId := s.nextId + 1);
      RegisterFrame(c, u, s.nextId, Newcomer(c, admin, v, fd), fd, x);
      SameThrough(s, t, u, x);
      SameTransitive(s, u, r, x);
    case Join(admin, id) =>
      AuthenticatedFrame(s, fd);
      JoinIsKnown(c, s, p, v);
      JoinFrame(t, id, fd);
      SameThrough(s, t, r, x);
  }

  lemma SameThrough(s: State, t: State, r: State, x: int)
    requires s == t || SameFor(s, t, x)
    requires r.conns == t.conns && r.holdMap == t.holdMap
    ensures SameFor(s, r, x)
  {
  }

  lemma SameTransitive(s: State, t: State, r: State, x: int)
    requires SameFor(s, t, x) && SameFor(t, r, x)
    ensures SameFor(s, r, x)
  {
  }

  /** Which outcomes move a connection from the hold to a table. */
  lemma OutcomeServes(c: Config, s: State, fd: int, p: Packet, v: Verdict)
    requires Agreement(c, s) && fd in s.holdMap && fd in s.conns
    ensures var o := Decide(c, s, p, v);
      Served(HandleOnHold(c, s, fd, p, v), fd) <==> o.Join? || (o.New? && (o.admin ==> FREE in s.admin.slots))
  {
    hide Agreement, Decide, Owner, Members, HoldDrop, BadPacket, AuthFailed, Authenticated, RegisterClient, RegisterAdmin, JoinClient, JoinAdmin;
    OnePlace(c, s, fd);
    HeldInSlots(c, s, fd);
    DropFrame(s, fd, fd);
    BadFrame(c, s, fd, fd);
    FailedFrame(s, fd, fd);
    AuthenticatedOnly(s, fd, fd);
    AuthenticatedFrame(s, fd);
    var t := Authenticated(s, fd);
    match Decide(c, s, p, v)
    case Ignored =>
    case Bad =>
    case Failed =>
    case Refused =>
    case NoSession =>
    case New(admin) =>
      RegisterFrame(c, t.(nextId := s.nextId + 1), s.nextId, Newcomer(c, admin, v, fd), fd, fd);
    case Join(admin, id) =>
      JoinIsKnown(c, s, p, v);
      JoinFrame(t, id, fd);
  }

  /** Nothing but closing happens to connections. */
  ghost predicate Closes(s: State, r: State) {
    r.holdMap == s.holdMap && forall x :: x in r.conns ==> x in s.conns && r.conns[x] == s.conns[x]
  }

  lemma RemoveConnectionCloses(c: Config, s: State, id: nat, fd: int)
    ensures Closes(s, RemoveConnection(c, s, id, fd))
    ensures Closes(s, ClientDrop(c, s, id))
  {
    hide Remove, RemoveAll, RemoveFirst, RemoveClient;
    if id in s.clients {
      var Client(session, fds, _) := s.clients[id];
      RemoveClientFrame(c, s, id, session);
      if |fds| > 0 {
        DropConnectionCloses(s, id, fds[0]);
        RemoveClientFrame(c, DropConnection(s, id, fds[0]), id, session);
      }
      DropConnectionCloses(s, id, fd);
      var t := s.(main := RemoveAll(s.main, 1, fds), clientOf := Without(s.clientOf, fds), conns := Without(s.conns, fds));
      RemoveClientFrame(c, t, id, session);
    }
  }

  lemma RemoveClientFrame(c: Config, s: State, id: nat, session: Option<Session>)
    ensures RemoveClient(c, s, id, session).conns == s.conns && RemoveClient(c, s, id, session).holdMap == s.holdMap
  {
  }

  lemma DropConnectionCloses(s: State, id: nat, fd: int)
    requires id in s.clients
    ensures Closes(s, DropConnection(s, id, fd))
  {
    hide Remove, RemoveFirst;
  }

  lemma RemoveAdminConnectionCloses(s: State, id: nat, fd: int)
    ensures Closes(s, RemoveAdminConnection(s, id, fd))
    ensures Closes(s, AdminDrop(s, id))
  {
    hide Remove, RemoveAll, RemoveFirst, Forget;
  }

  /** The events that end connections. */
  lemma EndingCloses(c: Config, s: State, e: Event)
    requires e.CloseConnection? || e.Disconnect? || e.AdminClose? || e.AdminDisconnect?
    ensures Closes(s, Step(c, s, e))
  {
    hide RemoveConnection, ClientDrop, RemoveAdminConnection, AdminDrop;
    match e
    case CloseConnection(fd) =>
      if fd in s.clientOf {
        RemoveConnectionCloses(c, s, s.clientOf[fd], fd);
      }
    case Disconnect(fd) =>
      if fd in s.clientOf {
        RemoveConnectionCloses(c, s, s.clientOf[fd], fd);
      }
    case AdminClose(fd) =>
      if AdminOf(s.admins, fd).Some? {
        RemoveAdminConnectionCloses(s, AdminOf(s.admins, fd).value, fd);
      }
    case AdminDisconnect(fd) =>
      if AdminOf(s.admins, fd).Some? {
        RemoveAdminConnectionCloses(s, AdminOf(s.admins, fd).value, fd);
      }
  }

  /** Accepting touches one connection, which is on hold afterwards or closed. */
  lemma AcceptFrame(c: Config, s: State, fd: int, x: int)
    requires c.authRequired
    ensures x != fd ==> SameFor(s, AcceptNew(c, s, fd), x)
    ensures !Served(AcceptNew(c, s, fd), fd)
    ensures fd in AcceptNew(c, s, fd).conns ==> AcceptNew(c, s, fd).conns[fd] == Conn(MAX_AUTH_TRIES, 0)
  {
    hide Add;
  }

  /** No other step makes a new descriptor served, when authentication is required. */
  lemma StepServes(c: Config, s: State, e: Event, fd: int)
    requires c.authRequired && Agreement(c, s) && Possible(c, s, e) && Safe(c, s, e)
    requires Served(Step(c, s, e), fd)
    ensures Served(s, fd) || Grants(c, s, e, fd)
  {
    hide Agreement, Decide, Grants, AcceptNew, HandleOnHold, HoldDrop, RemoveConnection, ClientDrop,
         RemoveAdminConnection, AdminDrop;
    if e.Accept? {
      AcceptFrame(c, s, e.fd, fd);
    } else if e.HoldFailed? {
      DropFrame(s, e.fd, fd);
    } else if e.OnHold? {
      var OnHold(x, p, v) := e;
      if x != fd {
        OthersStay(c, s, x, p, v, fd);
      } else if fd in s.holdMap {
        GrantsIff(c, s, fd, p, v);
        OutcomeServes(c, s, fd, p, v);
      }
    } else {
      EndingCloses(c, s, e);
    }
  }

  /** A connection on hold is served after a step exactly when the step grants it, and there is room
      for a new admin. */
  lemma ServedIffGranted(c: Config, s: State, fd: int, p: Packet, v: Verdict)
    requires Agreement(c, s) && fd in s.holdMap
    requires Possible(c, s, OnHold(fd, p, v)) && Safe(c, s, OnHold(fd, p, v))
    ensures Served(Step(c, s, OnHold(fd, p, v)), fd)
       <==> Grants(c, s, OnHold(fd, p, v), fd) && (p.request.AdminAuth? ==> FREE in s.admin.slots)
  {
    hide Agreement, HandleOnHold, Accepted, Owner;
    GrantsIff(c, s, fd, p, v);
    OutcomeServes(c, s, fd, p, v);
  }

  /** Whoever is served at a point of a run was granted it while on hold, by an auth packet with
      accepted credentials or a registered session's token, and has been served ever since. */
  lemma {:induction false} ServedWasGranted(c: Config, ss: seq<State>, es: seq<Event>, i: nat, fd: int) returns (k: nat)
    requires c.Valid() && c.authRequired && Trace(c, ss, es) && Initial(c, ss[0])
    requires i <= |es| && Served(ss[i], fd)
    ensures k < i
    ensures Grants(c, ss[k], es[k], fd)
    ensures forall j :: k < j <= i ==> Served(ss[j], fd)
    decreases i
  {
    hide Agreement, Step, Grants, Served, Possible, Safe, Initial;
    if i == 0 {
      NobodyServed(c, ss[0], fd);
      assert false;
    } else {
      RunKeeps(c, ss, es, i - 1);
      assert Next(c, ss[i - 1], es[i - 1], ss[i]);
      StepServes(c, ss[i - 1], es[i - 1], fd);
      if Served(ss[i - 1], fd) {
        k := ServedWasGranted(c, ss, es, i - 1, fd);
      } else {
        k := i - 1;
      }
    }
  }

  lemma NobodyServed(c: Config, s: State, fd: int)
    requires Initial(c, s)
    ensures !Served(s, fd)
  {
  }

  // -------------------------------------------------------------------------- bounded misbehaviour

  /** What a connection may still do wrong. */
  ghost function Budget(c: Config, s: State, fd: int): int
    requires fd in s.conns
  {
    s.conns[fd].authTries + (c.maxBadPackets - s.conns[fd].badPackets)
  }

  lemma BudgetIsPositive(c: Config, s: State, fd: int)
    requires Agreement(c, s) && fd in s.holdMap
    ensures fd in s.conns
    ensures s.conns[fd].authTries >= 1 && s.conns[fd].badPackets < c.maxBadPackets
    ensures Budget(c, s, fd) >= 2
  {
    hide Agreement;
    HeldIsOpen(c, s, fd);
    ConnIsOk(c, s, fd);
  }

  /** A packet other than a test packet costs a connection that stays on hold some of its budget; no
      other step does. */
  lemma StepCosts(c: Config, s: State, e: Event, fd: int)
    requires c.Sane() && Agreement(c, s) && Possible(c, s, e) && Safe(c, s, e) && Picks(c, s, e)
    requires fd in s.holdMap && fd in Step(c, s, e).holdMap
    ensures fd in s.conns && fd in Step(c, s, e).conns
    ensures Budget(c, Step(c, s, e), fd)
         == Budget(c, s, fd) - if e.OnHold? && e.fd == fd && e.packet != TestPacket then 1 else 0
  {
    hide Agreement, Decide, Picks, AcceptNew, HandleOnHold, HoldDrop, RemoveConnection, ClientDrop, RemoveAdminConnection, AdminDrop;
    StepKeeps(c, s, e);
    HeldIsOpen(c, s, fd);
    HeldIsOpen(c, Step(c, s, e), fd);
    if e.Accept? {
      AcceptOther(c, s, e.fd, fd);
    } else if e.HoldFailed? {
      DropFrame(s, e.fd, fd);
    } else if e.OnHold? {
      var OnHold(x, p, v) := e;
      if x != fd {
        OthersStay(c, s, x, p, v, fd);
      } else {
        HeldPacket(c, s, fd, p, v);
      }
    } else {
      EndingCloses(c, s, e);
    }
  }

  /** Accepting leaves the other connections alone. */
  lemma AcceptOther(c: Config, s: State, fd: int, x: int)
    requires x != fd
    ensures SameFor(s, AcceptNew(c, s, fd), x)
  {
    hide Add, Remove, Equals, Forget;
  }

  lemma HeldPacket(c: Config, s: State, fd: int, p: Packet, v: Verdict)
    requires Agreement(c, s) && fd in s.holdMap && fd in s.conns
    requires fd in HandleOnHold(c, s, fd, p, v).holdMap && fd in HandleOnHold(c, s, fd, p, v).conns
    ensures Budget(c, HandleOnHold(c, s, fd, p, v), fd) == Budget(c, s, fd) - if p != TestPacket then 1 else 0
  {
    hide Agreement, Decide, Owner, HoldDrop, Authenticated, RegisterClient, RegisterAdmin, JoinClient, JoinAdmin;
    HeldInSlots(c, s, fd);
    JoinIsKnown(c, s, p, v);
    OnlyTestsAreIgnored(c, s, p, v);
    DropFrame(s, fd, fd);
    AuthenticatedOnly(s, fd, fd);
    AuthenticatedFrame(s, fd);
    match Decide(c, s, p, v)
    case Ignored =>
    case Bad =>
    case Failed =>
    case Refused =>
    case NoSession =>
    case New(admin) =>
      RegisterFrame(c, Authenticated(s, fd).(nextId := s.nextId + 1), s.nextId,
                    Newcomer(c, admin, v, fd), fd, fd);
    case Join(admin, id) =>
      JoinFrame(Authenticated(s, fd), id, fd);
  }

  lemma OnlyTestsAreIgnored(c: Config, s: State, p: Packet, v: Verdict)
    ensures Decide(c, s, p, v) == Ignored <==> p == TestPacket
  {
    hide Owner;
  }

  /** The packets for fd that are not test packets. */
  function Strikes(es: seq<Event>, fd: int): (n: nat)
    decreases |es|
  {
    if es == [] then 0
    else
      var e := es[|es| - 1];
      Strikes(es[..|es| - 1], fd) + if e.OnHold? && e.fd == fd && e.packet != TestPacket then 1 else 0
  }

  ghost predicate HeldThroughout(ss: seq<State>, fd: int, m: nat, n: nat)
    requires n < |ss|
  {
    forall i :: m <= i <= n ==> fd in ss[i].holdMap
  }

  /** The packets that leave a connection on hold are paid for, over every stretch of every run that it
      stays there. */
  lemma {:induction false} StrikesAreBounded(
      c: Config, ss: seq<State>, es: seq<Event>, fd: int, m: nat, n: nat)
    requires c.Valid() && Trace(c, ss, es) && Initial(c, ss[0])
    requires m <= n <= |es| && HeldThroughout(ss, fd, m, n)
    ensures fd in ss[m].conns && fd in ss[n].conns
    ensures Strikes(es[m..n], fd) + Budget(c, ss[n], fd) == Budget(c, ss[m], fd)
    ensures Strikes(es[m..n], fd) <= Budget(c, ss[m], fd) - 2
    decreases n
  {
    hide Agreement, Step, Possible, Safe, Budget, Initial;
    RunKeeps(c, ss, es, m);
    RunKeeps(c, ss, es, n);
    BudgetIsPositive(c, ss[m], fd);
    BudgetIsPositive(c, ss[n], fd);
    if m >= n {
    } else {
      StrikesAreBounded(c, ss, es, fd, m, n - 1);
      RunKeeps(c, ss, es, n - 1);
      assert Next(c, ss[n - 1], es[n - 1], ss[n]);
      ValidPicks(c, ss[n - 1], es[n - 1]);
      StepCosts(c, ss[n - 1], es[n - 1], fd);
      assert es[m..n][..n - 1 - m] == es[m..n - 1];
    }
  }

  /** After it has been accepted, a connection stays on hold for at most maxBadPackets packets that are
      not test packets. */
  lemma {:induction false} OnHoldMisbehaviourIsBounded(
      c: Config, ss: seq<State>, es: seq<Event>, fd: int, m: nat, n: nat)
    requires c.Valid() && c.authRequired && Trace(c, ss, es) && Initial(c, ss[0])
    requires m < n <= |es| && es[m] == Accept(fd) && HeldThroughout(ss, fd, m + 1, n)
    ensures Strikes(es[m + 1..n], fd) <= c.maxBadPackets
  {
    hide Agreement, AcceptNew, Strikes, Possible, Safe, Initial;
    StrikesAreBounded(c, ss, es, fd, m + 1, n);
    assert Next(c, ss[m], es[m], ss[m + 1]);
    AcceptFrame(c, ss[m], fd, fd);
  }
}
