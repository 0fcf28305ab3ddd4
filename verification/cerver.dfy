/** The cerver as an object: the operations of the registry on its arrays, maps and lists, in the
    order in which they are done. */
module Cervers {
  import opened Header
  import opened PollTables
  import opened Registry
  import opened Lifecycle

  class Cerver {
    const c: Config
    const hold: PollTable
    const main: PollTable
    const admin: PollTable
    var holdTree: set<int>
    var holdMap: set<int>
    var clientOf: map<int, nat>
    var clients: map<nat, Client>
    var connectedClients: int
    var admins: map<nat, Client>
    var connectedAdmins: int
    var nextId: nat
    var conns: map<int, Conn>

    ghost predicate Distinct() {
      && hold.low == admin.low == 0 && main.low == 1
      && hold != main && hold != admin && main != admin
      && hold.fds != main.fds && hold.fds != admin.fds && main.fds != admin.fds
    }

    ghost function View(): State
      reads this, hold, hold.fds, main, main.fds, admin, admin.fds
    {
      State(hold.View(), holdTree, holdMap, main.View(), clientOf, clients, connectedClients,
            admin.View(), admins, connectedAdmins, nextId, conns)
    }

    /** cerver_start_tcp (): entry 0 of the main array is the listening socket's. */
    constructor (c: Config, holdSize: nat, mainSize: nat, adminSize: nat)
      requires c.Valid() && mainSize > 0
      ensures this.c == c && Distinct() && Initial(c, View())
      ensures fresh(hold) && fresh(hold.fds) && fresh(main) && fresh(main.fds) && fresh(admin) && fresh(admin.fds)
    {
      this.c := c;
      hold := new PollTable([], holdSize);
      main := new PollTable([c.sock], mainSize);
      admin := new PollTable([], adminSize);
      holdTree, holdMap, clientOf, clients, connectedClients := {}, {}, map[], map[], 0;
      admins, connectedAdmins, nextId, conns := map[], 0, 0, map[];
    }

    /** connection_end (). */
    method End(fd: int)
      modifies this`conns
      ensures conns == Without(old(conns), [fd])
    {
      conns := conns - {fd};
    }

    /** dlist_delete () of a list of connections. */
    method EndAll(fds: seq<int>)
      modifies this`conns
      ensures conns == Without(old(conns), fds)
    {
      for i := 0 to |fds|
        invariant conns == Without(old(conns), fds[..i])
      {
        End(fds[i]);
      }
      assert fds[..|fds|] == fds;
    }

    /** client_connection_drop (): takes the connection off the list and ends it. */
    method ClientConnectionDrop(client: Client, fd: int) returns (r: Client)
      modifies this`conns
      ensures r == client.(fds := RemoveFirst(client.fds, fd))
      ensures conns == Without(old(conns), [fd])
    {
      var fds := ListRemove(client.fds, fd);
      End(fd);
      return client.(fds := fds);
    }

    /** on_hold_connection (): 0 on success. */
    method OnHoldConnection(fd: int) returns (retval: int)
      requires Distinct()
      modifies this`holdTree, this`holdMap, hold, hold.fds
      ensures View() == Hold(old(View()), fd)
      ensures retval == 0 <==> FREE in old(hold.fds[..])
      ensures retval != 0 ==> View() == old(View())
    {
      retval := hold.Register(fd);
      if retval == 0 {
        holdTree := holdTree + {fd};
        holdMap := holdMap + {fd};
      }
    }

    /** on_hold_connection_remove (). */
    method OnHoldConnectionRemove(fd: int) returns (retval: int)
      requires Distinct()
      modifies this`holdTree, this`holdMap, hold, hold.fds
      ensures View() == Unhold(old(View()), fd)
    {
      retval := hold.Unregister(fd);
      if retval == 0 {
        holdTree := holdTree - {fd};
        holdMap := holdMap - {fd};
      }
    }

    /** on_hold_connection_drop (). */
    method OnHoldConnectionDrop(fd: int)
      requires Distinct()
      modifies this`holdTree, this`holdMap, this`conns, hold, hold.fds
      ensures View() == HoldDrop(old(View()), fd)
    {
      var _ := OnHoldConnectionRemove(fd);
      End(fd);
    }

    /** client_register_to_cerver (), and client_drop () when the map has the connection already. */
    method ClientRegister(id: nat, client: Client, fd: int)
      requires Distinct() && c.Sane()
      modifies this`clientOf, this`clients, this`connectedClients, this`conns, main, main.fds
      ensures View() == RegisterClient(c, old(View()), id, client, fd)
    {
      if fd in clientOf {
        clientOf := clientOf - {fd};
        assert clientOf == Without(old(clientOf), [fd]);
        var _ := main.Unregister(fd);
        ClientRemove(id, client.session);
        End(fd);
      } else {
        clientOf := clientOf[fd := id];
        var _ := main.Register(fd);
        clients := clients[id := client];
        connectedClients := connectedClients + 1;
      }
    }

    /** client_remove_from_cerver (): the tree removes a client that compares equal. */
    method ClientRemove(id: nat, session: Option<Session>)
      requires Distinct() && c.Sane()
      modifies this`clients, this`connectedClients
      ensures View() == RemoveClient(c, old(View()), id, session)
    {
      var equals := set i | i in clients && SameKey(c, i, clients[i].session, id, session);
      if equals != {} {
        clients := clients - {c.pick(equals)};
        assert clients == Forget(old(clients), c.pick(equals));
        connectedClients := connectedClients - 1;
      }
    }

    /** admin_cerver_register_admin (), and client_connection_drop () when it fails. */
    method AdminRegister(id: nat, client: Client, fd: int)
      requires Distinct()
      modifies this`admins, this`connectedAdmins, this`conns, admin, admin.fds
      ensures View() == RegisterAdmin(old(View()), id, client, fd)
    {
      var retval := admin.Register(fd);
      if retval == 0 {
        admins := admins[id := client];
        connectedAdmins := connectedAdmins + 1;
      } else {
        End(fd);
      }
    }

    /** cerver_register_new_connection (). */
    method RegisterNewConnection(fd: int)
      requires Distinct() && c.Sane()
      modifies this, hold, hold.fds, main, main.fds
      ensures View() == AcceptNew(c, old(View()), fd)
    {
      hide Hold, RegisterClient;
      conns := conns[fd := Conn(MAX_AUTH_TRIES, 0)];
      if c.authRequired {
        var retval := OnHoldConnection(fd);
        if retval != 0 {
          End(fd);
        }
      } else {
        var id := nextId;
        nextId := nextId + 1;
        ClientRegister(id, Client(None, [fd], 0), fd);
      }
    }

    /** cerver_on_hold_handle_max_bad_packets (). */
    method HandleBadPacket(fd: int)
      requires Distinct() && fd in conns
      modifies this`holdTree, this`holdMap, this`conns, hold, hold.fds
      ensures View() == BadPacket(c, old(View()), fd)
    {
      var conn := conns[fd];
      if conn.badPackets + 1 >= c.maxBadPackets {
        OnHoldConnectionDrop(fd);
      } else {
        conns := conns[fd := conn.(badPackets := conn.badPackets + 1)];
      }
    }

    /** auth_failed (). */
    method HandleAuthFailed(fd: int)
      requires Distinct() && fd in conns
      modifies this`holdTree, this`holdMap, this`conns, hold, hold.fds
      ensures View() == AuthFailed(old(View()), fd)
    {
      var conn := conns[fd];
      if conn.authTries - 1 <= 0 {
        OnHoldConnectionDrop(fd);
      } else {
        conns := conns[fd := conn.(authTries := conn.authTries - 1)];
      }
    }

    /** What auth_try () and admin_auth_try () do once the connection is authenticated. */
    method LeaveHold(fd: int)
      requires Distinct() && fd in conns
      modifies this`holdTree, this`holdMap, this`conns, hold, hold.fds
      ensures View() == Authenticated(old(View()), fd)
    {
      var _ := OnHoldConnectionRemove(fd);
      conns := conns[fd := conns[fd].(badPackets := 0)];
    }

    /** auth_with_token_normal (), then the rest of auth_try (). */
    method JoinClientByToken(fd: int, id: nat)
      requires Distinct() && fd in conns && id in clients
      modifies this, hold, hold.fds, main, main.fds
      ensures View() == JoinClient(Authenticated(old(View()), fd), id, fd)
    {
      clients := clients[id := clients[id].(fds := clients[id].fds + [fd])];
      if fd !in clientOf {
        clientOf := clientOf[fd := id];
      }
      LeaveHold(fd);
      var _ := main.Register(fd);
    }

    /** auth_with_token_admin (), then the rest of admin_auth_try (), which does not look at whether
        the admin array had room. */
    method JoinAdminByToken(fd: int, id: nat)
      requires Distinct() && fd in conns && id in admins
      modifies this, hold, hold.fds, admin, admin.fds
      ensures View() == JoinAdmin(Authenticated(old(View()), fd), id, fd)
    {
      admins := admins[id := admins[id].(fds := admins[id].fds + [fd])];
      LeaveHold(fd);
      var _ := admin.Register(fd);
    }

    /** auth_create_new_client (), then the rest of auth_try () or admin_auth_try (). */
    method CreateNew(fd: int, asAdmin: bool, v: Verdict)
      requires Distinct() && c.Sane() && fd in conns
      modifies this, hold, hold.fds, main, main.fds, admin, admin.fds
      ensures c.useSessions && v.session.None? ==> View() == HoldDrop(old(View()), fd).(nextId := old(nextId) + 1)
      ensures !(c.useSessions && v.session.None?) ==>
                var t := Authenticated(old(View()), fd).(nextId := old(nextId) + 1);
                var client := Newcomer(c, asAdmin, v, fd);
                View() == if asAdmin then RegisterAdmin(t, old(nextId), client, fd)
                          else RegisterClient(c, t, old(nextId), client, fd)
    {
      var id := nextId;
      nextId := nextId + 1;
      if c.useSessions && v.session.None? {
        OnHoldConnectionDrop(fd);
      } else {
        var client := Client(if c.useSessions then v.session else None, [fd], if asAdmin then v.adminId else 0);
        LeaveHold(fd);
        if asAdmin {
          AdminRegister(id, client, fd);
        } else {
          ClientRegister(id, client, fd);
        }
      }
    }

    /** auth_try (), or admin_auth_try () when `asAdmin`. */
    method AuthTry(fd: int, asAdmin: bool, data: seq<byte>, v: Verdict)
      requires Distinct() && c.Sane() && fd in conns
      requires UniqueSessions(clients) && UniqueSessions(admins)
      requires if asAdmin then c.admin && c.adminAuthenticate else c.authenticate
      requires data != []
      modifies this, hold, hold.fds, main, main.fds, admin, admin.fds
      ensures View() == HandleOnHold(c, old(View()), fd, AuthPacket(if asAdmin then AdminAuth else ClientAuth, data), v)
    {
      hide Hold, Unhold, HoldDrop, AuthFailed, Add, Remove, RegisterClient, RegisterAdmin, JoinClient, JoinAdmin, Authenticated,
           Token, UniqueSessions;
      if c.useSessions && |data| == TOKEN_SIZE {
        var owner := FindBySession(if asAdmin then admins else clients, Token(data));
        match owner
        case None =>
          HandleAuthFailed(fd);
        case Some(id) =>
          if asAdmin {
            JoinAdminByToken(fd, id);
          } else {
            JoinClientByToken(fd, id);
          }
      } else if v.accepted {
        CreateNew(fd, asAdmin, v);
      } else {
        HandleAuthFailed(fd);
      }
    }

    /** on_hold_packet_handler_actual () and cerver_auth_packet_handler (). */
    method OnHoldPacketHandler(fd: int, p: Packet, v: Verdict)
      requires Distinct() && c.Sane() && fd in conns
      requires UniqueSessions(clients) && UniqueSessions(admins)
      modifies this, hold, hold.fds, main, main.fds, admin, admin.fds
      ensures View() == HandleOnHold(c, old(View()), fd, p, v)
    {
      match p
      case TestPacket =>
      case OtherPacket =>
        HandleBadPacket(fd);
      case AuthPacket(request, data) =>
        if |data| == 0 || request == UnknownRequest {
          HandleBadPacket(fd);
        } else if if request == AdminAuth then c.admin && c.adminAuthenticate else c.authenticate {
          AuthTry(fd, request == AdminAuth, data, v);
        } else {
          OnHoldConnectionDrop(fd);
        }
    }

    /** connection_remove_from_cerver () and client_connection_drop (). */
    method ConnectionDrop(id: nat, fd: int)
      requires Distinct() && id in clients
      modifies this`clientOf, this`clients, this`conns, main, main.fds
      ensures View() == DropConnection(old(View()), id, fd)
    {
      var _ := main.Unregister(fd);
      clientOf := clientOf - {fd};
      assert clientOf == Without(old(clientOf), [fd]);
      var client := ClientConnectionDrop(clients[id], fd);
      clients := clients[id := client];
    }

    /** client_remove_connection_by_sock_fd (). */
    method RemoveConnectionBySockFd(id: nat, fd: int)
      requires Distinct() && c.Sane() && id in clients
      modifies this, main, main.fds
      ensures View() == RemoveConnection(c, old(View()), id, fd)
    {
      var Client(session, fds, _) := clients[id];
      if |fds| == 0 {
        ClientRemove(id, session);
      } else if |fds| == 1 {
        ConnectionDrop(id, fds[0]);
        ClientRemove(id, session);
      } else {
        var found := ListHas(fds, fd);
        if found {
          ConnectionDrop(id, fd);
        }
      }
    }

    /** client_unregister_connections_from_cerver (). */
    method UnmapAll(fds: seq<int>)
      modifies this`clientOf
      ensures clientOf == Without(old(clientOf), fds)
    {
      for i := 0 to |fds|
        invariant clientOf == Without(old(clientOf), fds[..i])
      {
        clientOf := clientOf - {fds[i]};
      }
      assert fds[..|fds|] == fds;
    }

    /** client_drop (): the client's connections leave the map, then the main array, and are closed. */
    method DropClient(id: nat)
      requires Distinct() && c.Sane() && id in clients
      modifies this, main, main.fds
      ensures View() == ClientDrop(c, old(View()), id)
    {
      hide RemoveAll, Equals, Forget;
      var Client(session, fds, _) := clients[id];
      UnmapAll(fds);
      main.UnregisterAll(fds);
      ClientRemove(id, session);
      EndAll(fds);
    }

    /** admin_cerver_unregister_admin () and admin_delete (). */
    method UnregisterAdmin(id: nat)
      requires Distinct() && id in admins
      modifies this, admin, admin.fds
      ensures View() == AdminDrop(old(View()), id)
    {
      var fds := admins[id].fds;
      var first := FindEqual(admins, id);
      admins := admins - {first};
      assert admins == Forget(old(admins), first);
      admin.UnregisterAll(fds);
      connectedAdmins := connectedAdmins - 1;
      EndAll(fds);
    }

    /** admin_remove_connection_by_sock_fd (). */
    method AdminRemoveConnectionBySockFd(id: nat, fd: int)
      requires Distinct() && id in admins
      modifies this, admin, admin.fds
      ensures View() == RemoveAdminConnection(old(View()), id, fd)
    {
      var fds := admins[id].fds;
      if |fds| == 0 {
        UnregisterAdmin(id);
      } else if |fds| == 1 {
        var retval := admin.Unregister(fds[0]);
        if retval == 0 {
          var client := ClientConnectionDrop(admins[id], fds[0]);
          admins := admins[id := client];
          UnregisterAdmin(id);
        }
      } else {
        var found := ListHas(fds, fd);
        if found {
          var retval := admin.Unregister(fd);
          if retval == 0 {
            var client := ClientConnectionDrop(admins[id], fd);
            admins := admins[id := client];
          }
        }
      }
    }

    /** One event of the poll loops: the registry is still in agreement. */
    method Serve(e: Event)
      requires Distinct() && c.Sane() && Agreement(c, View())
      requires Possible(c, View(), e) && Safe(c, View(), e) && Picks(c, View(), e)
      modifies this, hold, hold.fds, main, main.fds, admin, admin.fds
      ensures View() == Step(c, old(View()), e)
      ensures Agreement(c, View())
    {
      hide Agreement, Possible, Safe, HandleOnHold, HoldDrop, AcceptNew, RemoveConnection, ClientDrop,
           RemoveAdminConnection, AdminDrop, Picks;
      StepKeeps(c, View(), e);
      SafeConn(c, View(), e);
      Known(c, View(), e);
      match e
      case Accept(fd) =>
        RegisterNewConnection(fd);
      case OnHold(fd, p, v) =>
        OnHoldPacketHandler(fd, p, v);
      case HoldFailed(fd) =>
        OnHoldConnectionDrop(fd);
      case CloseConnection(fd) =>
        RemoveConnectionBySockFd(clientOf[fd], fd);
      case Disconnect(fd) =>
        DropClient(clientOf[fd]);
      case AdminClose(fd) =>
        var id := FindBySockFd(admins, fd);
        AdminRemoveConnectionBySockFd(id, fd);
      case AdminDisconnect(fd) =>
        var id := FindBySockFd(admins, fd);
        UnregisterAdmin(id);
    }
  }

  /** The searches of connection_get_by_sock_fd_from_client () and admin_connection_get_by_sock_fd (). */
  method ListHas(fds: seq<int>, fd: int) returns (found: bool)
    ensures found <==> fd in fds
  {
    for i := 0 to |fds|
      invariant fd !in fds[..i]
    {
      if fds[i] == fd {
        return true;
      }
    }
    return false;
  }

  /** dlist_remove (): takes out the first match. */
  method ListRemove(fds: seq<int>, fd: int) returns (r: seq<int>)
    ensures r == RemoveFirst(fds, fd)
  {
    for i := 0 to |fds|
      invariant fd !in fds[..i]
    {
      if fds[i] == fd {
        RemoveFirstSplit(fds[..i], fds[i..], fd);
        assert fds == fds[..i] + fds[i..];
        return fds[..i] + fds[i + 1..];
      }
    }
    RemoveFirstSplit(fds, [], fd);
    assert fds + [] == fds;
    return fds;
  }

  lemma {:induction false} RemoveFirstSplit(front: seq<int>, back: seq<int>, fd: int)
    requires fd !in front
    ensures RemoveFirst(front + back, fd) == front + RemoveFirst(back, fd)
  {
    if front == [] {
      assert front + back == back;
    } else {
      assert (front + back)[1..] == front[1..] + back;
      RemoveFirstSplit(front[1..], back, fd);
    }
  }

  lemma SafeConn(c: Config, s: State, e: Event)
    requires Possible(c, s, e)
    ensures e.OnHold? ==> e.fd in s.conns
  {
  }

  /** What the handler of an event finds. */
  lemma Known(c: Config, s: State, e: Event)
    requires Agreement(c, s) && Possible(c, s, e)
    ensures UniqueSessions(s.clients) && UniqueSessions(s.admins)
    ensures e.CloseConnection? || e.Disconnect? ==> e.fd in s.clientOf && s.clientOf[e.fd] in s.clients
    ensures e.AdminClose? || e.AdminDisconnect? ==> AdminOf(s.admins, e.fd).Some?
    ensures forall a, b, fd ::
              a in s.admins && b in s.admins && fd in s.admins[a].fds && fd in s.admins[b].fds ==> a == b
  {
    hide HoldOk, Members, ConnsOk, IdsOk, Partition, Lists, Maps;
    if e.CloseConnection? || e.Disconnect? {
      InMain(c, s, e.fd);
    }
    if e.AdminClose? || e.AdminDisconnect? {
      InAdmin(c, s, e.fd);
    }
  }

  /** client_get_by_session_id () and admin_get_by_session_id (). */
  method FindBySession(registered: map<nat, Client>, session: Session) returns (r: Option<nat>)
    requires UniqueSessions(registered)
    ensures r == Owner(registered, session)
  {
    var left := registered.Keys;
    while left != {}
      invariant left <= registered.Keys
      invariant forall id :: id in registered && id !in left ==> registered[id].session != Some(session)
      decreases |left|
    {
      var id :| id in left;
      if registered[id].session == Some(session) {
        return Some(id);
      }
      left := left - {id};
    }
    return None;
  }

  /** The search of dlist_remove () in the list of admins: the first one with the same admin id. */
  method FindEqual(admins: map<nat, Client>, id: nat) returns (first: nat)
    requires id in admins
    ensures first == FirstAdmin(admins, id, 0)
  {
    first := 0;
    while !(first in admins && admins[first].adminId == admins[id].adminId)
      invariant first <= id && FirstAdmin(admins, id, first) == FirstAdmin(admins, id, 0)
      decreases id - first
    {
      first := first + 1;
    }
  }

  /** admin_get_by_sock_fd (). */
  method FindBySockFd(admins: map<nat, Client>, fd: int) returns (r: nat)
    requires AdminOf(admins, fd).Some?
    requires forall a, b :: a in admins && b in admins && fd in admins[a].fds && fd in admins[b].fds ==> a == b
    ensures AdminOf(admins, fd) == Some(r) && r in admins
  {
    var left := admins.Keys;
    while left != {}
      invariant left <= admins.Keys
      invariant AdminOf(admins, fd).value in left
      decreases |left|
    {
      var id :| id in left;
      if fd in admins[id].fds {
        return id;
      }
      left := left - {id};
    }
    assert false;
  }
}
