/** Every operation keeps the registry in agreement, and the guard under which it does is exact. */
module RegistryAgreement {
  import opened PollTables
  import opened Registry

  // -------------------------------------------------------------------- lists of clients and admins

  lemma {:induction false} RemoveFirstIs(fds: seq<int>, fd: int)
    requires NoDuplicates(fds) && fd in fds
    ensures |RemoveFirst(fds, fd)| == |fds| - 1
    ensures NoDuplicates(RemoveFirst(fds, fd))
    ensures forall x :: x in RemoveFirst(fds, fd) <==> x in fds && x != fd
  {
    assert fds == [fds[0]] + fds[1..];
    if fds[0] == fd {
    } else {
      assert NoDuplicates(fds[1..]);
      RemoveFirstIs(fds[1..], fd);
      var rest := RemoveFirst(fds[1..], fd);
      assert fds[0] !in rest by {
        assert fds[0] !in fds[1..];
      }
      assert RemoveFirst(fds, fd) == [fds[0]] + rest;
      forall i, j | 0 <= i < j < |fds| - 1 ensures ([fds[0]] + rest)[i] != ([fds[0]] + rest)[j] {
        assert rest[j - 1] in rest;
      }
    }
  }

  /** The member sets, when one group is replaced. */
  lemma ReplaceGroup(registered: map<nat, Client>, id: nat, client: Client, fds: set<int>)
    requires forall x :: x in fds <==> x in client.fds
    requires forall i :: i in registered && i != id ==> forall x :: x in registered[i].fds ==> x !in fds
    requires Groups(registered) && NoDuplicates(client.fds) && client.fds != []
    ensures Groups(registered[id := client])
    ensures Members(registered[id := client])
         == Members(registered) - (if id in registered then set x | x in registered[id].fds else {}) + fds
  {
    var r := registered[id := client];
    var before := if id in registered then set x | x in registered[id].fds else {};
    forall x ensures x in Members(r) <==> x in Members(registered) - before + fds {
      if x in fds {
        assert id in r && x in r[id].fds;
      }
      if x in Members(registered) && x !in before {
        var i :| i in registered && x in registered[i].fds;
        assert i in r && x in r[i].fds;
      }
    }
  }

  lemma NotMember(registered: map<nat, Client>, fd: int)
    requires fd !in Members(registered)
    ensures forall i :: i in registered ==> fd !in registered[i].fds
  {
  }

  lemma AddGroup(registered: map<nat, Client>, id: nat, client: Client, fd: int)
    requires Groups(registered) && id !in registered && client.fds == [fd] && fd !in Members(registered)
    ensures Groups(registered[id := client])
    ensures Members(registered[id := client]) == Members(registered) + {fd}
  {
    NotMember(registered, fd);
    ReplaceGroup(registered, id, client, {fd});
  }

  lemma ExtendGroup(registered: map<nat, Client>, id: nat, fd: int)
    requires Groups(registered) && id in registered && fd !in Members(registered)
    ensures Groups(Joined(registered, id, fd))
    ensures Members(Joined(registered, id, fd)) == Members(registered) + {fd}
  {
    NotMember(registered, fd);
    var fds := registered[id].fds;
    ReplaceGroup(registered, id, Joined(registered, id, fd)[id], (set x | x in fds) + {fd});
    assert forall x :: x in fds ==> x in Members(registered);
  }

  lemma ShrinkGroup(registered: map<nat, Client>, id: nat, fd: int, client: Client)
    requires Groups(registered) && id in registered && fd in registered[id].fds && |registered[id].fds| > 1
    requires client.fds == RemoveFirst(registered[id].fds, fd)
    ensures Groups(registered[id := client])
    ensures Members(registered[id := client]) == Members(registered) - {fd}
    ensures forall x :: x in client.fds <==> x in registered[id].fds && x != fd
  {
    var fds := registered[id].fds;
    RemoveFirstIs(fds, fd);
    ReplaceGroup(registered, id, client, (set x | x in fds) - {fd});
    assert forall x :: x in fds ==> x in Members(registered);
  }

  lemma RemoveGroup(registered: map<nat, Client>, id: nat)
    requires Groups(registered) && id in registered
    ensures Groups(Forget(registered, id))
    ensures Members(Forget(registered, id)) == Members(registered) - set x | x in registered[id].fds
    ensures |Forget(registered, id)| == |registered| - 1
  {
    var r := Forget(registered, id);
    assert r.Keys == registered.Keys - {id};
    forall x ensures x in Members(r) <==> x in Members(registered) && x !in registered[id].fds {
      if x in Members(registered) && x !in registered[id].fds {
        var i :| i in registered && x in registered[i].fds;
        assert i in r && x in r[i].fds;
      }
    }
  }

  // ---------------------------------------------------------------------- the clients and the admins

  /** The keys of client_sock_fd_map are the connections of the clients. */
  lemma MembersAreMapped(clientOf: map<int, nat>, clients: map<nat, Client>)
    requires Maps(clientOf, clients)
    ensures Members(clients) == clientOf.Keys
  {
    forall fd | fd in clientOf ensures fd in Members(clients) {
      assert clientOf[fd] in clients && fd in clients[clientOf[fd]].fds;
    }
  }

  /** The map and the lists change together. */
  lemma MapsAdd(clientOf: map<int, nat>, clients: map<nat, Client>, id: nat, client: Client, fd: int)
    requires Maps(clientOf, clients) && fd !in clientOf
    requires forall x :: x in client.fds <==> x == fd || (id in clients && x in clients[id].fds)
    ensures Maps(clientOf[fd := id], clients[id := client])
    ensures clientOf[fd := id].Keys == clientOf.Keys + {fd}
  {
    var m, r := clientOf[fd := id], clients[id := client];
    forall i, x | i in r && x in r[i].fds ensures x in m && m[x] == i {
      if i != id {
        assert i in clients && x in clients[i].fds;
      }
    }
    forall x | x in m ensures m[x] in r && x in r[m[x]].fds {
      assert x != fd ==> x in clientOf;
    }
  }

  lemma MapsShrink(clientOf: map<int, nat>, clients: map<nat, Client>, id: nat, client: Client, fd: int)
    requires Maps(clientOf, clients) && id in clients && fd in clients[id].fds
    requires forall x :: x in client.fds <==> x in clients[id].fds && x != fd
    ensures Maps(Without(clientOf, [fd]), clients[id := client])
    ensures Without(clientOf, [fd]).Keys == clientOf.Keys - {fd}
  {
    var m, r := Without(clientOf, [fd]), clients[id := client];
    forall i, x | i in r && x in r[i].fds ensures x in m && m[x] == i {
      assert i in clients && x in clients[i].fds;
      assert clientOf[x] == i && clientOf[fd] == id;
    }
    forall x | x in m ensures m[x] in r && x in r[m[x]].fds {
      assert x in clientOf && x != fd && clientOf[x] in clients && x in clients[clientOf[x]].fds;
    }
  }

  lemma MapsForget(clientOf: map<int, nat>, clients: map<nat, Client>, id: nat, fds: seq<int>)
    requires Maps(clientOf, clients) && id in clients && fds == clients[id].fds
    ensures Maps(Without(clientOf, fds), Forget(clients, id))
    ensures Without(clientOf, fds).Keys == clientOf.Keys - set x | x in fds
  {
    var m, r := Without(clientOf, fds), Forget(clients, id);
    forall i, x | i in r && x in r[i].fds ensures x in m && m[x] == i {
      assert i in clients && x in clients[i].fds;
      assert clientOf[x] == i;
    }
  }

  lemma SessionsAdd(registered: map<nat, Client>, id: nat, client: Client)
    requires UniqueSessions(registered)
    requires (id in registered && registered[id].session == client.session)
          || (client.session.Some? ==> forall i :: i in registered ==> registered[i].session != client.session)
    ensures UniqueSessions(registered[id := client])
    ensures |registered[id := client]| == |registered| + if id in registered then 0 else 1
  {
    var r := registered[id := client];
    assert r.Keys == registered.Keys + {id};
    assert id in registered ==> r.Keys == registered.Keys;
  }

  /** The tree tells clients apart by their ids, or by the sessions they all have. */
  lemma KeysTellApart(c: Config, clients: map<nat, Client>, id: nat)
    requires c.Valid() && UniqueSessions(clients) && Keyed(c, clients) && id in clients
    ensures Removes(c, clients, id)
  {
    assert Equals(c, clients, id, clients[id].session) == {id};
  }

  lemma SessionsForget(registered: map<nat, Client>, id: nat)
    requires UniqueSessions(registered)
    ensures UniqueSessions(Forget(registered, id))
  {
  }

  lemma ClientsAdd(
      sock: int, main: Table, clientOf: map<int, nat>, clients: map<nat, Client>, n: int,
      id: nat, client: Client, fd: int)
    requires ClientsOk(sock, main, clientOf, clients, n)
    requires id !in clients && client.fds == [fd] && fd !in clientOf && fd > 0 && fd != sock && FREE in main.slots
    requires client.session.Some? ==> forall i :: i in clients ==> clients[i].session != client.session
    ensures ClientsOk(sock, Add(main, 1, fd), clientOf[fd := id], clients[id := client], n + 1)
    ensures clientOf[fd := id].Keys == clientOf.Keys + {fd}
  {
    hide Lists, Add, Groups, Members, Maps, UniqueSessions;
    AddLists(main, [sock], clientOf.Keys, fd);
    MembersAreMapped(clientOf, clients);
    AddGroup(clients, id, client, fd);
    MapsAdd(clientOf, clients, id, client, fd);
    SessionsAdd(clients, id, client);
  }

  lemma ClientsJoin(
      sock: int, main: Table, clientOf: map<int, nat>, clients: map<nat, Client>, n: int, id: nat, fd: int)
    requires ClientsOk(sock, main, clientOf, clients, n)
    requires id in clients && fd !in clientOf && fd > 0 && fd != sock && FREE in main.slots
    ensures ClientsOk(sock, Add(main, 1, fd), clientOf[fd := id], Joined(clients, id, fd), n)
    ensures clientOf[fd := id].Keys == clientOf.Keys + {fd}
  {
    hide Lists, Add, Groups, Members, Maps, UniqueSessions;
    AddLists(main, [sock], clientOf.Keys, fd);
    MembersAreMapped(clientOf, clients);
    ExtendGroup(clients, id, fd);
    MapsAdd(clientOf, clients, id, Joined(clients, id, fd)[id], fd);
    SessionsAdd(clients, id, Joined(clients, id, fd)[id]);
  }

  lemma ClientsShrink(
      sock: int, main: Table, clientOf: map<int, nat>, clients: map<nat, Client>, n: int,
      id: nat, fd: int, client: Client)
    requires ClientsOk(sock, main, clientOf, clients, n)
    requires id in clients && fd in clients[id].fds && |clients[id].fds| > 1 && fd > 0 && fd != sock
    requires client == clients[id].(fds := RemoveFirst(clients[id].fds, fd))
    ensures ClientsOk(sock, Remove(main, 1, fd), Without(clientOf, [fd]), clients[id := client], n)
    ensures Without(clientOf, [fd]).Keys == clientOf.Keys - {fd}
  {
    hide Lists, Remove, Groups, Members, Maps, UniqueSessions, Without;
    RemoveLists(main, [sock], clientOf.Keys, fd);
    ShrinkGroup(clients, id, fd, client);
    MapsShrink(clientOf, clients, id, client, fd);
    SessionsAdd(clients, id, client);
  }

  lemma ClientsForget(
      sock: int, main: Table, clientOf: map<int, nat>, clients: map<nat, Client>, n: int, id: nat, fds: set<int>)
    requires ClientsOk(sock, main, clientOf, clients, n)
    requires id in clients && fds == (set x | x in clients[id].fds)
    requires forall x :: x in fds ==> x > 0 && x != sock
    ensures ClientsOk(sock, RemoveAll(main, 1, clients[id].fds), Without(clientOf, clients[id].fds),
                      Forget(clients, id), n - 1)
    ensures Without(clientOf, clients[id].fds).Keys == clientOf.Keys - fds
  {
    hide Lists, RemoveAll, Groups, Members, Maps, UniqueSessions, Without, Forget;
    assert forall x :: x in clients[id].fds ==> x in fds;
    RemoveAllLists(main, [sock], clientOf.Keys, clients[id].fds);
    RemoveGroup(clients, id);
    MapsForget(clientOf, clients, id, clients[id].fds);
    SessionsForget(clients, id);
  }

  lemma AdminsAdd(
      admin: Table, admins: map<nat, Client>, n: int, id: nat, client: Client, fd: int)
    requires AdminsOk(admin, admins, n)
    requires id !in admins && client.fds == [fd] && fd !in Members(admins) && fd > 0 && FREE in admin.slots
    requires client.session.Some? ==> forall i :: i in admins ==> admins[i].session != client.session
    ensures AdminsOk(Add(admin, 0, fd), admins[id := client], n + 1)
    ensures Members(admins[id := client]) == Members(admins) + {fd}
  {
    hide Lists, Add, Groups, Members, UniqueSessions;
    AddLists(admin, [], Members(admins), fd);
    AddGroup(admins, id, client, fd);
    SessionsAdd(admins, id, client);
  }

  lemma AdminsJoin(admin: Table, admins: map<nat, Client>, n: int, id: nat, fd: int)
    requires AdminsOk(admin, admins, n)
    requires id in admins && fd !in Members(admins) && fd > 0 && FREE in admin.slots
    ensures AdminsOk(Add(admin, 0, fd), Joined(admins, id, fd), n)
    ensures Members(Joined(admins, id, fd)) == Members(admins) + {fd}
  {
    hide Lists, Add, Groups, Members, UniqueSessions;
    AddLists(admin, [], Members(admins), fd);
    ExtendGroup(admins, id, fd);
    SessionsAdd(admins, id, Joined(admins, id, fd)[id]);
  }

  lemma AdminsShrink(
      admin: Table, admins: map<nat, Client>, n: int, id: nat, fd: int, client: Client)
    requires AdminsOk(admin, admins, n)
    requires id in admins && fd in admins[id].fds && |admins[id].fds| > 1 && fd > 0
    requires client == admins[id].(fds := RemoveFirst(admins[id].fds, fd))
    ensures AdminsOk(Remove(admin, 0, fd), admins[id := client], n)
    ensures Members(admins[id := client]) == Members(admins) - {fd}
  {
    hide Lists, Remove, Groups, Members, UniqueSessions;
    RemoveLists(admin, [], Members(admins), fd);
    ShrinkGroup(admins, id, fd, client);
    SessionsAdd(admins, id, client);
  }

  lemma AdminsForget(admin: Table, admins: map<nat, Client>, n: int, id: nat, fds: set<int>)
    requires AdminsOk(admin, admins, n)
    requires id in admins && fds == (set x | x in admins[id].fds)
    requires forall x :: x in fds ==> x > 0
    ensures AdminsOk(RemoveAll(admin, 0, admins[id].fds), Forget(admins, id), n - 1)
    ensures Members(Forget(admins, id)) == Members(admins) - fds
  {
    hide Lists, RemoveAll, Groups, Members, UniqueSessions, Forget;
    assert forall x :: x in admins[id].fds ==> x in fds;
    RemoveAllLists(admin, [], Members(admins), admins[id].fds);
    RemoveGroup(admins, id);
    SessionsForget(admins, id);
  }

  lemma FdsOf(registered: map<nat, Client>, id: nat)
    requires Groups(registered) && id in registered
    ensures registered[id].fds != []
    ensures forall fd :: fd in registered[id].fds ==> fd in Members(registered)
  {
  }

  // ------------------------------------------------------------- a connection that is nowhere yet

  /** All is well but for the open connection fd, which is in no table. */
  ghost predicate Loose(c: Config, s: State, fd: int) {
    Agreement(c, Close(s, fd)) && fd in s.conns && ConnOk(c, fd, s.conns[fd])
  }

  lemma LooseIsNowhere(c: Config, s: State, fd: int)
    requires Loose(c, s, fd)
    ensures fd !in s.holdMap && fd !in s.clientOf && fd !in Members(s.admins)
    ensures Partition(s.conns.Keys - {fd}, s.holdMap, s.clientOf.Keys, Members(s.admins))
    ensures ConnsOk(c, s.conns)
  {
    hide HoldOk, ClientsOk, AdminsOk, IdsOk, Members, ConnOk;
    var t := Close(s, fd);
    assert t.conns.Keys == s.conns.Keys - {fd};
    assert fd !in t.conns;
    forall x | x in s.conns ensures ConnOk(c, x, s.conns[x]) {
      if x != fd {
        assert x in t.conns;
      }
    }
  }

  lemma HoldAdd(t: Table, tree: set<int>, held: set<int>, fd: int)
    requires HoldOk(t, tree, held) && fd !in held && fd > 0 && FREE in t.slots
    ensures HoldOk(Add(t, 0, fd), tree + {fd}, held + {fd})
  {
    hide Lists, Add;
    AddLists(t, [], held, fd);
  }

  lemma HoldKeeps(c: Config, s: State, fd: int)
    requires Loose(c, s, fd) && FREE in s.hold.slots
    ensures Agreement(c, Hold(s, fd))
  {
    hide Lists, Add, HoldOk, ClientsOk, AdminsOk, Members, ConnsOk;
    LooseIsNowhere(c, s, fd);
    HoldAdd(s.hold, s.holdTree, s.holdMap, fd);
  }

  lemma RegisterClientKeeps(c: Config, s: State, id: nat, client: Client, fd: int)
    requires Loose(c, s, fd) && FREE in s.main.slots
    requires c.useSessions && c.authRequired ==> client.session.Some?
    requires id < s.nextId && id !in s.clients && client.fds == [fd] && FreshSession(s, client.session)
    ensures Agreement(c, RegisterClient(c, s, id, client, fd))
  {
    hide Lists, Add, HoldOk, ClientsOk, AdminsOk, Members, ConnsOk;
    LooseIsNowhere(c, s, fd);
    ClientsAdd(c.sock, s.main, s.clientOf, s.clients, s.connectedClients, id, client, fd);
  }

  lemma JoinClientKeeps(c: Config, s: State, id: nat, fd: int)
    requires Loose(c, s, fd) && FREE in s.main.slots && id in s.clients
    ensures Agreement(c, JoinClient(s, id, fd))
  {
    hide Lists, Add, HoldOk, ClientsOk, AdminsOk, Members, ConnsOk;
    LooseIsNowhere(c, s, fd);
    ClientsJoin(c.sock, s.main, s.clientOf, s.clients, s.connectedClients, id, fd);
  }

  lemma RegisterAdminKeeps(c: Config, s: State, id: nat, client: Client, fd: int)
    requires Loose(c, s, fd)
    requires id < s.nextId && id !in s.admins && client.fds == [fd] && FreshSession(s, client.session)
    ensures Agreement(c, RegisterAdmin(s, id, client, fd))
  {
    hide Lists, Add, HoldOk, ClientsOk, AdminsOk, Members, ConnsOk;
    LooseIsNowhere(c, s, fd);
    if FREE in s.admin.slots {
      AdminsAdd(s.admin, s.admins, s.connectedAdmins, id, client, fd);
    }
  }

  lemma JoinAdminKeeps(c: Config, s: State, id: nat, fd: int)
    requires Loose(c, s, fd) && FREE in s.admin.slots && id in s.admins
    ensures Agreement(c, JoinAdmin(s, id, fd))
  {
    hide Lists, Add, HoldOk, ClientsOk, AdminsOk, Members, ConnsOk;
    LooseIsNowhere(c, s, fd);
    AdminsJoin(s.admin, s.admins, s.connectedAdmins, id, fd);
  }

  // --------------------------------------------------------------------------- leaving the hold

  lemma InHold(t: Table, tree: set<int>, held: set<int>, fd: int)
    requires HoldOk(t, tree, held)
    ensures fd in held <==> fd in t.slots && fd != FREE
  {
  }

  lemma HoldRemove(t: Table, tree: set<int>, held: set<int>, fd: int)
    requires HoldOk(t, tree, held) && fd in held
    ensures HoldOk(Remove(t, 0, fd), tree - {fd}, held - {fd})
  {
    hide Remove;
    RemoveLists(t, [], held, fd);
  }

  lemma WithoutOne(conns: map<int, Conn>, fd: int)
    ensures Without(conns, [fd]).Keys == conns.Keys - {fd}
    ensures forall x :: x in conns && x != fd ==> Without(conns, [fd])[x] == conns[x]
  {
  }

  lemma HoldDropKeeps(c: Config, s: State, fd: int)
    requires Agreement(c, s) && fd in s.holdMap
    ensures Agreement(c, HoldDrop(s, fd))
  {
    hide HoldOk, Remove, ClientsOk, AdminsOk, Members, Without;
    InHold(s.hold, s.holdTree, s.holdMap, fd);
    HoldRemove(s.hold, s.holdTree, s.holdMap, fd);
    WithoutOne(s.conns, fd);
  }

  lemma AuthenticatedIsLoose(c: Config, s: State, fd: int)
    requires Agreement(c, s) && fd in s.holdMap
    ensures Loose(c, Authenticated(s, fd), fd)
  {
    hide HoldOk, ClientsOk, AdminsOk, Members, IdsOk;
    HoldDropKeeps(c, s, fd);
    assert Close(Authenticated(s, fd), fd) == HoldDrop(s, fd);
    assert ConnOk(c, fd, s.conns[fd]);
  }

  // -------------------------------------------------------------------------------- unregistering

  lemma DropConnectionKeeps(c: Config, s: State, id: nat, fd: int)
    requires Agreement(c, s) && id in s.clients && fd in s.clients[id].fds && |s.clients[id].fds| > 1
    ensures Agreement(c, DropConnection(s, id, fd))
  {
    hide HoldOk, Remove, ClientsOk, AdminsOk, Members, Without, RemoveFirst;
    IsServed(c, s, id);
    WithoutOne(s.conns, fd);
    ClientsShrink(c.sock, s.main, s.clientOf, s.clients, s.connectedClients, id, fd,
                  DropConnection(s, id, fd).clients[id]);
  }

  lemma IsServed(c: Config, s: State, id: nat)
    requires Agreement(c, s) && id in s.clients
    ensures s.clients[id].fds != []
    ensures forall fd :: fd in s.clients[id].fds ==>
              fd in s.clientOf && s.clientOf[fd] == id && fd in s.conns && fd > 0 && fd != c.sock
  {
    hide HoldOk, AdminsOk, Members, Lists, Groups, UniqueSessions, IdsOk;
    FdsOf(s.clients, id);
    forall fd | fd in s.clients[id].fds
      ensures fd in s.clientOf && s.clientOf[fd] == id && fd in s.conns && fd > 0 && fd != c.sock
    {
      assert fd in s.clientOf && s.clientOf[fd] == id;
      assert fd in s.conns.Keys;
    }
  }

  lemma Administers(c: Config, s: State, id: nat)
    requires Agreement(c, s) && id in s.admins
    ensures s.admins[id].fds != []
    ensures forall fd :: fd in s.admins[id].fds ==> fd in Members(s.admins) && fd in s.conns && fd > 0
                                                    && fd in s.admin.slots
  {
    hide HoldOk, ClientsOk, Members, Groups, UniqueSessions, IdsOk;
    FdsOf(s.admins, id);
    forall fd | fd in s.admins[id].fds ensures fd in s.conns && fd > 0 && fd in s.admin.slots {
      assert fd in s.conns.Keys;
    }
  }

  lemma WithoutSome(conns: map<int, Conn>, gone: seq<int>)
    ensures Without(conns, gone).Keys == conns.Keys - set x | x in gone
    ensures forall x :: x in conns && x !in gone ==> Without(conns, gone)[x] == conns[x]
  {
  }

  lemma ClientDropKeeps(c: Config, s: State, id: nat)
    requires c.Sane() && Agreement(c, s) && id in s.clients && Removes(c, s.clients, id)
    ensures Agreement(c, ClientDrop(c, s, id))
  {
    hide HoldOk, RemoveAll, ClientsOk, AdminsOk, Members, Without;
    var gone := set x | x in s.clients[id].fds;
    IsServed(c, s, id);
    SameEquals(c, s, s, id);
    WithoutSome(s.conns, s.clients[id].fds);
    ClientsForget(c.sock, s.main, s.clientOf, s.clients, s.connectedClients, id, gone);
  }

  lemma LastConnection(c: Config, s: State, id: nat)
    requires c.Sane() && id in s.clients && |s.clients[id].fds| == 1 && Removes(c, s.clients, id)
    ensures RemoveClient(c, DropConnection(s, id, s.clients[id].fds[0]), id, s.clients[id].session) == ClientDrop(c, s, id)
  {
    var fds := s.clients[id].fds;
    assert fds == [fds[0]];
    assert RemoveAll(s.main, 1, fds) == RemoveAll(Remove(s.main, 1, fds[0]), 1, fds[1..]);
    assert RemoveAll(s.main, 1, fds) == Remove(s.main, 1, fds[0]);
    var t := DropConnection(s, id, fds[0]);
    SameEquals(c, s, t, id);
    assert Forget(t.clients, id) == Forget(s.clients, id);
  }

  lemma SameEquals(c: Config, s: State, t: State, id: nat)
    requires id in s.clients && t.clients.Keys == s.clients.Keys
    requires forall i :: i in s.clients ==> t.clients[i].session == s.clients[i].session
    ensures Equals(c, t.clients, id, s.clients[id].session) == Equals(c, s.clients, id, s.clients[id].session)
    ensures id in Equals(c, s.clients, id, s.clients[id].session)
  {
  }

  lemma RemoveConnectionKeeps(c: Config, s: State, id: nat, fd: int)
    requires c.Sane() && Agreement(c, s) && id in s.clients && fd in s.clients[id].fds
    requires |s.clients[id].fds| > 1 || Removes(c, s.clients, id)
    ensures Agreement(c, RemoveConnection(c, s, id, fd))
  {
    hide Agreement, DropConnection, ClientDrop, RemoveClient, Removes;
    if |s.clients[id].fds| == 1 {
      LastConnection(c, s, id);
      ClientDropKeeps(c, s, id);
    } else {
      DropConnectionKeeps(c, s, id, fd);
    }
  }

  /** The client that leaves the tree instead of the one that ends keeps its connections. */
  lemma WrongClientBreaks(c: Config, s: State, r: State, id: nat, victim: nat)
    requires Agreement(c, s) && id in s.clients && victim in s.clients && victim != id
    requires victim !in r.clients
    requires forall fd :: fd in s.clientOf && fd !in s.clients[id].fds ==> fd in r.clientOf && r.clientOf[fd] == s.clientOf[fd]
    ensures !Agreement(c, r)
  {
    hide HoldOk, AdminsOk, Members, Lists, Groups, UniqueSessions, IdsOk, Partition, ConnsOk;
    IsServed(c, s, victim);
    var fd := s.clients[victim].fds[0];
    assert fd in s.clients[victim].fds;
    IsServed(c, s, id);
    assert fd in r.clientOf && r.clientOf[fd] == victim;
  }

  lemma RemoveConnectionBreaks(c: Config, s: State, id: nat, fd: int)
    requires c.Sane() && Agreement(c, s) && id in s.clients && fd in s.clients[id].fds
    requires |s.clients[id].fds| <= 1 && !Removes(c, s.clients, id)
    ensures !Agreement(c, RemoveConnection(c, s, id, fd))
  {
    hide Agreement, Remove;
    var Client(session, fds, _) := s.clients[id];
    var t := DropConnection(s, id, fds[0]);
    SameEquals(c, s, t, id);
    WrongClientBreaks(c, s, RemoveConnection(c, s, id, fd), id, c.pick(Equals(c, s.clients, id, session)));
  }

  lemma ClientDropBreaks(c: Config, s: State, id: nat)
    requires c.Sane() && Agreement(c, s) && id in s.clients && !Removes(c, s.clients, id)
    ensures !Agreement(c, ClientDrop(c, s, id))
  {
    hide Agreement, RemoveAll;
    SameEquals(c, s, s, id);
    WrongClientBreaks(c, s, ClientDrop(c, s, id), id, c.pick(Equals(c, s.clients, id, s.clients[id].session)));
  }

  lemma DropAdminConnectionKeeps(c: Config, s: State, id: nat, fd: int)
    requires Agreement(c, s) && id in s.admins && fd in s.admins[id].fds && |s.admins[id].fds| > 1
    ensures Agreement(c, DropAdminConnection(s, id, fd))
  {
    hide HoldOk, Remove, ClientsOk, AdminsOk, Members, Without, RemoveFirst;
    Administers(c, s, id);
    WithoutOne(s.conns, fd);
    AdminsShrink(s.admin, s.admins, s.connectedAdmins, id, fd, DropAdminConnection(s, id, fd).admins[id]);
  }

  lemma AdminDropKeeps(c: Config, s: State, id: nat)
    requires Agreement(c, s) && id in s.admins && RemovesAdmin(s.admins, id)
    ensures Agreement(c, AdminDrop(s, id))
  {
    hide HoldOk, RemoveAll, ClientsOk, AdminsOk, Members, Without;
    var gone := set x | x in s.admins[id].fds;
    Administers(c, s, id);
    WithoutSome(s.conns, s.admins[id].fds);
    AdminsForget(s.admin, s.admins, s.connectedAdmins, id, gone);
  }

  lemma LastAdminConnection(s: State, id: nat)
    requires id in s.admins && |s.admins[id].fds| == 1 && RemovesAdmin(s.admins, id)
    ensures AdminDrop(DropAdminConnection(s, id, s.admins[id].fds[0]), id) == AdminDrop(s, id)
  {
    var fds := s.admins[id].fds;
    assert fds == [fds[0]];
    assert RemoveAll(s.admin, 0, fds) == RemoveAll(Remove(s.admin, 0, fds[0]), 0, fds[1..]);
    var t := DropAdminConnection(s, id, fds[0]);
    assert RemoveAll(t.admin, 0, []) == t.admin;
    SameFirst(s.admins, t.admins, id, 0);
    assert Forget(t.admins, id) == Forget(s.admins, id);
    assert Without(t.conns, []) == Without(s.conns, fds);
  }

  lemma {:induction false} SameFirst(admins: map<nat, Client>, changed: map<nat, Client>, id: nat, i: nat)
    requires id in admins && i <= id && changed.Keys == admins.Keys
    requires forall k :: k in admins ==> changed[k].adminId == admins[k].adminId
    ensures FirstAdmin(changed, id, i) == FirstAdmin(admins, id, i)
    decreases id - i
  {
    if i == id || (i in admins && admins[i].adminId == admins[id].adminId) {
    } else {
      SameFirst(admins, changed, id, i + 1);
    }
  }

  lemma RemoveAdminConnectionKeeps(c: Config, s: State, id: nat, fd: int)
    requires Agreement(c, s) && id in s.admins && fd in s.admins[id].fds
    requires |s.admins[id].fds| > 1 || RemovesAdmin(s.admins, id)
    ensures Agreement(c, RemoveAdminConnection(s, id, fd))
  {
    hide Agreement, DropAdminConnection, AdminDrop, RemovesAdmin;
    Administers(c, s, id);
    if |s.admins[id].fds| == 1 {
      LastAdminConnection(s, id);
      AdminDropKeeps(c, s, id);
    } else {
      DropAdminConnectionKeeps(c, s, id, fd);
    }
  }

  /** The admin that leaves the list instead of the one that ends keeps its entries in the array. */
  lemma WrongAdminBreaks(c: Config, s: State, r: State, id: nat, victim: nat)
    requires Agreement(c, s) && id in s.admins && victim in s.admins && victim != id
    requires victim !in r.admins
    requires forall k :: k in r.admins ==> k in s.admins && forall x :: x in r.admins[k].fds ==> x in s.admins[k].fds
    requires r.admin == RemoveAll(s.admin, 0, s.admins[id].fds)
    ensures !Agreement(c, r)
  {
    hide HoldOk, ClientsOk, Members, IdsOk, Partition, ConnsOk, UniqueSessions, RemoveAll, Lists;
    Administers(c, s, victim);
    Administers(c, s, id);
    var fd, gone := s.admins[victim].fds[0], set x | x in s.admins[id].fds;
    assert fd in s.admins[victim].fds;
    RemoveAllLists(s.admin, [], Members(s.admins), s.admins[id].fds);
    Listed(r.admin, Members(s.admins) - gone, fd);
    if Agreement(c, r) {
      Listed(r.admin, Members(r.admins), fd);
      var k := MemberOf(r.admins, fd);
      assert false;
    }
  }

  lemma Listed(t: Table, fds: set<int>, fd: int)
    requires Lists(t, [], fds) && fd != FREE
    ensures fd in t.slots <==> fd in fds
  {
  }

  lemma MemberOf(registered: map<nat, Client>, fd: int) returns (k: nat)
    requires fd in Members(registered)
    ensures k in registered && fd in registered[k].fds
  {
    k :| k in registered && fd in registered[k].fds;
  }

  lemma AdminDropBreaks(c: Config, s: State, id: nat)
    requires Agreement(c, s) && id in s.admins && !RemovesAdmin(s.admins, id)
    ensures !Agreement(c, AdminDrop(s, id))
  {
    hide Agreement, RemoveAll;
    WrongAdminBreaks(c, s, AdminDrop(s, id), id, FirstAdmin(s.admins, id, 0));
  }

  lemma RemoveAdminConnectionBreaks(c: Config, s: State, id: nat, fd: int)
    requires Agreement(c, s) && id in s.admins && fd in s.admins[id].fds
    requires |s.admins[id].fds| <= 1 && !RemovesAdmin(s.admins, id)
    ensures !Agreement(c, RemoveAdminConnection(s, id, fd))
  {
    hide Agreement, Remove;
    Administers(c, s, id);
    var fds := s.admins[id].fds;
    var t := DropAdminConnection(s, id, fds[0]);
    SameFirst(s.admins, t.admins, id, 0);
    assert fds == [fds[0]] && fds[1..] == [];
    assert RemoveAll(s.admin, 0, fds) == RemoveAll(Remove(s.admin, 0, fds[0]), 0, []) == t.admin;
    assert t.admins[id].fds == [];
    WrongAdminBreaks(c, s, RemoveAdminConnection(s, id, fd), id, FirstAdmin(s.admins, id, 0));
  }
}
