/** What each event does to whom, on one map from descriptors to places: the redundant structures of
    the registry, in agreement, behave like it. */
module Effects {
  import opened Header
  import opened PollTables
  import opened Registry
  import opened RegistryAgreement
  import opened Lifecycle

  /** Where an open connection is: on hold, with its counters, or with a client or an admin. */
  datatype Place = Kept(authTries: int, badPackets: int) | Owned(admin: bool, id: nat)

  ghost function PlaceOf(s: State, fd: int): Place
    requires fd in s.conns
  {
    if fd in s.holdMap then Kept(s.conns[fd].authTries, s.conns[fd].badPackets)
    else if fd in s.clientOf then Owned(false, s.clientOf[fd])
    else if AdminOf(s.admins, fd).Some? then Owned(true, AdminOf(s.admins, fd).value)
    else Owned(true, 0)
  }

  ghost function Places(s: State): map<int, Place> {
    map fd | fd in s.conns :: PlaceOf(s, fd)
  }

  // -------------------------------------------------------------------------------------- tokens

  /** The string that a C string function reads from a buffer. */
  predicate IsString(data: seq<byte>, t: Session) {
    && t <= data && 0 !in t
    && (|t| < |data| ==> data[|t|] == 0)
  }

  /** Token is that string. */
  lemma {:induction false} TokenIsString(data: seq<byte>)
    ensures IsString(data, Token(data))
  {
    if data == [] || data[0] == 0 {
    } else {
      TokenIsString(data[1..]);
      var rest := Token(data[1..]);
      assert Token(data) == [data[0]] + rest;
      assert data == [data[0]] + data[1..];
      assert 0 !in [data[0]];
    }
  }

  lemma LongerGoesOn(data: seq<byte>, t: Session, u: Session)
    requires t <= data && u <= data && 0 !in u && |t| < |u|
    ensures data[|t|] != 0
  {
    assert data[|t|] == u[|t|] && u[|t|] in u;
  }

  lemma StringIsUnique(data: seq<byte>, t: Session, u: Session)
    requires IsString(data, t) && IsString(data, u)
    ensures t == u
  {
    if |t| < |u| {
      LongerGoesOn(data, t, u);
    } else if |u| < |t| {
      LongerGoesOn(data, u, t);
    }
  }

  /** What a client sends as its token. */
  function Padded(session: Session): (data: seq<byte>)
    requires |session| < TOKEN_SIZE
    ensures |data| == TOKEN_SIZE
  {
    session + seq(TOKEN_SIZE - |session|, _ => 0)
  }

  lemma TokenOfPadded(session: Session)
    requires |session| < TOKEN_SIZE && 0 !in session
    ensures Token(Padded(session)) == session
  {
    TokenIsString(Padded(session));
    assert IsString(Padded(session), session);
    StringIsUnique(Padded(session), session, Token(Padded(session)));
  }

  // --------------------------------------------------------------------------------------- places

  /** The place of a connection, read off any of the structures. */
  lemma PlaceIs(c: Config, s: State, fd: int)
    requires Agreement(c, s) && fd in s.conns
    ensures fd in s.holdMap ==> PlaceOf(s, fd) == Kept(s.conns[fd].authTries, s.conns[fd].badPackets)
    ensures fd in s.clientOf ==> PlaceOf(s, fd) == Owned(false, s.clientOf[fd])
    ensures forall id :: id in s.admins && fd in s.admins[id].fds ==> PlaceOf(s, fd) == Owned(true, id)
    ensures fd in s.holdMap || fd in s.clientOf || exists id :: id in s.admins && fd in s.admins[id].fds
  {
    hide Agreement;
    OnePlace(c, s, fd);
    forall id | id in s.admins && fd in s.admins[id].fds ensures PlaceOf(s, fd) == Owned(true, id) {
      SoleAdminOf(c, s, id, fd);
    }
  }

  lemma SoleAdminOf(c: Config, s: State, id: nat, fd: int)
    requires Agreement(c, s) && id in s.admins && fd in s.admins[id].fds
    ensures fd in Members(s.admins) && AdminOf(s.admins, fd) == Some(id)
  {
    hide HoldOk, ClientsOk, ConnsOk, IdsOk, Partition, Lists;
  }

  /** Nothing has happened to x in the map of the clients and the lists of the admins. */
  ghost predicate Unmoved(s: State, r: State, x: int) {
    && (x in r.clientOf <==> x in s.clientOf) && (x in s.clientOf ==> r.clientOf[x] == s.clientOf[x])
    && (forall k :: k in r.admins && x in r.admins[k].fds ==> k in s.admins && x in s.admins[k].fds)
    && (forall k :: k in s.admins && x in s.admins[k].fds ==> k in r.admins && x in r.admins[k].fds)
  }

  /** A connection to which nothing has happened is where it was. */
  lemma SamePlace(c: Config, s: State, r: State, x: int)
    requires Agreement(c, s) && Agreement(c, r) && x in s.conns && SameFor(s, r, x) && Unmoved(s, r, x)
    ensures x in r.conns && PlaceOf(r, x) == PlaceOf(s, x)
  {
    hide Agreement;
    PlaceIs(c, s, x);
    PlaceIs(c, r, x);
  }

  /** If nothing happens to any connection but fd, the places change at fd alone. */
  lemma PlacesBut(c: Config, s: State, r: State, fd: int)
    requires Agreement(c, s) && Agreement(c, r)
    requires forall x :: x != fd ==> SameFor(s, r, x) && Unmoved(s, r, x)
    ensures Places(r) - {fd} == Places(s) - {fd}
  {
    hide Agreement, SameFor, Unmoved;
    forall x | x != fd ensures (x in s.conns <==> x in r.conns) && (x in s.conns ==> PlaceOf(r, x) == PlaceOf(s, x)) {
      SameForConns(s, r, x);
      if x in s.conns {
        SamePlace(c, s, r, x);
      }
    }
    assert (Places(r) - {fd}).Keys == (Places(s) - {fd}).Keys;
  }

  lemma SameForConns(s: State, r: State, x: int)
    requires SameFor(s, r, x)
    ensures x in s.conns <==> x in r.conns
  {
  }

  // ---------------------------------------------------------------------- events that end connections

  /** A failed receive of a connection on hold closes it. */
  lemma HoldFailedCloses(c: Config, s: State, fd: int)
    requires c.Sane() && Agreement(c, s) && Possible(c, s, HoldFailed(fd))
    ensures var r := Step(c, s, HoldFailed(fd));
      && Agreement(c, r) && fd in s.holdMap
      && r.conns.Keys == s.conns.Keys - {fd} && r.holdMap == s.holdMap - {fd}
      && Places(r) == Places(s) - {fd}
  {
    hide Agreement, Remove;
    var e := HoldFailed(fd);
    var r := Step(c, s, e);
    StepKeeps(c, s, e);
    HeldInSlots(c, s, fd);
    forall x | x != fd ensures SameFor(s, r, x) && Unmoved(s, r, x) {
      DropFrame(s, fd, x);
    }
    PlacesBut(c, s, r, fd);
    assert r.conns.Keys == s.conns.Keys - {fd};
    assert fd !in Places(r);
    assert Places(r) - {fd} == Places(r);
  }

  /** Some connections have been closed, and nothing else has changed. */
  ghost predicate Ended(s: State, r: State, gone: set<int>) {
    && r.conns.Keys == s.conns.Keys - gone && r.holdMap == s.holdMap
    && (forall x :: x in r.conns ==> r.conns[x] == s.conns[x])
    && (forall x :: x !in gone ==> Unmoved(s, r, x))
  }

  lemma EndedPlaces(c: Config, s: State, r: State, gone: set<int>)
    requires Agreement(c, s) && Agreement(c, r) && Ended(s, r, gone)
    ensures Places(r) == Places(s) - gone
  {
    hide Agreement, Unmoved;
    forall x | x in r.conns ensures PlaceOf(r, x) == PlaceOf(s, x) {
      assert SameFor(s, r, x);
      SamePlace(c, s, r, x);
    }
    assert Places(r).Keys == (Places(s) - gone).Keys;
  }

  lemma DropConnectionEnds(s: State, id: nat, fd: int)
    requires id in s.clients
    ensures Ended(s, DropConnection(s, id, fd), {fd})
  {
    hide Remove, RemoveFirst;
    assert DropConnection(s, id, fd).conns.Keys == s.conns.Keys - {fd};
  }

  lemma RemoveClientEnds(c: Config, s: State, t: State, id: nat, session: Option<Session>, gone: set<int>)
    requires Ended(s, t, gone)
    ensures Ended(s, RemoveClient(c, t, id, session), gone)
  {
    hide Equals, Forget;
  }

  /** Closing a connection of a client closes that connection. */
  lemma CloseConnectionCloses(c: Config, s: State, fd: int)
    requires c.Sane() && Agreement(c, s) && Possible(c, s, CloseConnection(fd)) && Picks(c, s, CloseConnection(fd))
    ensures var r := Step(c, s, CloseConnection(fd));
      && Agreement(c, r) && r.conns.Keys == s.conns.Keys - {fd} && Places(r) == Places(s) - {fd}
  {
    hide Agreement, DropConnection, RemoveClient, Ended, Picks;
    var e := CloseConnection(fd);
    StepKeeps(c, s, e);
    InMain(c, s, fd);
    var id := s.clientOf[fd];
    var Client(session, fds, _) := s.clients[id];
    DropConnectionEnds(s, id, fd);
    if |fds| == 1 {
      RemoveClientEnds(c, s, DropConnection(s, id, fd), id, session, {fd});
    }
    EndedPlaces(c, s, Step(c, s, e), {fd});
    EndedKeys(s, Step(c, s, e), {fd});
  }

  lemma EndedKeys(s: State, r: State, gone: set<int>)
    requires Ended(s, r, gone)
    ensures r.conns.Keys == s.conns.Keys - gone
  {
  }

  lemma ClientDropEnds(c: Config, s: State, id: nat, gone: set<int>)
    requires id in s.clients && gone == set x | x in s.clients[id].fds
    ensures Ended(s, ClientDrop(c, s, id), gone)
  {
    hide RemoveAll, Equals, Forget;
    assert ClientDrop(c, s, id).conns.Keys == s.conns.Keys - gone;
  }

  /** The connections that belong to the same client or admin as fd. */
  ghost function Siblings(s: State, fd: int): set<int>
    requires fd in s.conns
  {
    set x | x in s.conns && PlaceOf(s, x) == PlaceOf(s, fd)
  }

  /** A disconnect closes the connections of the client, all of them and no other. */
  lemma DisconnectCloses(c: Config, s: State, fd: int)
    requires c.Sane() && Agreement(c, s) && Possible(c, s, Disconnect(fd)) && Picks(c, s, Disconnect(fd))
    ensures fd in s.conns
    ensures var r := Step(c, s, Disconnect(fd));
      && Agreement(c, r) && r.conns.Keys == s.conns.Keys - Siblings(s, fd) && Places(r) == Places(s) - Siblings(s, fd)
  {
    hide Agreement, ClientDrop, Ended, Picks;
    var e := Disconnect(fd);
    StepKeeps(c, s, e);
    InMain(c, s, fd);
    var id := s.clientOf[fd];
    var gone := set x | x in s.clients[id].fds;
    IsServed(c, s, id);
    forall x ensures x in gone <==> x in Siblings(s, fd) {
      ClientSibling(c, s, fd, x);
    }
    assert gone == Siblings(s, fd);
    ClientDropEnds(c, s, id, gone);
    EndedPlaces(c, s, Step(c, s, e), gone);
    EndedKeys(s, Step(c, s, e), gone);
  }

  lemma ClientSibling(c: Config, s: State, fd: int, x: int)
    requires Agreement(c, s) && fd in s.clientOf && fd in s.conns && s.clientOf[fd] in s.clients
    ensures x in s.clients[s.clientOf[fd]].fds <==> x in s.conns && PlaceOf(s, x) == PlaceOf(s, fd)
  {
    hide Agreement;
    var id := s.clientOf[fd];
    PlaceIs(c, s, fd);
    IsServed(c, s, id);
    if x in s.conns {
      PlaceIs(c, s, x);
      if x in s.clientOf {
        var k, i := ServedBy(c, s, x);
        OneClient(c, s, k, i, x);
      }
    }
  }

  lemma DropAdminConnectionEnds(c: Config, s: State, id: nat, fd: int)
    requires Agreement(c, s) && id in s.admins && fd in s.admins[id].fds
    ensures Ended(s, DropAdminConnection(s, id, fd), {fd})
  {
    hide Remove, HoldOk, ClientsOk, Members, ConnsOk, IdsOk, Partition, Lists, UniqueSessions;
    var r := DropAdminConnection(s, id, fd);
    RemoveFirstIs(s.admins[id].fds, fd);
    assert r.conns.Keys == s.conns.Keys - {fd};
  }

  /** The list loses an admin whose connections have been closed. */
  lemma ForgetAdminEnds(s: State, r: State, id: nat, gone: set<int>)
    requires id in s.admins && gone == set x | x in s.admins[id].fds
    requires r.clientOf == s.clientOf && r.holdMap == s.holdMap && r.admins == Forget(s.admins, id)
    requires r.conns.Keys == s.conns.Keys - gone && forall x :: x in r.conns ==> r.conns[x] == s.conns[x]
    ensures Ended(s, r, gone)
  {
  }

  lemma AdminDropEnds(s: State, id: nat, gone: set<int>)
    requires id in s.admins && gone == (set x | x in s.admins[id].fds) && RemovesAdmin(s.admins, id)
    ensures Ended(s, AdminDrop(s, id), gone)
  {
    hide RemoveAll, Ended;
    var r := AdminDrop(s, id);
    assert r.conns.Keys == s.conns.Keys - gone;
    ForgetAdminEnds(s, r, id, gone);
  }

  /** Closing a connection of an admin closes that connection. */
  lemma AdminCloseCloses(c: Config, s: State, fd: int)
    requires c.Sane() && Agreement(c, s) && Possible(c, s, AdminClose(fd)) && Picks(c, s, AdminClose(fd))
    ensures var r := Step(c, s, AdminClose(fd));
      && Agreement(c, r) && r.conns.Keys == s.conns.Keys - {fd} && Places(r) == Places(s) - {fd}
  {
    hide Agreement, DropAdminConnection, AdminDrop, Ended;
    var e := AdminClose(fd);
    StepKeeps(c, s, e);
    InAdmin(c, s, fd);
    var id := AdminOf(s.admins, fd).value;
    Administers(c, s, id);
    if |s.admins[id].fds| == 1 {
      LastAdminConnection(s, id);
      assert s.admins[id].fds == [fd];
      AdminDropEnds(s, id, {fd});
    } else {
      DropAdminConnectionEnds(c, s, id, fd);
    }
    EndedPlaces(c, s, Step(c, s, e), {fd});
    EndedKeys(s, Step(c, s, e), {fd});
  }

  /** A disconnect of an admin closes the connections of the admin, all of them and no other. */
  lemma AdminDisconnectCloses(c: Config, s: State, fd: int)
    requires c.Sane() && Agreement(c, s) && Possible(c, s, AdminDisconnect(fd)) && Picks(c, s, AdminDisconnect(fd))
    ensures fd in s.conns
    ensures var r := Step(c, s, AdminDisconnect(fd));
      && Agreement(c, r) && r.conns.Keys == s.conns.Keys - Siblings(s, fd) && Places(r) == Places(s) - Siblings(s, fd)
  {
    hide Agreement, AdminDrop, Ended;
    var e := AdminDisconnect(fd);
    StepKeeps(c, s, e);
    InAdmin(c, s, fd);
    var id := AdminOf(s.admins, fd).value;
    var gone := set x | x in s.admins[id].fds;
    Administers(c, s, id);
    forall x ensures x in gone <==> x in Siblings(s, fd) {
      AdminSibling(c, s, id, fd, x);
    }
    assert gone == Siblings(s, fd);
    AdminDropEnds(s, id, gone);
    EndedPlaces(c, s, Step(c, s, e), gone);
    EndedKeys(s, Step(c, s, e), gone);
  }

  lemma AdminSibling(c: Config, s: State, id: nat, fd: int, x: int)
    requires Agreement(c, s) && fd in s.conns && id in s.admins && fd in s.admins[id].fds
    ensures x in s.admins[id].fds <==> x in s.conns && PlaceOf(s, x) == PlaceOf(s, fd)
  {
    hide Agreement;
    PlaceIs(c, s, fd);
    Administers(c, s, id);
    if x in s.conns {
      PlaceIs(c, s, x);
    }
  }

  // ------------------------------------------------------------------------ events that bring some

  /** A new connection is put on hold, with two tries and no bad packet, or refused when there is no
      room; without authentication it is the connection of a new client. */
  lemma AcceptPlaces(c: Config, s: State, fd: int)
    requires c.Sane() && Agreement(c, s) && Possible(c, s, Accept(fd))
    ensures var r := Step(c, s, Accept(fd));
      && Agreement(c, r)
      && Places(r) == (if !c.authRequired then Places(s)[fd := Owned(false, s.nextId)]
                       else if FREE in s.hold.slots then Places(s)[fd := Kept(2, 0)]
                       else Places(s))
      && (!c.authRequired ==> r.clients == s.clients[s.nextId := Client(None, [fd], 0)])
      && (c.authRequired ==> r.clients == s.clients) && r.admins == s.admins
  {
    hide Agreement, AcceptNew, SameFor, Unmoved, Places, PlaceOf;
    var r := Step(c, s, Accept(fd));
    AcceptKeeps(c, s, fd);
    NotOpen(c, s, fd);
    AcceptDoes(c, s, fd);
    forall x | x != fd ensures SameFor(s, r, x) && Unmoved(s, r, x) {
      AcceptOther(c, s, fd, x);
      AcceptMoves(c, s, fd, x);
    }
    PlacesBut(c, s, r, fd);
    PlacesAt(c, s, r, fd);
    if fd in r.conns {
      PlaceIs(c, r, fd);
    }
    NotPlaced(s, fd);
  }

  lemma NotPlaced(s: State, fd: int)
    requires fd !in s.conns
    ensures Places(s) - {fd} == Places(s)
  {
    assert (Places(s) - {fd}).Keys == Places(s).Keys;
  }

  lemma AcceptMoves(c: Config, s: State, fd: int, x: int)
    requires x != fd && fd !in s.clientOf
    ensures Unmoved(s, AcceptNew(c, s, fd), x)
  {
    hide Add;
  }

  lemma AcceptDoes(c: Config, s: State, fd: int)
    requires fd !in s.conns && fd !in s.clientOf && fd !in s.holdMap
    ensures var r := AcceptNew(c, s, fd);
      && r.admins == s.admins
      && (if !c.authRequired then
            && fd in r.conns && r.clientOf == s.clientOf[fd := s.nextId] && r.holdMap == s.holdMap
            && r.clients == s.clients[s.nextId := Client(None, [fd], 0)]
          else
            && r.clients == s.clients && r.clientOf == s.clientOf
            && (fd in r.conns <==> FREE in s.hold.slots) && (FREE in s.hold.slots ==> fd in r.holdMap)
            && (FREE in s.hold.slots ==> r.conns[fd] == Conn(2, 0)))
  {
    hide Add;
  }

  /** From the places of all others to all places. */
  lemma PlacesAt(c: Config, s: State, r: State, fd: int)
    requires Places(r) - {fd} == Places(s) - {fd}
    ensures fd in r.conns ==> Places(r) == Places(s)[fd := PlaceOf(r, fd)]
    ensures fd !in r.conns ==> Places(r) == Places(s) - {fd}
  {
    assert forall x :: x in Places(r) && x != fd ==> x in Places(r) - {fd};
    assert forall x :: x in Places(s) && x != fd ==> x in Places(s) - {fd};
    assert forall x :: x in Places(s) - {fd} ==> (Places(s) - {fd})[x] == Places(s)[x] && x in Places(r) - {fd};
    assert forall x :: x in Places(r) - {fd} ==> (Places(r) - {fd})[x] == Places(r)[x] && x in Places(s) - {fd};
  }

  // ------------------------------------------------------------------------------- packets on hold

  /** One more bad packet: dropped when there are as many as are allowed. */
  function AfterBad(c: Config, conn: Conn): Option<Place> {
    if conn.badPackets + 1 < c.maxBadPackets then Some(Kept(conn.authTries, conn.badPackets + 1)) else None
  }

  /** One more failed authentication: dropped when no try is left. The bad packets stay. */
  function AfterFailure(conn: Conn): Option<Place> {
    if conn.authTries > 1 then Some(Kept(conn.authTries - 1, conn.badPackets)) else None
  }

  /** Where an auth packet with data leads to; None is closed. */
  ghost predicate AuthLeads(
      c: Config, s: State, conn: Conn, asAdmin: bool, data: seq<byte>, v: Verdict, q: Option<Place>)
  {
    var registered := if asAdmin then s.admins else s.clients;
    if !(if asAdmin then c.admin && c.adminAuthenticate else c.authenticate) then
      q == None
    else if c.useSessions && |data| == 256 then
      // a token: it joins whoever has the session it spells, and fails when nobody has
      && (forall id, t :: id in registered && registered[id].session == Some(t) && IsString(data, t) ==>
            q == Some(Owned(asAdmin, id)))
      && ((forall id, t :: id in registered && registered[id].session == Some(t) ==> !IsString(data, t)) ==>
            q == AfterFailure(conn))
    else if !v.accepted then
      q == AfterFailure(conn)
    else if c.useSessions && v.session.None? then
      q == None
    else if asAdmin && FREE !in s.admin.slots then
      q == None
    else
      q == Some(Owned(asAdmin, s.nextId))
  }

  /** Where a packet of a connection on hold leads to. */
  ghost predicate Leads(c: Config, s: State, fd: int, p: Packet, v: Verdict, q: Option<Place>)
    requires fd in s.conns
  {
    var conn := s.conns[fd];
    match p
    case TestPacket => q == Some(Kept(conn.authTries, conn.badPackets))
    case OtherPacket => q == AfterBad(c, conn)
    case AuthPacket(request, data) =>
      if data == [] then q == AfterBad(c, conn) else
      match request
      case ClientAuth => AuthLeads(c, s, conn, false, data, v, q)
      case AdminAuth => AuthLeads(c, s, conn, true, data, v, q)
      case UnknownRequest => q == AfterBad(c, conn)
  }

  /** The place that an outcome comes to. */
  ghost function OutcomePlace(c: Config, s: State, conn: Conn, o: Outcome): Option<Place> {
    match o
    case Ignored => Some(Kept(conn.authTries, conn.badPackets))
    case Bad => AfterBad(c, conn)
    case Failed => AfterFailure(conn)
    case Refused => None
    case NoSession => None
    case New(admin) => if admin && FREE !in s.admin.slots then None else Some(Owned(admin, s.nextId))
    case Join(admin, id) => Some(Owned(admin, id))
  }

  lemma TryLeads(c: Config, s: State, conn: Conn, asAdmin: bool, data: seq<byte>, v: Verdict)
    requires UniqueSessions(s.clients) && UniqueSessions(s.admins)
    requires if asAdmin then c.admin && c.adminAuthenticate else c.authenticate
    ensures AuthLeads(c, s, conn, asAdmin, data, v,
                      OutcomePlace(c, s, conn, Try(c, if asAdmin then s.admins else s.clients, asAdmin, data, v)))
  {
    var registered := if asAdmin then s.admins else s.clients;
    if c.useSessions && |data| == 256 {
      TokenIsString(data);
      var token, owner := Token(data), Owner(registered, Token(data));
      forall id, t | id in registered && registered[id].session == Some(t) && IsString(data, t)
        ensures owner == Some(id)
      {
        StringIsUnique(data, t, token);
      }
      if owner.Some? {
        assert registered[owner.value].session == Some(token) && IsString(data, token);
      }
    }
  }

  lemma DecideLeads(c: Config, s: State, fd: int, p: Packet, v: Verdict)
    requires UniqueSessions(s.clients) && UniqueSessions(s.admins) && fd in s.conns
    ensures Leads(c, s, fd, p, v, OutcomePlace(c, s, s.conns[fd], Decide(c, s, p, v)))
  {
    hide Try, UniqueSessions, AfterBad, AfterFailure;
    if p.AuthPacket? && p.data != [] {
      if p.request.ClientAuth? && c.authenticate {
        TryLeads(c, s, s.conns[fd], false, p.data, v);
      } else if p.request.AdminAuth? && c.admin && c.adminAuthenticate {
        TryLeads(c, s, s.conns[fd], true, p.data, v);
      }
    }
  }

  lemma UnmovedByHold(c: Config, s: State, fd: int, x: int)
    ensures Unmoved(s, HoldDrop(s, fd), x)
    ensures fd in s.conns ==>
              Unmoved(s, BadPacket(c, s, fd), x) && Unmoved(s, AuthFailed(s, fd), x) && Unmoved(s, Authenticated(s, fd), x)
  {
    hide Remove;
  }

  lemma UnmovedByRegister(c: Config, t: State, id: nat, client: Client, fd: int, x: int)
    requires x != fd && client.fds == [fd] && id !in t.admins
    ensures Unmoved(t, RegisterClient(c, t, id, client, fd), x) && Unmoved(t, RegisterAdmin(t, id, client, fd), x)
  {
    hide Add, Remove, Equals, Forget;
  }

  lemma UnmovedByJoin(t: State, id: nat, fd: int, x: int)
    requires x != fd
    ensures id in t.clients ==> Unmoved(t, JoinClient(t, id, fd), x)
    ensures id in t.admins ==> Unmoved(t, JoinAdmin(t, id, fd), x)
  {
    hide Add;
  }

  /** A packet moves nobody but its sender. */
  lemma UnmovedByPacket(c: Config, s: State, fd: int, p: Packet, v: Verdict, x: int)
    requires fd in s.conns && x != fd && s.nextId !in s.admins
    ensures Unmoved(s, HandleOnHold(c, s, fd, p, v), x)
  {
    hide Unmoved, Decide, Owner, HoldDrop, BadPacket, AuthFailed, Authenticated, RegisterClient, RegisterAdmin,
         JoinClient, JoinAdmin;
    var r, t := HandleOnHold(c, s, fd, p, v), Authenticated(s, fd);
    UnmovedByHold(c, s, fd, x);
    AuthenticatedFrame(s, fd);
    match Decide(c, s, p, v)
    case Ignored => UnmovedThrough(s, s, r, x);
    case Bad =>
    case Failed =>
    case Refused =>
    case NoSession => UnmovedThrough(s, HoldDrop(s, fd), r, x);
    case New(admin) =>
      var u := t.(nextId := s.nextId + 1);
      UnmovedByRegister(c, u, s.nextId, Newcomer(c, admin, v, fd), fd, x);
      UnmovedFrom(s, u, r, x);
    case Join(admin, id) =>
      JoinIsKnown(c, s, p, v);
      UnmovedByJoin(t, id, fd, x);
      UnmovedFrom(s, t, r, x);
  }

  lemma UnmovedThrough(s: State, t: State, r: State, x: int)
    requires s == t || Unmoved(s, t, x)
    requires r.clientOf == t.clientOf && r.admins == t.admins
    ensures Unmoved(s, r, x)
  {
  }

  lemma UnmovedFrom(s: State, t: State, r: State, x: int)
    requires t.clientOf == s.clientOf && t.admins == s.admins && Unmoved(t, r, x)
    ensures Unmoved(s, r, x)
  {
  }

  /** What an outcome does to its connection. */
  lemma OutcomeDoes(c: Config, s: State, fd: int, p: Packet, v: Verdict)
    requires c.Sane() && Agreement(c, s) && fd in s.holdMap && fd in s.conns
    requires Agreement(c, HandleOnHold(c, s, fd, p, v))
    requires Decide(c, s, p, v).Join? && Decide(c, s, p, v).admin ==> FREE in s.admin.slots
    ensures var r := HandleOnHold(c, s, fd, p, v);
            var q := OutcomePlace(c, s, s.conns[fd], Decide(c, s, p, v));
            if q.None? then fd !in r.conns else fd in r.conns && PlaceOf(r, fd) == q.value
  {
    hide Agreement, Decide, Owner, HoldDrop, Authenticated, RegisterClient, RegisterAdmin, JoinClient, JoinAdmin;
    var r, t := HandleOnHold(c, s, fd, p, v), Authenticated(s, fd);
    ConnIsOk(c, s, fd);
    OnePlace(c, s, fd);
    HeldInSlots(c, s, fd);
    DropFrame(s, fd, fd);
    AuthenticatedOnly(s, fd, fd);
    AuthenticatedFrame(s, fd);
    JoinIsKnown(c, s, p, v);
    match Decide(c, s, p, v)
    case Ignored =>
    case Bad =>
    case Failed =>
    case Refused =>
    case NoSession =>
    case New(admin) =>
      NewDoes(c, s, t.(nextId := s.nextId + 1), s.nextId, Newcomer(c, admin, v, fd), fd, admin);
    case Join(admin, id) =>
      JoinDoes(c, t, id, fd, admin);
  }

  lemma NewDoes(c: Config, s: State, t: State, id: nat, client: Client, fd: int, admin: bool)
    requires fd in t.conns && client.fds == [fd] && fd !in t.clientOf && fd !in t.holdMap
    requires t.admin == s.admin
    requires Agreement(c, if admin then RegisterAdmin(t, id, client, fd) else RegisterClient(c, t, id, client, fd))
    ensures var r := if admin then RegisterAdmin(t, id, client, fd) else RegisterClient(c, t, id, client, fd);
      if admin && FREE !in s.admin.slots then fd !in r.conns
      else fd in r.conns && PlaceOf(r, fd) == Owned(admin, id)
  {
    hide Agreement, PlaceOf, RegisterAdmin, RegisterClient;
    var r := if admin then RegisterAdmin(t, id, client, fd) else RegisterClient(c, t, id, client, fd);
    RegisterFrame(c, t, id, client, fd, fd);
    RegisteredAt(c, t, id, client, fd);
    if fd in r.conns {
      PlaceIs(c, r, fd);
    }
  }

  lemma JoinDoes(c: Config, t: State, id: nat, fd: int, admin: bool)
    requires fd in t.conns && fd !in t.clientOf && fd !in t.holdMap
    requires if admin then id in t.admins else id in t.clients
    requires Agreement(c, if admin then JoinAdmin(t, id, fd) else JoinClient(t, id, fd))
    ensures var r := if admin then JoinAdmin(t, id, fd) else JoinClient(t, id, fd);
      fd in r.conns && PlaceOf(r, fd) == Owned(admin, id)
  {
    hide Agreement, PlaceOf, JoinAdmin, JoinClient;
    var r := if admin then JoinAdmin(t, id, fd) else JoinClient(t, id, fd);
    JoinFrame(t, id, fd);
    JoinedAt(t, id, fd);
    PlaceIs(c, r, fd);
    assert admin ==> id in r.admins;
  }

  /** Where registering puts a connection. */
  lemma RegisteredAt(c: Config, t: State, id: nat, client: Client, fd: int)
    requires client.fds == [fd] && fd !in t.clientOf
    ensures var r := RegisterClient(c, t, id, client, fd);
      fd in r.clientOf && r.clientOf[fd] == id && r.clients == t.clients[id := client] && r.admins == t.admins
    ensures FREE in t.admin.slots ==>
              var r := RegisterAdmin(t, id, client, fd);
              r.admins == t.admins[id := client] && fd in r.admins[id].fds && r.clients == t.clients
  {
    hide Add, Remove, Equals, Forget;
  }

  lemma JoinedAt(t: State, id: nat, fd: int)
    ensures id in t.clients && fd !in t.clientOf ==>
              var r := JoinClient(t, id, fd);
              fd in r.clientOf && r.clientOf[fd] == id && r.clients[id].fds == t.clients[id].fds + [fd]
    ensures id in t.admins ==>
              var r := JoinAdmin(t, id, fd);
              id in r.admins && r.admins[id].fds == t.admins[id].fds + [fd] && fd in r.admins[id].fds
  {
    hide Add;
  }

  /** A packet of a connection on hold takes it to where it leads, and nobody else anywhere. */
  lemma PacketPlaces(c: Config, s: State, fd: int, p: Packet, v: Verdict) returns (q: Option<Place>)
    requires c.Sane() && Agreement(c, s) && fd in s.holdMap
    requires Possible(c, s, OnHold(fd, p, v)) && Safe(c, s, OnHold(fd, p, v))
    ensures fd in s.conns && Leads(c, s, fd, p, v, q)
    ensures var r := Step(c, s, OnHold(fd, p, v));
      && Agreement(c, r)
      && Places(r) == match q { case Some(place) => Places(s)[fd := place] case None => Places(s) - {fd} }
  {
    hide Agreement, HandleOnHold, Decide, SameFor, Unmoved, Leads, OutcomePlace;
    var r := HandleOnHold(c, s, fd, p, v);
    HeldIsOpen(c, s, fd);
    StepKeeps(c, s, OnHold(fd, p, v));
    FreshId(c, s);
    Sessions(c, s);
    q := OutcomePlace(c, s, s.conns[fd], Decide(c, s, p, v));
    DecideLeads(c, s, fd, p, v);
    forall x | x != fd ensures SameFor(s, r, x) && Unmoved(s, r, x) {
      OthersStay(c, s, fd, p, v, x);
      UnmovedByPacket(c, s, fd, p, v, x);
    }
    PlacesBut(c, s, r, fd);
    PlacesAt(c, s, r, fd);
    OutcomeDoes(c, s, fd, p, v);
  }

  lemma Sessions(c: Config, s: State)
    requires Agreement(c, s)
    ensures UniqueSessions(s.clients) && UniqueSessions(s.admins)
  {
    hide HoldOk, Members, ConnsOk, IdsOk, Partition, Lists, Maps, Groups;
  }

  /** The law of tokens: whoever sends the session id of a registered client, padded to the size of a
      token, while on hold, has joined that client. */
  lemma TokenJoins(c: Config, s: State, fd: int, id: nat, session: Session, v: Verdict)
    requires c.Sane() && c.useSessions && c.authenticate && Agreement(c, s) && fd in s.holdMap
    requires id in s.clients && s.clients[id].session == Some(session) && |session| < TOKEN_SIZE && 0 !in session
    requires Possible(c, s, OnHold(fd, AuthPacket(ClientAuth, Padded(session)), v))
    ensures var r := Step(c, s, OnHold(fd, AuthPacket(ClientAuth, Padded(session)), v));
      && Places(r) == Places(s)[fd := Owned(false, id)]
      && id in r.clients && fd in r.clients[id].fds
  {
    hide Agreement, Step, Possible, Places, PlaceOf;
    var p := AuthPacket(ClientAuth, Padded(session));
    assert Decide(c, s, p, v).Join? ==> !Decide(c, s, p, v).admin;
    var q := PacketPlaces(c, s, fd, p, v);
    assert IsString(Padded(session), session);
    assert q == Some(Owned(false, id));
    var r := Step(c, s, OnHold(fd, p, v));
    OwnedIsListed(c, r, fd, id);
  }

  lemma OwnedIsListed(c: Config, s: State, fd: int, id: nat)
    requires Agreement(c, s) && fd in Places(s) && Places(s)[fd] == Owned(false, id)
    ensures id in s.clients && fd in s.clients[id].fds
  {
    hide Agreement;
    PlaceIs(c, s, fd);
    var k, i := ServedBy(c, s, fd);
    OneClient(c, s, k, i, fd);
  }

  /** What a new client or admin is registered with, and that nobody else changes. */
  lemma NewcomerIsRegistered(c: Config, s: State, fd: int, p: Packet, v: Verdict)
    requires c.Sane() && Agreement(c, s) && fd in s.holdMap && fd in s.conns
    requires Decide(c, s, p, v).New?
    ensures var r := HandleOnHold(c, s, fd, p, v);
            var newcomer := if c.useSessions then v.session else None;
      if Decide(c, s, p, v).admin then
        && r.clients == s.clients
        && r.admins == if FREE in s.admin.slots then s.admins[s.nextId := Client(newcomer, [fd], v.adminId)] else s.admins
      else
        && r.admins == s.admins
        && r.clients == s.clients[s.nextId := Client(newcomer, [fd], 0)]
  {
    hide Agreement, Decide, Authenticated, Add;
    OnePlace(c, s, fd);
    AuthenticatedFrame(s, fd);
  }

  /** A connection that is served has its bad packets forgiven and keeps its tries. */
  lemma BadPacketsAreReset(c: Config, s: State, fd: int, p: Packet, v: Verdict)
    requires Agreement(c, s) && fd in s.holdMap && fd in s.conns
    requires Served(HandleOnHold(c, s, fd, p, v), fd)
    ensures HandleOnHold(c, s, fd, p, v).conns[fd] == Conn(s.conns[fd].authTries, 0)
  {
    hide Agreement, Decide, Owner, HoldDrop, RegisterClient, RegisterAdmin, JoinClient, JoinAdmin;
    OutcomeServes(c, s, fd, p, v);
    OnePlace(c, s, fd);
    AuthenticatedFrame(s, fd);
    JoinIsKnown(c, s, p, v);
    var t := Authenticated(s, fd);
    match Decide(c, s, p, v)
    case Ignored =>
    case Bad =>
    case Failed =>
    case Refused =>
    case NoSession =>
    case New(admin) =>
      RegisterFrame(c, t.(nextId := s.nextId + 1), s.nextId, Newcomer(c, admin, v, fd), fd, fd);
    case Join(admin, id) =>
      JoinFrame(t, id, fd);
  }

  /** Sessions and admin ids are for life. */
  ghost predicate SameNames(before: map<nat, Client>, after: map<nat, Client>) {
    forall id :: id in before && id in after ==>
      after[id].session == before[id].session && after[id].adminId == before[id].adminId
  }

  lemma HoldClientsFrame(c: Config, s: State, fd: int)
    ensures HoldDrop(s, fd).clients == s.clients
    ensures fd in s.conns ==> BadPacket(c, s, fd).clients == AuthFailed(s, fd).clients == s.clients
  {
  }

  lemma RegisterKeepsNames(c: Config, t: State, id: nat, client: Client, fd: int)
    requires id !in t.clients && id !in t.admins
    ensures SameNames(t.clients, RegisterClient(c, t, id, client, fd).clients)
    ensures SameNames(t.admins, RegisterAdmin(t, id, client, fd).admins)
    ensures RegisterAdmin(t, id, client, fd).clients == t.clients
    ensures RegisterClient(c, t, id, client, fd).admins == t.admins
  {
    hide Add, Remove, Equals, Without;
  }

  lemma JoinKeepsNames(t: State, id: nat, fd: int)
    ensures id in t.clients ==>
              SameNames(t.clients, JoinClient(t, id, fd).clients) && JoinClient(t, id, fd).admins == t.admins
    ensures id in t.admins ==>
              SameNames(t.admins, JoinAdmin(t, id, fd).admins) && JoinAdmin(t, id, fd).clients == t.clients
  {
    hide Add;
  }

  lemma PacketKeepsNames(c: Config, s: State, fd: int, p: Packet, v: Verdict)
    requires fd in s.conns && s.nextId !in s.clients && s.nextId !in s.admins
    ensures SameNames(s.clients, HandleOnHold(c, s, fd, p, v).clients)
    ensures SameNames(s.admins, HandleOnHold(c, s, fd, p, v).admins)
  {
    hide SameNames, Decide, Owner, HoldDrop, BadPacket, AuthFailed, Authenticated, RegisterClient, RegisterAdmin,
         JoinClient, JoinAdmin;
    SameNamesSelf(s);
    HoldAdminsFrame(c, s, fd);
    HoldClientsFrame(c, s, fd);
    AuthenticatedFrame(s, fd);
    JoinIsKnown(c, s, p, v);
    var t := Authenticated(s, fd);
    match Decide(c, s, p, v)
    case Ignored =>
    case Bad =>
    case Failed =>
    case Refused =>
    case NoSession =>
    case New(admin) =>
      RegisterKeepsNames(c, t.(nextId := s.nextId + 1), s.nextId, Newcomer(c, admin, v, fd), fd);
    case Join(admin, id) =>
      JoinKeepsNames(t, id, fd);
  }

  lemma EndingKeepsNames(c: Config, s: State, id: nat, fd: int)
    ensures SameNames(s.clients, RemoveConnection(c, s, id, fd).clients)
    ensures SameNames(s.clients, ClientDrop(c, s, id).clients)
  {
    hide Remove, RemoveAll, RemoveFirst, Equals, Without;
  }

  lemma AdminDropKeepsNames(s: State, id: nat)
    ensures SameNames(s.admins, AdminDrop(s, id).admins) && AdminDrop(s, id).clients == s.clients
  {
    hide RemoveAll, Without;
  }

  lemma AdminEndingKeepsNames(s: State, id: nat, fd: int)
    ensures SameNames(s.admins, RemoveAdminConnection(s, id, fd).admins)
    ensures RemoveAdminConnection(s, id, fd).clients == s.clients
  {
    hide AdminDrop, Remove, RemoveFirst, Without;
    AdminDropKeepsNames(s, id);
    if id in s.admins && |s.admins[id].fds| == 1 {
      AdminDropKeepsNames(DropAdminConnection(s, id, s.admins[id].fds[0]), id);
    }
    AdminDropSmaller(s, id);
  }

  lemma AdminDropSmaller(s: State, id: nat)
    ensures id in s.admins && |s.admins[id].fds| == 1 ==>
              AdminDrop(DropAdminConnection(s, id, s.admins[id].fds[0]), id).admins.Keys <= s.admins.Keys
  {
    hide Remove, RemoveAll, RemoveFirst, Without;
  }

  /** No event renames a client or an admin. */
  lemma StepKeepsNames(c: Config, s: State, e: Event)
    requires Agreement(c, s) && Possible(c, s, e)
    ensures SameNames(s.clients, Step(c, s, e).clients) && SameNames(s.admins, Step(c, s, e).admins)
  {
    hide Agreement, SameNames, HandleOnHold, HoldDrop, AcceptNew, RemoveConnection, ClientDrop, RemoveAdminConnection, AdminDrop;
    FreshId(c, s);
    SameNamesSelf(s);
    match e
    case Accept(fd) =>
      NotOpen(c, s, fd);
      AcceptDoes(c, s, fd);
      SameNamesAdd(s, fd);
    case OnHold(fd, p, v) => PacketKeepsNames(c, s, fd, p, v);
    case HoldFailed(fd) => 
      HoldAdminsFrame(c, s, fd);
      HoldClientsFrame(c, s, fd);
    case CloseConnection(fd) =>
      if fd in s.clientOf {
        EndingKeepsNames(c, s, s.clientOf[fd], fd);
        EndingAdminsFrame(c, s, s.clientOf[fd], fd);
      }
    case Disconnect(fd) =>
      if fd in s.clientOf {
        EndingKeepsNames(c, s, s.clientOf[fd], fd);
        EndingAdminsFrame(c, s, s.clientOf[fd], fd);
      }
    case AdminClose(fd) =>
      if AdminOf(s.admins, fd).Some? {
        AdminEndingKeepsNames(s, AdminOf(s.admins, fd).value, fd);
      }
    case AdminDisconnect(fd) =>
      if AdminOf(s.admins, fd).Some? {
        AdminDropKeepsNames(s, AdminOf(s.admins, fd).value);
      }
  }

  lemma SameNamesSelf(s: State)
    ensures SameNames(s.clients, s.clients) && SameNames(s.admins, s.admins)
  {
  }

  lemma SameNamesAdd(s: State, fd: int)
    requires s.nextId !in s.clients
    ensures SameNames(s.clients, s.clients[s.nextId := Client(None, [fd], 0)])
  {
  }

  // --------------------------------------------------------------------------------------- whole runs

  /** What an event does to the map of places. */
  ghost predicate Moves(c: Config, s: State, e: Event, r: State) {
    match e
    case Accept(fd) =>
      Places(r) == (if !c.authRequired then Places(s)[fd := Owned(false, s.nextId)]
                    else if FREE in s.hold.slots then Places(s)[fd := Kept(2, 0)]
                    else Places(s))
    case OnHold(fd, p, v) =>
      fd in s.holdMap ==>
        && fd in s.conns
        && exists q :: Leads(c, s, fd, p, v, q)
                    && Places(r) == match q { case Some(place) => Places(s)[fd := place] case None => Places(s) - {fd} }
    case HoldFailed(fd) => Places(r) == Places(s) - {fd}
    case CloseConnection(fd) => Places(r) == Places(s) - {fd}
    case AdminClose(fd) => Places(r) == Places(s) - {fd}
    case Disconnect(fd) => fd in s.conns && Places(r) == Places(s) - Siblings(s, fd)
    case AdminDisconnect(fd) => fd in s.conns && Places(r) == Places(s) - Siblings(s, fd)
  }

  lemma StepMoves(c: Config, s: State, e: Event)
    requires c.Sane() && Agreement(c, s) && Possible(c, s, e) && Safe(c, s, e) && Picks(c, s, e)
    ensures Moves(c, s, e, Step(c, s, e))
  {
    hide Agreement, Step, Possible, Safe, Picks, Places, Siblings, Leads;
    match e
    case Accept(fd) => AcceptPlaces(c, s, fd);
    case OnHold(fd, p, v) =>
      if fd in s.holdMap {
        var q := PacketPlaces(c, s, fd, p, v);
      }
    case HoldFailed(fd) => HoldFailedCloses(c, s, fd);
    case CloseConnection(fd) => CloseConnectionCloses(c, s, fd);
    case Disconnect(fd) => DisconnectCloses(c, s, fd);
    case AdminClose(fd) => AdminCloseCloses(c, s, fd);
    case AdminDisconnect(fd) => AdminDisconnectCloses(c, s, fd);
  }

  /** Over every run, all the structures together do what the map of places does. */
  lemma {:induction false} EveryStepMoves(c: Config, ss: seq<State>, es: seq<Event>, i: nat)
    requires c.Valid() && Trace(c, ss, es) && Initial(c, ss[0]) && i < |es|
    ensures Moves(c, ss[i], es[i], ss[i + 1])
  {
    hide Agreement, Step, Possible, Safe, Picks, FreshAdmin, DistinctAdmins, Initial, Moves;
    RunKeeps(c, ss, es, i);
    assert Next(c, ss[i], es[i], ss[i + 1]);
    ValidPicks(c, ss[i], es[i]);
    StepMoves(c, ss[i], es[i]);
  }
}
