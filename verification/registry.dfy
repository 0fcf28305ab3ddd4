/** What a cerver knows about its connections: the on hold table, the main table and the admin table,
    the maps, trees, lists and counters beside them, and every operation that changes them. The
    handler type is poll. */
module Registry {
  import opened Header
  import opened PollTables

  const TOKEN_SIZE: nat := 256
  const MAX_AUTH_TRIES: int := 2   // CONNECTION_DEFAULT_MAX_AUTH_TRIES, given to every connection

  datatype Option<T> = None | Some(value: T)

  type Session = seq<byte>

  /** A client, or the client of an admin: its session id, its connections, by descriptor, and the id
      of the admin, which is 0 for the clients of the cerver. */
  datatype Client = Client(session: Option<Session>, fds: seq<int>, adminId: nat)

  datatype Conn = Conn(authTries: int, badPackets: int)

  datatype Config = Config(
    sock: int,                 // the listening socket
    authRequired: bool,
    useSessions: bool,
    authenticate: bool,        // is there a method to authenticate clients?
    admin: bool,               // are there admins?
    adminAuthenticate: bool,
    maxAuthTries: nat,         // max_auth_tries, which nothing looks at
    maxBadPackets: nat,
    pick: set<nat> -> nat)     // which of several clients that compare equal the tree comes upon
  {
    ghost predicate Sane() {
      && sock >= 0
      && 1 <= maxBadPackets < 0x100
      && forall ids :: ids != {} ==> pick(ids) in ids
    }

    /** Clients that did not authenticate have no session id, by which the tree would tell them
        apart. */
    ghost predicate Valid() {
      Sane() && (useSessions ==> authRequired)
    }
  }

  datatype State = State(
    hold: Table, holdTree: set<int>, holdMap: set<int>,
    main: Table, clientOf: map<int, nat>, clients: map<nat, Client>, connectedClients: int,
    admin: Table, admins: map<nat, Client>, connectedAdmins: int,
    nextId: nat,
    conns: map<int, Conn>)     // the open connections

  datatype Request = ClientAuth | AdminAuth | UnknownRequest

  datatype Packet = TestPacket | AuthPacket(request: Request, data: seq<byte>) | OtherPacket

  /** What the application's functions say of an auth packet: whether the credentials are good, and
      the session id that is generated; and the id that admin_create () makes up from the time and a
      random number, if it comes to that. */
  datatype Verdict = Verdict(accepted: bool, session: Option<Session>, adminId: nat)

  datatype Event =
    | Accept(fd: int)
    | OnHold(fd: int, packet: Packet, verdict: Verdict)
    | HoldFailed(fd: int)          // a failed receive
    | CloseConnection(fd: int)     // a client's close-connection packet, or a failed receive
    | Disconnect(fd: int)
    | AdminClose(fd: int)
    | AdminDisconnect(fd: int)

  // ---------------------------------------------------------------------------------- operations

  /** The string in a token. */
  function Token(data: seq<byte>): Session {
    if data == [] || data[0] == 0 then [] else [data[0]] + Token(data[1..])
  }

  /** client_get_by_session_id () and admin_get_by_session_id (). */
  ghost function Owner(registered: map<nat, Client>, session: Session): (r: Option<nat>)
    ensures r.Some? ==> r.value in registered && registered[r.value].session == Some(session)
    ensures r.None? ==> forall id :: id in registered ==> registered[id].session != Some(session)
  {
    if id :| id in registered && registered[id].session == Some(session) then Some(id) else None
  }

  /** admin_get_by_sock_fd (). */
  ghost function AdminOf(admins: map<nat, Client>, fd: int): (r: Option<nat>)
    ensures r.Some? ==> r.value in admins && fd in admins[r.value].fds
    ensures r.None? ==> forall id :: id in admins ==> fd !in admins[id].fds
  {
    if id :| id in admins && fd in admins[id].fds then Some(id) else None
  }

  /** dlist_remove () of a connection. */
  function RemoveFirst(fds: seq<int>, fd: int): (r: seq<int>) {
    if fds == [] then []
    else if fds[0] == fd then fds[1..]
    else [fds[0]] + RemoveFirst(fds[1..], fd)
  }

  function Without<T>(m: map<int, T>, gone: seq<int>): map<int, T> {
    map fd | fd in m && fd !in gone :: m[fd]
  }

  function Forget(registered: map<nat, Client>, id: nat): map<nat, Client> {
    map i | i in registered && i != id :: registered[i]
  }

  /** connection_end () and the end of the connection. */
  function Close(s: State, fd: int): State {
    s.(conns := Without(s.conns, [fd]))
  }

  /** on_hold_connection (). */
  function Hold(s: State, fd: int): State {
    if FREE in s.hold.slots then
      s.(hold := Add(s.hold, 0, fd), holdTree := s.holdTree + {fd}, holdMap := s.holdMap + {fd})
    else
      s
  }

  /** on_hold_connection_remove (). */
  function Unhold(s: State, fd: int): State {
    if fd in s.hold.slots then
      s.(hold := Remove(s.hold, 0, fd), holdTree := s.holdTree - {fd}, holdMap := s.holdMap - {fd})
    else
      s
  }

  /** on_hold_connection_drop (). */
  function HoldDrop(s: State, fd: int): State {
    Close(Unhold(s, fd), fd)
  }

  /** cerver_register_new_connection (). */
  function AcceptNew(c: Config, s: State, fd: int): State {
    var t := s.(conns := s.conns[fd := Conn(MAX_AUTH_TRIES, 0)]);
    if c.authRequired then
      (if FREE in s.hold.slots then Hold(t, fd) else Close(t, fd))
    else
      RegisterClient(c, t.(nextId := s.nextId + 1), s.nextId, Client(None, [fd], 0), fd)
  }

  /** htab_insert (): a key that is there is left as it is. */
  function Inserted(clientOf: map<int, nat>, fd: int, id: nat): map<int, nat> {
    if fd in clientOf then clientOf else clientOf[fd := id]
  }

  /** The comparators of the client tree: by session id when sessions are used, by client id
      otherwise. Two clients without a session id compare equal. */
  predicate SameKey(c: Config, a: nat, session1: Option<Session>, b: nat, session2: Option<Session>) {
    if c.useSessions then session1 == session2 else a == b
  }

  function Equals(c: Config, clients: map<nat, Client>, id: nat, session: Option<Session>): set<nat> {
    set i | i in clients && SameKey(c, i, clients[i].session, id, session)
  }

  /** client_remove_from_cerver (): removes a client that compares equal to the one given. */
  function RemoveClient(c: Config, s: State, id: nat, session: Option<Session>): State {
    var equals := Equals(c, s.clients, id, session);
    if equals == {} then s
    else s.(clients := Forget(s.clients, c.pick(equals)), connectedClients := s.connectedClients - 1)
  }

  /** client_register_to_cerver () of a new client, with its only connection. When the connection is
      in the map already the new client is dropped, and takes the connection's entries with it. */
  function RegisterClient(c: Config, s: State, id: nat, client: Client, fd: int): State {
    if fd in s.clientOf then
      Close(RemoveClient(c, s.(clientOf := Without(s.clientOf, [fd]), main := Remove(s.main, 1, fd)), id, client.session), fd)
    else
      s.(clientOf := Inserted(s.clientOf, fd, id), main := Add(s.main, 1, fd),
         clients := s.clients[id := client], connectedClients := s.connectedClients + 1)
  }

  /** admin_cerver_register_admin (), and what is done when the table is full. */
  function RegisterAdmin(s: State, id: nat, client: Client, fd: int): State {
    if FREE in s.admin.slots then
      s.(admin := Add(s.admin, 0, fd), admins := s.admins[id := client], connectedAdmins := s.connectedAdmins + 1)
    else
      Close(s, fd)
  }

  /** What an on hold packet comes to. */
  datatype Outcome =
    | Ignored
    | Bad                          // one more bad packet
    | Failed                       // one auth try less
    | Refused                      // dropped at once: nothing can authenticate it
    | NoSession                    // accepted, but no session id could be generated: dropped
    | New(admin: bool)             // accepted: a new client or admin
    | Join(admin: bool, id: nat)   // a registered one's token

  /** auth_try_common (). */
  ghost function Try(c: Config, registered: map<nat, Client>, admin: bool, data: seq<byte>, v: Verdict): Outcome {
    if c.useSessions && |data| == TOKEN_SIZE then
      match Owner(registered, Token(data))
      case Some(id) => Join(admin, id)
      case None => Failed
    else if !v.accepted then Failed
    else if c.useSessions && v.session.None? then NoSession
    else New(admin)
  }

  /** on_hold_packet_handler_actual () and what it calls, up to the decision. */
  ghost function Decide(c: Config, s: State, p: Packet, v: Verdict): Outcome {
    match p
    case TestPacket => Ignored
    case OtherPacket => Bad
    case AuthPacket(request, data) =>
      if data == [] then Bad else
      match request
      case ClientAuth => if c.authenticate then Try(c, s.clients, false, data, v) else Refused
      case AdminAuth => if c.admin && c.adminAuthenticate then Try(c, s.admins, true, data, v) else Refused
      case UnknownRequest => Bad
  }

  /** cerver_on_hold_handle_max_bad_packets (). */
  function BadPacket(c: Config, s: State, fd: int): State
    requires fd in s.conns
  {
    var conn := s.conns[fd];
    if conn.badPackets + 1 >= c.maxBadPackets then HoldDrop(s, fd)
    else s.(conns := s.conns[fd := conn.(badPackets := conn.badPackets + 1)])
  }

  /** auth_failed (). */
  function AuthFailed(s: State, fd: int): State
    requires fd in s.conns
  {
    var conn := s.conns[fd];
    if conn.authTries - 1 <= 0 then HoldDrop(s, fd)
    else s.(conns := s.conns[fd := conn.(authTries := conn.authTries - 1)])
  }

  /** The connection leaves the on hold structures, authenticated. */
  function Authenticated(s: State, fd: int): State
    requires fd in s.conns
  {
    var t := Unhold(s, fd);
    t.(conns := s.conns[fd := s.conns[fd].(badPackets := 0)])
  }

  /** connection_register_to_client (). */
  function Joined(registered: map<nat, Client>, id: nat, fd: int): map<nat, Client>
    requires id in registered
  {
    registered[id := registered[id].(fds := registered[id].fds + [fd])]
  }

  /** auth_with_token_normal () and cerver_handler_register_connection (). */
  function JoinClient(s: State, id: nat, fd: int): State
    requires id in s.clients
  {
    s.(clients := Joined(s.clients, id, fd), clientOf := Inserted(s.clientOf, fd, id), main := Add(s.main, 1, fd))
  }

  /** auth_with_token_admin () and admin_cerver_poll_register_connection (), whose failure nobody
      looks at. */
  function JoinAdmin(s: State, id: nat, fd: int): State
    requires id in s.admins
  {
    s.(admins := Joined(s.admins, id, fd), admin := Add(s.admin, 0, fd))
  }

  /** auth_create_new_client (), and admin_create () for an admin. */
  function Newcomer(c: Config, admin: bool, v: Verdict, fd: int): Client {
    Client(if c.useSessions then v.session else None, [fd], if admin then v.adminId else 0)
  }

  ghost function HandleOnHold(c: Config, s: State, fd: int, p: Packet, v: Verdict): State
    requires fd in s.conns
  {
    match Decide(c, s, p, v)
    case Ignored => s
    case Bad => BadPacket(c, s, fd)
    case Failed => AuthFailed(s, fd)
    case Refused => HoldDrop(s, fd)
    case NoSession => HoldDrop(s, fd).(nextId := s.nextId + 1)
    case New(admin) =>
      var t := Authenticated(s, fd).(nextId := s.nextId + 1);
      var client := Newcomer(c, admin, v, fd);
      if admin then RegisterAdmin(t, s.nextId, client, fd) else RegisterClient(c, t, s.nextId, client, fd)
    case Join(admin, id) =>
      var t := Authenticated(s, fd);
      if admin then (if id in s.admins then JoinAdmin(t, id, fd) else s)
      else if id in s.clients then JoinClient(t, id, fd)
      else s
  }

  /** connection_remove_from_cerver () and client_connection_drop (). */
  function DropConnection(s: State, id: nat, fd: int): State
    requires id in s.clients
  {
    var client := s.clients[id];
    Close(s.(main := Remove(s.main, 1, fd), clientOf := Without(s.clientOf, [fd]),
             clients := s.clients[id := client.(fds := RemoveFirst(client.fds, fd))]), fd)
  }

  /** client_remove_connection_by_sock_fd (). */
  function RemoveConnection(c: Config, s: State, id: nat, fd: int): State {
    if id !in s.clients then s else
    var Client(session, fds, _) := s.clients[id];
    if |fds| == 0 then RemoveClient(c, s, id, session)
    else if |fds| == 1 then RemoveClient(c, DropConnection(s, id, fds[0]), id, session)
    else if fd in fds then DropConnection(s, id, fd)
    else s
  }

  /** client_drop (). */
  function ClientDrop(c: Config, s: State, id: nat): State {
    if id !in s.clients then s else
    var Client(session, fds, _) := s.clients[id];
    RemoveClient(c, s.(main := RemoveAll(s.main, 1, fds), clientOf := Without(s.clientOf, fds),
                       conns := Without(s.conns, fds)), id, session)
  }

  /** The first admin in the list, from number i on, that has the same admin id: the list is in the
      order in which the admins came. */
  function FirstAdmin(admins: map<nat, Client>, id: nat, i: nat): (r: nat)
    requires id in admins && i <= id
    ensures i <= r <= id && r in admins && admins[r].adminId == admins[id].adminId
    ensures forall j :: i <= j < r && j in admins ==> admins[j].adminId != admins[id].adminId
    decreases id - i
  {
    if i in admins && admins[i].adminId == admins[id].adminId then i
    else if i == id then id
    else FirstAdmin(admins, id, i + 1)
  }

  /** admin_cerver_unregister_admin () and the end of the admin: the list loses the first admin that
      compares equal, the array the connections of the one that ends. */
  function AdminDrop(s: State, id: nat): State {
    if id !in s.admins then s else
    var fds := s.admins[id].fds;
    s.(admin := RemoveAll(s.admin, 0, fds), conns := Without(s.conns, fds),
       admins := Forget(s.admins, FirstAdmin(s.admins, id, 0)), connectedAdmins := s.connectedAdmins - 1)
  }

  function DropAdminConnection(s: State, id: nat, fd: int): State
    requires id in s.admins
  {
    var client := s.admins[id];
    Close(s.(admin := Remove(s.admin, 0, fd),
             admins := s.admins[id := client.(fds := RemoveFirst(client.fds, fd))]), fd)
  }

  /** admin_remove_connection_by_sock_fd (). */
  function RemoveAdminConnection(s: State, id: nat, fd: int): State {
    if id !in s.admins then s else
    var fds := s.admins[id].fds;
    if |fds| == 0 then AdminDrop(s, id)
    else if |fds| == 1 then
      (if fds[0] in s.admin.slots then AdminDrop(DropAdminConnection(s, id, fds[0]), id) else s)
    else if fd in fds && fd in s.admin.slots then DropAdminConnection(s, id, fd)
    else s
  }

  ghost function Step(c: Config, s: State, e: Event): State {
    match e
    case Accept(fd) => AcceptNew(c, s, fd)
    case OnHold(fd, p, v) => if fd in s.conns then HandleOnHold(c, s, fd, p, v) else s
    case HoldFailed(fd) => HoldDrop(s, fd)
    case CloseConnection(fd) => if fd in s.clientOf then RemoveConnection(c, s, s.clientOf[fd], fd) else s
    case Disconnect(fd) => if fd in s.clientOf then ClientDrop(c, s, s.clientOf[fd]) else s
    case AdminClose(fd) =>
      (match AdminOf(s.admins, fd)
       case Some(id) => RemoveAdminConnection(s, id, fd)
       case None => s)
    case AdminDisconnect(fd) =>
      (match AdminOf(s.admins, fd)
       case Some(id) => AdminDrop(s, id)
       case None => s)
  }

  /** The cerver has been started; no connection has been accepted. */
  ghost predicate Initial(c: Config, s: State) {
    && Lists(s.hold, [], {}) && Lists(s.main, [c.sock], {}) && Lists(s.admin, [], {})
    && s.holdTree == s.holdMap == {}
    && s.clientOf == map[] && s.clients == map[] && s.admins == map[] && s.conns == map[]
    && s.connectedClients == s.connectedAdmins == 0
  }

  ghost predicate FreshSession(s: State, session: Option<Session>) {
    session.Some? ==>
      && (forall id :: id in s.clients ==> s.clients[id].session != session)
      && (forall id :: id in s.admins ==> s.admins[id].session != session)
  }

  /** What can happen: accept () gives a descriptor that is not in use, session ids are unique, the
      main table has room (it grows), and only open connections have something to say. */
  ghost predicate Possible(c: Config, s: State, e: Event) {
    match e
    case Accept(fd) => fd > 0 && fd != c.sock && fd !in s.conns && FREE in s.main.slots
    case OnHold(fd, _, v) => c.authRequired && fd in s.conns && FREE in s.main.slots && FreshSession(s, v.session)
    case HoldFailed(fd) => fd in s.hold.slots && fd != FREE
    case CloseConnection(fd) => fd in s.main.slots && fd != FREE && fd != c.sock
    case Disconnect(fd) => fd in s.main.slots && fd != FREE && fd != c.sock
    case AdminClose(fd) => fd in s.admin.slots && fd != FREE
    case AdminDisconnect(fd) => fd in s.admin.slots && fd != FREE
  }

  /** A packet that leaves its connection where it was. */
  ghost predicate Stays(c: Config, s: State, fd: int, p: Packet, v: Verdict)
    requires fd in s.conns
  {
    match Decide(c, s, p, v)
    case Ignored => true
    case Bad => s.conns[fd].badPackets + 1 < c.maxBadPackets
    case Failed => s.conns[fd].authTries > 1
    case Refused => false
    case NoSession => false
    case New(_) => false
    case Join(_, _) => false
  }

  /** The guard under which an event keeps the structures in agreement: an on hold packet is not
      handled for a connection that has left the on hold table, unless it does nothing to it, and the
      admin table has room for a connection that joins an admin. */
  ghost predicate Safe(c: Config, s: State, e: Event) {
    e.OnHold? && e.fd in s.conns ==>
      && (e.fd in s.holdMap || Stays(c, s, e.fd, e.packet, e.verdict))
      && (Decide(c, s, e.packet, e.verdict).Join? && Decide(c, s, e.packet, e.verdict).admin
          ==> FREE in s.admin.slots)
  }

  /** The tree removes the client that is to be removed. */
  ghost predicate Removes(c: Config, clients: map<nat, Client>, id: nat)
    requires id in clients
  {
    c.pick(Equals(c, clients, id, clients[id].session)) == id
  }

  /** The list removes the admin that is to be removed. */
  ghost predicate RemovesAdmin(admins: map<nat, Client>, id: nat)
    requires id in admins
  {
    FirstAdmin(admins, id, 0) == id
  }

  /** The guard of the events that end a client or an admin. */
  ghost predicate Picks(c: Config, s: State, e: Event) {
    && ((e.CloseConnection? || e.Disconnect?) && e.fd in s.clientOf && s.clientOf[e.fd] in s.clients ==>
          var id := s.clientOf[e.fd];
          (e.CloseConnection? && |s.clients[id].fds| > 1) || Removes(c, s.clients, id))
    && ((e.AdminClose? || e.AdminDisconnect?) && AdminOf(s.admins, e.fd).Some? ==>
          var id := AdminOf(s.admins, e.fd).value;
          (e.AdminClose? && |s.admins[id].fds| > 1) || RemovesAdmin(s.admins, id))
  }

  /** A run of whatever can happen: the states ss that the events es lead through. */
  ghost predicate PossibleTrace(c: Config, ss: seq<State>, es: seq<Event>) {
    && |ss| == |es| + 1
    && forall i :: 0 <= i < |es| ==> Possible(c, ss[i], es[i]) && ss[i + 1] == Step(c, ss[i], es[i])
  }

  /** The admin id that is made up is not in use. */
  ghost predicate FreshAdmin(s: State, e: Event) {
    e.OnHold? ==> forall id :: id in s.admins ==> s.admins[id].adminId != e.verdict.adminId
  }

  ghost predicate Next(c: Config, s: State, e: Event, t: State) {
    Possible(c, s, e) && Safe(c, s, e) && FreshAdmin(s, e) && t == Step(c, s, e)
  }

  /** A run of guarded events, in which admin ids are unique. */
  ghost predicate Trace(c: Config, ss: seq<State>, es: seq<Event>) {
    && |ss| == |es| + 1
    && forall i :: 0 <= i < |es| ==> Next(c, ss[i], es[i], ss[i + 1])
  }

  // ----------------------------------------------------------------------------------- agreement

  ghost function Members(registered: map<nat, Client>): set<int> {
    set id, fd | id in registered && fd in registered[id].fds :: fd
  }

  ghost predicate NoDuplicates(fds: seq<int>) {
    forall i, j :: 0 <= i < j < |fds| ==> fds[i] != fds[j]
  }

  /** Everybody has a connection, and no connection is listed twice. */
  ghost predicate Groups(registered: map<nat, Client>) {
    && (forall id :: id in registered ==> registered[id].fds != [] && NoDuplicates(registered[id].fds))
    && (forall a, b, fd ::
          a in registered && b in registered && fd in registered[a].fds && fd in registered[b].fds ==> a == b)
  }

  ghost predicate UniqueSessions(registered: map<nat, Client>) {
    forall a, b ::
      a in registered && b in registered && registered[a].session.Some? && registered[a].session == registered[b].session
      ==> a == b
  }

  /** client_sock_fd_map takes the connections of the clients, and nothing else, to their clients. */
  ghost predicate Maps(clientOf: map<int, nat>, clients: map<nat, Client>) {
    && (forall fd :: fd in clientOf ==> clientOf[fd] in clients && fd in clients[clientOf[fd]].fds)
    && (forall id, fd :: id in clients && fd in clients[id].fds ==> fd in clientOf && clientOf[fd] == id)
  }

  ghost predicate DistinctAdmins(admins: map<nat, Client>) {
    forall a, b :: a in admins && b in admins && admins[a].adminId == admins[b].adminId ==> a == b
  }

  ghost predicate Keyed(c: Config, clients: map<nat, Client>) {
    c.useSessions && c.authRequired ==> forall id :: id in clients ==> clients[id].session.Some?
  }

  ghost predicate HoldOk(hold: Table, tree: set<int>, held: set<int>) {
    Lists(hold, [], held) && tree == held
  }

  ghost predicate ClientsOk(sock: int, main: Table, clientOf: map<int, nat>, clients: map<nat, Client>, n: int) {
    && Lists(main, [sock], clientOf.Keys)
    && Maps(clientOf, clients)
    && Groups(clients) && UniqueSessions(clients)
    && n == |clients|
  }

  ghost predicate AdminsOk(admin: Table, admins: map<nat, Client>, n: int) {
    && Lists(admin, [], Members(admins))
    && Groups(admins) && UniqueSessions(admins)
    && n == |admins|
  }

  ghost predicate IdsOk(s: State) {
    && (forall id :: id in s.clients ==> id < s.nextId)
    && (forall id :: id in s.admins ==> id < s.nextId)
  }

  /** An open descriptor is in exactly one place, and not the listening socket. */
  ghost predicate Partition(open: set<int>, held: set<int>, served: set<int>, administering: set<int>) {
    && (forall fd :: fd in open <==> fd in held || fd in served || fd in administering)
    && (forall fd :: fd in held ==> fd !in served && fd !in administering)
    && (forall fd :: fd in served ==> fd !in administering)
  }

  ghost predicate ConnOk(c: Config, fd: int, conn: Conn) {
    && fd > 0 && fd != c.sock
    && 1 <= conn.authTries <= MAX_AUTH_TRIES
    && 0 <= conn.badPackets < c.maxBadPackets
  }

  ghost predicate ConnsOk(c: Config, conns: map<int, Conn>) {
    forall fd :: fd in conns ==> ConnOk(c, fd, conns[fd])
  }

  ghost predicate Agreement(c: Config, s: State) {
    && HoldOk(s.hold, s.holdTree, s.holdMap)
    && ClientsOk(c.sock, s.main, s.clientOf, s.clients, s.connectedClients)
    && AdminsOk(s.admin, s.admins, s.connectedAdmins)
    && IdsOk(s) && Keyed(c, s.clients)
    && Partition(s.conns.Keys, s.holdMap, s.clientOf.Keys, Members(s.admins))
    && ConnsOk(c, s.conns)
  }
}
