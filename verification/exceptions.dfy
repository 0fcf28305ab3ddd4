/** Where the registry does not do what one would expect: the inputs, and exactly when it does. */
module Exceptions {
  import opened Header
  import opened PollTables
  import opened Registry
  import opened Lifecycle

  // ------------------------------------------------------------------ packets after authentication

  /** A client that sends its credentials twice, in one write: the second packet comes in the same
      buffer, when the connection is no longer on hold, and is accepted once more. */
  lemma AuthenticatingTwiceBreaks(c: Config, s: State, fd: int, data: seq<byte>)
    requires c.Valid() && c.authRequired && c.authenticate && !c.useSessions && data != []
    requires Initial(c, s) && Possible(c, s, Accept(fd)) && FREE in s.hold.slots
    ensures var auth := OnHold(fd, AuthPacket(ClientAuth, data), Verdict(true, None, 0));
            var once := Step(c, Step(c, s, Accept(fd)), auth);
      && Agreement(c, once)
      && !Agreement(c, Step(c, once, auth))
  {
    hide Agreement, Add, Initial;
    var p, v := AuthPacket(ClientAuth, data), Verdict(true, None, 0);
    var auth := OnHold(fd, p, v);
    InitialAgrees(c, s);
    AcceptKeeps(c, s, fd);
    var t := Step(c, s, Accept(fd));
    var u := Step(c, t, auth);
    assert Possible(c, t, auth) && Safe(c, t, auth);
    StepKeeps(c, t, auth);
    GrantsIff(c, t, fd, p, v);
    ServedIffGranted(c, t, fd, p, v);
    LatePacketBreaks(c, u, fd, p, v);
  }

  /** A cerver that has just been started, with room for two connections. */
  function Started(c: Config): State {
    State(Table([], 0, 0), {}, {}, Table([c.sock, FREE, FREE], 1, 0), map[], map[], 0, Table([], 0, 0), map[], 0, 0, map[])
  }

  lemma StartedIsInitial(c: Config)
    requires c.Sane()
    ensures Initial(c, Started(c))
  {
    var t := Started(c).main;
    assert t.slots[..1] == [c.sock];
  }

  lemma AcceptedAsClient(c: Config, s: State, fd: int)
    requires !c.authRequired && fd !in s.clientOf
    ensures var r := AcceptNew(c, s, fd);
      && r.main == Add(s.main, 1, fd) && r.clientOf == s.clientOf[fd := s.nextId]
      && r.clients == s.clients[s.nextId := Client(None, [fd], 0)] && r.nextId == s.nextId + 1
      && r.conns.Keys == s.conns.Keys + {fd} && r.admins == s.admins
  {
    hide Add;
  }

  lemma AddSecond(sock: int, a: int, b: int)
    requires sock >= 0 && a > 0
    ensures Add(Table([sock, FREE, FREE], 1, 0), 1, a).slots == [sock, a, FREE]
    ensures forall t: Table :: t.slots == [sock, a, FREE] ==> Add(t, 1, b).slots == [sock, a, b]
  {
    assert First([sock, FREE, FREE], FREE) == 1;
    assert First([sock, a, FREE], FREE) == 2;
  }

  /** The first two connections of a cerver without authentication. */
  lemma TwoAccepted(c: Config, a: int, b: int) returns (s1: State, s2: State)
    requires c.Sane() && !c.authRequired && a > 0 && b > 0 && a != b && a != c.sock && b != c.sock
    ensures Next(c, Started(c), Accept(a), s1) && Next(c, s1, Accept(b), s2)
    ensures Agreement(c, s2) && FREE !in {a, b} && a in s2.main.slots && b in s2.main.slots
    ensures s2.clientOf == map[a := 0, b := 1]
    ensures s2.clients == map[0 := Client(None, [a], 0), 1 := Client(None, [b], 0)]
  {
    hide Agreement, Initial, AcceptNew, Add;
    var s0 := Started(c);
    StartedIsInitial(c);
    InitialAgrees(c, s0);
    AddSecond(c.sock, a, b);
    s1 := Step(c, s0, Accept(a));
    AcceptedAsClient(c, s0, a);
    assert s0.main.slots[1] == s1.main.slots[2] == FREE;
    AcceptKeeps(c, s0, a);
    s2 := Step(c, s1, Accept(b));
    AcceptedAsClient(c, s1, b);
    assert s2.main.slots[1] == a && s2.main.slots[2] == b;
    AcceptKeeps(c, s1, b);
  }

  /** With sessions but without authentication nobody has a session id, and the client tree, which is
      ordered by it, cannot tell two clients apart. Accept two connections, then disconnect the client
      that the tree does not come upon first: the other one leaves the tree. */
  lemma SessionsNeedAuthentication(c: Config) returns (ss: seq<State>, es: seq<Event>)
    requires c.Sane() && c.useSessions && !c.authRequired
    ensures Trace(c, ss, es) && Initial(c, ss[0]) && !Agreement(c, ss[|es|])
    ensures |es| == 3 && es[0].Accept? && es[1].Accept? && es[2].Disconnect?
  {
    hide Agreement, Initial, AcceptNew, ClientDrop;
    StartedIsInitial(c);
    var a, b := c.sock + 1, c.sock + 2;
    var s1, s2 := TwoAccepted(c, a, b);
    assert Equals(c, s2.clients, 0, None) == Equals(c, s2.clients, 1, None) == {0, 1};
    var fd := if c.pick({0, 1}) == 0 then b else a;
    var s3 := Step(c, s2, Disconnect(fd));
    assert !Picks(c, s2, Disconnect(fd));
    AgreementKeptIff(c, s2, Disconnect(fd));
    ss, es := [Started(c), s1, s2, s3], [Accept(a), Accept(b), Disconnect(fd)];
    assert Next(c, s2, Disconnect(fd), s3);
  }

  /** The registry is in agreement at the end of every run exactly of the configurations that do not
      use sessions without authentication. */
  lemma EveryRunAgreesIff(c: Config)
    requires c.Sane()
    ensures (forall ss, es :: Trace(c, ss, es) && Initial(c, ss[0]) ==> Agreement(c, ss[|es|]))
       <==> (c.useSessions ==> c.authRequired)
  {
    hide Agreement, Initial, Next;
    if c.useSessions ==> c.authRequired {
      forall ss, es | Trace(c, ss, es) && Initial(c, ss[0]) ensures Agreement(c, ss[|es|]) {
        RunKeeps(c, ss, es, |es|);
      }
    } else {
      var ss, es := SessionsNeedAuthentication(c);
    }
  }

  // ------------------------------------------------------------------------------- equal admin ids

  /** A cerver that has just been started, with room for two connections on hold and some admins. */
  function StartedForAdmins(c: Config, room: nat): State {
    Started(c).(hold := Table([FREE, FREE], 0, 0), admin := Table(seq(room, _ => FREE), 0, 0))
  }

  lemma StartedForAdminsIsInitial(c: Config, room: nat)
    requires c.Sane()
    ensures Initial(c, StartedForAdmins(c, room))
  {
    StartedIsInitial(c);
  }

  lemma AddToFirst(a: int, b: int)
    requires a > 0
    ensures forall t: Table :: t.slots == [FREE, FREE] ==> Add(t, 0, a).slots == [a, FREE]
    ensures forall t: Table :: t.slots == [a, FREE] ==> Add(t, 0, b).slots == [a, b]
  {
    assert First([FREE, FREE], FREE) == 0;
    assert First([a, FREE], FREE) == 1;
  }

  /** A connection that is accepted and put on hold. */
  lemma AcceptHolds(c: Config, s: State, fd: int)
    requires c.Sane() && c.authRequired && Agreement(c, s) && Possible(c, s, Accept(fd)) && FREE in s.hold.slots
    ensures var r := Step(c, s, Accept(fd));
      && Agreement(c, r) && r.holdMap == s.holdMap + {fd} && fd in r.conns && r.conns.Keys == s.conns.Keys + {fd}
      && r.hold == Add(s.hold, 0, fd) && r.main == s.main && r.admin == s.admin
      && r.clients == s.clients && r.admins == s.admins && r.nextId == s.nextId
  {
    hide Agreement, Add;
    AcceptKeeps(c, s, fd);
  }

  /** A connection on hold that becomes a new admin. */
  lemma BecomesAdmin(c: Config, s: State, fd: int, data: seq<byte>, v: Verdict)
    requires c.Sane() && c.authRequired && c.admin && c.adminAuthenticate
    requires Agreement(c, s) && Possible(c, s, OnHold(fd, AuthPacket(AdminAuth, data), v)) && fd in s.holdMap
    requires data != [] && |data| != TOKEN_SIZE && v.accepted && v.session.Some? && FREE in s.admin.slots
    ensures var r := Step(c, s, OnHold(fd, AuthPacket(AdminAuth, data), v));
      && Agreement(c, r) && r.holdMap == s.holdMap - {fd} && fd in r.conns && r.conns.Keys == s.conns.Keys
      && r.main == s.main && r.admin == Add(s.admin, 0, fd)
      && r.clients == s.clients && r.admins == s.admins[s.nextId := Newcomer(c, true, v, fd)] && r.nextId == s.nextId + 1
  {
    hide Agreement, Add, Remove, Possible;
    var e := OnHold(fd, AuthPacket(AdminAuth, data), v);
    HeldIsOpen(c, s, fd);
    HeldInSlots(c, s, fd);
    ConnIsOk(c, s, fd);
    StepKeeps(c, s, e);
    assert Decide(c, s, e.packet, v) == New(true);
  }

  /** Two connections on hold. */
  lemma TwoHeld(c: Config, room: nat, a: int, b: int) returns (s1: State, s2: State)
    requires c.Sane() && c.authRequired && a > 0 && b > 0 && a != b && a != c.sock && b != c.sock
    ensures var s0 := StartedForAdmins(c, room);
      && Possible(c, s0, Accept(a)) && s1 == Step(c, s0, Accept(a))
      && Possible(c, s1, Accept(b)) && s2 == Step(c, s1, Accept(b))
      && Agreement(c, s2) && s2.holdMap == {a, b} && s2.conns.Keys == {a, b}
      && s2.main == s0.main && s2.admin == s0.admin && s2.clients == map[] && s2.admins == map[] && s2.nextId == 0
  {
    hide Agreement, Initial, Step, Add;
    var s0 := StartedForAdmins(c, room);
    StartedForAdminsIsInitial(c, room);
    InitialAgrees(c, s0);
    AddToFirst(a, b);
    assert s0.main.slots[1] == s0.hold.slots[0] == FREE;
    s1 := Step(c, s0, Accept(a));
    AcceptHolds(c, s0, a);
    assert s1.hold.slots[1] == FREE;
    s2 := Step(c, s1, Accept(b));
    AcceptHolds(c, s1, b);
  }

  /** Both become admins. */
  lemma TwoAdmins(c: Config, s2: State, a: int, b: int, v1: Verdict, v2: Verdict)
      returns (s3: State, s4: State)
    requires c.Sane() && c.authRequired && c.admin && c.adminAuthenticate && a > 0 && b > 0 && a != b
    requires Agreement(c, s2) && s2.holdMap == {a, b} && s2.conns.Keys == {a, b}
    requires FREE in s2.main.slots && s2.admin.slots == [FREE, FREE]
    requires s2.clients == map[] && s2.admins == map[] && s2.nextId == 0
    requires v1.accepted && v2.accepted && v1.session.Some? && v2.session.Some? && v1.session != v2.session
    ensures var e1, e2 := OnHold(a, AuthPacket(AdminAuth, [1]), v1), OnHold(b, AuthPacket(AdminAuth, [1]), v2);
      && Possible(c, s2, e1) && s3 == Step(c, s2, e1) && Possible(c, s3, e2) && s4 == Step(c, s3, e2)
    ensures Agreement(c, s4) && s4.admin.slots == [a, b]
    ensures s4.admins == map[0 := Newcomer(c, true, v1, a), 1 := Newcomer(c, true, v2, b)]
  {
    hide Agreement, Step, Add;
    AddToFirst(a, b);
    assert s2.admin.slots[0] == FREE;
    s3 := Step(c, s2, OnHold(a, AuthPacket(AdminAuth, [1]), v1));
    BecomesAdmin(c, s2, a, [1], v1);
    assert s3.admin.slots[1] == FREE;
    s4 := Step(c, s3, OnHold(b, AuthPacket(AdminAuth, [1]), v2));
    BecomesAdmin(c, s3, b, [1], v2);
  }

  /** Two admins get the same id, as the time and the random number it is made of are the same, and the
      second one disconnects: the first one leaves the list. */
  lemma AdminIdsMustDiffer(c: Config, adminId: nat) returns (ss: seq<State>, es: seq<Event>)
    requires c.Sane() && c.authRequired && c.admin && c.adminAuthenticate
    ensures PossibleTrace(c, ss, es) && Initial(c, ss[0]) && |es| == 5
    ensures es[4] == AdminDisconnect(c.sock + 2) && Agreement(c, ss[4]) && !Agreement(c, ss[5])
  {
    hide Agreement, Initial, Step, Possible;
    var a, b := c.sock + 1, c.sock + 2;
    var v1, v2 := Verdict(true, Some([1]), adminId), Verdict(true, Some([2]), adminId);
    StartedForAdminsIsInitial(c, 2);
    var s0 := StartedForAdmins(c, 2);
    assert s0.main.slots[1] == FREE && s0.admin.slots == [FREE, FREE];
    var s1, s2 := TwoHeld(c, 2, a, b);
    var s3, s4 := TwoAdmins(c, s2, a, b, v1, v2);
    assert s4.admin.slots[1] == b;
    var e := AdminDisconnect(b);
    SecondAdmin(c, s4, b, adminId);
    ss, es := [s0, s1, s2, s3, s4, Step(c, s4, e)],
              [Accept(a), Accept(b), OnHold(a, AuthPacket(AdminAuth, [1]), v1), OnHold(b, AuthPacket(AdminAuth, [1]), v2), e];
  }

  /** The second of two admins with one id. */
  lemma SecondAdmin(c: Config, s: State, fd: int, adminId: nat)
    requires c.Sane() && Agreement(c, s) && fd in s.admin.slots && fd != FREE
    requires s.admins.Keys == {0, 1} && fd in s.admins[1].fds
    requires s.admins[0].adminId == s.admins[1].adminId == adminId
    ensures Possible(c, s, AdminDisconnect(fd)) && !Agreement(c, Step(c, s, AdminDisconnect(fd)))
  {
    hide Agreement, Step;
    InAdmin(c, s, fd);
    SoleAdmin(c, s, fd);
    AgreementKeptIff(c, s, AdminDisconnect(fd));
  }

  lemma SoleAdmin(c: Config, s: State, fd: int)
    requires Agreement(c, s)
    ensures forall i, j :: i in s.admins && j in s.admins && fd in s.admins[i].fds && fd in s.admins[j].fds ==> i == j
  {
    hide HoldOk, ClientsOk, Members, ConnsOk, IdsOk, Partition, Lists;
  }

  // ------------------------------------------------------------------------- a full admin array

  /** The token that holds the session id [1]. */
  function TokenOfOne(): (data: seq<byte>)
    ensures |data| == TOKEN_SIZE && Token(data) == [1]
  {
    var data: seq<byte> := [1] + seq(TOKEN_SIZE - 1, _ => 0);
    assert data[1..][0] == 0;
    assert Token(data[1..]) == [];
    data
  }

  /** There is room for one admin; a second connection joins that admin by its token, and nobody watches
      it. */
  lemma {:induction false} JoinWithoutRoom(c: Config) returns (ss: seq<State>, es: seq<Event>)
    requires c.Sane() && c.authRequired && c.useSessions && c.admin && c.adminAuthenticate
    ensures PossibleTrace(c, ss, es) && Initial(c, ss[0]) && |es| == 4
    ensures es[3].OnHold? && es[3].packet == AuthPacket(AdminAuth, TokenOfOne())
    ensures Agreement(c, ss[3]) && !Agreement(c, ss[4])
  {
    hide Agreement, Initial, Step, Add;
    var a, b := c.sock + 1, c.sock + 2;
    var v := Verdict(true, Some([1]), 0);
    StartedForAdminsIsInitial(c, 1);
    var s0 := StartedForAdmins(c, 1);
    assert s0.main.slots[1] == FREE && s0.admin.slots == [FREE];
    var s1, s2 := TwoHeld(c, 1, a, b);
    assert s2.admin.slots[0] == FREE;
    AddToLast(a);
    var s3 := Step(c, s2, OnHold(a, AuthPacket(AdminAuth, [1]), v));
    BecomesAdmin(c, s2, a, [1], v);
    var join := OnHold(b, AuthPacket(AdminAuth, TokenOfOne()), Verdict(false, None, 0));
    JoinsFull(c, s3, b);
    ss, es := [s0, s1, s2, s3, Step(c, s3, join)], [Accept(a), Accept(b), OnHold(a, AuthPacket(AdminAuth, [1]), v), join];
  }

  lemma AddToLast(a: int)
    requires a > 0
    ensures forall t: Table :: t.slots == [FREE] ==> Add(t, 0, a).slots == [a]
  {
    assert First([FREE], FREE) == 0;
  }

  lemma JoinsFull(c: Config, s: State, fd: int)
    requires c.useSessions && c.admin && c.adminAuthenticate && Agreement(c, s) && fd in s.conns
    requires s.admins.Keys == {0} && s.admins[0].session == Some([1]) && FREE !in s.admin.slots
    ensures !Agreement(c, Step(c, s, OnHold(fd, AuthPacket(AdminAuth, TokenOfOne()), Verdict(false, None, 0))))
  {
    hide Agreement, HandleOnHold;
    var p, v := AuthPacket(AdminAuth, TokenOfOne()), Verdict(false, None, 0);
    assert Owner(s.admins, [1]).Some?;
    assert Decide(c, s, p, v).Join? && Decide(c, s, p, v).admin;
    JoinNeedsRoom(c, s, fd, p, v);
  }

  // ------------------------------------------------------------------------ the number of auth tries

  /** A packet whose authentication fails. */
  ghost predicate FailsAuth(c: Config, s: State, e: Event, fd: int) {
    e.OnHold? && e.fd == fd && fd in s.holdMap && Decide(c, s, e.packet, e.verdict) == Failed
  }

  /** The failed authentications of fd from event m to event n. */
  ghost function Failures(c: Config, ss: seq<State>, es: seq<Event>, fd: int, m: nat, n: nat): (k: nat)
    requires n <= |es| && n <= |ss|
    decreases n
  {
    if n <= m then 0
    else Failures(c, ss, es, fd, m, n - 1) + if FailsAuth(c, ss[n - 1], es[n - 1], fd) then 1 else 0
  }

  /** A connection that is accepted by event m, stays on hold, and fails to authenticate by event n. */
  ghost predicate FailingRun(c: Config, ss: seq<State>, es: seq<Event>, fd: int, m: nat, n: nat) {
    && Trace(c, ss, es) && Initial(c, ss[0])
    && m < n < |es| && es[m] == Accept(fd) && HeldThroughout(ss, fd, m + 1, n)
    && FailsAuth(c, ss[n], es[n], fd)
  }

  /** What the packets of a connection that stays on hold do to its tries. */
  lemma StepTries(c: Config, s: State, e: Event, fd: int)
    requires c.Sane() && Agreement(c, s) && Possible(c, s, e) && Safe(c, s, e) && Picks(c, s, e)
    requires fd in s.holdMap && fd in Step(c, s, e).holdMap
    ensures fd in s.conns && fd in Step(c, s, e).conns
    ensures Step(c, s, e).conns[fd].authTries == s.conns[fd].authTries - if FailsAuth(c, s, e, fd) then 1 else 0
  {
    hide Agreement, Decide, Picks, AcceptNew, HandleOnHold, HoldDrop, RemoveConnection, ClientDrop, RemoveAdminConnection, AdminDrop;
    StepKeeps(c, s, e);
    HeldIsOpen(c, s, fd);
    HeldIsOpen(c, Step(c, s, e), fd);
    if e.Accept? {
      AcceptOther(c, s, e.fd, fd);
    } else if e.HoldFailed? {
      DropFrame(s, e.fd, fd);
    } else if e.OnHold? {
      var OnHold(x, p, v) := e;
      if x != fd {
        OthersStay(c, s, x, p, v, fd);
      } else {
        HeldTries(c, s, fd, p, v);
      }
    } else {
      EndingCloses(c, s, e);
    }
  }

  lemma HeldTries(c: Config, s: State, fd: int, p: Packet, v: Verdict)
    requires Agreement(c, s) && fd in s.holdMap && fd in s.conns
    requires fd in HandleOnHold(c, s, fd, p, v).holdMap && fd in HandleOnHold(c, s, fd, p, v).conns
    ensures HandleOnHold(c, s, fd, p, v).conns[fd].authTries
         == s.conns[fd].authTries - if Decide(c, s, p, v) == Failed then 1 else 0
  {
    hide Agreement, Decide, Owner, HoldDrop, Authenticated, RegisterClient, RegisterAdmin, JoinClient, JoinAdmin;
    HeldInSlots(c, s, fd);
    JoinIsKnown(c, s, p, v);
    DropFrame(s, fd, fd);
    AuthenticatedOnly(s, fd, fd);
    AuthenticatedFrame(s, fd);
    match Decide(c, s, p, v)
    case Ignored =>
    case Bad =>
    case Failed =>
    case Refused =>
    case NoSession =>
    case New(admin) =>
      RegisterFrame(c, Authenticated(s, fd).(nextId := s.nextId + 1), s.nextId, Newcomer(c, admin, v, fd), fd, fd);
    case Join(admin, id) =>
      JoinFrame(Authenticated(s, fd), id, fd);
  }

  /** While a connection is on hold, its failures and the tries it has left are two. */
  lemma {:induction false} TriesCountFailures(
      c: Config, ss: seq<State>, es: seq<Event>, fd: int, m: nat, n: nat)
    requires c.Valid() && c.authRequired && Trace(c, ss, es) && Initial(c, ss[0])
    requires m < n <= |es| && es[m] == Accept(fd) && HeldThroughout(ss, fd, m + 1, n)
    ensures fd in ss[n].conns
    ensures ss[n].conns[fd].authTries + Failures(c, ss, es, fd, m + 1, n) == MAX_AUTH_TRIES
    decreases n
  {
    hide Agreement, Step, Possible, Safe, Picks, Initial, FreshAdmin, DistinctAdmins, FailsAuth;
    RunKeeps(c, ss, es, n - 1);
    RunKeeps(c, ss, es, n);
    assert Next(c, ss[n - 1], es[n - 1], ss[n]);
    HeldIsOpen(c, ss[n], fd);
    if n == m + 1 {
      JustAccepted(c, ss[m], fd);
    } else {
      TriesCountFailures(c, ss, es, fd, m, n - 1);
      ValidPicks(c, ss[n - 1], es[n - 1]);
      StepTries(c, ss[n - 1], es[n - 1], fd);
    }
  }

  lemma JustAccepted(c: Config, s: State, fd: int)
    requires c.authRequired
    ensures var r := Step(c, s, Accept(fd)); fd in r.conns ==> r.conns[fd] == Conn(MAX_AUTH_TRIES, 0)
  {
    hide AcceptNew;
    AcceptFrame(c, s, fd, fd);
  }

  /** The failure that ends a connection is its second one, whatever max_auth_tries is. */
  lemma {:induction false} SecondFailureDrops(c: Config, ss: seq<State>, es: seq<Event>, fd: int, m: nat, n: nat)
    requires c.Valid() && c.authRequired && FailingRun(c, ss, es, fd, m, n)
    ensures fd !in ss[n + 1].conns <==> Failures(c, ss, es, fd, m + 1, n) + 1 == MAX_AUTH_TRIES
  {
    hide Agreement, Possible, Safe, Initial, FreshAdmin, Decide, Failures;
    TriesCountFailures(c, ss, es, fd, m, n);
    RunKeeps(c, ss, es, n);
    ConnIsOk(c, ss[n], fd);
    assert Next(c, ss[n], es[n], ss[n + 1]);
    DropFrame(ss[n], fd, fd);
  }

  /** The number of failed authentications that is documented to be allowed. */
  ghost predicate TriesAreHonoured(c: Config) {
    forall ss: seq<State>, es: seq<Event>, fd: int, m: nat, n: nat :: FailingRun(c, ss, es, fd, m, n) ==>
      (fd !in ss[n + 1].conns <==> Failures(c, ss, es, fd, m + 1, n) + 1 == c.maxAuthTries)
  }

  /** There is a method to authenticate somebody. */
  predicate CanAuthenticate(c: Config) {
    c.authRequired && (c.authenticate || (c.admin && c.adminAuthenticate))
  }

  /** Bad credentials. */
  function BadCredentials(c: Config, fd: int): Event {
    OnHold(fd, AuthPacket(if c.authenticate then ClientAuth else AdminAuth, [1]), Verdict(false, None, 0))
  }

  /** A connection that sends bad credentials twice. */
  lemma {:induction false} FailsTwice(c: Config) returns (ss: seq<State>, es: seq<Event>)
    requires c.Valid() && CanAuthenticate(c)
    ensures FailingRun(c, ss, es, c.sock + 1, 0, 2) && Failures(c, ss, es, c.sock + 1, 1, 2) == 1
  {
    hide Agreement, Initial, Step;
    var fd := c.sock + 1;
    var e := BadCredentials(c, fd);
    var s0 := StartedForAdmins(c, 0);
    StartedForAdminsIsInitial(c, 0);
    InitialAgrees(c, s0);
    assert s0.main.slots[1] == s0.hold.slots[0] == FREE;
    AcceptHolds(c, s0, fd);
    var s1 := Step(c, s0, Accept(fd));
    JustAccepted(c, s0, fd);
    FirstFailure(c, s1, fd);
    var s2 := Step(c, s1, e);
    ss, es := [s0, s1, s2, Step(c, s2, e)], [Accept(fd), e, e];
    assert Failures(c, ss, es, fd, 1, 1) == 0;
    assert FailsAuth(c, ss[1], es[1], fd);
    assert forall i :: 1 <= i <= 2 ==> fd in ss[i].holdMap;
    assert Next(c, s0, es[0], s1) && Next(c, s1, es[1], s2) && Next(c, s2, es[2], ss[3]);
  }

  lemma FirstFailure(c: Config, s: State, fd: int)
    requires CanAuthenticate(c) && fd in s.holdMap && fd in s.conns && s.conns[fd].authTries == MAX_AUTH_TRIES
    requires FREE in s.main.slots && s.admins == map[]
    ensures var e := BadCredentials(c, fd);
            var r := Step(c, s, e);
      && Possible(c, s, e) && Safe(c, s, e) && FreshAdmin(s, e) && FailsAuth(c, s, e, fd)
      && fd in r.holdMap && fd in r.conns && r.admins == map[] && r.main == s.main
      && Possible(c, r, e) && Safe(c, r, e) && FreshAdmin(r, e) && FailsAuth(c, r, e, fd)
  {
  }

  /** Where there is no such method, nobody fails. */
  lemma {:induction false} NobodyFails(c: Config, ss: seq<State>, es: seq<Event>, fd: int, m: nat, n: nat)
    requires FailingRun(c, ss, es, fd, m, n)
    ensures CanAuthenticate(c)
  {
    hide Step, Safe, Initial, FreshAdmin, HeldThroughout;
    assert Next(c, ss[n], es[n], ss[n + 1]);
  }

  /** What is documented of max_auth_tries holds if and only if it is two, or nobody can authenticate. */
  lemma {:induction false} TriesAreHonouredIff(c: Config)
    requires c.Valid()
    ensures TriesAreHonoured(c) <==> c.maxAuthTries == MAX_AUTH_TRIES || !CanAuthenticate(c)
  {
    hide FailingRun, Failures;
    if c.maxAuthTries == MAX_AUTH_TRIES || !CanAuthenticate(c) {
      forall ss: seq<State>, es: seq<Event>, fd: int, m: nat, n: nat | FailingRun(c, ss, es, fd, m, n)
        ensures |es| >= n && |ss| > n + 1 && (fd !in ss[n + 1].conns <==> Failures(c, ss, es, fd, m + 1, n) + 1 == c.maxAuthTries)
      {
        NobodyFails(c, ss, es, fd, m, n);
        FailingRunLengths(c, ss, es, fd, m, n);
        SecondFailureDrops(c, ss, es, fd, m, n);
      }
    } else {
      var ss, es := FailsTwice(c);
      FailingRunLengths(c, ss, es, c.sock + 1, 0, 2);
      SecondFailureDrops(c, ss, es, c.sock + 1, 0, 2);
    }
  }

  lemma {:induction false} FailingRunLengths(c: Config, ss: seq<State>, es: seq<Event>, fd: int, m: nat, n: nat)
    requires FailingRun(c, ss, es, fd, m, n)
    ensures |es| > n && |ss| > n + 1
  {
  }
}
