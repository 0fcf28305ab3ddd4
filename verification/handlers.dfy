/** The multiple app handlers of a cerver (src/cerver/handler.c:179-233, 386-413, 840-859) as a state
    machine over the atomic steps of the receiver and of one thread a handler, with the job queues and
    binary semaphores they meet at (src/cerver/threads/jobs.c:342-362, 484-510, src/cerver/threads/bsem.c). */
module Handlers {
  import opened Header

  datatype Packet = Packet(header: PacketHeader, data: seq<byte>)

  /** An entry of `handlers`: empty, with `direct_handle` (no thread is started), or with a thread. */
  datatype Kind = Null | Direct | Threaded

  /** Where a handler thread is: what it does next. */
  datatype Pc =
    | Absent      // no thread
    | Starting    // num_handlers_alive += 1
    | Looping     // test isRunning
    | Waiting     // bsem_wait (has_jobs)
    | Checking    // test isRunning again
    | Counting    // num_handlers_working += 1
    | Pulling     // lock the queue and remove its head
    | Posting     // jobs are left: bsem_post (has_jobs), unlock
    | Handling    // handler->handler (handler_data)
    | Finishing   // num_handlers_working -= 1
    | Leaving     // num_handlers_alive -= 1
    | Done

  /** Who holds the mutex of a job queue. */
  datatype Lock = Free | Pusher | Puller

  datatype Slot = Slot(
    kind: Kind, pc: Pc, queue: seq<Packet>, lock: Lock, hasJobs: bool, inHand: seq<Packet>, handled: seq<Packet>)

  datatype State = State(isRunning: bool, working: int, alive: int, slots: seq<Slot>, received: seq<Packet>)

  datatype Event =
    | Insert(packet: Packet)   // cerver_app_packet_handler () pushes: the insertion
    | Post(handler: nat)       // the bsem_post () that ends a push
    | Advance(handler: nat)    // one step of a handler thread
    | PostAll(handler: nat)    // bsem_post_all () of a cerver that waits for its handlers to end
    | Stop                     // isRunning = false

  function Start(kind: Kind): Slot {
    Slot(kind, if kind == Threaded then Starting else Absent, [], Free, false, [], [])
  }

  function Init(kinds: seq<Kind>): State {
    State(true, 0, 0, seq(|kinds|, i requires 0 <= i < |kinds| => Start(kinds[i])), [])
  }

  function AdvanceSlot(t: Slot, isRunning: bool): Slot {
    match t.pc
    case Absent => t
    case Starting => t.(pc := Looping)
    case Looping => t.(pc := if isRunning then Waiting else Leaving)
    case Waiting => if t.hasJobs then t.(pc := Checking, hasJobs := false) else t
    case Checking => t.(pc := if isRunning then Counting else Looping)
    case Counting => t.(pc := Pulling)
    case Pulling =>
      if t.lock != Free then t
      else if |t.queue| == 0 then t.(pc := Finishing)
      else if |t.queue| == 1 then t.(pc := Handling, inHand := t.queue, queue := [])
      else t.(pc := Posting, lock := Puller, inHand := [t.queue[0]], queue := t.queue[1..])
    case Posting => t.(pc := Handling, lock := Free, hasJobs := true)
    case Handling => t.(pc := Finishing, handled := t.handled + t.inHand, inHand := [])
    case Finishing => t.(pc := Looping)
    case Leaving => t.(pc := Done)
    case Done => t
  }

  /** A step that is not possible, as the mutex it needs is held, changes nothing. */
  function Step(s: State, e: Event): State {
    match e
    case Insert(p) =>
      var i := p.header.handlerId as nat;
      if i >= |s.slots| || s.slots[i].kind == Null then
        s.(received := s.received + [p])
      else if s.slots[i].lock != Free then
        s
      else
        s.(received := s.received + [p],
           slots := s.slots[i := s.slots[i].(queue := s.slots[i].queue + [p], lock := Pusher)])
    case Post(i) =>
      if i >= |s.slots| || s.slots[i].lock != Pusher then s
      else s.(slots := s.slots[i := s.slots[i].(hasJobs := true, lock := Free)])
    case Advance(i) =>
      if i >= |s.slots| then s else
      var t := s.slots[i];
      s.(slots := s.slots[i := AdvanceSlot(t, s.isRunning)],
         working := if t.pc == Counting then s.working + 1 else if t.pc == Finishing then s.working - 1 else s.working,
         alive := if t.pc == Starting then s.alive + 1 else if t.pc == Leaving then s.alive - 1 else s.alive)
    case PostAll(i) =>
      if i >= |s.slots| || s.slots[i].kind == Null then s
      else s.(slots := s.slots[i := s.slots[i].(hasJobs := true)])
    case Stop => s.(isRunning := false)
  }

  function Run(s: State, es: seq<Event>): (r: State)
    decreases |es|
  {
    if es == [] then s else Step(Run(s, es[..|es| - 1]), es[|es| - 1])
  }

  /** The packets for handler i, in the order they came. */
  function Routed(ps: seq<Packet>, i: nat): (r: seq<Packet>)
    decreases |ps|
  {
    if ps == [] then []
    else Routed(ps[..|ps| - 1], i) + if ps[|ps| - 1].header.handlerId as nat == i then [ps[|ps| - 1]] else []
  }

  predicate IsWorking(pc: Pc) {
    pc.Pulling? || pc.Posting? || pc.Handling? || pc.Finishing?
  }

  predicate IsAlive(pc: Pc) {
    !(pc.Absent? || pc.Starting? || pc.Done?)
  }

  function Count(slots: seq<Slot>, among: Pc -> bool): (n: nat)
    ensures n <= |slots|
    decreases |slots|
  {
    if slots == [] then 0
    else Count(slots[..|slots| - 1], among) + if among(slots[|slots| - 1].pc) then 1 else 0
  }

  /** What holds of a handler; `routed` are the packets received for it. */
  ghost predicate SlotOk(t: Slot, routed: seq<Packet>, isRunning: bool) {
    && (t.kind != Null ==> t.handled + t.inHand + t.queue == routed)
    && (t.kind == Null ==> t.handled == t.inHand == t.queue == [] && t.lock == Free)
    && (t.kind == Threaded <==> t.pc != Absent)
    && |t.inHand| == (if t.pc.Posting? || t.pc.Handling? then 1 else 0)
    && (t.lock == Puller <==> t.pc == Posting)
    && (isRunning ==> t.pc != Leaving && t.pc != Done)
    && (isRunning && t.queue != [] ==> Awake(t))
  }

  /** Somebody is going to see the queue: no wake-up has been lost. */
  predicate Awake(t: Slot) {
    t.hasJobs || t.lock == Pusher || t.pc.Checking? || t.pc.Counting? || t.pc.Pulling? || t.pc.Posting?
  }

  ghost predicate Inv(s: State) {
    && (forall i :: 0 <= i < |s.slots| ==> SlotOk(s.slots[i], Routed(s.received, i), s.isRunning))
    && s.working == Count(s.slots, IsWorking)
    && s.alive == Count(s.slots, IsAlive)
  }

  lemma {:induction false} CountUpdate(slots: seq<Slot>, i: nat, t: Slot, among: Pc -> bool)
    requires i < |slots|
    ensures Count(slots[i := t], among)
         == Count(slots, among) - (if among(slots[i].pc) then 1 else 0) + (if among(t.pc) then 1 else 0)
    decreases |slots|
  {
    var n := |slots| - 1;
    if i == n {
      assert slots[i := t][..n] == slots[..n];
    } else {
      assert slots[i := t][..n] == slots[..n][i := t];
      CountUpdate(slots[..n], i, t, among);
    }
  }

  /** A thread between its second pair of steps is between its first. */
  lemma {:induction false} CountIncluded(slots: seq<Slot>)
    ensures Count(slots, IsWorking) <= Count(slots, IsAlive)
    decreases |slots|
  {
    if slots == [] {
    } else {
      CountIncluded(slots[..|slots| - 1]);
    }
  }

  /** A count is full only when nobody is left out of it, and empty only when nobody is in it. */
  lemma {:induction false} CountBounds(slots: seq<Slot>, among: Pc -> bool)
    ensures Count(slots, among) == |slots| <==> forall i :: 0 <= i < |slots| ==> among(slots[i].pc)
    ensures Count(slots, among) == 0 <==> forall i :: 0 <= i < |slots| ==> !among(slots[i].pc)
    decreases |slots|
  {
    if slots == [] {
    } else {
      var n := |slots| - 1;
      CountBounds(slots[..n], among);
      assert forall i :: 0 <= i < n ==> slots[..n][i] == slots[i];
      assert slots[n] in slots;
    }
  }

  lemma RoutedSnoc(ps: seq<Packet>, p: Packet, i: nat)
    ensures Routed(ps + [p], i) == Routed(ps, i) + if p.header.handlerId as nat == i then [p] else []
  {
    assert (ps + [p])[..|ps|] == ps;
  }

  lemma AdvanceSlotOk(t: Slot, routed: seq<Packet>, isRunning: bool)
    requires SlotOk(t, routed, isRunning)
    ensures SlotOk(AdvanceSlot(t, isRunning), routed, isRunning)
  {
    var u := AdvanceSlot(t, isRunning);
    assert t.handled + t.inHand + t.queue == u.handled + u.inHand + u.queue;
  }

  /** A state that differs from one in order by one handler, which is in order too. */
  lemma ReplaceKeeps(s: State, r: State, i: nat)
    requires Inv(s) && i < |s.slots| == |r.slots| && r.slots == s.slots[i := r.slots[i]]
    requires r.isRunning == s.isRunning
    requires SlotOk(r.slots[i], Routed(r.received, i), r.isRunning)
    requires forall j :: 0 <= j < |s.slots| && j != i ==> Routed(r.received, j) == Routed(s.received, j)
    requires r.working == s.working - (if IsWorking(s.slots[i].pc) then 1 else 0)
                                    + (if IsWorking(r.slots[i].pc) then 1 else 0)
    requires r.alive == s.alive - (if IsAlive(s.slots[i].pc) then 1 else 0)
                                + (if IsAlive(r.slots[i].pc) then 1 else 0)
    ensures Inv(r)
  {
    hide Count, Routed, SlotOk;
    CountUpdate(s.slots, i, r.slots[i], IsWorking);
    CountUpdate(s.slots, i, r.slots[i], IsAlive);
  }

  lemma InsertKeeps(s: State, p: Packet)
    requires Inv(s)
    ensures Inv(Step(s, Insert(p)))
  {
    hide Count, Routed;
    var r := Step(s, Insert(p));
    forall j | 0 <= j < |s.slots|
      ensures Routed(s.received + [p], j) == Routed(s.received, j) + if p.header.handlerId as nat == j then [p] else []
    {
      RoutedSnoc(s.received, p, j);
    }
    var i := p.header.handlerId as nat;
    if i < |s.slots| && s.slots[i].kind != Null && s.slots[i].lock == Free {
      var t := s.slots[i];
      assert t.handled + t.inHand + (t.queue + [p]) == t.handled + t.inHand + t.queue + [p];
      ReplaceKeeps(s, r, i);
    }
  }

  lemma PostKeeps(s: State, i: nat)
    requires Inv(s)
    ensures Inv(Step(s, Post(i))) && Inv(Step(s, PostAll(i)))
  {
    hide Count, Routed;
    if i < |s.slots| && s.slots[i].lock == Pusher {
      ReplaceKeeps(s, Step(s, Post(i)), i);
    }
    if i < |s.slots| && s.slots[i].kind != Null {
      ReplaceKeeps(s, Step(s, PostAll(i)), i);
    }
  }

  /** What a step of a thread does to the two counters. */
  lemma AdvanceCounts(t: Slot, isRunning: bool)
    ensures var u := AdvanceSlot(t, isRunning);
      && (if IsWorking(u.pc) then 1 else 0) - (if IsWorking(t.pc) then 1 else 0)
         == (if t.pc.Counting? then 1 else if t.pc.Finishing? then -1 else 0)
      && (if IsAlive(u.pc) then 1 else 0) - (if IsAlive(t.pc) then 1 else 0)
         == (if t.pc.Starting? then 1 else if t.pc.Leaving? then -1 else 0)
  {
  }

  lemma AdvanceKeeps(s: State, i: nat)
    requires Inv(s)
    ensures Inv(Step(s, Advance(i)))
  {
    hide Count, Routed, SlotOk, AdvanceSlot, IsWorking, IsAlive;
    if i < |s.slots| {
      AdvanceSlotOk(s.slots[i], Routed(s.received, i), s.isRunning);
      AdvanceCounts(s.slots[i], s.isRunning);
      ReplaceKeeps(s, Step(s, Advance(i)), i);
    }
  }

  lemma StopKeeps(s: State)
    requires Inv(s)
    ensures Inv(Step(s, Stop))
  {
    hide Count, Routed, Awake;
  }

  /** Every step, whoever takes it, keeps what holds of the handlers and their counters. */
  lemma StepKeeps(s: State, e: Event)
    requires Inv(s)
    ensures Inv(Step(s, e)) && |Step(s, e).slots| == |s.slots|
  {
    hide Inv, AdvanceSlot;
    match e
    case Insert(p) => InsertKeeps(s, p);
    case Post(i) => PostKeeps(s, i);
    case Advance(i) => AdvanceKeeps(s, i);
    case PostAll(i) => PostKeeps(s, i);
    case Stop => StopKeeps(s);
  }

  lemma {:induction false} InitOk(kinds: seq<Kind>)
    ensures Inv(Init(kinds))
  {
    var s := Init(kinds);
    CountBounds(s.slots, IsWorking);
    CountBounds(s.slots, IsAlive);
  }

  ghost predicate SameKinds(s: State, kinds: seq<Kind>) {
    |s.slots| == |kinds| && forall i :: 0 <= i < |kinds| ==> s.slots[i].kind == kinds[i]
  }

  lemma {:induction false} StepKeepsKinds(s: State, e: Event, kinds: seq<Kind>)
    requires SameKinds(s, kinds)
    ensures SameKinds(Step(s, e), kinds)
  {
  }

  lemma {:induction false} RunKeeps(kinds: seq<Kind>, es: seq<Event>)
    ensures Inv(Run(Init(kinds), es)) && SameKinds(Run(Init(kinds), es), kinds)
    decreases |es|
  {
    hide Inv, AdvanceSlot;
    if es == [] {
      InitOk(kinds);
    } else {
      var s, e := Run(Init(kinds), es[..|es| - 1]), es[|es| - 1];
      RunKeeps(kinds, es[..|es| - 1]);
      StepKeeps(s, e);
      StepKeepsKinds(s, e, kinds);
    }
  }

  /** At every point of every interleaving, what handler i has handled, then what it has in hand, then
      what its queue holds, are the packets received for it, in the order they came. */
  lemma {:induction false} HandledInOrder(kinds: seq<Kind>, es: seq<Event>, i: nat)
    requires i < |kinds|
    ensures var s := Run(Init(kinds), es);
      && |s.slots| == |kinds|
      && s.slots[i].handled + s.slots[i].inHand + s.slots[i].queue
         == if kinds[i] == Null then [] else Routed(s.received, i)
  {
    hide Routed, Step, Run;
    RunKeeps(kinds, es);
  }

  /** The counters are the threads between their two updates; working handlers are alive ones, and
      when no thread is left both counters are zero. */
  lemma {:induction false} CountersExact(kinds: seq<Kind>, es: seq<Event>)
    ensures var s := Run(Init(kinds), es);
      && s.working == Count(s.slots, IsWorking)
      && s.alive == Count(s.slots, IsAlive)
      && 0 <= s.working <= s.alive <= |kinds|
      && (s.alive == 0 <==> forall i :: 0 <= i < |s.slots| ==> !IsAlive(s.slots[i].pc))
      && (s.alive == 0 ==> s.working == 0)
  {
    hide Count, Step, Run;
    RunKeeps(kinds, es);
    var s := Run(Init(kinds), es);
    CountIncluded(s.slots);
    CountBounds(s.slots, IsAlive);
  }

  predicate Stuck(t: Slot, isRunning: bool) {
    AdvanceSlot(t, isRunning) == t
  }

  /** No wake-up is lost: while the cerver runs, a handler thread that can take no step, with no push
      under way, has handled every packet received for it. */
  lemma {:induction false} StuckMeansDelivered(kinds: seq<Kind>, es: seq<Event>, i: nat)
    requires i < |kinds| && kinds[i] == Threaded
    ensures var s := Run(Init(kinds), es);
      && |s.slots| == |kinds|
      && (s.isRunning && s.slots[i].lock != Pusher && Stuck(s.slots[i], true)
          ==> s.slots[i].handled == Routed(s.received, i) && s.slots[i].queue == [])
  {
    hide Routed, Step, Run;
    RunKeeps(kinds, es);
    var t := Run(Init(kinds), es).slots[i];
    assert t.inHand == [] && t.queue == [] ==> t.handled + t.inHand + t.queue == t.handled;
  }

  /** How far a thread is, at most, from waiting with nothing to do. */
  function Work(t: Slot): (n: nat) {
    20 * |t.queue| + (if t.hasJobs then 10 else 0) +
    match t.pc
    case Absent => 0
    case Done => 0
    case Leaving => 1
    case Waiting => 2
    case Looping => 3
    case Finishing => 4
    case Handling => 5
    case Starting => 6
    case Pulling => 7
    case Counting => 8
    case Checking => 9
    case Posting => 17
  }

  lemma AdvanceDoesWork(t: Slot, isRunning: bool)
    ensures Stuck(t, isRunning) || Work(AdvanceSlot(t, isRunning)) < Work(t)
  {
  }

  /** The steps of thread i in a run that did something. */
  function Moves(s: State, es: seq<Event>, i: nat): (n: nat)
    decreases |es|
  {
    if es == [] then 0 else
    var last := Run(s, es[..|es| - 1]);
    Moves(s, es[..|es| - 1], i) +
      if es[|es| - 1] == Advance(i) && i < |last.slots| && !Stuck(last.slots[i], last.isRunning) then 1 else 0
  }

  /** What the others gave thread i to do. */
  function Given(es: seq<Event>, i: nat): (n: nat)
    decreases |es|
  {
    if es == [] then 0 else
    var e := es[|es| - 1];
    Given(es[..|es| - 1], i) +
      match e
      case Insert(p) => (if p.header.handlerId as nat == i then 20 else 0)
      case Post(j) => (if i == j then 10 else 0)
      case PostAll(j) => (if i == j then 10 else 0)
      case Advance(_) => 0
      case Stop => 0
  }

  lemma StepWork(s: State, e: Event, i: nat)
    requires i < |s.slots|
    ensures |Step(s, e).slots| == |s.slots|
    ensures Work(Step(s, e).slots[i])
              + (if e == Advance(i) && !Stuck(s.slots[i], s.isRunning) then 1 else 0)
         <= Work(s.slots[i]) + Given([e], i)
  {
    assert [e][..0] == [];
    assert Given([], i) == 0;
    if e.Advance? && e.handler < |s.slots| {
      AdvanceDoesWork(s.slots[e.handler], s.isRunning);
    }
  }

  /** In every interleaving a thread's steps are paid for by what it was given to do: it never spins. */
  lemma {:induction false} MovesAreBounded(s: State, es: seq<Event>, i: nat)
    requires i < |s.slots|
    ensures |Run(s, es).slots| == |s.slots|
    ensures Moves(s, es, i) + Work(Run(s, es).slots[i]) <= Work(s.slots[i]) + Given(es, i)
    decreases |es|
  {
    hide Work, AdvanceSlot, Stuck;
    if es == [] {
    } else {
      var front, e := es[..|es| - 1], es[|es| - 1];
      MovesAreBounded(s, front, i);
      StepWork(Run(s, front), e, i);
      assert [e][..0] == [];
      assert Given([], i) == 0;
      assert Given(es, i) == Given(front, i) + Given([e], i);
      assert Run(s, es) == Step(Run(s, front), e);
    }
  }

  function Steps(i: nat, n: nat): (es: seq<Event>) {
    seq(n, k => Advance(i))
  }

  lemma {:induction false} RunAppend(s: State, a: seq<Event>, b: seq<Event>)
    ensures Run(s, a + b) == Run(Run(s, a), b)
    decreases |b|
  {
    if b == [] {
      assert a + b == a;
    } else {
      var m := |b| - 1;
      assert (a + b)[..|a + b| - 1] == a + b[..m];
      RunAppend(s, a, b[..m]);
    }
  }

  /** A thread left alone comes to a stop in no more steps than its work, and nothing else moves. */
  lemma {:induction false} ComesToRest(s: State, i: nat) returns (n: nat)
    requires i < |s.slots|
    ensures n <= Work(s.slots[i])
    ensures var r := Run(s, Steps(i, n));
      && |r.slots| == |s.slots|
      && Stuck(r.slots[i], r.isRunning)
      && r.isRunning == s.isRunning && r.received == s.received
      && (s.slots[i].lock != Pusher ==> r.slots[i].lock != Pusher)
      && forall j :: 0 <= j < |s.slots| && j != i ==> r.slots[j] == s.slots[j]
    decreases Work(s.slots[i])
  {
    if Stuck(s.slots[i], s.isRunning) {
      n := 0;
      assert Run(s, Steps(i, n)) == s;
    } else {
      var next := Step(s, Advance(i));
      AdvanceDoesWork(s.slots[i], s.isRunning);
      var m := ComesToRest(next, i);
      n := m + 1;
      assert Steps(i, n) == [Advance(i)] + Steps(i, m);
      RunAppend(s, [Advance(i)], Steps(i, m));
      assert Run(s, []) == s;
      assert [Advance(i)][..0] == [];
      assert Run(s, [Advance(i)]) == next;
    }
  }

  /** From every point of every interleaving with no push under way, handler i needs only its own
      steps, and a bounded number of them, to have handled everything received for it. */
  lemma {:induction false} EverythingIsDelivered(kinds: seq<Kind>, es: seq<Event>, i: nat) returns (n: nat)
    requires i < |kinds| && kinds[i] == Threaded
    requires |Run(Init(kinds), es).slots| == |kinds|
    requires Run(Init(kinds), es).isRunning && Run(Init(kinds), es).slots[i].lock != Pusher
    ensures n <= Work(Run(Init(kinds), es).slots[i])
    ensures var r := Run(Init(kinds), es + Steps(i, n));
      && |r.slots| == |kinds|
      && r.received == Run(Init(kinds), es).received
      && r.slots[i].handled == Routed(r.received, i)
  {
    hide Routed, Step, Work;
    n := ComesToRest(Run(Init(kinds), es), i);
    RunAppend(Init(kinds), es, Steps(i, n));
    StuckMeansDelivered(kinds, es + Steps(i, n), i);
  }

  /** The first step of the threads below k. */
  function Starts(k: nat): (es: seq<Event>)
    ensures |es| == k
  {
    if k == 0 then [] else Starts(k - 1) + [Advance(k - 1)]
  }

  lemma {:induction false} StartsLast(kinds: seq<Kind>, k: nat)
    requires k > 0
    ensures Run(Init(kinds), Starts(k)) == Step(Run(Init(kinds), Starts(k - 1)), Advance(k - 1))
  {
    hide Step;
    assert Starts(k)[..k - 1] == Starts(k - 1);
  }

  lemma StartStep(s: State, i: nat)
    requires i < |s.slots| && s.slots[i].pc == Starting
    ensures Step(s, Advance(i)).slots == s.slots[i := s.slots[i].(pc := Looping)]
  {
  }

  lemma {:induction false} StartsRun(kinds: seq<Kind>, k: nat)
    requires k <= |kinds| && forall i :: 0 <= i < |kinds| ==> kinds[i] == Threaded
    ensures var s := Run(Init(kinds), Starts(k));
      && |s.slots| == |kinds|
      && forall i :: 0 <= i < |kinds| ==> s.slots[i].pc == if i < k then Looping else Starting
    decreases k
  {
    var s := Run(Init(kinds), Starts(k));
    if k == 0 {
      assert s == Init(kinds);
    } else {
      hide Run, Step;
      StartsRun(kinds, k - 1);
      StartsLast(kinds, k);
      StartStep(Run(Init(kinds), Starts(k - 1)), k - 1);
    }
  }

  /** cerver_multiple_app_handlers_start () waits for as many live handlers as there are entries: the
      wait can end exactly when no entry is empty or has `direct_handle`. */
  lemma {:induction false} StartupEndsIff(kinds: seq<Kind>)
    ensures (exists es :: Run(Init(kinds), es).alive == |kinds|)
       <==> (forall i :: 0 <= i < |kinds| ==> kinds[i] == Threaded)
  {
    hide Count, Step, Run;
    forall es | Run(Init(kinds), es).alive == |kinds|
      ensures forall i :: 0 <= i < |kinds| ==> kinds[i] == Threaded
    {
      RunKeeps(kinds, es);
      var s := Run(Init(kinds), es);
      CountBounds(s.slots, IsAlive);
      assert forall i :: 0 <= i < |kinds| ==> IsAlive(s.slots[i].pc);
      forall i | 0 <= i < |kinds| ensures kinds[i] == Threaded {
        assert SlotOk(s.slots[i], Routed(s.received, i), s.isRunning);
      }
    }
    if forall i :: 0 <= i < |kinds| ==> kinds[i] == Threaded {
      StartsRun(kinds, |kinds|);
      RunKeeps(kinds, Starts(|kinds|));
      CountBounds(Run(Init(kinds), Starts(|kinds|)).slots, IsAlive);
    }
  }

  // ------------------------------------------------------------------------------------ pushing

  /** From every point of every interleaving of a running cerver: when the receiver has finished a push
      that may be under way and the handler has come to rest, a new push is taken, and the packet is
      handled after all those received before. */
  lemma {:induction false} PushedIsHandled(kinds: seq<Kind>, es: seq<Event>, i: nat, p: Packet) returns (n1: nat, n2: nat)
    requires i < |kinds| && kinds[i] == Threaded && p.header.handlerId as nat == i
    requires Run(Init(kinds), es).isRunning
    ensures var received := Run(Init(kinds), es).received;
            var r := Run(Init(kinds), es + [Post(i)] + Steps(i, n1) + [Insert(p), Post(i)] + Steps(i, n2));
      && r.received == received + [p]
      && |r.slots| == |kinds|
      && r.slots[i].handled == Routed(received, i) + [p]
  {
    hide Routed, Step, Work, Run;
    var s := Run(Init(kinds), es);
    RunKeeps(kinds, es);
    PostFrees(s, i);
    var es1 := es + [Post(i)];
    RunSnoc(Init(kinds), es, Post(i));
    RunKeeps(kinds, es1);
    var s1 := Run(Init(kinds), es1);
    n1 := ComesToRest(s1, i);
    var es2 := es1 + Steps(i, n1);
    RunAppend(Init(kinds), es1, Steps(i, n1));
    RunKeeps(kinds, es2);
    var s2 := Run(Init(kinds), es2);
    StuckIsFree(s2.slots[i], Routed(s2.received, i), s2.isRunning);
    InsertIsTaken(s2, p);
    var es3 := es2 + [Insert(p)];
    RunSnoc(Init(kinds), es2, Insert(p));
    RunKeeps(kinds, es3);
    var s3 := Run(Init(kinds), es3);
    PostFrees(s3, i);
    var es4 := es3 + [Post(i)];
    RunSnoc(Init(kinds), es3, Post(i));
    RunKeeps(kinds, es4);
    n2 := EverythingIsDelivered(kinds, es4, i);
    RoutedSnoc(s2.received, p, i);
    assert es4 == es2 + [Insert(p), Post(i)];
  }

  lemma {:induction false} RunSnoc(s: State, es: seq<Event>, e: Event)
    ensures Run(s, es + [e]) == Step(Run(s, es), e)
  {
    assert (es + [e])[..|es|] == es;
  }

  /** The end of a push frees the queue. */
  lemma PostFrees(s: State, i: nat)
    requires i < |s.slots|
    ensures var r := Step(s, Post(i));
      && |r.slots| == |s.slots| && r.slots[i].lock != Pusher
      && r.isRunning == s.isRunning && r.received == s.received && r.slots[i].kind == s.slots[i].kind
  {
  }

  lemma StuckIsFree(t: Slot, routed: seq<Packet>, isRunning: bool)
    requires SlotOk(t, routed, isRunning) && Stuck(t, isRunning) && t.lock != Pusher
    ensures t.lock == Free
  {
  }

  /** A push to a handler whose queue is free is taken. */
  lemma InsertIsTaken(s: State, p: Packet)
    requires p.header.handlerId as nat < |s.slots|
    requires s.slots[p.header.handlerId as nat].kind != Null && s.slots[p.header.handlerId as nat].lock == Free
    ensures Step(s, Insert(p)).received == s.received + [p] && Step(s, Insert(p)).isRunning == s.isRunning
  {
  }

  // ----------------------------------------------------------------------------------- no idle pull

  /** Between a wake-up and the pull it leads to. */
  predicate Woken(pc: Pc) {
    pc.Checking? || pc.Counting? || pc.Pulling?
  }

  /** Each of the signs of a job stands for one. */
  predicate Precise(t: Slot) {
    && (t.hasJobs || t.lock == Pusher || Woken(t.pc) || t.pc.Posting? ==> |t.queue| >= 1)
    && (Woken(t.pc) && (t.hasJobs || t.lock == Pusher) ==> |t.queue| >= 2)
    && (t.hasJobs && t.lock == Pusher ==> |t.queue| >= 2)
    && (t.lock == Puller <==> t.pc.Posting?)
  }

  ghost predicate AllPrecise(s: State) {
    forall i :: 0 <= i < |s.slots| ==> Precise(s.slots[i])
  }

  lemma AdvanceKeepsPrecise(t: Slot, isRunning: bool)
    requires Precise(t)
    ensures Precise(AdvanceSlot(t, isRunning))
  {
  }

  lemma StepKeepsPrecise(s: State, e: Event)
    requires !e.PostAll? && AllPrecise(s)
    ensures AllPrecise(Step(s, e))
  {
    hide AdvanceSlot;
    if e.Advance? && e.handler < |s.slots| {
      AdvanceKeepsPrecise(s.slots[e.handler], s.isRunning);
    }
  }

  lemma {:induction false} RunPrecise(kinds: seq<Kind>, es: seq<Event>)
    requires forall e :: e in es ==> !e.PostAll?
    ensures AllPrecise(Run(Init(kinds), es))
    decreases |es|
  {
    hide Step, AllPrecise;
    if es == [] {
      StartIsPrecise(kinds);
    } else {
      var front, e := es[..|es| - 1], es[|es| - 1];
      assert e in es;
      RunPrecise(kinds, front);
      StepKeepsPrecise(Run(Init(kinds), front), e);
    }
  }

  /** No wake-up is idle, as long as nobody waits for the handlers to end: a handler that gets to its
      queue finds a job there. */
  lemma {:induction false} NoIdlePull(kinds: seq<Kind>, es: seq<Event>, i: nat)
    requires i < |kinds| && forall e :: e in es ==> !e.PostAll?
    ensures var s := Run(Init(kinds), es);
      |s.slots| == |kinds| && (s.slots[i].pc.Pulling? ==> s.slots[i].queue != [])
  {
    hide Run, Step, Inv;
    RunKeeps(kinds, es);
    RunPrecise(kinds, es);
  }

  lemma StartIsPrecise(kinds: seq<Kind>)
    ensures AllPrecise(Init(kinds))
  {
  }

  // ------------------------------------------------------------------------------------- stopping

  /** The job that a thread may still handle after the cerver has been stopped. */
  function Underway(pc: Pc): (n: nat) {
    if pc.Counting? || pc.Pulling? || pc.Posting? || pc.Handling? then 1 else 0
  }

  lemma AdvanceHandles(t: Slot)
    requires |t.inHand| <= (if t.pc.Posting? || t.pc.Handling? then 1 else 0)
    ensures var u := AdvanceSlot(t, false); |u.handled| + Underway(u.pc) <= |t.handled| + Underway(t.pc)
  {
  }

  lemma StepHandles(s: State, e: Event, i: nat)
    requires Inv(s) && !s.isRunning && i < |s.slots|
    ensures var r := Step(s, e);
      && Inv(r) && !r.isRunning && |r.slots| == |s.slots|
      && |r.slots[i].handled| + Underway(r.slots[i].pc) <= |s.slots[i].handled| + Underway(s.slots[i].pc)
  {
    hide AdvanceSlot, Count, Routed, Underway, Awake;
    StepKeeps(s, e);
    AdvanceHandles(s.slots[i]);
  }

  /** A cerver that has been stopped starts no job: whatever happens afterwards, a handler completes at
      most the one it was about to take or had taken. */
  lemma {:induction false} StoppedStartsNoJob(s: State, es: seq<Event>, i: nat)
    requires Inv(s) && !s.isRunning && i < |s.slots|
    ensures var r := Run(s, es);
      && Inv(r) && !r.isRunning && |r.slots| == |s.slots|
      && |r.slots[i].handled| + Underway(r.slots[i].pc) <= |s.slots[i].handled| + Underway(s.slots[i].pc)
      && |r.slots[i].handled| <= |s.slots[i].handled| + 1
    decreases |es|
  {
    hide Inv, Step;
    if es == [] {
    } else {
      StoppedStartsNoJob(s, es[..|es| - 1], i);
      StepHandles(Run(s, es[..|es| - 1]), es[|es| - 1], i);
    }
  }

  /** A thread that nothing keeps from ending. */
  predicate CanEnd(t: Slot) {
    && t.pc != Absent
    && t.lock != Pusher && (t.lock == Puller <==> t.pc.Posting?)
    && (t.pc.Waiting? ==> t.hasJobs)
  }

  lemma AdvanceEnds(t: Slot)
    requires CanEnd(t) && t.pc != Done
    ensures CanEnd(AdvanceSlot(t, false)) && Work(AdvanceSlot(t, false)) < Work(t)
  {
  }

  /** Once the cerver has been stopped, a handler that waits and is woken, or does not wait, ends in no
      more steps of its own than its work. */
  lemma {:induction false} ThreadEnds(s: State, i: nat) returns (n: nat)
    requires !s.isRunning && i < |s.slots| && CanEnd(s.slots[i])
    ensures n <= Work(s.slots[i])
    ensures var r := Run(s, Steps(i, n));
      && !r.isRunning && |r.slots| == |s.slots| && r.slots[i].pc == Done
      && forall j :: 0 <= j < |s.slots| && j != i ==> r.slots[j] == s.slots[j]
    decreases Work(s.slots[i])
  {
    hide AdvanceSlot, Work, CanEnd;
    if s.slots[i].pc == Done {
      n := 0;
      assert Run(s, Steps(i, n)) == s;
    } else {
      AdvanceEnds(s.slots[i]);
      var next := Step(s, Advance(i));
      var m := ThreadEnds(next, i);
      n := m + 1;
      assert Steps(i, n) == [Advance(i)] + Steps(i, m);
      RunAppend(s, [Advance(i)], Steps(i, m));
      RunSnoc(s, [], Advance(i));
      assert [] + [Advance(i)] == [Advance(i)] && Run(s, []) == s;
    }
  }

  ghost predicate Over(t: Slot) {
    t.pc == Absent || t.pc == Done
  }

  /** What a cerver that waits for its handlers does, and they do. */
  ghost predicate Ending(es: seq<Event>) {
    forall e :: e in es ==> e.Post? || e.PostAll? || e.Advance?
  }

  /** One handler after another is woken and ends. */
  lemma {:induction false} HandlersEnd(s: State, k: nat) returns (es: seq<Event>)
    requires Inv(s) && !s.isRunning && k <= |s.slots|
    ensures Ending(es)
    ensures var r := Run(s, es);
      && Inv(r) && !r.isRunning && |r.slots| == |s.slots|
      && forall i :: 0 <= i < k ==> Over(r.slots[i])
    decreases k
  {
    hide Inv, Step, Over;
    if k == 0 {
      es := [];
    } else {
      var before := HandlersEnd(s, k - 1);
      var t := Run(s, before);
      var more := HandlerEnds(t, k - 1);
      es := before + more;
      RunAppend(s, before, more);
    }
  }

  lemma {:induction false} HandlerEnds(s: State, i: nat) returns (es: seq<Event>)
    requires Inv(s) && !s.isRunning && i < |s.slots|
    ensures Ending(es)
    ensures var r := Run(s, es);
      && Inv(r) && !r.isRunning && |r.slots| == |s.slots| && Over(r.slots[i])
      && forall j :: 0 <= j < |s.slots| && j != i ==> r.slots[j] == s.slots[j]
  {
    hide Inv, Step, Over;
    StepKeeps(s, Post(i));
    var s1 := Step(s, Post(i));
    StepKeeps(s1, PostAll(i));
    var s2 := Step(s1, PostAll(i));
    WakeUp(s, i);
    RunTwo(s, Post(i), PostAll(i));
    if s2.slots[i].pc == Absent {
      es := [Post(i), PostAll(i)];
      AbsentIsOver(s2.slots[i]);
    } else {
      var n := ThreadEnds(s2, i);
      es := [Post(i), PostAll(i)] + Steps(i, n);
      RunAppend(s, [Post(i), PostAll(i)], Steps(i, n));
      RunInv(s2, Steps(i, n));
      DoneIsOver(Run(s2, Steps(i, n)).slots[i]);
    }
  }

  lemma AbsentIsOver(t: Slot)
    requires t.pc == Absent
    ensures Over(t)
  {
  }

  lemma DoneIsOver(t: Slot)
    requires t.pc == Done
    ensures Over(t)
  {
  }

  lemma {:induction false} RunTwo(s: State, a: Event, b: Event)
    ensures Run(s, [a, b]) == Step(Step(s, a), b)
  {
    hide Step;
    RunSnoc(s, [], a);
    RunSnoc(s, [a], b);
    assert [] + [a] == [a] && [a] + [b] == [a, b] && Run(s, []) == s;
  }

  lemma {:induction false} RunInv(s: State, es: seq<Event>)
    requires Inv(s)
    ensures Inv(Run(s, es))
    decreases |es|
  {
    hide Inv, Step;
    if es == [] {
    } else {
      RunInv(s, es[..|es| - 1]);
      StepKeeps(Run(s, es[..|es| - 1]), es[|es| - 1]);
    }
  }

  /** Ending a push and posting wakes a thread up. */
  lemma WakeUp(s: State, i: nat)
    requires Inv(s) && !s.isRunning && i < |s.slots|
    ensures var r := Step(Step(s, Post(i)), PostAll(i));
      && !r.isRunning && |r.slots| == |s.slots|
      && (r.slots[i].pc != Absent ==> CanEnd(r.slots[i]))
      && forall j :: 0 <= j < |s.slots| && j != i ==> r.slots[j] == s.slots[j]
  {
    hide Count, Routed;
  }

  /** From every point of every interleaving: the cerver can be stopped, and its handlers woken, so that
      all of them end and both counters are zero. */
  lemma {:induction false} EverybodyEnds(kinds: seq<Kind>, es: seq<Event>) returns (more: seq<Event>)
    ensures Ending(more)
    ensures var r := Run(Init(kinds), es + [Stop] + more);
      && r.alive == 0 && r.working == 0 && |r.slots| == |kinds|
      && forall i :: 0 <= i < |kinds| ==> r.slots[i].pc == if kinds[i] == Threaded then Done else Absent
  {
    hide Inv, Step;
    RunKeeps(kinds, es + [Stop]);
    RunSnoc(Init(kinds), es, Stop);
    var s := Run(Init(kinds), es + [Stop]);
    StopStops(Run(Init(kinds), es));
    more := HandlersEnd(s, |kinds|);
    RunAppend(Init(kinds), es + [Stop], more);
    RunKeeps(kinds, es + [Stop] + more);
    AllOver(Run(Init(kinds), es + [Stop] + more), kinds);
  }

  /** A cerver runs until it is stopped. */
  lemma {:induction false} RunsUntilStopped(kinds: seq<Kind>, es: seq<Event>)
    ensures Run(Init(kinds), es).isRunning <==> Stop !in es
    decreases |es|
  {
    hide AdvanceSlot;
    if es == [] {
    } else {
      var front := es[..|es| - 1];
      assert es == front + [es[|es| - 1]];
      RunsUntilStopped(kinds, front);
    }
  }

  lemma StopStops(s: State)
    ensures !Step(s, Stop).isRunning
  {
  }

  lemma AllOver(s: State, kinds: seq<Kind>)
    requires Inv(s) && SameKinds(s, kinds) && forall i :: 0 <= i < |s.slots| ==> Over(s.slots[i])
    ensures s.alive == 0 && s.working == 0
    ensures forall i :: 0 <= i < |kinds| ==> s.slots[i].pc == if kinds[i] == Threaded then Done else Absent
  {
    hide Count, Routed;
    CountBounds(s.slots, IsAlive);
    CountBounds(s.slots, IsWorking);
    forall i | 0 <= i < |kinds| ensures s.slots[i].pc == if kinds[i] == Threaded then Done else Absent {
      assert SlotOk(s.slots[i], Routed(s.received, i), s.isRunning);
    }
  }
}
