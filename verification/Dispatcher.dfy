/** The event dispatcher of EventDispatcher/event_dispatcher.c as interleaved
    steps.  A step is what one thread does while it holds a lock; the membership
    test at the head of event_dispatcher_schedule_task is taken to lie inside the
    lock, and a waiting thread wakes up only when it is signalled. */
module Dispatcher {

  // Kinds of tasks; `sync` marks a task whose creator waits for its end.
  datatype Kind = OneShot(sync: bool) | Background | PktJob(queue: nat)

  datatype Task = Task(id: nat, kind: Kind)

  // Where the dispatcher thread is: in front of the next iteration, waiting, in
  // the task's function, behind it, or about to queue the task again.
  datatype Phase =
    | Fetching
    | Blocked(signalled: bool)
    | Running(task: Task, again: bool)
    | Returned(task: Task, again: bool)
    | Requeueing(task: Task)

  datatype Packet = Packet(queue: nat, id: nat)

  datatype State = State(
    tasks: seq<Task>,            // task_array_head
    idle: bool,                  // ev_dis_state == EV_DIS_IDLE
    signalSent: bool,
    phase: Phase,
    packets: map<nat, seq<Packet>>,
    added: multiset<nat>,        // threads between adding a packet and looking for the job
    deciding: multiset<nat>,     // threads that have not found the job and will queue it
    waiting: set<Task>,          // creators of synchronous tasks
    enqueued: multiset<Packet>,
    handedOut: multiset<Packet>)

  const START := State([], true, false, Fetching, map[], multiset{}, multiset{}, {}, multiset{}, multiset{})

  function Waiting(s: State, q: nat): seq<Packet> {
    if q in s.packets then s.packets[q] else []
  }

  // There is one job per packet queue.
  function Job(q: nat): Task {
    Task(q, PktJob(q))
  }

  /** event_dispatcher_schedule_task. */
  function Schedule(s: State, t: Task): State {
    if t.kind.PktJob? && t in s.tasks then s
    else
      var wake := s.idle && !s.signalSent;
      s.(tasks := s.tasks + [t],
         signalSent := s.signalSent || wake,
         phase := if wake && s.phase.Blocked? then Blocked(true) else s.phase,
         waiting := if t.kind == OneShot(true) then s.waiting + {t} else s.waiting)
  }

  datatype Event =
    | Create(t: Task)
    | AddPacket(p: Packet)
    | LookForJob(q: nat)
    | QueueJob(q: nat)
    | Fetch
    | Wake
    | TakePacket
    | ScheduleAgain
    | Return
    | PostCall
    | Requeue

  function Current(s: State): set<Task> {
    if s.phase.Running? || s.phase.Returned? || s.phase.Requeueing? then {s.phase.task} else {}
  }

  predicate Enabled(s: State, e: Event) {
    match e
    case Create(t) => !t.kind.PktJob? && t !in s.tasks && t !in Current(s) && t !in s.waiting
    case AddPacket(p) => true
    case LookForJob(q) => q in s.added
    case QueueJob(q) => q in s.deciding
    case Fetch => s.phase.Fetching?
    case Wake => s.phase == Blocked(true)
    case TakePacket => s.phase.Running? && s.phase.task.kind.PktJob?
    case ScheduleAgain => s.phase.Running? && s.phase.task.kind == OneShot(false)
    case Return => s.phase.Running?
    case PostCall => s.phase.Returned?
    case Requeue => s.phase.Requeueing?
  }

  function Step(s: State, e: Event): State
    requires Enabled(s, e)
  {
    match e
    case Create(t) => Schedule(s, t)
    case AddPacket(p) => s.(packets := s.packets[p.queue := [p] + Waiting(s, p.queue)],
      added := s.added + multiset{p.queue}, enqueued := s.enqueued + multiset{p})
    case LookForJob(q) =>
      var t := s.(added := s.added - multiset{q});
      if Job(q) in s.tasks then t else t.(deciding := s.deciding + multiset{q})
    case QueueJob(q) => Schedule(s.(deciding := s.deciding - multiset{q}), Job(q))
    case Fetch =>
      if s.tasks == [] then s.(idle := true, signalSent := false, phase := Blocked(false))
      else s.(tasks := s.tasks[1..], idle := false, phase := Running(s.tasks[0], false))
    case Wake => s.(phase := Fetching)
    case TakePacket =>
      var q := s.phase.task.kind.queue;
      var ps := Waiting(s, q);
      if ps == [] then s else s.(packets := s.packets[q := ps[1..]], handedOut := s.handedOut + multiset{ps[0]})
    case ScheduleAgain => s.(phase := Running(s.phase.task, true))
    case Return => s.(phase := Returned(s.phase.task, s.phase.again))
    case PostCall =>
      var t := s.phase.task;
      (match t.kind
       case OneShot(sync) =>
         if s.phase.again then s.(phase := Requeueing(t))
         else s.(phase := Fetching, waiting := if sync then s.waiting - {t} else s.waiting)
       case Background => s.(phase := Requeueing(t))
       case PktJob(q) => s.(phase := if Waiting(s, q) == [] then Fetching else Requeueing(t)))
    case Requeue => Schedule(s.(phase := Fetching), s.phase.task)
  }

  // ---------- the invariant ----------

  /** A dispatcher that is blocked has nothing to do or is about to wake up. */
  predicate Awake(s: State) {
    && (s.phase == Blocked(false) ==> s.tasks == [] && s.idle && !s.signalSent)
    && (s.phase == Blocked(true) ==> s.idle && s.signalSent)
    && (Current(s) != {} ==> !s.idle)
  }

  predicate Once(ts: seq<Task>) {
    forall i, j | 0 <= i < j < |ts| :: ts[i] != ts[j]
  }

  /** No task is queued twice, and a running task of the other two kinds is not queued. */
  predicate Single(s: State) {
    Once(s.tasks) && forall t | t in Current(s) && !t.kind.PktJob? :: t !in s.tasks
  }

  // Jobs of packet queues are the ones made for them.
  ghost predicate Jobs(s: State) {
    forall t | t in s.tasks || t in Current(s) :: t.kind.PktJob? ==> t == Job(t.kind.queue)
  }

  /** A queue with packets has its job queued, running or about to be queued. */
  predicate Tended(s: State, q: nat) {
    Waiting(s, q) != [] ==> Job(q) in s.tasks || Job(q) in Current(s) || q in s.added || q in s.deciding
  }

  /** Packets are neither lost nor doubled. */
  ghost predicate Conserved(s: State, p: Packet) {
    s.enqueued[p] == multiset(Waiting(s, p.queue))[p] + s.handedOut[p]
  }

  // Packets wait in the queue they belong to.
  predicate Sorted(s: State, q: nat) {
    forall p | p in Waiting(s, q) :: p.queue == q
  }

  /** The creator of a synchronous task is waiting exactly until the task has ended. */
  ghost predicate Expected(s: State) {
    forall t :: t in s.waiting <==> t.kind == OneShot(true) && (t in s.tasks || t in Current(s))
  }

  // A task that asked to run again is not synchronous.
  predicate AgainOk(s: State) {
    && (s.phase.Running? || s.phase.Returned? ==> s.phase.again ==> s.phase.task.kind == OneShot(false))
    && (s.phase.Requeueing? ==> s.phase.task.kind != OneShot(true))
  }

  ghost predicate Inv(s: State) {
    && Awake(s) && Single(s) && Jobs(s) && Expected(s) && AgainOk(s)
    && (forall q {:trigger Tended(s, q)} :: Tended(s, q))
    && (forall q {:trigger Sorted(s, q)} :: Sorted(s, q))
    && (forall p {:trigger Conserved(s, p)} :: Conserved(s, p))
  }

  // The invariant opened at one queue and one packet.
  lemma Open(s: State, q: nat, p: Packet)
    requires Inv(s)
    ensures Awake(s) && Single(s) && Jobs(s) && Expected(s) && AgainOk(s) && Tended(s, q) && Sorted(s, q) &&
      Conserved(s, p)
  {
  }

  // What scheduling does, seen from one task.
  lemma Scheduled(s: State, t: Task)
    ensures var r := Schedule(s, t);
      && t in r.tasks && (forall x :: x in r.tasks <==> x in s.tasks || x == t)
      && r.packets == s.packets && r.added == s.added && r.deciding == s.deciding && r.idle == s.idle
      && r.enqueued == s.enqueued && r.handedOut == s.handedOut && Current(r) == Current(s)
      && (s.phase.Blocked? <==> r.phase.Blocked?) && (!s.phase.Blocked? ==> r.phase == s.phase)
      && r.waiting == if t.kind == OneShot(true) then s.waiting + {t} else s.waiting
  {
    assert t in s.tasks + [t];
    forall x ensures x in Schedule(s, t).tasks <==> x in s.tasks || x == t {
    }
  }

  // Steps that schedule a task, steps around packets, and steps of the dispatcher.
  predicate Posting(e: Event) {
    e.Create? || e.QueueJob? || e.Requeue?
  }

  predicate Packeting(e: Event) {
    e.AddPacket? || e.LookForJob? || e.TakePacket?
  }

  lemma PostingTended(s: State, e: Event, q: nat)
    requires Posting(e) && Enabled(s, e) && Tended(s, q) && Sorted(s, q) && Jobs(s)
    ensures Tended(Step(s, e), q) && Sorted(Step(s, e), q)
  {
    hide Schedule;
    match e
    case Create(t) => Scheduled(s, t);
    case QueueJob(r) => Scheduled(s.(deciding := s.deciding - multiset{r}), Job(r));
    case Requeue => Scheduled(s.(phase := Fetching), s.phase.task);
  }

  lemma AddTended(s: State, p: Packet, q: nat)
    requires Tended(s, q) && Sorted(s, q)
    ensures Tended(Step(s, AddPacket(p)), q) && Sorted(Step(s, AddPacket(p)), q)
  {
    hide Schedule;
    var t := Step(s, AddPacket(p));
    assert Waiting(t, q) == (if q == p.queue then [p] else []) + Waiting(s, q);
  }

  lemma LookTended(s: State, r: nat, q: nat)
    requires r in s.added && Tended(s, q) && Sorted(s, q)
    ensures Tended(Step(s, LookForJob(r)), q) && Sorted(Step(s, LookForJob(r)), q)
  {
    hide Schedule;
  }

  lemma TakeTended(s: State, q: nat)
    requires Enabled(s, TakePacket) && Tended(s, q) && Sorted(s, q)
    ensures Tended(Step(s, TakePacket), q) && Sorted(Step(s, TakePacket), q)
  {
    hide Schedule;
    var t := Step(s, TakePacket);
    assert forall p | p in Waiting(t, q) :: p in Waiting(s, q);
  }

  lemma PacketingTended(s: State, e: Event, q: nat)
    requires Packeting(e) && Enabled(s, e) && Tended(s, q) && Sorted(s, q) && Jobs(s)
    ensures Tended(Step(s, e), q) && Sorted(Step(s, e), q)
  {
    hide Step, Tended, Sorted;
    match e
    case AddPacket(p) => AddTended(s, p, q);
    case LookForJob(r) => LookTended(s, r, q);
    case TakePacket => TakeTended(s, q);
  }

  lemma StepTended(s: State, e: Event, q: nat)
    requires Enabled(s, e) && Tended(s, q) && Sorted(s, q) && Jobs(s)
    ensures Tended(Step(s, e), q) && Sorted(Step(s, e), q)
  {
    if Posting(e) {
      PostingTended(s, e, q);
    } else if Packeting(e) {
      PacketingTended(s, e, q);
    } else {
      hide Schedule;
      match e
      case Fetch => if s.tasks != [] { assert forall x | x in s.tasks :: x == s.tasks[0] || x in s.tasks[1..]; }
      case Wake =>
      case ScheduleAgain =>
      case Return =>
      case PostCall =>
    }
  }

  lemma PostingConserved(s: State, e: Event, p: Packet)
    requires Posting(e) && Enabled(s, e) && Conserved(s, p) && forall q :: Sorted(s, q)
    ensures Conserved(Step(s, e), p)
  {
    hide Schedule;
    match e
    case Create(t) => Scheduled(s, t);
    case QueueJob(r) => Scheduled(s.(deciding := s.deciding - multiset{r}), Job(r));
    case Requeue => Scheduled(s.(phase := Fetching), s.phase.task);
  }

  lemma Added(s: State, added: Packet, q: nat)
    ensures var t := Step(s, AddPacket(added));
      && t.enqueued == s.enqueued + multiset{added} && t.handedOut == s.handedOut
      && Waiting(t, q) == (if q == added.queue then [added] else []) + Waiting(s, q)
  {
    hide Schedule;
  }

  lemma AddConserved(s: State, added: Packet, p: Packet)
    requires Conserved(s, p)
    ensures Conserved(Step(s, AddPacket(added)), p)
  {
    hide Step, Waiting;
    Added(s, added, p.queue);
  }

  lemma TakeConserved(s: State, p: Packet)
    requires Enabled(s, TakePacket) && Conserved(s, p) && forall q :: Sorted(s, q)
    ensures Conserved(Step(s, TakePacket), p)
  {
    hide Schedule;
    var q := s.phase.task.kind.queue;
    var ps := Waiting(s, q);
    assert Sorted(s, q);
    if ps != [] { assert ps == [ps[0]] + ps[1..] && ps[0] in ps; }
  }

  lemma PacketingConserved(s: State, e: Event, p: Packet)
    requires Packeting(e) && Enabled(s, e) && Conserved(s, p) && forall q :: Sorted(s, q)
    ensures Conserved(Step(s, e), p)
  {
    match e
    case AddPacket(added) =>
      hide Step, Conserved;
      AddConserved(s, added, p);
    case LookForJob(_) =>
    case TakePacket =>
      hide Step, Conserved;
      TakeConserved(s, p);
  }

  lemma StepConserved(s: State, e: Event, p: Packet)
    requires Enabled(s, e) && Conserved(s, p) && forall q :: Sorted(s, q)
    ensures Conserved(Step(s, e), p)
  {
    if Posting(e) {
      PostingConserved(s, e, p);
    } else if Packeting(e) {
      PacketingConserved(s, e, p);
    } else {
      hide Schedule;
      match e
      case Fetch =>
      case Wake =>
      case ScheduleAgain =>
      case Return =>
      case PostCall =>
    }
  }

  lemma PostingJobs(s: State, e: Event)
    requires Posting(e) && Enabled(s, e) && Jobs(s)
    ensures Jobs(Step(s, e))
  {
    hide Schedule;
    match e
    case Create(t) => Scheduled(s, t);
    case QueueJob(r) => Scheduled(s.(deciding := s.deciding - multiset{r}), Job(r));
    case Requeue => Scheduled(s.(phase := Fetching), s.phase.task);
  }

  lemma PacketingJobs(s: State, e: Event)
    requires Packeting(e) && Enabled(s, e) && Jobs(s)
    ensures Jobs(Step(s, e))
  {
    hide Schedule;
    match e
    case AddPacket(_) =>
    case LookForJob(_) =>
    case TakePacket =>
  }

  lemma StepJobs(s: State, e: Event)
    requires Enabled(s, e) && Jobs(s)
    ensures Jobs(Step(s, e))
  {
    if Posting(e) {
      PostingJobs(s, e);
    } else if Packeting(e) {
      PacketingJobs(s, e);
    } else {
      hide Schedule;
      match e
      case Fetch =>
      case Wake =>
      case ScheduleAgain =>
      case Return =>
      case PostCall =>
    }
  }

  lemma ScheduleSingle(s: State, t: Task)
    requires Single(s) && (t.kind.PktJob? || (t !in s.tasks && t !in Current(s)))
    ensures Single(Schedule(s, t))
  {
    Scheduled(s, t);
  }

  lemma PostingSingle(s: State, e: Event)
    requires Posting(e) && Enabled(s, e) && Single(s)
    ensures Single(Step(s, e))
  {
    hide Schedule;
    match e
    case Create(t) => ScheduleSingle(s, t);
    case QueueJob(r) => ScheduleSingle(s.(deciding := s.deciding - multiset{r}), Job(r));
    case Requeue => ScheduleSingle(s.(phase := Fetching), s.phase.task);
  }

  lemma PacketingSingle(s: State, e: Event)
    requires Packeting(e) && Enabled(s, e) && Single(s)
    ensures Single(Step(s, e))
  {
    hide Schedule;
    match e
    case AddPacket(_) =>
    case LookForJob(_) =>
    case TakePacket =>
  }

  lemma StepSingle(s: State, e: Event)
    requires Enabled(s, e) && Single(s)
    ensures Single(Step(s, e))
  {
    if Posting(e) {
      PostingSingle(s, e);
    } else if Packeting(e) {
      PacketingSingle(s, e);
    } else {
      hide Schedule;
      match e
      case Fetch =>
      case Wake =>
      case ScheduleAgain =>
      case Return =>
      case PostCall =>
    }
  }

  lemma ScheduleExpected(s: State, t: Task)
    requires Expected(s)
    ensures Expected(Schedule(s, t))
  {
    Scheduled(s, t);
  }

  lemma PostingExpected(s: State, e: Event)
    requires Posting(e) && Enabled(s, e) && Expected(s) && Single(s) && AgainOk(s)
    ensures Expected(Step(s, e))
  {
    hide Schedule;
    match e
    case Create(t) => ScheduleExpected(s, t);
    case QueueJob(r) => ScheduleExpected(s.(deciding := s.deciding - multiset{r}), Job(r));
    case Requeue => ScheduleExpected(s.(phase := Fetching), s.phase.task);
  }

  lemma PacketingExpected(s: State, e: Event)
    requires Packeting(e) && Enabled(s, e) && Expected(s) && Single(s)
    ensures Expected(Step(s, e))
  {
    hide Schedule;
    match e
    case AddPacket(_) =>
    case LookForJob(_) =>
    case TakePacket =>
  }

  lemma FetchExpected(s: State)
    requires s.phase.Fetching? && Expected(s)
    ensures Expected(Step(s, Fetch))
  {
    hide Schedule, Waiting;
    if s.tasks != [] { assert forall x :: x in s.tasks <==> x == s.tasks[0] || x in s.tasks[1..]; }
  }

  // The end of a synchronous task wakes its creator.
  lemma PostCallExpected(s: State)
    requires s.phase.Returned? && Expected(s) && Single(s) && AgainOk(s)
    ensures Expected(Step(s, PostCall))
  {
    hide Schedule, Waiting;
    assert s.phase.task in Current(s);
  }

  lemma StepExpected(s: State, e: Event)
    requires Enabled(s, e) && Expected(s) && Single(s) && AgainOk(s)
    ensures Expected(Step(s, e))
  {
    if Posting(e) {
      PostingExpected(s, e);
    } else if Packeting(e) {
      PacketingExpected(s, e);
    } else if e.Fetch? {
      FetchExpected(s);
    } else if e.PostCall? {
      PostCallExpected(s);
    } else {
      hide Schedule, Waiting;
      assert e.Wake? || e.ScheduleAgain? || e.Return?;
    }
  }

  lemma ScheduleAwake(s: State, t: Task)
    requires Awake(s)
    ensures Awake(Schedule(s, t))
  {
  }

  lemma PostingAwake(s: State, e: Event)
    requires Posting(e) && Enabled(s, e) && Awake(s)
    ensures Awake(Step(s, e))
  {
    hide Schedule;
    match e
    case Create(t) => ScheduleAwake(s, t);
    case QueueJob(r) => ScheduleAwake(s.(deciding := s.deciding - multiset{r}), Job(r));
    case Requeue => ScheduleAwake(s.(phase := Fetching), s.phase.task);
  }

  lemma PacketingAwake(s: State, e: Event)
    requires Packeting(e) && Enabled(s, e) && Awake(s)
    ensures Awake(Step(s, e))
  {
    hide Schedule, Waiting;
  }

  lemma StepAwake(s: State, e: Event)
    requires Enabled(s, e) && Awake(s)
    ensures Awake(Step(s, e))
  {
    if Posting(e) {
      PostingAwake(s, e);
    } else if Packeting(e) {
      PacketingAwake(s, e);
    } else {
      hide Schedule, Waiting;
      match e
      case Fetch =>
      case Wake =>
      case ScheduleAgain =>
      case Return =>
      case PostCall =>
    }
  }

  lemma PostingAgain(s: State, e: Event)
    requires Posting(e) && Enabled(s, e) && AgainOk(s)
    ensures AgainOk(Step(s, e))
  {
    hide Schedule;
    match e
    case Create(t) => Scheduled(s, t);
    case QueueJob(r) => Scheduled(s.(deciding := s.deciding - multiset{r}), Job(r));
    case Requeue => Scheduled(s.(phase := Fetching), s.phase.task);
  }

  lemma PacketingPhase(s: State, e: Event)
    requires Packeting(e) && Enabled(s, e)
    ensures Step(s, e).phase == s.phase
  {
  }

  lemma StepAgain(s: State, e: Event)
    requires Enabled(s, e) && AgainOk(s)
    ensures AgainOk(Step(s, e))
  {
    if Posting(e) {
      PostingAgain(s, e);
    } else if Packeting(e) {
      hide Step;
      PacketingPhase(s, e);
    } else {
      hide Schedule, Waiting;
      match e
      case Fetch =>
      case Wake =>
      case ScheduleAgain =>
      case Return =>
      case PostCall =>
    }
  }

  /** Every step of every thread keeps the invariant. */
  lemma StepInv(s: State, e: Event)
    requires Inv(s) && Enabled(s, e)
    ensures Inv(Step(s, e))
  {
    hide Inv, Step, Tended, Sorted, Conserved, Awake, Single, Jobs, Expected, AgainOk, Enabled;
    Open(s, 0, Packet(0, 0));
    StepAwake(s, e);
    StepSingle(s, e);
    StepJobs(s, e);
    StepExpected(s, e);
    StepAgain(s, e);
    forall q ensures Sorted(s, q) && Tended(Step(s, e), q) && Sorted(Step(s, e), q) {
      Open(s, q, Packet(0, 0));
      StepTended(s, e, q);
    }
    forall p ensures Conserved(Step(s, e), p) {
      Open(s, 0, p);
      StepConserved(s, e, p);
    }
    Whole(Step(s, e));
  }

  lemma Whole(s: State)
    requires Awake(s) && Single(s) && Jobs(s) && Expected(s) && AgainOk(s)
    requires forall q {:trigger Tended(s, q)} :: Tended(s, q)
    requires forall q {:trigger Sorted(s, q)} :: Sorted(s, q)
    requires forall p {:trigger Conserved(s, p)} :: Conserved(s, p)
    ensures Inv(s)
  {
  }

  // ---------- whole runs ----------

  ghost predicate Runs(s: State, es: seq<Event>)
    decreases |es|, 0
  {
    es == [] || (Runs(s, es[..|es| - 1]) && Enabled(Run(s, es[..|es| - 1]), es[|es| - 1]))
  }

  ghost function Run(s: State, es: seq<Event>): State
    requires Runs(s, es)
    decreases |es|, 1
  {
    if es == [] then s else Step(Run(s, es[..|es| - 1]), es[|es| - 1])
  }

  lemma {:induction false} RunInv(es: seq<Event>)
    requires Runs(START, es)
    ensures Inv(Run(START, es))
    decreases |es|
  {
    if es != [] {
      RunInv(es[..|es| - 1]);
      StepInv(Run(START, es[..|es| - 1]), es[|es| - 1]);
    }
  }

  /** However the threads interleave: a dispatcher that sleeps unsignalled leaves no
      task behind, and no packet either once the threads that add packets are through. */
  lemma NoWorkLost(es: seq<Event>)
    requires Runs(START, es) && Run(START, es).phase == Blocked(false)
    ensures var s := Run(START, es); s.tasks == [] && forall q :: Waiting(s, q) != [] ==>
      q in s.added || q in s.deciding
  {
    RunInv(es);
    var s := Run(START, es);
    forall q ensures Waiting(s, q) != [] ==> q in s.added || q in s.deciding {
      Open(s, q, Packet(0, 0));
    }
  }

  /** However the threads interleave: the creator of a synchronous task waits exactly
      until the task has ended.  So a dispatcher that sleeps unsignalled leaves nobody
      waiting. */
  lemma CreatorsWake(es: seq<Event>)
    requires Runs(START, es)
    ensures var s := Run(START, es);
      && (forall t :: t in s.waiting <==> t.kind == OneShot(true) && (t in s.tasks || t in Current(s)))
      && (s.phase == Blocked(false) ==> s.waiting == {})
  {
    RunInv(es);
    var s := Run(START, es);
    Open(s, 0, Packet(0, 0));
  }

  /** Every packet is handed out as often as it was added, or still waits. */
  lemma ExactlyOnce(es: seq<Event>, p: Packet)
    requires Runs(START, es)
    ensures var s := Run(START, es);
      s.handedOut[p] <= s.enqueued[p] &&
      (p !in Waiting(s, p.queue) ==> s.handedOut[p] == s.enqueued[p])
  {
    RunInv(es);
    Open(Run(START, es), 0, p);
  }

  /** The assertion that a task to be queued is in no list never fails, and the
      creator of a synchronous task waits when the task's end is signalled. */
  lemma AssertionsHold(es: seq<Event>)
    requires Runs(START, es)
    ensures var s := Run(START, es);
      && (s.phase.Requeueing? && !s.phase.task.kind.PktJob? ==> s.phase.task !in s.tasks)
      && (s.phase.Returned? && s.phase.task.kind == OneShot(true) ==> !s.phase.again && s.phase.task in s.waiting)
  {
    RunInv(es);
    var s := Run(START, es);
    Open(s, 0, Packet(0, 0));
    assert s.phase.Requeueing? || s.phase.Returned? ==> s.phase.task in Current(s);
  }

  // ---------- order ----------

  // The task that a step queues, if any.
  function Queues(s: State, e: Event): seq<Task>
    requires Enabled(s, e)
  {
    match e
    case Create(t) => [t]
    case QueueJob(q) => if Job(q) in s.tasks then [] else [Job(q)]
    case Requeue => if s.phase.task.kind.PktJob? && s.phase.task in s.tasks then [] else [s.phase.task]
    case _ => []
  }

  // The task that begins to run.
  function Begins(s: State, e: Event): seq<Task>
    requires Enabled(s, e)
  {
    if e.Fetch? && Step(s, e).phase.Running? then [Step(s, e).phase.task] else []
  }

  // All tasks ever queued, and all that ever began, in order.
  ghost function Queued(es: seq<Event>): seq<Task>
    requires Runs(START, es)
    decreases |es|
  {
    if es == [] then []
    else Queued(es[..|es| - 1]) + Queues(Run(START, es[..|es| - 1]), es[|es| - 1])
  }

  ghost function Begun(es: seq<Event>): seq<Task>
    requires Runs(START, es)
    decreases |es|
  {
    if es == [] then []
    else Begun(es[..|es| - 1]) + Begins(Run(START, es[..|es| - 1]), es[|es| - 1])
  }

  lemma ScheduledLast(s: State, t: Task)
    ensures Schedule(s, t).tasks == if t.kind.PktJob? && t in s.tasks then s.tasks else s.tasks + [t]
    ensures !s.phase.Running? ==> !Schedule(s, t).phase.Running?
  {
  }

  lemma StepInOrder(s: State, e: Event)
    requires Enabled(s, e)
    ensures s.tasks + Queues(s, e) == Begins(s, e) + Step(s, e).tasks
  {
    hide Schedule, Waiting;
    if Posting(e) {
      match e
      case Create(t) => ScheduledLast(s, t);
      case QueueJob(q) => ScheduledLast(s.(deciding := s.deciding - multiset{q}), Job(q));
      case Requeue => ScheduledLast(s.(phase := Fetching), s.phase.task);
    } else if Packeting(e) {
      PacketingTasks(s, e);
    } else if s.tasks != [] {
      assert s.tasks == [s.tasks[0]] + s.tasks[1..];
    }
  }

  lemma PacketingTasks(s: State, e: Event)
    requires Packeting(e) && Enabled(s, e)
    ensures Step(s, e).tasks == s.tasks && Queues(s, e) == [] && Begins(s, e) == []
  {
  }

  lemma Regrouped(q: seq<Task>, x: seq<Task>, b: seq<Task>, y: seq<Task>, was: seq<Task>, now: seq<Task>)
    requires q == b + was && was + x == y + now
    ensures q + x == b + y + now
  {
    assert b + was + x == b + (was + x);
    assert b + (y + now) == b + y + now;
  }

  /** Tasks begin in the order in which they were queued, and none is left out: what has
      been queued has begun, or is still queued behind all that has. */
  lemma {:induction false} InOrder(es: seq<Event>)
    requires Runs(START, es)
    ensures Queued(es) == Begun(es) + Run(START, es).tasks
    decreases |es|
  {
    if es != [] {
      hide Step, Enabled, Queues, Begins;
      var init, e := es[..|es| - 1], es[|es| - 1];
      InOrder(init);
      var s := Run(START, init);
      StepInOrder(s, e);
      Regrouped(Queued(init), Queues(s, e), Begun(init), Begins(s, e), s.tasks, Step(s, e).tasks);
    }
  }

  lemma StepBackground(s: State, e: Event, t: Task)
    requires Inv(s) && Enabled(s, e) && t.kind.Background? && (t in s.tasks || t in Current(s))
    ensures t in Step(s, e).tasks || t in Current(Step(s, e))
  {
    hide Inv, Schedule, Waiting, Tended;
    match e
    case Create(x) => Scheduled(s, x);
    case QueueJob(q) => Scheduled(s.(deciding := s.deciding - multiset{q}), Job(q));
    case Requeue => Scheduled(s.(phase := Fetching), s.phase.task);
    case Fetch => if s.tasks != [] { assert t in s.tasks ==> t == s.tasks[0] || t in s.tasks[1..]; }
    case AddPacket(_) =>
    case LookForJob(_) =>
    case Wake =>
    case TakePacket =>
    case ScheduleAgain =>
    case Return =>
    case PostCall =>
  }

  /** A background task, once created, is queued or under way ever after. */
  lemma {:induction false} BackgroundStays(es: seq<Event>, t: Task)
    requires Runs(START, es) && t.kind.Background? && Create(t) in es
    ensures var s := Run(START, es); t in s.tasks || t in Current(s)
    decreases |es|
  {
    hide Inv, Step;
    var init, e := es[..|es| - 1], es[|es| - 1];
    RunInv(init);
    if e == Create(t) {
      CreateQueues(Run(START, init), t);
    } else {
      BackgroundStays(init, t);
      StepBackground(Run(START, init), e, t);
    }
  }

  lemma CreateQueues(s: State, t: Task)
    requires Enabled(s, Create(t))
    ensures t in Step(s, Create(t)).tasks
  {
    Scheduled(s, t);
  }

  // Nothing has been asked to run again.
  predicate Unasked(s: State) {
    && (s.phase.Running? || s.phase.Returned? ==> !s.phase.again)
    && (s.phase.Requeueing? ==> !s.phase.task.kind.OneShot?)
  }

  lemma PostingPhase(s: State, e: Event)
    requires Posting(e) && Enabled(s, e)
    ensures var p := Step(s, e).phase;
      p.Running? || p.Returned? || p.Requeueing? ==> p == s.phase
  {
    hide Schedule, Waiting;
    match e
    case Create(x) => Scheduled(s, x);
    case QueueJob(q) => Scheduled(s.(deciding := s.deciding - multiset{q}), Job(q));
    case Requeue => Scheduled(s.(phase := Fetching), s.phase.task);
  }

  lemma StepUnasked(s: State, e: Event)
    requires Enabled(s, e) && Unasked(s) && !e.ScheduleAgain?
    ensures Unasked(Step(s, e))
    ensures forall t | t in Queues(s, e) && t.kind.OneShot? :: e == Create(t)
  {
    if Posting(e) {
      hide Step;
      PostingPhase(s, e);
    } else if Packeting(e) {
      hide Step;
      PacketingPhase(s, e);
    } else {
      hide Schedule, Waiting;
      match e
      case Fetch =>
      case Wake =>
      case Return =>
      case PostCall =>
    }
  }

  /** A one-shot task is queued as often as it is created, if none asks to run again;
      by the above it then runs that often, once it is not queued any more. */
  lemma {:induction false} OneShots(es: seq<Event>, t: Task)
    requires Runs(START, es) && t.kind.OneShot? && forall e | e in es :: !e.ScheduleAgain?
    ensures Unasked(Run(START, es)) && multiset(Queued(es))[t] == multiset(es)[Create(t)]
    decreases |es|
  {
    if es != [] {
      hide Step, Enabled;
      var init, e := es[..|es| - 1], es[|es| - 1];
      assert es == init + [e] && e in es;
      OneShots(init, t);
      var s := Run(START, init);
      StepUnasked(s, e);
      QueuesOne(s, e, t);
      assert multiset(es) == multiset(init) + multiset{e};
    }
  }

  lemma QueuesOne(s: State, e: Event, t: Task)
    requires Enabled(s, e) && t.kind.OneShot? && (t in Queues(s, e) ==> e == Create(t))
    ensures multiset(Queues(s, e))[t] == if e == Create(t) then 1 else 0
  {
  }

  // ---------- what is run again, and which packet comes next ----------

  // The task under way has asked to run again.
  predicate Asked(es: seq<Event>)
    decreases |es|
  {
    es != [] && !es[|es| - 1].Fetch? && (es[|es| - 1].ScheduleAgain? || Asked(es[..|es| - 1]))
  }

  lemma StepAsked(s: State, e: Event)
    requires Enabled(s, e)
    ensures var t := Step(s, e);
      t.phase.Running? || t.phase.Returned? ==>
        t.phase.again == (!e.Fetch? && (e.ScheduleAgain? || ((s.phase.Running? || s.phase.Returned?) && s.phase.again)))
    ensures var t := Step(s, e);
      (t.phase.Running? || t.phase.Returned?) && !e.Fetch? ==> s.phase.Running? || s.phase.Returned?
  {
    if Posting(e) {
      hide Step;
      PostingPhase(s, e);
    } else if Packeting(e) {
      hide Step;
      PacketingPhase(s, e);
    } else {
      hide Schedule, Waiting;
      match e
      case Fetch =>
      case Wake =>
      case ScheduleAgain =>
      case Return =>
      case PostCall =>
    }
  }

  lemma {:induction false} AskedRuns(es: seq<Event>)
    requires Runs(START, es)
    ensures var p := Run(START, es).phase; p.Running? || p.Returned? ==> p.again == Asked(es)
    decreases |es|
  {
    if es != [] {
      hide Step, Enabled;
      AskedRuns(es[..|es| - 1]);
      StepAsked(Run(START, es[..|es| - 1]), es[|es| - 1]);
    }
  }

  /** When a task has returned, it is queued again exactly if it is a background task, a
      one-shot task that has asked for it since it began, or the job of a queue to which
      more packets have been added than were handed out. */
  lemma RunsAgain(es: seq<Event>)
    requires Runs(START, es) && Run(START, es).phase.Returned?
    ensures var s, t := Run(START, es), Run(START, es).phase.task;
      Step(s, PostCall).phase == Requeueing(t) <==>
        match t.kind
        case Background => true
        case OneShot(_) => Asked(es)
        case PktJob(q) => exists p: Packet :: p.queue == q && s.handedOut[p] < s.enqueued[p]
  {
    hide Inv, Run, Runs, Schedule, Waiting;
    AskedRuns(es);
    RunInv(es);
    var s := Run(START, es);
    if s.phase.task.kind.PktJob? { MorePackets(s, s.phase.task.kind.queue); }
  }

  lemma MorePackets(s: State, q: nat)
    requires Inv(s)
    ensures Waiting(s, q) != [] <==> exists p: Packet :: p.queue == q && s.handedOut[p] < s.enqueued[p]
  {
    hide Inv, Waiting, Schedule;
    if Waiting(s, q) != [] {
      Open(s, q, Waiting(s, q)[0]);
      assert Waiting(s, q)[0] in Waiting(s, q);
    }
    forall p: Packet | p.queue == q && s.handedOut[p] < s.enqueued[p] ensures Waiting(s, q) != [] {
      Open(s, q, p);
    }
  }

  // The packets ever added to a queue.
  function Arrived(es: seq<Event>, q: nat): seq<Packet>
    decreases |es|
  {
    if es == [] then []
    else
      var e := es[|es| - 1];
      Arrived(es[..|es| - 1], q) + if e.AddPacket? && e.p.queue == q then [e.p] else []
  }

  // The task under way is the job of the queue.
  predicate Takes(s: State, q: nat) {
    s.phase.Running? && s.phase.task.kind.PktJob? && s.phase.task.kind.queue == q
  }

  lemma PostingWaiting(s: State, e: Event, q: nat)
    requires Posting(e) && Enabled(s, e)
    ensures Waiting(Step(s, e), q) == Waiting(s, q)
  {
    hide Schedule;
    match e
    case Create(x) => Scheduled(s, x);
    case QueueJob(r) => Scheduled(s.(deciding := s.deciding - multiset{r}), Job(r));
    case Requeue => Scheduled(s.(phase := Fetching), s.phase.task);
  }

  lemma TakeWaiting(s: State, q: nat)
    requires Enabled(s, TakePacket)
    ensures var now, was := Waiting(Step(s, TakePacket), q), Waiting(s, q);
      now == if was != [] && Takes(s, q) then was[1..] else was
  {
    hide Schedule;
  }

  lemma StepWaiting(s: State, e: Event, q: nat)
    requires Enabled(s, e)
    ensures var now, was := Waiting(Step(s, e), q), Waiting(s, q);
      now == if e.AddPacket? && e.p.queue == q then [e.p] + was
        else if e.TakePacket? && was != [] && Takes(s, q) then was[1..]
        else was
  {
    if Posting(e) {
      hide Step, Waiting;
      PostingWaiting(s, e, q);
    } else if e.TakePacket? {
      hide Step, Waiting;
      TakeWaiting(s, q);
    } else if e.AddPacket? {
      hide Step, Waiting;
      Added(s, e.p, q);
    } else {
      hide Schedule;
      match e
      case LookForJob(_) =>
      case Fetch =>
      case Wake =>
      case ScheduleAgain =>
      case Return =>
      case PostCall =>
    }
  }

  // Where the packets that wait stand among those ever added.
  ghost predicate Newest(ps: seq<Packet>, all: seq<Packet>, at: seq<int>) {
    && |at| == |ps| && (forall k, l | 0 <= k < l < |at| :: at[k] > at[l])
    && forall k | 0 <= k < |at| :: 0 <= at[k] < |all| && ps[k] == all[at[k]]
  }

  // One step more.
  lemma NewestStep(s: State, e: Event, q: nat, all: seq<Packet>, at: seq<int>) returns (next: seq<int>)
    requires Enabled(s, e) && Newest(Waiting(s, q), all, at)
    ensures Newest(Waiting(Step(s, e), q), all + if e.AddPacket? && e.p.queue == q then [e.p] else [], next)
  {
    hide Step, Enabled, Waiting, Newest, Takes;
    next := at;
    StepWaiting(s, e, q);
    assert all + [] == all;
    if e.AddPacket? && e.p.queue == q {
      NewestMore(Waiting(s, q), all, at, e.p);
      next := [|all|] + at;
    } else if e.TakePacket? && Waiting(s, q) != [] && Takes(s, q) {
      NewestLess(Waiting(s, q), all, at);
      next := at[1..];
    }
  }

  /** The packet handed out next is the one added last, of those that wait. */
  lemma {:induction false} NewestFirst(es: seq<Event>, q: nat) returns (at: seq<int>)
    requires Runs(START, es)
    ensures Newest(Waiting(Run(START, es), q), Arrived(es, q), at)
    decreases |es|
  {
    hide Step, Enabled, Waiting, Newest;
    if es == [] {
      at := [];
      NoneWait(q);
    } else {
      var init := es[..|es| - 1];
      at := NewestFirst(init, q);
      at := NewestStep(Run(START, init), es[|es| - 1], q, Arrived(init, q), at);
    }
  }

  lemma NoneWait(q: nat)
    ensures Newest(Waiting(START, q), [], [])
  {
  }

  lemma NewestMore(ps: seq<Packet>, all: seq<Packet>, at: seq<int>, p: Packet)
    requires Newest(ps, all, at)
    ensures Newest([p] + ps, all + [p], [|all|] + at)
  {
  }

  lemma NewestLess(ps: seq<Packet>, all: seq<Packet>, at: seq<int>)
    requires Newest(ps, all, at) && ps != []
    ensures at != [] && Newest(ps[1..], all, at[1..])
  {
  }

  // ---------- the shared structure ----------

  class EventDispatcher {
    var tasks: seq<Task>
    var idle: bool
    var signalSent: bool
    var phase: Phase
    var packets: map<nat, seq<Packet>>
    ghost var rest: State

    /** The fields, with what only the threads' program counters and the past say. */
    ghost function S(): State
      reads this
    {
      rest.(tasks := tasks, idle := idle, signalSent := signalSent, phase := phase, packets := packets)
    }

    constructor ()
      ensures S() == START
    {
      tasks, idle, signalSent, phase, packets, rest := [], true, false, Fetching, map[], START;
    }

    /** event_dispatcher_schedule_task, for a caller that has not queued the task yet. */
    method ScheduleTask(t: Task)
      requires Inv(S()) && (t.kind.PktJob? || t !in tasks)
      modifies this
      ensures S() == Schedule(old(S()), t)
    {
      if t.kind.PktJob? && t in tasks {
        return;
      }
      assert t !in tasks;
      tasks := tasks + [t];
      if idle && !signalSent {
        if phase.Blocked? {
          phase := Blocked(true);
        }
        signalSent := true;
      }
      if t.kind == OneShot(true) {
        rest := rest.(waiting := rest.waiting + {t});
      }
    }

    /** One iteration of event_dispatcher_thread up to the task's function or the wait. */
    method NextTask()
      requires Inv(S()) && Enabled(S(), Fetch)
      modifies this
      ensures S() == Step(old(S()), Fetch) && Inv(S())
    {
      StepInv(S(), Fetch);
      if tasks == [] {
        idle := true;
        signalSent := false;
        phase := Blocked(false);
      } else {
        var t := tasks[0];
        tasks := tasks[1..];
        if idle {
          idle := false;
        }
        phase := Running(t, false);
      }
    }

    /** task_get_next_pkt: the newest packet first. */
    method NextPacket() returns (p: seq<Packet>)
      requires Inv(S()) && Enabled(S(), TakePacket)
      modifies this
      ensures S() == Step(old(S()), TakePacket) && Inv(S())
      ensures var q := old(Waiting(S(), phase.task.kind.queue)); p == if q == [] then [] else [q[0]]
    {
      StepInv(S(), TakePacket);
      var q := phase.task.kind.queue;
      var ps := if q in packets then packets[q] else [];
      if ps == [] {
        return [];
      }
      packets := packets[q := ps[1..]];
      rest := rest.(handedOut := rest.handedOut + multiset{ps[0]});
      p := [ps[0]];
    }

    /** eve_dis_process_task_post_call up to the point where it queues the task again. */
    method ProcessPostCall()
      requires Inv(S()) && Enabled(S(), PostCall)
      modifies this
      ensures S() == Step(old(S()), PostCall) && Inv(S())
    {
      StepInv(S(), PostCall);
      var t := phase.task;
      match t.kind
      case OneShot(sync) =>
        if !phase.again {
          if sync {
            rest := rest.(waiting := rest.waiting - {t});
          }
          phase := Fetching;
        } else {
          phase := Requeueing(t);
        }
      case Background =>
        phase := Requeueing(t);
      case PktJob(q) =>
        var ps := if q in packets then packets[q] else [];
        phase := if ps == [] then Fetching else Requeueing(t);
    }

    /** pkt_q_enqueue, in the two lock-protected parts before it schedules the job. */
    method AddToQueue(p: Packet)
      requires Inv(S())
      modifies this
      ensures S() == Step(old(S()), AddPacket(p)) && Inv(S())
    {
      StepInv(S(), AddPacket(p));
      packets := packets[p.queue := [p] + if p.queue in packets then packets[p.queue] else []];
      rest := rest.(added := rest.added + multiset{p.queue}, enqueued := rest.enqueued + multiset{p});
    }

    method JobIsQueued(q: nat) returns (queued: bool)
      requires Inv(S()) && Enabled(S(), LookForJob(q))
      modifies this
      ensures S() == Step(old(S()), LookForJob(q)) && Inv(S()) && queued == (Job(q) in old(tasks))
    {
      StepInv(S(), LookForJob(q));
      queued := Job(q) in tasks;
      rest := rest.(added := rest.added - multiset{q});
      if !queued {
        rest := rest.(deciding := rest.deciding + multiset{q});
      }
    }
  }
}
