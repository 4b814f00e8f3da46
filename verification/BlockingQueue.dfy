/**
 moodycamel::BlockingReaderWriterQueue (include/readerwriterqueue.h) with its LightweightSemaphore
 (include/atomicops.h), on top of the queue machine of SpscQueue: each thread interleaves the steps
 of its queue call with one atomic operation on m_count or on the kernel semaphore at a time.
 */
module BlockingQueue {
  import opened SpscQueue
  import opened SpscProof
  import opened SpscTheorems

  /** How the consumer waits: tryWait alone, or wait with a negative, positive or zero timeout. */
  datatype Patience = TryOnly | Forever | Timed | NoTime

  datatype ProducerPhase =
    | Resting
    | Enqueuing
    | Signalling          // fetch_add_release(1) comes next
    | Posting             // m_sema.signal(1) comes next

  datatype ConsumerPhase =
    | Quiet
    | Testing(patience: Patience)     // load of tryWait
    | Taking                          // fetch_add_acquire(-1) after a positive load
    | Spinning(patience: Patience)    // load of the spin loop
    | Subtracting(patience: Patience) // fetch_add_acquire(-1) after the spin loop
    | Sleeping                        // m_sema.wait or timed_wait
    | Restoring                       // fetch_add_release(1) after a timeout
    | Rechecking                      // fetch_add_acquire(-1) when the producer signalled after all
    | Grabbing                        // m_sema.try_wait
    | Dequeuing                       // inner.try_dequeue

  datatype Machine<T> = Machine(
    s: State<T>,
    count: int, tokens: nat,
    pp: ProducerPhase, cp: ConsumerPhase,
    signals: nat, waits: nat,       // fetch_adds of signal; successful waits
    lowest: int, mostTokens: nat,   // lowest old count seen by signal; most kernel tokens at once
    broken: bool)                   // an assert of the blocking layer failed

  /** `choice` resolves what the machine does not: go on spinning, give up sleeping. */
  datatype Event<T> =
    | CallEnqueue(x: T, alloc: bool)
    | CallDequeue(patience: Patience)
    | ProducerAct(mallocFails: bool)
    | ConsumerAct(choice: bool)

  function Begin<T>(capacity: nat, first: nat): Machine<T> {
    Machine(Start(capacity, first), 0, 0, Resting, Quiet, 0, 0, 0, 0, false)
  }

  function ProducerActs<T>(m: Machine<T>, mallocFails: bool): Machine<T> {
    match m.pp
    case Resting => m
    case Enqueuing =>
      var s := Next(m.s, ProducerMoves(mallocFails));
      m.(s := s, pp := if !s.p.ProducerIdle? then Enqueuing else if s.h.enqueueResult == Accepted then Signalling else Resting)
    case Signalling =>
      m.(count := m.count + 1, signals := m.signals + 1, pp := if m.count < 0 then Posting else Resting,
         lowest := if m.count < m.lowest then m.count else m.lowest, broken := m.broken || m.count < -1)
    case Posting =>
      m.(tokens := m.tokens + 1, pp := Resting, mostTokens := if m.tokens + 1 > m.mostTokens then m.tokens + 1 else m.mostTokens)
  }

  /** A wait has succeeded: the inner try_dequeue starts. */
  function Succeed<T>(m: Machine<T>): Machine<T> {
    m.(waits := m.waits + 1, cp := Dequeuing, s := Next(m.s, StartDequeue))
  }

  function ConsumerActs<T>(m: Machine<T>, choice: bool): Machine<T> {
    match m.cp
    case Quiet => m
    case Testing(patience) =>
      if m.count > 0 then m.(cp := Taking) else m.(cp := if patience.TryOnly? then Quiet else Spinning(patience))
    case Taking => Succeed(m.(count := m.count - 1))
    case Spinning(patience) =>
      if m.count > 0 then m.(cp := Taking) else if choice then m else m.(cp := Subtracting(patience))
    case Subtracting(patience) =>
      if m.count > 0 then Succeed(m.(count := m.count - 1))
      else m.(count := m.count - 1, cp := if patience.NoTime? then Restoring else Sleeping)
    case Sleeping =>
      if choice then m.(cp := Restoring) else if m.tokens > 0 then Succeed(m.(tokens := m.tokens - 1)) else m
    case Restoring => m.(count := m.count + 1, cp := if m.count < 0 then Quiet else Rechecking)
    case Rechecking => m.(count := m.count - 1, cp := if m.count > 0 then Grabbing else Restoring)
    case Grabbing => if m.tokens > 0 then Succeed(m.(tokens := m.tokens - 1)) else m.(cp := Restoring)
    case Dequeuing =>
      var s := Next(m.s, ConsumerMoves);
      m.(s := s, cp := if s.c.ConsumerIdle? then Quiet else Dequeuing,
         broken := m.broken || (s.c.ConsumerIdle? && s.h.dequeueResult != Taken))     // assert(success)
  }

  function Act<T>(m: Machine<T>, e: Event<T>): Machine<T> {
    match e
    case CallEnqueue(x, alloc) =>
      if m.pp.Resting? then m.(pp := Enqueuing, s := Next(m.s, StartEnqueue(x, alloc))) else m
    case CallDequeue(patience) => if m.cp.Quiet? then m.(cp := Testing(patience)) else m
    case ProducerAct(mallocFails) => ProducerActs(m, mallocFails)
    case ConsumerAct(choice) => ConsumerActs(m, choice)
  }

  function RunMachine<T>(m: Machine<T>, events: seq<Event<T>>): Machine<T>
    decreases |events|
  {
    if events == [] then m else Act(RunMachine(m, events[..|events| - 1]), events[|events| - 1])
  }

  // ----- invariant ------------------------------------------------------------------------------------------

  /** The consumer has subtracted one for a wait that has not ended. */
  predicate Owing(cp: ConsumerPhase) {
    cp.Sleeping? || cp.Restoring? || cp.Grabbing?
  }

  /** Tokens in the kernel semaphore and one the producer is about to post. */
  function Outstanding<T>(m: Machine<T>): nat {
    m.tokens + if m.pp.Posting? then 1 else 0
  }

  ghost predicate SemaphoreOk<T>(m: Machine<T>) {
    && m.count == m.signals - m.waits - (if Owing(m.cp) then 1 else 0)
    && (if Owing(m.cp) then (m.count == -1 && Outstanding(m) == 0) || (m.count >= 0 && Outstanding(m) == 1)
        else if m.cp.Rechecking? then m.count >= 1 && Outstanding(m) == 1
        else m.count >= 0 && Outstanding(m) == 0)
    && (m.cp.Taking? ==> m.count > 0)
    && m.lowest >= -1 && m.mostTokens <= 1 && m.tokens <= 1 && !m.broken
  }

  /** The phases agree with the queue machine. */
  ghost predicate PhasesOk<T>(m: Machine<T>) {
    && (m.pp.Enqueuing? <==> !m.s.p.ProducerIdle?)
    && (m.cp.Dequeuing? <==> !m.s.c.ConsumerIdle?)
    && |m.s.h.enqueued| == m.signals + (if m.pp.Signalling? then 1 else 0)
    && |m.s.h.dequeued| == m.waits - (if m.cp.Dequeuing? then 1 else 0)
    && (m.cp.Dequeuing? ==> !m.s.h.sawEmpty)
  }

  ghost predicate MachineOk<T>(m: Machine<T>, v: View, capacity: nat) {
    Inv(m.s, v, capacity) && SemaphoreOk(m) && PhasesOk(m)
  }

  /** What one step of the queue machine does to the observed history. */
  lemma ProducerEffect<T>(s: State<T>, mallocFails: bool)
    requires Safe(s) && !s.p.ProducerIdle?
    ensures var t := Next(s, ProducerMoves(mallocFails));
            && t.c == s.c && t.h.dequeued == s.h.dequeued && t.h.dequeueResult == s.h.dequeueResult
            && (t.h.sawEmpty ==> s.h.sawEmpty || Queued(t.h) == 0)
            && (if t.p.ProducerIdle? && t.h.enqueueResult == Accepted then t.h.enqueued == s.h.enqueued + [s.p.x]
                else t.h.enqueued == s.h.enqueued)
            && (!t.p.ProducerIdle? ==> t.p.x == s.p.x)
  {
    hide Safe;
  }

  lemma ConsumerEffect<T>(s: State<T>)
    requires Safe(s) && !s.c.ConsumerIdle?
    ensures var t := Next(s, ConsumerMoves);
            && t.p == s.p && t.h.enqueued == s.h.enqueued && t.h.enqueueResult == s.h.enqueueResult
            && (t.h.sawEmpty ==> s.h.sawEmpty || Queued(t.h) == 0)
            && (if t.c.ConsumerIdle? then
                  || (t.h.dequeueResult == Taken && |t.h.dequeued| == |s.h.dequeued| + 1)
                  || (t.h.dequeueResult == Empty && t.h.dequeued == s.h.dequeued)
                else t.h.dequeued == s.h.dequeued)
  {
    hide Safe;
  }

  lemma StartEffect<T>(s: State<T>, x: T, alloc: bool)
    requires Safe(s)
    ensures s.p.ProducerIdle? ==>
              var t := Next(s, StartEnqueue(x, alloc));
              && !t.p.ProducerIdle? && t.p.x == x && t.c == s.c && t.h.enqueued == s.h.enqueued && t.h.dequeued == s.h.dequeued
              && (t.h.sawEmpty ==> s.h.sawEmpty || (Queued(t.h) == 0 && !s.c.ConsumerIdle?))
  {
    hide Safe; hide ProducerStep; hide ConsumerStep;
  }

  lemma StartDequeueEffect<T>(s: State<T>)
    requires Safe(s)
    ensures s.c.ConsumerIdle? ==>
              var t := Next(s, StartDequeue);
              && !t.c.ConsumerIdle? && t.p == s.p && t.h.enqueued == s.h.enqueued && t.h.dequeued == s.h.dequeued
              && t.h.enqueueResult == s.h.enqueueResult && (t.h.sawEmpty ==> Queued(t.h) == 0)
  {
    hide Safe; hide ProducerStep; hide ConsumerStep;
  }

  /** The view after an event: that of the queue step it contains, if any. */
  function ActView<T>(m: Machine<T>, v: View, e: Event<T>): View
    requires RingShape(|v.k|, v) && |v.k| == |m.s.q.blocks| && Safe(m.s)
  {
    if e.ProducerAct? && m.pp.Enqueuing? then NextView(m.s, v, ProducerMoves(e.mallocFails))
    else if e.ConsumerAct? && m.cp.Dequeuing? then NextView(m.s, v, ConsumerMoves)
    else v
  }

  lemma StartsKeepView<T>(s: State<T>, v: View, a: Action<T>)
    requires RingShape(|v.k|, v) && |v.k| == |s.q.blocks| && Safe(s)
    ensures a.StartEnqueue? || a.StartDequeue? ==> NextView(s, v, a) == v
  {
  }

  lemma ProducerEventKeepsOk<T>(m: Machine<T>, v: View, capacity: nat, e: Event<T>)
    requires MachineOk(m, v, capacity) && Safe(m.s) && (e.CallEnqueue? || e.ProducerAct?)
    ensures RingShape(|v.k|, v) && |v.k| == |m.s.q.blocks| && MachineOk(Act(m, e), ActView(m, v, e), capacity)
  {
    hide Inv; hide Next; hide NextView; hide Safe; hide RingShape;
    var a := if e.CallEnqueue? then StartEnqueue(e.x, e.alloc) else ProducerMoves(e.mallocFails);
    StepKeepsInv(m.s, v, capacity, a);
    StartsKeepView(m.s, v, a);
    if e.CallEnqueue? {
      StartEffect(m.s, e.x, e.alloc);
    } else if m.pp.Enqueuing? {
      ProducerEffect(m.s, e.mallocFails);
    }
  }

  lemma WaitEventKeepsOk<T>(m: Machine<T>, v: View, capacity: nat, e: Event<T>)
    requires MachineOk(m, v, capacity) && Safe(m.s) && (e.CallDequeue? || (e.ConsumerAct? && !m.cp.Dequeuing?))
    ensures RingShape(|v.k|, v) && |v.k| == |m.s.q.blocks| && MachineOk(Act(m, e), ActView(m, v, e), capacity)
  {
    hide Inv; hide Next; hide NextView; hide Safe; hide RingShape;
    StepKeepsInv(m.s, v, capacity, StartDequeue);
    StartsKeepView(m.s, v, StartDequeue);
    StartDequeueEffect(m.s);
  }

  lemma DequeueEventKeepsOk<T>(m: Machine<T>, v: View, capacity: nat, e: Event<T>)
    requires MachineOk(m, v, capacity) && Safe(m.s) && e.ConsumerAct? && m.cp.Dequeuing?
    ensures RingShape(|v.k|, v) && |v.k| == |m.s.q.blocks| && MachineOk(Act(m, e), ActView(m, v, e), capacity)
  {
    hide Inv; hide Next; hide NextView; hide Safe; hide RingShape;
    StepKeepsInv(m.s, v, capacity, ConsumerMoves);
    NotEmptyNoted(m.s, v, capacity, ConsumerMoves);
    ConsumerEffect(m.s);
  }

  lemma EventKeepsOk<T>(m: Machine<T>, v: View, capacity: nat, e: Event<T>)
    requires MachineOk(m, v, capacity)
    ensures RingShape(|v.k|, v) && |v.k| == |m.s.q.blocks| && Safe(m.s)
    ensures MachineOk(Act(m, e), ActView(m, v, e), capacity)
  {
    hide Inv; hide Next; hide NextView; hide Safe; hide RingShape; hide SemaphoreOk; hide PhasesOk; hide Act; hide ActView;
    InvIsSafe(m.s, v, capacity);
    if e.CallEnqueue? || e.ProducerAct? {
      ProducerEventKeepsOk(m, v, capacity, e);
    } else if e.ConsumerAct? && m.cp.Dequeuing? {
      DequeueEventKeepsOk(m, v, capacity, e);
    } else {
      WaitEventKeepsOk(m, v, capacity, e);
    }
  }

  lemma NotEmptyNoted<T>(s: State<T>, v: View, capacity: nat, a: Action<T>)
    requires Inv(s, v, capacity) && Safe(s) && RingShape(|v.k|, v) && |v.k| == |s.q.blocks|
    requires Inv(Next(s, a), NextView(s, v, a), capacity)
    ensures Next(s, a).c.ConsumerIdle? && Next(s, a).h.dequeueResult == Empty ==> Next(s, a).h.sawEmpty
  {
    hide Next; hide NextView; hide Safe; hide ProducerOk;
  }

  lemma {:induction false} RunMachineOk<T>(capacity: nat, first: nat, events: seq<Event<T>>) returns (v: View)
    requires 1 <= capacity < first
    ensures MachineOk(RunMachine(Begin(capacity, first), events), v, capacity)
    decreases |events|
  {
    if events == [] {
      StartInv<T>(capacity, first);
      hide Inv;
      v := StartView(|NewQueue<T>(capacity, first).blocks|);
    } else {
      hide MachineOk;
      var before, e := events[..|events| - 1], events[|events| - 1];
      var v0 := RunMachineOk(capacity, first, before);
      var m := RunMachine(Begin(capacity, first), before);
      EventKeepsOk(m, v0, capacity, e);
      v := ActView(m, v0, e);
    }
  }

  /** Over every interleaving of enqueues, signals, waits of every kind and timeouts: successful
      waits never exceed signals, signal never sees a count below -1, the kernel semaphore never
      holds more than one token, and every try_dequeue that follows a successful wait succeeds. */
  lemma WaitsAreBacked<T>(capacity: nat, first: nat, events: seq<Event<T>>)
    requires 1 <= capacity < first
    ensures var m := RunMachine(Begin(capacity, first), events);
            && m.waits <= m.signals <= |m.s.h.enqueued|
            && m.lowest >= -1 && m.mostTokens <= 1
            && !m.broken && !m.s.broken
            && m.s.h.dequeued <= m.s.h.enqueued
  {
    var v := RunMachineOk(capacity, first, events);
    hide RunMachine; hide ProducerOk; hide ConsumerOk;
  }
}
