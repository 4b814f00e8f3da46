/**
 The shutdown protocol of MessageQueue (include/messageQueue.h): the chunker pushes its chunks and
 then sets done_ (src/chunking/chunker.cc), the consumer loop tests done_, then IsEmpty, and pops
 (src/method/Finesse.cc), all on top of the queue machine of SpscQueue.

 IsEmpty is evaluated in one step. It is reached only after done_ was read as true, when the
 producer has no step left, so nothing can interleave with the loop of size_approx.
 */
module MessageQueue {
  import opened SpscQueue
  import opened SpscProof
  import opened SpscTheorems
  import opened BlockingQueue

  datatype Sender = Pushing(at: nat) | SettingDone | Gone
  datatype Receiver = TestingDone | TestingEmpty | Popping | Left

  datatype System<T> = System(s: State<T>, items: seq<T>, sender: Sender, receiver: Receiver, done: bool)

  function Open<T>(capacity: nat, first: nat, items: seq<T>): System<T> {
    System(Start(capacity, first), items, Pushing(0), TestingDone, false)
  }

  /** Push retries try_enqueue until it is accepted. */
  function SenderStep<T>(w: System<T>): System<T> {
    match w.sender
    case Pushing(at) =>
      if at >= |w.items| then w.(sender := SettingDone)
      else if w.s.p.ProducerIdle? then w.(s := Next(w.s, StartEnqueue(w.items[at], false)))
      else
        var s := Next(w.s, ProducerMoves(false));
        w.(s := s, sender := if s.p.ProducerIdle? && s.h.enqueueResult == Accepted then Pushing(at + 1) else w.sender)
    case SettingDone => w.(done := true, sender := Gone)
    case Gone => w
  }

  /** One round of the consumer loop, step by step; what Pop yields is what gets processed. */
  function ReceiverStep<T>(w: System<T>): System<T> {
    match w.receiver
    case TestingDone => if w.done then w.(receiver := TestingEmpty) else w.(receiver := Popping, s := Next(w.s, StartDequeue))
    case TestingEmpty =>
      if SizeApprox(w.s.q) == 0 then w.(receiver := Left, done := false) else w.(receiver := Popping, s := Next(w.s, StartDequeue))
    case Popping =>
      var s := Next(w.s, ConsumerMoves);
      w.(s := s, receiver := if s.c.ConsumerIdle? then TestingDone else Popping)
    case Left => w
  }

  /** A schedule: `true` lets the sender move, `false` the receiver. */
  function RunSystem<T>(w: System<T>, schedule: seq<bool>): System<T>
    decreases |schedule|
  {
    if schedule == [] then w
    else
      var before := RunSystem(w, schedule[..|schedule| - 1]);
      if schedule[|schedule| - 1] then SenderStep(before) else ReceiverStep(before)
  }

  /** Chunks pushed so far, in order. */
  function Pushed<T>(w: System<T>): seq<T> {
    if w.sender.Pushing? && w.sender.at <= |w.items| then w.items[..w.sender.at] else w.items
  }

  ghost predicate SystemOk<T>(w: System<T>, v: View, capacity: nat) {
    && Inv(w.s, v, capacity)
    && w.s.h.enqueued == Pushed(w)
    && (w.sender.Pushing? ==> w.sender.at <= |w.items|)
    && (!w.s.p.ProducerIdle? ==> w.sender.Pushing? && w.sender.at < |w.items| && w.s.p.x == w.items[w.sender.at])
    && (w.done ==> w.sender.Gone?)
    && (w.receiver.TestingEmpty? ==> w.done)
    && (w.receiver.Left? ==> w.sender.Gone? && !w.done)
    && (w.receiver.Popping? <==> !w.s.c.ConsumerIdle?)
    && (w.receiver.Left? ==> Queued(w.s.h) == 0)
  }

  lemma SenderKeepsOk<T>(w: System<T>, v: View, capacity: nat) returns (v': View)
    requires SystemOk(w, v, capacity)
    ensures SystemOk(SenderStep(w), v', capacity)
  {
    hide Inv; hide Next; hide NextView; hide RingShape; hide Safe;
    v' := v;
    if w.sender.Pushing? && w.sender.at < |w.items| {
      var a := if w.s.p.ProducerIdle? then StartEnqueue(w.items[w.sender.at], false) else ProducerMoves(false);
      StepKeepsInv(w.s, v, capacity, a);
      v' := NextView(w.s, v, a);
      if w.s.p.ProducerIdle? {
        StartEffect(w.s, w.items[w.sender.at], false);
      } else {
        ProducerEffect(w.s, false);
        assert w.items[..w.sender.at + 1] == w.items[..w.sender.at] + [w.items[w.sender.at]];
      }
    } else {
      assert w.items[..|w.items|] == w.items;
    }
  }

  lemma ReceiverKeepsOk<T>(w: System<T>, v: View, capacity: nat) returns (v': View)
    requires SystemOk(w, v, capacity)
    ensures SystemOk(ReceiverStep(w), v', capacity)
  {
    hide Inv; hide Next; hide NextView; hide RingShape; hide Safe; hide SizeApprox;
    v' := v;
    if w.receiver.Popping? {
      StepKeepsInv(w.s, v, capacity, ConsumerMoves);
      v' := NextView(w.s, v, ConsumerMoves);
      ConsumerEffect(w.s);
    } else {
      StepKeepsInv(w.s, v, capacity, StartDequeue);
      StartsKeepView(w.s, v, StartDequeue);
      StartDequeueEffect(w.s);
      if w.receiver.TestingEmpty? {
        SizeIsQueued(w.s, v, capacity);
      }
    }
  }

  lemma {:induction false} RunKeepsOk<T>(w: System<T>, v: View, capacity: nat, schedule: seq<bool>) returns (v': View)
    requires SystemOk(w, v, capacity)
    ensures SystemOk(RunSystem(w, schedule), v', capacity)
    decreases |schedule|
  {
    hide SystemOk;
    if schedule == [] {
      v' := v;
    } else {
      var before := schedule[..|schedule| - 1];
      var v0 := RunKeepsOk(w, v, capacity, before);
      var u := RunSystem(w, before);
      hide RunSystem;
      if schedule[|schedule| - 1] {
        v' := SenderKeepsOk(u, v0, capacity);
      } else {
        v' := ReceiverKeepsOk(u, v0, capacity);
      }
    }
  }

  lemma RunSystemOk<T>(capacity: nat, first: nat, items: seq<T>, schedule: seq<bool>) returns (v: View)
    requires 1 <= capacity < first
    ensures SystemOk(RunSystem(Open(capacity, first, items), schedule), v, capacity)
  {
    hide Inv;
    StartInv<T>(capacity, first);
    v := StartView(|NewQueue<T>(capacity, first).blocks|);
    v := RunKeepsOk(Open(capacity, first, items), v, capacity, schedule);
  }

  /** Whenever the consumer has left its loop, it has popped every chunk exactly once, in order;
      and at every moment what it has popped is a prefix of the chunks. */
  lemma NothingLost<T>(capacity: nat, first: nat, items: seq<T>, schedule: seq<bool>)
    requires 1 <= capacity < first
    ensures var w := RunSystem(Open(capacity, first, items), schedule);
            && w.items == items && w.s.h.dequeued <= items
            && (w.receiver.Left? ==> w.s.h.dequeued == items)
  {
    var v := RunSystemOk(capacity, first, items, schedule);
    ItemsStay(Open(capacity, first, items), schedule);
    var w := RunSystem(Open(capacity, first, items), schedule);
    hide RunSystem; hide ProducerOk; hide ConsumerOk; hide Spacious;
    assert Pushed(w) <= items;
    if w.receiver.Left? {
      assert w.s.h.enqueued == items;
    }
  }

  lemma {:induction false} ItemsStay<T>(w: System<T>, schedule: seq<bool>)
    ensures RunSystem(w, schedule).items == w.items
    decreases |schedule|
  {
    hide Next;
    if schedule != [] {
      ItemsStay(w, schedule[..|schedule| - 1]);
    }
  }

  // ----- one file after the other --------------------------------------------------------------

  /** The chunks of a file, and a schedule for its two threads. */
  datatype File<T> = File(items: seq<T>, schedule: seq<bool>)

  /** Before the first file. */
  function Ready<T>(capacity: nat, first: nat): System<T> {
    System(Start(capacity, first), [], Gone, Left, false)
  }

  /** When both threads are done, the next file starts on the same queue; done_ was reset by the
      consumer as it left its loop. */
  function NextFile<T>(w: System<T>, items: seq<T>): System<T> {
    System(w.s, w.items + items, Pushing(|w.items|), TestingDone, w.done)
  }

  function RunFiles<T>(w: System<T>, files: seq<File<T>>): System<T> {
    if files == [] then w
    else
      var before, f := RunFiles(w, files[..|files| - 1]), files[|files| - 1];
      if before.receiver.Left? then RunSystem(NextFile(before, f.items), f.schedule) else before
  }

  function AllItems<T>(files: seq<File<T>>): seq<T> {
    if files == [] then [] else AllItems(files[..|files| - 1]) + files[|files| - 1].items
  }

  /** Over any number of files: what has been popped is always a prefix of all chunks in order, and
      when the consumer has left its loop for the last file it is all of them. */
  lemma {:induction false} NothingLostOverFiles<T>(capacity: nat, first: nat, files: seq<File<T>>) returns (v: View)
    requires 1 <= capacity < first
    ensures var w := RunFiles(Ready(capacity, first), files);
            && SystemOk(w, v, capacity) && w.items <= AllItems(files) && w.s.h.dequeued <= w.items
            && (w.receiver.Left? ==> w.items == AllItems(files) == w.s.h.dequeued)
  {
    hide Inv, RunSystem;
    if files == [] {
      StartInv<T>(capacity, first);
      v := StartView(|NewQueue<T>(capacity, first).blocks|);
    } else {
      var f := files[|files| - 1];
      v := NothingLostOverFiles(capacity, first, files[..|files| - 1]);
      var before := RunFiles(Ready<T>(capacity, first), files[..|files| - 1]);
      if before.receiver.Left? {
        NextFileOk(before, v, capacity, f.items);
        v := RunKeepsOk(NextFile(before, f.items), v, capacity, f.schedule);
        ItemsStay(NextFile(before, f.items), f.schedule);
      }
      var w := RunFiles(Ready<T>(capacity, first), files);
      PoppedIsPrefix(w, v, capacity);
    }
  }

  lemma NextFileOk<T>(w: System<T>, v: View, capacity: nat, items: seq<T>)
    requires SystemOk(w, v, capacity) && w.receiver.Left?
    ensures SystemOk(NextFile(w, items), v, capacity)
  {
    hide Inv;
    var n := NextFile(w, items);
    assert n.items[..|w.items|] == w.items;
  }

  lemma PoppedIsPrefix<T>(w: System<T>, v: View, capacity: nat)
    requires SystemOk(w, v, capacity)
    ensures w.s.h.dequeued <= w.items && (w.receiver.Left? ==> w.s.h.dequeued == w.items)
  {
    hide ProducerOk; hide ConsumerOk; hide Spacious;
    assert Pushed(w) <= w.items;
    if w.receiver.Left? {
      assert w.s.h.enqueued == w.items;
    }
  }

  /** What the consumer has popped when the given files are through. */
  function Popped<T>(capacity: nat, first: nat, files: seq<File<T>>): seq<T> {
    RunFiles(Ready<T>(capacity, first), files).s.h.dequeued
  }

  /** What it popped in file `i`, which is what is processed as that file. */
  function Received<T>(capacity: nat, first: nat, files: seq<File<T>>, i: nat): seq<T>
    requires i < |files|
  {
    var before, after := Popped(capacity, first, files[..i]), Popped(capacity, first, files[..i + 1]);
    if |before| <= |after| then after[|before|..] else []
  }

  /** If the last file is through, so were those before it. */
  lemma {:induction false} AllThrough<T>(w: System<T>, files: seq<File<T>>, i: nat)
    requires i <= |files| && RunFiles(w, files).receiver.Left?
    ensures RunFiles(w, files[..i]).receiver.Left?
    decreases |files|
  {
    hide RunSystem;
    if i == |files| {
      assert files[..i] == files;
    } else {
      var n := |files| - 1;
      assert files[..n][..i] == files[..i];
      AllThrough(w, files[..n], i);
    }
  }

  /** Every file arrives in its own round, whole and in order, whatever the schedules. */
  lemma EachFileArrives<T>(capacity: nat, first: nat, files: seq<File<T>>, i: nat)
    requires 1 <= capacity < first && i < |files| && RunFiles(Ready<T>(capacity, first), files).receiver.Left?
    ensures Received(capacity, first, files, i) == files[i].items
  {
    hide RunFiles, SystemOk;
    var w := Ready<T>(capacity, first);
    AllThrough(w, files, i);
    AllThrough(w, files, i + 1);
    var v := NothingLostOverFiles(capacity, first, files[..i]);
    var u := NothingLostOverFiles(capacity, first, files[..i + 1]);
    assert files[..i + 1][..i] == files[..i];
  }
}
