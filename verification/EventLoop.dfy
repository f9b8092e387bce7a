/**
 * The protocol of EventLoop.c: any number of threads push events and stop the queue, one thread
 * runs `eventq_loop`, and all of them share one mutex and one condition variable.  A state is
 * what is true between two atomic steps; a run is any interleaving of the steps.
 */
module EventLoop {
  import opened EventQueue

  /** Where the loop thread is.  It holds the mutex exactly in Attaching, Testing, Handling and Failed. */
  datatype LoopPc =
    | Unstarted
    | Locking      // created by eventq_start, about to lock
    | Attaching    // locked, attaching to the virtual machine
    | Testing      // at the head of the loop
    | Waiting      // in pthread_cond_wait, not yet woken
    | Woken        // woken, about to lock again
    | Handling(event: nat)  // took an event off the list, processing it
    | Exited
    | Failed       // attaching failed: returned without unlocking

  /** Where a client thread is in `eventq_push` or `eventq_stop`; it holds the mutex from InPush or InStop on. */
  datatype ClientPc =
    | Idle
    | WantPush(event: nat)
    | InPush(event: nat)
    | WantStop
    | InStop
    | Changed      // has changed the list or the flag, has not signalled yet
    | Signalled    // about to unlock

  datatype Owner = Free | LoopThread | Client(id: nat)

  /** The list newest first, as the linked list has it, plus the history of the run. */
  datatype State = State(
    queue: seq<nat>, running: bool, owner: Owner, loop: LoopPc, clients: map<nat, ClientPc>,
    pushed: seq<nat>,      // every event pushed, in push order
    processed: seq<nat>,   // every event processed, in processing order
    mark: nat)             // how many had been pushed when the loop last began to wait, 0 before
  {
    function Pc(t: nat): ClientPc {
      if t in clients then clients[t] else Idle
    }

    function At(t: nat, pc: ClientPc): State {
      this.(clients := clients[t := pc])
    }

    /** The event taken off the list and not yet processed. */
    function InHand(): seq<nat> {
      if loop.Handling? then [loop.event] else []
    }
  }

  /** The state of a new queue; `eventq_getInstance` leaves `running` as it finds it. */
  function Init(running: bool): State {
    State([], running, Free, Unstarted, map[], [], [], 0)
  }

  datatype Action =
    | Start | LoopLock | Attach(ok: bool) | Test | Handle | Wake | Relock
    | BeginPush(t: nat, event: nat) | BeginStop(t: nat)
    | Lock(t: nat) | Change(t: nat) | Signal(t: nat) | Unlock(t: nat)

  predicate Enabled(s: State, a: Action) {
    match a
    case Start => s.loop.Unstarted?
    case LoopLock => s.loop.Locking? && s.owner.Free?
    case Attach(_) => s.loop.Attaching?
    case Test => s.loop.Testing?
    case Handle => s.loop.Handling?
    case Wake => s.loop.Waiting?  // a wake-up need not be due to a signal
    case Relock => s.loop.Woken? && s.owner.Free?
    case BeginPush(t, _) => s.Pc(t).Idle?
    case BeginStop(t) => s.Pc(t).Idle?
    case Lock(t) => (s.Pc(t).WantPush? || s.Pc(t).WantStop?) && s.owner.Free? && !s.loop.Exited?
    case Change(t) => s.Pc(t).InPush? || s.Pc(t).InStop?
    case Signal(t) => s.Pc(t).Changed?
    case Unlock(t) => s.Pc(t).Signalled?
  }

  function Step(s: State, a: Action): State
    requires Enabled(s, a)
  {
    match a
    case Start => s.(running := true, loop := Locking)
    case LoopLock => s.(owner := LoopThread, loop := Attaching)
    case Attach(ok) => s.(loop := if ok then Testing else Failed)
    case Test =>
      if s.queue == [] && s.running then s.(owner := Free, loop := Waiting, mark := |s.pushed|)
      else if !s.running then s.(owner := Free, loop := Exited)
      else s.(queue := s.queue[..|s.queue| - 1], loop := Handling(s.queue[|s.queue| - 1]))
    case Handle => s.(processed := s.processed + [s.loop.event], loop := Testing)
    case Wake => s.(loop := Woken)
    case Relock => s.(owner := LoopThread, loop := Testing)
    case BeginPush(t, e) => s.At(t, WantPush(e))
    case BeginStop(t) => s.At(t, WantStop)
    case Lock(t) => s.At(t, if s.Pc(t).WantPush? then InPush(s.Pc(t).event) else InStop).(owner := Client(t))
    case Change(t) =>
      if s.Pc(t).InPush? then
        s.At(t, Changed).(queue := [s.Pc(t).event] + s.queue, pushed := s.pushed + [s.Pc(t).event])
      else s.At(t, Changed).(running := false)
    case Signal(t) => s.At(t, Signalled).(loop := if s.loop.Waiting? then Woken else s.loop)
    case Unlock(t) => s.At(t, Idle).(owner := Free)
  }

  /** A run: the states between the actions, each action enabled where it is taken. */
  ghost predicate IsRun(states: seq<State>, actions: seq<Action>) {
    && |states| == |actions| + 1 && states[0] == Init(states[0].running)
    && forall i :: 0 <= i < |actions| ==> StepAt(states, actions, i)
  }

  ghost predicate StepAt(states: seq<State>, actions: seq<Action>, i: nat)
    requires i < |actions| && |states| == |actions| + 1
  {
    Enabled(states[i], actions[i]) && states[i + 1] == Step(states[i], actions[i])
  }

  predicate LoopHolds(pc: LoopPc) {
    pc.Attaching? || pc.Testing? || pc.Handling? || pc.Failed?
  }

  predicate ClientHolds(pc: ClientPc) {
    pc.InPush? || pc.InStop? || pc.Changed? || pc.Signalled?
  }

  /** The mutex is owned by exactly the one thread that is inside a critical section. */
  ghost predicate Exclusive(s: State) {
    && (s.owner.LoopThread? <==> LoopHolds(s.loop))
    && (forall t :: s.owner == Client(t) <==> ClientHolds(s.Pc(t)))
  }

  /** First in, first out, nothing lost, nothing twice: processed, in hand, then the list from its tail. */
  ghost predicate Fifo(s: State) {
    s.pushed == s.processed + s.InHand() + Reverse(s.queue)
  }

  /** Outside an emptying burst exactly the events pushed before the last wait are processed. */
  ghost predicate Marked(s: State) {
    && s.mark <= |s.pushed|
    && (s.loop.Handling? ==> s.running)
    && (s.loop.Handling? || (s.loop.Testing? && s.running) || s.processed == s.pushed[..s.mark])
  }

  /** No lost wake-up: a waiting loop has nothing to do unless a client is about to signal it. */
  ghost predicate Awaited(s: State) {
    s.loop.Waiting? ==> (s.queue == [] && s.running) || (s.owner.Client? && s.Pc(s.owner.id).Changed?)
  }

  ghost predicate Inv(s: State) {
    Exclusive(s) && Fifo(s) && Marked(s) && Awaited(s)
  }

  lemma PcUpdate(s: State, t: nat, pc: ClientPc)
    ensures forall u: nat :: s.At(t, pc).Pc(u) == if u == t then pc else s.Pc(u)
  {
  }

  lemma StepExclusive(s: State, a: Action)
    requires Inv(s) && Enabled(s, a)
    ensures Exclusive(Step(s, a))
  {
    match a
    case BeginPush(t, e) => PcUpdate(s, t, WantPush(e));
    case BeginStop(t) => PcUpdate(s, t, WantStop);
    case Lock(t) => PcUpdate(s, t, if s.Pc(t).WantPush? then InPush(s.Pc(t).event) else InStop);
    case Change(t) => PcUpdate(s, t, Changed);
    case Signal(t) => PcUpdate(s, t, Signalled);
    case Unlock(t) => PcUpdate(s, t, Idle);
    case _ =>
  }

  lemma PushFifo(s: State, e: nat)
    requires Fifo(s)
    ensures s.pushed + [e] == s.processed + s.InHand() + Reverse([e] + s.queue)
  {
    ReverseCons(e, s.queue);
  }

  lemma StepFifo(s: State, a: Action)
    requires Inv(s) && Enabled(s, a)
    ensures Fifo(Step(s, a))
  {
    if a.Change? && s.Pc(a.t).InPush? {
      PushFifo(s, s.Pc(a.t).event);
    }
  }

  lemma StepMarked(s: State, a: Action)
    requires Inv(s) && Enabled(s, a)
    ensures Marked(Step(s, a))
  {
    if a.Test? && s.queue == [] && s.running {
      assert s.processed == s.pushed == s.pushed[..|s.pushed|];
    }
  }

  lemma StepAwaited(s: State, a: Action)
    requires Inv(s) && Enabled(s, a)
    ensures Awaited(Step(s, a))
  {
  }

  lemma StepInv(s: State, a: Action)
    requires Inv(s) && Enabled(s, a)
    ensures Inv(Step(s, a))
  {
    StepExclusive(s, a);
    StepFifo(s, a);
    StepMarked(s, a);
    StepAwaited(s, a);
  }

  /** Every state of every run satisfies the invariant. */
  lemma {:induction false} RunInv(states: seq<State>, actions: seq<Action>, i: nat)
    requires IsRun(states, actions) && i < |states|
    ensures Inv(states[i])
  {
    if i > 0 {
      RunInv(states, actions, i - 1);
      assert StepAt(states, actions, i - 1);
      StepInv(states[i - 1], actions[i - 1]);
    }
  }

  /** At every moment of every run the processed events are, in order, the first events pushed. */
  lemma ProcessedInOrder(states: seq<State>, actions: seq<Action>, i: nat)
    requires IsRun(states, actions) && i < |states|
    ensures states[i].processed <= states[i].pushed
    ensures states[i].pushed == states[i].processed + states[i].InHand() + Reverse(states[i].queue)
  {
    RunInv(states, actions, i);
  }

  /** Whenever the loop begins to wait, everything pushed so far has been processed. */
  lemma WaitsOnlyWhenDone(states: seq<State>, actions: seq<Action>, i: nat)
    requires IsRun(states, actions) && i < |actions|
    requires !states[i].loop.Waiting? && states[i + 1].loop.Waiting?
    ensures states[i + 1].processed == states[i + 1].pushed && states[i + 1].mark == |states[i + 1].pushed|
  {
    RunInv(states, actions, i);
    assert StepAt(states, actions, i);
  }

  /** Step j takes the loop into its wait. */
  ghost predicate BeginsWait(states: seq<State>, j: int) {
    0 <= j && j + 1 < |states| && !states[j].loop.Waiting? && states[j + 1].loop.Waiting?
  }

  /** The last wait before moment i began with step w; -1 stands for no wait at all. */
  ghost predicate LastWait(states: seq<State>, i: nat, w: int) {
    && -1 <= w < i && (w >= 0 ==> BeginsWait(states, w))
    && forall m :: w < m < i ==> !BeginsWait(states, m)
  }

  /** Every moment has a last wait, or none. */
  lemma {:induction false} LastWaitExists(states: seq<State>, i: nat) returns (w: int)
    ensures LastWait(states, i, w)
    decreases i
  {
    if i == 0 {
      w := -1;
    } else if BeginsWait(states, i - 1) {
      w := i - 1;
    } else {
      w := LastWaitExists(states, i - 1);
    }
  }

  /** What had been pushed when that wait began. */
  ghost function PushedBy(states: seq<State>, w: int): seq<nat>
    requires -1 <= w && w + 1 < |states|
  {
    if w == -1 then [] else states[w + 1].pushed
  }

  /** The mark is how many events had been pushed when the loop last began to wait. */
  lemma {:induction false} MarkIsLastWait(states: seq<State>, actions: seq<Action>, i: nat, w: int)
    requires IsRun(states, actions) && i < |states| && LastWait(states, i, w)
    ensures states[i].mark == |PushedBy(states, w)|
    decreases i
  {
    if i > 0 {
      assert StepAt(states, actions, i - 1);
      if w < i - 1 {
        MarkIsLastWait(states, actions, i - 1, w);
        assert !BeginsWait(states, i - 1);
        MarkStays(states[i - 1], actions[i - 1]);
      }
    }
  }

  lemma MarkStays(s: State, a: Action)
    requires Enabled(s, a)
    ensures s.loop.Waiting? || !Step(s, a).loop.Waiting? ==> Step(s, a).mark == s.mark
  {
  }

  lemma StepExtends(s: State, a: Action)
    requires Enabled(s, a)
    ensures s.pushed <= Step(s, a).pushed
  {
  }

  lemma {:induction false} RunExtends(states: seq<State>, actions: seq<Action>, i: nat, j: nat)
    requires IsRun(states, actions) && i <= j < |states|
    ensures states[i].pushed <= states[j].pushed
    decreases j
  {
    if i < j {
      RunExtends(states, actions, i, j - 1);
      assert StepAt(states, actions, j - 1);
      StepExtends(states[j - 1], actions[j - 1]);
    }
  }

  /** The events pushed before the last wait are the first ones pushed. */
  lemma PushedFirst(states: seq<State>, actions: seq<Action>, i: nat, w: int)
    requires IsRun(states, actions) && i < |states| && LastWait(states, i, w)
    ensures PushedBy(states, w) <= states[i].pushed
  {
    if w >= 0 {
      RunExtends(states, actions, w + 1, i);
    }
  }

  /**
   * When the loop has exited, the events it has processed are exactly those pushed when it last
   * began to wait, and the events left are exactly those pushed since; all, if it never waited.
   */
  lemma ExitLeavesTheRest(states: seq<State>, actions: seq<Action>, i: nat, w: int)
    requires IsRun(states, actions) && i < |states| && states[i].loop.Exited? && LastWait(states, i, w)
    ensures states[i].processed == PushedBy(states, w) <= states[i].pushed
    ensures Reverse(states[i].queue) == states[i].pushed[|PushedBy(states, w)|..]
  {
    RunInv(states, actions, i);
    MarkIsLastWait(states, actions, i, w);
    PushedFirst(states, actions, i, w);
    var s := states[i];
    assert s.pushed == s.pushed[..s.mark] + s.pushed[s.mark..];
  }

  /** With the mutex free, a waiting loop means an empty list and a queue that has not been stopped. */
  lemma NoLostWakeUp(states: seq<State>, actions: seq<Action>, i: nat)
    requires IsRun(states, actions) && i < |states|
    requires states[i].owner.Free? && states[i].loop.Waiting?
    ensures states[i].queue == [] && states[i].running
  {
    RunInv(states, actions, i);
  }

  /** While the loop holds the mutex no other thread touches the list, the flag or the loop. */
  lemma LoopUndisturbed(s: State, a: Action)
    requires Inv(s) && Enabled(s, a) && LoopHolds(s.loop)
    requires a.BeginPush? || a.BeginStop? || a.Lock? || a.Change? || a.Signal? || a.Unlock?
    ensures var s' := Step(s, a);
            s'.queue == s.queue && s'.running == s.running && s'.owner == s.owner && s'.loop == s.loop
            && s'.pushed == s.pushed && s'.processed == s.processed && s'.mark == s.mark
  {
    assert forall t :: s.owner != Client(t);
  }

  /** How much of a burst is left. */
  function Work(s: State): nat {
    2 * |s.queue| + (if s.loop.Handling? then 1 else 0) + (if LoopHolds(s.loop) then 1 else 0)
  }

  /** Inside a burst the loop can always take a step, and each one brings the next wait or the exit nearer. */
  lemma LoopProgresses(s: State)
    requires Inv(s) && (s.loop.Testing? || s.loop.Handling?)
    ensures Enabled(s, if s.loop.Testing? then Test else Handle)
    ensures Work(Step(s, if s.loop.Testing? then Test else Handle)) < Work(s)
  {
  }

  /** The state the loop's own steps lead to, up to its next wait or its exit. */
  function Burst(s: State): State
    decreases Work(s)
  {
    if s.loop.Testing? then Burst(Step(s, Test))
    else if s.loop.Handling? then Burst(Step(s, Handle))
    else s
  }

  /** A running loop that has the mutex processes everything pushed, in order, and then waits. */
  lemma {:induction false} BurstProcessesAll(s: State)
    requires Inv(s) && s.running && (s.loop.Testing? || s.loop.Handling?)
    ensures var s' := Burst(s); s'.loop.Waiting? && s'.processed == s'.pushed == s.pushed && s'.queue == []
    decreases Work(s)
  {
    var a := if s.loop.Testing? then Test else Handle;
    StepInv(s, a);
    LoopProgresses(s);
    if !Step(s, a).loop.Waiting? {
      BurstProcessesAll(Step(s, a));
    }
  }

  lemma StepGrows(s: State, a: Action)
    requires Enabled(s, a)
    ensures |s.pushed| <= |Step(s, a).pushed| && |s.processed| <= |Step(s, a).processed|
    ensures s.loop.Unstarted? <== Step(s, a).loop.Unstarted?
    ensures !s.loop.Unstarted? && !s.running ==> !Step(s, a).running
  {
  }

  /** The histories only grow, a started loop stays started, and a stopped one stays stopped. */
  lemma {:induction false} RunGrows(states: seq<State>, actions: seq<Action>, i: nat, j: nat)
    requires IsRun(states, actions) && i <= j < |states|
    ensures |states[i].pushed| <= |states[j].pushed| && |states[i].processed| <= |states[j].processed|
    ensures states[j].loop.Unstarted? ==> states[i].loop.Unstarted?
    ensures !states[i].loop.Unstarted? && !states[i].running ==> !states[j].running
    decreases j
  {
    if i < j {
      RunGrows(states, actions, i, j - 1);
      assert StepAt(states, actions, j - 1);
      StepGrows(states[j - 1], actions[j - 1]);
    }
  }

  /** An exited loop has processed event number k if and only if it was pushed before some wait began. */
  lemma DeliveredIff(states: seq<State>, actions: seq<Action>, i: nat, k: nat)
    requires IsRun(states, actions) && i < |states| && states[i].loop.Exited?
    ensures k < |states[i].processed|
       <==> exists j :: 0 <= j < i && BeginsWait(states, j) && k < |states[j + 1].pushed|
    ensures k < |states[i].processed| ==> k < |states[i].pushed| && states[i].processed[k] == states[i].pushed[k]
  {
    var w := LastWaitExists(states, i);
    ExitLeavesTheRest(states, actions, i, w);
    if k < |states[i].processed| {
      assert BeginsWait(states, w) && k < |states[w + 1].pushed|;
    } else if j :| 0 <= j < i && BeginsWait(states, j) && k < |states[j + 1].pushed| {
      assert j <= w;
      RunGrows(states, actions, j + 1, w + 1);
    }
  }

  /** Event number k is processed, or the loop is on its way to it. */
  predicate Secured(s: State, k: nat) {
    LoopHolds(s.loop) || k < |s.processed|
  }

  /** A running loop that has the mutex keeps it until everything is processed. */
  lemma HoldsOrDone(s: State, a: Action, k: nat)
    requires Inv(s) && Enabled(s, a) && s.running && k < |s.pushed| && Secured(s, k)
    ensures Secured(Step(s, a), k)
  {
    if LoopHolds(s.loop) && !LoopHolds(Step(s, a).loop) {
      if !a.Test? {
        LoopUndisturbed(s, a);
      }
    }
  }

  /** From the moment the loop has the mutex until the queue is stopped. */
  lemma {:induction false} HeldMeansProcessed(states: seq<State>, actions: seq<Action>, i: nat, b: nat, k: nat)
    requires IsRun(states, actions) && i <= b < |states| && LoopHolds(states[i].loop) && states[b].running
    requires k < |states[i].pushed|
    ensures Secured(states[b], k)
    decreases b
  {
    if i < b {
      RunGrows(states, actions, i, b - 1);
      RunGrows(states, actions, b - 1, b);
      assert !states[i].loop.Unstarted?;
      assert states[b - 1].running;
      HeldMeansProcessed(states, actions, i, b - 1, k);
      HoldsOrDoneNext(states, actions, b - 1, k);
    }
  }

  lemma HoldsOrDoneNext(states: seq<State>, actions: seq<Action>, i: nat, k: nat)
    requires IsRun(states, actions) && i < |actions| && states[i].running && k < |states[i].pushed|
    ensures Secured(states[i], k) ==> Secured(states[i + 1], k)
  {
    if Secured(states[i], k) {
      assert StepAt(states, actions, i);
      RunInv(states, actions, i);
      HoldsOrDone(states[i], actions[i], k);
    }
  }

  /** While the loop does not have the mutex nothing is processed. */
  lemma {:induction false} NothingProcessed(states: seq<State>, actions: seq<Action>, i: nat, j: nat)
    requires IsRun(states, actions) && i <= j < |states| && forall m :: i <= m < j ==> !LoopHolds(states[m].loop)
    ensures states[j].processed == states[i].processed
    decreases j
  {
    if i < j {
      NothingProcessed(states, actions, i, j - 1);
      assert StepAt(states, actions, j - 1);
      assert !LoopHolds(states[j - 1].loop);
    }
  }

  lemma StoppedStep(s: State, a: Action)
    requires Enabled(s, a) && !s.running && !s.loop.Unstarted? && !s.loop.Handling?
    ensures !Step(s, a).loop.Handling? && Step(s, a).processed == s.processed
  {
  }

  /** A loop that has been stopped between two events processes no further event. */
  lemma {:induction false} StoppedForGood(states: seq<State>, actions: seq<Action>, i: nat, j: nat)
    requires IsRun(states, actions) && i <= j < |states|
    requires !states[i].running && !states[i].loop.Unstarted? && !states[i].loop.Handling?
    ensures !states[j].loop.Handling? && states[j].processed == states[i].processed
    decreases j
  {
    if i < j {
      StoppedForGood(states, actions, i, j - 1);
      RunGrows(states, actions, i, j - 1);
      assert StepAt(states, actions, j - 1);
      StoppedStep(states[j - 1], actions[j - 1]);
    }
  }

  /** Step a of the run pushes event number k; step b is the first stop of a queue whose loop has started. */
  ghost predicate PushThenStop(states: seq<State>, actions: seq<Action>, a: nat, b: nat, k: nat) {
    && IsRun(states, actions) && a < b < |actions|
    && actions[a].Change? && states[a].Pc(actions[a].t).InPush? && k == |states[a].pushed|
    && actions[b].Change? && states[b].Pc(actions[b].t).InStop? && states[b].running && !states[b].loop.Unstarted?
  }

  /**
   * `android_notifyGlassShutdown` pushes its event and then stops the queue: whatever else
   * happens, the event is ever processed if and only if the loop got hold of the mutex in between.
   */
  lemma ShutdownDeliveredIff(states: seq<State>, actions: seq<Action>, a: nat, b: nat, k: nat, x: nat)
    requires PushThenStop(states, actions, a, b, k) && b < x < |states|
    ensures k < |states[x].processed| <==> exists i :: a < i < b && LoopHolds(states[i].loop)
  {
    AtPush(states, actions, a, k);
    AtStop(states, actions, b);
    if i :| a < i < b && LoopHolds(states[i].loop) {
      RunGrows(states, actions, a + 1, i);
      HeldMeansProcessed(states, actions, i, b, k);
      RunGrows(states, actions, b, x);
    } else {
      NothingProcessed(states, actions, a, b);
      StoppedForGood(states, actions, b + 1, x);
    }
  }

  lemma AtPush(states: seq<State>, actions: seq<Action>, a: nat, k: nat)
    requires IsRun(states, actions) && a < |actions|
    requires actions[a].Change? && states[a].Pc(actions[a].t).InPush? && k == |states[a].pushed|
    ensures !LoopHolds(states[a].loop) && |states[a].processed| <= k < |states[a + 1].pushed|
  {
    RunInv(states, actions, a);
    assert StepAt(states, actions, a);
    assert states[a].owner == Client(actions[a].t);
  }

  lemma AtStop(states: seq<State>, actions: seq<Action>, b: nat)
    requires IsRun(states, actions) && b < |actions|
    requires actions[b].Change? && states[b].Pc(actions[b].t).InStop? && !states[b].loop.Unstarted?
    ensures !LoopHolds(states[b].loop) && !states[b + 1].running && !states[b + 1].loop.Unstarted?
    ensures !states[b + 1].loop.Handling?
    ensures states[b + 1].processed == states[b].processed
  {
    RunInv(states, actions, b);
    assert StepAt(states, actions, b);
    assert states[b].owner == Client(actions[b].t);
  }

  /** The steps of `android_notifyGlassShutdown` (push, then stop) with the loop woken only afterwards. */
  const LostShutdown: seq<Action> := [
    Start, LoopLock, Attach(true), Test,
    BeginPush(0, SHUTDOWN), Lock(0), Change(0), Signal(0), Unlock(0),
    BeginStop(0), Lock(0), Change(0), Signal(0), Unlock(0),
    Relock, Test]

  /** So the shutdown event of `android_notifyGlassShutdown` may never be processed. */
  lemma ShutdownMayBeLost() returns (states: seq<State>, actions: seq<Action>)
    ensures IsRun(states, actions) && states[|actions|].loop.Exited?
    ensures states[|actions|].pushed == [SHUTDOWN] && states[|actions|].processed == []
  {
    actions := LostShutdown;
    states := seq(|actions| + 1, i requires 0 <= i => LostState(i));
    forall i | 0 <= i < |actions|
      ensures StepAt(states, actions, i)
    {
      LostStep(i);
    }
  }

  /** The state after i of those steps. */
  function LostState(i: nat): State {
    var e := [SHUTDOWN];
    if i == 0 then Init(false)
    else if i == 1 then State([], true, Free, Locking, map[], [], [], 0)
    else if i == 2 then State([], true, LoopThread, Attaching, map[], [], [], 0)
    else if i == 3 then State([], true, LoopThread, Testing, map[], [], [], 0)
    else if i == 4 then State([], true, Free, Waiting, map[], [], [], 0)
    else if i == 5 then State([], true, Free, Waiting, map[0 := WantPush(SHUTDOWN)], [], [], 0)
    else if i == 6 then State([], true, Client(0), Waiting, map[0 := InPush(SHUTDOWN)], [], [], 0)
    else if i == 7 then State(e, true, Client(0), Waiting, map[0 := Changed], e, [], 0)
    else if i == 8 then State(e, true, Client(0), Woken, map[0 := Signalled], e, [], 0)
    else if i == 9 then State(e, true, Free, Woken, map[0 := Idle], e, [], 0)
    else if i == 10 then State(e, true, Free, Woken, map[0 := WantStop], e, [], 0)
    else if i == 11 then State(e, true, Client(0), Woken, map[0 := InStop], e, [], 0)
    else if i == 12 then State(e, false, Client(0), Woken, map[0 := Changed], e, [], 0)
    else if i == 13 then State(e, false, Client(0), Woken, map[0 := Signalled], e, [], 0)
    else if i == 14 then State(e, false, Free, Woken, map[0 := Idle], e, [], 0)
    else if i == 15 then State(e, false, LoopThread, Testing, map[0 := Idle], e, [], 0)
    else State(e, false, Free, Exited, map[0 := Idle], e, [], 0)
  }

  lemma LostStep(i: nat)
    requires i < |LostShutdown|
    ensures Enabled(LostState(i), LostShutdown[i]) && Step(LostState(i), LostShutdown[i]) == LostState(i + 1)
  {
    if i < 8 {
      LostPush(i);
    } else {
      LostStop(i);
    }
  }

  lemma LostPush(i: nat)
    requires i < 8
    ensures Enabled(LostState(i), LostShutdown[i]) && Step(LostState(i), LostShutdown[i]) == LostState(i + 1)
  {
  }

  lemma LostStop(i: nat)
    requires 8 <= i < |LostShutdown|
    ensures Enabled(LostState(i), LostShutdown[i]) && Step(LostState(i), LostShutdown[i]) == LostState(i + 1)
  {
  }

  /** Once attaching has failed the mutex is never released: nothing is ever pushed or processed again. */
  lemma {:induction false} FailedForever(states: seq<State>, actions: seq<Action>, i: nat, j: nat)
    requires IsRun(states, actions) && i <= j < |states| && states[i].loop.Failed?
    ensures states[j].loop.Failed? && states[j].owner.LoopThread?
    ensures states[j].queue == states[i].queue && states[j].pushed == states[i].pushed
    ensures states[j].running == states[i].running
    decreases j
  {
    if i == j {
      RunInv(states, actions, i);
    } else {
      FailedForever(states, actions, i, j - 1);
      FailedNext(states, actions, j - 1);
    }
  }

  lemma FailedNext(states: seq<State>, actions: seq<Action>, i: nat)
    requires IsRun(states, actions) && i < |actions| && states[i].loop.Failed?
    ensures states[i + 1].loop.Failed? && states[i + 1].owner.LoopThread?
    ensures states[i + 1].queue == states[i].queue && states[i + 1].pushed == states[i].pushed
    ensures states[i + 1].running == states[i].running
  {
    assert StepAt(states, actions, i);
    RunInv(states, actions, i);
    FailedStep(states[i], actions[i]);
  }

  lemma FailedStep(s: State, a: Action)
    requires Inv(s) && Enabled(s, a) && s.loop.Failed?
    ensures var s' := Step(s, a); s'.loop.Failed? && s'.owner.LoopThread?
    ensures var s' := Step(s, a); s'.queue == s.queue && s'.pushed == s.pushed && s'.running == s.running
  {
    LoopUndisturbed(s, a);
  }

  lemma FailsOnlyByAttach(s: State, a: Action)
    requires Enabled(s, a) && !s.loop.Failed?
    ensures Step(s, a).loop.Failed? <==> a == Attach(false)
  {
  }

  /** In every run the loop has failed if and only if an attempt to attach has. */
  lemma {:induction false} FailedIff(states: seq<State>, actions: seq<Action>, i: nat)
    requires IsRun(states, actions) && i < |states|
    ensures states[i].loop.Failed? <==> exists j :: 0 <= j < i && actions[j] == Attach(false)
  {
    if i > 0 {
      FailedIff(states, actions, i - 1);
      assert StepAt(states, actions, i - 1);
      if states[i - 1].loop.Failed? {
        FailedNext(states, actions, i - 1);
      } else {
        FailsOnlyByAttach(states[i - 1], actions[i - 1]);
      }
    }
  }

  /** The actions can be taken one after the other from s. */
  predicate Possible(s: State, actions: seq<Action>)
    decreases |actions|
  {
    actions == [] || (Enabled(s, actions[0]) && Possible(Step(s, actions[0]), actions[1..]))
  }

  /** The state they lead to. */
  function After(s: State, actions: seq<Action>): State
    requires Possible(s, actions)
    decreases |actions|
  {
    if actions == [] then s else After(Step(s, actions[0]), actions[1..])
  }

  /** The actions lead to a state in which the mutex is free. */
  predicate Frees(s: State, actions: seq<Action>) {
    Possible(s, actions) && After(s, actions).owner.Free?
  }

  lemma FreesFirst(s: State, a: Action, rest: seq<Action>)
    requires Enabled(s, a) && Frees(Step(s, a), rest)
    ensures Frees(s, [a] + rest)
  {
    assert ([a] + rest)[1..] == rest;
  }

  /** A client that has the mutex changes what it has to, signals and unlocks. */
  lemma ClientFrees(s: State, t: nat) returns (actions: seq<Action>)
    requires ClientHolds(s.Pc(t))
    ensures Frees(s, actions)
    decreases if s.Pc(t).Signalled? then 0 else if s.Pc(t).Changed? then 1 else 2
  {
    var a := match s.Pc(t) case Signalled => Unlock(t) case Changed => Signal(t) case _ => Change(t);
    actions := [];
    if !s.Pc(t).Signalled? {
      actions := ClientFrees(Step(s, a), t);
    } else {
      assert Frees(Step(s, a), []);
    }
    FreesFirst(s, a, actions);
    actions := [a] + actions;
  }

  /** A loop that has the mutex and has not failed attaches, empties the list and waits or exits. */
  lemma LoopFrees(s: State) returns (actions: seq<Action>)
    requires LoopHolds(s.loop) && !s.loop.Failed?
    ensures Frees(s, actions)
    decreases Work(s), if s.loop.Attaching? then 1 else 0
  {
    var a := match s.loop case Attaching => Attach(true) case Testing => Test case _ => Handle;
    actions := [];
    if LoopHolds(Step(s, a).loop) {
      actions := LoopFrees(Step(s, a));
    } else {
      assert Frees(Step(s, a), []);
    }
    FreesFirst(s, a, actions);
    actions := [a] + actions;
  }

  lemma {:induction false} FailedFrees(s: State, actions: seq<Action>)
    requires Inv(s) && s.loop.Failed? && Possible(s, actions)
    ensures After(s, actions).owner.LoopThread?
    decreases |actions|
  {
    if actions != [] {
      StepInv(s, actions[0]);
      FailedStep(s, actions[0]);
      FailedFrees(Step(s, actions[0]), actions[1..]);
    }
  }

  /**
   * At every moment of every run, the mutex can be freed by some continuation if and only if no
   * attempt to attach has failed: that path, and no other, leaves it locked for good.
   */
  lemma StuckIff(states: seq<State>, actions: seq<Action>, i: nat)
    requires IsRun(states, actions) && i < |states|
    ensures (exists more :: Frees(states[i], more)) <==> !exists j :: 0 <= j < i && actions[j] == Attach(false)
  {
    var s := states[i];
    RunInv(states, actions, i);
    FailedIff(states, actions, i);
    if s.loop.Failed? {
      forall more | Possible(s, more)
        ensures !Frees(s, more)
      {
        FailedFrees(s, more);
      }
    } else if s.owner.LoopThread? {
      var more := LoopFrees(s);
    } else if s.owner.Client? {
      var more := ClientFrees(s, s.owner.id);
    } else {
      assert Frees(s, []);
    }
  }

  // ----- What clients asked for -----

  /** Thread t calls `eventq_push` or `eventq_stop`. */
  predicate Asks(a: Action, t: nat) {
    a == BeginStop(t) || (a.BeginPush? && a.t == t)
  }

  /** Step j is the last call of thread t before moment i; -1 stands for none. */
  ghost predicate LastCall(actions: seq<Action>, i: nat, t: nat, j: int) {
    && -1 <= j < i <= |actions| && (j >= 0 ==> Asks(actions[j], t))
    && forall m :: j < m < i ==> !Asks(actions[m], t)
  }

  lemma {:induction false} LastCallExists(actions: seq<Action>, i: nat, t: nat) returns (j: int)
    requires i <= |actions|
    ensures LastCall(actions, i, t, j)
    decreases i
  {
    if i == 0 {
      j := -1;
    } else if Asks(actions[i - 1], t) {
      j := i - 1;
    } else {
      j := LastCallExists(actions, i - 1, t);
    }
  }

  /** A thread is idle or busy with exactly what it was last called for. */
  predicate BusyWith(pc: ClientPc, call: Action) {
    match pc
    case WantPush(e) => call.BeginPush? && call.event == e
    case InPush(e) => call.BeginPush? && call.event == e
    case WantStop => call.BeginStop?
    case InStop => call.BeginStop?
    case _ => true
  }

  lemma BusyStep(s: State, a: Action, t: nat, call: Action)
    requires Enabled(s, a) && BusyWith(s.Pc(t), call) && !Asks(a, t)
    ensures BusyWith(Step(s, a).Pc(t), call)
    ensures s.Pc(t).Idle? ==> Step(s, a).Pc(t).Idle?
  {
  }

  lemma AskedStep(s: State, a: Action, t: nat)
    requires Enabled(s, a) && Asks(a, t)
    ensures BusyWith(Step(s, a).Pc(t), a)
  {
  }

  lemma {:induction false} BusyWithLastCall(states: seq<State>, actions: seq<Action>, i: nat, t: nat, j: int)
    requires IsRun(states, actions) && i < |states| && LastCall(actions, i, t, j)
    ensures if j < 0 then states[i].Pc(t).Idle? else BusyWith(states[i].Pc(t), actions[j])
    decreases i
  {
    if i > 0 {
      assert StepAt(states, actions, i - 1);
      if j == i - 1 {
        AskedStep(states[i - 1], actions[i - 1], t);
      } else {
        BusyWithLastCall(states, actions, i - 1, t, j);
        BusyStep(states[i - 1], actions[i - 1], t, if j < 0 then BeginStop(t) else actions[j]);
      }
    }
  }

  /**
   * Whenever a client changes the queue, it does what it was last called for: it appends the event
   * it was given to the events pushed, or it stops the queue.
   */
  lemma ChangesAsAsked(states: seq<State>, actions: seq<Action>, i: nat, t: nat, j: int)
    requires IsRun(states, actions) && i < |actions| && actions[i] == Change(t) && LastCall(actions, i, t, j)
    ensures 0 <= j
    ensures actions[j].BeginPush? ==>
              && states[i + 1].pushed == states[i].pushed + [actions[j].event]
              && states[i + 1].queue == [actions[j].event] + states[i].queue
              && states[i + 1].running == states[i].running
    ensures actions[j].BeginStop? ==>
              && !states[i + 1].running
              && states[i + 1].pushed == states[i].pushed && states[i + 1].queue == states[i].queue
  {
    BusyWithLastCall(states, actions, i, t, j);
    assert StepAt(states, actions, i);
  }

  lemma OnlyChangePushes(s: State, a: Action)
    requires Enabled(s, a) && !a.Change?
    ensures Step(s, a).pushed == s.pushed
  {
  }

  /** Event number k was pushed by some client's change i, for a call j with that very event. */
  lemma {:induction false} PushedWereAsked(states: seq<State>, actions: seq<Action>, m: nat, k: nat) returns (i: nat,
                                                                                                              j: int)
    requires IsRun(states, actions) && m < |states| && k < |states[m].pushed|
    ensures i < m && actions[i].Change? && |states[i].pushed| == k && LastCall(actions, i, actions[i].t, j)
    ensures 0 <= j && actions[j] == BeginPush(actions[i].t, states[m].pushed[k])
    decreases m
  {
    var s, a := states[m - 1], actions[m - 1];
    assert StepAt(states, actions, m - 1);
    if k < |s.pushed| {
      StepExtends(s, a);
      i, j := PushedWereAsked(states, actions, m - 1, k);
    } else {
      if !a.Change? {
        OnlyChangePushes(s, a);
      }
      i := m - 1;
      j := LastCallExists(actions, i, a.t);
      ChangesAsAsked(states, actions, i, a.t, j);
    }
  }

  /** So every event processed is the event of some client's call, the k-th of the k-th push. */
  lemma ProcessedWereAsked(states: seq<State>, actions: seq<Action>, m: nat, k: nat) returns (i: nat, j: int)
    requires IsRun(states, actions) && m < |states| && k < |states[m].processed|
    ensures i < m && actions[i].Change? && |states[i].pushed| == k && LastCall(actions, i, actions[i].t, j)
    ensures 0 <= j && actions[j] == BeginPush(actions[i].t, states[m].processed[k])
  {
    ProcessedInOrder(states, actions, m);
    i, j := PushedWereAsked(states, actions, m, k);
  }

  // ----- What can still be delivered -----

  /** A client that is about to stop the queue has the mutex. */
  predicate Stopping(s: State) {
    s.owner.Client? && s.Pc(s.owner.id).InStop?
  }

  /** The loop is still to start, or it runs on and nobody is in the middle of stopping it. */
  predicate Ready(s: State) {
    !s.loop.Failed? && !s.loop.Exited? && (s.loop.Unstarted? || (s.running && !Stopping(s)))
  }

  /** The actions lead to a state in which everything pushed in s has been processed. */
  predicate Delivers(s: State, actions: seq<Action>) {
    Possible(s, actions) && |s.pushed| <= |After(s, actions).processed|
  }

  lemma DeliversFirst(s: State, a: Action, rest: seq<Action>)
    requires Enabled(s, a) && Delivers(Step(s, a), rest)
    ensures Delivers(s, [a] + rest)
  {
    assert ([a] + rest)[1..] == rest;
    StepGrows(s, a);
  }

  /** How far a ready loop is from having the mutex and testing its condition. */
  function Rank(s: State): nat {
    (match s.loop
     case Unstarted => 20 case Locking => 16 case Waiting => 12 case Woken => 8 case Attaching => 4 case _ => 0)
    + (if !s.owner.Client? then 0
       else match s.Pc(s.owner.id) case Signalled => 1 case Changed => 2 case _ => 3)
  }

  /** The next step toward delivery: of the client that has the mutex, or else of the loop. */
  function Next(s: State): Action {
    if s.owner.Client? then
      var t := s.owner.id;
      match s.Pc(t) case Signalled => Unlock(t) case Changed => Signal(t) case _ => Change(t)
    else
      match s.loop
      case Unstarted => Start
      case Locking => LoopLock
      case Attaching => Attach(true)
      case Waiting => Wake
      case Woken => Relock
      case Testing => Test
      case _ => Handle
  }

  lemma NextStep(s: State)
    requires Inv(s) && Ready(s) && |s.processed| < |s.pushed|
    ensures Enabled(s, Next(s)) && Ready(Step(s, Next(s)))
    ensures Rank(Step(s, Next(s))) < Rank(s) || (Rank(Step(s, Next(s))) == Rank(s) && Work(Step(s, Next(s))) < Work(s))
  {
    if s.owner.Client? {
      var t := s.owner.id;
      assert s.owner == Client(t);
      assert ClientHolds(s.Pc(t));
    }
  }

  /** A ready loop can deliver everything pushed so far. */
  lemma ReadyDelivers(s: State) returns (actions: seq<Action>)
    requires Inv(s) && Ready(s)
    ensures Delivers(s, actions)
    decreases Rank(s), Work(s)
  {
    if |s.pushed| <= |s.processed| {
      actions := [];
    } else {
      NextStep(s);
      StepInv(s, Next(s));
      actions := ReadyDelivers(Step(s, Next(s)));
      DeliversFirst(s, Next(s), actions);
      actions := [Next(s)] + actions;
    }
  }

  lemma NotReadyStep(s: State, a: Action)
    requires Inv(s) && Enabled(s, a) && !Ready(s)
    ensures !Ready(Step(s, a)) && Step(s, a).processed == s.processed
  {
    if s.loop.Failed? {
      LoopUndisturbed(s, a);
    }
  }

  lemma {:induction false} NotReadyDelivers(s: State, actions: seq<Action>)
    requires Inv(s) && !Ready(s) && Possible(s, actions)
    ensures After(s, actions).processed == s.processed
    decreases |actions|
  {
    if actions != [] {
      StepInv(s, actions[0]);
      NotReadyStep(s, actions[0]);
      NotReadyDelivers(Step(s, actions[0]), actions[1..]);
    }
  }

  /**
   * At every moment of every run, some continuation processes everything pushed so far if and only
   * if it has been processed already or the loop is ready.
   */
  lemma DeliverableIff(states: seq<State>, actions: seq<Action>, i: nat)
    requires IsRun(states, actions) && i < |states|
    ensures (exists more :: Delivers(states[i], more)) <==> states[i].processed == states[i].pushed || Ready(states[i])
  {
    var s := states[i];
    RunInv(states, actions, i);
    if Ready(s) {
      var more := ReadyDelivers(s);
    } else {
      forall more | Possible(s, more)
        ensures After(s, more).processed == s.processed
      {
        NotReadyDelivers(s, more);
      }
      assert s.processed == s.pushed ==> Delivers(s, []);
    }
  }

  /** Such a run: the thread starts, locks and fails to attach. */
  lemma AttachMayFail() returns (states: seq<State>, actions: seq<Action>)
    ensures IsRun(states, actions) && actions == [Start, LoopLock, Attach(false)]
    ensures states[3].loop.Failed? && states[3].owner.LoopThread?
  {
    var s0 := Init(false);
    var s1 := Step(s0, Start);
    var s2 := Step(s1, LoopLock);
    actions := [Start, LoopLock, Attach(false)];
    states := [s0, s1, s2, Step(s2, Attach(false))];
    assert StepAt(states, actions, 0) && StepAt(states, actions, 1) && StepAt(states, actions, 2);
  }
}
