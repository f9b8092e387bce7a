/** The linked list of EventQueue refines the protocol of EventLoop: each critical section is one of its steps. */
module EventRefinement {
  import opened EventQueue
  import opened EventLoop

  /** The events of the protocol are the signals of the nodes. */
  ghost function Signals(nodes: seq<Event>): (r: seq<nat>)
    ensures |r| == |nodes|
  {
    seq(|nodes|, i requires 0 <= i < |nodes| => nodes[i].signal)
  }

  /** The list and the flag are those of the protocol's state. */
  ghost predicate Represents(q: EventQ, s: State)
    reads q, q.nodes
  {
    q.Valid() && Signals(q.nodes) == s.queue && q.running == s.running
  }

  /** `eventq_start` sets the flag. */
  method StartStep(q: EventQ, ghost s: State)
    requires Represents(q, s) && Enabled(s, EventLoop.Start)
    modifies q
    ensures Represents(q, Step(s, EventLoop.Start))
  {
    q.Start();
  }

  /** Between locking and signalling, `eventq_push` takes the step of a client that pushes. */
  method PushStep(q: EventQ, e: Event, ghost s: State, ghost t: nat)
    requires Represents(q, s) && s.Pc(t) == InPush(e.signal) && e !in q.nodes && e.prev == null && e.next == null
    modifies q, e, q.nodes
    ensures Represents(q, Step(s, Change(t)))
  {
    q.Push(e);
  }

  /** Between locking and signalling, `eventq_stop` takes the step of a client that stops the queue. */
  method StopStep(q: EventQ, ghost s: State, ghost t: nat)
    requires Represents(q, s) && s.Pc(t) == InStop
    modifies q
    ensures Represents(q, Step(s, Change(t)))
  {
    q.Stop();
  }

  datatype Outcome = Wait | Exit | Took(e: Event)

  predicate Leads(o: Outcome, pc: LoopPc) {
    match o
    case Wait => pc.Waiting?
    case Exit => pc.Exited?
    case Took(e) => pc == Handling(e.signal)
  }

  /** The head of the loop: wait, exit, or take the oldest event, as the protocol does. */
  method TestStep(q: EventQ, ghost s: State) returns (o: Outcome)
    requires Represents(q, s) && s.loop.Testing?
    modifies q, q.nodes
    ensures Represents(q, Step(s, Test)) && Leads(o, Step(s, Test).loop) && q.nodes <= old(q.nodes)
  {
    if q.size == 0 && q.running {
      o := Wait;
    } else if !q.running {
      o := Exit;
    } else {
      var e := q.Dequeue();
      o := Took(e);
    }
  }

  /** The loop from one locking of the mutex to its next wait or its exit handles what the protocol processes. */
  method Run(q: EventQ, ghost s: State) returns (exited: bool, handled: seq<Event>)
    requires Represents(q, s) && s.loop.Testing?
    modifies q, q.nodes
    ensures Represents(q, Burst(s)) && Burst(s).processed == s.processed + Signals(handled)
    ensures if exited then Burst(s).loop.Exited? else Burst(s).loop.Waiting?
  {
    handled := [];
    ghost var cur := s;
    while true
      invariant Represents(q, cur) && cur.loop.Testing? && Burst(cur) == Burst(s) && q.nodes <= old(q.nodes)
      invariant cur.processed == s.processed + Signals(handled)
      decreases q.size
    {
      var o := TestStep(q, cur);
      match o {
        case Wait => return false, handled;
        case Exit => return true, handled;
        case Took(e) =>
          assert Signals(handled + [e]) == Signals(handled) + [e.signal];
          handled := handled + [e];
          cur := Step(Step(cur, Test), Handle);
      }
    }
  }
}
