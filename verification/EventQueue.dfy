/** The doubly linked event list of EventLoop.c and the events it links (Events.c, activity.c). */
module EventQueue {

  /** `createSignalEvent` returns a node with null links, which `eventq_push` relies on. */
  class Event {
    const kind: nat
    const signal: nat
    var prev: Event?
    var next: Event?

    constructor (signal: nat)
      ensures kind == SIGNAL_EVENT && this.signal == signal && prev == null && next == null
    {
      kind := SIGNAL_EVENT;
      this.signal := signal;
      prev := null;
      next := null;
    }
  }

  const SIGNAL_EVENT: nat := 1
  const SHUTDOWN: nat := 3

  ghost function Reverse<T>(s: seq<T>): (r: seq<T>)
    ensures |r| == |s|
  {
    if s == [] then [] else [s[|s| - 1]] + Reverse(s[..|s| - 1])
  }

  lemma {:induction false} ReverseCons<T>(x: T, s: seq<T>)
    ensures Reverse([x] + s) == Reverse(s) + [x]
  {
    if s == [] {
      assert [x] + s == [x] && Reverse([x]) == [x] + Reverse([]);
    } else {
      var t := s[..|s| - 1];
      ReverseCons(x, t);
      assert ([x] + s)[..|s|] == [x] + t;
    }
  }

  class EventQ {
    var size: nat
    var running: bool
    var head: Event?
    var tail: Event?
    /** The queued events from head to tail, that is, newest first. */
    ghost var nodes: seq<Event>

    /** The fields and links represent one acyclic sequence of distinct nodes. */
    ghost predicate Valid()
      reads this, nodes
    {
      && size == |nodes|
      && (forall i, j :: 0 <= i < j < |nodes| ==> nodes[i] != nodes[j])
      && (size == 0 ==> head == null && tail == null)
      && (size > 0 ==> head == nodes[0] && tail == nodes[size - 1])
      && (size > 0 ==> nodes[0].prev == null && nodes[size - 1].next == null)
      && (forall i {:trigger nodes[i].next} :: 0 <= i < |nodes| - 1 ==> nodes[i].next == nodes[i + 1])
      && (forall i {:trigger nodes[i].prev} :: 1 <= i < |nodes| ==> nodes[i].prev == nodes[i - 1])
    }

    constructor ()
      ensures Valid() && nodes == []
    {
      size, running, head, tail := 0, false, null, null;
      nodes := [];
    }

    /** Adds a fresh node in front of the head. */
    method Push(e: Event)
      requires Valid() && e !in nodes && e.prev == null && e.next == null
      modifies this, e, nodes
      ensures Valid() && nodes == [e] + old(nodes) && running == old(running)
    {
      if size == 0 {
        head := e;
        tail := e;
      } else {
        head.prev := e;
        e.next := head;
        head := e;
      }
      size := size + 1;
      nodes := [e] + nodes;
      assert forall i :: 1 <= i < |nodes| ==> nodes[i] == old(nodes)[i - 1];
    }

    /** Unlinks the tail; the same code stands in `eventq_pop` and in `eventq_loop`. */
    method Dequeue() returns (back: Event)
      requires Valid() && size > 0
      modifies this, nodes
      ensures Valid() && nodes == old(nodes)[..|old(nodes)| - 1] && back == old(nodes)[|old(nodes)| - 1]
      ensures running == old(running)
    {
      back := tail;
      if size == 1 {
        head := null;
        tail := null;
      } else {
        tail := tail.prev;
        tail.next := null;
      }
      size := size - 1;
      nodes := nodes[..|nodes| - 1];
    }

    method Pop() returns (back: Event?)
      requires Valid()
      modifies this, nodes
      ensures Valid() && running == old(running)
      ensures old(nodes) == [] ==> back == null && nodes == []
      ensures old(nodes) != [] ==> back == old(nodes)[|old(nodes)| - 1] && nodes == old(nodes)[..|old(nodes)| - 1]
    {
      if size == 0 {
        return null;
      }
      back := Dequeue();
    }

    method Start()
      requires Valid()
      modifies this
      ensures Valid() && running && nodes == old(nodes)
    {
      running := true;
    }

    method Stop()
      requires Valid()
      modifies this
      ensures Valid() && !running && nodes == old(nodes)
    {
      running := false;
    }

    /** What the loop does from one wait to the next: stopped, nothing; else it empties the list, oldest first. */
    method Drain() returns (handled: seq<Event>)
      requires Valid()
      modifies this, nodes
      ensures Valid() && running == old(running)
      ensures running ==> nodes == [] && handled == Reverse(old(nodes))
      ensures !running ==> nodes == old(nodes) && handled == []
    {
      handled := [];
      while running && size > 0
        invariant Valid() && running == old(running) && nodes <= old(nodes)
        invariant handled + Reverse(nodes) == Reverse(old(nodes))
        invariant !running ==> nodes == old(nodes) && handled == []
        decreases size
      {
        ghost var before := nodes;
        var e := Dequeue();
        assert Reverse(before) == [e] + Reverse(nodes);
        assert handled + ([e] + Reverse(nodes)) == (handled + [e]) + Reverse(nodes);
        handled := handled + [e];
      }
    }
  }
}
