/** The input dispatch chain of a display pane container
    (com.raytheon.viz.ui.input.InputManager): a list of prioritized input
    handlers kept sorted by priority, a perspective-specific subset that is
    swapped out as a block, and the three fields of per-event state
    (mouse down, context menu detected, last mouse button). */
module Input {
  import opened Wrappers

  /** An IInputHandler object. Only its identity and whether it implements the
      richer IInputHandler2 interface matter to the manager. */
  class InputHandler {
    const extended: bool

    constructor (extended: bool)
      ensures this.extended == extended
    {
      this.extended := extended;
    }
  }

  /** A registration: a handler and the value of its InputPriority.
      Two registrations are "equal" exactly when their handlers are the same object. */
  datatype PrioritizedHandler = PrioritizedHandler(handler: InputHandler, priority: int)

  /** The priority value perspective-specific handlers are registered at. */
  const PerspectivePriority: int := 0

  /** The mouse button that opens a context menu. */
  const MenuButton: int := 3

  datatype EventKind =
    | MouseDown | MouseUp | MouseWheel | MouseMove | MouseHover | MouseDoubleClick
    | KeyDown | KeyUp | MenuDetect | MouseExit | MouseEnter | OtherEvent

  /** An SWT event as far as the manager looks at it; the handlers see all of it. */
  datatype Event = Event(kind: EventKind, display: nat, button: int, x: int, y: int, keyCode: int)

  /** The handler method that is invoked. */
  datatype Callback =
    | OnMouseDown | OnMouseUp | OnMouseDownMove | OnMouseMove | OnMouseWheel | OnMouseHover
    | OnDoubleClick | OnKeyDown | OnKeyUp | OnMouseEnter | OnMouseExit

  /** One invocation of a handler: which method, on the entry at which index of the list. */
  datatype Call = Call(callback: Callback, index: nat)

  /** What a handler answers ("handled") when one of its methods is invoked with an event. */
  type Oracle = (InputHandler, Callback, Event) -> bool

  // ---------------------------------------------------------------------------
  // Dispatch order

  /** The event a handler receives: a plain IInputHandler is told the last
      mouse-down button on a drag move instead of the event's own button. */
  function Argument(h: InputHandler, cb: Callback, e: Event, lastButton: int): Event
  {
    if cb == OnMouseDownMove && !h.extended then e.(button := lastButton) else e
  }

  /** Whether the handler at index i reports the event as handled. */
  predicate Handled(hs: seq<PrioritizedHandler>, i: int, cb: Callback, e: Event, lastButton: int, answer: Oracle)
  {
    0 <= i < |hs| && answer(hs[i].handler, cb, Argument(hs[i].handler, cb, e, lastButton))
  }

  /** The calls of a walk from the last index down that stops right after the
      first handler reporting the event as handled. */
  ghost predicate WalkedDown(calls: seq<Call>, cb: Callback, hs: seq<PrioritizedHandler>, e: Event,
                             lastButton: int, answer: Oracle)
  {
    && |calls| <= |hs|
    && (forall j :: 0 <= j < |calls| ==> calls[j] == Call(cb, |hs| - 1 - j))
    && (forall i :: |hs| - |calls| < i < |hs| ==> !Handled(hs, i, cb, e, lastButton, answer))
    && (|calls| < |hs| ==> 0 < |calls| && Handled(hs, |hs| - |calls|, cb, e, lastButton, answer))
  }

  /** Every handler notified once, lowest index first. */
  function Ascending(cb: Callback, n: nat): (calls: seq<Call>)
  {
    seq(n, i requires 0 <= i < n => Call(cb, i))
  }

  /** Every handler notified once, highest index first. */
  function Descending(cb: Callback, n: nat): (calls: seq<Call>)
  {
    seq(n, i requires 0 <= i < n => Call(cb, n - 1 - i))
  }

  /** The walk is determined by the handlers' answers: two walks that both
      satisfy WalkedDown are the same sequence of calls. */
  lemma {:induction false} WalkIsDetermined(c1: seq<Call>, c2: seq<Call>, cb: Callback, hs: seq<PrioritizedHandler>,
                                            e: Event, lastButton: int, answer: Oracle)
    requires WalkedDown(c1, cb, hs, e, lastButton, answer)
    requires WalkedDown(c2, cb, hs, e, lastButton, answer)
    ensures c1 == c2
  {
  }

  // ---------------------------------------------------------------------------
  // The handler list

  ghost predicate Sorted(hs: seq<PrioritizedHandler>)
  {
    forall i, j :: 0 <= i < j < |hs| ==> hs[i].priority <= hs[j].priority
  }

  /** handlers.contains(new PrioritizedHandler(h, _)): identity of the handler object. */
  predicate HasHandler(hs: seq<PrioritizedHandler>, h: InputHandler)
  {
    exists x :: x in hs && x.handler == h
  }

  ghost predicate NoDuplicates(hs: seq<PrioritizedHandler>)
  {
    forall i, j :: 0 <= i < j < |hs| ==> hs[i].handler != hs[j].handler
  }

  /** Inserts x after every entry whose priority is not greater than x's. */
  function Insert(x: PrioritizedHandler, hs: seq<PrioritizedHandler>): seq<PrioritizedHandler>
  {
    if hs == [] then [x]
    else if x.priority < hs[0].priority then [x] + hs
    else [hs[0]] + Insert(x, hs[1..])
  }

  /** Collections.sort on the list: a stable sort by priority value. */
  function SortByPriority(hs: seq<PrioritizedHandler>): seq<PrioritizedHandler>
  {
    if hs == [] then [] else Insert(hs[|hs| - 1], SortByPriority(hs[..|hs| - 1]))
  }

  /** The entries at one priority, in list order. */
  function AtPriority(hs: seq<PrioritizedHandler>, p: int): seq<PrioritizedHandler>
  {
    if hs == [] then []
    else (if hs[0].priority == p then [hs[0]] else []) + AtPriority(hs[1..], p)
  }

  function HandlersOf(hs: seq<PrioritizedHandler>): seq<InputHandler>
  {
    seq(|hs|, i requires 0 <= i < |hs| => hs[i].handler)
  }

  /** List.remove(o): drops the first entry for the handler object. */
  function RemoveFirst(hs: seq<PrioritizedHandler>, h: InputHandler): seq<PrioritizedHandler>
  {
    if hs == [] then []
    else if hs[0].handler == h then hs[1..]
    else [hs[0]] + RemoveFirst(hs[1..], h)
  }

  /** List.removeAll(ps): drops every entry whose handler object has an entry in ps. */
  function RemoveAll(hs: seq<PrioritizedHandler>, ps: seq<PrioritizedHandler>): seq<PrioritizedHandler>
  {
    if hs == [] then []
    else (if HasHandler(ps, hs[0].handler) then [] else [hs[0]]) + RemoveAll(hs[1..], ps)
  }

  /** The handlers wrapped at the perspective priority, in order. */
  function Tagged(hs: seq<InputHandler>): seq<PrioritizedHandler>
  {
    seq(|hs|, i requires 0 <= i < |hs| => PrioritizedHandler(hs[i], PerspectivePriority))
  }

  /** The list after registerMouseHandler(h, p). */
  function Registered(hs: seq<PrioritizedHandler>, h: InputHandler, p: int): seq<PrioritizedHandler>
  {
    SortByPriority(if HasHandler(hs, h) then hs else hs + [PrioritizedHandler(h, p)])
  }

  /** The list after unregisterMouseHandler(h). */
  function Unregistered(hs: seq<PrioritizedHandler>, h: InputHandler): seq<PrioritizedHandler>
  {
    RemoveFirst(hs, h)
  }

  /** The list after firePerspectiveChanged(news), given the old perspective handlers ps. */
  function PerspectiveSwapped(hs: seq<PrioritizedHandler>, ps: seq<PrioritizedHandler>, news: seq<InputHandler>)
    : seq<PrioritizedHandler>
  {
    SortByPriority(RemoveAll(hs, ps) + Tagged(news))
  }

  // ---------------------------------------------------------------------------
  // Properties of the stable sort

  lemma {:induction false} InsertPermutes(x: PrioritizedHandler, hs: seq<PrioritizedHandler>)
    ensures multiset(Insert(x, hs)) == multiset(hs) + multiset{x}
    ensures |Insert(x, hs)| == |hs| + 1
  {
    if hs != [] && x.priority >= hs[0].priority {
      InsertPermutes(x, hs[1..]);
      assert hs == [hs[0]] + hs[1..];
    }
  }

  lemma {:induction false} InsertSorted(x: PrioritizedHandler, hs: seq<PrioritizedHandler>)
    requires Sorted(hs)
    ensures Sorted(Insert(x, hs))
  {
    if hs != [] && x.priority >= hs[0].priority {
      var rest := Insert(x, hs[1..]);
      InsertSorted(x, hs[1..]);
      InsertPermutes(x, hs[1..]);
      forall k | 0 <= k < |rest|
        ensures hs[0].priority <= rest[k].priority
      {
        assert rest[k] in multiset(rest);
        if rest[k] != x {
          assert rest[k] in multiset(hs[1..]);
          var m :| 0 <= m < |hs[1..]| && hs[1..][m] == rest[k];
          assert hs[m + 1] == rest[k];
        }
      }
    }
  }

  lemma {:induction false} SortPermutes(hs: seq<PrioritizedHandler>)
    ensures multiset(SortByPriority(hs)) == multiset(hs)
    ensures |SortByPriority(hs)| == |hs|
  {
    if hs != [] {
      var init := hs[..|hs| - 1];
      SortPermutes(init);
      InsertPermutes(hs[|hs| - 1], SortByPriority(init));
      assert hs == init + [hs[|hs| - 1]];
    }
  }

  /** After Collections.sort the list is ordered by ascending priority value. */
  lemma {:induction false} SortSorted(hs: seq<PrioritizedHandler>)
    ensures Sorted(SortByPriority(hs))
  {
    if hs != [] {
      SortSorted(hs[..|hs| - 1]);
      InsertSorted(hs[|hs| - 1], SortByPriority(hs[..|hs| - 1]));
    }
  }

  lemma {:induction false} AtPriorityAppend(a: seq<PrioritizedHandler>, b: seq<PrioritizedHandler>, p: int)
    ensures AtPriority(a + b, p) == AtPriority(a, p) + AtPriority(b, p)
  {
    if a == [] {
      assert a + b == b;
    } else {
      AtPriorityAppend(a[1..], b, p);
      assert (a + b)[0] == a[0] && (a + b)[1..] == a[1..] + b;
      var head := if a[0].priority == p then [a[0]] else [];
      assert AtPriority(a + b, p) == head + AtPriority(a[1..] + b, p);
      assert AtPriority(a, p) == head + AtPriority(a[1..], p);
      Regroup(head, AtPriority(a[1..], p), AtPriority(b, p));
    }
  }

  lemma {:induction false} NoneBelowFirst(hs: seq<PrioritizedHandler>, p: int)
    requires Sorted(hs) && hs != [] && p < hs[0].priority
    ensures AtPriority(hs, p) == []
  {
    if |hs| > 1 {
      NoneBelowFirst(hs[1..], p);
    }
  }

  lemma {:induction false} InsertAtPriority(x: PrioritizedHandler, hs: seq<PrioritizedHandler>, p: int)
    requires Sorted(hs)
    ensures AtPriority(Insert(x, hs), p) == AtPriority(hs, p) + (if x.priority == p then [x] else [])
  {
    if hs == [] {
    } else if x.priority < hs[0].priority {
      AtPriorityAppend([x], hs, p);
      if x.priority == p {
        NoneBelowFirst(hs, p);
      }
    } else {
      InsertAtPriority(x, hs[1..], p);
      AtPriorityAppend([hs[0]], Insert(x, hs[1..]), p);
      AtPriorityAppend([hs[0]], hs[1..], p);
      assert [hs[0]] + hs[1..] == hs;
    }
  }

  /** The sort is stable: within one priority the entries keep their relative order. */
  lemma {:induction false} SortStable(hs: seq<PrioritizedHandler>, p: int)
    ensures AtPriority(SortByPriority(hs), p) == AtPriority(hs, p)
  {
    if hs != [] {
      var init, last := hs[..|hs| - 1], hs[|hs| - 1];
      SortStable(init, p);
      SortSorted(init);
      InsertAtPriority(last, SortByPriority(init), p);
      AtPriorityAppend(init, [last], p);
      assert init + [last] == hs;
    }
  }

  lemma {:induction false} InsertAtEnd(x: PrioritizedHandler, hs: seq<PrioritizedHandler>)
    requires forall k :: 0 <= k < |hs| ==> hs[k].priority <= x.priority
    ensures Insert(x, hs) == hs + [x]
  {
    if hs != [] {
      InsertAtEnd(x, hs[1..]);
      assert [hs[0]] + (hs[1..] + [x]) == hs + [x];
    }
  }

  /** Sorting a list that is already sorted leaves it as it is. */
  lemma {:induction false} SortKeepsSorted(hs: seq<PrioritizedHandler>)
    requires Sorted(hs)
    ensures SortByPriority(hs) == hs
  {
    if hs != [] {
      var init, last := hs[..|hs| - 1], hs[|hs| - 1];
      SortKeepsSorted(init);
      InsertAtEnd(last, init);
      assert init + [last] == hs;
    }
  }

  lemma {:induction false} InsertHasHandler(x: PrioritizedHandler, hs: seq<PrioritizedHandler>, h: InputHandler)
    ensures HasHandler(Insert(x, hs), h) <==> x.handler == h || HasHandler(hs, h)
  {
    InsertPermutes(x, hs);
    var r := Insert(x, hs);
    forall y ensures y in r <==> y == x || y in hs {
      assert y in r <==> y in multiset(r);
      assert y in hs <==> y in multiset(hs);
    }
    assert x in r;
  }

  /** Dropping the head of a list that has no duplicates. */
  lemma TailNoDuplicates(hs: seq<PrioritizedHandler>)
    requires hs != [] && NoDuplicates(hs)
    ensures NoDuplicates(hs[1..]) && !HasHandler(hs[1..], hs[0].handler)
    ensures forall y :: y in hs[1..] ==> y in hs
  {
    var tail := hs[1..];
    forall i, j | 0 <= i < j < |tail| ensures tail[i].handler != tail[j].handler {
      assert tail[i] == hs[i + 1] && tail[j] == hs[j + 1];
    }
    forall y | y in tail ensures y.handler != hs[0].handler {
      var k :| 0 <= k < |tail| && tail[k] == y;
      assert hs[k + 1] == y;
    }
  }

  lemma {:induction false} InsertNoDuplicates(x: PrioritizedHandler, hs: seq<PrioritizedHandler>)
    requires NoDuplicates(hs) && !HasHandler(hs, x.handler)
    ensures NoDuplicates(Insert(x, hs))
  {
    if hs != [] && x.priority >= hs[0].priority {
      var tail := hs[1..];
      TailNoDuplicates(hs);
      InsertNoDuplicates(x, tail);
      assert x.handler != hs[0].handler by { assert hs[0] in hs; }
      InsertHasHandler(x, tail, hs[0].handler);
      var rest := Insert(x, tail);
      forall k | 0 <= k < |rest| ensures rest[k].handler != hs[0].handler {
        assert rest[k] in rest;
      }
    } else if hs != [] {
      forall k | 0 <= k < |hs| ensures hs[k].handler != x.handler {
        assert hs[k] in hs;
      }
    }
  }

  lemma {:induction false} SortHasHandler(hs: seq<PrioritizedHandler>, h: InputHandler)
    ensures HasHandler(SortByPriority(hs), h) <==> HasHandler(hs, h)
  {
    SortPermutes(hs);
    var r := SortByPriority(hs);
    forall y ensures y in r <==> y in hs {
      assert y in r <==> y in multiset(r);
      assert y in hs <==> y in multiset(hs);
    }
  }

  lemma {:induction false} SortNoDuplicates(hs: seq<PrioritizedHandler>)
    requires NoDuplicates(hs)
    ensures NoDuplicates(SortByPriority(hs))
  {
    if hs != [] {
      var init, last := hs[..|hs| - 1], hs[|hs| - 1];
      forall i, j | 0 <= i < j < |init| ensures init[i].handler != init[j].handler {
        assert init[i] == hs[i] && init[j] == hs[j];
      }
      SortNoDuplicates(init);
      SortHasHandler(init, last.handler);
      forall y | y in init ensures y.handler != last.handler {
        var k :| 0 <= k < |init| && init[k] == y;
        assert hs[k] == y;
      }
      InsertNoDuplicates(last, SortByPriority(init));
    }
  }

  // ---------------------------------------------------------------------------
  // Properties of registration

  /** registerMouseHandler adds nothing when the handler object is already
      registered, at any priority, and otherwise exactly one entry; the list
      is sorted afterwards and the handler is present. */
  lemma RegisterAddsAtMostOnce(hs: seq<PrioritizedHandler>, h: InputHandler, p: int)
    ensures HasHandler(hs, h) ==> multiset(Registered(hs, h, p)) == multiset(hs)
    ensures !HasHandler(hs, h) ==>
              multiset(Registered(hs, h, p)) == multiset(hs) + multiset{PrioritizedHandler(h, p)}
    ensures HasHandler(hs, h) && Sorted(hs) ==> Registered(hs, h, p) == hs
    ensures Sorted(Registered(hs, h, p))
    ensures HasHandler(Registered(hs, h, p), h)
  {
    var added := if HasHandler(hs, h) then hs else hs + [PrioritizedHandler(h, p)];
    SortPermutes(added);
    SortSorted(added);
    SortHasHandler(added, h);
    if HasHandler(hs, h) {
      if Sorted(hs) {
        SortKeepsSorted(hs);
      }
    } else {
      assert added[|hs|] in added;
    }
  }

  /** A newly registered handler goes to the end of its priority tier; every
      other tier is unchanged. */
  lemma RegisterAppendsToTier(hs: seq<PrioritizedHandler>, h: InputHandler, p: int, q: int)
    requires !HasHandler(hs, h)
    ensures AtPriority(Registered(hs, h, p), q) ==
              AtPriority(hs, q) + (if q == p then [PrioritizedHandler(h, p)] else [])
  {
    SortStable(hs + [PrioritizedHandler(h, p)], q);
    AtPriorityAppend(hs, [PrioritizedHandler(h, p)], q);
  }

  lemma RegisterKeepsNoDuplicates(hs: seq<PrioritizedHandler>, h: InputHandler, p: int)
    requires NoDuplicates(hs)
    ensures NoDuplicates(Registered(hs, h, p))
  {
    if HasHandler(hs, h) {
      SortNoDuplicates(hs);
    } else {
      var added := hs + [PrioritizedHandler(h, p)];
      forall i, j | 0 <= i < j < |added| ensures added[i].handler != added[j].handler {
        if j == |hs| {
          assert hs[i] in hs;
        }
      }
      SortNoDuplicates(added);
    }
  }

  lemma {:induction false} RemoveFirstSubset(hs: seq<PrioritizedHandler>, h: InputHandler)
    ensures forall x :: x in RemoveFirst(hs, h) ==> x in hs
    ensures |RemoveFirst(hs, h)| <= |hs|
  {
    if hs != [] && hs[0].handler != h {
      RemoveFirstSubset(hs[1..], h);
    }
  }

  /** unregisterMouseHandler removes the first entry for the handler object,
      whatever its priority, and keeps the order of the rest. */
  lemma {:induction false} UnregisterRemovesFirstEntry(hs: seq<PrioritizedHandler>, h: InputHandler, k: nat)
    requires k < |hs| && hs[k].handler == h
    requires forall i :: 0 <= i < k ==> hs[i].handler != h
    ensures Unregistered(hs, h) == hs[..k] + hs[k + 1..]
  {
    if k > 0 {
      UnregisterRemovesFirstEntry(hs[1..], h, k - 1);
      assert [hs[0]] + (hs[1..][..k - 1] + hs[1..][k..]) == hs[..k] + hs[k + 1..];
    }
  }

  lemma {:induction false} UnregisterAbsent(hs: seq<PrioritizedHandler>, h: InputHandler)
    requires !HasHandler(hs, h)
    ensures Unregistered(hs, h) == hs
  {
    if hs != [] {
      assert hs[0] in hs;
      assert forall y :: y in hs[1..] ==> y in hs;
      UnregisterAbsent(hs[1..], h);
    }
  }

  /** Unregistering keeps the list sorted and free of duplicates, and with no
      duplicates the handler object is gone afterwards. */
  lemma {:induction false} UnregisterKeepsInvariants(hs: seq<PrioritizedHandler>, h: InputHandler)
    requires Sorted(hs)
    requires NoDuplicates(hs)
    ensures Sorted(Unregistered(hs, h)) && NoDuplicates(Unregistered(hs, h))
    ensures !HasHandler(Unregistered(hs, h), h)
  {
    if HasHandler(hs, h) {
      var y :| y in hs && y.handler == h;
      var k :| 0 <= k < |hs| && hs[k] == y;
      assert forall i :: 0 <= i < k ==> hs[i].handler != h;
      UnregisterRemovesFirstEntry(hs, h, k);
      SpliceKeepsInvariants(hs, k);
    } else {
      UnregisterAbsent(hs, h);
    }
  }

  /** Taking one entry out of a sorted, duplicate-free list keeps it so, and
      leaves no entry for that entry's handler. */
  lemma SpliceKeepsInvariants(hs: seq<PrioritizedHandler>, k: nat)
    requires k < |hs| && Sorted(hs) && NoDuplicates(hs)
    ensures Sorted(hs[..k] + hs[k + 1..]) && NoDuplicates(hs[..k] + hs[k + 1..])
    ensures !HasHandler(hs[..k] + hs[k + 1..], hs[k].handler)
  {
    var r := hs[..k] + hs[k + 1..];
    assert |r| == |hs| - 1;
    forall i | 0 <= i < |r| ensures r[i] == hs[Skip(i, k)] { }
    forall i, j | 0 <= i < j < |r| ensures r[i].priority <= r[j].priority && r[i].handler != r[j].handler {
      assert r[i] == hs[Skip(i, k)] && r[j] == hs[Skip(j, k)];
    }
    forall z | z in r ensures z.handler != hs[k].handler {
      var i :| 0 <= i < |r| && r[i] == z;
      assert r[i] == hs[Skip(i, k)];
    }
  }

  /** The index in a list of the i-th entry left after removing index k. */
  function Skip(i: nat, k: nat): nat
  {
    if i < k then i else i + 1
  }

  /** A history made only of register and unregister calls. */
  datatype Registration = Register(handler: InputHandler, priority: int) | Unregister(handler: InputHandler)

  function Replay(hs: seq<PrioritizedHandler>, ops: seq<Registration>): seq<PrioritizedHandler>
    decreases |ops|
  {
    if ops == [] then hs
    else
      var next := match ops[0]
        case Register(h, p) => Registered(hs, h, p)
        case Unregister(h) => Unregistered(hs, h);
      Replay(next, ops[1..])
  }

  /** Register and unregister calls alone never produce two entries for one
      handler object, and keep the list sorted. */
  lemma {:induction false} ReplayKeepsNoDuplicates(hs: seq<PrioritizedHandler>, ops: seq<Registration>)
    requires Sorted(hs) && NoDuplicates(hs)
    ensures Sorted(Replay(hs, ops)) && NoDuplicates(Replay(hs, ops))
    decreases |ops|
  {
    if ops != [] {
      match ops[0]
      case Register(h, p) =>
        RegisterKeepsNoDuplicates(hs, h, p);
        RegisterAddsAtMostOnce(hs, h, p);
        ReplayKeepsNoDuplicates(Registered(hs, h, p), ops[1..]);
      case Unregister(h) =>
        UnregisterKeepsInvariants(hs, h);
        ReplayKeepsNoDuplicates(Unregistered(hs, h), ops[1..]);
    }
  }

  // ---------------------------------------------------------------------------
  // Properties of the perspective swap

  lemma {:induction false} RemoveAllMembers(hs: seq<PrioritizedHandler>, ps: seq<PrioritizedHandler>, x: PrioritizedHandler)
    ensures x in RemoveAll(hs, ps) <==> x in hs && !HasHandler(ps, x.handler)
  {
    if hs != [] {
      RemoveAllMembers(hs[1..], ps, x);
      assert hs == [hs[0]] + hs[1..];
    }
  }

  lemma {:induction false} TaggedAtPerspectivePriority(news: seq<InputHandler>)
    ensures AtPriority(Tagged(news), PerspectivePriority) == Tagged(news)
  {
    if news != [] {
      TaggedAtPerspectivePriority(news[1..]);
      assert Tagged(news)[1..] == Tagged(news[1..]);
    }
  }

  /** After firePerspectiveChanged(news) the list is sorted; it holds the
      surviving old entries and one perspective-priority entry per new handler;
      the perspective tier ends with the new handlers in the given order; and
      no entry whose handler object was an old perspective handler survives
      unless that object is among the new ones. */
  lemma PerspectiveSwapProperties(hs: seq<PrioritizedHandler>, ps: seq<PrioritizedHandler>, news: seq<InputHandler>)
    ensures Sorted(PerspectiveSwapped(hs, ps, news))
    ensures multiset(PerspectiveSwapped(hs, ps, news)) == multiset(RemoveAll(hs, ps)) + multiset(Tagged(news))
    ensures AtPriority(PerspectiveSwapped(hs, ps, news), PerspectivePriority) ==
              AtPriority(RemoveAll(hs, ps), PerspectivePriority) + Tagged(news)
    ensures forall x :: x in PerspectiveSwapped(hs, ps, news) && HasHandler(ps, x.handler) ==> x.handler in news
  {
    var joined := RemoveAll(hs, ps) + Tagged(news);
    SortSorted(joined);
    SortPermutes(joined);
    SortStable(joined, PerspectivePriority);
    AtPriorityAppend(RemoveAll(hs, ps), Tagged(news), PerspectivePriority);
    TaggedAtPerspectivePriority(news);
    PerspectiveSwapReplaces(hs, ps, news);
  }

  /** After the swap, an entry whose object was a perspective handler is
      one of the new perspective handlers. */
  lemma PerspectiveSwapReplaces(hs: seq<PrioritizedHandler>, ps: seq<PrioritizedHandler>, news: seq<InputHandler>)
    ensures forall x :: x in PerspectiveSwapped(hs, ps, news) && HasHandler(ps, x.handler) ==> x.handler in news
  {
    var joined := RemoveAll(hs, ps) + Tagged(news);
    SortPermutes(joined);
    forall x | x in PerspectiveSwapped(hs, ps, news) && HasHandler(ps, x.handler) ensures x.handler in news {
      assert x in multiset(joined);
      RemoveAllMembers(hs, ps, x);
      if x !in RemoveAll(hs, ps) {
        assert x in Tagged(news);
        var i :| 0 <= i < |Tagged(news)| && Tagged(news)[i] == x;
        assert news[i] == x.handler;
      }
    }
  }

  /** removeAll matches by handler object: an ordinary registration of an
      object that was also a perspective handler is dropped with it. */
  lemma PerspectiveSwapDropsOrdinaryRegistration(h: InputHandler, p: int)
    ensures PerspectiveSwapped([PrioritizedHandler(h, p)], [PrioritizedHandler(h, PerspectivePriority)], []) == []
  {
    var ps := [PrioritizedHandler(h, PerspectivePriority)];
    assert ps[0] in ps;
    assert RemoveAll([PrioritizedHandler(h, p)], ps) == [] + RemoveAll([], ps);
  }

  /** firePerspectiveChanged does not check for handlers that are already
      registered: the same object can then have two entries. */
  lemma PerspectiveSwapCanDuplicate(h: InputHandler, p: int)
    ensures !NoDuplicates(PerspectiveSwapped([PrioritizedHandler(h, p)], [], [h]))
  {
    var joined := [PrioritizedHandler(h, p)] + Tagged([h]);
    assert Tagged([h]) == [PrioritizedHandler(h, PerspectivePriority)];
    assert RemoveAll([PrioritizedHandler(h, p)], []) == [PrioritizedHandler(h, p)];
    SortPermutes(joined);
    var r := SortByPriority(joined);
    assert |r| == 2;
    assert r[0] in multiset(joined) && r[1] in multiset(joined);
  }

  // ---------------------------------------------------------------------------
  // The manager

  class InputManager {
    var isMouseDown: bool
    var menuDetected: bool
    var lastMouseButton: int
    var handlers: seq<PrioritizedHandler>
    var perspectiveHandlers: seq<PrioritizedHandler>

    /** The handler list is always sorted by priority value. */
    ghost predicate Valid()
      reads this
    {
      Sorted(handlers)
    }

    constructor ()
      ensures Valid()
      ensures !isMouseDown && !menuDetected && lastMouseButton == 0
      ensures handlers == [] && perspectiveHandlers == []
    {
      isMouseDown, menuDetected, lastMouseButton := false, false, 0;
      handlers, perspectiveHandlers := [], [];
    }

    /** The handler objects registered at priority p, in list order. */
    method GetHandlersForPriority(p: int) returns (r: seq<InputHandler>)
      ensures r == HandlersOf(AtPriority(handlers, p))
    {
      r := [];
      var i := 0;
      while i < |handlers|
        invariant 0 <= i <= |handlers|
        invariant r == HandlersOf(AtPriority(handlers[..i], p))
      {
        AtPriorityAppend(handlers[..i], [handlers[i]], p);
        assert handlers[..i + 1] == handlers[..i] + [handlers[i]];
        if handlers[i].priority == p {
          r := r + [handlers[i].handler];
        }
        i := i + 1;
      }
      assert handlers[..i] == handlers;
    }

    /** Calls the handlers from the last index down with callback cb and
        stops right after the first one that reports the event as handled. */
    method DispatchUntilHandled(cb: Callback, e: Event, answer: Oracle) returns (calls: seq<Call>)
      ensures WalkedDown(calls, cb, handlers, e, lastMouseButton, answer)
    {
      calls := [];
      var i := |handlers| - 1;
      while i >= 0
        invariant -1 <= i < |handlers|
        invariant |calls| == |handlers| - 1 - i
        invariant forall j :: 0 <= j < |calls| ==> calls[j] == Call(cb, |handlers| - 1 - j)
        invariant forall k :: i < k < |handlers| ==> !Handled(handlers, k, cb, e, lastMouseButton, answer)
      {
        calls := calls + [Call(cb, i)];
        if Handled(handlers, i, cb, e, lastMouseButton, answer) {
          return;
        }
        i := i - 1;
      }
    }

    /** Notifies every handler, lowest index first, ignoring the answers. */
    method NotifyAscending(cb: Callback) returns (calls: seq<Call>)
      ensures calls == Ascending(cb, |handlers|)
    {
      calls := [];
      var i := 0;
      while i < |handlers|
        invariant 0 <= i <= |handlers|
        invariant calls == Ascending(cb, i)
      {
        calls := calls + [Call(cb, i)];
        i := i + 1;
      }
    }

    /** Notifies every handler, highest index first, ignoring the answers. */
    method NotifyDescending(cb: Callback) returns (calls: seq<Call>)
      ensures calls == Descending(cb, |handlers|)
    {
      calls := [];
      var i := |handlers| - 1;
      while i >= 0
        invariant -1 <= i < |handlers|
        invariant |calls| == |handlers| - 1 - i
        invariant forall j :: 0 <= j < |calls| ==> calls[j] == Call(cb, |handlers| - 1 - j)
      {
        calls := calls + [Call(cb, i)];
        i := i - 1;
      }
    }

    /** A move with a button down is a drag that stops at the first handler
        that takes it; a hover move is told to every handler in ascending order. */
    method HandleMouseMove(e: Event, answer: Oracle) returns (calls: seq<Call>)
      ensures isMouseDown ==> WalkedDown(calls, OnMouseDownMove, handlers, e, lastMouseButton, answer)
      ensures !isMouseDown ==> calls == Ascending(OnMouseMove, |handlers|)
    {
      if isMouseDown {
        calls := DispatchUntilHandled(OnMouseDownMove, e, answer);
      } else {
        calls := NotifyAscending(OnMouseMove);
      }
    }

    method HandleMouseDown(e: Event, answer: Oracle) returns (calls: seq<Call>)
      modifies this`isMouseDown, this`menuDetected, this`lastMouseButton
      ensures old(menuDetected) && e.button != MenuButton ==>
                calls == [] && !menuDetected && isMouseDown == old(isMouseDown)
                && lastMouseButton == old(lastMouseButton)
      ensures !(old(menuDetected) && e.button != MenuButton) && e.kind == MouseDoubleClick ==>
                calls == [] && menuDetected == old(menuDetected) && isMouseDown == old(isMouseDown)
                && lastMouseButton == old(lastMouseButton)
      ensures !(old(menuDetected) && e.button != MenuButton) && e.kind != MouseDoubleClick ==>
                && lastMouseButton == e.button
                && !menuDetected
                && isMouseDown == (old(isMouseDown) || !old(menuDetected))
                && WalkedDown(calls, OnMouseDown, handlers, e, lastMouseButton, answer)
    {
      if menuDetected && e.button != MenuButton {
        menuDetected := false;
        return [];
      }
      if e.kind == MouseDoubleClick {
        return [];
      }
      lastMouseButton := e.button;
      if !menuDetected {
        isMouseDown := true;
      } else {
        menuDetected := false;
      }
      calls := DispatchUntilHandled(OnMouseDown, e, answer);
    }

    /** Mouse up clears the button state, walks the handlers, then tells every
        handler of a (hover) move so that all of them learn the position. */
    method HandleMouseUp(e: Event, answer: Oracle) returns (calls: seq<Call>)
      modifies this`isMouseDown
      ensures !isMouseDown
      ensures |calls| >= |handlers|
      ensures WalkedDown(calls[..|calls| - |handlers|], OnMouseUp, handlers, e, lastMouseButton, answer)
      ensures calls[|calls| - |handlers|..] == Ascending(OnMouseMove, |handlers|)
    {
      isMouseDown := false;
      var up := DispatchUntilHandled(OnMouseUp, e, answer);
      var moved := HandleMouseMove(e, answer);
      calls := up + moved;
      assert calls[..|calls| - |handlers|] == up;
      assert calls[|calls| - |handlers|..] == moved;
    }

    method HandleMouseDoubleClick(e: Event, answer: Oracle) returns (calls: seq<Call>)
      modifies this`isMouseDown
      ensures !isMouseDown
      ensures WalkedDown(calls, OnDoubleClick, handlers, e, lastMouseButton, answer)
    {
      isMouseDown := false;
      calls := DispatchUntilHandled(OnDoubleClick, e, answer);
    }

    /** The Listener entry point. activeDisplay is the display of the
        container's active pane, None when there is no container or no active pane. */
    method HandleEvent(e: Event, activeDisplay: Option<nat>, answer: Oracle) returns (calls: seq<Call>)
      modifies this`isMouseDown, this`menuDetected, this`lastMouseButton
      ensures activeDisplay != Some(e.display) ==>
                calls == [] && unchanged(this)
      ensures activeDisplay == Some(e.display) && e.kind == MouseWheel ==>
                unchanged(this) && WalkedDown(calls, OnMouseWheel, handlers, e, lastMouseButton, answer)
      ensures activeDisplay == Some(e.display) && e.kind == MouseHover ==>
                unchanged(this) && WalkedDown(calls, OnMouseHover, handlers, e, lastMouseButton, answer)
      ensures activeDisplay == Some(e.display) && e.kind == KeyDown ==>
                unchanged(this) && WalkedDown(calls, OnKeyDown, handlers, e, lastMouseButton, answer)
      ensures activeDisplay == Some(e.display) && e.kind == KeyUp ==>
                unchanged(this) && WalkedDown(calls, OnKeyUp, handlers, e, lastMouseButton, answer)
      ensures activeDisplay == Some(e.display) && e.kind == MouseEnter ==>
                unchanged(this) && calls == Descending(OnMouseEnter, |handlers|)
      ensures activeDisplay == Some(e.display) && e.kind == MouseExit ==>
                unchanged(this) && calls == Descending(OnMouseExit, |handlers|)
      ensures activeDisplay == Some(e.display) && e.kind == MouseMove ==>
                && unchanged(this)
                && (isMouseDown ==> WalkedDown(calls, OnMouseDownMove, handlers, e, lastMouseButton, answer))
                && (!isMouseDown ==> calls == Ascending(OnMouseMove, |handlers|))
      ensures activeDisplay == Some(e.display) && e.kind == MenuDetect ==>
                calls == [] && !isMouseDown && menuDetected && lastMouseButton == old(lastMouseButton)
      ensures activeDisplay == Some(e.display) && e.kind == OtherEvent ==>
                calls == [] && unchanged(this)
      ensures activeDisplay == Some(e.display) && e.kind == MouseDown ==>
                if old(menuDetected) && e.button != MenuButton then
                  calls == [] && !menuDetected && isMouseDown == old(isMouseDown)
                  && lastMouseButton == old(lastMouseButton)
                else
                  && lastMouseButton == e.button
                  && !menuDetected
                  && isMouseDown == (old(isMouseDown) || !old(menuDetected))
                  && WalkedDown(calls, OnMouseDown, handlers, e, lastMouseButton, answer)
      ensures activeDisplay == Some(e.display) && e.kind == MouseUp ==>
                && !isMouseDown && menuDetected == old(menuDetected) && lastMouseButton == old(lastMouseButton)
                && |calls| >= |handlers|
                && WalkedDown(calls[..|calls| - |handlers|], OnMouseUp, handlers, e, lastMouseButton, answer)
                && calls[|calls| - |handlers|..] == Ascending(OnMouseMove, |handlers|)
      ensures activeDisplay == Some(e.display) && e.kind == MouseDoubleClick ==>
                && !isMouseDown && menuDetected == old(menuDetected) && lastMouseButton == old(lastMouseButton)
                && WalkedDown(calls, OnDoubleClick, handlers, e, lastMouseButton, answer)
    {
      if activeDisplay != Some(e.display) {
        return [];
      }
      match e.kind
      case MouseDown => calls := HandleMouseDown(e, answer);
      case MouseUp => calls := HandleMouseUp(e, answer);
      case MouseWheel => calls := DispatchUntilHandled(OnMouseWheel, e, answer);
      case MouseMove => calls := HandleMouseMove(e, answer);
      case MouseHover => calls := DispatchUntilHandled(OnMouseHover, e, answer);
      case MouseDoubleClick => calls := HandleMouseDoubleClick(e, answer);
      case KeyDown => calls := DispatchUntilHandled(OnKeyDown, e, answer);
      case KeyUp => calls := DispatchUntilHandled(OnKeyUp, e, answer);
      case MenuDetect =>
        isMouseDown := false;
        menuDetected := true;
        calls := [];
      case MouseExit => calls := NotifyDescending(OnMouseExit);
      case MouseEnter => calls := NotifyDescending(OnMouseEnter);
      case OtherEvent => calls := [];
    }

    method RegisterMouseHandler(h: InputHandler, priority: int)
      modifies this`handlers
      ensures handlers == Registered(old(handlers), h, priority)
      ensures Valid()
    {
      if !HasHandler(handlers, h) {
        handlers := handlers + [PrioritizedHandler(h, priority)];
      }
      SortSorted(handlers);
      handlers := SortByPriority(handlers);
    }

    method UnregisterMouseHandler(h: InputHandler)
      requires Valid()
      modifies this`handlers
      ensures handlers == Unregistered(old(handlers), h)
      ensures Valid()
    {
      RemoveFirstSorted(handlers, h);
      handlers := RemoveFirst(handlers, h);
    }

    method FirePerspectiveChanged(news: seq<InputHandler>)
      modifies this`handlers, this`perspectiveHandlers
      ensures perspectiveHandlers == Tagged(news)
      ensures handlers == PerspectiveSwapped(old(handlers), old(perspectiveHandlers), news)
      ensures Valid()
    {
      handlers := RemoveAll(handlers, perspectiveHandlers);
      perspectiveHandlers := [];
      ghost var kept := handlers;
      var i := 0;
      while i < |news|
        invariant 0 <= i <= |news|
        invariant perspectiveHandlers == Tagged(news[..i])
        invariant handlers == kept + Tagged(news[..i])
      {
        var entry := PrioritizedHandler(news[i], PerspectivePriority);
        assert Tagged(news[..i + 1]) == Tagged(news[..i]) + [entry];
        perspectiveHandlers := perspectiveHandlers + [entry];
        handlers := handlers + [entry];
        i := i + 1;
      }
      assert news[..i] == news;
      SortSorted(handlers);
      handlers := SortByPriority(handlers);
    }
  }

  lemma {:induction false} RemoveFirstSorted(hs: seq<PrioritizedHandler>, h: InputHandler)
    requires Sorted(hs)
    ensures Sorted(RemoveFirst(hs, h))
  {
    if hs != [] && hs[0].handler != h {
      RemoveFirstSorted(hs[1..], h);
      RemoveFirstSubset(hs[1..], h);
      var rest := RemoveFirst(hs[1..], h);
      forall k | 0 <= k < |rest| ensures hs[0].priority <= rest[k].priority {
        assert rest[k] in hs[1..];
      }
    }
  }
}
