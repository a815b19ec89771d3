/** termpixels/observable.py: an event emitter.  Each event name has a list
    of listeners, in the order they were added; emitting an event calls
    each of them with the data.  Listeners are modelled by their identity
    alone, and a call by the pair (listener, data). */
module Observables {

  import opened Wrappers

  type EventName = string

  /** The identity of a listener: what `list.remove` compares. */
  type ListenerId = int

  /** `defaultdict(list)` from event names to listener lists. */
  type Registry = map<EventName, seq<ListenerId>>

  /** `list.remove` of a listener that is not in the list. */
  datatype ObservableError = ValueError

  /** `_listeners[event]` read: a missing event has no listeners. */
  function ListenersOf(m: Registry, e: EventName): seq<ListenerId>
  {
    if e in m then m[e] else []
  }

  /** The first position of `l` in `s`. */
  function FirstIndex(s: seq<ListenerId>, l: ListenerId): (i: nat)
    requires l in s
    ensures i < |s| && s[i] == l
    ensures forall j :: 0 <= j < i ==> s[j] != l
    decreases |s|
  {
    if s[0] == l then 0 else 1 + FirstIndex(s[1..], l)
  }

  /** `list.remove(l)`: the first occurrence goes, the others stay in order. */
  function RemoveFirst(s: seq<ListenerId>, l: ListenerId): (r: seq<ListenerId>)
    requires l in s
    ensures |r| == |s| - 1
    ensures multiset(r) == multiset(s) - multiset{l}
    ensures r == s[..FirstIndex(s, l)] + s[FirstIndex(s, l) + 1..]
  {
    var i := FirstIndex(s, l);
    assert s == s[..i] + [l] + s[i + 1..];
    s[..i] + s[i + 1..]
  }

  /** `listen(event, listener)`: appended to that event's list; every other
      event keeps its list. */
  function ListenTo(m: Registry, e: EventName, l: ListenerId): (r: Registry)
    ensures ListenersOf(r, e) == ListenersOf(m, e) + [l]
    ensures forall e' :: e' != e ==> ListenersOf(r, e') == ListenersOf(m, e')
    ensures r.Keys == m.Keys + {e}
  {
    m[e := ListenersOf(m, e) + [l]]
  }

  /** `unlisten(event, listener)`: the first occurrence is removed; a
      listener that is not there raises `ValueError`.  Either way the read
      of `_listeners[event]` has entered the event, and every other event
      keeps its list. */
  function UnlistenFrom(m: Registry, e: EventName, l: ListenerId): (r: (Registry, Outcome<ObservableError>))
    ensures r.1.Fail? <==> l !in ListenersOf(m, e)
    ensures r.1.Fail? ==> ListenersOf(r.0, e) == ListenersOf(m, e)
    ensures r.1.Pass? ==> ListenersOf(r.0, e) == RemoveFirst(ListenersOf(m, e), l)
    ensures forall e' :: e' != e ==> ListenersOf(r.0, e') == ListenersOf(m, e')
    ensures r.0.Keys == m.Keys + {e}
  {
    var ls := ListenersOf(m, e);
    if l in ls then (m[e := RemoveFirst(ls, l)], Pass) else (m[e := ls], Fail(ValueError))
  }

  /** `emit(event, data)`: the calls, one per listener of the event in
      order, each given the data; the event is entered with its list. */
  function Emitted<D>(m: Registry, e: EventName, data: D): (r: (Registry, seq<(ListenerId, D)>))
    ensures |r.1| == |ListenersOf(m, e)|
    ensures forall i :: 0 <= i < |r.1| ==> r.1[i] == (ListenersOf(m, e)[i], data)
    ensures forall e' :: ListenersOf(r.0, e') == ListenersOf(m, e')
    ensures r.0.Keys == m.Keys + {e}
  {
    var ls := ListenersOf(m, e);
    (m[e := ls], seq(|ls|, i requires 0 <= i < |ls| => (ls[i], data)))
  }

  /** The listeners an emit calls, in order. */
  function Called<D>(calls: seq<(ListenerId, D)>): seq<ListenerId>
  {
    seq(|calls|, i requires 0 <= i < |calls| => calls[i].0)
  }

  /** An event nobody listens to calls nothing. */
  lemma EmitWithoutListeners<D>(m: Registry, e: EventName, data: D)
    requires ListenersOf(m, e) == []
    ensures Emitted(m, e, data).1 == []
  {
  }

  /** An emit calls exactly the event's listeners, in the order they were
      added. */
  lemma EmitCallsListeners<D>(m: Registry, e: EventName, data: D)
    ensures Called(Emitted(m, e, data).1) == ListenersOf(m, e)
  {
  }

  /** Removing a listener that was just added restores every event's list. */
  lemma {:induction false} UnlistenUndoesListen(m: Registry, e: EventName, l: ListenerId)
    requires l !in ListenersOf(m, e)
    ensures var r := UnlistenFrom(ListenTo(m, e, l), e, l);
      r.1 == Pass && forall e' :: ListenersOf(r.0, e') == ListenersOf(m, e')
  {
    var ls := ListenersOf(m, e);
    var ls' := ls + [l];
    var m1 := ListenTo(m, e, l);
    assert ListenersOf(m1, e) == ls';
    var i := FirstIndex(ls', l);
    assert i == |ls|;
    assert RemoveFirst(ls', l) == ls by {
      assert ls'[..|ls|] == ls;
      assert ls'[|ls| + 1..] == [];
    }
  }

  /** The scenario of the unlisten test: after `listen` and `unlisten` of
      the same listener an emit calls nothing, and unlisten from an event
      nobody listens to raises `ValueError`. */
  lemma UnlistenExamples<D>(data: D)
    ensures var m1 := UnlistenFrom(ListenTo(map[], "test", 7), "test", 7).0;
      Emitted(m1, "test", data).1 == []
    ensures UnlistenFrom(map[], "test", 7).1 == Fail(ValueError)
  {
    UnlistenUndoesListen(map[], "test", 7);
  }

  /** With a listener added twice, one `unlisten` removes the earlier
      registration and leaves the later one. */
  lemma UnlistenFirstExample<D>(data: D)
    ensures var m2 := ListenTo(ListenTo(ListenTo(map[], "test", 7), "test", 8), "test", 7);
      Called(Emitted(UnlistenFrom(m2, "test", 7).0, "test", data).1) == [8, 7]
  {
    var m2 := ListenTo(ListenTo(ListenTo(map[], "test", 7), "test", 8), "test", 7);
    assert ListenersOf(m2, "test") == [7, 8, 7];
    assert FirstIndex([7, 8, 7], 7) == 0;
    var m3 := UnlistenFrom(m2, "test", 7).0;
    assert ListenersOf(m3, "test") == [8, 7];
    EmitCallsListeners(m3, "test", data);
  }

  /** Listeners of different events do not meet: each event calls its own. */
  lemma SeparateEvents<D>(data: D)
    ensures var m := ListenTo(ListenTo(map[], "A", 1), "B", 2);
      Called(Emitted(m, "A", data).1) == [1] && Called(Emitted(m, "B", data).1) == [2]
  {
    var m := ListenTo(ListenTo(map[], "A", 1), "B", 2);
    EmitCallsListeners(m, "A", data);
    EmitCallsListeners(m, "B", data);
  }

  class Observable {
    var listeners: Registry

    /** `Observable()`: no event has a listener. */
    constructor ()
      ensures listeners == map[]
    {
      listeners := map[];
    }

    method Listen(e: EventName, l: ListenerId)
      modifies this
      ensures listeners == ListenTo(old(listeners), e, l)
    {
      listeners := listeners[e := ListenersOf(listeners, e) + [l]];
    }

    method Unlisten(e: EventName, l: ListenerId) returns (r: Outcome<ObservableError>)
      modifies this
      ensures (listeners, r) == UnlistenFrom(old(listeners), e, l)
    {
      var ls := ListenersOf(listeners, e);
      if l !in ls {
        listeners := listeners[e := ls];
        return Fail(ValueError);
      }
      listeners := listeners[e := RemoveFirst(ls, l)];
      r := Pass;
    }

    /** `emit(event, data)`: one call per listener, in order. */
    method Emit<D>(e: EventName, data: D) returns (calls: seq<(ListenerId, D)>)
      modifies this
      ensures (listeners, calls) == Emitted(old(listeners), e, data)
    {
      var ls := ListenersOf(listeners, e);
      listeners := listeners[e := ls];
      calls := [];
      for i := 0 to |ls|
        invariant |calls| == i
        invariant forall k :: 0 <= k < i ==> calls[k] == (ls[k], data)
      {
        calls := calls + [(ls[i], data)];
      }
      assert calls == seq(|ls|, i requires 0 <= i < |ls| => (ls[i], data));
    }
  }
}
