/**
 * Input state polled by the game: which keys and mouse buttons were typed,
 * are held down or were released since the last frame, and the last mouse
 * position. The source keeps this state in static fields of one `Input`
 * class; here it is one object, with the same fields.
 */
module Inputs {
  import Wrappers
  import opened Events

  /** A key or mouse-button code as it is stored; None stands for `undefined`. */
  type Key = Wrappers.Option<int>

  /** The key stored for an event: its `code` when defined, else its `button`. */
  function KeyOf(e: Event): (k: Key)
    ensures e.code.Some? ==> k == e.code
    ensures e.code.None? ==> k == e.button
  {
    if e.code.Some? then e.code else e.button
  }

  /** Key typed or mouse button pressed. */
  predicate IsPressEdge(t: EventType) {
    t == KeyTyped || t == MouseBottonPress
  }

  /** Key or mouse button released. */
  predicate IsReleaseEdge(t: EventType) {
    t == KeyRelease || t == MouseBottonRelease
  }

  datatype InputState = InputState(
    typed: set<Key>, pressed: set<Key>, released: set<Key>,
    mousePosition: Wrappers.Option<MousePosition>)

  /** Nothing typed, pressed or released; the mouse at the origin. */
  const Initial := InputState({}, {}, {}, Wrappers.Some(MousePosition(0.0, 0.0)))

  /** The effect of one event on the state. */
  function Apply(s: InputState, e: Event): (r: InputState)
    ensures IsPressEdge(e.eventType) ==>
      r == s.(typed := s.typed + {KeyOf(e)}, pressed := s.pressed + {KeyOf(e)})
    ensures IsReleaseEdge(e.eventType) ==>
      r == s.(pressed := s.pressed - {KeyOf(e)}, released := s.released + {KeyOf(e)})
    ensures e.eventType == MouseMove ==> r == s.(mousePosition := e.position)
    ensures !IsPressEdge(e.eventType) && !IsReleaseEdge(e.eventType) && e.eventType != MouseMove ==> r == s
  {
    if IsPressEdge(e.eventType) then
      var key := KeyOf(e);
      s.(typed := s.typed + {key}, pressed := s.pressed + {key})
    else if IsReleaseEdge(e.eventType) then
      var key := KeyOf(e);
      s.(pressed := s.pressed - {key}, released := s.released + {key})
    else if e.eventType == MouseMove then
      s.(mousePosition := e.position)
    else
      s
  }

  /** The per-frame reset: typed and released codes are forgotten; held keys and the mouse stay. */
  function ResetFrame(s: InputState): (r: InputState)
    ensures r.typed == {} && r.released == {}
    ensures r.pressed == s.pressed && r.mousePosition == s.mousePosition
  {
    s.(typed := {}, released := {})
  }

  /** The state after a sequence of events, applied first to last. */
  function ApplyAll(s: InputState, events: seq<Event>): InputState
  {
    if events == [] then s else Apply(ApplyAll(s, events[..|events| - 1]), events[|events| - 1])
  }

  /** The direction of the last press or release of key k among the events: Some(true) for a press. */
  function LastEdge(events: seq<Event>, k: Key): Wrappers.Option<bool>
  {
    if events == [] then Wrappers.None
    else
      var e := events[|events| - 1];
      if KeyOf(e) == k && IsPressEdge(e.eventType) then Wrappers.Some(true)
      else if KeyOf(e) == k && IsReleaseEdge(e.eventType) then Wrappers.Some(false)
      else LastEdge(events[..|events| - 1], k)
  }

  /** Whether some event among the events is an edge of the given direction for key k. */
  predicate HasEdge(events: seq<Event>, k: Key, press: bool)
  {
    exists i :: 0 <= i < |events| && KeyOf(events[i]) == k &&
      (if press then IsPressEdge(events[i].eventType) else IsReleaseEdge(events[i].eventType))
  }

  /** A key is held after a run of events exactly when its last edge was a press, or it had no edge and was held before. */
  lemma {:induction false} PressedAfterEvents(s: InputState, events: seq<Event>, k: Key)
    ensures k in ApplyAll(s, events).pressed <==>
      (if LastEdge(events, k).Some? then LastEdge(events, k).value else k in s.pressed)
    decreases |events|
  {
    if events != [] {
      PressedAfterEvents(s, events[..|events| - 1], k);
    }
  }

  /** A key is in the released set after a run of events exactly when it was before or one of the events released it. */
  lemma {:induction false} ReleasedAfterEvents(s: InputState, events: seq<Event>, k: Key)
    ensures k in ApplyAll(s, events).released <==> k in s.released || HasEdge(events, k, false)
    decreases |events|
  {
    if events != [] {
      var init := events[..|events| - 1];
      ReleasedAfterEvents(s, init, k);
      assert forall i :: 0 <= i < |init| ==> init[i] == events[i];
      if HasEdge(events, k, false) && !HasEdge(init, k, false) {
        var i :| 0 <= i < |events| && KeyOf(events[i]) == k && IsReleaseEdge(events[i].eventType);
        assert i == |events| - 1;
      }
    }
  }

  /** A key is in the typed set after a run of events exactly when it was before or one of the events typed it. */
  lemma {:induction false} TypedAfterEvents(s: InputState, events: seq<Event>, k: Key)
    ensures k in ApplyAll(s, events).typed <==> k in s.typed || HasEdge(events, k, true)
    decreases |events|
  {
    if events != [] {
      var init := events[..|events| - 1];
      TypedAfterEvents(s, init, k);
      assert forall i :: 0 <= i < |init| ==> init[i] == events[i];
      if HasEdge(events, k, true) && !HasEdge(init, k, true) {
        var i :| 0 <= i < |events| && KeyOf(events[i]) == k && IsPressEdge(events[i].eventType);
        assert i == |events| - 1;
      }
    }
  }

  /** A typed key stays held until it is released: if every typed key was held or released before a run of events, the same holds after it. */
  lemma {:induction false} TypedKeysAreHeldOrReleased(s: InputState, events: seq<Event>, k: Key)
    requires k in s.typed ==> k in s.pressed || k in s.released
    ensures var r := ApplyAll(s, events); k in r.typed ==> k in r.pressed || k in r.released
    decreases |events|
  {
    if events != [] {
      TypedKeysAreHeldOrReleased(s, events[..|events| - 1], k);
    }
  }

  class Input {
    var codesTyped: set<Key>
    var codesPressed: set<Key>
    var codesReleased: set<Key>
    var mousePosition: Wrappers.Option<MousePosition>

    function State(): InputState
      reads this
    {
      InputState(codesTyped, codesPressed, codesReleased, mousePosition)
    }

    constructor()
      ensures State() == Initial
    {
      codesTyped, codesPressed, codesReleased := {}, {}, {};
      mousePosition := Wrappers.Some(MousePosition(0.0, 0.0));
    }

    function IsPressed(key: int): (r: bool)
      reads this
      ensures r <==> Wrappers.Some(key) in State().pressed
    {
      Wrappers.Some(key) in codesPressed
    }

    function IsReleased(key: int): (r: bool)
      reads this
      ensures r <==> Wrappers.Some(key) in State().released
    {
      Wrappers.Some(key) in codesReleased
    }

    function IsTyped(key: int): (r: bool)
      reads this
      ensures r <==> Wrappers.Some(key) in State().typed
    {
      Wrappers.Some(key) in codesTyped
    }

    function GetMousePosition(): (r: Wrappers.Option<MousePosition>)
      reads this
      ensures r == State().mousePosition
    {
      mousePosition
    }

    /** Called for every keyboard and mouse event. */
    method Update(e: Event)
      modifies this
      ensures State() == Apply(old(State()), e)
    {
      if e.eventType == KeyTyped || e.eventType == MouseBottonPress {
        var key := KeyOf(e);
        codesTyped := codesTyped + {key};
        codesPressed := codesPressed + {key};
      } else if e.eventType == KeyRelease || e.eventType == MouseBottonRelease {
        var key := KeyOf(e);
        codesPressed := codesPressed - {key};
        codesReleased := codesReleased + {key};
      } else if e.eventType == MouseMove {
        mousePosition := e.position;
      }
    }

    /** Called once per frame. */
    method Reset()
      modifies this
      ensures State() == ResetFrame(old(State()))
    {
      codesTyped := {};
      codesReleased := {};
    }
  }
}
