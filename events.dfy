/** Event categories and types, the event record and type-matched dispatch. */
module Events {
  import Wrappers

  datatype EventCategory = None | Application | Keyboard | Mouse

  /** Event types, numbered from None = 0 in this order (spellings as declared). */
  datatype EventType =
    | None
    | ScreenResize | ScreenClose | ScreenFocus | ScreenBlur
    | KeyPress | KeyRelease | KeyTyped
    | MouseBottonPress | MouseBottonRelease | MouseMove | MouseScroll

  /** The numeric value of each category. */
  function CategoryOrdinal(c: EventCategory): nat {
    match c
    case None => 0
    case Application => 1
    case Keyboard => 2
    case Mouse => 3
  }

  /** The category with numeric value n, if there is one. */
  function CategoryFromOrdinal(n: int): Wrappers.Option<EventCategory> {
    if n == 0 then Wrappers.Some(EventCategory.None)
    else if n == 1 then Wrappers.Some(Application)
    else if n == 2 then Wrappers.Some(Keyboard)
    else if n == 3 then Wrappers.Some(Mouse)
    else Wrappers.None
  }

  /** The numeric value of each event type. */
  function TypeOrdinal(t: EventType): nat {
    match t
    case None => 0
    case ScreenResize => 1
    case ScreenClose => 2
    case ScreenFocus => 3
    case ScreenBlur => 4
    case KeyPress => 5
    case KeyRelease => 6
    case KeyTyped => 7
    case MouseBottonPress => 8
    case MouseBottonRelease => 9
    case MouseMove => 10
    case MouseScroll => 11
  }

  /** The event type with numeric value n, if there is one. */
  function TypeFromOrdinal(n: int): Wrappers.Option<EventType> {
    if n == 0 then Wrappers.Some(EventType.None)
    else if n == 1 then Wrappers.Some(ScreenResize)
    else if n == 2 then Wrappers.Some(ScreenClose)
    else if n == 3 then Wrappers.Some(ScreenFocus)
    else if n == 4 then Wrappers.Some(ScreenBlur)
    else if n == 5 then Wrappers.Some(KeyPress)
    else if n == 6 then Wrappers.Some(KeyRelease)
    else if n == 7 then Wrappers.Some(KeyTyped)
    else if n == 8 then Wrappers.Some(MouseBottonPress)
    else if n == 9 then Wrappers.Some(MouseBottonRelease)
    else if n == 10 then Wrappers.Some(MouseMove)
    else if n == 11 then Wrappers.Some(MouseScroll)
    else Wrappers.None
  }

  /** The categories are numbered 0..3 without gaps, and the numbering is one-to-one. */
  lemma CategoryNumbering(c: EventCategory, n: int)
    ensures CategoryOrdinal(c) < 4 && CategoryFromOrdinal(CategoryOrdinal(c)) == Wrappers.Some(c)
    ensures 0 <= n < 4 <==> CategoryFromOrdinal(n).Some?
    ensures CategoryFromOrdinal(n).Some? ==> CategoryOrdinal(CategoryFromOrdinal(n).value) == n
  {
  }

  /** The event types are numbered 0..11 without gaps (ScreenResize = 1), and the numbering is one-to-one. */
  lemma TypeNumbering(t: EventType, n: int)
    ensures TypeOrdinal(t) < 12 && TypeFromOrdinal(TypeOrdinal(t)) == Wrappers.Some(t)
    ensures 0 <= n < 12 <==> TypeFromOrdinal(n).Some?
    ensures TypeFromOrdinal(n).Some? ==> TypeOrdinal(TypeFromOrdinal(n).value) == n
    ensures TypeOrdinal(ScreenResize) == 1
  {
  }

  datatype MousePosition = MousePosition(x: real, y: real)

  /**
   * An event object: the `handled` flag is the one field that changes; the
   * rest is fixed at construction. `code`, `button` and `position` are the
   * payload fields of the keyboard and mouse events (None where an event
   * class has no such field).
   */
  class Event {
    var handled: bool
    const category: EventCategory
    const eventType: EventType
    const code: Wrappers.Option<int>
    const button: Wrappers.Option<int>
    const position: Wrappers.Option<MousePosition>

    /** Any event: not yet handled. */
    constructor(category: EventCategory, eventType: EventType, code: Wrappers.Option<int>,
                button: Wrappers.Option<int>, position: Wrappers.Option<MousePosition>)
      ensures !handled && this.category == category && this.eventType == eventType
      ensures this.code == code && this.button == button && this.position == position
    {
      handled := false;
      this.category, this.eventType := category, eventType;
      this.code, this.button, this.position := code, button, position;
    }

    /** `KeyTypedEvent` for an already mapped key code. */
    constructor KeyTypedEvent(code: int)
      ensures !handled && category == Keyboard && eventType == KeyTyped
      ensures this.code == Wrappers.Some(code) && button.None? && position.None?
    {
      handled := false;
      category, eventType := Keyboard, KeyTyped;
      this.code, button, position := Wrappers.Some(code), Wrappers.None, Wrappers.None;
    }

    /** `KeyReleaseEvent` for an already mapped key code. */
    constructor KeyReleaseEvent(code: int)
      ensures !handled && category == Keyboard && eventType == KeyRelease
      ensures this.code == Wrappers.Some(code) && button.None? && position.None?
    {
      handled := false;
      category, eventType := Keyboard, KeyRelease;
      this.code, button, position := Wrappers.Some(code), Wrappers.None, Wrappers.None;
    }

    /** `MouseButtonTypedEvent`, typed as a mouse-button press. */
    constructor MouseButtonTypedEvent(button: int, position: MousePosition)
      ensures !handled && category == Mouse && eventType == MouseBottonPress
      ensures code.None? && this.button == Wrappers.Some(button) && this.position == Wrappers.Some(position)
    {
      handled := false;
      category, eventType := Mouse, MouseBottonPress;
      code, this.button, this.position := Wrappers.None, Wrappers.Some(button), Wrappers.Some(position);
    }

    /** `MouseButtonReleaseEvent`, typed as a mouse-button release. */
    constructor MouseButtonReleaseEvent(button: int, position: MousePosition)
      ensures !handled && category == Mouse && eventType == MouseBottonRelease
      ensures code.None? && this.button == Wrappers.Some(button) && this.position == Wrappers.Some(position)
    {
      handled := false;
      category, eventType := Mouse, MouseBottonRelease;
      code, this.button, this.position := Wrappers.None, Wrappers.Some(button), Wrappers.Some(position);
    }

    /** `MouseMoveEvent`. */
    constructor MouseMoveEvent(position: MousePosition)
      ensures !handled && category == Mouse && eventType == MouseMove
      ensures code.None? && button.None? && this.position == Wrappers.Some(position)
    {
      handled := false;
      category, eventType := Mouse, MouseMove;
      code, button, this.position := Wrappers.None, Wrappers.None, Wrappers.Some(position);
    }
  }

  /** `EventDispatcher`: routes one event to a callback registered for its type. */
  class EventDispatcher {
    const event: Event

    constructor(event: Event)
      ensures this.event == event
    {
      this.event := event;
    }

    /**
     * On a type match the callback's result becomes `handled` and the
     * result is true whatever the callback said; otherwise nothing changes
     * and the result is false.
     */
    method Dispatch(eventType: EventType, callback: Event -> bool) returns (matched: bool)
      modifies event
      ensures matched <==> event.eventType == eventType
      ensures event.handled == if matched then callback(event) else old(event.handled)
    {
      if event.eventType == eventType {
        event.handled := callback(event);
        return true;
      }
      return false;
    }
  }
}
