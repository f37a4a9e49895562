/**
 * Events (src/Events/Event.h with KeyEvent.h, MouseEvent.h and
 * WindowEvent.h): the type tags, the category bit flags each event class
 * declares, the category test, and `EventDispatcher::Dispatch`, which runs a
 * handler only on an event of the handler's type and ORs its verdict into
 * the event's `Handled` flag.
 */
module Events {

  /** `Event::Type`, in declaration order. */
  datatype EventType =
    | NoType
    | WindowClose | WindowResize | WindowFocus | WindowLostFocus | WindowMoved
    | KeyPressed | KeyReleased | KeyTyped
    | MouseButtonPressed | MouseButtonReleased | MouseMoved | MouseScrolled

  /** `Event::Category`. */
  datatype Category = NoCategory | Window | Input | Keyboard | Mouse | MouseButton

  /**
   * The flag of a category: `BIT(n)`, taken to be `1 << n` (the macro's
   * header is not part of this model), and 0 for `None`.
   */
  function CategoryBits(c: Category): (b: bv32)
    ensures c != NoCategory ==> b != 0 && b & (b - 1) == 0
  {
    match c
    case NoCategory => 0
    case Window => 1 << 0
    case Input => 1 << 1
    case Keyboard => 1 << 2
    case Mouse => 1 << 3
    case MouseButton => 1 << 4
  }

  /** Different categories have disjoint flags. */
  lemma CategoryBitsAreDistinct(c: Category, d: Category)
    requires c != d
    ensures CategoryBits(c) & CategoryBits(d) == 0
  {
  }

  /**
   * The concrete event classes with their payloads. Focus, lost-focus and
   * moved events have type tags but no class.
   */
  datatype Event =
    | WindowResizeEvent(width: nat, height: nat)
    | WindowCloseEvent
    | KeyPressedEvent(keyCode: nat, repeatCount: nat)
    | KeyReleasedEvent(keyCode: nat)
    | KeyTypedEvent(keyCode: nat)
    | MouseMovedEvent(mouseX: real, mouseY: real)
    | MouseScrolledEvent(xOffset: real, yOffset: real)
    | MouseButtonPressedEvent(button: nat)
    | MouseButtonReleasedEvent(button: nat)

  /** `getEventType()`: each class's `EVENT_CLASS_TYPE`. */
  function TypeOf(e: Event): (t: EventType)
    ensures t != NoType && t != WindowFocus && t != WindowLostFocus && t != WindowMoved
  {
    match e
    case WindowResizeEvent(_, _) => WindowResize
    case WindowCloseEvent => WindowClose
    case KeyPressedEvent(_, _) => KeyPressed
    case KeyReleasedEvent(_) => KeyReleased
    case KeyTypedEvent(_) => KeyTyped
    case MouseMovedEvent(_, _) => MouseMoved
    case MouseScrolledEvent(_, _) => MouseScrolled
    case MouseButtonPressedEvent(_) => MouseButtonPressed
    case MouseButtonReleasedEvent(_) => MouseButtonReleased
  }

  /**
   * The categories each class declares, as a set: window events are Window;
   * key events Keyboard and Input; mouse motion and scroll Mouse and Input;
   * mouse buttons Mouse, Input and MouseButton.
   */
  function Categories(e: Event): set<Category>
  {
    match e
    case WindowResizeEvent(_, _) => {Window}
    case WindowCloseEvent => {Window}
    case KeyPressedEvent(_, _) => {Keyboard, Input}
    case KeyReleasedEvent(_) => {Keyboard, Input}
    case KeyTypedEvent(_) => {Keyboard, Input}
    case MouseMovedEvent(_, _) => {Mouse, Input}
    case MouseScrolledEvent(_, _) => {Mouse, Input}
    case MouseButtonPressedEvent(_) => {Mouse, Input, MouseButton}
    case MouseButtonReleasedEvent(_) => {Mouse, Input, MouseButton}
  }

  /** `getCategoryFlags()`: the OR of the flags in each class's `EVENT_CLASS_CATEGORY`. */
  function CategoryFlags(e: Event): bv32
  {
    match e
    case WindowResizeEvent(_, _) => CategoryBits(Window)
    case WindowCloseEvent => CategoryBits(Window)
    case KeyPressedEvent(_, _) => CategoryBits(Keyboard) | CategoryBits(Input)
    case KeyReleasedEvent(_) => CategoryBits(Keyboard) | CategoryBits(Input)
    case KeyTypedEvent(_) => CategoryBits(Keyboard) | CategoryBits(Input)
    case MouseMovedEvent(_, _) => CategoryBits(Mouse) | CategoryBits(Input)
    case MouseScrolledEvent(_, _) => CategoryBits(Mouse) | CategoryBits(Input)
    case MouseButtonPressedEvent(_) => CategoryBits(Mouse) | CategoryBits(Input) | CategoryBits(MouseButton)
    case MouseButtonReleasedEvent(_) => CategoryBits(Mouse) | CategoryBits(Input) | CategoryBits(MouseButton)
  }

  /**
   * `isInCategory`: the category's flag is among the event's flags, which
   * holds exactly for the categories its class declares; never for `None`.
   */
  function IsInCategory(e: Event, c: Category): (r: bool)
    ensures r <==> c in Categories(e)
    ensures c == NoCategory ==> !r
  {
    CategoryFlags(e) & CategoryBits(c) != 0
  }

  /** An event object: the event and its `Handled` flag. */
  datatype EventState = EventState(event: Event, handled: bool)

  /** A freshly raised event is not handled. */
  function Raise(e: Event): (s: EventState)
    ensures s.event == e && !s.handled
  {
    EventState(e, false)
  }

  /** A handler bound for `Dispatch<T>`: the type `T` and the function it calls. */
  datatype Handler = Handler(target: EventType, func: Event -> bool)

  /**
   * `EventDispatcher::Dispatch<T>`: whether the event has type `T`, and the
   * event afterwards. On a match the handler runs and `Handled` becomes its
   * old value OR the handler's result; otherwise nothing changes.
   */
  function Dispatch(s: EventState, h: Handler): (r: (bool, EventState))
    ensures r.0 <==> TypeOf(s.event) == h.target
    ensures r.1.event == s.event
    ensures r.0 ==> r.1.handled == (s.handled || h.func(s.event))
    ensures !r.0 ==> r.1 == s
    ensures s.handled ==> r.1.handled
  {
    if TypeOf(s.event) == h.target then (true, s.(handled := s.handled || h.func(s.event))) else (false, s)
  }

  /**
   * A chain of dispatches on one event, as an `onEvent` function writes
   * them: the event afterwards and how many handlers ran.
   */
  function DispatchChain(s: EventState, handlers: seq<Handler>): (r: (EventState, nat))
    ensures r.0.event == s.event
    ensures s.handled ==> r.0.handled
    ensures r.1 <= |handlers|
    decreases |handlers|
  {
    if |handlers| == 0 then (s, 0)
    else
      var (matched, next) := Dispatch(s, handlers[0]);
      var (final, ran) := DispatchChain(next, handlers[1..]);
      (final, ran + (if matched then 1 else 0))
  }

  /** Handlers bound to pairwise different event types. */
  predicate DistinctTargets(handlers: seq<Handler>)
  {
    forall i, j :: 0 <= i < j < |handlers| ==> handlers[i].target != handlers[j].target
  }

  /** The types a chain has handlers for. */
  function Targets(handlers: seq<Handler>): set<EventType>
  {
    set i | 0 <= i < |handlers| :: handlers[i].target
  }

  /**
   * When the handlers of a chain target pairwise different types, exactly one
   * runs if one targets the event's type, and none otherwise.
   */
  lemma {:induction false} DistinctChainRunsAtMostOne(s: EventState, handlers: seq<Handler>)
    requires DistinctTargets(handlers)
    ensures DispatchChain(s, handlers).1 == (if TypeOf(s.event) in Targets(handlers) then 1 else 0)
    decreases |handlers|
  {
    if |handlers| > 0 {
      var (matched, next) := Dispatch(s, handlers[0]);
      var rest := handlers[1..];
      assert DistinctTargets(rest) by {
        forall i, j | 0 <= i < j < |rest| ensures rest[i].target != rest[j].target {
          assert rest[i] == handlers[i + 1] && rest[j] == handlers[j + 1];
        }
      }
      DistinctChainRunsAtMostOne(next, rest);
      assert Targets(handlers) == {handlers[0].target} + Targets(rest) by {
        forall t | t in Targets(handlers) ensures t in {handlers[0].target} + Targets(rest) {
          var i :| 0 <= i < |handlers| && handlers[i].target == t;
          if i > 0 { assert rest[i - 1] == handlers[i]; }
        }
        forall t | t in Targets(rest) ensures t in Targets(handlers) {
          var i :| 0 <= i < |rest| && rest[i].target == t;
          assert handlers[i + 1] == rest[i];
        }
      }
      if matched {
        assert TypeOf(s.event) !in Targets(rest) by {
          forall i | 0 <= i < |rest| ensures rest[i].target != TypeOf(s.event) {
            assert rest[i] == handlers[i + 1];
          }
        }
      }
    }
  }

  /**
   * A chain marks an unhandled event handled exactly when some handler of
   * the event's type returns true.
   */
  lemma {:induction false} ChainHandlesIffSomeMatchingHandlerAccepts(s: EventState, handlers: seq<Handler>)
    requires !s.handled
    ensures DispatchChain(s, handlers).0.handled <==>
      exists i :: 0 <= i < |handlers| && handlers[i].target == TypeOf(s.event) && handlers[i].func(s.event)
    decreases |handlers|
  {
    if |handlers| > 0 {
      var (matched, next) := Dispatch(s, handlers[0]);
      var rest := handlers[1..];
      if next.handled {
        assert handlers[0].target == TypeOf(s.event) && handlers[0].func(s.event);
      } else {
        ChainHandlesIffSomeMatchingHandlerAccepts(next, rest);
        if exists i :: 0 <= i < |handlers| && handlers[i].target == TypeOf(s.event) && handlers[i].func(s.event) {
          var i :| 0 <= i < |handlers| && handlers[i].target == TypeOf(s.event) && handlers[i].func(s.event);
          assert i > 0;
          assert rest[i - 1] == handlers[i];
        }
        if exists i :: 0 <= i < |rest| && rest[i].target == TypeOf(s.event) && rest[i].func(s.event) {
          var i :| 0 <= i < |rest| && rest[i].target == TypeOf(s.event) && rest[i].func(s.event);
          assert handlers[i + 1] == rest[i];
        }
      }
    }
  }

  /**
   * `Application::onEvent`: resize, mouse-move and scroll handlers, each of
   * which reports the event handled.
   */
  const APPLICATION_HANDLERS: seq<Handler> := [
    Handler(WindowResize, _ => true), Handler(MouseMoved, _ => true), Handler(MouseScrolled, _ => true)]

  /**
   * `Application::onEvent` runs one handler for a resize, mouse-move or
   * scroll event and marks it handled; any other event passes through
   * untouched.
   */
  lemma ApplicationHandlesItsThreeTypes(e: Event)
    ensures var (final, ran) := DispatchChain(Raise(e), APPLICATION_HANDLERS);
      var mine := TypeOf(e) in {WindowResize, MouseMoved, MouseScrolled};
      && ran == (if mine then 1 else 0)
      && final.handled == mine
  {
    var hs := APPLICATION_HANDLERS;
    assert Targets(hs) == {WindowResize, MouseMoved, MouseScrolled} by {
      assert hs[0].target == WindowResize && hs[1].target == MouseMoved && hs[2].target == MouseScrolled;
    }
    DistinctChainRunsAtMostOne(Raise(e), hs);
    ChainHandlesIffSomeMatchingHandlerAccepts(Raise(e), hs);
    if TypeOf(e) in {WindowResize, MouseMoved, MouseScrolled} {
      var i := if TypeOf(e) == WindowResize then 0 else if TypeOf(e) == MouseMoved then 1 else 2;
      assert hs[i].target == TypeOf(e) && hs[i].func(e);
    }
  }
}
