/**
 * The event core of the atom viewer (PBRApp/src/Events/Event.h): the same
 * type tags, categories, category test and dispatcher as src/Events/Event.h
 * under the names `GetEventType`, `GetCategoryFlags`, `IsInCategory` and
 * `handled`. Its concrete event classes are not part of this model, so an
 * event here is just its tag, its flags and its `handled` member.
 */
module CoreEvents {
  import Events

  /** An event object: `GetEventType()`, `GetCategoryFlags()` and `handled`. */
  datatype CoreEvent = CoreEvent(eventType: Events.EventType, categoryFlags: bv32, handled: bool)

  /**
   * `IsInCategory`: some flag of the category is among the event's; never
   * for `None`, and for any other category exactly when its single bit is set.
   */
  function IsInCategory(e: CoreEvent, c: Events.Category): (r: bool)
    ensures c == Events.NoCategory ==> !r
    ensures r ==> e.categoryFlags != 0
    ensures c != Events.NoCategory ==> (r <==> e.categoryFlags & Events.CategoryBits(c) == Events.CategoryBits(c))
  {
    e.categoryFlags & Events.CategoryBits(c) != 0
  }

  /**
   * `EventDispatcher::Dispatch<T>`: a match on `GetEventType() == T`, and on
   * a match `handled |= func(event)`; otherwise the event is untouched.
   */
  function Dispatch(e: CoreEvent, target: Events.EventType, func: CoreEvent -> bool): (r: (bool, CoreEvent))
    ensures r.0 <==> e.eventType == target
    ensures r.1.eventType == e.eventType && r.1.categoryFlags == e.categoryFlags
    ensures r.0 ==> r.1.handled == (e.handled || func(e))
    ensures !r.0 ==> r.1 == e
    ensures e.handled ==> r.1.handled
  {
    if e.eventType == target then (true, e.(handled := e.handled || func(e))) else (false, e)
  }

  /** The core view of an engine event: its type, its flags and its handled flag. */
  function Mirror(s: Events.EventState): CoreEvent
  {
    CoreEvent(Events.TypeOf(s.event), Events.CategoryFlags(s.event), s.handled)
  }

  /** The two copies agree on the category test. */
  lemma CategoryTestsAgree(s: Events.EventState, c: Events.Category)
    ensures IsInCategory(Mirror(s), c) == Events.IsInCategory(s.event, c)
  {
  }

  /**
   * The two copies agree on dispatch: given handlers that decide alike, both
   * match alike and leave the same handled flag.
   */
  lemma DispatchersAgree(s: Events.EventState, target: Events.EventType, f: Events.Event -> bool, g: CoreEvent -> bool)
    requires g(Mirror(s)) == f(s.event)
    ensures var (matched, after) := Events.Dispatch(s, Events.Handler(target, f));
      Dispatch(Mirror(s), target, g) == (matched, Mirror(after))
  {
  }
}
