/** The edge-swipe gesture of `SwipeableLayout`: a touch that starts near the
    left edge and moves far enough right opens the sidebar. The handlers are
    registered again after every state change, so each event sees the current
    state and the gesture is a sequential state machine. Coordinates are whole
    pixels. */
module Swipe {

  datatype Gesture = Gesture(open: bool, startX: int, currentX: int, swiping: bool)

  const Initial := Gesture(false, 0, 0, false)

  /** How close to the left edge a swipe must start. */
  const EdgeWidth := 50
  /** How far right a swipe must travel to open the sidebar. */
  const OpenDistance := 100

  /** No swipe is tracked and both coordinates are back to zero. */
  predicate Idle(g: Gesture) {
    !g.swiping && g.startX == 0 && g.currentX == 0
  }

  /** A tracked swipe began inside the edge strip. */
  predicate Valid(g: Gesture) {
    (!g.swiping ==> g.startX == 0 && g.currentX == 0) && (g.swiping ==> g.startX < EdgeWidth)
  }

  /** `touchstart`: a touch inside the edge strip starts (or restarts) tracking
      at its position; any other touch is ignored. */
  function TouchStart(g: Gesture, x: int): (r: Gesture)
    ensures x < EdgeWidth ==> r.swiping && r.startX == x && r.currentX == g.currentX
    ensures x >= EdgeWidth ==> r == g
    ensures r.open == g.open
  {
    if x < EdgeWidth then g.(startX := x, swiping := true) else g
  }

  /** `touchmove`: records the position only while a swipe is tracked. */
  function TouchMove(g: Gesture, x: int): (r: Gesture)
    ensures g.swiping ==> r == g.(currentX := x)
    ensures !g.swiping ==> r == g
  {
    if g.swiping then g.(currentX := x) else g
  }

  /** `touchend`: a tracked swipe opens the sidebar when it went far enough
      right, and tracking is reset; without a tracked swipe nothing happens. */
  function TouchEnd(g: Gesture): (r: Gesture)
    ensures g.swiping ==> Idle(r) && (r.open <==> g.open || g.currentX - g.startX > OpenDistance)
    ensures !g.swiping ==> r == g
  {
    if g.swiping then Gesture(g.open || g.currentX - g.startX > OpenDistance, 0, 0, false) else g
  }

  /** The touch events the layout listens to. */
  datatype Event = Start(x: int) | Move(x: int) | End

  function Step(g: Gesture, e: Event): Gesture {
    match e
    case Start(x) => TouchStart(g, x)
    case Move(x) => TouchMove(g, x)
    case End => TouchEnd(g)
  }

  /** The state after a sequence of events. */
  function Run(g: Gesture, events: seq<Event>): Gesture
    decreases |events|
  {
    if |events| == 0 then g else Run(Step(g, events[0]), events[1..])
  }

  /** Every event keeps the state valid: coordinates are zero whenever no
      swipe is tracked, and a tracked swipe started in the edge strip. */
  lemma StepKeepsValid(g: Gesture, e: Event)
    requires Valid(g)
    ensures Valid(Step(g, e))
  {
  }

  /** Any sequence of events from the initial state keeps it valid and never
      closes the sidebar once open. */
  lemma {:induction false} RunKeepsValidAndOpen(g: Gesture, events: seq<Event>)
    requires Valid(g)
    ensures Valid(Run(g, events))
    ensures g.open ==> Run(g, events).open
    decreases |events|
  {
    if |events| > 0 {
      StepKeepsValid(g, events[0]);
      RunKeepsValidAndOpen(Step(g, events[0]), events[1..]);
    }
  }

  /** A touch that starts and ends without moving never opens the sidebar:
      the current position is still zero, so the distance is `-x`. */
  lemma TapNeverOpens(g: Gesture, x: int)
    requires Valid(g) && !g.swiping && x >= 0
    ensures TouchEnd(TouchStart(g, x)).open == g.open
  {
  }

  /** A swipe from inside the edge strip to more than 100 pixels further right
      opens the sidebar. */
  lemma SwipeRightOpens(g: Gesture, from: int, to: int)
    requires from < EdgeWidth && to - from > OpenDistance
    ensures Run(g, [Start(from), Move(to), End]).open
  {
    var g1 := TouchStart(g, from);
    var g2 := TouchMove(g1, to);
    assert [Start(from), Move(to), End][1..] == [Move(to), End];
    assert [Move(to), End][1..] == [End];
    assert Run(g, [Start(from), Move(to), End]) == Run(g1, [Move(to), End]);
    assert Run(g1, [Move(to), End]) == Run(g2, [End]);
    assert Run(g2, [End]) == Run(TouchEnd(g2), []);
  }
}
