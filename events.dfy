/**
 * The event queue of graviton/events: browser input on the drawing grid and
 * the control buttons becomes event records, which wait in a first-in
 * first-out queue until the application takes them.
 *
 * The browser's events and the grid element enter as values carrying the
 * fields the records are built from; registering the handlers with the
 * browser is not part of this model.
 */
module Events {
  import opened Wrappers

  /** Codes of the input events. */
  const MOUSEDOWN: int := 1000
  const MOUSEUP: int := 1001
  const MOUSEMOVE: int := 1002
  const MOUSEWHEEL: int := 1003
  const CLICK: int := 1004
  const DBLCLICK: int := 1005
  const KEYDOWN: int := 1010
  const KEYUP: int := 1011

  /** Codes of the control buttons. */
  const PLAYBTN: int := 2000
  const PAUSEBTN: int := 2001
  const TRAILOFFBTN: int := 2002
  const TRAILONBTN: int := 2003
  const HELPBTN: int := 2004
  const QUADTREEOFFBTN: int := 2005
  const QUADTREEONBTN: int := 2006
  const BARNESHUTONBTN: int := 2007
  const BARNESHUTOFFBTN: int := 2008
  const COLLISIONSOFFBTN: int := 2009
  const COLLISIONSONBTN: int := 2010

  /** The grid element's offset within the page. */
  datatype Grid = Grid(offsetLeft: real, offsetTop: real)

  /** The fields of a browser event the records are built from; a missing key code reads as 0. */
  datatype DomEvent = DomEvent(
    clientX: real, clientY: real, button: int, shiftKey: bool, ctrlKey: bool,
    timeStamp: real, deltaY: real, keyCode: int, which: int)

  /** A point on the grid. */
  datatype Position = Position(x: real, y: real)

  /** The event records: each carries its code and the time it happened. */
  datatype Event =
    | Pointer(code: int, position: Position, button: int, shift: bool, ctrl: bool, timestamp: real)
    | Move(code: int, position: Position, timestamp: real)
    | Wheel(code: int, position: Position, delta: real, shift: bool, ctrl: bool, timestamp: real)
    | Key(code: int, keycode: int, shift: bool, ctrl: bool, timestamp: real)
    | Control(code: int, timestamp: real)

  /** The event's position relative to the grid's corner. */
  function GetPosition(grid: Grid, event: DomEvent): (p: Position)
    ensures p.x + grid.offsetLeft == event.clientX
    ensures p.y + grid.offsetTop == event.clientY
  {
    Position(event.clientX - grid.offsetLeft, event.clientY - grid.offsetTop)
  }

  /** Wheel motion as a zoom amount: reversed in sign, 50 units of scroll to one step. */
  function WheelDelta(deltaY: real): (d: real)
    ensures d * 50.0 == -deltaY
    ensures deltaY > 0.0 <==> d < 0.0
  {
    -deltaY / 50.0
  }

  /** The key code of a key event, taken from `which` when `keyCode` is missing or 0. */
  function KeyOf(event: DomEvent): (k: int)
    ensures event.keyCode != 0 ==> k == event.keyCode
    ensures event.keyCode == 0 ==> k == event.which
  {
    if event.keyCode != 0 then event.keyCode else event.which
  }

  /** The record of a button press, release, click or double click on the grid. */
  function PointerEvent(code: int, grid: Grid, event: DomEvent): (e: Event)
    ensures e.Pointer? && e.code == code && e.timestamp == event.timeStamp
    ensures e.position == GetPosition(grid, event)
    ensures e.button == event.button && e.shift == event.shiftKey && e.ctrl == event.ctrlKey
  {
    Pointer(code, GetPosition(grid, event), event.button, event.shiftKey, event.ctrlKey, event.timeStamp)
  }

  /** The record of a key press or release. */
  function KeyEvent(code: int, event: DomEvent): (e: Event)
    ensures e.Key? && e.code == code && e.timestamp == event.timeStamp
    ensures e.keycode == KeyOf(event) && e.shift == event.shiftKey && e.ctrl == event.ctrlKey
  {
    Key(code, KeyOf(event), event.shiftKey, event.ctrlKey, event.timeStamp)
  }

  /** The arguments an event queue is created with: the grid, when one is given. */
  datatype EventArgs = EventArgs(grid: Option<Grid>)

  /** The grid the arguments give, or the failure of having none. */
  function CheckGrid(args: Option<EventArgs>): (r: Result<Grid, string>)
    ensures r.Success? <==> args.Some? && args.value.grid.Some?
    ensures r.Success? ==> r.value == args.value.grid.value
  {
    if args.Some? && args.value.grid.Some? then Success(args.value.grid.value)
    else Failure("No usable canvas element was given.")
  }

  /** Creates an event queue, which fails when no grid is given. */
  method Create(args: Option<EventArgs>) returns (r: Result<EventQueue, string>)
    ensures r.Failure? <==> CheckGrid(args).Failure?
    ensures r.Failure? ==> r.error == CheckGrid(args).error
    ensures r.Success? ==> fresh(r.value) && r.value.queue == [] && r.value.grid == CheckGrid(args).value
  {
    var checked := CheckGrid(args);
    if checked.Failure? {
      return Failure(checked.error);
    }
    var q := new EventQueue(checked.value);
    return Success(q);
  }

  /** The queue of event records and the grid the positions are measured on. */
  class EventQueue {
    const grid: Grid
    var queue: seq<Event>

    constructor (grid: Grid)
      ensures this.grid == grid && queue == []
    {
      this.grid := grid;
      queue := [];
    }

    /** Appends an event at the tail. */
    method QAdd(event: Event)
      modifies this
      ensures queue == old(queue) + [event]
    {
      queue := queue + [event];
    }

    /** Removes and returns the event at the head; nothing on an empty queue. */
    method QPoll() returns (r: Option<Event>)
      modifies this
      ensures old(queue) == [] ==> r == None && queue == []
      ensures old(queue) != [] ==> r == Some(old(queue)[0]) && queue == old(queue)[1..]
      ensures r.Some? ==> old(queue) == [r.value] + queue
    {
      if queue == [] {
        r := None;
      } else {
        r := Some(queue[0]);
        queue := queue[1..];
      }
    }

    /** Returns every queued event, oldest first, and leaves the queue empty. */
    method QGet() returns (events: seq<Event>)
      modifies this
      ensures events == old(queue) && queue == []
    {
      events := queue;
      queue := [];
    }

    /** Empties the queue. */
    method QClear()
      modifies this
      ensures queue == []
    {
      queue := [];
    }

    method HandleClick(event: DomEvent)
      modifies this
      ensures queue == old(queue) + [PointerEvent(CLICK, grid, event)]
    {
      QAdd(PointerEvent(CLICK, grid, event));
    }

    method HandleDblClick(event: DomEvent)
      modifies this
      ensures queue == old(queue) + [PointerEvent(DBLCLICK, grid, event)]
    {
      QAdd(PointerEvent(DBLCLICK, grid, event));
    }

    /** Only keeps the browser's context menu from opening: no event is queued. */
    method HandleContextMenu(event: DomEvent)
      ensures queue == old(queue)
    {
    }

    method HandleMouseDown(event: DomEvent)
      modifies this
      ensures queue == old(queue) + [PointerEvent(MOUSEDOWN, grid, event)]
    {
      QAdd(PointerEvent(MOUSEDOWN, grid, event));
    }

    method HandleMouseUp(event: DomEvent)
      modifies this
      ensures queue == old(queue) + [PointerEvent(MOUSEUP, grid, event)]
    {
      QAdd(PointerEvent(MOUSEUP, grid, event));
    }

    method HandleMouseMove(event: DomEvent)
      modifies this
      ensures queue == old(queue) + [Move(MOUSEMOVE, GetPosition(grid, event), event.timeStamp)]
    {
      QAdd(Move(MOUSEMOVE, GetPosition(grid, event), event.timeStamp));
    }

    method HandleMouseWheel(event: DomEvent)
      modifies this
      ensures queue == old(queue) + [Wheel(MOUSEWHEEL, GetPosition(grid, event), WheelDelta(event.deltaY),
                                           event.shiftKey, event.ctrlKey, event.timeStamp)]
    {
      var delta := -event.deltaY / 50.0;
      QAdd(Wheel(MOUSEWHEEL, GetPosition(grid, event), delta, event.shiftKey, event.ctrlKey, event.timeStamp));
    }

    method HandleKeyDown(event: DomEvent)
      modifies this
      ensures queue == old(queue) + [KeyEvent(KEYDOWN, event)]
    {
      QAdd(KeyEvent(KEYDOWN, event));
    }

    method HandleKeyUp(event: DomEvent)
      modifies this
      ensures queue == old(queue) + [KeyEvent(KEYUP, event)]
    {
      QAdd(KeyEvent(KEYUP, event));
    }

    /** A control button was clicked: its code and the time are queued. */
    method HandleControlClick(code: int, event: DomEvent)
      modifies this
      ensures queue == old(queue) + [Control(code, event.timeStamp)]
    {
      QAdd(Control(code, event.timeStamp));
    }
  }

  /**
   * First in, first out: the events added to a queue in turn come back from
   * polling in the same order, and polling then finds the queue empty.
   */
  method FifoOrder(q: EventQueue, a: Event, b: Event) returns (first: Option<Event>, second: Option<Event>, third: Option<Event>)
    modifies q
    ensures first == Some(a) && second == Some(b) && third == None
    ensures q.queue == []
  {
    q.QClear();
    q.QAdd(a);
    q.QAdd(b);
    first := q.QPoll();
    second := q.QPoll();
    third := q.QPoll();
  }
}
