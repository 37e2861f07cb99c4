/**
 * Edge-triggered input listeners (src/device.rs).
 *
 * Every tick a listener polls the host for the status of each input it
 * tracks, compares it with the status it stored on the previous tick,
 * derives one event from the pair, runs the handlers registered for that
 * (input, event) pair in registration order, and commits the new status.
 * A handler that returns an error aborts the program; here that is the
 * `Aborted` outcome, after which nothing further happens in that call.
 *
 * Host polling becomes an explicit input value (`MouseInput`,
 * `KeyboardInput`), and the only observable effect of a handler is its
 * invocation, which is appended to the listener's `invoked` log.
 */
module Device {
  import opened Base

  /* ---------------- Handlers ---------------- */

  datatype HandlerResult = Done | Failed(message: string)

  /** A registered closure; the host context it also receives is left out. */
  type Handler = Clock -> HandlerResult

  /** One invocation of the `index`-th handler of (`input`, `event`) at `time`. */
  datatype Invocation<K, E> = Invocation(input: K, event: E, index: nat, time: Clock)

  /** The invocations of handlers 0 .. n-1 of one (input, event) pair. */
  function Invocations<K, E>(input: K, event: E, t: Clock, n: nat): seq<Invocation<K, E>>
  {
    if n == 0 then [] else Invocations(input, event, t, n - 1) + [Invocation(input, event, n - 1, t)]
  }

  /** The index of the first handler that fails at `t`, if any. */
  function FirstFailure(hs: seq<Handler>, t: Clock): (r: Option<nat>)
    ensures r.None? <==> forall i :: 0 <= i < |hs| ==> hs[i](t).Done?
    ensures r.Some? ==> r.value < |hs| && hs[r.value](t).Failed?
    ensures r.Some? ==> forall i :: 0 <= i < r.value ==> hs[i](t).Done?
    decreases |hs|
  {
    if hs == [] then None
    else if hs[0](t).Failed? then Some(0)
    else
      var rest := FirstFailure(hs[1..], t);
      assert forall i :: 1 <= i < |hs| ==> hs[i] == hs[1..][i - 1];
      match rest
      case None => None
      case Some(k) => Some(k + 1)
  }

  /** How many handlers a dispatch runs: up to and including the first failing one. */
  function InvokedCount(hs: seq<Handler>, t: Clock): (n: nat)
    ensures n <= |hs|
  {
    match FirstFailure(hs, t)
    case None => |hs|
    case Some(k) => k + 1
  }

  /** A dispatch completes unless a handler fails, which aborts with its message. */
  function DispatchOutcome(hs: seq<Handler>, t: Clock): Outcome
  {
    match FirstFailure(hs, t)
    case None => Completed
    case Some(k) => Aborted(hs[k](t).message)
  }

  /**
   * The handler loop shared by both listeners (src/device.rs:168-173 and
   * 498-507): run the handlers in order, stop at the first `Err`.
   */
  method DispatchHandlers<K, E>(hs: seq<Handler>, input: K, event: E, t: Clock)
    returns (calls: seq<Invocation<K, E>>, o: Outcome)
    ensures calls == Invocations(input, event, t, InvokedCount(hs, t))
    ensures o == DispatchOutcome(hs, t)
    ensures o == Completed <==> forall i :: 0 <= i < |hs| ==> hs[i](t).Done?
  {
    calls := [];
    var i := 0;
    while i < |hs|
      invariant 0 <= i <= |hs|
      invariant forall j :: 0 <= j < i ==> hs[j](t).Done?
      invariant calls == Invocations(input, event, t, i)
    {
      var result := hs[i](t);
      calls := calls + [Invocation(input, event, i, t)];
      if result.Failed? {
        assert FirstFailure(hs, t) == Some(i);
        o := Aborted(result.message);
        return;
      }
      i := i + 1;
    }
    o := Completed;
  }

  /* ---------------- Mouse ---------------- */

  /** ggez's mouse buttons; only the first three are tracked. */
  datatype MouseButton = Left | Middle | Right | Other(code: nat)

  /** The buttons a listener tracks: all but `Other`. */
  predicate Tracked(b: MouseButton)
  {
    !b.Other?
  }

  /** A map has an entry for exactly the tracked buttons. */
  ghost predicate HasTracked<V>(m: map<MouseButton, V>)
  {
    forall b :: b in m <==> Tracked(b)
  }

  datatype MouseButtonStatus = MousePressed | MouseReleased

  datatype MouseButtonEvent = Clicked | Pressed | Dragged

  /** A map has an entry for each mouse event. */
  ghost predicate HasEvents<V>(m: map<MouseButtonEvent, V>)
  {
    forall e :: e in m
  }

  /** What the host reports on one tick: the buttons held down and the cursor. */
  datatype MouseInput = MouseInput(pressed: set<MouseButton>, position: Point)

  /** `check_button`: the polled status of one button. */
  function CheckButton(input: MouseInput, button: MouseButton): MouseButtonStatus
  {
    if button in input.pressed then MousePressed else MouseReleased
  }

  /**
   * The event a (previous, current) status pair yields, or None when the
   * button stays released and no handler runs.
   */
  function ClassifyMouse(previous: MouseButtonStatus, current: MouseButtonStatus): (r: Option<MouseButtonEvent>)
    ensures r == Some(MouseButtonEvent.Pressed) <==> previous == MouseReleased && current == MousePressed
    ensures r == Some(Clicked) <==> previous == MousePressed && current == MouseReleased
    ensures r == Some(Dragged) <==> previous == MousePressed && current == MousePressed
    ensures r == None <==> previous == MouseReleased && current == MouseReleased
  {
    match (previous, current)
    case (MouseReleased, MousePressed) => Some(MouseButtonEvent.Pressed)
    case (MousePressed, MouseReleased) => Some(Clicked)
    case (MousePressed, MousePressed) => Some(Dragged)
    case (MouseReleased, MouseReleased) => None
  }

  /** The whole state of a `MouseListener`, as a value. */
  datatype MouseState = MouseState(
    lastClicked: map<MouseButton, Point>,
    buttonMap: map<MouseButton, MouseButtonStatus>,
    handlers: map<MouseButton, map<MouseButtonEvent, seq<Handler>>>,
    invoked: seq<Invocation<MouseButton, MouseButtonEvent>>)

  /** Every tracked button has a status, a click position and a handler list per event. */
  ghost predicate MouseStateValid(s: MouseState)
  {
    && HasTracked(s.lastClicked)
    && HasTracked(s.buttonMap)
    && HasTracked(s.handlers)
    && HasEvents(s.handlers[MouseButton.Left])
    && HasEvents(s.handlers[MouseButton.Middle])
    && HasEvents(s.handlers[MouseButton.Right])
  }

  /**
   * `__flush_button_event`: classify against the stored status; a click
   * records the cursor before the handlers run; the stored statuses are
   * not touched.
   */
  function FlushButtonSpec(s: MouseState, t: Clock, position: Point, button: MouseButton,
                           current: MouseButtonStatus): (r: (MouseState, Outcome))
    requires MouseStateValid(s) && Tracked(button)
    ensures MouseStateValid(r.0)
    ensures r.0.buttonMap == s.buttonMap && r.0.handlers == s.handlers
  {
    match ClassifyMouse(s.buttonMap[button], current)
    case None => (s, Completed)
    case Some(event) =>
      var clicked := if event == Clicked then s.lastClicked[button := position] else s.lastClicked;
      var hs := s.handlers[button][event];
      (s.(lastClicked := clicked, invoked := s.invoked + Invocations(button, event, t, InvokedCount(hs, t))),
       DispatchOutcome(hs, t))
  }

  /**
   * `MouseListener::update`: flush Left, Middle and Right, each against the
   * statuses stored on the previous tick, then commit all three.
   */
  function UpdateMouseSpec(s: MouseState, input: MouseInput, t: Clock): (r: (MouseState, Outcome))
    requires MouseStateValid(s)
    ensures MouseStateValid(r.0)
    ensures r.0.handlers == s.handlers
  {
    var l := CheckButton(input, MouseButton.Left);
    var m := CheckButton(input, MouseButton.Middle);
    var rt := CheckButton(input, MouseButton.Right);
    var (s1, o1) := FlushButtonSpec(s, t, input.position, MouseButton.Left, l);
    if o1.Aborted? then (s1, o1) else
    var (s2, o2) := FlushButtonSpec(s1, t, input.position, MouseButton.Middle, m);
    if o2.Aborted? then (s2, o2) else
    var (s3, o3) := FlushButtonSpec(s2, t, input.position, MouseButton.Right, rt);
    if o3.Aborted? then (s3, o3) else
    (s3.(buttonMap := s3.buttonMap[MouseButton.Left := l][MouseButton.Middle := m][MouseButton.Right := rt]),
     Completed)
  }

  /** The handlers a completed flush of `button` runs on this tick. */
  function MouseFired(s: MouseState, input: MouseInput, t: Clock, button: MouseButton)
    : seq<Invocation<MouseButton, MouseButtonEvent>>
    requires MouseStateValid(s) && Tracked(button)
  {
    match ClassifyMouse(s.buttonMap[button], CheckButton(input, button))
    case None => []
    case Some(event) => Invocations(button, event, t, |s.handlers[button][event]|)
  }

  /** One empty handler list per mouse event. */
  const NoMouseHandlers: map<MouseButtonEvent, seq<Handler>> :=
    map[Clicked := [], MouseButtonEvent.Pressed := [], Dragged := []]

  lemma ThreeEventsCover<V>(m: map<MouseButtonEvent, V>)
    requires Clicked in m && MouseButtonEvent.Pressed in m && Dragged in m
    ensures HasEvents(m)
  {
    forall e ensures e in m {
      match e
      case Clicked =>
      case Pressed =>
      case Dragged =>
    }
  }

  lemma ThreeButtonsCover<V>(m: map<MouseButton, V>)
    requires MouseButton.Left in m && MouseButton.Middle in m && MouseButton.Right in m
    requires forall b :: b in m ==> Tracked(b)
    ensures HasTracked(m)
  {
    forall b ensures b in m <==> Tracked(b) {
      match b
      case Left =>
      case Middle =>
      case Right =>
      case Other(_) =>
    }
  }

  /** The state `MouseListener::new` builds. */
  function InitialMouseState(): (s: MouseState)
    ensures MouseStateValid(s)
    ensures forall b :: Tracked(b) ==> s.buttonMap[b] == MouseReleased && s.lastClicked[b] == Origin
    ensures forall b :: Tracked(b) ==> s.handlers[b] == NoMouseHandlers
    ensures s.invoked == []
  {
    var s := MouseState(
      map[MouseButton.Left := Origin, MouseButton.Middle := Origin, MouseButton.Right := Origin],
      map[MouseButton.Left := MouseReleased, MouseButton.Middle := MouseReleased, MouseButton.Right := MouseReleased],
      map[MouseButton.Left := NoMouseHandlers, MouseButton.Middle := NoMouseHandlers,
          MouseButton.Right := NoMouseHandlers],
      []);
    ThreeEventsCover(NoMouseHandlers);
    ThreeButtonsCover(s.lastClicked);
    ThreeButtonsCover(s.buttonMap);
    ThreeButtonsCover(s.handlers);
    s
  }

  class MouseListener {
    var lastClicked: map<MouseButton, Point>
    var buttonMap: map<MouseButton, MouseButtonStatus>
    var eventHandlers: map<MouseButton, map<MouseButtonEvent, seq<Handler>>>
    var invoked: seq<Invocation<MouseButton, MouseButtonEvent>>

    function State(): MouseState
      reads this
    {
      MouseState(lastClicked, buttonMap, eventHandlers, invoked)
    }

    ghost predicate Valid()
      reads this
    {
      MouseStateValid(State())
    }

    /** `new`: all tracked buttons released, clicked at the origin, no handlers. */
    constructor ()
      ensures State() == InitialMouseState()
      ensures Valid()
    {
      buttonMap := map[MouseButton.Left := MouseReleased, MouseButton.Middle := MouseReleased,
                       MouseButton.Right := MouseReleased];
      eventHandlers := map[MouseButton.Left := NoMouseHandlers, MouseButton.Middle := NoMouseHandlers,
                           MouseButton.Right := NoMouseHandlers];
      lastClicked := map[MouseButton.Left := Origin, MouseButton.Middle := Origin, MouseButton.Right := Origin];
      invoked := [];
    }

    /** Appends `f` to the handlers of (`button`, `event`); an untracked button panics. */
    method RegisterEventHandler(button: MouseButton, event: MouseButtonEvent, f: Handler) returns (o: Outcome)
      requires Valid()
      modifies this
      ensures Valid()
      ensures Tracked(button) ==>
        o == Completed &&
        State() == old(State()).(handlers := old(eventHandlers)[button := old(eventHandlers)[button][event := old(eventHandlers)[button][event] + [f]]])
      ensures !Tracked(button) ==> o.Aborted? && State() == old(State())
    {
      if button !in eventHandlers {
        o := Aborted("called `Option::unwrap()` on a `None` value");
        return;
      }
      var perEvent := eventHandlers[button];
      eventHandlers := eventHandlers[button := perEvent[event := perEvent[event] + [f]]];
      o := Completed;
    }

    /** The position of the last click of `button`; buttons other than the three panic. */
    function GetLastClicked(button: MouseButton): (r: Result<Point>)
      requires Valid()
      reads this
      ensures r.Ok? <==> Tracked(button)
      ensures r.Ok? ==> r.value == lastClicked[button]
    {
      match button
      case Left => Ok(lastClicked[button])
      case Middle => Ok(lastClicked[button])
      case Right => Ok(lastClicked[button])
      case Other(_) => Panic("Other MouseButton is detected!!")
    }

    method FlushButtonEvent(t: Clock, position: Point, button: MouseButton, current: MouseButtonStatus)
      returns (o: Outcome)
      requires Valid() && Tracked(button)
      modifies this
      ensures (State(), o) == FlushButtonSpec(old(State()), t, position, button, current)
    {
      var event := ClassifyMouse(buttonMap[button], current);
      if event.None? {
        return Completed;
      }
      if event.value == Clicked {
        lastClicked := lastClicked[button := position];
      }
      var calls;
      calls, o := DispatchHandlers(eventHandlers[button][event.value], button, event.value, t);
      invoked := invoked + calls;
    }

    /** `update`: poll the three buttons, flush them in order, then commit. */
    method Update(input: MouseInput, t: Clock) returns (o: Outcome)
      requires Valid()
      modifies this
      ensures (State(), o) == UpdateMouseSpec(old(State()), input, t)
    {
      var l := CheckButton(input, MouseButton.Left);
      var m := CheckButton(input, MouseButton.Middle);
      var r := CheckButton(input, MouseButton.Right);
      o := FlushButtonEvent(t, input.position, MouseButton.Left, l);
      if o.Aborted? { return; }
      o := FlushButtonEvent(t, input.position, MouseButton.Middle, m);
      if o.Aborted? { return; }
      o := FlushButtonEvent(t, input.position, MouseButton.Right, r);
      if o.Aborted? { return; }
      buttonMap := buttonMap[MouseButton.Left := l][MouseButton.Middle := m][MouseButton.Right := r];
    }
  }

  /** A completed update commits exactly the polled statuses. */
  lemma UpdateCommitsPolledStatus(s: MouseState, input: MouseInput, t: Clock)
    requires MouseStateValid(s)
    requires UpdateMouseSpec(s, input, t).1 == Completed
    ensures forall b :: Tracked(b) ==> UpdateMouseSpec(s, input, t).0.buttonMap[b] == CheckButton(input, b)
  {
  }

  /**
   * In a completed update the last-click position of a button moves to the
   * cursor exactly when the button goes from pressed to released.
   */
  lemma UpdateRecordsClick(s: MouseState, input: MouseInput, t: Clock, b: MouseButton)
    requires MouseStateValid(s) && Tracked(b)
    requires UpdateMouseSpec(s, input, t).1 == Completed
    ensures UpdateMouseSpec(s, input, t).0.lastClicked[b] ==
      if s.buttonMap[b] == MousePressed && b !in input.pressed then input.position else s.lastClicked[b]
  {
    var l := CheckButton(input, MouseButton.Left);
    var m := CheckButton(input, MouseButton.Middle);
    var rt := CheckButton(input, MouseButton.Right);
    var (s1, o1) := FlushButtonSpec(s, t, input.position, MouseButton.Left, l);
    var (s2, o2) := FlushButtonSpec(s1, t, input.position, MouseButton.Middle, m);
    var (s3, o3) := FlushButtonSpec(s2, t, input.position, MouseButton.Right, rt);
    FlushRecordsClick(s, t, input.position, MouseButton.Left, l, b);
    FlushRecordsClick(s1, t, input.position, MouseButton.Middle, m, b);
    FlushRecordsClick(s2, t, input.position, MouseButton.Right, rt, b);
    assert UpdateMouseSpec(s, input, t).0.lastClicked == s3.lastClicked;
  }

  /** One flush moves the last click of `b` to the cursor exactly when `b` is the flushed button and it was released. */
  lemma FlushRecordsClick(s: MouseState, t: Clock, position: Point, button: MouseButton, current: MouseButtonStatus,
                          b: MouseButton)
    requires MouseStateValid(s) && Tracked(button) && Tracked(b)
    ensures FlushButtonSpec(s, t, position, button, current).0.lastClicked[b] ==
      if b == button && s.buttonMap[b] == MousePressed && current == MouseReleased then position else s.lastClicked[b]
  {
  }

  /**
   * A completed update runs, in this order, every handler of Left's event,
   * then of Middle's, then of Right's, each event classified against the
   * status stored on the previous tick.
   */
  lemma UpdateRunsHandlersInOrder(s: MouseState, input: MouseInput, t: Clock)
    requires MouseStateValid(s)
    requires UpdateMouseSpec(s, input, t).1 == Completed
    ensures UpdateMouseSpec(s, input, t).0.invoked ==
      s.invoked + MouseFired(s, input, t, MouseButton.Left) + MouseFired(s, input, t, MouseButton.Middle)
      + MouseFired(s, input, t, MouseButton.Right)
  {
    var l := CheckButton(input, MouseButton.Left);
    var m := CheckButton(input, MouseButton.Middle);
    var rt := CheckButton(input, MouseButton.Right);
    var (s1, o1) := FlushButtonSpec(s, t, input.position, MouseButton.Left, l);
    var (s2, o2) := FlushButtonSpec(s1, t, input.position, MouseButton.Middle, m);
    var (s3, o3) := FlushButtonSpec(s2, t, input.position, MouseButton.Right, rt);
    FlushCompletedRunsAll(s, t, input.position, MouseButton.Left, l);
    FlushCompletedRunsAll(s1, t, input.position, MouseButton.Middle, m);
    FlushCompletedRunsAll(s2, t, input.position, MouseButton.Right, rt);
  }

  lemma FlushCompletedRunsAll(s: MouseState, t: Clock, position: Point, button: MouseButton, current: MouseButtonStatus)
    requires MouseStateValid(s) && Tracked(button)
    requires FlushButtonSpec(s, t, position, button, current).1 == Completed
    ensures FlushButtonSpec(s, t, position, button, current).0.invoked ==
      s.invoked + (match ClassifyMouse(s.buttonMap[button], current)
                   case None => []
                   case Some(e) => Invocations(button, e, t, |s.handlers[button][e]|))
  {
  }

  /**
   * A Left-Clicked handler is registered on a fresh listener and the left
   * button is polled released at (0,0), pressed at (5,5), released at
   * (9,9): each tick completes, the last click is (9,9), the position at
   * the moment the release is seen, and the handler ran once, on tick 3.
   */
  lemma ClickScenario(f: Handler)
    requires forall t :: f(t) == Done
    ensures var s0 := InitialMouseState();
      var s := s0.(handlers := s0.handlers[MouseButton.Left := NoMouseHandlers[Clicked := [f]]]);
      var r1 := UpdateMouseSpec(s, MouseInput({}, Point(0.0, 0.0)), 1);
      var r2 := UpdateMouseSpec(r1.0, MouseInput({MouseButton.Left}, Point(5.0, 5.0)), 2);
      var r3 := UpdateMouseSpec(r2.0, MouseInput({}, Point(9.0, 9.0)), 3);
      && r1.1 == Completed && r2.1 == Completed && r3.1 == Completed
      && r3.0.lastClicked[MouseButton.Left] == Point(9.0, 9.0)
      && r3.0.invoked == [Invocation(MouseButton.Left, Clicked, 0, 3)]
  {
    var s0 := InitialMouseState();
    ThreeEventsCover(NoMouseHandlers[Clicked := [f]]);
    var s := s0.(handlers := s0.handlers[MouseButton.Left := NoMouseHandlers[Clicked := [f]]]);
    assert MouseStateValid(s);
    var r1 := UpdateMouseSpec(s, MouseInput({}, Point(0.0, 0.0)), 1);
    var r2 := UpdateMouseSpec(r1.0, MouseInput({MouseButton.Left}, Point(5.0, 5.0)), 2);
    assert r2.0.buttonMap[MouseButton.Left] == MousePressed;
  }

  /* ---------------- Keyboard ---------------- */

  /** Virtual keys; the discriminants are the source's, Unknown = 24. */
  datatype VirtualKey =
    | Left | Right | Up | Down
    | LeftSub | RightSub | UpSub | DownSub
    | LeftSubSub | RightSubSub | UpSubSub | DownSubSub
    | Action1 | Action2 | Action3 | Action4 | Action5 | Action6 | Action7 | Action8
    | Mod1 | Mod2 | Mod3 | Mod4
    | Unknown

  /** `vkey as i32`, which is also the key's index into `key_map`. */
  function ToI32(k: VirtualKey): (code: int)
    ensures 0 <= code <= 24
    ensures code == 24 <==> k == VirtualKey.Unknown
  {
    match k
    case Left => 0
    case Right => 1
    case Up => 2
    case Down => 3
    case LeftSub => 4
    case RightSub => 5
    case UpSub => 6
    case DownSub => 7
    case LeftSubSub => 8
    case RightSubSub => 9
    case UpSubSub => 10
    case DownSubSub => 11
    case Action1 => 12
    case Action2 => 13
    case Action3 => 14
    case Action4 => 15
    case Action5 => 16
    case Action6 => 17
    case Action7 => 18
    case Action8 => 19
    case Mod1 => 20
    case Mod2 => 21
    case Mod3 => 22
    case Mod4 => 23
    case Unknown => 24
  }

  /** `VirtualKey::from_i32`: codes 0..23 name their key, every other integer is Unknown. */
  function FromI32(i: int): (k: VirtualKey)
    ensures 0 <= i < 24 ==> ToI32(k) == i
    ensures !(0 <= i < 24) ==> k == VirtualKey.Unknown
  {
    match i
    case 0 => VirtualKey.Left
    case 1 => VirtualKey.Right
    case 2 => VirtualKey.Up
    case 3 => VirtualKey.Down
    case 4 => LeftSub
    case 5 => RightSub
    case 6 => UpSub
    case 7 => DownSub
    case 8 => LeftSubSub
    case 9 => RightSubSub
    case 10 => UpSubSub
    case 11 => DownSubSub
    case 12 => Action1
    case 13 => Action2
    case 14 => Action3
    case 15 => Action4
    case 16 => Action5
    case 17 => Action6
    case 18 => Action7
    case 19 => Action8
    case 20 => Mod1
    case 21 => Mod2
    case 22 => Mod3
    case 23 => Mod4
    case _ => VirtualKey.Unknown
  }

  /** Decoding a key's own code gives the key back, so distinct keys have distinct codes. */
  lemma FromI32RoundTrip(k: VirtualKey)
    ensures FromI32(ToI32(k)) == k
  {
    match k
    case Left =>
    case Right =>
    case Up =>
    case Down =>
    case LeftSub =>
    case RightSub =>
    case UpSub =>
    case DownSub =>
    case LeftSubSub =>
    case RightSubSub =>
    case UpSubSub =>
    case DownSubSub =>
    case Action1 =>
    case Action2 =>
    case Action3 =>
    case Action4 =>
    case Action5 =>
    case Action6 =>
    case Action7 =>
    case Action8 =>
    case Mod1 =>
    case Mod2 =>
    case Mod3 =>
    case Mod4 =>
    case Unknown =>
  }

  lemma ToI32Injective(a: VirtualKey, b: VirtualKey)
    requires ToI32(a) == ToI32(b)
    ensures a == b
  {
    FromI32RoundTrip(a);
    FromI32RoundTrip(b);
  }

  datatype KeyStatus = Pressed | Released | Unknown

  /** `KeyStatus::positive_logic`: true is Pressed. */
  function PositiveLogic(b: bool): (r: KeyStatus)
    ensures r == KeyStatus.Pressed <==> b
    ensures r != KeyStatus.Unknown
  {
    if b then KeyStatus.Pressed else Released
  }

  /** `KeyStatus::negative_logic`: true is Released. */
  function NegativeLogic(b: bool): (r: KeyStatus)
    ensures r == PositiveLogic(!b)
  {
    if b then Released else KeyStatus.Pressed
  }

  datatype KeyboardEvent = Typed | FirstPressed | KeepPressed | KeepReleased | Unknown

  /** `event as usize`, the event's slot in a key's handler table. */
  function EventIndex(e: KeyboardEvent): (i: nat)
    ensures i <= 4
  {
    match e
    case Typed => 0
    case FirstPressed => 1
    case KeepPressed => 2
    case KeepReleased => 3
    case Unknown => 4
  }

  /** The event a (stored, polled) key status pair yields (`flush_key_event`). */
  function ClassifyKey(previous: KeyStatus, current: KeyStatus): (e: KeyboardEvent)
    ensures e == FirstPressed <==> previous != current && current == KeyStatus.Pressed
    ensures e == Typed <==> previous != current && current == Released
    ensures e == KeepPressed <==> previous == current && current == KeyStatus.Pressed
    ensures e == KeepReleased <==> previous == current && current == Released
    ensures e == KeyboardEvent.Unknown <==> current == KeyStatus.Unknown
  {
    if current != previous then
      match current
      case Pressed => FirstPressed
      case Released => Typed
      case Unknown => KeyboardEvent.Unknown
    else
      match current
      case Pressed => KeepPressed
      case Released => KeepReleased
      case Unknown => KeyboardEvent.Unknown
  }

  datatype KeyInputDevice = GenericKeyboard | PS3Controller

  /** The real keys the generic keyboard binds; every other key code is `OtherKey`. */
  datatype KeyCode =
    | Left | Right | Up | Down
    | A | D | W | S | J | L | I | K
    | Z | X | C | V | N | M | Comma | Period
    | OtherKey(scancode: nat)

  datatype KeyMod = Shift | Ctrl | Alt | Logo

  /** What the host reports on one tick: the keys held down and the active modifiers. */
  datatype KeyboardInput = KeyboardInput(pressed: set<KeyCode>, mods: set<KeyMod>)

  datatype Binding = KeyBinding(code: KeyCode) | ModBinding(modifier: KeyMod) | NoBinding

  /** The fixed generic-keyboard layout of `vkey_input_check_generic_keyboard`. */
  function GenericBinding(vkey: VirtualKey): Binding
  {
    match vkey
    case Left => KeyBinding(KeyCode.Left)
    case Right => KeyBinding(KeyCode.Right)
    case Up => KeyBinding(KeyCode.Up)
    case Down => KeyBinding(KeyCode.Down)
    case LeftSub => KeyBinding(A)
    case RightSub => KeyBinding(D)
    case UpSub => KeyBinding(W)
    case DownSub => KeyBinding(S)
    case LeftSubSub => KeyBinding(J)
    case RightSubSub => KeyBinding(L)
    case UpSubSub => KeyBinding(I)
    case DownSubSub => KeyBinding(K)
    case Action1 => KeyBinding(Z)
    case Action2 => KeyBinding(X)
    case Action3 => KeyBinding(C)
    case Action4 => KeyBinding(V)
    case Action5 => KeyBinding(N)
    case Action6 => KeyBinding(M)
    case Action7 => KeyBinding(Comma)
    case Action8 => KeyBinding(Period)
    case Mod1 => ModBinding(Shift)
    case Mod2 => ModBinding(Ctrl)
    case Mod3 => ModBinding(Alt)
    case Mod4 => ModBinding(Logo)
    case Unknown => NoBinding
  }

  predicate BindingHeld(input: KeyboardInput, b: Binding)
  {
    match b
    case KeyBinding(code) => code in input.pressed
    case ModBinding(m) => m in input.mods
    case NoBinding => false
  }

  /** A virtual key is Pressed on the generic keyboard iff the key or modifier bound to it is held. */
  function GenericKeyboardCheck(input: KeyboardInput, vkey: VirtualKey): (r: KeyStatus)
    ensures r == KeyStatus.Pressed <==> BindingHeld(input, GenericBinding(vkey))
    ensures r == Released <==> !BindingHeld(input, GenericBinding(vkey))
  {
    PositiveLogic(BindingHeld(input, GenericBinding(vkey)))
  }

  /** `vkey_input_check`: the PS3 controller is not implemented and reports Unknown. */
  function VkeyInputCheck(input: KeyboardInput, device: KeyInputDevice, vkey: VirtualKey): KeyStatus
  {
    match device
    case GenericKeyboard => GenericKeyboardCheck(input, vkey)
    case PS3Controller => KeyStatus.Unknown
  }

  /**
   * The status `current_key_status` mixes from several devices: Pressed iff
   * some device reports Pressed, otherwise Released (an Unknown report
   * counts as not pressed).
   */
  function MixedKeyStatus(input: KeyboardInput, devices: seq<KeyInputDevice>, vkey: VirtualKey): (r: KeyStatus)
    ensures r == KeyStatus.Pressed <==>
      exists i :: 0 <= i < |devices| && VkeyInputCheck(input, devices[i], vkey) == KeyStatus.Pressed
    ensures r == KeyStatus.Pressed || r == Released
    decreases |devices|
  {
    if devices == [] then Released
    else if VkeyInputCheck(input, devices[0], vkey) == KeyStatus.Pressed then KeyStatus.Pressed
    else
      var rest := MixedKeyStatus(input, devices[1..], vkey);
      assert forall i :: 1 <= i < |devices| ==> devices[i] == devices[1..][i - 1];
      rest
  }

  /** key_map has one slot per virtual key, Unknown included. */
  const KeyCount: nat := ToI32(VirtualKey.Unknown) + 1

  /** Each key has one handler list per keyboard event, Unknown included. */
  const EventCount: nat := EventIndex(KeyboardEvent.Unknown) + 1

  function KeyIndex(k: VirtualKey): (i: nat)
    ensures i < KeyCount
  {
    ToI32(k)
  }

  /** The whole state of a `KeyboardListener`, as a value. */
  datatype KeyboardState = KeyboardState(
    devices: seq<KeyInputDevice>,
    listening: seq<VirtualKey>,
    keyMap: seq<KeyStatus>,
    handlers: seq<seq<seq<Handler>>>,
    invoked: seq<Invocation<VirtualKey, KeyboardEvent>>)

  predicate KeyboardStateValid(s: KeyboardState)
  {
    && |s.keyMap| == KeyCount
    && |s.handlers| == KeyCount
    && forall i :: 0 <= i < |s.handlers| ==> |s.handlers[i]| == EventCount
  }

  /** `flush_key_event`: classify against `key_map` and run that event's handlers. */
  function FlushKeySpec(s: KeyboardState, t: Clock, vkey: VirtualKey, current: KeyStatus): (r: (KeyboardState, Outcome))
    requires KeyboardStateValid(s)
    ensures r.0 == s.(invoked := r.0.invoked)
    ensures var hs := s.handlers[KeyIndex(vkey)][EventIndex(ClassifyKey(s.keyMap[KeyIndex(vkey)], current))];
      && r.0.invoked == s.invoked + Invocations(vkey, ClassifyKey(s.keyMap[KeyIndex(vkey)], current), t, InvokedCount(hs, t))
      && (r.1 == Completed <==> forall i :: 0 <= i < |hs| ==> hs[i](t).Done?)
  {
    var event := ClassifyKey(s.keyMap[KeyIndex(vkey)], current);
    var hs := s.handlers[KeyIndex(vkey)][EventIndex(event)];
    (s.(invoked := s.invoked + Invocations(vkey, event, t, InvokedCount(hs, t))), DispatchOutcome(hs, t))
  }

  /**
   * The keyboard `update` after its first `n` listened keys: each is
   * polled across the devices, flushed, and committed to `key_map`, until
   * a handler aborts.
   */
  function UpdateKeysSpec(s: KeyboardState, input: KeyboardInput, t: Clock, n: nat): (r: (KeyboardState, Outcome))
    requires KeyboardStateValid(s) && n <= |s.listening|
    ensures KeyboardStateValid(r.0)
    ensures r.0.devices == s.devices && r.0.listening == s.listening && r.0.handlers == s.handlers
    decreases n
  {
    if n == 0 then (s, Completed)
    else
      var (s1, o1) := UpdateKeysSpec(s, input, t, n - 1);
      if o1.Aborted? then (s1, o1)
      else
        var vkey := s.listening[n - 1];
        var current := MixedKeyStatus(input, s.devices, vkey);
        var (s2, o2) := FlushKeySpec(s1, t, vkey, current);
        if o2.Aborted? then (s2, o2)
        else (s2.(keyMap := s2.keyMap[KeyIndex(vkey) := current]), Completed)
  }

  /** A completed flush of a key runs every handler of its classified event, in registration order. */
  lemma FlushKeyCompletedRunsAll(s: KeyboardState, t: Clock, vkey: VirtualKey, current: KeyStatus)
    requires KeyboardStateValid(s)
    requires FlushKeySpec(s, t, vkey, current).1 == Completed
    ensures var e := ClassifyKey(s.keyMap[KeyIndex(vkey)], current);
      FlushKeySpec(s, t, vkey, current).0.invoked == s.invoked + Invocations(vkey, e, t, |s.handlers[KeyIndex(vkey)][EventIndex(e)]|)
  {
  }

  /** The handlers a completed flush of `k` runs, classified against the status stored in `s`. */
  function KeyFired(s: KeyboardState, input: KeyboardInput, t: Clock, k: VirtualKey)
    : seq<Invocation<VirtualKey, KeyboardEvent>>
    requires KeyboardStateValid(s)
  {
    var e := ClassifyKey(s.keyMap[KeyIndex(k)], MixedKeyStatus(input, s.devices, k));
    Invocations(k, e, t, |s.handlers[KeyIndex(k)][EventIndex(e)]|)
  }

  /** The handlers of the first `n` listened keys, in listening order. */
  function KeysFired(s: KeyboardState, input: KeyboardInput, t: Clock, n: nat)
    : seq<Invocation<VirtualKey, KeyboardEvent>>
    requires KeyboardStateValid(s) && n <= |s.listening|
    decreases n
  {
    if n == 0 then [] else KeysFired(s, input, t, n - 1) + KeyFired(s, input, t, s.listening[n - 1])
  }

  /** No key is listened twice. */
  predicate NoRepeats(ks: seq<VirtualKey>)
  {
    forall i, j :: 0 <= i < j < |ks| ==> ks[i] != ks[j]
  }

  /** An update that went past its first `n` keys had completed them. */
  lemma PrefixCompleted(s: KeyboardState, input: KeyboardInput, t: Clock, n: nat)
    requires KeyboardStateValid(s) && 0 < n <= |s.listening|
    requires UpdateKeysSpec(s, input, t, n).1 == Completed
    ensures UpdateKeysSpec(s, input, t, n - 1).1 == Completed
  {
  }

  /** The `n`-th listened key still finds the status stored before the update. */
  lemma {:induction false} NextKeyUntouched(s: KeyboardState, input: KeyboardInput, t: Clock, n: nat)
    requires KeyboardStateValid(s) && n < |s.listening| && NoRepeats(s.listening)
    ensures UpdateKeysSpec(s, input, t, n).0.keyMap[KeyIndex(s.listening[n])] == s.keyMap[KeyIndex(s.listening[n])]
  {
    var k := s.listening[n];
    forall j | 0 <= j < n
      ensures KeyIndex(s.listening[j]) != KeyIndex(k)
    {
      if KeyIndex(s.listening[j]) == KeyIndex(k) {
        ToI32Injective(s.listening[j], k);
      }
    }
    UpdateKeepsUnlistened(s, input, t, n, KeyIndex(k));
  }

  /**
   * A completed keyboard update over keys listened once each runs, key by
   * key in listening order, every handler of the event each key's
   * transition from the previous tick yields.
   */
  lemma {:induction false} UpdateRunsKeyHandlersInOrder(s: KeyboardState, input: KeyboardInput, t: Clock, n: nat)
    requires KeyboardStateValid(s) && n <= |s.listening| && NoRepeats(s.listening)
    requires UpdateKeysSpec(s, input, t, n).1 == Completed
    ensures UpdateKeysSpec(s, input, t, n).0.invoked == s.invoked + KeysFired(s, input, t, n)
    decreases n
  {
    if n > 0 {
      PrefixCompleted(s, input, t, n);
      UpdateRunsKeyHandlersInOrder(s, input, t, n - 1);
      NextKeyUntouched(s, input, t, n - 1);
      var s1 := UpdateKeysSpec(s, input, t, n - 1).0;
      var k := s.listening[n - 1];
      FlushKeyCompletedRunsAll(s1, t, k, MixedKeyStatus(input, s.devices, k));
    }
  }

  /**
   * The update over the first `n` keys aborted at key `m`: the keys before
   * it ran all their handlers, and key `m` ran its handlers up to and
   * including the first that failed.
   */
  predicate AbortedAt(s: KeyboardState, input: KeyboardInput, t: Clock, n: nat, m: nat)
    requires KeyboardStateValid(s) && n <= |s.listening|
  {
    && m < n
    && UpdateKeysSpec(s, input, t, m).1 == Completed
    && var k := s.listening[m];
       var e := ClassifyKey(s.keyMap[KeyIndex(k)], MixedKeyStatus(input, s.devices, k));
       UpdateKeysSpec(s, input, t, n).0.invoked ==
         s.invoked + KeysFired(s, input, t, m) + Invocations(k, e, t, InvokedCount(s.handlers[KeyIndex(k)][EventIndex(e)], t))
  }

  /** An update that completed its first `n - 1` keys and then aborted, aborted at key `n - 1`. */
  lemma AbortsAtLastKey(s: KeyboardState, input: KeyboardInput, t: Clock, n: nat)
    requires KeyboardStateValid(s) && 0 < n <= |s.listening| && NoRepeats(s.listening)
    requires UpdateKeysSpec(s, input, t, n - 1).1 == Completed
    ensures AbortedAt(s, input, t, n, n - 1)
  {
    UpdateRunsKeyHandlersInOrder(s, input, t, n - 1);
    NextKeyUntouched(s, input, t, n - 1);
  }

  /** An abort before key `n - 1` is the abort of the whole update. */
  lemma AbortCarriesOver(s: KeyboardState, input: KeyboardInput, t: Clock, n: nat, m: nat)
    requires KeyboardStateValid(s) && 0 < n <= |s.listening|
    requires UpdateKeysSpec(s, input, t, n - 1).1.Aborted?
    requires AbortedAt(s, input, t, n - 1, m)
    ensures AbortedAt(s, input, t, n, m)
  {
    assert UpdateKeysSpec(s, input, t, n) == UpdateKeysSpec(s, input, t, n - 1);
  }

  /** An update that aborts does so at some listened key, after running every handler before it. */
  lemma {:induction false} UpdateAbortRunsUpToFailure(s: KeyboardState, input: KeyboardInput, t: Clock, n: nat)
    requires KeyboardStateValid(s) && n <= |s.listening| && NoRepeats(s.listening)
    requires UpdateKeysSpec(s, input, t, n).1.Aborted?
    ensures exists m :: AbortedAt(s, input, t, n, m)
    decreases n
  {
    if UpdateKeysSpec(s, input, t, n - 1).1.Aborted? {
      UpdateAbortRunsUpToFailure(s, input, t, n - 1);
      var m :| AbortedAt(s, input, t, n - 1, m);
      AbortCarriesOver(s, input, t, n, m);
    } else {
      AbortsAtLastKey(s, input, t, n);
    }
  }

  /** Once a handler has aborted the update, later keys are not processed. */
  lemma {:induction false} UpdateAbortStays(s: KeyboardState, input: KeyboardInput, t: Clock, m: nat, n: nat)
    requires KeyboardStateValid(s) && m <= n <= |s.listening|
    requires UpdateKeysSpec(s, input, t, m).1.Aborted?
    ensures UpdateKeysSpec(s, input, t, n) == UpdateKeysSpec(s, input, t, m)
    decreases n
  {
    if n > m {
      UpdateAbortStays(s, input, t, m, n - 1);
    }
  }

  /** Some key among the first `n` listened ones has slot `i` in `key_map`. */
  predicate Listened(listening: seq<VirtualKey>, n: nat, i: nat)
    requires n <= |listening|
  {
    exists j :: 0 <= j < n && KeyIndex(listening[j]) == i
  }

  /**
   * After a completed update, the slot of every listened key holds the
   * status polled for it across the devices.
   */
  lemma {:induction false} UpdateCommitsListened(s: KeyboardState, input: KeyboardInput, t: Clock, n: nat)
    requires KeyboardStateValid(s) && n <= |s.listening|
    requires UpdateKeysSpec(s, input, t, n).1 == Completed
    ensures forall j :: 0 <= j < n ==>
      UpdateKeysSpec(s, input, t, n).0.keyMap[KeyIndex(s.listening[j])] ==
        MixedKeyStatus(input, s.devices, s.listening[j])
    decreases n
  {
    if n > 0 {
      UpdateCommitsListened(s, input, t, n - 1);
      var r := UpdateKeysSpec(s, input, t, n).0;
      forall j | 0 <= j < n
        ensures r.keyMap[KeyIndex(s.listening[j])] == MixedKeyStatus(input, s.devices, s.listening[j])
      {
        if j < n - 1 && KeyIndex(s.listening[j]) == KeyIndex(s.listening[n - 1]) {
          ToI32Injective(s.listening[j], s.listening[n - 1]);
        }
      }
    }
  }

  /** An update, completed or not, leaves the slots of unlistened keys as they were. */
  lemma {:induction false} UpdateKeepsUnlistened(s: KeyboardState, input: KeyboardInput, t: Clock, n: nat, i: nat)
    requires KeyboardStateValid(s) && n <= |s.listening| && i < KeyCount
    requires !Listened(s.listening, n, i)
    ensures UpdateKeysSpec(s, input, t, n).0.keyMap[i] == s.keyMap[i]
    decreases n
  {
    if n > 0 {
      assert !Listened(s.listening, n - 1, i);
      UpdateKeepsUnlistened(s, input, t, n - 1, i);
      assert KeyIndex(s.listening[n - 1]) != i;
    }
  }

  /**
   * With one key listened on the generic keyboard and its slot Released,
   * pressing it and then releasing it runs that key's FirstPressed handlers
   * on the first tick and its Typed handlers on the second, and no others.
   */
  lemma PressThenReleaseScenario(s: KeyboardState, k: VirtualKey, press: KeyboardInput, release: KeyboardInput,
                                 t1: Clock, t2: Clock)
    requires KeyboardStateValid(s) && s.listening == [k] && s.devices == [GenericKeyboard]
    requires s.keyMap[KeyIndex(k)] == Released
    requires GenericKeyboardCheck(press, k) == KeyStatus.Pressed
    requires GenericKeyboardCheck(release, k) == Released
    requires forall t, i :: 0 <= i < |s.handlers[KeyIndex(k)][EventIndex(FirstPressed)]| ==>
      s.handlers[KeyIndex(k)][EventIndex(FirstPressed)][i](t).Done?
    requires forall t, i :: 0 <= i < |s.handlers[KeyIndex(k)][EventIndex(Typed)]| ==>
      s.handlers[KeyIndex(k)][EventIndex(Typed)][i](t).Done?
    ensures var r1 := UpdateKeysSpec(s, press, t1, 1);
      var r2 := UpdateKeysSpec(r1.0, release, t2, 1);
      && r1.1 == Completed && r2.1 == Completed
      && r2.0.keyMap[KeyIndex(k)] == Released
      && r2.0.invoked == s.invoked
        + Invocations(k, FirstPressed, t1, |s.handlers[KeyIndex(k)][EventIndex(FirstPressed)]|)
        + Invocations(k, Typed, t2, |s.handlers[KeyIndex(k)][EventIndex(Typed)]|)
  {
    assert MixedKeyStatus(press, s.devices, k) == KeyStatus.Pressed;
    assert MixedKeyStatus(release, s.devices, k) == Released by {
      assert VkeyInputCheck(release, s.devices[0], k) == Released;
    }
  }

  /** The handler table `new` and `new_masked` start from: every list empty. */
  method EmptyHandlerTable() returns (events: seq<seq<seq<Handler>>>)
    ensures |events| == KeyCount
    ensures forall i :: 0 <= i < KeyCount ==> |events[i]| == EventCount
    ensures forall i, j :: 0 <= i < KeyCount && 0 <= j < EventCount ==> events[i][j] == []
  {
    events := [];
    var v := 0;
    while v < KeyCount
      invariant 0 <= v <= KeyCount && |events| == v
      invariant forall i :: 0 <= i < v ==> |events[i]| == EventCount
      invariant forall i, j :: 0 <= i < v && 0 <= j < EventCount ==> events[i][j] == []
    {
      var tmp: seq<seq<Handler>> := [];
      var e := 0;
      while e < EventCount
        invariant 0 <= e <= EventCount && |tmp| == e
        invariant forall j :: 0 <= j < e ==> tmp[j] == []
      {
        tmp := tmp + [[]];
        e := e + 1;
      }
      events := events + [tmp];
      v := v + 1;
    }
  }

  class KeyboardListener {
    var devices: seq<KeyInputDevice>
    var listening: seq<VirtualKey>
    /** One stored status per virtual key, indexed by the key's code. */
    const keyMap: array<KeyStatus>
    var eventHandlers: seq<seq<seq<Handler>>>
    var invoked: seq<Invocation<VirtualKey, KeyboardEvent>>

    function State(): KeyboardState
      reads this, keyMap
    {
      KeyboardState(devices, listening, keyMap[..], eventHandlers, invoked)
    }

    ghost predicate Valid()
      reads this, keyMap
    {
      KeyboardStateValid(State())
    }

    /** `new`: every key Released, every key listened in code order, no handlers. */
    constructor New(devices: seq<KeyInputDevice>)
      ensures Valid() && fresh(keyMap)
      ensures this.devices == devices && invoked == []
      ensures forall i :: 0 <= i < KeyCount ==> keyMap[i] == Released
      ensures forall i, j :: 0 <= i < KeyCount && 0 <= j < EventCount ==> eventHandlers[i][j] == []
      ensures |listening| == KeyCount && forall i :: 0 <= i < KeyCount ==> listening[i] == FromI32(i)
      ensures forall k :: listening[KeyIndex(k)] == k
    {
      this.devices := devices;
      keyMap := new KeyStatus[KeyCount](_ => Released);
      var events := EmptyHandlerTable();
      eventHandlers := events;
      var ls: seq<VirtualKey> := [];
      var vkeyRaw := 0;
      while vkeyRaw < KeyCount
        invariant 0 <= vkeyRaw <= KeyCount && |ls| == vkeyRaw
        invariant forall i :: 0 <= i < vkeyRaw ==> ls[i] == FromI32(i)
      {
        ls := ls + [FromI32(vkeyRaw)];
        vkeyRaw := vkeyRaw + 1;
      }
      listening := ls;
      invoked := [];
      new;
      forall k ensures listening[KeyIndex(k)] == k {
        FromI32RoundTrip(k);
      }
    }

    /** `new_masked`: as `new`, but listening to exactly the given keys, in the given order. */
    constructor NewMasked(devices: seq<KeyInputDevice>, listening: seq<VirtualKey>)
      ensures Valid() && fresh(keyMap)
      ensures this.devices == devices && this.listening == listening && invoked == []
      ensures forall i :: 0 <= i < KeyCount ==> keyMap[i] == Released
      ensures forall i, j :: 0 <= i < KeyCount && 0 <= j < EventCount ==> eventHandlers[i][j] == []
    {
      this.devices := devices;
      this.listening := listening;
      keyMap := new KeyStatus[KeyCount](_ => Released);
      var events := EmptyHandlerTable();
      eventHandlers := events;
      invoked := [];
    }

    /** Appends `f` to the handlers of (`key`, `event`); every slot exists, so this never fails. */
    method RegisterEventHandler(key: VirtualKey, event: KeyboardEvent, f: Handler)
      requires Valid()
      modifies this
      ensures Valid()
      ensures State() == old(State()).(handlers := old(eventHandlers)[KeyIndex(key) :=
        old(eventHandlers)[KeyIndex(key)][EventIndex(event) := old(eventHandlers)[KeyIndex(key)][EventIndex(event)] + [f]]])
    {
      var perKey := eventHandlers[KeyIndex(key)];
      eventHandlers := eventHandlers[KeyIndex(key) := perKey[EventIndex(event) := perKey[EventIndex(event)] + [f]]];
    }

    method FlushKeyEvent(t: Clock, vkey: VirtualKey, current: KeyStatus) returns (o: Outcome)
      requires Valid()
      modifies this
      ensures (State(), o) == FlushKeySpec(old(State()), t, vkey, current)
    {
      var event := ClassifyKey(keyMap[KeyIndex(vkey)], current);
      var calls;
      calls, o := DispatchHandlers(eventHandlers[KeyIndex(vkey)][EventIndex(event)], vkey, event, t);
      invoked := invoked + calls;
    }

    /** `current_key_status`: the first device reporting Pressed decides. */
    method CurrentKeyStatus(input: KeyboardInput, vkey: VirtualKey) returns (r: KeyStatus)
      ensures r == MixedKeyStatus(input, devices, vkey)
    {
      var i := 0;
      while i < |devices|
        invariant 0 <= i <= |devices|
        invariant forall j :: 0 <= j < i ==> VkeyInputCheck(input, devices[j], vkey) != KeyStatus.Pressed
      {
        if VkeyInputCheck(input, devices[i], vkey) == KeyStatus.Pressed {
          return KeyStatus.Pressed;
        }
        i := i + 1;
      }
      r := Released;
    }

    /** `update`: for each listened key in order, poll, flush, then commit its status. */
    method Update(input: KeyboardInput, t: Clock) returns (o: Outcome)
      requires Valid()
      modifies this, keyMap
      ensures (State(), o) == UpdateKeysSpec(old(State()), input, t, |old(listening)|)
    {
      var i := 0;
      while i < |listening|
        invariant Valid()
        invariant listening == old(listening) && devices == old(devices)
        invariant 0 <= i <= |listening|
        invariant UpdateKeysSpec(old(State()), input, t, i) == (State(), Completed)
      {
        var vkey := listening[i];
        var current := CurrentKeyStatus(input, vkey);
        o := FlushKeyEvent(t, vkey, current);
        if o.Aborted? {
          UpdateAbortStays(old(State()), input, t, i + 1, |listening|);
          return;
        }
        keyMap[KeyIndex(vkey)] := current;
        i := i + 1;
      }
      o := Completed;
    }
  }

  /* ---------------- Programmable key table ---------------- */

  /** The default real-to-virtual table of `ProgramableGenericKey::new`. */
  const DefaultKeyConfig: map<KeyCode, VirtualKey> := map[
    KeyCode.Left := VirtualKey.Left, KeyCode.Right := VirtualKey.Right,
    KeyCode.Up := VirtualKey.Up, KeyCode.Down := VirtualKey.Down,
    A := LeftSub, D := RightSub, W := UpSub, S := DownSub,
    J := LeftSubSub, L := RightSubSub, I := UpSubSub, K := DownSubSub,
    Z := Action1, X := Action2, C := Action3, V := Action4,
    N := Action5, M := Action6, Comma := Action7, Period := Action8]

  /**
   * The default table binds each real key to the virtual key the generic
   * keyboard reads from that real key, so it is one-to-one; the modifier
   * keys and Unknown have no entry.
   */
  lemma DefaultConfigMatchesGenericKeyboard()
    ensures forall r :: r in DefaultKeyConfig ==> GenericBinding(DefaultKeyConfig[r]) == KeyBinding(r)
    ensures forall r1, r2 :: r1 in DefaultKeyConfig && r2 in DefaultKeyConfig && DefaultKeyConfig[r1] == DefaultKeyConfig[r2] ==> r1 == r2
    ensures forall r :: r in DefaultKeyConfig ==> DefaultKeyConfig[r] != VirtualKey.Unknown && !GenericBinding(DefaultKeyConfig[r]).ModBinding?
  {
    forall r | r in DefaultKeyConfig
      ensures GenericBinding(DefaultKeyConfig[r]) == KeyBinding(r)
    {
      match r
      case Left =>
      case Right =>
      case Up =>
      case Down =>
      case A =>
      case D =>
      case W =>
      case S =>
      case J =>
      case L =>
      case I =>
      case K =>
      case Z =>
      case X =>
      case C =>
      case V =>
      case N =>
      case M =>
      case Comma =>
      case Period =>
      case OtherKey(_) =>
    }
  }

  class ProgramableGenericKey {
    var keyMap: map<KeyCode, VirtualKey>

    constructor ()
      ensures keyMap == DefaultKeyConfig
    {
      keyMap := DefaultKeyConfig;
    }

    /** `update_config`: binds `realKey` to `virt`, replacing any earlier binding of that key. */
    method UpdateConfig(realKey: KeyCode, virt: VirtualKey)
      modifies this
      ensures keyMap == old(keyMap)[realKey := virt]
      ensures RealToVirtual(realKey) == virt
    {
      keyMap := keyMap[realKey := virt];
    }

    /** `real_to_virtual`: the bound virtual key, or Unknown for an unbound real key. */
    function RealToVirtual(realKey: KeyCode): (v: VirtualKey)
      reads this
      ensures realKey in keyMap ==> v == keyMap[realKey]
      ensures realKey !in keyMap ==> v == VirtualKey.Unknown
    {
      if realKey in keyMap then keyMap[realKey] else VirtualKey.Unknown
    }

    /**
     * `virtual_to_real`: some real key bound to `virt`, found by a scan in
     * the table's unspecified iteration order; panics when there is none.
     */
    method VirtualToReal(virt: VirtualKey) returns (r: Result<KeyCode>)
      ensures r.Ok? ==> r.value in keyMap && keyMap[r.value] == virt
      ensures r.Panic? <==> forall k :: k in keyMap ==> keyMap[k] != virt
    {
      var unseen := keyMap.Keys;
      while unseen != {}
        invariant unseen <= keyMap.Keys
        invariant forall k :: k in keyMap && k !in unseen ==> keyMap[k] != virt
        decreases |unseen|
      {
        var k :| k in unseen;
        if keyMap[k] == virt {
          return Ok(k);
        }
        unseen := unseen - {k};
      }
      r := Panic("Non implemented virtual Key");
    }
  }
}
