/**
 * The older revision of the input listeners (src/device/mod.rs).
 *
 * It differs from the later one in four ways: the mouse has no Dragged
 * event and fires only when a status changes; `check_button` polls the
 * left button whatever button it is asked about; handlers take no
 * arguments and return an `i32` that is ignored, so nothing aborts; and
 * the keyboard event enum has an extra `NumberOfKeyboardEvent` variant
 * before `Unknown`, so each key has six handler slots.
 *
 * The virtual keys, key statuses, devices and the generic keyboard layout
 * are identical in both revisions and are taken from `Device`.
 */
module LegacyDevice {
  import opened Base
  import opened Device

  /** A registered `Fn() -> i32`; its result is ignored. */
  type LegacyHandler = () -> int

  /** One invocation of the `index`-th handler of (`input`, `event`). */
  datatype Call<K, E> = Call(input: K, event: E, index: nat)

  function Calls<K, E>(input: K, event: E, n: nat): seq<Call<K, E>>
  {
    if n == 0 then [] else Calls(input, event, n - 1) + [Call(input, event, n - 1)]
  }

  /** The handler loop of both listeners: every handler runs, whatever it returns. */
  method RunHandlers<K, E>(hs: seq<LegacyHandler>, input: K, event: E) returns (calls: seq<Call<K, E>>)
    ensures calls == Calls(input, event, |hs|)
  {
    calls := [];
    for i := 0 to |hs|
      invariant calls == Calls(input, event, i)
    {
      var _ := hs[i]();
      calls := calls + [Call(input, event, i)];
    }
  }

  /* ---------------- Mouse ---------------- */

  datatype LegacyMouseEvent = Clicked | Pressed

  ghost predicate HasLegacyEvents<V>(m: map<LegacyMouseEvent, V>)
  {
    forall e :: e in m
  }

  lemma TwoEventsCover<V>(m: map<LegacyMouseEvent, V>)
    requires LegacyMouseEvent.Clicked in m && LegacyMouseEvent.Pressed in m
    ensures HasLegacyEvents(m)
  {
    forall e ensures e in m {
      match e
      case Clicked =>
      case Pressed =>
    }
  }

  /** `check_button`: asks the host about the left button, whichever button is passed. */
  function LegacyCheckButton(input: MouseInput, button: MouseButton): MouseButtonStatus
  {
    if MouseButton.Left in input.pressed then MousePressed else MouseReleased
  }

  /** Every button reads the left button's status. */
  lemma CheckButtonIgnoresButton(input: MouseInput, b: MouseButton)
    ensures LegacyCheckButton(input, b) == CheckButton(input, MouseButton.Left)
  {
  }

  /** An event fires only on a change: Pressed if now pressed, Clicked if now released. */
  function LegacyClassifyMouse(previous: MouseButtonStatus, current: MouseButtonStatus): (r: Option<LegacyMouseEvent>)
    ensures r.Some? <==> previous != current
    ensures r == Some(LegacyMouseEvent.Pressed) <==> previous != current && current == MousePressed
    ensures r == Some(LegacyMouseEvent.Clicked) <==> previous != current && current == MouseReleased
  {
    if current != previous then
      match current
      case MousePressed => Some(LegacyMouseEvent.Pressed)
      case MouseReleased => Some(LegacyMouseEvent.Clicked)
    else None
  }

  datatype LegacyMouseState = LegacyMouseState(
    lastClicked: map<MouseButton, Point>,
    buttonMap: map<MouseButton, MouseButtonStatus>,
    handlers: map<MouseButton, map<LegacyMouseEvent, seq<LegacyHandler>>>,
    invoked: seq<Call<MouseButton, LegacyMouseEvent>>)

  ghost predicate LegacyMouseStateValid(s: LegacyMouseState)
  {
    && HasTracked(s.lastClicked)
    && HasTracked(s.buttonMap)
    && HasTracked(s.handlers)
    && HasLegacyEvents(s.handlers[MouseButton.Left])
    && HasLegacyEvents(s.handlers[MouseButton.Middle])
    && HasLegacyEvents(s.handlers[MouseButton.Right])
  }

  const NoLegacyMouseHandlers: map<LegacyMouseEvent, seq<LegacyHandler>> :=
    map[LegacyMouseEvent.Clicked := [], LegacyMouseEvent.Pressed := []]

  /** The state `MouseListener::new` builds. */
  function InitialLegacyMouseState(): (s: LegacyMouseState)
    ensures LegacyMouseStateValid(s)
    ensures forall b :: Tracked(b) ==> s.buttonMap[b] == MouseReleased && s.lastClicked[b] == Origin
    ensures forall b :: Tracked(b) ==> s.handlers[b] == NoLegacyMouseHandlers
    ensures s.invoked == []
  {
    var s := LegacyMouseState(
      map[MouseButton.Left := Origin, MouseButton.Middle := Origin, MouseButton.Right := Origin],
      map[MouseButton.Left := MouseReleased, MouseButton.Middle := MouseReleased, MouseButton.Right := MouseReleased],
      map[MouseButton.Left := NoLegacyMouseHandlers, MouseButton.Middle := NoLegacyMouseHandlers,
          MouseButton.Right := NoLegacyMouseHandlers],
      []);
    TwoEventsCover(NoLegacyMouseHandlers);
    ThreeButtonsCover(s.lastClicked);
    ThreeButtonsCover(s.buttonMap);
    ThreeButtonsCover(s.handlers);
    s
  }

  /** The calls a flush of `button` makes: none without a change, else every handler of the event. */
  function LegacyFired(s: LegacyMouseState, button: MouseButton, current: MouseButtonStatus)
    : seq<Call<MouseButton, LegacyMouseEvent>>
    requires LegacyMouseStateValid(s) && Tracked(button)
  {
    match LegacyClassifyMouse(s.buttonMap[button], current)
    case None => []
    case Some(e) => Calls(button, e, |s.handlers[button][e]|)
  }

  /** `__flush_button_event`: on a change, a click records the cursor and the event's handlers all run. */
  function LegacyFlushSpec(s: LegacyMouseState, position: Point, button: MouseButton,
                           current: MouseButtonStatus): (r: LegacyMouseState)
    requires LegacyMouseStateValid(s) && Tracked(button)
    ensures LegacyMouseStateValid(r)
    ensures r.buttonMap == s.buttonMap && r.handlers == s.handlers
    ensures r.invoked == s.invoked + LegacyFired(s, button, current)
  {
    match LegacyClassifyMouse(s.buttonMap[button], current)
    case None => s
    case Some(event) =>
      var clicked := if event == LegacyMouseEvent.Clicked then s.lastClicked[button := position] else s.lastClicked;
      s.(lastClicked := clicked,
         invoked := s.invoked + Calls(button, event, |s.handlers[button][event]|))
  }

  /** `update`: flush the three buttons against the stored statuses, then commit; always `Ok(())`. */
  function LegacyUpdateMouseSpec(s: LegacyMouseState, input: MouseInput): (r: LegacyMouseState)
    requires LegacyMouseStateValid(s)
    ensures LegacyMouseStateValid(r)
    ensures r.handlers == s.handlers
  {
    var l := LegacyCheckButton(input, MouseButton.Left);
    var m := LegacyCheckButton(input, MouseButton.Middle);
    var rt := LegacyCheckButton(input, MouseButton.Right);
    var s1 := LegacyFlushSpec(s, input.position, MouseButton.Left, l);
    var s2 := LegacyFlushSpec(s1, input.position, MouseButton.Middle, m);
    var s3 := LegacyFlushSpec(s2, input.position, MouseButton.Right, rt);
    s3.(buttonMap := s3.buttonMap[MouseButton.Left := l][MouseButton.Middle := m][MouseButton.Right := rt])
  }

  class LegacyMouseListener {
    var lastClicked: map<MouseButton, Point>
    var buttonMap: map<MouseButton, MouseButtonStatus>
    var eventHandlers: map<MouseButton, map<LegacyMouseEvent, seq<LegacyHandler>>>
    var invoked: seq<Call<MouseButton, LegacyMouseEvent>>

    function State(): LegacyMouseState
      reads this
    {
      LegacyMouseState(lastClicked, buttonMap, eventHandlers, invoked)
    }

    ghost predicate Valid()
      reads this
    {
      LegacyMouseStateValid(State())
    }

    constructor ()
      ensures State() == InitialLegacyMouseState()
      ensures Valid()
    {
      buttonMap := map[MouseButton.Left := MouseReleased, MouseButton.Middle := MouseReleased,
                       MouseButton.Right := MouseReleased];
      eventHandlers := map[MouseButton.Left := NoLegacyMouseHandlers, MouseButton.Middle := NoLegacyMouseHandlers,
                           MouseButton.Right := NoLegacyMouseHandlers];
      lastClicked := map[MouseButton.Left := Origin, MouseButton.Middle := Origin, MouseButton.Right := Origin];
      invoked := [];
    }

    method RegisterEventHandler(button: MouseButton, event: LegacyMouseEvent, f: LegacyHandler) returns (o: Outcome)
      requires Valid()
      modifies this
      ensures Valid()
      ensures Tracked(button) ==>
        o == Completed &&
        State() == old(State()).(handlers := old(eventHandlers)[button := old(eventHandlers)[button][event := old(eventHandlers)[button][event] + [f]]])
      ensures !Tracked(button) ==> o.Aborted? && State() == old(State())
    {
      if button !in eventHandlers {
        o := Aborted("called `Option::unwrap()` on a `None` value");
        return;
      }
      var perEvent := eventHandlers[button];
      eventHandlers := eventHandlers[button := perEvent[event := perEvent[event] + [f]]];
      o := Completed;
    }

    function GetLastClicked(button: MouseButton): (r: Result<Point>)
      requires Valid()
      reads this
      ensures r.Ok? <==> Tracked(button)
      ensures r.Ok? ==> r.value == lastClicked[button]
    {
      match button
      case Left => Ok(lastClicked[button])
      case Middle => Ok(lastClicked[button])
      case Right => Ok(lastClicked[button])
      case Other(_) => Panic("Other MouseButton is detected!!")
    }

    method FlushButtonEvent(position: Point, button: MouseButton, current: MouseButtonStatus)
      requires Valid() && Tracked(button)
      modifies this
      ensures State() == LegacyFlushSpec(old(State()), position, button, current)
    {
      if current != buttonMap[button] {
        var event := if current == MousePressed then LegacyMouseEvent.Pressed else LegacyMouseEvent.Clicked;
        if event == LegacyMouseEvent.Clicked {
          lastClicked := lastClicked[button := position];
        }
        var calls := RunHandlers(eventHandlers[button][event], button, event);
        invoked := invoked + calls;
      }
    }

    method Update(input: MouseInput, t: Clock) returns (r: Result<()>)
      requires Valid()
      modifies this
      ensures State() == LegacyUpdateMouseSpec(old(State()), input)
      ensures r == Ok(())
    {
      var l := LegacyCheckButton(input, MouseButton.Left);
      var m := LegacyCheckButton(input, MouseButton.Middle);
      var rt := LegacyCheckButton(input, MouseButton.Right);
      FlushButtonEvent(input.position, MouseButton.Left, l);
      FlushButtonEvent(input.position, MouseButton.Middle, m);
      FlushButtonEvent(input.position, MouseButton.Right, rt);
      buttonMap := buttonMap[MouseButton.Left := l][MouseButton.Middle := m][MouseButton.Right := rt];
      r := Ok(());
    }
  }

  /** After an update all three stored statuses are the left button's polled status. */
  lemma LegacyUpdateCommitsLeftStatus(s: LegacyMouseState, input: MouseInput)
    requires LegacyMouseStateValid(s)
    ensures forall b :: Tracked(b) ==>
      LegacyUpdateMouseSpec(s, input).buttonMap[b] == CheckButton(input, MouseButton.Left)
  {
  }

  /**
   * An update runs, in this order, every handler of Left's event, then of
   * Middle's, then of Right's; each button fires only if its stored status
   * differs from the left button's poll.
   */
  lemma LegacyUpdateRunsHandlersInOrder(s: LegacyMouseState, input: MouseInput)
    requires LegacyMouseStateValid(s)
    ensures var l := CheckButton(input, MouseButton.Left);
      LegacyUpdateMouseSpec(s, input).invoked == s.invoked
        + LegacyFired(s, MouseButton.Left, l) + LegacyFired(s, MouseButton.Middle, l) + LegacyFired(s, MouseButton.Right, l)
  {
    var l := LegacyCheckButton(input, MouseButton.Left);
    var s1 := LegacyFlushSpec(s, input.position, MouseButton.Left, l);
    var s2 := LegacyFlushSpec(s1, input.position, MouseButton.Middle, l);
    assert LegacyFired(s1, MouseButton.Middle, l) == LegacyFired(s, MouseButton.Middle, l);
    assert LegacyFired(s2, MouseButton.Right, l) == LegacyFired(s, MouseButton.Right, l);
  }

  /** When no stored status differs from the poll, no handler runs and nothing else changes. */
  lemma LegacyUnchangedFiresNothing(s: LegacyMouseState, input: MouseInput)
    requires LegacyMouseStateValid(s)
    requires forall b :: Tracked(b) ==> s.buttonMap[b] == CheckButton(input, MouseButton.Left)
    ensures LegacyUpdateMouseSpec(s, input).invoked == s.invoked
    ensures LegacyUpdateMouseSpec(s, input).lastClicked == s.lastClicked
  {
    var l := LegacyCheckButton(input, MouseButton.Left);
    var s1 := LegacyFlushSpec(s, input.position, MouseButton.Left, l);
    var s2 := LegacyFlushSpec(s1, input.position, MouseButton.Middle, l);
    assert s1 == s;
    assert s2 == s;
  }

  /**
   * A button stored as pressed is clicked at the cursor once the left
   * button is polled released; a button stored as released keeps its
   * last click.
   */
  lemma LegacyUpdateRecordsClick(s: LegacyMouseState, input: MouseInput, b: MouseButton)
    requires LegacyMouseStateValid(s) && Tracked(b)
    ensures LegacyUpdateMouseSpec(s, input).lastClicked[b] ==
      if s.buttonMap[b] == MousePressed && MouseButton.Left !in input.pressed then input.position
      else s.lastClicked[b]
  {
    var l := LegacyCheckButton(input, MouseButton.Left);
    var m := LegacyCheckButton(input, MouseButton.Middle);
    var rt := LegacyCheckButton(input, MouseButton.Right);
    var s1 := LegacyFlushSpec(s, input.position, MouseButton.Left, l);
    var s2 := LegacyFlushSpec(s1, input.position, MouseButton.Middle, m);
    var s3 := LegacyFlushSpec(s2, input.position, MouseButton.Right, rt);
    LegacyFlushRecordsClick(s, input.position, MouseButton.Left, l, b);
    LegacyFlushRecordsClick(s1, input.position, MouseButton.Middle, m, b);
    LegacyFlushRecordsClick(s2, input.position, MouseButton.Right, rt, b);
    assert LegacyUpdateMouseSpec(s, input).lastClicked == s3.lastClicked;
  }

  /** One flush moves the last click of `b` to the cursor exactly when `b` is the flushed button and it was released. */
  lemma LegacyFlushRecordsClick(s: LegacyMouseState, position: Point, button: MouseButton, current: MouseButtonStatus,
                                b: MouseButton)
    requires LegacyMouseStateValid(s) && Tracked(button) && Tracked(b)
    ensures LegacyFlushSpec(s, position, button, current).lastClicked[b] ==
      if b == button && s.buttonMap[b] == MousePressed && current == MouseReleased then position else s.lastClicked[b]
  {
  }

  /* ---------------- Keyboard ---------------- */

  datatype LegacyKeyboardEvent = Typed | FirstPressed | KeepPressed | KeepReleased | NumberOfKeyboardEvent | Unknown

  function LegacyEventIndex(e: LegacyKeyboardEvent): (i: nat)
    ensures i <= 5
  {
    match e
    case Typed => 0
    case FirstPressed => 1
    case KeepPressed => 2
    case KeepReleased => 3
    case NumberOfKeyboardEvent => 4
    case Unknown => 5
  }

  /** Six handler slots per key: `KeyboardEvent::Unknown as i32 + 1`. */
  const LegacyEventCount: nat := LegacyEventIndex(LegacyKeyboardEvent.Unknown) + 1

  /** The event of the later revision with the same name. */
  function Renamed(e: LegacyKeyboardEvent): Option<KeyboardEvent>
  {
    match e
    case Typed => Some(KeyboardEvent.Typed)
    case FirstPressed => Some(KeyboardEvent.FirstPressed)
    case KeepPressed => Some(KeyboardEvent.KeepPressed)
    case KeepReleased => Some(KeyboardEvent.KeepReleased)
    case NumberOfKeyboardEvent => None
    case Unknown => Some(KeyboardEvent.Unknown)
  }

  function LegacyClassifyKey(previous: KeyStatus, current: KeyStatus): (e: LegacyKeyboardEvent)
    ensures e != NumberOfKeyboardEvent
  {
    if current != previous then
      match current
      case Pressed => LegacyKeyboardEvent.FirstPressed
      case Released => LegacyKeyboardEvent.Typed
      case Unknown => LegacyKeyboardEvent.Unknown
    else
      match current
      case Pressed => LegacyKeyboardEvent.KeepPressed
      case Released => LegacyKeyboardEvent.KeepReleased
      case Unknown => LegacyKeyboardEvent.Unknown
  }

  /** Both revisions classify key transitions identically (modulo the renaming). */
  lemma LegacyClassifyMatchesLaterRevision(previous: KeyStatus, current: KeyStatus)
    ensures Renamed(LegacyClassifyKey(previous, current)) == Some(ClassifyKey(previous, current))
  {
  }

  datatype LegacyKeyboardState = LegacyKeyboardState(
    devices: seq<KeyInputDevice>,
    listening: seq<VirtualKey>,
    keyMap: seq<KeyStatus>,
    handlers: seq<seq<seq<LegacyHandler>>>,
    invoked: seq<Call<VirtualKey, LegacyKeyboardEvent>>)

  predicate LegacyKeyboardStateValid(s: LegacyKeyboardState)
  {
    && |s.keyMap| == KeyCount
    && |s.handlers| == KeyCount
    && forall i :: 0 <= i < |s.handlers| ==> |s.handlers[i]| == LegacyEventCount
  }

  function LegacyFlushKeySpec(s: LegacyKeyboardState, vkey: VirtualKey, current: KeyStatus): (r: LegacyKeyboardState)
    requires LegacyKeyboardStateValid(s)
    ensures r == s.(invoked := r.invoked)
    ensures var e := LegacyClassifyKey(s.keyMap[KeyIndex(vkey)], current);
      r.invoked == s.invoked + Calls(vkey, e, |s.handlers[KeyIndex(vkey)][LegacyEventIndex(e)]|)
  {
    var event := LegacyClassifyKey(s.keyMap[KeyIndex(vkey)], current);
    s.(invoked := s.invoked + Calls(vkey, event, |s.handlers[KeyIndex(vkey)][LegacyEventIndex(event)]|))
  }

  /** The keyboard `update` after its first `n` listened keys; it cannot fail. */
  function LegacyUpdateKeysSpec(s: LegacyKeyboardState, input: KeyboardInput, n: nat): (r: LegacyKeyboardState)
    requires LegacyKeyboardStateValid(s) && n <= |s.listening|
    ensures LegacyKeyboardStateValid(r)
    ensures r.devices == s.devices && r.listening == s.listening && r.handlers == s.handlers
    decreases n
  {
    if n == 0 then s
    else
      var s1 := LegacyUpdateKeysSpec(s, input, n - 1);
      var vkey := s.listening[n - 1];
      var current := MixedKeyStatus(input, s.devices, vkey);
      var s2 := LegacyFlushKeySpec(s1, vkey, current);
      s2.(keyMap := s2.keyMap[KeyIndex(vkey) := current])
  }

  /** The calls a flush of `k` makes, classified against the status stored in `s`. */
  function LegacyKeyFired(s: LegacyKeyboardState, input: KeyboardInput, k: VirtualKey)
    : seq<Call<VirtualKey, LegacyKeyboardEvent>>
    requires LegacyKeyboardStateValid(s)
  {
    var e := LegacyClassifyKey(s.keyMap[KeyIndex(k)], MixedKeyStatus(input, s.devices, k));
    Calls(k, e, |s.handlers[KeyIndex(k)][LegacyEventIndex(e)]|)
  }

  /** The calls of the first `n` listened keys, in listening order. */
  function LegacyKeysFired(s: LegacyKeyboardState, input: KeyboardInput, n: nat)
    : seq<Call<VirtualKey, LegacyKeyboardEvent>>
    requires LegacyKeyboardStateValid(s) && n <= |s.listening|
    decreases n
  {
    if n == 0 then [] else LegacyKeysFired(s, input, n - 1) + LegacyKeyFired(s, input, s.listening[n - 1])
  }

  /** The `n`-th listened key still finds the status stored before the update. */
  lemma {:induction false} LegacyNextKeyUntouched(s: LegacyKeyboardState, input: KeyboardInput, n: nat)
    requires LegacyKeyboardStateValid(s) && n < |s.listening| && NoRepeats(s.listening)
    ensures LegacyUpdateKeysSpec(s, input, n).keyMap[KeyIndex(s.listening[n])] == s.keyMap[KeyIndex(s.listening[n])]
  {
    var k := s.listening[n];
    forall j | 0 <= j < n
      ensures KeyIndex(s.listening[j]) != KeyIndex(k)
    {
      if KeyIndex(s.listening[j]) == KeyIndex(k) {
        ToI32Injective(s.listening[j], k);
      }
    }
    LegacyUpdateKeepsUnlistened(s, input, n, KeyIndex(k));
  }

  /** A flush of `k` from a state that agrees with `s` on `k`'s slot, the devices and the handlers appends `k`'s calls in `s`. */
  lemma LegacyFlushAppendsFired(s1: LegacyKeyboardState, s: LegacyKeyboardState, input: KeyboardInput, k: VirtualKey)
    requires LegacyKeyboardStateValid(s1) && LegacyKeyboardStateValid(s)
    requires s1.keyMap[KeyIndex(k)] == s.keyMap[KeyIndex(k)] && s1.devices == s.devices && s1.handlers == s.handlers
    ensures LegacyFlushKeySpec(s1, k, MixedKeyStatus(input, s.devices, k)).invoked == s1.invoked + LegacyKeyFired(s, input, k)
  {
  }

  /** Processing key `n - 1` appends its calls, classified against the status stored before the update. */
  lemma LegacyUpdateStep(s: LegacyKeyboardState, input: KeyboardInput, n: nat)
    requires LegacyKeyboardStateValid(s) && 0 < n <= |s.listening| && NoRepeats(s.listening)
    ensures LegacyUpdateKeysSpec(s, input, n).invoked
         == LegacyUpdateKeysSpec(s, input, n - 1).invoked + LegacyKeyFired(s, input, s.listening[n - 1])
  {
    var k := s.listening[n - 1];
    var s1 := LegacyUpdateKeysSpec(s, input, n - 1);
    LegacyNextKeyUntouched(s, input, n - 1);
    LegacyFlushAppendsFired(s1, s, input, k);
    assert LegacyUpdateKeysSpec(s, input, n).invoked == LegacyFlushKeySpec(s1, k, MixedKeyStatus(input, s.devices, k)).invoked;
  }

  /**
   * An update over keys listened once each runs, key by key in listening
   * order, every handler of the event each key's transition yields.
   */
  lemma {:induction false} LegacyUpdateRunsKeyHandlersInOrder(s: LegacyKeyboardState, input: KeyboardInput, n: nat)
    requires LegacyKeyboardStateValid(s) && n <= |s.listening| && NoRepeats(s.listening)
    ensures LegacyUpdateKeysSpec(s, input, n).invoked == s.invoked + LegacyKeysFired(s, input, n)
    decreases n
  {
    if n > 0 {
      LegacyUpdateRunsKeyHandlersInOrder(s, input, n - 1);
      LegacyNextKeyUntouched(s, input, n - 1);
      var s1 := LegacyUpdateKeysSpec(s, input, n - 1);
      var k := s.listening[n - 1];
      LegacyFlushAppendsFired(s1, s, input, k);
    }
  }

  /** After an update the slot of every listened key holds its polled status. */
  lemma {:induction false} LegacyUpdateCommitsListened(s: LegacyKeyboardState, input: KeyboardInput, n: nat)
    requires LegacyKeyboardStateValid(s) && n <= |s.listening|
    ensures forall j :: 0 <= j < n ==>
      LegacyUpdateKeysSpec(s, input, n).keyMap[KeyIndex(s.listening[j])] ==
        MixedKeyStatus(input, s.devices, s.listening[j])
    decreases n
  {
    if n > 0 {
      LegacyUpdateCommitsListened(s, input, n - 1);
      var r := LegacyUpdateKeysSpec(s, input, n);
      forall j | 0 <= j < n
        ensures r.keyMap[KeyIndex(s.listening[j])] == MixedKeyStatus(input, s.devices, s.listening[j])
      {
        if j < n - 1 && KeyIndex(s.listening[j]) == KeyIndex(s.listening[n - 1]) {
          ToI32Injective(s.listening[j], s.listening[n - 1]);
        }
      }
    }
  }

  /** An update leaves the slots of unlistened keys as they were. */
  lemma {:induction false} LegacyUpdateKeepsUnlistened(s: LegacyKeyboardState, input: KeyboardInput, n: nat, i: nat)
    requires LegacyKeyboardStateValid(s) && n <= |s.listening| && i < KeyCount
    requires !Listened(s.listening, n, i)
    ensures LegacyUpdateKeysSpec(s, input, n).keyMap[i] == s.keyMap[i]
    decreases n
  {
    if n > 0 {
      assert !Listened(s.listening, n - 1, i);
      LegacyUpdateKeepsUnlistened(s, input, n - 1, i);
      assert KeyIndex(s.listening[n - 1]) != i;
    }
  }

  /** The 25 x 6 handler table of `new` and `new_masked`, every list empty. */
  method EmptyLegacyHandlerTable() returns (events: seq<seq<seq<LegacyHandler>>>)
    ensures |events| == KeyCount
    ensures forall i :: 0 <= i < KeyCount ==> |events[i]| == LegacyEventCount
    ensures forall i, j :: 0 <= i < KeyCount && 0 <= j < LegacyEventCount ==> events[i][j] == []
  {
    events := [];
    var v := 0;
    while v < KeyCount
      invariant 0 <= v <= KeyCount && |events| == v
      invariant forall i :: 0 <= i < v ==> |events[i]| == LegacyEventCount
      invariant forall i, j :: 0 <= i < v && 0 <= j < LegacyEventCount ==> events[i][j] == []
    {
      var tmp: seq<seq<LegacyHandler>> := [];
      var e := 0;
      while e < LegacyEventCount
        invariant 0 <= e <= LegacyEventCount && |tmp| == e
        invariant forall j :: 0 <= j < e ==> tmp[j] == []
      {
        tmp := tmp + [[]];
        e := e + 1;
      }
      events := events + [tmp];
      v := v + 1;
    }
  }

  class LegacyKeyboardListener {
    var devices: seq<KeyInputDevice>
    var listening: seq<VirtualKey>
    const keyMap: array<KeyStatus>
    var eventHandlers: seq<seq<seq<LegacyHandler>>>
    var invoked: seq<Call<VirtualKey, LegacyKeyboardEvent>>

    function State(): LegacyKeyboardState
      reads this, keyMap
    {
      LegacyKeyboardState(devices, listening, keyMap[..], eventHandlers, invoked)
    }

    ghost predicate Valid()
      reads this, keyMap
    {
      LegacyKeyboardStateValid(State())
    }

    constructor New(devices: seq<KeyInputDevice>)
      ensures Valid() && fresh(keyMap)
      ensures this.devices == devices && invoked == []
      ensures forall i :: 0 <= i < KeyCount ==> keyMap[i] == Released
      ensures forall i, j :: 0 <= i < KeyCount && 0 <= j < LegacyEventCount ==> eventHandlers[i][j] == []
      ensures |listening| == KeyCount && forall i :: 0 <= i < KeyCount ==> listening[i] == FromI32(i)
      ensures forall k :: listening[KeyIndex(k)] == k
    {
      this.devices := devices;
      keyMap := new KeyStatus[KeyCount](_ => Released);
      var events := EmptyLegacyHandlerTable();
      eventHandlers := events;
      var ls: seq<VirtualKey> := [];
      var vkeyRaw := 0;
      while vkeyRaw < KeyCount
        invariant 0 <= vkeyRaw <= KeyCount && |ls| == vkeyRaw
        invariant forall i :: 0 <= i < vkeyRaw ==> ls[i] == FromI32(i)
      {
        ls := ls + [FromI32(vkeyRaw)];
        vkeyRaw := vkeyRaw + 1;
      }
      listening := ls;
      invoked := [];
      new;
      forall k ensures listening[KeyIndex(k)] == k {
        FromI32RoundTrip(k);
      }
    }

    constructor NewMasked(devices: seq<KeyInputDevice>, listening: seq<VirtualKey>)
      ensures Valid() && fresh(keyMap)
      ensures this.devices == devices && this.listening == listening && invoked == []
      ensures forall i :: 0 <= i < KeyCount ==> keyMap[i] == Released
      ensures forall i, j :: 0 <= i < KeyCount && 0 <= j < LegacyEventCount ==> eventHandlers[i][j] == []
    {
      this.devices := devices;
      this.listening := listening;
      keyMap := new KeyStatus[KeyCount](_ => Released);
      var events := EmptyLegacyHandlerTable();
      eventHandlers := events;
      invoked := [];
    }

    method RegisterEventHandler(key: VirtualKey, event: LegacyKeyboardEvent, f: LegacyHandler)
      requires Valid()
      modifies this
      ensures Valid()
      ensures State() == old(State()).(handlers := old(eventHandlers)[KeyIndex(key) :=
        old(eventHandlers)[KeyIndex(key)][LegacyEventIndex(event) := old(eventHandlers)[KeyIndex(key)][LegacyEventIndex(event)] + [f]]])
    {
      var perKey := eventHandlers[KeyIndex(key)];
      eventHandlers := eventHandlers[KeyIndex(key) := perKey[LegacyEventIndex(event) := perKey[LegacyEventIndex(event)] + [f]]];
    }

    method FlushKeyEvent(t: Clock, vkey: VirtualKey, current: KeyStatus)
      requires Valid()
      modifies this
      ensures State() == LegacyFlushKeySpec(old(State()), vkey, current)
    {
      var event := LegacyClassifyKey(keyMap[KeyIndex(vkey)], current);
      var calls := RunHandlers(eventHandlers[KeyIndex(vkey)][LegacyEventIndex(event)], vkey, event);
      invoked := invoked + calls;
    }

    method CurrentKeyStatus(input: KeyboardInput, vkey: VirtualKey) returns (r: KeyStatus)
      ensures r == MixedKeyStatus(input, devices, vkey)
    {
      for i := 0 to |devices|
        invariant forall j :: 0 <= j < i ==> VkeyInputCheck(input, devices[j], vkey) != KeyStatus.Pressed
      {
        if VkeyInputCheck(input, devices[i], vkey) == KeyStatus.Pressed {
          return KeyStatus.Pressed;
        }
      }
      r := Released;
    }

    method Update(input: KeyboardInput, t: Clock) returns (r: Result<()>)
      requires Valid()
      modifies this, keyMap
      ensures State() == LegacyUpdateKeysSpec(old(State()), input, |old(listening)|)
      ensures r == Ok(())
    {
      var i := 0;
      while i < |listening|
        invariant Valid()
        invariant listening == old(listening) && devices == old(devices)
        invariant 0 <= i <= |listening|
        invariant LegacyUpdateKeysSpec(old(State()), input, i) == State()
      {
        var vkey := listening[i];
        var current := CurrentKeyStatus(input, vkey);
        FlushKeyEvent(t, vkey, current);
        ghost var flushed := State();
        keyMap[KeyIndex(vkey)] := current;
        assert keyMap[..] == flushed.keyMap[KeyIndex(vkey) := current];
        assert State() == flushed.(keyMap := flushed.keyMap[KeyIndex(vkey) := current]);
        i := i + 1;
      }
      r := Ok(());
    }
  }
}
