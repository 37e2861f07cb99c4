# torifune, modelled in Dafny

torifune is a small game library on top of ggez. This project models its
core and proves properties of the model:

- **Input.** The mouse and keyboard listeners poll the host once per tick.
  They classify each button's or key's transition into an event and run
  the handlers registered for that event. The keyboard side also has the
  virtual key codes and the programmable real-to-virtual key table.
- **Drawable components.** Visibility and depth live in a
  `DrawableObjectEssential`. The textured, textual, wrapped, effectable and
  vertical-text objects draw themselves, and those that move follow a
  timed move function.
- **Effects.** An effectable object runs a list of effect functions on
  each tick and retains the ones that have not finished.
- **Screen stacks.** There is the sub-screen stack of render targets and the
  rectangle stack of `graphics/draw.rs`. On top of them sit the vertical
  menu and the debug overlay with its bounded line buffer.
- **The rest of the core.** The sound-handle table, the scheduled event,
  the `hash!` map macro and the `Updatable` default.

Older revisions of the input, graphics and core files (`device/mod.rs`,
`graphics/mod.rs`, `core/mod.rs`) are modelled in their own modules,
`LegacyDevice`, `LegacyGraphics` and `LegacyCore`.

How the model is built:

- **Host calls become a log.** Every call into ggez (draw a drawable, set
  the canvas, clear it, set the screen coordinates) is appended to
  `HostContext.log`. A draw method's contract states the exact calls it
  makes.
- **Objects the source updates in place are classes.** Their methods are
  proved against value-level specification functions
  (`State() == Spec(old(State()), …)`). The lemmas about those functions
  state what the source promises.
- **Closures become function values.** Event handlers, move functions,
  effect functions and scheduled events are function values. A handler's
  run is an entry in an invocation log. A handler's `Err`, a failed
  `unwrap` and a `panic!` become an explicit `Aborted`/`Panic` value.
- **Thread-locals become objects passed explicitly.** The source's
  thread-local state is an object that callers pass in: `ScreenStacker`
  and `TargetStack` for the screen stacks, `DebugOverlay` for the debug
  screen.
- **Numbers.** Floating point is modelled with exact reals. Clocks, handles
  and sizes are unbounded naturals.

Where the code and its documentation disagree, the model follows the code:

- `DebugScreen::push_text` drops the oldest line only when the buffer
  already holds more than `text_limit` lines. The buffer therefore settles
  at `text_limit + 1` lines. Five lines pushed with limit 3 leave
  L2..L5, not L3..L5 (`Debug.FiveLinesWithLimitThree`).
- The sub-screen `pop_screen` returns the target that was current before
  the pop, not the entry popped from the stack. A push made while the
  window was the target is undone by a pop that returns `None`
  (`SubScreens.StackThenPopRestores`).
- `SubScreen::draw` draws its canvas whether or not the screen is visible,
  in both revisions. Hiding the debug screen therefore does not stop it
  being drawn.
- The older `check_button` of `device/mod.rs` polls the left button
  whatever button it is asked about.

## Model

| member | source | states |
|---|---|---|
| Device.FirstFailure | src/device.rs:168-173 | None exactly when every handler succeeds at `t`; otherwise the index of a failing handler with every earlier one succeeding |
| Device.InvokedCount | src/device.rs:168-173 | a dispatch runs at most as many handlers as are registered |
| Device.DispatchHandlers | src/device.rs:168-173 | handlers run in registration order up to and including the first `Err`, which aborts with its message; the dispatch completes iff all succeed |
| Device.ClassifyMouse | src/device.rs:141-167 | released→pressed is Pressed, pressed→released is Clicked, pressed→pressed is Dragged, released→released fires nothing (each an iff) |
| Device.FlushButtonSpec | src/device.rs:141-174 | flushing one button keeps the listener well formed and touches neither the stored statuses nor the handler table |
| Device.UpdateMouseSpec | src/device.rs:189-206 | an update keeps the listener well formed and never changes the handler table |
| Device.ThreeEventsCover | src/device.rs:32-36 | a map with entries for Clicked, Pressed and Dragged covers every mouse event |
| Device.ThreeButtonsCover | src/device.rs:61-100 | a map with entries for Left, Middle and Right and no other button has exactly the tracked buttons |
| Device.InitialMouseState | src/device.rs:61-100 | `new` starts every tracked button released, clicked at the origin, with an empty handler list per event |
| Device.MouseListener.constructor | src/device.rs:61-100 | the listener starts in the initial state and well formed |
| Device.MouseListener.RegisterEventHandler | src/device.rs:105-113 | the handler is appended to its (button, event) list; an untracked button panics and changes nothing |
| Device.MouseListener.GetLastClicked | src/device.rs:134-139 | the last click position of a tracked button; any other button panics |
| Device.MouseListener.FlushButtonEvent | src/device.rs:141-174 | the new state and outcome are those of the flush specification |
| Device.MouseListener.Update | src/device.rs:189-206 | the new state and outcome are those of the update specification |
| Device.UpdateCommitsPolledStatus | src/device.rs:189-206 | a completed update stores, for every tracked button, the status polled on this tick |
| Device.UpdateRecordsClick | src/device.rs:141-167 | the last click moves to the cursor exactly when the button goes from pressed to released |
| Device.FlushRecordsClick | src/device.rs:141-174 | one flush moves a button's last click to the cursor exactly when that button goes from pressed to released |
| Device.UpdateRunsHandlersInOrder | src/device.rs:189-206 | a completed update runs the handlers of Left's event, then Middle's, then Right's, each classified against last tick's status |
| Device.FlushCompletedRunsAll | src/device.rs:141-174 | a completed flush runs every handler of the classified event, in order, and none when nothing fires |
| Device.ClickScenario | src/device.rs:141-206 | released, pressed, released over three ticks: all complete, the click handler runs once on tick 3, and the last click is the cursor at the release |
| Device.ToI32 | src/device.rs:213-239 | the key codes lie in 0..24, and 24 is exactly Unknown |
| Device.FromI32 | src/device.rs:242-270 | codes 0..23 decode to the key with that code; every other integer decodes to Unknown |
| Device.FromI32RoundTrip | src/device.rs:242-270 | decoding a key's code gives the key back |
| Device.ToI32Injective | src/device.rs:213-239 | distinct keys have distinct codes |
| Device.PositiveLogic | src/device.rs:291-297 | Pressed iff the flag is true, and never Unknown |
| Device.NegativeLogic | src/device.rs:300-306 | the negative logic of a flag is the positive logic of its negation |
| Device.EventIndex | src/device.rs:322-328 | each keyboard event has a slot among five |
| Device.ClassifyKey | src/device.rs:483-497 | a change to Pressed is FirstPressed, a change to Released is Typed, no change is KeepPressed/KeepReleased, an Unknown poll is Unknown (each an iff) |
| Device.GenericKeyboardCheck | src/device.rs:345-375 | a virtual key is Pressed iff the real key or modifier bound to it is held, otherwise Released |
| Device.MixedKeyStatus | src/device.rs:514-523 | Pressed iff some device reports Pressed, otherwise Released |
| Device.KeyIndex | src/device.rs:418-441 | every key's slot lies inside `key_map` |
| Device.FlushKeySpec | src/device.rs:483-509 | flushing a key appends to the log the handlers of the event classified from the stored and current status, in registration order, up to and including the first that fails; the flush completes iff every handler succeeds |
| Device.FlushKeyCompletedRunsAll | src/device.rs:483-509 | a completed flush has run every handler of the classified event, in order |
| Device.UpdateKeysSpec | src/device.rs:528-536 | an update keeps the listener well formed and leaves devices, listened keys and handlers unchanged |
| Device.UpdateAbortStays | src/device.rs:528-536 | once a handler aborts the update, later keys are not processed |
| Device.PrefixCompleted | src/device.rs:528-536 | if an update over the first n listened keys completes, so did the one over the first n - 1 |
| Device.NextKeyUntouched | src/device.rs:528-536 | with no key listened twice, the n-th listened key still finds its status from before the update when its turn comes |
| Device.UpdateRunsKeyHandlersInOrder | src/device.rs:483-536 | for keys listened once each, a completed update runs, key by key in listening order, every handler of each key's classified event |
| Device.AbortsAtLastKey | src/device.rs:483-536 | when the first n - 1 keys complete and the n-th key aborts, the log holds the handlers of those keys and then those of the n-th key up to its failing handler |
| Device.AbortCarriesOver | src/device.rs:528-536 | a key processed after an abort adds nothing to the log |
| Device.UpdateAbortRunsUpToFailure | src/device.rs:483-536 | for keys listened once each, an aborted update has run the handlers of every key before the failing one, in order, then those of the failing key up to and including the failing handler, and nothing after |
| Device.UpdateCommitsListened | src/device.rs:528-536 | after a completed update each listened key's slot holds its status mixed across the devices |
| Device.UpdateKeepsUnlistened | src/device.rs:528-536 | slots of keys that are not listened to are never written |
| Device.PressThenReleaseScenario | src/device.rs:483-536 | pressing then releasing a listened key runs its FirstPressed handlers on the first tick and its Typed handlers on the second |
| Device.EmptyHandlerTable | src/device.rs:418-441 | the handler table has a slot per key and per event, every list empty |
| Device.KeyboardListener.New | src/device.rs:418-441 | every key released and listened in code order, no handlers |
| Device.KeyboardListener.NewMasked | src/device.rs:446-465 | as `new`, but listening to exactly the given keys, in the given order |
| Device.KeyboardListener.RegisterEventHandler | src/device.rs:470-478 | the handler is appended to its (key, event) list and nothing else changes |
| Device.KeyboardListener.FlushKeyEvent | src/device.rs:483-509 | the new state and outcome are those of the flush specification |
| Device.KeyboardListener.CurrentKeyStatus | src/device.rs:514-523 | the status mixed across the devices |
| Device.KeyboardListener.Update | src/device.rs:528-536 | the new state and outcome are those of the update specification over all listened keys |
| Device.DefaultConfigMatchesGenericKeyboard | src/device.rs:557-581 | the default table maps each real key to the virtual key the generic keyboard binds to it, one to one, never to a modifier or Unknown |
| Device.ProgramableGenericKey.constructor | src/device.rs:557-581 | the table starts as the default layout |
| Device.ProgramableGenericKey.UpdateConfig | src/device.rs:586-588 | the real key is rebound to the virtual key, replacing any earlier binding |
| Device.ProgramableGenericKey.RealToVirtual | src/device.rs:601-609 | the bound virtual key, or Unknown for an unbound real key |
| Device.ProgramableGenericKey.VirtualToReal | src/device.rs:590-599 | a real key bound to the virtual key; a panic exactly when none is bound |
| LegacyDevice.RunHandlers | src/device/mod.rs:108-129 | every handler of the event runs, in order, whatever it returns |
| LegacyDevice.TwoEventsCover | src/device/mod.rs:17-20 | a map with Clicked and Pressed covers every mouse event of this revision |
| LegacyDevice.CheckButtonIgnoresButton | src/device/mod.rs:90-96 | the polled status of any button is that of the left button |
| LegacyDevice.LegacyClassifyMouse | src/device/mod.rs:108-129 | an event fires iff the status changed: Pressed when now pressed, Clicked when now released |
| LegacyDevice.InitialLegacyMouseState | src/device/mod.rs:31-67 | every tracked button released, clicked at the origin, no handlers |
| LegacyDevice.LegacyFlushSpec | src/device/mod.rs:108-129 | a flush keeps the listener well formed, touches neither statuses nor handlers, and appends to the log every handler of the event the status change classifies, in order, and nothing when the status is unchanged |
| LegacyDevice.LegacyUpdateMouseSpec | src/device/mod.rs:143-161 | an update keeps the listener well formed and the handler table unchanged |
| LegacyDevice.LegacyUpdateRunsHandlersInOrder | src/device/mod.rs:108-161 | an update runs the fired handlers of the left, then the middle, then the right button, each classified against the left button's polled status |
| LegacyDevice.LegacyMouseListener.constructor | src/device/mod.rs:31-67 | the listener starts in the initial state |
| LegacyDevice.LegacyMouseListener.RegisterEventHandler | src/device/mod.rs:72-80 | the handler is appended to its list; an untracked button panics |
| LegacyDevice.LegacyMouseListener.GetLastClicked | src/device/mod.rs:101-106 | the last click of a tracked button; any other button panics |
| LegacyDevice.LegacyMouseListener.FlushButtonEvent | src/device/mod.rs:108-129 | the new state is that of the flush specification |
| LegacyDevice.LegacyMouseListener.Update | src/device/mod.rs:143-161 | the new state is that of the update specification, and the result is always `Ok(())` |
| LegacyDevice.LegacyUpdateCommitsLeftStatus | src/device/mod.rs:143-161 | after an update every tracked button stores the left button's polled status |
| LegacyDevice.LegacyUnchangedFiresNothing | src/device/mod.rs:108-161 | when no stored status differs from the poll, no handler runs and no click is recorded |
| LegacyDevice.LegacyUpdateRecordsClick | src/device/mod.rs:108-161 | a button's last click moves to the cursor exactly when it was stored pressed and the left button is polled released |
| LegacyDevice.LegacyEventIndex | src/device/mod.rs:256-263 | each keyboard event of this revision has a slot among six |
| LegacyDevice.LegacyClassifyKey | src/device/mod.rs:410-433 | a transition never yields the counting variant |
| LegacyDevice.LegacyClassifyMatchesLaterRevision | src/device/mod.rs:410-433 | both revisions classify every key transition alike, up to the renaming of the events |
| LegacyDevice.LegacyFlushKeySpec | src/device/mod.rs:410-433 | flushing a key changes nothing but the log, to which it appends every handler of the event classified from the stored and current status, in registration order |
| LegacyDevice.LegacyUpdateKeysSpec | src/device/mod.rs:453-462 | an update keeps the listener well formed and leaves devices, keys and handlers unchanged |
| LegacyDevice.LegacyUpdateCommitsListened | src/device/mod.rs:453-462 | after an update each listened key's slot holds its mixed status |
| LegacyDevice.LegacyUpdateKeepsUnlistened | src/device/mod.rs:453-462 | slots of keys that are not listened to are never written |
| LegacyDevice.LegacyNextKeyUntouched | src/device/mod.rs:453-462 | with no key listened twice, the n-th listened key still finds its status from before the update when its turn comes |
| LegacyDevice.LegacyFlushAppendsFired | src/device/mod.rs:410-433 | a flush from a state that agrees on the key's slot, the devices and the handlers appends exactly that key's calls |
| LegacyDevice.LegacyUpdateStep | src/device/mod.rs:410-462 | processing the n-th listened key appends exactly that key's fired handlers to the log |
| LegacyDevice.LegacyUpdateRunsKeyHandlersInOrder | src/device/mod.rs:410-462 | for keys listened once each, an update runs, key by key in listening order, every handler of each key's classified event |
| LegacyDevice.EmptyLegacyHandlerTable | src/device/mod.rs:345-368 | one empty handler list per key and per event |
| LegacyDevice.LegacyKeyboardListener.New | src/device/mod.rs:345-368 | every key released and listened in code order, no handlers |
| LegacyDevice.LegacyKeyboardListener.NewMasked | src/device/mod.rs:373-392 | as `new`, listening to exactly the given keys |
| LegacyDevice.LegacyKeyboardListener.RegisterEventHandler | src/device/mod.rs:397-405 | the handler is appended to its (key, event) list |
| LegacyDevice.LegacyKeyboardListener.FlushKeyEvent | src/device/mod.rs:410-433 | the new state is that of the flush specification |
| LegacyDevice.LegacyKeyboardListener.CurrentKeyStatus | src/device/mod.rs:439-448 | the status mixed across the devices |
| LegacyDevice.LegacyKeyboardListener.Update | src/device/mod.rs:453-462 | the new state is that of the update specification; the result is always `Ok(())` |
| Graphics.DrawableObjectSortWithDepth | src/graphics.rs:73-84 | Less iff the first object is deeper, Greater iff shallower, Equal iff the depths are equal |
| Graphics.BoxedDrawableObjectSortWithDepth | src/graphics.rs:91-102 | the same order as the unboxed comparator |
| Graphics.ComparatorIsTotalOrder | src/graphics.rs:73-84 | the comparator is antisymmetric and transitive, and Equal only on equal depths |
| Graphics.SortedPutsDeepestFirst | src/graphics.rs:73-84 | a sequence sorted with the comparator never increases in depth |
| Graphics.Apply | src/graphics.rs:17-34 | hide clears the visible flag, appear sets it, `set_drawing_depth` stores the depth |
| Graphics.StaysHidden | src/graphics.rs:17-25 | without an appear, a hidden object stays hidden |
| Graphics.StaysVisible | src/graphics.rs:17-25 | without a hide, a visible object stays visible |
| Graphics.HiddenUntilAppear | src/graphics.rs:17-20 | after a hide with no later appear the object is not visible |
| Graphics.VisibleUntilHide | src/graphics.rs:22-25 | after an appear with no later hide the object is visible |
| Graphics.HideHideAppear | src/graphics.rs:17-25 | hiding does not nest: two hides and one appear leave the object visible, at the same depth |
| Graphics.DefaultsChangeNothing | src/graphics.rs:37-66 | the default key, mouse, `set_position` and `move_diff` bodies change nothing, and the default position is the origin |
| LegacyGraphics.LegacySubScreen.constructor | src/graphics/mod.rs:125-136 | drawn at the rectangle's corner, sized by it, visible at the given depth |
| LegacyGraphics.LegacySubScreen.BeginDrawing | src/graphics/mod.rs:138-142 | the canvas becomes the target, is cleared to the back colour and gets canvas-sized coordinates |
| LegacyGraphics.LegacySubScreen.EndDrawing | src/graphics/mod.rs:144-148 | drawing returns to the window and its coordinates |
| LegacyGraphics.LegacySubScreen.Draw | src/graphics/mod.rs:153-155 | one draw of the canvas at its parameters, whether or not it is visible |
| LegacyGraphics.LegacySubScreen.Hide | src/graphics/mod.rs:157-159 | invisible afterwards, parameters unchanged |
| LegacyGraphics.LegacySubScreen.Appear | src/graphics/mod.rs:161-163 | visible afterwards, parameters unchanged |
| LegacyGraphics.LegacySubScreen.SetDrawingDepth | src/graphics/mod.rs:170-172 | the depth is stored and read back |
| LegacyGraphics.LegacySubScreen.SetPosition | src/graphics/mod.rs:184-186 | the destination is replaced and read back |
| LegacyGraphics.LegacySubScreen.MoveDiff | src/graphics/mod.rs:194-197 | the destination moves by the offset |
| Objects.CloneEssential | src/graphics/object.rs:332-338 | the clone carries the new move function and keeps the start time and origin |
| Objects.GatedDraw | src/graphics/object.rs:385-391 | a visible object issues exactly one draw call, a hidden one none (both iffs) |
| Objects.HiddenObjectDrawsNothing | src/graphics/object.rs:385-396 | after a hide with no later appear, drawing issues nothing |
| Objects.AppearedObjectDraws | src/graphics/object.rs:385-401 | after an appear with no later hide, drawing issues one draw call |
| Objects.UniTexture.constructor | src/graphics/object.rs:365-381 | visible at the given depth, drawn at the given position |
| Objects.UniTexture.Draw | src/graphics/object.rs:385-391 | the texture is drawn at its parameters only when visible |
| Objects.UniTexture.Hide | src/graphics/object.rs:394-396 | invisible afterwards, nothing else changes |
| Objects.UniTexture.Appear | src/graphics/object.rs:399-401 | visible afterwards, nothing else changes |
| Objects.UniTexture.SetDrawingDepth | src/graphics/object.rs:409-411 | the depth is stored and read back; visibility unchanged |
| Objects.UniTexture.SetPosition | src/graphics/object.rs:423-425 | the destination is replaced and read back |
| Objects.UniTexture.MoveDiff | src/graphics/object.rs:433-436 | the destination moves by the offset |
| Objects.BirthTime | src/graphics/object.rs:739-743 | textures and texts report their creation time; a wrapper reports its move function's start time |
| Objects.ApplyCall | src/graphics/object.rs:609-633 | hide, appear and depth change only the essential record of a movable object |
| Objects.SetPositionSpec | src/graphics/object.rs:639-641 | only the destination changes |
| Objects.MoveDiffSpec | src/graphics/object.rs:649-652 | moving by an offset is setting the position to the old one plus the offset |
| Objects.MoveWithFuncSpec | src/graphics/object.rs:747-753 | with a move function the destination becomes its value at the time since it was set; without one nothing changes |
| Objects.OverrideSpec | src/graphics/object.rs:756-769 | the move function is replaced and its clock restarts at `now`; the object stops iff the new function is None |
| Objects.OverrideRestartsTheClock | src/graphics/object.rs:747-761 | after an override at `now`, moving at `now + d` places the object at the new function's value for `d` |
| Objects.StoppedObjectStaysPut | src/graphics/object.rs:747-761 | after overriding with None, moving leaves the object as it is |
| Objects.BirthTimeUnderOverride | src/graphics/object.rs:1142-1162 | an override resets a wrapper's birth time to `now` and leaves a texture's or text's unchanged |
| Objects.BoxedMovableObjectSortWithDepth | src/graphics/object.rs:259-270 | the deeper object sorts first; the order is the drawable comparator's |
| Objects.NewTextState | src/graphics/object.rs:834-859 | a new text draws its string, is born at `now`, is visible, and starts at its position in the font colour |
| Objects.Movable.NewUniTexture | src/graphics/object.rs:576-597 | a visible texture at the position, born and timed at `now`, with the given move function |
| Objects.Movable.NewText | src/graphics/object.rs:834-859 | the state of a new text |
| Objects.Movable.NewWrap | src/graphics/object.rs:1072-1080 | the wrapper takes the texture's visibility, depth and parameters, and times its move function from `t` |
| Objects.Movable.Draw | src/graphics/object.rs:601-607 | the body is drawn at its parameters only when visible (likewise text and wrapper) |
| Objects.Movable.Hide | src/graphics/object.rs:610-612 | invisible afterwards, nothing else changes |
| Objects.Movable.Appear | src/graphics/object.rs:615-617 | visible afterwards, nothing else changes |
| Objects.Movable.SetDrawingDepth | src/graphics/object.rs:625-627 | the depth is stored and read back |
| Objects.Movable.SetPosition | src/graphics/object.rs:639-641 | the destination is replaced and read back |
| Objects.Movable.MoveDiff | src/graphics/object.rs:649-652 | the destination moves by the offset |
| Objects.Movable.GetBirthTime | src/graphics/object.rs:739-743 | the birth time of the object's kind |
| Objects.Movable.MoveWithFunc | src/graphics/object.rs:747-753 | the new state is that of the move specification |
| Objects.Movable.OverrideMoveFunc | src/graphics/object.rs:756-769 | the move function is replaced, its timing starts at `now`, and the object stops iff it is None |
| Objects.Movable.ReplaceText | src/graphics/object.rs:885-888 | the text is replaced and the font colour re-applied; nothing else changes |
| Objects.RetainList | src/graphics/object.rs:1316-1323 | retaining never lengthens the effect list |
| Objects.FirstPassAppend | src/graphics/object.rs:1316-1323 | running `a + b` is running `a`, then `b` |
| Objects.FirstPassPrefix | src/graphics/object.rs:1316-1323 | whether effect `i` continues depends only on the effects before it |
| Objects.EffectRunsListTwice | src/graphics/object.rs:1316-1323 | `effect` applies the effect list twice in a row: once in the loop, once in the `retain` |
| Objects.RetainKeepsExactlyContinuing | src/graphics/object.rs:1316-1323 | the retained list is the continuing effects, in their original order, and only those |
| Objects.AllContinuingKeepsAll | src/graphics/object.rs:1316-1323 | when no effect finishes, the list is kept whole |
| Objects.NoneContinuingEmptiesList | src/graphics/object.rs:1316-1323 | when every effect finishes, the list becomes empty |
| Objects.SingleEffectRunsTwice | src/graphics/object.rs:1316-1323 | a single effect is applied twice and kept iff its second run continues |
| Objects.ShiftMovesTwice | src/graphics/object.rs:1316-1323 | a shifting effect moves the object twice per tick and is dropped iff it reports finish |
| Objects.EffectableWrap.constructor | src/graphics/object.rs:1194-1200 | the wrapper holds the object and the effect list |
| Objects.EffectableWrap.Draw | src/graphics/object.rs:1217-1219 | the wrapped object is drawn only when visible |
| Objects.EffectableWrap.Hide | src/graphics/object.rs:1222-1224 | the wrapped object is hidden; effects unchanged |
| Objects.EffectableWrap.Appear | src/graphics/object.rs:1227-1229 | the wrapped object appears; effects unchanged |
| Objects.EffectableWrap.SetDrawingDepth | src/graphics/object.rs:1237-1239 | the depth of the wrapped object is stored and read back |
| Objects.EffectableWrap.SetPosition | src/graphics/object.rs:1250-1252 | the wrapped object's destination is replaced |
| Objects.EffectableWrap.MoveDiff | src/graphics/object.rs:1260-1262 | the wrapped object's destination moves by the offset |
| Objects.EffectableWrap.GetBirthTime | src/graphics/object.rs:1271-1273 | the wrapped object's birth time |
| Objects.EffectableWrap.MoveWithFunc | src/graphics/object.rs:1279-1283 | the wrapped object follows its move function; effects unchanged |
| Objects.EffectableWrap.OverrideMoveFunc | src/graphics/object.rs:1286-1298 | the wrapped object's move function is replaced and restarted at `now` |
| Objects.EffectableWrap.AddEffect | src/graphics/object.rs:1304-1307 | the new effects are appended after the existing ones |
| Objects.EffectableWrap.ClearEffect | src/graphics/object.rs:1309-1311 | the effect list becomes empty |
| Objects.EffectableWrap.Effect | src/graphics/object.rs:1316-1323 | the new object and list are those of the effect specification: two passes, the continuing effects kept |
| Objects.BuildFragments | src/graphics/object.rs:1338-1363 | one fragment per character, in order, each in the font and scale |
| Objects.VerticalText.constructor | src/graphics/object.rs:1338-1363 | the text reads back, its fragments are its characters, and it is drawn at the position in the font colour |
| Objects.VerticalText.ReplaceText | src/graphics/object.rs:1369-1378 | the text and its fragments are rebuilt; parameters and visibility unchanged |
| Objects.VerticalText.Draw | src/graphics/object.rs:1383-1399 | the log gains the fragment loop's draws while visible and nothing while hidden |
| Objects.Scaled | src/graphics/object.rs:1385 | the height of n lines is never negative for a non-negative line height, and reaches one line iff there is a line |
| Objects.AllFragmentsDrawn | src/graphics/object.rs:1388-1396 | with a positive line height and enough lines of height, every fragment is drawn, the i-th one i lines below the destination |
| Objects.VisibleTextDrawsEveryCharacter | src/graphics/object.rs:1383-1399 | a visible text draws each of its characters, in order, one line apart from the destination down |
| Objects.EmptyOrHiddenTextDrawsNothing | src/graphics/object.rs:1383-1399 | a hidden text, or an empty one, draws nothing |
| Objects.VerticalText.Hide | src/graphics/object.rs:1402-1404 | invisible afterwards, nothing else changes |
| Objects.VerticalText.Appear | src/graphics/object.rs:1407-1409 | visible afterwards, nothing else changes |
| Objects.VerticalText.SetDrawingDepth | src/graphics/object.rs:1417-1419 | the depth is stored; nothing else changes |
| Objects.VerticalText.SetPosition | src/graphics/object.rs:1430-1432 | the destination is replaced; nothing else changes |
| Objects.VerticalText.MoveDiff | src/graphics/object.rs:1440-1443 | the destination moves by the offset; nothing else changes |
| SubScreens.SubScreen.constructor | src/graphics/object/sub_screen.rs:32-43 | drawn at the rectangle's corner, sized by it, visible at the depth, with the back colour |
| SubScreens.SubScreen.Draw | src/graphics/object/sub_screen.rs:58-60 | one draw of the canvas, whether or not it is visible |
| SubScreens.SubScreen.Hide | src/graphics/object/sub_screen.rs:62-64 | invisible afterwards, nothing else changes |
| SubScreens.SubScreen.Appear | src/graphics/object/sub_screen.rs:66-68 | visible afterwards, nothing else changes |
| SubScreens.SubScreen.SetDrawingDepth | src/graphics/object/sub_screen.rs:75-77 | the depth is stored and read back |
| SubScreens.SubScreen.SetPosition | src/graphics/object/sub_screen.rs:89-91 | the destination is replaced and read back |
| SubScreens.SubScreen.MoveDiff | src/graphics/object/sub_screen.rs:99-102 | the destination moves by the offset |
| SubScreens.SubScreen.SetDrawingColor | src/graphics/object/sub_screen.rs:137-140 | both the draw colour and the back colour become the colour |
| SubScreens.SubScreen.SetAlpha | src/graphics/object/sub_screen.rs:148-151 | the alpha of both colours is set and read back |
| SubScreens.SubScreen.SetColor | src/graphics/object/sub_screen.rs:180-182 | only the draw colour changes; the back colour is kept |
| SubScreens.StackSpec | src/graphics/object/sub_screen.rs:233-246 | the screen becomes the target and the previous target, if any, is pushed |
| SubScreens.PopSpec | src/graphics/object/sub_screen.rs:252-267 | the top of the stack becomes the target and the previous target is returned; on an empty stack the window becomes the target and None is returned |
| SubScreens.StackPreservesShape | src/graphics/object/sub_screen.rs:233-246 | pushing appends the screen to the chain of nested targets |
| SubScreens.PopPreservesShape | src/graphics/object/sub_screen.rs:252-267 | popping drops the last screen of the chain |
| SubScreens.ResetCanBreakShape | src/graphics/object/sub_screen.rs:220-228 | resetting the target to the window under a non-empty stack breaks the nesting |
| SubScreens.StackThenPopRestores | src/graphics/object/sub_screen.rs:233-267 | a push then a pop restores the stack and the target; the pop returns the pushed screen, or None when pushed from the window |
| SubScreens.StackAllPreservesShape | src/graphics/object/sub_screen.rs:233-246 | any sequence of pushes keeps the stack well nested |
| SubScreens.BalancedStackingRestores | src/graphics/object/sub_screen.rs:233-267 | n pushes followed by n pops restore the state |
| SubScreens.ScreenStacker.constructor | src/graphics/object/sub_screen.rs:190-196 | empty stack, the window as target |
| SubScreens.ScreenStacker.ResetStackingScreen | src/graphics/object/sub_screen.rs:220-228 | the target is replaced and the old one returned; the stack is untouched |
| SubScreens.ScreenStacker.StackScreen | src/graphics/object/sub_screen.rs:233-246 | the new state is the push specification, and the host is switched to the canvas, cleared and given its coordinates |
| SubScreens.ScreenStacker.PopScreen | src/graphics/object/sub_screen.rs:252-267 | the new state and result are the pop specification, and the host is switched back to the new target or the window |
| DrawStack.EndPoint | src/graphics/draw.rs:14-19 | the end point lies the size away from the position |
| DrawStack.StackSpec | src/graphics/draw.rs:75-100 | two entries are pushed (the old target, then the screen); the target moves by the screen's position and keeps its size |
| DrawStack.PopSpec | src/graphics/draw.rs:102-122 | two entries are popped, the second becomes the target and the first is returned; with fewer than two the stack empties, the target stays and None is returned |
| DrawStack.StackThenPopRestores | src/graphics/draw.rs:75-122 | a push then a pop restore the stack and target and return the pushed screen |
| DrawStack.BalancedStackingRestores | src/graphics/draw.rs:75-122 | n pushes followed by n pops restore the state |
| DrawStack.StackAllOffsets | src/graphics/draw.rs:75-100 | nested pushes add up the positions, never resize the target, and grow the stack by two each |
| DrawStack.TargetStack.constructor | src/graphics/draw.rs:22-31 | empty stack, a zero-sized target at the origin |
| DrawStack.TargetStack.ResetStackingScreen | src/graphics/draw.rs:33-37 | only the target is replaced |
| DrawStack.TargetStack.StackScreen | src/graphics/draw.rs:75-100 | the new state is the push specification |
| DrawStack.TargetStack.PopScreen | src/graphics/draw.rs:102-122 | the new state and result are the pop specification |
| Menu.Heights | src/graphics/object/menu.rs:22-27 | one height per item: its length times the line height |
| Menu.MaxFold | src/graphics/object/menu.rs:22-27 | the height of the menu area before padding is never negative |
| Menu.MaxFoldIsMaximum | src/graphics/object/menu.rs:22-27 | the fold is the maximum of the heights: at least each of them, and either 0 or one of them |
| Menu.BuildItems | src/graphics/object/menu.rs:30-43 | one fresh vertical text per string, in order, each one column left of the previous |
| Menu.DrawItems | src/graphics/object/menu.rs:60-62 | the log gains each item's vertical-text draws, item after item in order |
| Menu.VerticalMenu.constructor | src/graphics/object/menu.rs:18-49 | one item per string at its column, and a visible black canvas covering them |
| Menu.VerticalMenu.Draw | src/graphics/object/menu.rs:54-67 | hidden: nothing; visible: pushes the canvas, draws the items, pops back to the previous target, then draws the canvas |
| Menu.VerticalMenu.Hide | src/graphics/object/menu.rs:69-71 | the canvas is hidden |
| Menu.VerticalMenu.Appear | src/graphics/object/menu.rs:73-75 | the canvas appears |
| Menu.VerticalMenu.SetDrawingDepth | src/graphics/object/menu.rs:81-83 | the canvas depth is stored and read back |
| Debug.InitialLimit | src/debug.rs:21-29 | the initial line limit is the whole part of width over line height when that fits a `usize`, `usize::MAX` above it, 0 for a non-positive ratio; with a zero line height it is `usize::MAX` for a positive width and 0 otherwise |
| Debug.PushTextShape | src/debug.rs:39-60 | the buffer grows by one unless it holds more than the limit; the new line is last and the others move up one line height |
| Debug.TextsAfterPush | src/debug.rs:39-60 | the texts after a push are the old ones, less the oldest when over the limit, plus the new line |
| Debug.PushAllBound | src/debug.rs:39-60 | pushing never takes a buffer of at most limit + 1 lines past limit + 1 |
| Debug.PushAllFromEmpty | src/debug.rs:39-60 | from empty, the buffer holds every line up to limit + 1 of them |
| Debug.PushAllStep | src/debug.rs:39-60 | pushing k lines is pushing k - 1 lines and then the k-th |
| Debug.FiveLinesWithLimitThree | src/debug.rs:39-60 | five lines with limit 3 leave L2..L5 |
| Debug.DrawReturnsToPreviousTarget | src/debug.rs:69-78 | drawing leaves the screen stack as it was and returns the host to the previous target, or to the window |
| Debug.DebugScreen.constructor | src/debug.rs:21-29 | an empty buffer, the initial limit, and a translucent black screen covering the rectangle |
| Debug.DebugScreen.SetBackColor | src/debug.rs:31-33 | the screen's draw colour becomes the colour; lines and limit unchanged |
| Debug.DebugScreen.SetTextLimit | src/debug.rs:35-37 | the limit is replaced; lines unchanged |
| Debug.DebugScreen.PushText | src/debug.rs:39-60 | the buffer becomes the push specification of the new line |
| Debug.DebugScreen.ReplaceScreen | src/debug.rs:62-64 | a fresh screen covering the new rectangle; lines and limit unchanged |
| Debug.DebugScreen.Draw | src/debug.rs:69-78 | the screen is pushed, every line drawn, the previous target restored, and the screen drawn |
| Debug.DebugScreen.Hide | src/debug.rs:80-82 | the screen is hidden |
| Debug.DebugScreen.Appear | src/debug.rs:84-86 | the screen appears |
| Debug.DebugScreen.SetDrawingDepth | src/debug.rs:92-94 | the screen depth is stored and read back |
| Debug.DebugOverlay.constructor | src/debug.rs:101-103 | no debug screen until `init` |
| Debug.DebugOverlay.Init | src/debug.rs:121-125 | a fresh debug screen with an empty buffer, the initial limit, and a fresh visible screen at depth 0 covering the rectangle in translucent black |
| Debug.DebugOverlay.Hide | src/debug.rs:105-111 | the debug screen, if any, is hidden and otherwise unchanged; its lines and limit are kept |
| Debug.DebugOverlay.Appear | src/debug.rs:113-119 | the debug screen, if any, appears and is otherwise unchanged; its lines and limit are kept |
| Debug.DebugOverlay.ChangeSize | src/debug.rs:127-133 | the debug screen, if any, gets a fresh visible screen covering the new rectangle in translucent black; its lines and limit are kept |
| Debug.DebugOverlay.PushText | src/debug.rs:135-141 | the debug screen's buffer, if any, becomes the push specification of the new line under its limit; limit and screen unchanged |
| Debug.DebugOverlay.ChangeColor | src/debug.rs:143-149 | the debug screen, if any, takes the colour as its draw colour, nothing else of the screen changes, and its lines and limit are kept |
| Debug.DebugOverlay.SetLimit | src/debug.rs:151-157 | the debug screen, if any, takes the limit; lines and screen unchanged |
| Debug.DebugOverlay.Draw | src/debug.rs:159-165 | without a debug screen nothing is drawn and the stacker is unchanged; otherwise the debug screen's host calls, and the stacker is left as a push of the screen then a pop leave it, which is its previous state when it was well stacked |
| Sound.Prepared | src/sound.rs:64-74 | the stored source is made from the data, has the flags only when given, and is queued |
| Sound.IssueSpec | src/sound.rs:79-83 | the counter is returned and incremented; issued handles stay ahead of every key |
| Sound.PlaySpec | src/sound.rs:58-77 | exactly one entry is added, under a handle no earlier entry has; every other entry is untouched |
| Sound.RefSpec | src/sound.rs:85-87 | the stored source for a handle in the table; a panic otherwise |
| Sound.UpdateSpec | src/sound.rs:89-91 | the caller's change applies to the stored source; an unknown handle panics and changes nothing |
| Sound.UnissuedHandlePanics | src/sound.rs:85-91 | a handle never issued finds nothing, both for `ref_sound` and `ref_sound_mut` |
| Sound.PlayThenRef | src/sound.rs:58-87 | the handle `play` returns finds the source it stored; other lookups are unchanged |
| Sound.PlayAllIssuesSequentialHandles | src/sound.rs:51-83 | successive plays return `next`, `next + 1`, …, pairwise distinct, each finding its own source |
| Sound.SoundManager.constructor | src/sound.rs:51-56 | an empty table and handle 0 first |
| Sound.SoundManager.IssueSoundHandler | src/sound.rs:79-83 | the new state and handle are the issue specification |
| Sound.SoundManager.Play | src/sound.rs:58-77 | the new state and handle are the play specification; the table invariant is kept |
| Sound.SoundManager.RefSoundMut | src/sound.rs:89-91 | the new state and outcome are the update specification |
| Core.NewScheduledEvent | src/core.rs:33-38 | the event reports the given time and runs the given closure |
| Core.CallEventTwice | src/core.rs:40-46 | each call runs the closure once, in call order; the due time never changes |
| LegacyCore.ScheduledAtTen | tests/lib.rs:5-17 | an event created for time 10 with a closure that returns `Ok` returns `Ok` when called at 10 and reports 10 |
| Core.Hash | src/core.rs:3-14 | the map is the pairs inserted left to right |
| Core.HashLastWins | src/core.rs:3-14 | the keys are exactly the pairs' keys, and each maps to the value of its last pair |
| Core.HashKeys | src/core.rs:3-14 | the keys of the map are exactly the keys of the pairs |
| Core.HashLastValue | src/core.rs:3-14 | each key maps to the value of the last pair that has it |
| Core.DuplicateKeyKeepsLast | src/core.rs:3-14 | of two pairs with the same key, the later value wins |
| Core.DefaultUpdate | src/core.rs:49-51 | the default update leaves the object as it is |
| Core.DefaultUpdatesChangeNothing | src/core.rs:49-51 | any number of default updates change nothing |
| LegacyCore.NewScheduledEvent | src/core/mod.rs:21-31 | the event reports the given time, and every call returns exactly the function's result |
| LegacyCore.FailureIsReported | src/core/mod.rs:21-31 | a failing function's error reaches the caller, and the due time is unchanged |
| LegacyCore.DefaultUpdate | src/core/mod.rs:35-39 | the default update has no effect and returns `Ok(())` |

## Left out

- Floating point: points, colours, scales and alphas are exact reals, so rounding is not modelled.
- Integer widths: `u64` clocks, `usize` handles and limits, and `u32` sizes are unbounded naturals. Overflow of the sound-handle counter, and the `i32` casts, are not modelled.
- ggez itself: images, fonts, canvases and sounds are opaque ids. A host call is a log entry. A host failure, and a `?` on its result, are not modelled: every host call succeeds.
- Sound: the fade-in, pitch, repeat and volume setters are recorded as the flags applied. Playback itself is not modelled.
- Console output (`println!`), including the message of the unimplemented `virtual_to_real` case and of the PS3 controller check.
- Concurrency: thread-local stacks become explicit objects, and nothing else shares them.
- The texture setters and getters for scale, rotation, crop and transform offset are not modelled, nor are the texture size, drawing area, centre and `fit_scale`. Only the destination and the colour of the draw parameters are followed.
- `SubScreen::relative_point` and `contains` are not modelled (floating-point geometry).
- The clipping `draw` of graphics/draw.rs is not modelled.
- `TileBatch`, shadows, shapes, the numeric helpers, `main.rs` and `lib.rs` are outside the modelled core.
- Objects.VerticalText.Draw: a draw call carries the fragment's character but not its font and scale; `param.src.h` is taken as 1, since cropping is not modelled; the starting height counts characters where the source's `raw_text.len()` counts UTF-8 bytes, so the model differs for text outside ASCII.
- Objects.Movable.ReplaceText, Objects.Movable.GetText: they require the object to be a text. The source has these only on `MovableText`, and the single `Movable` class merges three source types.
- Objects.Movable.MoveWithFunc, Objects.EffectableWrap.MoveWithFunc: they require `t` not to precede the move function's start time, where the source's `u64` subtraction would overflow.
- Objects.Movable.NewWrap: the wrapped object is modelled by a texture's state. Which wrapped type it is, and the reference accessors, are not modelled.
- Menu.Heights: uses the strings' character counts where the source uses their byte lengths. These agree on ASCII.
- Sound.SoundManager.RefSoundMut: the mutable borrow is modelled as a function the caller applies to the stored source.
- LegacyGraphics.LegacySubScreen: the comparators of graphics/mod.rs are those of graphics.rs and are not modelled again.
- Core.NewScheduledEvent: the closure's side effects are a transformer of an explicit world value.
