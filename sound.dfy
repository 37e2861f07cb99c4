/**
 * The sound table of src/sound.rs: a `SoundManager` hands out handles
 * 0, 1, 2, … from a counter and keeps every sound it started under its
 * handle. Sound data and the playing sources are opaque host values; a
 * source is modelled by the data it was made from, the settings `play`
 * applied to it and whether it was queued to start.
 */
module Sound {
  import opened Base

  /** A `usize` handle; the source's width is not modelled. */
  type SoundHandler = nat

  /** Host sound data (`SoundData`), an opaque handle. */
  type SoundDataId = nat

  /** `SoundPlayFlags`: fade-in in milliseconds, pitch, repeat and volume. */
  datatype SoundPlayFlags = SoundPlayFlags(fadeinMills: nat, pitch: real, repeat: bool, volume: real)

  /** `SoundPlayFlags::default()`: no fade-in, unit pitch, no repeat, full volume. */
  const DefaultPlayFlags: SoundPlayFlags := SoundPlayFlags(0, 1.0, false, 1.0)

  /**
   * A playing source (`PlayableSound`). `settings` is None while the four
   * settings are left as the host made them, and the flags `play` set
   * otherwise; `queued` records `play_later`.
   */
  datatype PlayableSound = PlayableSound(data: SoundDataId, settings: Option<SoundPlayFlags>, queued: bool)

  /** `PlayableSound::from_data`: a fresh source with the host's own settings, not yet started. */
  function FromData(data: SoundDataId): PlayableSound
  {
    PlayableSound(data, None, false)
  }

  /** The source `play` stores: made from the data, the flags set only when given, then queued. */
  function Prepared(data: SoundDataId, flags: Option<SoundPlayFlags>): (r: PlayableSound)
    ensures r.data == data && r.queued
    ensures flags.Some? ==> r.settings == flags
    ensures flags.None? ==> r.settings.None?
  {
    PlayableSound(data, flags, true)
  }

  /** The manager's state: the table and the next handle to issue. */
  datatype ManagerState = ManagerState(playing: map<SoundHandler, PlayableSound>, next: SoundHandler)

  /** `SoundManager::new`. */
  const InitialManager: ManagerState := ManagerState(map[], 0)

  /** Every handle in the table has already been issued. */
  ghost predicate Inv(st: ManagerState)
  {
    forall h :: h in st.playing ==> h < st.next
  }

  /** `issue_sound_handler`: the counter is returned, then incremented. */
  function IssueSpec(st: ManagerState): (r: (ManagerState, SoundHandler))
    ensures r.1 == st.next && r.0.next == st.next + 1 && r.0.playing == st.playing
    ensures Inv(st) ==> Inv(r.0) && r.1 !in st.playing
  {
    (st.(next := st.next + 1), st.next)
  }

  /** `play`: one entry is added, under a handle no earlier entry has, and that handle is returned. */
  function PlaySpec(st: ManagerState, data: SoundDataId, flags: Option<SoundPlayFlags>): (r: (ManagerState, SoundHandler))
    ensures r.1 == st.next && r.0.next == st.next + 1
    ensures r.0.playing.Keys == st.playing.Keys + {r.1}
    ensures r.0.playing[r.1] == Prepared(data, flags)
    ensures forall h :: h in st.playing && h != r.1 ==> r.0.playing[h] == st.playing[h]
    ensures Inv(st) ==> Inv(r.0) && r.1 !in st.playing && |r.0.playing| == |st.playing| + 1
  {
    var (issued, h) := IssueSpec(st);
    (issued.(playing := issued.playing[h := Prepared(data, flags)]), h)
  }

  /** The `unwrap` of `playing_map.get`: the stored source, or a panic for a handle not in the table. */
  function RefSpec(st: ManagerState, h: SoundHandler): (r: Result<PlayableSound>)
    ensures r.Ok? <==> h in st.playing
    ensures r.Ok? ==> r.value == st.playing[h]
  {
    if h in st.playing then Ok(st.playing[h]) else Panic("called `Option::unwrap()` on a `None` value")
  }

  /**
   * What the caller does through `ref_sound_mut`: the stored source is
   * replaced by `f` of itself, or the call panics and nothing changes.
   */
  function UpdateSpec(st: ManagerState, h: SoundHandler, f: PlayableSound -> PlayableSound): (r: (ManagerState, Outcome))
    ensures r.1.Completed? <==> h in st.playing
    ensures h in st.playing ==> r.0 == st.(playing := st.playing[h := f(st.playing[h])])
    ensures h !in st.playing ==> r.0 == st
    ensures Inv(st) ==> Inv(r.0)
  {
    if h in st.playing then (st.(playing := st.playing[h := f(st.playing[h])]), Completed)
    else (st, Aborted("called `Option::unwrap()` on a `None` value"))
  }

  /** Under the invariant, a handle never issued is not found. */
  lemma UnissuedHandlePanics(st: ManagerState, h: SoundHandler)
    requires Inv(st) && h >= st.next
    ensures RefSpec(st, h).Panic?
    ensures UpdateSpec(st, h, x => x) == (st, Aborted("called `Option::unwrap()` on a `None` value"))
  {
  }

  /** The handle `play` returns finds the source it stored; every other lookup is as before. */
  lemma PlayThenRef(st: ManagerState, data: SoundDataId, flags: Option<SoundPlayFlags>, k: SoundHandler)
    requires Inv(st)
    ensures RefSpec(PlaySpec(st, data, flags).0, PlaySpec(st, data, flags).1) == Ok(Prepared(data, flags))
    ensures k != PlaySpec(st, data, flags).1 ==> RefSpec(PlaySpec(st, data, flags).0, k) == RefSpec(st, k)
  {
  }

  /** One `play` request: the data and the optional flags. */
  datatype PlayRequest = PlayRequest(data: SoundDataId, flags: Option<SoundPlayFlags>)

  /** `play` for each request in order: the final state and the handles returned. */
  function PlayAll(st: ManagerState, reqs: seq<PlayRequest>): (ManagerState, seq<SoundHandler>)
    decreases |reqs|
  {
    if reqs == [] then (st, [])
    else
      var (before, hs) := PlayAll(st, reqs[..|reqs| - 1]);
      var (after, h) := PlaySpec(before, reqs[|reqs| - 1].data, reqs[|reqs| - 1].flags);
      (after, hs + [h])
  }

  /**
   * Successive `play` calls return the handles `next`, `next + 1`, …, and the
   * invariant holds throughout.
   */
  lemma {:induction false} PlayAllIssuesSequentialHandles(st: ManagerState, reqs: seq<PlayRequest>)
    requires Inv(st)
    ensures |PlayAll(st, reqs).1| == |reqs|
    ensures PlayAll(st, reqs).0.next == st.next + |reqs|
    ensures forall i :: 0 <= i < |reqs| ==> PlayAll(st, reqs).1[i] == st.next + i
    ensures Inv(PlayAll(st, reqs).0)
    decreases |reqs|
  {
    if reqs != [] {
      PlayAllIssuesSequentialHandles(st, reqs[..|reqs| - 1]);
    }
  }

  /** So the handles of successive `play` calls are pairwise distinct. */
  lemma PlayAllHandlesDistinct(st: ManagerState, reqs: seq<PlayRequest>)
    requires Inv(st)
    ensures forall i, j :: 0 <= i < j < |PlayAll(st, reqs).1| ==> PlayAll(st, reqs).1[i] != PlayAll(st, reqs).1[j]
  {
    PlayAllIssuesSequentialHandles(st, reqs);
  }

  /** After successive `play` calls, each returned handle finds the source of its own request. */
  lemma {:induction false} PlayAllFindsEachSource(st: ManagerState, reqs: seq<PlayRequest>)
    requires Inv(st)
    ensures forall i :: 0 <= i < |reqs| ==>
      RefSpec(PlayAll(st, reqs).0, st.next + i) == Ok(Prepared(reqs[i].data, reqs[i].flags))
    decreases |reqs|
  {
    if reqs != [] {
      var k := |reqs| - 1;
      PlayAllFindsEachSource(st, reqs[..k]);
      PlayAllIssuesSequentialHandles(st, reqs[..k]);
      var before := PlayAll(st, reqs[..k]).0;
      var after := PlaySpec(before, reqs[k].data, reqs[k].flags).0;
      assert PlayAll(st, reqs).0 == after;
      forall i | 0 <= i < k
        ensures RefSpec(after, st.next + i) == Ok(Prepared(reqs[i].data, reqs[i].flags))
      {
        assert reqs[..k][i] == reqs[i];
        PlayKeepsEarlier(before, reqs[k].data, reqs[k].flags, st.next + i);
      }
    }
  }

  /** One `play` leaves every earlier lookup as it was. */
  lemma PlayKeepsEarlier(st: ManagerState, data: SoundDataId, flags: Option<SoundPlayFlags>, h: SoundHandler)
    requires h < st.next
    ensures RefSpec(PlaySpec(st, data, flags).0, h) == RefSpec(st, h)
  {
  }

  /** `SoundManager`. */
  class SoundManager {
    var playingMap: map<SoundHandler, PlayableSound>
    var nextSoundHandler: SoundHandler

    function State(): ManagerState
      reads this
    {
      ManagerState(playingMap, nextSoundHandler)
    }

    ghost predicate Valid()
      reads this
    {
      Inv(State())
    }

    /** `SoundManager::new`: an empty table, the first handle 0. */
    constructor ()
      ensures State() == InitialManager && Valid()
    {
      playingMap := map[];
      nextSoundHandler := 0;
    }

    /** `issue_sound_handler`. */
    method IssueSoundHandler() returns (h: SoundHandler)
      modifies this
      ensures (State(), h) == IssueSpec(old(State()))
    {
      h := nextSoundHandler;
      nextSoundHandler := nextSoundHandler + 1;
    }

    /** `play`. */
    method Play(data: SoundDataId, flags: Option<SoundPlayFlags>) returns (h: SoundHandler)
      requires Valid()
      modifies this
      ensures (State(), h) == PlaySpec(old(State()), data, flags)
      ensures Valid() && h !in old(playingMap)
    {
      var sound := FromData(data);
      if flags.Some? {
        sound := sound.(settings := flags);
      }
      h := IssueSoundHandler();
      sound := sound.(queued := true);
      playingMap := playingMap[h := sound];
    }

    /** `ref_sound`. */
    function RefSound(h: SoundHandler): Result<PlayableSound>
      reads this
    {
      RefSpec(State(), h)
    }

    /** `ref_sound_mut`, with the caller's change to the source passed as `f`. */
    method RefSoundMut(h: SoundHandler, f: PlayableSound -> PlayableSound) returns (o: Outcome)
      modifies this
      ensures (State(), o) == UpdateSpec(old(State()), h, f)
    {
      if h in playingMap {
        playingMap := playingMap[h := f(playingMap[h])];
        o := Completed;
      } else {
        o := Aborted("called `Option::unwrap()` on a `None` value");
      }
    }
  }
}
