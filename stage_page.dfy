/**
 * Stage gating on the stage page: the loaded-id and hovered-id lists, the
 * flags derived from them, the one-shot start-delay timer, the camera
 * trigger, the window click-through decision and the per-avatar updates made
 * from the debug controls.
 *
 * The list reducers and the derived flags are functions; the page's state and
 * its effects form a class whose methods are the effects' bodies and the
 * callbacks that update state. Calls through the preload bridge are logged.
 */
module StagePage {
  import opened Wrappers
  import opened Sequences
  import VrmAvatar
  import ElectronMain

  type TimerId = nat

  /** Delay of the start timer, in milliseconds. */
  const StartDelayMs: nat := 1000

  /** An avatar as the page holds it. */
  datatype AvatarState = AvatarState(
    id: string,
    vrmUrl: string,
    animationUrls: map<string, string>,
    currentEmotion: string,
    currentAnimationName: Option<string>,
    speechText: Option<VrmAvatar.SpeakMessage>)

  function Ids(avatars: seq<AvatarState>): (r: seq<string>)
    ensures |r| == |avatars|
    ensures forall i :: 0 <= i < |avatars| ==> r[i] == avatars[i].id
  {
    seq(|avatars|, i requires 0 <= i < |avatars| => avatars[i].id)
  }

  // ---------------------------------------------------------------------------
  // Derived flags

  /** `allLoaded`: there is an avatar and as many loaded ids as avatars. */
  function AllLoaded(avatars: seq<AvatarState>, loaded: seq<string>): bool
  {
    |avatars| > 0 && |loaded| == |avatars|
  }

  /** `isAvatarHovered`: some avatar is under the pointer. */
  function IsAvatarHovered(hovered: seq<string>): (r: bool)
    ensures r <==> exists id :: id in hovered
  {
    assert hovered != [] ==> hovered[0] in hovered;
    |hovered| > 0
  }

  /** `showLoadingOverlay`. */
  function ShowLoadingOverlay(allLoaded: bool, hasStarted: bool, startCameraAnimation: bool): bool
  {
    !allLoaded || !hasStarted || !startCameraAnimation
  }

  /** The click-through the page asks for: after start, exactly while no avatar is hovered. */
  function ClickThrough(hasStarted: bool, hovered: seq<string>): (r: bool)
    ensures r <==> hasStarted && forall id :: id !in hovered
  {
    if !hasStarted then false else !IsAvatarHovered(hovered)
  }

  /** The bridge call `setWindowClickThrough(ignore)` makes: `forward: true` goes with ignoring. */
  function IgnoreRequest(ignore: bool): (r: ElectronMain.IgnorePayload)
    ensures r.ignore == ignore
    ensures r.options.Some? <==> ignore
    ensures r.options.Some? ==> r.options.value.forward
  {
    if ignore then ElectronMain.IgnorePayload(true, Some(ElectronMain.IgnoreOptions(true)))
    else ElectronMain.IgnorePayload(false, None)
  }

  /**
   * The main process applies the page's request as it is: hover events are
   * forwarded to the page exactly while its window lets clicks through.
   */
  lemma ClickThroughKeepsHoverForwarding(ignore: bool)
    ensures var req := IgnoreRequest(ignore);
      var applied := ElectronMain.FinalOptions(req.ignore, req.options);
      applied == req.options && (applied.Some? && applied.value.forward <==> ignore)
  {
  }

  /** A subset as large as its superset is the whole superset. */
  lemma SubsetOfSameSize<T>(a: set<T>, b: set<T>)
    requires a <= b && |a| == |b|
    ensures a == b
  {
    assert b == a + (b - a);
    assert a * (b - a) == {};
    assert |b - a| == 0;
  }

  /**
   * Counting loaded ids decides "every avatar is loaded", provided avatar ids
   * are distinct and only avatars' ids are ever loaded (the loaded list itself
   * is duplicate-free by construction).
   */
  lemma AllLoadedIffEveryAvatarLoaded(avatars: seq<AvatarState>, loaded: seq<string>)
    requires NoDup(Ids(avatars)) && NoDup(loaded)
    requires forall x :: x in loaded ==> x in Ids(avatars)
    ensures AllLoaded(avatars, loaded) <==> avatars != [] && forall a :: a in avatars ==> a.id in loaded
  {
    var ids := Ids(avatars);
    NoDupCardinality(ids);
    NoDupCardinality(loaded);
    assert Elements(loaded) <= Elements(ids);
    if AllLoaded(avatars, loaded) {
      SubsetOfSameSize(Elements(loaded), Elements(ids));
      forall a | a in avatars ensures a.id in loaded {
        var i :| 0 <= i < |avatars| && avatars[i] == a;
        assert ids[i] in Elements(ids);
      }
    }
    if avatars != [] && forall a :: a in avatars ==> a.id in loaded {
      forall x | x in Elements(ids) ensures x in Elements(loaded) {
        var i :| 0 <= i < |ids| && ids[i] == x;
        assert avatars[i] in avatars;
      }
      assert Elements(ids) == Elements(loaded);
    }
  }

  /** The overlay is hidden only once every avatar is loaded and the stage has started. */
  lemma OverlayHiddenMeansEveryAvatarLoaded(avatars: seq<AvatarState>, loaded: seq<string>,
                                           hasStarted: bool, startCameraAnimation: bool)
    requires NoDup(Ids(avatars)) && NoDup(loaded)
    requires forall x :: x in loaded ==> x in Ids(avatars)
    ensures !ShowLoadingOverlay(AllLoaded(avatars, loaded), hasStarted, startCameraAnimation) ==>
      && avatars != [] && hasStarted && startCameraAnimation
      && forall a :: a in avatars ==> a.id in loaded
  {
    AllLoadedIffEveryAvatarLoaded(avatars, loaded);
  }

  // ---------------------------------------------------------------------------
  // Per-avatar updates

  /** `avatars.map(a => a.id === id ? update(a) : a)`. */
  function UpdateAvatar(avatars: seq<AvatarState>, id: string, update: AvatarState -> AvatarState)
    : (r: seq<AvatarState>)
    ensures |r| == |avatars|
    ensures forall i :: 0 <= i < |avatars| && avatars[i].id != id ==> r[i] == avatars[i]
    ensures forall i :: 0 <= i < |avatars| && avatars[i].id == id ==> r[i] == update(avatars[i])
  {
    if avatars == [] then []
    else [if avatars[0].id == id then update(avatars[0]) else avatars[0]] + UpdateAvatar(avatars[1..], id, update)
  }

  /** The emotion change: the avatar with the id gets the emotion, and nothing else changes. */
  function WithEmotion(avatars: seq<AvatarState>, id: string, emotion: string): (r: seq<AvatarState>)
    ensures Ids(r) == Ids(avatars)
    ensures forall i :: 0 <= i < |avatars| && avatars[i].id != id ==> r[i] == avatars[i]
    ensures forall i :: 0 <= i < |avatars| && avatars[i].id == id ==>
      r[i] == avatars[i].(currentEmotion := emotion)
  {
    UpdateAvatar(avatars, id, (a: AvatarState) => a.(currentEmotion := emotion))
  }

  /** The animation change: the avatar with the id gets the animation, and nothing else changes. */
  function WithAnimation(avatars: seq<AvatarState>, id: string, animation: string): (r: seq<AvatarState>)
    ensures Ids(r) == Ids(avatars)
    ensures forall i :: 0 <= i < |avatars| && avatars[i].id != id ==> r[i] == avatars[i]
    ensures forall i :: 0 <= i < |avatars| && avatars[i].id == id ==>
      r[i] == avatars[i].(currentAnimationName := Some(animation))
  {
    UpdateAvatar(avatars, id, (a: AvatarState) => a.(currentAnimationName := Some(animation)))
  }

  // ---------------------------------------------------------------------------
  // The page

  class StageGate {
    /** The page runs in a window whose bridge has `setWindowIgnoreMouseEvents`. */
    const hasBridge: bool

    var avatars: seq<AvatarState>
    var loadedAvatarIds: seq<string>
    var hoveredAvatarIds: seq<string>
    var hasStarted: bool
    var startCameraAnimation: bool
    var cameraAnimated: bool
    /** `startDelayRef.current`. */
    var startDelay: Option<TimerId>
    /** The start-delay effect's last run returned its cleanup, which React has not run yet. */
    var startDelayCleanup: bool

    // Armed start timers with their delay, fresh ids, and the bridge calls made.
    var timers: map<TimerId, nat>
    var nextTimer: nat
    var ignoreCalls: seq<ElectronMain.IgnorePayload>

    /** Both id lists are duplicate-free; at most one start timer is armed and it is the remembered one. */
    ghost predicate Valid()
      reads this
    {
      && NoDup(loadedAvatarIds)
      && NoDup(hoveredAvatarIds)
      && timers.Keys == OptionSet(startDelay)
      && (forall t :: t in timers ==> t < nextTimer && timers[t] == StartDelayMs)
    }

    predicate AllAvatarsLoaded()
      reads this
    {
      AllLoaded(avatars, loadedAvatarIds)
    }

    constructor (hasBridge: bool, avatars: seq<AvatarState>)
      ensures Valid()
      ensures this.hasBridge == hasBridge && this.avatars == avatars
      ensures loadedAvatarIds == [] && hoveredAvatarIds == []
      ensures !hasStarted && !startCameraAnimation && !cameraAnimated
      ensures startDelay.None? && !startDelayCleanup && timers == map[] && ignoreCalls == []
    {
      this.hasBridge := hasBridge;
      this.avatars := avatars;
      loadedAvatarIds, hoveredAvatarIds := [], [];
      hasStarted, startCameraAnimation, cameraAnimated := false, false, false;
      startDelay, startDelayCleanup := None, false;
      timers, nextTimer, ignoreCalls := map[], 0, [];
    }

    /** `handleAvatarLoad`: the id joins the loaded list unless it is there. */
    method HandleAvatarLoad(id: string)
      requires Valid()
      modifies this`loadedAvatarIds
      ensures Valid()
      ensures loadedAvatarIds == AddIfAbsent(old(loadedAvatarIds), id)
      ensures Elements(loadedAvatarIds) == Elements(old(loadedAvatarIds)) + {id}
    {
      loadedAvatarIds := AddIfAbsent(loadedAvatarIds, id);
    }

    /** `handleAvatarPointerOver`: the id joins the hovered list unless it is there. */
    method HandleAvatarPointerOver(id: string)
      requires Valid()
      modifies this`hoveredAvatarIds
      ensures Valid()
      ensures hoveredAvatarIds == AddIfAbsent(old(hoveredAvatarIds), id)
      ensures IsAvatarHovered(hoveredAvatarIds)
    {
      hoveredAvatarIds := AddIfAbsent(hoveredAvatarIds, id);
    }

    /** `handleAvatarPointerOut`: the id leaves the hovered list; the other ids keep their order. */
    method HandleAvatarPointerOut(id: string)
      requires Valid()
      modifies this`hoveredAvatarIds
      ensures Valid()
      ensures hoveredAvatarIds == Without(old(hoveredAvatarIds), id)
      ensures id !in hoveredAvatarIds
    {
      hoveredAvatarIds := Without(hoveredAvatarIds, id);
    }

    /** The emotion control of avatar `id`. */
    method ChangeEmotion(id: string, emotion: string)
      modifies this`avatars
      ensures avatars == WithEmotion(old(avatars), id, emotion)
    {
      avatars := WithEmotion(avatars, id, emotion);
    }

    /** The animation control of avatar `id`. */
    method ChangeAnimation(id: string, animation: string)
      modifies this`avatars
      ensures avatars == WithAnimation(old(avatars), id, animation)
    {
      avatars := WithAnimation(avatars, id, animation);
    }

    /** Cancels the start timer, if one is armed. */
    method ClearStartDelay()
      requires Valid()
      modifies this`startDelay, this`timers
      ensures Valid()
      ensures startDelay.None? && timers == map[]
    {
      if startDelay.Some? {
        timers := timers - {startDelay.value};
        startDelay := None;
      }
    }

    /** The cleanup the start-delay effect returned, when React runs it. */
    method StartDelayCleanup()
      requires Valid()
      modifies this`startDelay, this`timers, this`startDelayCleanup
      ensures Valid() && !startDelayCleanup
      ensures old(startDelayCleanup) ==> startDelay.None? && timers == map[]
      ensures !old(startDelayCleanup) ==> startDelay == old(startDelay) && timers == old(timers)
    {
      if startDelayCleanup {
        ClearStartDelay();
        startDelayCleanup := false;
      }
    }

    /**
     * The start-delay effect re-running (its previous cleanup first). When not
     * every avatar is loaded, the timer is cancelled and the stage is not
     * started. Otherwise, unless the stage has started or a timer is armed, a
     * 1000 ms timer is armed and its cleanup registered.
     */
    method StartDelayEffect()
      requires Valid()
      modifies this`startDelay, this`timers, this`startDelayCleanup, this`nextTimer, this`hasStarted
      ensures Valid()
      ensures !AllAvatarsLoaded() ==>
        !hasStarted && startDelay.None? && timers == map[] && !startDelayCleanup
      ensures var armed := if old(startDelayCleanup) then None else old(startDelay);
        AllAvatarsLoaded() && (old(hasStarted) || armed.Some?) ==>
          hasStarted == old(hasStarted) && startDelay == armed && !startDelayCleanup
      ensures var armed := if old(startDelayCleanup) then None else old(startDelay);
        AllAvatarsLoaded() && !old(hasStarted) && armed.None? ==>
          && !hasStarted && startDelayCleanup
          && startDelay == Some(old(nextTimer))
          && timers == map[old(nextTimer) := StartDelayMs]
    {
      StartDelayCleanup();
      if !AllAvatarsLoaded() {
        ClearStartDelay();
        hasStarted := false;
        return;
      }
      if hasStarted || startDelay.Some? {
        return;
      }
      var t := nextTimer;
      nextTimer := nextTimer + 1;
      timers := map[t := StartDelayMs];
      startDelay := Some(t);
      startDelayCleanup := true;
    }

    /** The start timer fires: the stage starts and the timer is forgotten. */
    method StartDelayFires(t: TimerId)
      requires Valid() && t in timers
      modifies this`hasStarted, this`startDelay, this`timers
      ensures Valid()
      ensures hasStarted && startDelay.None? && timers == map[]
    {
      hasStarted := true;
      timers := timers - {t};
      startDelay := None;
    }

    /**
     * The camera-trigger effect: the animation is triggered only when every
     * avatar is loaded, the stage has started and it is neither triggered nor
     * finished; it is reset when either condition lapses.
     */
    method CameraTriggerEffect()
      modifies this`startCameraAnimation
      ensures !AllAvatarsLoaded() || !hasStarted ==> !startCameraAnimation
      ensures AllAvatarsLoaded() && hasStarted && !cameraAnimated ==> startCameraAnimation
      ensures AllAvatarsLoaded() && hasStarted && cameraAnimated ==>
        startCameraAnimation == old(startCameraAnimation)
      ensures startCameraAnimation && !old(startCameraAnimation) ==>
        AllAvatarsLoaded() && hasStarted && !cameraAnimated
    {
      if AllAvatarsLoaded() && hasStarted && !startCameraAnimation && !cameraAnimated {
        startCameraAnimation := true;
      }
      if !AllAvatarsLoaded() || !hasStarted {
        startCameraAnimation := false;
      }
    }

    /** The camera animation reports its end. */
    method CameraAnimationFinished()
      modifies this`cameraAnimated
      ensures cameraAnimated
    {
      cameraAnimated := true;
    }

    /** `setWindowClickThrough`: asks the bridge, when there is one, for the click-through. */
    method SetWindowClickThrough(ignore: bool)
      modifies this`ignoreCalls
      ensures ignoreCalls == old(ignoreCalls) + (if hasBridge then [IgnoreRequest(ignore)] else [])
    {
      if hasBridge {
        if ignore {
          ignoreCalls := ignoreCalls + [ElectronMain.IgnorePayload(true, Some(ElectronMain.IgnoreOptions(true)))];
        } else {
          ignoreCalls := ignoreCalls + [ElectronMain.IgnorePayload(false, None)];
        }
      }
    }

    /**
     * The click-through effect: before start the window always takes clicks;
     * after start it lets them through exactly while no avatar is hovered.
     */
    method ClickThroughEffect()
      modifies this`ignoreCalls
      ensures ignoreCalls ==
        old(ignoreCalls) + (if hasBridge then [IgnoreRequest(ClickThrough(hasStarted, hoveredAvatarIds))] else [])
    {
      if !hasStarted {
        SetWindowClickThrough(false);
        return;
      }
      SetWindowClickThrough(!IsAvatarHovered(hoveredAvatarIds));
    }

    /**
     * The page unmounts: the start-delay cleanup runs if registered, and the
     * window is always set back to taking clicks.
     */
    method Unmount()
      requires Valid()
      modifies this`startDelay, this`timers, this`startDelayCleanup, this`ignoreCalls
      ensures Valid() && !startDelayCleanup
      ensures old(startDelayCleanup) ==> startDelay.None? && timers == map[]
      ensures ignoreCalls == old(ignoreCalls) + (if hasBridge then [IgnoreRequest(false)] else [])
      ensures hasBridge ==> !ignoreCalls[|ignoreCalls| - 1].ignore
    {
      StartDelayCleanup();
      SetWindowClickThrough(false);
    }
  }
}
