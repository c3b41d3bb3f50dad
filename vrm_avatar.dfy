/**
 * The per-avatar controllers of the VRM avatar component: the animation
 * switch with its force-idle timer, the material baseline table and the
 * one-shot fade-in, the window-drag accumulator, and the speech bubble.
 *
 * Clips and actions are named by their clip name (the loader builds the same
 * clip for the same name, and the mixer keeps one action per clip); materials
 * are integer ids; timers and animation frames are ids with explicit methods for
 * their callbacks; calls into foreign code are appended to log fields.
 */
module VrmAvatar {
  import opened Wrappers
  import opened Sequences
  import opened JsMath

  type ClipName = string
  type TimerId = nat

  /** The clip an avatar returns to; it loops and never gets a force-idle timer. */
  const IdleClip: ClipName := "idle"
  /** Delay of the force-idle timer, in milliseconds. */
  const ForceIdleDelayMs: nat := 3000
  /** AVATAR_APPEAR_DELAY, in seconds. */
  const AvatarAppearDelay: real := 1.0

  // ---------------------------------------------------------------------------
  // Animation switching

  /** A `finished` listener added to the mixer; it acts for the action of `action`. */
  datatype FinishedListener = FinishedListener(id: nat, action: ClipName)

  /** An armed force-idle timer: the action it was armed for and that request's listener. */
  datatype ForceIdleTimer = ForceIdleTimer(action: ClipName, listener: nat, delayMs: nat)

  /**
   * The animation controller's invariant on its timer and listener state: at
   * most one force-idle timer is armed and it is the remembered one; it belongs
   * to a non-idle clip whose request's listener is still registered; ids are
   * fresh below `nextId`.
   */
  ghost predicate Bookkeeping(timers: map<TimerId, ForceIdleTimer>, animationTimeout: Option<TimerId>,
                              listeners: seq<FinishedListener>, nextId: nat)
  {
    && timers.Keys == OptionSet(animationTimeout)
    && NoDup(listeners)
    && (forall l :: l in listeners ==> l.id < nextId)
    && (forall t :: t in timers ==>
          && t < nextId
          && timers[t].action != IdleClip
          && timers[t].delayMs == ForceIdleDelayMs
          && FinishedListener(timers[t].listener, timers[t].action) in listeners)
  }

  /** Registering a listener with a fresh id keeps the bookkeeping. */
  lemma FreshListenerKeepsBookkeeping(timers: map<TimerId, ForceIdleTimer>, animationTimeout: Option<TimerId>,
                                      listeners: seq<FinishedListener>, nextId: nat, clip: ClipName)
    requires Bookkeeping(timers, animationTimeout, listeners, nextId)
    ensures FinishedListener(nextId, clip) !in listeners
    ensures Bookkeeping(timers, animationTimeout, listeners + [FinishedListener(nextId, clip)], nextId + 1)
  {
    var l := FinishedListener(nextId, clip);
    assert NoDup(listeners + [l]) by {
      forall i, j | 0 <= i < j < |listeners| + 1 ensures (listeners + [l])[i] != (listeners + [l])[j] {
        if j == |listeners| {
          assert (listeners + [l])[i] == listeners[i];
        }
      }
    }
  }

  /** Arming a timer with a fresh id for a registered non-idle listener keeps the bookkeeping. */
  lemma ArmedTimerKeepsBookkeeping(listeners: seq<FinishedListener>, nextId: nat, l: FinishedListener)
    requires Bookkeeping(map[], None, listeners, nextId) && l in listeners && l.action != IdleClip
    ensures Bookkeeping(map[nextId := ForceIdleTimer(l.action, l.id, ForceIdleDelayMs)], Some(nextId), listeners, nextId + 1)
  {
  }

  /** Forgetting the armed timer keeps the bookkeeping. */
  lemma ClearedTimerKeepsBookkeeping(timers: map<TimerId, ForceIdleTimer>, animationTimeout: Option<TimerId>,
                                     listeners: seq<FinishedListener>, nextId: nat)
    requires Bookkeeping(timers, animationTimeout, listeners, nextId)
    ensures Bookkeeping(map[], None, listeners, nextId)
  {
  }

  /**
   * The registered listeners that act on one `finished` event for the action
   * of `a`: the mixer calls every listener, and each acts only for its own
   * action. Each one reached reports the end once.
   */
  function Reached(ls: seq<FinishedListener>, a: ClipName): (r: seq<FinishedListener>)
    ensures forall l :: l in r <==> l in ls && l.action == a
    ensures |r| <= |ls|
  {
    if ls == [] then []
    else (if ls[0].action == a then [ls[0]] else []) + Reached(ls[1..], a)
  }

  /**
   * With only the current request's listener registered, one `finished` event
   * is reported at most once, and only for the action that is playing.
   */
  lemma OnlyCurrentListenerReportsOnce(ls: seq<FinishedListener>, current: Option<ClipName>, a: ClipName)
    requires |ls| <= 1 && forall l :: l in ls ==> current == Some(l.action)
    ensures |Reached(ls, a)| <= 1
    ensures Reached(ls, a) != [] ==> current == Some(a)
  {
    if Reached(ls, a) != [] {
      assert Reached(ls, a)[0] in Reached(ls, a);
    }
  }

  /** Removing the only registered listener leaves none. */
  lemma WithoutSole(ls: seq<FinishedListener>, l: FinishedListener)
    requires |ls| <= 1 && l in ls
    ensures Without(ls, l) == []
  {
    if Without(ls, l) != [] {
      assert Without(ls, l)[0] in Without(ls, l);
    }
  }

  class AnimationController {
    // What the loader offers (`vrmRef`, `mixer`, `loadedAnimationNames`, and the
    // names `createAnimationClipFromVRMA` builds a clip for).
    var hasVrm: bool
    var hasMixer: bool
    var loadedAnimationNames: set<ClipName>
    var buildableClips: set<ClipName>
    /** Whether the `onAnimationEnd` prop is given. */
    const hasOnAnimationEnd: bool

    var currentAction: Option<ClipName>
    var animationTimeout: Option<TimerId>
    var finishedListeners: seq<FinishedListener>
    /** Actions set to play once and clamp when finished. */
    var playOnce: set<ClipName>

    // The browser's armed timers, fresh ids, and the `onAnimationEnd` calls made.
    var timers: map<TimerId, ForceIdleTimer>
    var nextId: nat
    var endedReports: seq<ClipName>

    /**
     * At most one force-idle timer is armed and it is the one remembered; it
     * belongs to a non-idle clip whose request's listener is still registered.
     */
    ghost predicate Valid()
      reads this`timers, this`animationTimeout, this`finishedListeners, this`nextId
    {
      Bookkeeping(timers, animationTimeout, finishedListeners, nextId)
    }

    /** The armed timer, if any, was armed for the current action. */
    ghost predicate TimerArmedForCurrent()
      reads this`timers, this`currentAction
    {
      forall t :: t in timers ==> currentAction == Some(timers[t].action)
    }

    /**
     * The intended listener state: only the current request's listener is
     * registered, so a `finished` event reaches at most one listener.
     */
    ghost predicate OnlyCurrentListener()
      reads this`finishedListeners, this`currentAction
    {
      |finishedListeners| <= 1 && forall l :: l in finishedListeners ==> currentAction == Some(l.action)
    }

    /** The loader can serve `name` and build its clip. */
    predicate Offers(name: ClipName)
      reads this
    {
      Accepts(Some(name)) && name in buildableClips
    }

    /**
     * The animation effect goes past its first guard for this request: an
     * absent or empty name is rejected like an unloaded one.
     */
    predicate Accepts(name: Option<ClipName>)
      reads this
    {
      hasVrm && hasMixer && name.Some? && name.value != "" && name.value in loadedAnimationNames
    }

    constructor (hasOnAnimationEnd: bool)
      ensures Valid() && TimerArmedForCurrent()
      ensures this.hasOnAnimationEnd == hasOnAnimationEnd
      ensures !hasVrm && !hasMixer && loadedAnimationNames == {} && buildableClips == {}
      ensures currentAction.None? && animationTimeout.None? && finishedListeners == [] && playOnce == {}
      ensures timers == map[] && nextId == 0 && endedReports == []
    {
      this.hasOnAnimationEnd := hasOnAnimationEnd;
      hasVrm, hasMixer := false, false;
      loadedAnimationNames, buildableClips := {}, {};
      currentAction, animationTimeout := None, None;
      finishedListeners, playOnce := [], {};
      timers, nextId, endedReports := map[], 0, [];
    }

    /** The loader's state changes. */
    method AssetsChanged(vrm: bool, mixer: bool, loaded: set<ClipName>, buildable: set<ClipName>)
      modifies this`hasVrm, this`hasMixer, this`loadedAnimationNames, this`buildableClips
      ensures hasVrm == vrm && hasMixer == mixer
      ensures loadedAnimationNames == loaded && buildableClips == buildable
    {
      hasVrm, hasMixer := vrm, mixer;
      loadedAnimationNames, buildableClips := loaded, buildable;
    }

    /** Cancels the armed force-idle timer, if any. */
    method ClearForceIdleTimer()
      modifies this`animationTimeout, this`timers
      requires timers.Keys == OptionSet(animationTimeout)
      ensures animationTimeout.None? && timers == map[]
    {
      if animationTimeout.Some? {
        timers := timers - {animationTimeout.value};
        animationTimeout := None;
      }
    }

    /**
     * Crossfades to the idle clip when it can be built, and then reports the end
     * of `name`.
     */
    method ReturnToIdle(name: ClipName)
      modifies this`currentAction, this`endedReports
      ensures IdleClip in buildableClips ==>
        && currentAction == Some(IdleClip)
        && endedReports == old(endedReports) + (if hasOnAnimationEnd then [name] else [])
      ensures IdleClip !in buildableClips ==>
        currentAction == old(currentAction) && endedReports == old(endedReports)
    {
      if IdleClip in buildableClips {
        currentAction := Some(IdleClip);
        if hasOnAnimationEnd {
          endedReports := endedReports + [name];
        }
      }
    }

    /**
     * The animation-switching effect for `currentAnimationName == name`.
     * A request the loader cannot serve changes nothing. Otherwise the armed
     * timer is cancelled first; the clip already current changes nothing more; a
     * clip that cannot be built stops the current action; `idle` starts with no
     * timer or listener; any other clip plays once, gets a `finished` listener
     * and a 3000 ms timer. A request with no current action takes the switching
     * path as well.
     */
    method RequestAnimation(name: Option<ClipName>)
      requires Valid()
      modifies this`currentAction, this`animationTimeout, this`finishedListeners, this`playOnce
      modifies this`timers, this`nextId, this`endedReports
      ensures Valid()
      ensures !old(Accepts(name)) ==> unchanged(this)
      ensures old(Accepts(name)) ==>
        && TimerArmedForCurrent()
        && endedReports == old(endedReports)
        && (old(animationTimeout).Some? ==> old(animationTimeout).value !in timers)
      ensures old(Accepts(name)) && name.value !in buildableClips ==>
        && currentAction.None? && animationTimeout.None? && timers == map[] && nextId == old(nextId)
        && finishedListeners == old(finishedListeners) && playOnce == old(playOnce)
      ensures old(Accepts(name)) && name.value in buildableClips && old(currentAction) == name ==>
        && currentAction == old(currentAction) && animationTimeout.None? && timers == map[] && nextId == old(nextId)
        && finishedListeners == old(finishedListeners) && playOnce == old(playOnce)
      ensures old(Accepts(name)) && name.value in buildableClips && old(currentAction) != name && name.value == IdleClip ==>
        && currentAction == name && animationTimeout.None? && timers == map[] && nextId == old(nextId)
        && finishedListeners == old(finishedListeners) && playOnce == old(playOnce)
      ensures old(Accepts(name)) && name.value in buildableClips && old(currentAction) != name && name.value != IdleClip ==>
        && currentAction == name
        && playOnce == old(playOnce) + {name.value}
        && finishedListeners == old(finishedListeners) + [FinishedListener(old(nextId), name.value)]
        && animationTimeout == Some(old(nextId) + 1) && nextId == old(nextId) + 2
        && timers == map[old(nextId) + 1 := ForceIdleTimer(name.value, old(nextId), ForceIdleDelayMs)]
    {
      if !hasVrm || !hasMixer || name.None? || name.value == "" || name.value !in loadedAnimationNames {
        return;
      }
      ClearedTimerKeepsBookkeeping(timers, animationTimeout, finishedListeners, nextId);
      ClearForceIdleTimer();
      SwitchTo(name.value);
    }

    /** The animation effect past its guard and the cancelled timer: the switch itself. */
    method SwitchTo(clip: ClipName)
      requires Valid() && animationTimeout.None?
      modifies this`currentAction, this`animationTimeout, this`finishedListeners, this`playOnce
      modifies this`timers, this`nextId
      ensures Valid() && TimerArmedForCurrent()
      ensures clip !in buildableClips ==>
        && currentAction.None? && animationTimeout.None? && timers == map[] && nextId == old(nextId)
        && finishedListeners == old(finishedListeners) && playOnce == old(playOnce)
      ensures clip in buildableClips && (old(currentAction) == Some(clip) || clip == IdleClip) ==>
        && currentAction == Some(clip) && animationTimeout.None? && timers == map[] && nextId == old(nextId)
        && finishedListeners == old(finishedListeners) && playOnce == old(playOnce)
      ensures clip in buildableClips && old(currentAction) != Some(clip) && clip != IdleClip ==>
        && currentAction == Some(clip)
        && playOnce == old(playOnce) + {clip}
        && finishedListeners == old(finishedListeners) + [FinishedListener(old(nextId), clip)]
        && animationTimeout == Some(old(nextId) + 1) && nextId == old(nextId) + 2
        && timers == map[old(nextId) + 1 := ForceIdleTimer(clip, old(nextId), ForceIdleDelayMs)]
    {
      if clip in buildableClips {
        if currentAction != Some(clip) {
          if clip != IdleClip {
            StartOneShot(clip);
          } else {
            currentAction := Some(clip);
          }
        }
      } else {
        currentAction := None;
      }
    }

    /**
     * The animation effect as evidently intended: when the current action is
     * about to change, the superseded request's timer is cancelled and its
     * `finished` listener removed before the switch, so at most the current
     * request's listener stays registered.
     */
    method RequestAnimationRemovingSuperseded(name: Option<ClipName>)
      requires Valid() && OnlyCurrentListener()
      modifies this`currentAction, this`animationTimeout, this`finishedListeners, this`playOnce
      modifies this`timers, this`nextId, this`endedReports
      ensures Valid() && OnlyCurrentListener()
      ensures !old(Accepts(name)) ==> unchanged(this)
      ensures old(Accepts(name)) ==>
        && currentAction == (if name.value in buildableClips then name else None)
        && endedReports == old(endedReports)
      ensures old(Accepts(name)) && currentAction != old(currentAction) ==>
        forall l :: l in old(finishedListeners) ==> l !in finishedListeners
      ensures old(Accepts(name)) && name.value in buildableClips && old(currentAction) != name && name.value != IdleClip ==>
        finishedListeners == [FinishedListener(old(nextId), name.value)] && nextId == old(nextId) + 2
    {
      if !Accepts(name) {
        return;
      }
      var next := if name.value in buildableClips then name else None;
      if currentAction != next {
        RemoveSupersededRequest();
        SwitchTo(name.value);
      } else {
        RequestAnimation(name);
      }
    }

    /** Cancels the current request's timer and removes its `finished` listener. */
    method RemoveSupersededRequest()
      requires Valid()
      modifies this`animationTimeout, this`timers, this`finishedListeners
      ensures Valid()
      ensures animationTimeout.None? && timers == map[] && finishedListeners == []
    {
      ClearedTimerKeepsBookkeeping(timers, animationTimeout, finishedListeners, nextId);
      ClearForceIdleTimer();
      finishedListeners := [];
    }

    /**
     * Plays `clip` once: its action clamps when finished, gets a `finished`
     * listener (added as the mixer adds listeners, once) and a force-idle timer.
     */
    method StartOneShot(clip: ClipName)
      requires Valid() && clip != IdleClip && animationTimeout.None?
      modifies this`currentAction, this`animationTimeout, this`finishedListeners, this`playOnce
      modifies this`timers, this`nextId
      ensures Valid() && TimerArmedForCurrent()
      ensures currentAction == Some(clip)
      ensures playOnce == old(playOnce) + {clip}
      ensures finishedListeners == old(finishedListeners) + [FinishedListener(old(nextId), clip)]
      ensures animationTimeout == Some(old(nextId) + 1) && nextId == old(nextId) + 2
      ensures timers == map[old(nextId) + 1 := ForceIdleTimer(clip, old(nextId), ForceIdleDelayMs)]
    {
      var listener := AddFinishedListener(clip);
      ArmForceIdleTimer(listener);
      playOnce, currentAction := playOnce + {clip}, Some(clip);
    }

    /** Adds a `finished` listener with a fresh id for the action of `clip`. */
    method AddFinishedListener(clip: ClipName) returns (l: FinishedListener)
      requires Valid()
      modifies this`finishedListeners, this`nextId
      ensures Valid()
      ensures l == FinishedListener(old(nextId), clip)
      ensures finishedListeners == old(finishedListeners) + [l] && nextId == old(nextId) + 1
    {
      FreshListenerKeepsBookkeeping(timers, animationTimeout, finishedListeners, nextId, clip);
      l := FinishedListener(nextId, clip);
      finishedListeners := AddIfAbsent(finishedListeners, l);
      nextId := nextId + 1;
    }

    /** Arms the 3000 ms force-idle timer for the request whose listener is `l`. */
    method ArmForceIdleTimer(l: FinishedListener)
      requires Valid() && animationTimeout.None? && l in finishedListeners && l.action != IdleClip
      modifies this`timers, this`animationTimeout, this`nextId
      ensures Valid()
      ensures animationTimeout == Some(old(nextId)) && nextId == old(nextId) + 1
      ensures timers == map[old(nextId) := ForceIdleTimer(l.action, l.id, ForceIdleDelayMs)]
    {
      assert timers == map[];
      ArmedTimerKeepsBookkeeping(finishedListeners, nextId, l);
      var t := nextId;
      timers, animationTimeout, nextId := map[t := ForceIdleTimer(l.action, l.id, ForceIdleDelayMs)], Some(t), nextId + 1;
    }

    /**
     * The mixer calls listener `l` with a `finished` event for `eventAction`.
     * Only the action `l` was added for counts: then `l` removes itself, the
     * avatar returns to idle, the end is reported and the armed timer (whichever
     * it is) is cancelled.
     */
    method FinishedEventReaches(l: FinishedListener, eventAction: ClipName)
      requires Valid() && l in finishedListeners
      modifies this`currentAction, this`animationTimeout, this`finishedListeners, this`timers, this`endedReports
      ensures Valid()
      ensures old(OnlyCurrentListener()) ==> OnlyCurrentListener()
      ensures old(OnlyCurrentListener()) && eventAction == l.action ==> finishedListeners == []
      ensures eventAction != l.action ==> unchanged(this)
      ensures eventAction == l.action ==>
        && TimerArmedForCurrent()
        && finishedListeners == Without(old(finishedListeners), l)
        && l !in finishedListeners
        && animationTimeout.None? && timers == map[]
        && (IdleClip in buildableClips ==>
              && currentAction == Some(IdleClip)
              && endedReports == old(endedReports) + (if hasOnAnimationEnd then [l.action] else []))
        && (IdleClip !in buildableClips ==>
              currentAction == old(currentAction) && endedReports == old(endedReports))
    {
      if eventAction != l.action {
        return;
      }
      if |finishedListeners| <= 1 {
        WithoutSole(finishedListeners, l);
      }
      finishedListeners := Without(finishedListeners, l);
      ReturnToIdle(l.action);
      ClearForceIdleTimer();
    }

    /**
     * The force-idle timer's callback: if its action is still current, the
     * avatar returns to idle, the end is reported and the request's listener is
     * removed; in every case the timer is forgotten.
     */
    method ForceIdleTimerFires(t: TimerId)
      requires Valid() && t in timers
      modifies this`currentAction, this`animationTimeout, this`finishedListeners, this`timers, this`endedReports
      ensures Valid() && TimerArmedForCurrent()
      ensures old(OnlyCurrentListener()) ==> OnlyCurrentListener()
      ensures old(OnlyCurrentListener()) && old(currentAction) == Some(old(timers)[t].action) ==> finishedListeners == []
      ensures animationTimeout.None? && timers == map[]
      ensures var job := old(timers)[t];
        old(currentAction) == Some(job.action) ==>
          && finishedListeners == Without(old(finishedListeners), FinishedListener(job.listener, job.action))
          && FinishedListener(job.listener, job.action) !in finishedListeners
          && (IdleClip in buildableClips ==>
                && currentAction == Some(IdleClip)
                && endedReports == old(endedReports) + (if hasOnAnimationEnd then [job.action] else []))
          && (IdleClip !in buildableClips ==>
                currentAction == old(currentAction) && endedReports == old(endedReports))
      ensures var job := old(timers)[t];
        old(currentAction) != Some(job.action) ==>
          && currentAction == old(currentAction) && finishedListeners == old(finishedListeners)
          && endedReports == old(endedReports)
    {
      var job := timers[t];
      if currentAction == Some(job.action) && job.action != IdleClip {
        if |finishedListeners| <= 1 {
          WithoutSole(finishedListeners, FinishedListener(job.listener, job.action));
        }
        ReturnToIdle(job.action);
        finishedListeners := Without(finishedListeners, FinishedListener(job.listener, job.action));
      }
      timers := timers - {t};
      animationTimeout := None;
    }
  }

  /**
   * A listener of an earlier request is never removed when the clip switches,
   * so one playback of "wave" can be reported as ended twice: "wave" is
   * interrupted by "bow" (its listener stays), "bow" finishes, "wave" is
   * requested again, and the mixer's one `finished` event for the wave action
   * then reaches both wave listeners (`reached`), each of which reports.
   */
  method LeftoverListenerReportsTwice() returns (c: AnimationController, reached: seq<FinishedListener>)
    ensures reached == [FinishedListener(0, "wave"), FinishedListener(4, "wave")]
    ensures c.endedReports == ["bow", "wave", "wave"]
    ensures c.finishedListeners == []
  {
    c := WaveRequestedAgain();
    var wave := "wave";
    var first, second := FinishedListener(0, wave), FinishedListener(4, wave);
    assert [first, second][1..] == [second];
    reached := Reached(c.finishedListeners, wave);
    assert Without([first, second], first) == [second];
    c.FinishedEventReaches(first, wave);
    assert c.endedReports == ["bow", wave];
    assert c.finishedListeners == [second];
    c.FinishedEventReaches(second, wave);
    assert c.endedReports == ["bow", wave, wave];
  }

  /**
   * The same sequence with the superseded request removed on each switch: the
   * one `finished` event for the second wave action reaches one listener, and
   * "wave" is reported once.
   */
  method SupersededListenerReportsOnce() returns (c: AnimationController, reached: seq<FinishedListener>)
    ensures reached == [FinishedListener(4, "wave")]
    ensures c.endedReports == ["bow", "wave"]
    ensures c.finishedListeners == []
  {
    c := BowEndedRemovingSuperseded();
    var wave := "wave";
    c.RequestAnimationRemovingSuperseded(Some(wave));
    assert c.finishedListeners == [FinishedListener(4, wave)];
    reached := Reached(c.finishedListeners, wave);
    assert Without([FinishedListener(4, wave)], FinishedListener(4, wave)) == [];
    c.FinishedEventReaches(FinishedListener(4, wave), wave);
  }

  /** "wave", then "bow" with the wave request removed, and "bow" plays to its end. */
  method BowEndedRemovingSuperseded() returns (c: AnimationController)
    ensures fresh(c) && c.Valid() && c.OnlyCurrentListener() && c.hasOnAnimationEnd
    ensures c.Accepts(Some("wave")) && "wave" in c.buildableClips && IdleClip in c.buildableClips
    ensures c.currentAction == Some(IdleClip) && c.nextId == 4
    ensures c.finishedListeners == [] && c.endedReports == ["bow"]
  {
    var bow := "bow";
    c := OfferingAvatar();
    c.RequestAnimationRemovingSuperseded(Some("wave"));
    c.RequestAnimationRemovingSuperseded(Some(bow));
    assert c.finishedListeners == [FinishedListener(2, bow)];
    assert Without([FinishedListener(2, bow)], FinishedListener(2, bow)) == [];
    c.FinishedEventReaches(FinishedListener(2, bow), bow);
  }

  /** After "bow" has ended, "wave" is requested again: two wave listeners are registered. */
  method WaveRequestedAgain() returns (c: AnimationController)
    ensures fresh(c) && c.Valid() && c.hasOnAnimationEnd && IdleClip in c.buildableClips
    ensures c.currentAction == Some("wave") && c.endedReports == ["bow"]
    ensures c.finishedListeners == [FinishedListener(0, "wave"), FinishedListener(4, "wave")]
  {
    c := WaveInterruptedByBow();
    c.RequestAnimation(Some("wave"));
  }

  /** "wave" is requested, then "bow", and "bow" plays to its end. */
  method WaveInterruptedByBow() returns (c: AnimationController)
    ensures fresh(c) && c.Valid() && c.hasOnAnimationEnd
    ensures c.Offers("wave") && IdleClip in c.buildableClips
    ensures c.currentAction == Some(IdleClip) && c.nextId == 4
    ensures c.finishedListeners == [FinishedListener(0, "wave")]
    ensures c.endedReports == ["bow"]
  {
    var bow := "bow";
    c := WaveRequested();
    c.RequestAnimation(Some(bow));
    assert c.finishedListeners == [FinishedListener(0, "wave"), FinishedListener(2, bow)];
    c.FinishedEventReaches(FinishedListener(2, bow), bow);
    assert c.finishedListeners == [FinishedListener(0, "wave")];
  }

  /** An avatar offering "idle", "wave" and "bow" is asked for "wave". */
  method WaveRequested() returns (c: AnimationController)
    ensures fresh(c) && c.Valid() && c.hasOnAnimationEnd
    ensures c.Offers("wave") && c.Offers("bow") && IdleClip in c.buildableClips
    ensures c.currentAction == Some("wave") && c.nextId == 2
    ensures c.finishedListeners == [FinishedListener(0, "wave")]
    ensures c.endedReports == []
  {
    var wave := "wave";
    c := OfferingAvatar();
    assert c.Accepts(Some(wave)) && wave in c.buildableClips && c.currentAction != Some(wave) && wave != IdleClip;
    c.RequestAnimation(Some(wave));
  }

  /** An avatar that reports ends, whose loader offers "idle", "wave" and "bow", before any request. */
  method OfferingAvatar() returns (c: AnimationController)
    ensures fresh(c) && c.Valid() && c.hasOnAnimationEnd
    ensures c.Offers("wave") && c.Offers("bow") && IdleClip in c.buildableClips
    ensures "wave" != IdleClip && "bow" != IdleClip && "wave" != "bow"
    ensures c.currentAction.None? && c.animationTimeout.None? && c.timers == map[]
    ensures c.nextId == 0 && c.finishedListeners == [] && c.endedReports == []
  {
    var wave, bow := "wave", "bow";
    assert wave != IdleClip && bow != IdleClip && wave != bow && wave != "" && bow != "";
    c := new AnimationController(true);
    c.AssetsChanged(true, true, {IdleClip, wave, bow}, {IdleClip, wave, bow});
  }

  // ---------------------------------------------------------------------------
  // Material baseline and fade-in

  type MaterialId = nat

  /** The three material fields the fade touches (`MaterialBaseState`). */
  datatype MaterialState = MaterialState(opacity: real, transparent: bool, depthWrite: bool)

  /** The material slots of the scene's meshes in traversal order; `None` is an empty slot. */
  type Scene = seq<Option<MaterialId>>

  function SceneMaterials(scene: Scene): set<MaterialId>
  {
    set o | o in scene && o.Some? :: o.value
  }

  /**
   * A material's fields for a clamped opacity, given its baseline: full
   * opacity gives the baseline back, anything less is see-through.
   */
  function Faded(base: MaterialState, clamped: real): (r: MaterialState)
    ensures clamped >= 1.0 ==> r == base
    ensures clamped < 1.0 ==> r.transparent && !r.depthWrite
  {
    if clamped >= 1.0 then base else MaterialState(base.opacity * clamped, true, false)
  }

  /**
   * The baseline table after a traversal: a material keeps the baseline it
   * already has, and one seen for the first time gets its current fields.
   */
  function Captured(baseline: map<MaterialId, MaterialState>, materials: map<MaterialId, MaterialState>, scene: Scene)
    : (b: map<MaterialId, MaterialState>)
    requires SceneMaterials(scene) <= materials.Keys
    ensures b.Keys == baseline.Keys + SceneMaterials(scene)
    ensures forall m :: m in baseline ==> b[m] == baseline[m]
    ensures forall m :: m in b && m !in baseline ==> b[m] == materials[m]
  {
    map m | m in baseline.Keys + SceneMaterials(scene) :: if m in baseline then baseline[m] else materials[m]
  }

  /** The materials after painting the scene at `opacity` from the baseline. */
  function Painted(materials: map<MaterialId, MaterialState>, baseline: map<MaterialId, MaterialState>,
                   scene: Scene, opacity: real): (r: map<MaterialId, MaterialState>)
    requires SceneMaterials(scene) <= baseline.Keys
    ensures r.Keys == materials.Keys + SceneMaterials(scene)
    ensures forall m :: m in materials && m !in SceneMaterials(scene) ==> r[m] == materials[m]
  {
    map m | m in materials.Keys + SceneMaterials(scene) ::
      if m in SceneMaterials(scene) then Faded(baseline[m], Clamp01(opacity)) else materials[m]
  }

  lemma SceneMaterialsSnoc(scene: Scene, i: nat)
    requires i < |scene|
    ensures SceneMaterials(scene[..i + 1]) ==
      SceneMaterials(scene[..i]) + (if scene[i].Some? then {scene[i].value} else {})
  {
    assert scene[..i + 1] == scene[..i] + [scene[i]];
  }

  lemma SceneMaterialsPrefix(scene: Scene, i: nat)
    requires i <= |scene|
    ensures SceneMaterials(scene[..i]) <= SceneMaterials(scene)
  {
    forall m | m in SceneMaterials(scene[..i]) ensures m in SceneMaterials(scene) {
      var o :| o in scene[..i] && o.Some? && o.value == m;
      assert o in scene;
    }
  }

  /** One more slot of the traversal adds at most its material, with its current fields. */
  lemma CaptureStep(baseline: map<MaterialId, MaterialState>, materials: map<MaterialId, MaterialState>,
                    scene: Scene, i: nat)
    requires i < |scene| && SceneMaterials(scene) <= materials.Keys
    ensures SceneMaterials(scene[..i + 1]) <= materials.Keys
    ensures var b := Captured(baseline, materials, scene[..i]);
      Captured(baseline, materials, scene[..i + 1]) ==
        if scene[i].Some? && scene[i].value !in b then b[scene[i].value := materials[scene[i].value]] else b
  {
    SceneMaterialsSnoc(scene, i);
    SceneMaterialsPrefix(scene, i + 1);
    SceneMaterialsPrefix(scene, i);
    var b := Captured(baseline, materials, scene[..i]);
    var b' := Captured(baseline, materials, scene[..i + 1]);
    if scene[i].Some? && scene[i].value !in b {
      assert b' == b[scene[i].value := materials[scene[i].value]];
    } else {
      assert b' == b;
    }
  }

  /** One more slot of the traversal repaints at most its material, from its baseline. */
  lemma PaintStep(materials: map<MaterialId, MaterialState>, b: map<MaterialId, MaterialState>,
                  scene: Scene, i: nat, opacity: real)
    requires i < |scene| && SceneMaterials(scene[..i + 1]) <= b.Keys
    ensures SceneMaterials(scene[..i]) <= b.Keys
    ensures var p := Painted(materials, b, scene[..i], opacity);
      Painted(materials, b, scene[..i + 1], opacity) ==
        if scene[i].Some? then p[scene[i].value := Faded(b[scene[i].value], Clamp01(opacity))] else p
  {
    SceneMaterialsSnoc(scene, i);
    var p := Painted(materials, b, scene[..i], opacity);
    var p' := Painted(materials, b, scene[..i + 1], opacity);
    if scene[i].Some? {
      assert p' == p[scene[i].value := Faded(b[scene[i].value], Clamp01(opacity))];
    } else {
      assert p' == p;
    }
  }

  /** Painting reads the baseline only for the scene's materials. */
  lemma PaintedIgnoresOtherBaselines(materials: map<MaterialId, MaterialState>, b: map<MaterialId, MaterialState>,
                                     m: MaterialId, base: MaterialState, scene: Scene, opacity: real)
    requires SceneMaterials(scene) <= b.Keys && m !in SceneMaterials(scene)
    ensures Painted(materials, b[m := base], scene, opacity) == Painted(materials, b, scene, opacity)
  {
  }

  /**
   * `captureMaterialBaseState`: records each scene material's fields the first
   * time it is seen, and never overwrites a recorded baseline.
   */
  method CaptureMaterialBaseState(scene: Scene, materials: map<MaterialId, MaterialState>,
                                  baseline: map<MaterialId, MaterialState>)
    returns (b: map<MaterialId, MaterialState>)
    requires SceneMaterials(scene) <= materials.Keys
    ensures b == Captured(baseline, materials, scene)
  {
    b := baseline;
    for i := 0 to |scene|
      invariant b == Captured(baseline, materials, scene[..i])
    {
      CaptureStep(baseline, materials, scene, i);
      var slot := scene[i];
      if slot.Some? && slot.value !in b {
        b := b[slot.value := materials[slot.value]];
      }
    }
    assert scene[..|scene|] == scene;
  }

  /**
   * `applySceneOpacity`: the opacity is clamped to [0, 1]; each scene material
   * gets a baseline if it has none, and is then painted from its baseline.
   */
  method ApplySceneOpacity(scene: Scene, opacity: real, materials: map<MaterialId, MaterialState>,
                           baseline: map<MaterialId, MaterialState>)
    returns (painted: map<MaterialId, MaterialState>, b: map<MaterialId, MaterialState>)
    requires SceneMaterials(scene) <= materials.Keys
    ensures b == Captured(baseline, materials, scene)
    ensures painted == Painted(materials, b, scene, opacity)
  {
    var clamped := Clamp01(opacity);
    painted, b := materials, baseline;
    for i := 0 to |scene|
      invariant b == Captured(baseline, materials, scene[..i])
      invariant painted == Painted(materials, b, scene[..i], opacity)
    {
      CaptureStep(baseline, materials, scene, i);
      var slot := scene[i];
      if slot.Some? {
        var m := slot.value;
        var base;
        if m in b {
          base := b[m];
        } else {
          base := painted[m];
          PaintedIgnoresOtherBaselines(materials, b, m, base, scene[..i], opacity);
          b := b[m := base];
        }
        PaintStep(materials, b, scene, i, opacity);
        painted := painted[m := Faded(base, clamped)];
      } else {
        PaintStep(materials, b, scene, i, opacity);
      }
    }
    assert scene[..|scene|] == scene;
  }

  /**
   * Fading a freshly captured scene to any opacity and then applying full
   * opacity restores every material exactly, and the second traversal records
   * no new baseline.
   */
  lemma RestoreAfterFadeIsExact(materials: map<MaterialId, MaterialState>, scene: Scene, opacity: real)
    requires SceneMaterials(scene) <= materials.Keys
    ensures var b := Captured(map[], materials, scene);
      var faded := Painted(materials, b, scene, opacity);
      Captured(b, faded, scene) == b && Painted(faded, b, scene, 1.0) == materials
  {
    var b := Captured(map[], materials, scene);
    var faded := Painted(materials, b, scene, opacity);
    assert Captured(b, faded, scene) == b;
    var restored := Painted(faded, b, scene, 1.0);
    forall m | m in materials ensures m in restored && restored[m] == materials[m] {
      if m in SceneMaterials(scene) {
        assert restored[m] == Faded(b[m], 1.0) == b[m];
      }
    }
  }

  /** Applying the same opacity twice leaves what applying it once left. */
  lemma ApplyIsIdempotent(materials: map<MaterialId, MaterialState>, baseline: map<MaterialId, MaterialState>,
                          scene: Scene, opacity: real)
    requires SceneMaterials(scene) <= materials.Keys
    ensures var b := Captured(baseline, materials, scene);
      var once := Painted(materials, b, scene, opacity);
      Captured(b, once, scene) == b && Painted(once, b, scene, opacity) == once
  {
    var b := Captured(baseline, materials, scene);
    var once := Painted(materials, b, scene, opacity);
    assert Captured(b, once, scene) == b;
    var twice := Painted(once, b, scene, opacity);
    assert twice.Keys == once.Keys;
    forall m | m in once ensures twice[m] == once[m] {
    }
  }

  /** Below full opacity a material shows between nothing and its baseline opacity. */
  lemma FadedOpacityWithinBaseline(base: MaterialState, opacity: real)
    requires base.opacity >= 0.0
    ensures 0.0 <= Faded(base, Clamp01(opacity)).opacity <= base.opacity
    ensures Clamp01(opacity) < 1.0 ==> Faded(base, Clamp01(opacity)).transparent && !Faded(base, Clamp01(opacity)).depthWrite
  {
    var c := Clamp01(opacity);
    if c < 1.0 {
      assert base.opacity * c + base.opacity * (1.0 - c) == base.opacity;
      assert base.opacity * (1.0 - c) >= 0.0;
      assert base.opacity * c >= 0.0;
    }
  }

  class AppearanceController {
    var isLoaded: bool
    /** `gltf?.scene`. */
    var scene: Option<Scene>
    /** The fields of every material of the loaded asset. */
    var materials: map<MaterialId, MaterialState>
    var materialBaseState: map<MaterialId, MaterialState>
    var fadeElapsed: real
    var fadeActive: bool

    ghost predicate Valid()
      reads this
    {
      scene.Some? ==> SceneMaterials(scene.value) <= materials.Keys
    }

    constructor ()
      ensures Valid()
      ensures !isLoaded && scene.None? && materials == map[] && materialBaseState == map[]
      ensures fadeElapsed == 0.0 && !fadeActive
    {
      isLoaded, scene := false, None;
      materials, materialBaseState := map[], map[];
      fadeElapsed, fadeActive := 0.0, false;
    }

    /** The loader's state changes: whether it is loaded, its scene and the scene's materials. */
    method AssetChanged(loaded: bool, newScene: Option<Scene>, newMaterials: map<MaterialId, MaterialState>)
      requires newScene.Some? ==> SceneMaterials(newScene.value) <= newMaterials.Keys
      modifies this`isLoaded, this`scene, this`materials
      ensures Valid()
      ensures isLoaded == loaded && scene == newScene && materials == newMaterials
    {
      isLoaded, scene, materials := loaded, newScene, newMaterials;
    }

    /**
     * The layout effect when the asset is ready: a fresh baseline table is
     * captured, the fade starts at elapsed 0, and the scene is painted at
     * opacity 0.
     */
    method AssetReadyEffect()
      requires Valid()
      modifies this`materials, this`materialBaseState, this`fadeElapsed, this`fadeActive
      ensures Valid()
      ensures !(isLoaded && scene.Some?) ==> unchanged(this)
      ensures isLoaded && scene.Some? ==>
        && materialBaseState == Captured(map[], old(materials), scene.value)
        && materials == Painted(old(materials), materialBaseState, scene.value, 0.0)
        && fadeElapsed == 0.0 && fadeActive
        && (forall m :: m in SceneMaterials(scene.value) ==> materials[m].opacity == 0.0)
    {
      if isLoaded && scene.Some? {
        materialBaseState := map[];
        var captured := CaptureMaterialBaseState(scene.value, materials, materialBaseState);
        materialBaseState := captured;
        fadeElapsed, fadeActive := 0.0, true;
        var painted, b := ApplySceneOpacity(scene.value, 0.0, materials, materialBaseState);
        materials, materialBaseState := painted, b;
      }
    }

    /**
     * The fade part of the frame callback: while the fade is active, elapsed
     * time grows by `delta`; once it reaches the appear delay, full opacity is
     * applied (every scene material back at its baseline) and the fade ends.
     * An inactive fade changes nothing.
     */
    method FrameUpdate(delta: real)
      requires Valid()
      modifies this`materials, this`materialBaseState, this`fadeElapsed, this`fadeActive
      ensures Valid()
      ensures !(old(fadeActive) && scene.Some?) ==> unchanged(this)
      ensures old(fadeActive) && scene.Some? ==> fadeElapsed == old(fadeElapsed) + delta
      ensures old(fadeActive) && scene.Some? && fadeElapsed < AvatarAppearDelay ==>
        fadeActive && materials == old(materials) && materialBaseState == old(materialBaseState)
      ensures old(fadeActive) && scene.Some? && fadeElapsed >= AvatarAppearDelay ==>
        && !fadeActive
        && materialBaseState == Captured(old(materialBaseState), old(materials), scene.value)
        && materials == Painted(old(materials), materialBaseState, scene.value, 1.0)
        && (forall m :: m in SceneMaterials(scene.value) ==> materials[m] == materialBaseState[m])
    {
      if fadeActive && scene.Some? {
        fadeElapsed := fadeElapsed + delta;
        if fadeElapsed >= AvatarAppearDelay {
          var painted, b := ApplySceneOpacity(scene.value, 1.0, materials, materialBaseState);
          materials, materialBaseState := painted, b;
          fadeActive := false;
        }
      }
    }
  }

  // ---------------------------------------------------------------------------
  // Window drag

  /** A window offset in whole pixels. */
  datatype Delta = Delta(dx: int, dy: int)

  type FrameId = nat

  function Plus(a: Delta, b: Delta): Delta
  {
    Delta(a.dx + b.dx, a.dy + b.dy)
  }

  /** The sum of a sequence of offsets. */
  function Total(ds: seq<Delta>): Delta
  {
    if ds == [] then Delta(0, 0)
    else
      var rest := Total(ds[1..]);
      Delta(ds[0].dx + rest.dx, ds[0].dy + rest.dy)
  }

  /** The pending offset, `null` read as nothing. */
  function Pending(p: Option<Delta>): Delta
  {
    if p.Some? then p.value else Delta(0, 0)
  }

  /** The offsets sent plus the pending one add up to the offsets dragged. */
  ghost predicate Conserved(sent: seq<Delta>, pending: Option<Delta>, dragged: Delta)
  {
    var t, p := Total(sent), Pending(pending);
    t.dx + p.dx == dragged.dx && t.dy + p.dy == dragged.dy
  }

  /** Adding an offset to both the pending offset and the offsets dragged keeps them conserved. */
  lemma ConservedStep(sent: seq<Delta>, pending: Option<Delta>, dragged: Delta, d: Delta)
    requires Conserved(sent, pending, dragged)
    ensures Conserved(sent, Some(Plus(Pending(pending), d)), Plus(dragged, d))
  {
  }

  lemma {:induction false} TotalAppend(ds: seq<Delta>, d: Delta)
    ensures Total(ds + [d]) == Plus(Total(ds), d)
  {
    if ds != [] {
      assert (ds + [d])[1..] == ds[1..] + [d];
      TotalAppend(ds[1..], d);
    }
  }

  /**
   * The process-wide drag state (`window.__vrmDragState`) and the global
   * pointer handlers. `dragged` is the sum of every offset taken from the
   * pointer; the invariant says none of it is lost or sent twice.
   */
  class DragController {
    /** Whether the preload bridge exposes `moveWindow`. */
    const hasMoveWindow: bool
    /** `__vrmDragHandlerInstalled`: the global move/up listeners are registered. */
    var handlersInstalled: bool
    /** `__vrmDragState` exists. */
    var stateCreated: bool
    var isDragging: bool
    var lastX: real
    var lastY: real
    var pendingDelta: Option<Delta>
    var rafId: Option<FrameId>

    // The browser's scheduled animation frames, fresh ids, and `moveWindow` calls.
    var scheduledFrames: set<FrameId>
    var nextFrame: nat
    var moveWindowCalls: seq<Delta>
    ghost var dragged: Delta

    /**
     * At most one flush is scheduled and it is the remembered one; the offsets
     * sent plus the pending one are exactly the offsets taken from the pointer.
     */
    ghost predicate Valid()
      reads this
    {
      && (rafId.None? ==> scheduledFrames == {})
      && (rafId.Some? ==> scheduledFrames <= {rafId.value})
      && (forall f :: f in scheduledFrames ==> f < nextFrame)
      && (!stateCreated ==> !isDragging && pendingDelta.None? && rafId.None?)
      && Conserved(moveWindowCalls, pendingDelta, dragged)
      && (!hasMoveWindow ==> moveWindowCalls == [])
    }

    constructor (hasMoveWindow: bool)
      ensures Valid()
      ensures this.hasMoveWindow == hasMoveWindow
      ensures !handlersInstalled && !stateCreated && !isDragging
      ensures pendingDelta.None? && rafId.None? && scheduledFrames == {} && moveWindowCalls == []
      ensures dragged == Delta(0, 0)
    {
      this.hasMoveWindow := hasMoveWindow;
      handlersInstalled, stateCreated, isDragging := false, false, false;
      lastX, lastY := 0.0, 0.0;
      pendingDelta, rafId := None, None;
      scheduledFrames, nextFrame, moveWindowCalls := {}, 0, [];
      dragged := Delta(0, 0);
      new;
      assert Total(moveWindowCalls) == Delta(0, 0);
    }

    /** `handlePointerDown`: ignored while dragging; otherwise starts a drag at the pointer. */
    method PointerDown(screenX: real, screenY: real)
      requires Valid()
      modifies this`stateCreated, this`isDragging, this`lastX, this`lastY
      ensures Valid()
      ensures old(stateCreated && isDragging) ==> unchanged(this)
      ensures !old(stateCreated && isDragging) ==>
        stateCreated && isDragging && lastX == screenX && lastY == screenY
    {
      if stateCreated && isDragging {
        return;
      }
      if !stateCreated {
        stateCreated := true;
        isDragging := false;
        lastX, lastY := 0.0, 0.0;
      }
      isDragging := true;
      lastX, lastY := screenX, screenY;
    }

    /** The drag effect: registers the global listeners unless they are registered. */
    method InstallGlobalHandlers()
      modifies this`handlersInstalled
      ensures handlersInstalled
    {
      if handlersInstalled {
        return;
      }
      handlersInstalled := true;
    }

    /**
     * The drag effect's cleanup: removes the global listeners and cancels a
     * scheduled flush; `rafId` itself is left as it is.
     */
    method RemoveGlobalHandlers()
      requires Valid()
      modifies this`handlersInstalled, this`scheduledFrames
      ensures Valid()
      ensures !handlersInstalled && scheduledFrames == {}
    {
      handlersInstalled := false;
      if rafId.Some? {
        scheduledFrames := scheduledFrames - {rafId.value};
      }
    }

    /**
     * `applyPendingMove`: sends the pending offset when there is one and the
     * bridge has `moveWindow`, and forgets the scheduled flush.
     */
    method ApplyPendingMove()
      requires Valid() && scheduledFrames == {}
      modifies this`pendingDelta, this`rafId, this`moveWindowCalls
      ensures Valid()
      ensures old(stateCreated && pendingDelta.Some? && hasMoveWindow) ==>
        moveWindowCalls == old(moveWindowCalls) + [old(pendingDelta).value] && pendingDelta.None?
      ensures !old(stateCreated && pendingDelta.Some? && hasMoveWindow) ==>
        moveWindowCalls == old(moveWindowCalls) && pendingDelta == old(pendingDelta)
      ensures stateCreated ==> rafId.None?
      ensures !stateCreated ==> rafId == old(rafId)
    {
      if stateCreated && pendingDelta.Some? && hasMoveWindow {
        TotalAppend(moveWindowCalls, pendingDelta.value);
        moveWindowCalls := moveWindowCalls + [pendingDelta.value];
        pendingDelta := None;
      }
      if stateCreated {
        rafId := None;
      }
    }

    /**
     * `handleGlobalPointerMove`: while dragging, the offset from the last
     * position is rounded; a non-zero offset advances the last position by
     * exactly that offset, accumulates into the pending offset and schedules a
     * flush unless one is scheduled.
     */
    method GlobalPointerMove(screenX: real, screenY: real)
      requires Valid()
      modifies this`lastX, this`lastY, this`pendingDelta, this`rafId, this`scheduledFrames, this`nextFrame,
        this`dragged
      ensures Valid()
      ensures !old(handlersInstalled && stateCreated && isDragging) ==> unchanged(this)
      ensures var d := Delta(Round(screenX - old(lastX)), Round(screenY - old(lastY)));
        old(handlersInstalled && stateCreated && isDragging) && d == Delta(0, 0) ==> unchanged(this)
      ensures var d := Delta(Round(screenX - old(lastX)), Round(screenY - old(lastY)));
        old(handlersInstalled && stateCreated && isDragging) && d != Delta(0, 0) ==>
          && lastX == old(lastX) + d.dx as real && lastY == old(lastY) + d.dy as real
          && pendingDelta == Some(Plus(Pending(old(pendingDelta)), d))
          && dragged == Plus(old(dragged), d)
          && (old(rafId).Some? ==> rafId == old(rafId) && scheduledFrames == old(scheduledFrames))
          && (old(rafId).None? ==> rafId == Some(old(nextFrame)) && scheduledFrames == {old(nextFrame)})
    {
      if !handlersInstalled || !stateCreated || !isDragging {
        return;
      }
      var dx := Round(screenX - lastX);
      var dy := Round(screenY - lastY);
      if dx != 0 || dy != 0 {
        var d := Delta(dx, dy);
        ConservedStep(moveWindowCalls, pendingDelta, dragged, d);
        lastX := lastX + dx as real;
        lastY := lastY + dy as real;
        pendingDelta := Some(Plus(Pending(pendingDelta), d));
        dragged := Plus(dragged, d);
        if rafId.None? {
          rafId := Some(nextFrame);
          scheduledFrames := {nextFrame};
          nextFrame := nextFrame + 1;
        }
      }
    }

    /**
     * `handleGlobalPointerUp`: ends the drag and, only when a flush is
     * scheduled, cancels it and flushes at once.
     */
    method GlobalPointerUp()
      requires Valid()
      modifies this`isDragging, this`pendingDelta, this`rafId, this`moveWindowCalls, this`scheduledFrames
      ensures Valid()
      ensures !old(handlersInstalled && stateCreated) ==> unchanged(this)
      ensures old(handlersInstalled && stateCreated) ==> !isDragging
      ensures old(handlersInstalled && stateCreated) && old(rafId).None? ==>
        pendingDelta == old(pendingDelta) && moveWindowCalls == old(moveWindowCalls)
      ensures old(handlersInstalled && stateCreated) && old(rafId).Some? ==>
        && rafId.None? && scheduledFrames == {}
        && (old(pendingDelta).Some? && hasMoveWindow ==>
              moveWindowCalls == old(moveWindowCalls) + [old(pendingDelta).value] && pendingDelta.None?)
        && (old(pendingDelta).None? || !hasMoveWindow ==>
              moveWindowCalls == old(moveWindowCalls) && pendingDelta == old(pendingDelta))
    {
      if !handlersInstalled || !stateCreated {
        return;
      }
      isDragging := false;
      if rafId.Some? {
        scheduledFrames := scheduledFrames - {rafId.value};
        ApplyPendingMove();
      }
    }

    /** The scheduled animation frame runs `applyPendingMove`. */
    method FrameFires(f: FrameId)
      requires Valid() && f in scheduledFrames
      modifies this`pendingDelta, this`rafId, this`moveWindowCalls, this`scheduledFrames
      ensures Valid()
      ensures rafId.None? && scheduledFrames == {}
      ensures old(pendingDelta).Some? && hasMoveWindow ==>
        moveWindowCalls == old(moveWindowCalls) + [old(pendingDelta).value] && pendingDelta.None?
      ensures old(pendingDelta).None? || !hasMoveWindow ==>
        moveWindowCalls == old(moveWindowCalls) && pendingDelta == old(pendingDelta)
    {
      scheduledFrames := scheduledFrames - {f};
      ApplyPendingMove();
    }
  }

  // ---------------------------------------------------------------------------
  // Speech

  /** `SpeakMessage`: an id (empty when absent) and the text to speak. */
  datatype SpeakMessage = SpeakMessage(id: string, text: string)

  type TaskId = nat

  class SpeechController {
    const avatarId: string
    /** Whether the `onTTSComplete` prop is given. */
    const hasOnTTSComplete: bool
    var mounted: bool
    var bubbleText: Option<SpeakMessage>
    var isTtsSpeaking: bool

    // Playback tasks not yet resolved, fresh ids, and the foreign calls made:
    // `playVoice(avatarId, text)` and `onTTSComplete(id)`.
    var inFlight: map<TaskId, SpeakMessage>
    var nextTask: nat
    var voiceRequests: seq<(string, string)>
    var completions: seq<string>

    ghost predicate Valid()
      reads this
    {
      forall t :: t in inFlight ==> t < nextTask
    }

    constructor (avatarId: string, hasOnTTSComplete: bool)
      ensures Valid()
      ensures this.avatarId == avatarId && this.hasOnTTSComplete == hasOnTTSComplete
      ensures mounted && bubbleText.None? && !isTtsSpeaking
      ensures inFlight == map[] && nextTask == 0 && voiceRequests == [] && completions == []
    {
      this.avatarId := avatarId;
      this.hasOnTTSComplete := hasOnTTSComplete;
      mounted, bubbleText, isTtsSpeaking := true, None, false;
      inFlight, nextTask, voiceRequests, completions := map[], 0, [], [];
    }

    /**
     * The speech effect for `speechText == req`: a request with non-empty text
     * shows its bubble at once and starts playback.
     */
    method SpeechEffect(req: Option<SpeakMessage>)
      requires Valid() && mounted
      modifies this`bubbleText, this`inFlight, this`nextTask, this`voiceRequests
      ensures Valid()
      ensures !(req.Some? && req.value.text != "") ==> unchanged(this)
      ensures req.Some? && req.value.text != "" ==>
        && bubbleText == req
        && inFlight == old(inFlight)[old(nextTask) := req.value] && nextTask == old(nextTask) + 1
        && voiceRequests == old(voiceRequests) + [(avatarId, req.value.text)]
    {
      if req.Some? && req.value.text != "" {
        bubbleText := req;
        inFlight := inFlight[nextTask := req.value];
        voiceRequests := voiceRequests + [(avatarId, req.value.text)];
        nextTask := nextTask + 1;
      }
    }

    /** The speech effect's cleanup: speaking always stops. */
    method SpeechEffectCleanup()
      modifies this`isTtsSpeaking
      ensures !isTtsSpeaking
    {
      isTtsSpeaking := false;
    }

    /** The component unmounts: the cleanup runs and later state updates are dropped. */
    method Unmount()
      modifies this`isTtsSpeaking, this`mounted
      ensures !isTtsSpeaking && !mounted
    {
      SpeechEffectCleanup();
      mounted := false;
    }

    /** `playVoice` calls `onPlay`: speaking starts (while mounted). */
    method PlaybackStarted(t: TaskId)
      requires t in inFlight
      modifies this`isTtsSpeaking
      ensures isTtsSpeaking == (mounted || old(isTtsSpeaking))
    {
      if mounted {
        isTtsSpeaking := true;
      }
    }

    /**
     * The playback task rejects: the continuation never runs, so the bubble
     * stays up and no completion is reported.
     */
    method PlaybackFailed(t: TaskId)
      requires Valid() && t in inFlight
      modifies this`inFlight
      ensures Valid()
      ensures inFlight == old(inFlight) - {t}
    {
      inFlight := inFlight - {t};
    }

    /**
     * The playback task resolves: the bubble closes and speaking stops (while
     * mounted), and `onTTSComplete` gets the request's id when it has one.
     */
    method PlaybackCompleted(t: TaskId)
      requires Valid() && t in inFlight
      modifies this`bubbleText, this`isTtsSpeaking, this`inFlight, this`completions
      ensures Valid()
      ensures inFlight == old(inFlight) - {t}
      ensures mounted ==> bubbleText.None? && !isTtsSpeaking
      ensures !mounted ==> bubbleText == old(bubbleText) && isTtsSpeaking == old(isTtsSpeaking)
      ensures completions == old(completions) +
        (if hasOnTTSComplete && old(inFlight)[t].id != "" then [old(inFlight)[t].id] else [])
    {
      var msg := inFlight[t];
      inFlight := inFlight - {t};
      if mounted {
        bubbleText := None;
        isTtsSpeaking := false;
      }
      if hasOnTTSComplete && msg.id != "" {
        completions := completions + [msg.id];
      }
    }

    /**
     * The completion as evidently intended: only the newest playback, the one
     * whose bubble the effect put up last, closes the bubble and stops
     * speaking; an earlier one only reports its id.
     */
    method PlaybackCompletedIfNewest(t: TaskId)
      requires Valid() && t in inFlight
      modifies this`bubbleText, this`isTtsSpeaking, this`inFlight, this`completions
      ensures Valid()
      ensures inFlight == old(inFlight) - {t}
      ensures mounted && t + 1 == nextTask ==> bubbleText.None? && !isTtsSpeaking
      ensures !(mounted && t + 1 == nextTask) ==> bubbleText == old(bubbleText) && isTtsSpeaking == old(isTtsSpeaking)
      ensures completions == old(completions) +
        (if hasOnTTSComplete && old(inFlight)[t].id != "" then [old(inFlight)[t].id] else [])
    {
      var msg := inFlight[t];
      inFlight := inFlight - {t};
      if mounted && t + 1 == nextTask {
        bubbleText := None;
        isTtsSpeaking := false;
      }
      if hasOnTTSComplete && msg.id != "" {
        completions := completions + [msg.id];
      }
    }
  }

  /**
   * Completion is not tied to the request that is showing: when a second
   * request replaces the bubble before the first one's playback ends, the
   * first completion closes the second request's bubble while the second
   * playback is still running.
   */
  method EarlierCompletionClosesNewerBubble() returns (s: SpeechController)
    ensures s.bubbleText.None? && !s.isTtsSpeaking
    ensures 1 in s.inFlight && s.inFlight[1] == SpeakMessage("m2", "bye")
    ensures s.completions == ["m1"]
  {
    s := TwoRequestsInFlight();
    s.PlaybackCompleted(0);
  }

  /**
   * As evidently intended, the first completion leaves the second request's
   * bubble up; it still reports its own id.
   */
  method EarlierCompletionKeepsNewerBubble() returns (s: SpeechController)
    ensures s.bubbleText == Some(SpeakMessage("m2", "bye"))
    ensures 1 in s.inFlight && s.inFlight[1] == SpeakMessage("m2", "bye")
    ensures s.completions == ["m1"]
  {
    s := TwoRequestsInFlight();
    s.PlaybackCompletedIfNewest(0);
  }

  /** Two requests were shown in turn and neither playback has ended. */
  method TwoRequestsInFlight() returns (s: SpeechController)
    ensures fresh(s) && s.Valid() && s.mounted && s.hasOnTTSComplete
    ensures s.bubbleText == Some(SpeakMessage("m2", "bye")) && s.nextTask == 2
    ensures s.inFlight == map[0 := SpeakMessage("m1", "hello"), 1 := SpeakMessage("m2", "bye")]
    ensures s.completions == []
  {
    s := new SpeechController("avatar1", true);
    s.SpeechEffect(Some(SpeakMessage("m1", "hello")));
    s.SpeechEffectCleanup();
    s.SpeechEffect(Some(SpeakMessage("m2", "bye")));
  }
}
