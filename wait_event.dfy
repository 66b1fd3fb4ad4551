/**
 * The manual-reset wait event of src/wait-event.ts (createWaitEventObject).
 *
 * The event's real state is the flag `isSet` and the current `donePromise`.
 * Between operations that promise is either still pending or already settled
 * with `true`: a `false` settlement (by `clear` or `_destroy`) is immediately
 * followed by the replacement of `donePromise`, and a waiter woken by `false`
 * re-reads the replacement (the loop of `awaitDonePromise`). Every call of
 * `wait` is a waiter with a fresh id; `pending` holds the suspended ones,
 * `timed` those that were given a timeout, and `outcome` the value each
 * resolved waiter's promise resolved with.
 */
module WaitEvents {

  type WaiterId = nat

  /** The state of the current `donePromise`. */
  datatype DonePromise = Pending | SettledTrue

  datatype WaitState = WaitState(
    isSet: bool,
    done: DonePromise,
    pending: set<WaiterId>,
    timed: set<WaiterId>,
    outcome: map<WaiterId, bool>,
    nextId: WaiterId)

  /** A fresh event: unset, with a pending `donePromise` and no waiter. */
  function Init(): WaitState
  {
    WaitState(false, Pending, {}, {}, map[], 0)
  }

  /**
   * The invariant of every reachable state: a set flag means the current
   * promise is settled true; nobody waits on a settled promise; ids are
   * handed out in call order; a suspended waiter has no result yet; and a
   * waiter without a timeout can only have resolved with true.
   */
  ghost predicate Inv(s: WaitState)
  {
    (s.isSet ==> s.done == SettledTrue) &&
    (s.done == SettledTrue ==> s.pending == {}) &&
    (forall w :: w in s.pending ==> w < s.nextId && w !in s.outcome) &&
    (forall w :: w in s.outcome ==> w < s.nextId) &&
    (forall w :: w in s.timed ==> w < s.nextId) &&
    (forall w :: w in s.outcome && w !in s.timed ==> s.outcome[w])
  }

  /**
   * The waiters' loop `while (!await donePromise)` after the current promise
   * settled: on a promise settled true every suspended waiter resolves true;
   * on a pending promise (installed by `clear`) they keep waiting.
   */
  function Resume(s: WaitState): WaitState
  {
    if s.done == SettledTrue then
      s.(outcome := s.outcome + map w | w in s.pending :: true, pending := {})
    else
      s
  }

  /**
   * `wait(ms)`: resolves true at once when the flag is set or the current
   * promise is already settled true; otherwise the new waiter is suspended,
   * and recorded as timed when a timeout was given.
   */
  function WaitStep(s: WaitState, withTimeout: bool): (WaitState, WaiterId)
  {
    var w := s.nextId;
    if s.isSet || s.done == SettledTrue then
      (s.(outcome := s.outcome[w := true], nextId := w + 1), w)
    else
      (s.(pending := s.pending + {w},
          timed := if withTimeout then s.timed + {w} else s.timed,
          nextId := w + 1), w)
  }

  /** `set()`: raises the flag and settles the current promise with true. */
  function SetStep(s: WaitState): WaitState
  {
    Resume(s.(isSet := true, done := SettledTrue))
  }

  /** `clear()`: lowers the flag, settles the old promise with false and installs a fresh pending one. */
  function ClearStep(s: WaitState): WaitState
  {
    Resume(s.(isSet := false, done := Pending))
  }

  /** `_destroy()`: lowers the flag, settles the old promise with false and installs one settled true. */
  function DestroyStep(s: WaitState): WaitState
  {
    Resume(s.(isSet := false, done := SettledTrue))
  }

  /** A timed waiter whose timer wins the race resolves false and stops waiting. */
  function TimeoutStep(s: WaitState, w: WaiterId): WaitState
    requires w in s.pending && w in s.timed
  {
    s.(pending := s.pending - {w}, outcome := s.outcome[w := false])
  }

  /** The operations a run of the event consists of. */
  datatype Event = Wait(withTimeout: bool) | Set | Clear | Destroy | Timeout(waiter: WaiterId)

  /** One operation; a timeout of a waiter that is not a suspended timed waiter does not happen. */
  function Step(s: WaitState, e: Event): WaitState
  {
    match e
    case Wait(t) => WaitStep(s, t).0
    case Set => SetStep(s)
    case Clear => ClearStep(s)
    case Destroy => DestroyStep(s)
    case Timeout(w) => if w in s.pending && w in s.timed then TimeoutStep(s, w) else s
  }

  function Run(s: WaitState, evs: seq<Event>): WaitState
    decreases |evs|
  {
    if evs == [] then s else Run(Step(s, evs[0]), evs[1..])
  }

  /** The flag as the most recent `set`, `clear` or `_destroy` in `evs` left it. */
  function LatestFlag(flag: bool, evs: seq<Event>): bool
    decreases |evs|
  {
    if evs == [] then flag
    else
      var f := match evs[0]
        case Set => true
        case Clear => false
        case Destroy => false
        case _ => flag;
      LatestFlag(f, evs[1..])
  }

  lemma InitInv()
    ensures Inv(Init())
  {
  }

  lemma StepInv(s: WaitState, e: Event)
    requires Inv(s)
    ensures Inv(Step(s, e))
  {
  }

  /** Every reachable state satisfies the invariant. */
  lemma {:induction false} RunInv(s: WaitState, evs: seq<Event>)
    requires Inv(s)
    ensures Inv(Run(s, evs))
    decreases |evs|
  {
    if evs != [] {
      StepInv(s, evs[0]);
      RunInv(Step(s, evs[0]), evs[1..]);
    }
  }

  /** `wait` on a set event resolves true at once and registers no waiter. */
  lemma WaitWhenSet(s: WaitState, withTimeout: bool)
    requires s.isSet
    ensures var (t, w) := WaitStep(s, withTimeout);
      w in t.outcome && t.outcome[w] && t.pending == s.pending && t.timed == s.timed
  {
  }

  /** `wait` on an unset event whose promise is pending suspends the caller. */
  lemma WaitWhenUnset(s: WaitState, withTimeout: bool)
    requires Inv(s) && !s.isSet && s.done == Pending
    ensures var (t, w) := WaitStep(s, withTimeout);
      w !in s.pending && t.pending == s.pending + {w} && w !in t.outcome &&
      (w in t.timed <==> withTimeout)
  {
  }

  /** `set()` raises the flag and wakes every suspended waiter with true (broadcast). */
  lemma SetBroadcasts(s: WaitState)
    requires Inv(s)
    ensures var t := SetStep(s);
      t.isSet && t.pending == {} &&
      (forall w :: w in s.pending ==> w in t.outcome && t.outcome[w]) &&
      (forall w :: w in s.outcome ==> w in t.outcome && t.outcome[w] == s.outcome[w]) &&
      t.outcome.Keys == s.outcome.Keys + s.pending
  {
  }

  /** `clear()` lowers the flag and re-arms without releasing any waiter. */
  lemma ClearReArms(s: WaitState)
    ensures var t := ClearStep(s);
      !t.isSet && t.done == Pending && t.pending == s.pending && t.outcome == s.outcome
  {
  }

  /** `_destroy()` lowers the flag and still releases every suspended waiter with true. */
  lemma DestroyReleases(s: WaitState)
    requires Inv(s)
    ensures var t := DestroyStep(s);
      !t.isSet && t.done == SettledTrue && t.pending == {} &&
      (forall w :: w in s.pending ==> w in t.outcome && t.outcome[w]) &&
      (forall w :: w in s.outcome ==> w in t.outcome && t.outcome[w] == s.outcome[w]) &&
      t.outcome.Keys == s.outcome.Keys + s.pending
  {
  }

  /** Disposing twice has the same effect as disposing once. */
  lemma DestroyIdempotent(s: WaitState)
    ensures DestroyStep(DestroyStep(s)) == DestroyStep(s)
  {
    var t := DestroyStep(s);
    assert t.pending == {};
    assert t.outcome + (map w | w in t.pending :: true) == t.outcome;
  }

  /** A timed-out waiter resolves false; nothing else changes. */
  lemma TimeoutResolvesFalse(s: WaitState, w: WaiterId)
    requires Inv(s) && w in s.pending && w in s.timed
    ensures var t := TimeoutStep(s, w);
      t.outcome[w] == false && t.pending == s.pending - {w} &&
      t.isSet == s.isSet && t.done == s.done &&
      (forall v :: v in s.outcome ==> v in t.outcome && t.outcome[v] == s.outcome[v])
  {
  }

  /**
   * A suspended waiter stays suspended, without a result, through any run
   * that has no `set`, no `_destroy` and no timeout of its own: in particular
   * a `clear` never releases it.
   */
  lemma {:induction false} PendingUntilReleased(s: WaitState, evs: seq<Event>, w: WaiterId)
    requires Inv(s) && w in s.pending
    requires forall k :: 0 <= k < |evs| ==> !evs[k].Set? && !evs[k].Destroy? && evs[k] != Timeout(w)
    ensures w in Run(s, evs).pending && w !in Run(s, evs).outcome
    decreases |evs|
  {
    if evs != [] {
      StepInv(s, evs[0]);
      assert !evs[0].Set? && !evs[0].Destroy? && evs[0] != Timeout(w);
      PendingUntilReleased(Step(s, evs[0]), evs[1..], w);
    }
  }

  /**
   * Re-arm does not drop waiters: a waiter suspended before any number of
   * `clear` calls (and other waits) still resolves true on the next `set`.
   */
  lemma ClearedWaiterWokenBySet(s: WaitState, evs: seq<Event>, w: WaiterId)
    requires Inv(s) && w in s.pending
    requires forall k :: 0 <= k < |evs| ==> !evs[k].Set? && !evs[k].Destroy? && evs[k] != Timeout(w)
    ensures var t := SetStep(Run(s, evs)); w in t.outcome && t.outcome[w]
  {
    PendingUntilReleased(s, evs, w);
  }

  /** Without a `clear`, the promise installed by `_destroy` stays settled true. */
  lemma {:induction false} DestroyedStaysSettled(s: WaitState, evs: seq<Event>)
    requires s.done == SettledTrue
    requires forall k :: 0 <= k < |evs| ==> !evs[k].Clear?
    ensures Run(s, evs).done == SettledTrue
    decreases |evs|
  {
    if evs != [] {
      assert !evs[0].Clear?;
      DestroyedStaysSettled(Step(s, evs[0]), evs[1..]);
    }
  }

  /**
   * After `_destroy` and before any `clear`, a wait without a timeout
   * resolves true at once, even when the flag is down.
   */
  lemma WaitAfterDestroy(s: WaitState, evs: seq<Event>)
    requires Inv(s)
    requires forall k :: 0 <= k < |evs| ==> !evs[k].Clear?
    ensures var (t, w) := WaitStep(Run(DestroyStep(s), evs), false);
      w in t.outcome && t.outcome[w] && t.pending == {}
  {
    StepInv(s, Destroy);
    RunInv(DestroyStep(s), evs);
    DestroyedStaysSettled(DestroyStep(s), evs);
  }

  /** The flag is whatever the most recent `set`, `clear` or `_destroy` made it. */
  lemma {:induction false} FlagIsLatest(s: WaitState, evs: seq<Event>)
    ensures Run(s, evs).isSet == LatestFlag(s.isSet, evs)
    decreases |evs|
  {
    if evs != [] {
      FlagIsLatest(Step(s, evs[0]), evs[1..]);
    }
  }

  /** A waiter resolves at most once: a result, once recorded, never changes. */
  lemma {:induction false} ResolvedStaysResolved(s: WaitState, evs: seq<Event>)
    requires Inv(s)
    ensures forall w :: w in s.outcome ==>
      w in Run(s, evs).outcome && Run(s, evs).outcome[w] == s.outcome[w]
    decreases |evs|
  {
    if evs != [] {
      StepInv(s, evs[0]);
      ResolvedStaysResolved(Step(s, evs[0]), evs[1..]);
    }
  }

  /** A waiter that gave no timeout can only ever resolve true. */
  lemma UntimedResolvesTrue(evs: seq<Event>, w: WaiterId)
    ensures var t := Run(Init(), evs);
      w in t.outcome && w !in t.timed ==> t.outcome[w]
  {
    InitInv();
    RunInv(Init(), evs);
  }

  /** Two waiters suspended on a fresh event both resolve true on one `set`. */
  lemma TwoWaitersOneSet()
    ensures var t := Run(Init(), [Wait(false), Wait(false), Set]);
      0 in t.outcome && t.outcome[0] && 1 in t.outcome && t.outcome[1] && t.pending == {}
  {
  }

  /** The event object: the closure variables of createWaitEventObject and its waiters. */
  class WaitEvent {
    var isSet: bool
    var done: DonePromise
    var pending: set<WaiterId>
    var timed: set<WaiterId>
    var outcome: map<WaiterId, bool>
    var nextId: WaiterId

    ghost function Abs(): WaitState
      reads this
    {
      WaitState(isSet, done, pending, timed, outcome, nextId)
    }

    ghost predicate Valid()
      reads this
    {
      Inv(Abs())
    }

    constructor ()
      ensures Valid() && Abs() == Init()
      ensures !isSet && pending == {}
    {
      isSet := false;
      done := Pending;
      pending := {};
      timed := {};
      outcome := map[];
      nextId := 0;
    }

    /** The waiters' loop over `donePromise` after it settled (line 30). */
    method ResumeWaiters()
      modifies this
      ensures Abs() == Resume(old(Abs()))
    {
      if done == SettledTrue {
        outcome := outcome + map w | w in pending :: true;
        pending := {};
      }
    }

    /** Starts a wait; returns the waiter, which is resolved at once or suspended. */
    method Wait(withTimeout: bool) returns (w: WaiterId)
      requires Valid()
      modifies this
      ensures Valid() && (Abs(), w) == WaitStep(old(Abs()), withTimeout)
      ensures old(isSet) ==> w in outcome && outcome[w] && pending == old(pending)
    {
      w := nextId;
      nextId := nextId + 1;
      if isSet {
        outcome := outcome[w := true];
        return;
      }
      if done == SettledTrue {
        outcome := outcome[w := true];
        return;
      }
      pending := pending + {w};
      if withTimeout {
        timed := timed + {w};
      }
    }

    /** Reads the flag and changes nothing. */
    method IsSet() returns (b: bool)
      requires Valid()
      ensures b == isSet
      ensures b ==> done == SettledTrue && pending == {}
    {
      b := isSet;
    }

    method Set()
      requires Valid()
      modifies this
      ensures Valid() && Abs() == SetStep(old(Abs()))
      ensures isSet && pending == {}
    {
      isSet := true;
      done := SettledTrue;
      ResumeWaiters();
      StepInv(old(Abs()), Event.Set);
    }

    method Clear()
      requires Valid()
      modifies this
      ensures Valid() && Abs() == ClearStep(old(Abs()))
      ensures !isSet && pending == old(pending)
    {
      isSet := false;
      done := Pending;
      ResumeWaiters();
      StepInv(old(Abs()), Event.Clear);
    }

    method Destroy()
      requires Valid()
      modifies this
      ensures Valid() && Abs() == DestroyStep(old(Abs()))
      ensures !isSet && pending == {}
    {
      isSet := false;
      done := SettledTrue;
      ResumeWaiters();
      StepInv(old(Abs()), Event.Destroy);
    }

    /** The timer of suspended timed waiter `w` wins its race. */
    method Timeout(w: WaiterId)
      requires Valid() && w in pending && w in timed
      modifies this
      ensures Valid() && Abs() == TimeoutStep(old(Abs()), w)
      ensures w in outcome && !outcome[w]
    {
      pending := pending - {w};
      outcome := outcome[w := false];
    }
  }
}
