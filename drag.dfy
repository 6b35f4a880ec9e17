/**
 * Telling a drag from a click. A press schedules a timer; if it fires before
 * the release, a drag starts: pointer movement pans the camera and the release
 * only ends the drag. The release cancels the timer its handle refers to.
 *
 * Two versions of the press are modelled: the one the handler implements,
 * which overwrites the handle of a timer that has not fired yet (that timer
 * can then no longer be cancelled), and the corrected one, which cancels it
 * first.
 */
module Drag {

  /**
   * dragging: a drag is in progress. timerPending: the handle refers to a timer
   * that has not fired. orphanTimers: timers that have not fired and that no
   * handle refers to any more.
   */
  datatype Pointer = Pointer(dragging: bool, timerPending: bool, orphanTimers: nat)

  /** Pointer events; Fire(latest) is a timer callback, the handle's own when latest, an orphan's otherwise. */
  datatype Event = Press | Release | Fire(latest: bool)

  const Idle := Pointer(false, false, 0)

  /** The timer callback that Fire(latest) stands for exists and has not run. */
  predicate CanFire(p: Pointer, latest: bool) {
    if latest then p.timerPending else p.orphanTimers > 0
  }

  /**
   * The state after event e. With cancelling, a press cancels the timer the
   * handle refers to before scheduling a new one; without, it overwrites the
   * handle as the handler does. A timer callback that cannot run changes nothing.
   */
  function Step(p: Pointer, e: Event, cancelling: bool): Pointer {
    match e
    case Press =>
      if p.timerPending && !cancelling then p.(orphanTimers := p.orphanTimers + 1)
      else p.(timerPending := true)
    case Release => p.(dragging := false, timerPending := false)
    case Fire(latest) =>
      if !CanFire(p, latest) then p
      else if latest then p.(dragging := true, timerPending := false)
      else p.(dragging := true, orphanTimers := p.orphanTimers - 1)
  }

  /** The state after a sequence of events. */
  function Replay(p: Pointer, es: seq<Event>, cancelling: bool): Pointer
    decreases |es|
  {
    if es == [] then p else Replay(Step(p, es[0], cancelling), es[1..], cancelling)
  }

  lemma {:induction false} ReplayAppend(p: Pointer, a: seq<Event>, b: seq<Event>, cancelling: bool)
    ensures Replay(p, a + b, cancelling) == Replay(Replay(p, a, cancelling), b, cancelling)
    decreases |a|
  {
    if a != [] {
      assert (a + b)[1..] == a[1..] + b;
      ReplayAppend(Step(p, a[0], cancelling), a[1..], b, cancelling);
    } else {
      assert a + b == b;
    }
  }

  /** A press always leaves a timer scheduled, and a drag starts only when a timer fires. */
  lemma StepDrags(p: Pointer, e: Event, cancelling: bool)
    ensures e == Press ==> Step(p, e, cancelling).timerPending
    ensures Step(p, e, cancelling).dragging <==> (p.dragging && e != Release) || (e.Fire? && CanFire(p, e.latest))
  {
  }

  /** With cancelling presses, no timer is ever orphaned. */
  lemma {:induction false} CancellingKeepsNoOrphans(p: Pointer, es: seq<Event>)
    requires p.orphanTimers == 0
    ensures Replay(p, es, true).orphanTimers == 0
    decreases |es|
  {
    if es != [] {
      CancellingKeepsNoOrphans(Step(p, es[0], true), es[1..]);
    }
  }

  /** With cancelling presses, once released, nothing but a new press changes the pointer state. */
  lemma {:induction false} ReleasedStaysIdle(p: Pointer, es: seq<Event>)
    requires p.orphanTimers == 0
    requires forall i :: 0 <= i < |es| ==> es[i] != Press
    ensures Replay(Step(p, Release, true), es, true) == Step(p, Release, true)
    decreases |es|
  {
    if es != [] {
      var q := Step(p, Release, true);
      assert Step(q, es[0], true) == q;
      ReleasedStaysIdle(p, es[1..]);
    }
  }

  /**
   * With cancelling presses, no drag is in progress after a release until the
   * next press: a timer cannot start a drag once the gesture has ended.
   */
  lemma NoDragAfterRelease(es: seq<Event>, k: nat)
    requires k < |es| && es[k] == Release
    requires forall i :: k < i < |es| ==> es[i] != Press
    ensures !Replay(Idle, es, true).dragging
  {
    assert es == es[..k] + ([Release] + es[k + 1..]);
    var p := Replay(Idle, es[..k], true);
    ReplayAppend(Idle, es[..k], [Release] + es[k + 1..], true);
    ReplayAppend(p, [Release], es[k + 1..], true);
    CancellingKeepsNoOrphans(Idle, es[..k]);
    ReleasedStaysIdle(p, es[k + 1..]);
  }

  /**
   * As written, two presses before a release orphan the first timer (the first
   * press's release happened outside the canvas): after the release it still
   * fires and starts a drag with no button held.
   */
  lemma StaleDragAfterRelease()
    ensures var es := [Press, Press, Release, Fire(false)];
      es[2] == Release && es[3] != Press && Replay(Idle, es, false).dragging
  {
    var p1 := Step(Idle, Press, false);
    var p2 := Step(p1, Press, false);
    var p3 := Step(p2, Release, false);
    assert p3 == Pointer(false, false, 1);
    assert Step(p3, Fire(false), false).dragging;
  }
}
