/** The sensory-overload monitor (App.tsx:372-381): a React effect over bpm,
    sensoryOverload and viewMode. Each time one of the three changes, the effect's cleanup
    cancels the pending clear timer of its previous run and its body runs again. The body
    enters overload above 115 bpm (forcing the face to the app) and, while overloaded at
    100 bpm or below, arms a 5-second timer that clears the overload. The timer is
    modelled as a countdown of whole seconds, 0 meaning that no timer is armed. */
module Overload {
  import opened Types

  /** Heart rate above this enters overload (App.tsx:374). */
  const EnterAbove: int := 115

  /** Heart rate at or below this, while overloaded, arms the clear timer (App.tsx:377). */
  const RecoverAtOrBelow: int := 100

  /** Length of the clear timer in seconds (App.tsx:378). */
  const ClearSeconds: nat := 5

  /** The part of the app state the monitor reads and writes: the overload flag, the view,
      and the seconds left on the pending clear. */
  datatype Alarm = Alarm(overload: bool, view: ViewMode, clearIn: nat)

  /** The monitor is at rest for this heart rate: overload is set whenever the heart rate
      is above the threshold, and a clear is pending exactly while overloaded at or below
      the recovery level. */
  predicate Settled(bpm: int, a: Alarm) {
    && (bpm > EnterAbove ==> a.overload)
    && (a.clearIn > 0 <==> a.overload && bpm <= RecoverAtOrBelow)
    && a.clearIn <= ClearSeconds
  }

  /** One run of the effect, cleanup first: the pending clear is cancelled, then the body
      runs on the current values. */
  function OverloadEffect(bpm: int, overload: bool, view: ViewMode): (r: Alarm)
    ensures !overload && bpm > EnterAbove ==> r.overload && r.view == App
    ensures r.overload != overload ==> bpm > EnterAbove && !overload
    ensures r.view != view ==> view == Face && r.view == App && bpm > EnterAbove && !overload
    ensures r.clearIn > 0 <==> overload && bpm <= RecoverAtOrBelow
    ensures r.clearIn > 0 ==> r.clearIn == ClearSeconds
    ensures RecoverAtOrBelow < bpm <= EnterAbove ==> r == Alarm(overload, view, 0)
    ensures Settled(bpm, r)
  {
    if bpm > EnterAbove && !overload then
      Alarm(true, if view == Face then App else view, 0)
    else if bpm <= RecoverAtOrBelow && overload then
      Alarm(overload, view, ClearSeconds)
    else
      Alarm(overload, view, 0)
  }

  /** What the monitor looks like after a render: the effect runs again only if bpm, the
      overload flag or the view differs from the previous render (React compares its
      dependencies); otherwise the pending clear keeps counting. */
  function Rerender(oldBpm: int, oldOverload: bool, oldView: ViewMode, bpm: int, a: Alarm): (r: Alarm)
    ensures bpm == oldBpm && a.overload == oldOverload && a.view == oldView ==> r == a
    ensures Settled(oldBpm, Alarm(oldOverload, oldView, a.clearIn)) ==> Settled(bpm, r)
  {
    if bpm == oldBpm && a.overload == oldOverload && a.view == oldView then a
    else OverloadEffect(bpm, a.overload, a.view)
  }

  /** The effect's own writes cause one more run, and that run changes nothing: the
      monitor settles after a single run. */
  lemma EffectSettlesInOneRun(bpm: int, overload: bool, view: ViewMode)
    ensures var r := OverloadEffect(bpm, overload, view);
            Rerender(bpm, overload, view, bpm, r) == r
  {
  }

  /** The hysteresis resets on any change: while overloaded, a render in which bpm or the
      view changed cancels the running countdown, whatever it shows, and re-arms it from
      the full five seconds when the heart rate is at or below the recovery level, or
      leaves no clear pending otherwise. The overload itself stays on. */
  lemma ChangeRestartsClear(oldBpm: int, oldView: ViewMode, bpm: int, view: ViewMode, k: nat)
    requires bpm != oldBpm || view != oldView
    ensures Rerender(oldBpm, true, oldView, bpm, Alarm(true, view, k))
            == Alarm(true, view, if bpm <= RecoverAtOrBelow then ClearSeconds else 0)
  {
  }

  /** One second of the pending clear: the countdown drops by one, and when it runs out
      the overload is cleared. */
  function ClearTick(a: Alarm): (r: Alarm)
    requires a.clearIn > 0
    ensures r.clearIn == a.clearIn - 1 && r.view == a.view
    ensures r.overload == (a.overload && a.clearIn > 1)
  {
    Alarm(if a.clearIn == 1 then false else a.overload, a.view, a.clearIn - 1)
  }

  /** n uninterrupted seconds of the pending clear. */
  function ClearTicks(a: Alarm, n: nat): Alarm
    requires n <= a.clearIn
    decreases n
  {
    if n == 0 then a else ClearTicks(ClearTick(a), n - 1)
  }

  /** The hysteresis: an armed clear takes exactly as many uninterrupted seconds as its
      countdown shows; before that the overload stays set. */
  lemma {:induction false} ClearTicksOverload(a: Alarm, n: nat)
    requires 0 < a.clearIn && n <= a.clearIn
    ensures ClearTicks(a, n).overload == (a.overload && n < a.clearIn)
    ensures ClearTicks(a, n).clearIn == a.clearIn - n
    decreases n
  {
    if n == 1 {
      assert ClearTicks(a, 1) == ClearTick(a);
    } else if n > 1 {
      ClearTicksOverload(ClearTick(a), n - 1);
    }
  }

  /** Freshly armed by a drop to 100 bpm or below, the overload clears after five
      uninterrupted seconds and not after four. */
  lemma ClearsAfterFiveSeconds(bpm: int, view: ViewMode)
    requires bpm <= RecoverAtOrBelow
    ensures var armed := OverloadEffect(bpm, true, view);
            ClearTicks(armed, 4).overload && !ClearTicks(armed, 5).overload
  {
    var armed := OverloadEffect(bpm, true, view);
    ClearTicksOverload(armed, 4);
    ClearTicksOverload(armed, 5);
  }
}
