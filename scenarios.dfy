/** Runs of the watch that string several steps together, each timer firing as often as
    the source's interval or timeout would fire it. */
module Scenarios {
  import opened Types
  import opened Overload
  import opened Travel
  import opened Neuralator

  /** Three presses of the crown inside the 400 ms window (App.tsx:412-431): witness mode
      flips exactly once, the counter is back at rest and the face is shown. */
  method TriplePress(w: Watch)
    requires w.Valid() && w.clickCount == 0
    modifies w
    ensures w.Valid() && w.witnessMode == !old(w.witnessMode)
    ensures w.clickCount == 0 && !w.clickResetPending && w.viewMode == Face
  {
    w.PressCrown();
    w.PressCrown();
    w.PressCrown();
  }

  /** Two presses and then the window closes: witness mode is untouched. */
  method DoublePressThenPause(w: Watch)
    requires w.Valid() && w.clickCount == 0
    modifies w
    ensures w.Valid() && w.witnessMode == old(w.witnessMode)
    ensures w.clickCount == 0 && !w.clickResetPending
  {
    w.PressCrown();
    w.PressCrown();
    w.CrownWindowExpires();
  }

  /** A whole trip (App.tsx:383-409): GO on the i-th zone, the one-second interval until
      no distance is left, then arrival. The trip takes ceil(metres / 5) ticks, nine for
      the nearest zone, and ends calm at the baseline with a notification shown. */
  method TravelToZone(w: Watch, i: nat, reply: Option<string>) returns (metres: nat, ticks: nat)
    requires w.Valid() && w.travelingTo.None? && i < |QuietZones|
    modifies w
    ensures ParseDistance(QuietZones[i].distance) == Some(metres)
    ensures ticks == TicksToArrive(metres)
    ensures i == 0 ==> ticks == 9
    ensures w.Valid() && w.travelingTo == None
    ensures w.burnout == ArrivalBurnout && w.bpm == ArrivalBpm
    ensures w.notificationSent == Some(Gemini.ManagerNotification(QuietZones[i].name, reply))
  {
    w.StartTravel(i);
    metres := w.distanceRemaining;
    ticks := 0;
    while w.distanceRemaining > 0
      invariant w.Valid() && w.travelingTo == Some(QuietZones[i].name)
      invariant ticks + TicksToArrive(w.distanceRemaining) == TicksToArrive(metres)
      decreases w.distanceRemaining
    {
      w.TravelTick();
      ticks := ticks + 1;
    }
    w.Arrive(reply);
    if i == 0 {
      QuietZoneDistances();
      NearestZoneTicks();
    }
  }

  /** The overload hysteresis driven through the watch feed (App.tsx:348-350, 373-381):
      a heart rate of 120 enters overload and shows the app; dropping to 90 arms the
      clear, and the overload ends after exactly five one-second ticks. */
  method OverloadAndRecovery(w: Watch) returns (ticks: nat)
    requires w.Valid() && w.useWatchData && !w.sensoryOverload
    modifies w
    ensures ticks == ClearSeconds
    ensures w.Valid() && !w.sensoryOverload && w.bpm == 90 && w.overloadClearIn == 0
    ensures w.viewMode == App
  {
    w.SetWatchBpm(120);
    w.SyncWatchFeed();
    assert w.sensoryOverload && w.viewMode == App;
    w.SetWatchBpm(90);
    w.SyncWatchFeed();
    assert w.overloadClearIn == ClearSeconds;
    ticks := 0;
    while w.overloadClearIn > 0
      invariant w.Valid() && w.bpm == 90 && w.viewMode == App
      invariant ticks + w.overloadClearIn == ClearSeconds
      invariant w.overloadClearIn > 0 ==> w.sensoryOverload
      decreases w.overloadClearIn
    {
      w.OverloadClearTick();
      ticks := ticks + 1;
    }
  }

  /** A recovery interrupted by a spike (App.tsx:373-381): overloaded at 95 bpm, two
      seconds of the clear pass; a rise to 105 cancels the clear and the overload stays;
      back at 95 the clear starts afresh, and the overload ends only after five more
      uninterrupted seconds. The results are the overload and the pending clear just
      after the spike, and the number of seconds the fresh clear then takes. */
  method InterruptedRecovery(w: Watch) returns (overloadAfterSpike: bool, clearAfterSpike: nat, ticks: nat)
    requires w.Valid() && w.useWatchData && !w.sensoryOverload
    modifies w
    ensures overloadAfterSpike && clearAfterSpike == 0
    ensures ticks == ClearSeconds
    ensures w.Valid() && !w.sensoryOverload && w.bpm == 95 && w.overloadClearIn == 0
  {
    w.SetWatchBpm(120);
    w.SyncWatchFeed();
    w.SetWatchBpm(95);
    w.SyncWatchFeed();
    assert w.sensoryOverload && w.overloadClearIn == ClearSeconds;
    w.OverloadClearTick();
    w.OverloadClearTick();
    assert w.sensoryOverload && w.overloadClearIn == 3;
    w.SetWatchBpm(105);
    w.SyncWatchFeed();
    overloadAfterSpike, clearAfterSpike := w.sensoryOverload, w.overloadClearIn;
    w.SetWatchBpm(95);
    w.SyncWatchFeed();
    assert w.sensoryOverload && w.overloadClearIn == ClearSeconds;
    ticks := 0;
    while w.overloadClearIn > 0
      invariant w.Valid() && w.bpm == 95
      invariant ticks + w.overloadClearIn == ClearSeconds
      invariant w.overloadClearIn > 0 ==> w.sensoryOverload
      decreases w.overloadClearIn
    {
      w.OverloadClearTick();
      ticks := ticks + 1;
    }
  }
}
