/** The App component's simulation and controller state (App.tsx:175-461) as one object.
    Every field mirrors a piece of React state or a ref; every method is one timer body or
    one event handler, run as a single atomic step, in whatever order the environment
    chooses.

    Two effects of the component are re-run by React after a render in which their
    dependencies changed:
    - the overload monitor (App.tsx:373-381) runs inside the step that changed bpm,
      sensoryOverload or viewMode (method Commit), because its cleanup cancels a pending
      timer and so must not be separated from the change that triggers it;
    - the simulation effect (App.tsx:306-370) only restarts intervals in random mode, and
      in watch-feed mode recomputes bpm and burnout; that recomputation is the step
      SyncWatchFeed, which the environment runs after such a change.

    Timers are explicit state: the overload clear is a countdown of seconds, the crown's
    400 ms window is a pending flag, and the 10-second status revert and the 8-second
    notification dismissal, which the source never cancels, are counts of outstanding
    timeouts. */
module Neuralator {
  import opened Types
  import opened Stress
  import opened Overload
  import opened Travel
  import Gemini

  /** Heart rate at start-up (App.tsx:181). */
  const InitialBpm: int := 72

  /** Burnout above this forces the face to the app (App.tsx:341, 359). */
  const EscalateAbove: int := 85

  /** Burnout and heart rate after arriving at a quiet zone (App.tsx:400-401). */
  const ArrivalBurnout: int := 15
  const ArrivalBpm: int := 70

  /** A press of the crown that makes this many presses in a row toggles witness mode
      (App.tsx:423). */
  const TogglePresses: nat := 3

  /** The view after a burnout update: a face is switched to the app when the new stress
      is above the threshold (App.tsx:341-343, 359-361). */
  function Escalated(view: ViewMode, above: bool): (r: ViewMode)
    ensures above ==> r.App?
    ensures !above ==> r == view
  {
    if above && view.Face? then App else view
  }

  /** The characters that String.prototype.trim removes: JavaScript's white space and
      line terminators. */
  predicate IsJsWhiteSpace(c: char) {
    || c == '\t' || c == '\n' || c == '\U{000B}' || c == '\U{000C}' || c == '\r'
    || c == ' ' || c == '\U{00A0}' || c == '\U{1680}'
    || ('\U{2000}' <= c <= '\U{200A}')
    || c == '\U{2028}' || c == '\U{2029}' || c == '\U{202F}' || c == '\U{205F}'
    || c == '\U{3000}' || c == '\U{FEFF}'
  }

  /** s.trim() is empty: s consists of white space only (or is empty). */
  predicate Blank(s: string) {
    forall i :: 0 <= i < |s| ==> IsJsWhiteSpace(s[i])
  }

  /** A failed analysis leaves burnout where it was: its adjustment is 0. */
  lemma FailedAnalysisKeepsBurnout(burnout: int)
    requires 0 <= burnout <= 100
    ensures Adjusted(burnout, Gemini.AnalysisFailed().stressAdjustment) == burnout
  {
  }

  class Watch {
    var viewMode: ViewMode
    var bpm: int
    var burnout: int
    var stressHistory: seq<int>
    var status: WitnessStatus
    var transcript: string
    var incidents: seq<Incident>

    var sensoryOverload: bool
    /** Seconds left on the pending overload clear; 0 when none is armed. */
    var overloadClearIn: nat

    var witnessMode: bool
    /** clickCountRef and whether the 400 ms reset timer in clickTimeoutRef is pending. */
    var clickCount: nat
    var clickResetPending: bool

    var useWatchData: bool
    var watchBpm: int
    var watchHrv: int

    var travelingTo: Option<string>
    var distanceRemaining: nat
    var notificationSent: Option<string>

    /** Status reverts (10 s) and notification dismissals (8 s) still to fire. */
    var statusRevertsPending: nat
    var dismissalsPending: nat

    /** The overload monitor's view of the state. */
    function AlarmState(): Alarm
      reads this
    {
      Alarm(sensoryOverload, viewMode, overloadClearIn)
    }

    /** The invariant every step keeps: the ranges of the metrics and the feed inputs, the
        bounded history, a settled overload monitor, a press counter below three with a
        reset pending exactly when it is not zero, and a pending timeout behind every
        threat status and every shown notification. */
    ghost predicate Valid()
      reads this
    {
      && 40 <= bpm <= 180
      && 0 <= burnout <= 100
      && |stressHistory| <= HistoryCapacity
      && (forall i :: 0 <= i < |stressHistory| ==> 0 <= stressHistory[i] <= 100)
      && Settled(bpm, AlarmState())
      && clickCount < TogglePresses
      && (clickResetPending <==> clickCount > 0)
      && 40 <= watchBpm <= 180
      && 10 <= watchHrv <= 100
      && (status == ThreatDetected ==> statusRevertsPending > 0)
      && (notificationSent.Some? ==> dismissalsPending > 0)
    }

    /** The state at start-up (App.tsx:177-205, 218). */
    constructor ()
      ensures Valid()
      ensures viewMode == Face && bpm == InitialBpm && burnout == InitialBurnout
      ensures stressHistory == InitialHistory
      ensures status == Monitoring && transcript == "" && incidents == []
      ensures !sensoryOverload && overloadClearIn == 0
      ensures !witnessMode && clickCount == 0 && !clickResetPending
      ensures !useWatchData && watchBpm == 75 && watchHrv == 55
      ensures travelingTo == None && distanceRemaining == 0 && notificationSent == None
      ensures statusRevertsPending == 0 && dismissalsPending == 0
    {
      viewMode, bpm, burnout := Face, InitialBpm, InitialBurnout;
      stressHistory := InitialHistory;
      status, transcript, incidents := Monitoring, "", [];
      sensoryOverload, overloadClearIn := false, 0;
      witnessMode, clickCount, clickResetPending := false, 0, false;
      useWatchData, watchBpm, watchHrv := false, 75, 55;
      travelingTo, distanceRemaining, notificationSent := None, 0, None;
      statusRevertsPending, dismissalsPending := 0, 0;
    }

    // -------------------------------------------------------------------------
    // Overload monitor (App.tsx:372-381)
    // -------------------------------------------------------------------------

    /** One run of the overload effect: its cleanup cancels the pending clear, then it
        enters overload above 115 bpm (switching the face to the app) or, while
        overloaded at 100 bpm or below, arms the 5-second clear. */
    method MonitorOverload()
      modifies this`sensoryOverload, this`viewMode, this`overloadClearIn
      ensures AlarmState() == OverloadEffect(bpm, old(sensoryOverload), old(viewMode))
    {
      overloadClearIn := 0;
      if bpm > EnterAbove && !sensoryOverload {
        sensoryOverload := true;
        if viewMode == Face {
          viewMode := App;
        }
      } else if bpm <= RecoverAtOrBelow && sensoryOverload {
        overloadClearIn := ClearSeconds;
      }
    }

    /** The render after a step: the overload effect runs again exactly when bpm,
        sensoryOverload or viewMode differs from the values before the step. */
    method Commit(oldBpm: int, oldOverload: bool, oldView: ViewMode)
      modifies this`sensoryOverload, this`viewMode, this`overloadClearIn
      ensures AlarmState() == Rerender(oldBpm, oldOverload, oldView, bpm, old(AlarmState()))
    {
      if bpm != oldBpm || sensoryOverload != oldOverload || viewMode != oldView {
        MonitorOverload();
      }
    }

    /** One second of the pending overload clear; when it runs out the overload ends. */
    method OverloadClearTick()
      requires Valid() && overloadClearIn > 0
      modifies this`sensoryOverload, this`viewMode, this`overloadClearIn
      ensures Valid()
      ensures AlarmState() == ClearTick(old(AlarmState()))
    {
      overloadClearIn := overloadClearIn - 1;
      if overloadClearIn == 0 {
        var o0 := sensoryOverload;
        sensoryOverload := false;
        Commit(bpm, o0, viewMode);
      }
    }

    // -------------------------------------------------------------------------
    // Timers of the simulation effect (App.tsx:312-362)
    // -------------------------------------------------------------------------

    /** The history interval, every 3 s in both modes (App.tsx:313-319). */
    method SampleHistory()
      requires Valid()
      modifies this`stressHistory
      ensures Valid()
      ensures stressHistory == Sampled(old(stressHistory), burnout)
    {
      stressHistory := Sampled(stressHistory, burnout);
    }

    /** The heart-rate interval of random mode, every 4 s (App.tsx:324-332). The interval
        exists only while the watch feed is off. */
    method RandomBpmTick(noise: int)
      requires Valid() && !useWatchData && -5 <= noise <= 5
      modifies this`bpm, this`sensoryOverload, this`viewMode, this`overloadClearIn
      ensures Valid()
      ensures bpm == RandomBpm(old(burnout), noise)
      ensures AlarmState() == Rerender(old(bpm), old(sensoryOverload), old(viewMode), bpm, old(AlarmState()))
    {
      var b0, o0, v0 := bpm, sensoryOverload, viewMode;
      bpm := RandomBpm(burnout, noise);
      Commit(b0, o0, v0);
    }

    /** The burnout interval of random mode, every 6 s (App.tsx:334-346). The interval
        exists only while the watch feed is off. */
    method RandomBurnoutTick(change: int)
      requires Valid() && !useWatchData && -15 <= change <= 15
      modifies this`burnout, this`sensoryOverload, this`viewMode, this`overloadClearIn
      ensures Valid()
      ensures burnout == RandomBurnout(old(burnout), change)
      ensures burnout > EscalateAbove ==> viewMode.App?
      ensures burnout <= EscalateAbove ==> viewMode == old(viewMode)
      ensures AlarmState() == Rerender(old(bpm), old(sensoryOverload), old(viewMode), bpm,
                Alarm(old(sensoryOverload), Escalated(old(viewMode), burnout > EscalateAbove), old(overloadClearIn)))
    {
      var b0, o0, v0 := bpm, sensoryOverload, viewMode;
      burnout := RandomBurnout(burnout, change);
      if burnout > EscalateAbove && viewMode.Face? {
        viewMode := App;
      }
      Commit(b0, o0, v0);
    }

    /** The watch-feed branch of the simulation effect (App.tsx:347-362): bpm is the
        watch's heart rate, unclamped, and burnout is derived from its HRV. In random mode
        the effect changes no state. */
    method SyncWatchFeed()
      requires Valid()
      modifies this`bpm, this`burnout, this`sensoryOverload, this`viewMode, this`overloadClearIn
      ensures Valid()
      ensures !useWatchData ==>
                bpm == old(bpm) && burnout == old(burnout) && AlarmState() == old(AlarmState())
      ensures useWatchData ==> bpm == watchBpm && burnout == HrvBurnout(watchHrv)
      ensures useWatchData ==>
                AlarmState() == Rerender(old(bpm), old(sensoryOverload), old(viewMode), bpm,
                  Alarm(old(sensoryOverload), Escalated(old(viewMode), HrvEscalates(watchHrv)), old(overloadClearIn)))
      ensures useWatchData && HrvEscalates(watchHrv) ==> viewMode.App?
    {
      if useWatchData {
        var b0, o0, v0 := bpm, sensoryOverload, viewMode;
        bpm := watchBpm;
        burnout := HrvBurnout(watchHrv);
        if HrvEscalates(watchHrv) && viewMode.Face? {
          viewMode := App;
        }
        Commit(b0, o0, v0);
      }
    }

    /** The watch-bridge switch (App.tsx:621). */
    method ToggleWatchData()
      requires Valid()
      modifies this`useWatchData
      ensures Valid() && useWatchData == !old(useWatchData)
    {
      useWatchData := !useWatchData;
    }

    /** The heart-rate slider, 40..180 (App.tsx:636-637). */
    method SetWatchBpm(value: int)
      requires Valid() && 40 <= value <= 180
      modifies this`watchBpm
      ensures Valid() && watchBpm == value
    {
      watchBpm := value;
    }

    /** The HRV slider, 10..100 (App.tsx:647-648). */
    method SetWatchHrv(value: int)
      requires Valid() && 10 <= value <= 100
      modifies this`watchHrv
      ensures Valid() && watchHrv == value
    {
      watchHrv := value;
    }

    // -------------------------------------------------------------------------
    // Travel (App.tsx:383-409)
    // -------------------------------------------------------------------------

    /** The GO button of the i-th quiet zone on the map (App.tsx:405-409, 733-736). The
        map, and with it the buttons, is shown only while no travel is in progress
        (App.tsx:723). */
    method StartTravel(i: nat)
      requires Valid() && travelingTo.None? && i < |QuietZones|
      modifies this`distanceRemaining, this`travelingTo
      ensures Valid()
      ensures ParseDistance(QuietZones[i].distance) == Some(distanceRemaining)
      ensures travelingTo == Some(QuietZones[i].name)
    {
      ZoneParses(i);
      distanceRemaining := ParseDistance(QuietZones[i].distance).value;
      travelingTo := Some(QuietZones[i].name);
    }

    /** One tick of the travel interval, every second while travelling with distance left
        (App.tsx:385-388). */
    method TravelTick()
      requires Valid() && travelingTo.Some? && distanceRemaining > 0
      modifies this`distanceRemaining
      ensures Valid() && distanceRemaining == TravelStep(old(distanceRemaining))
    {
      distanceRemaining := TravelStep(distanceRemaining);
    }

    /** Arrival, once travelling with no distance left (App.tsx:389-403): the travel ends,
        the manager notification is shown with its 8-second dismissal armed, and burnout
        and heart rate return to their baseline. The model's reply is a parameter, None
        when the call failed. */
    method Arrive(reply: Option<string>)
      requires Valid() && travelingTo.Some? && distanceRemaining == 0
      modifies this`travelingTo, this`notificationSent, this`dismissalsPending, this`burnout,
               this`bpm, this`sensoryOverload, this`viewMode, this`overloadClearIn
      ensures Valid()
      ensures travelingTo == None
      ensures notificationSent == Some(Gemini.ManagerNotification(old(travelingTo).value, reply))
      ensures dismissalsPending == old(dismissalsPending) + 1
      ensures burnout == ArrivalBurnout && bpm == ArrivalBpm
      ensures AlarmState() == Rerender(old(bpm), old(sensoryOverload), old(viewMode), ArrivalBpm, old(AlarmState()))
    {
      var b0, o0, v0 := bpm, sensoryOverload, viewMode;
      var zone := travelingTo.value;
      travelingTo := None;
      notificationSent := Some(Gemini.ManagerNotification(zone, reply));
      dismissalsPending := dismissalsPending + 1;
      burnout := ArrivalBurnout;
      bpm := ArrivalBpm;
      Commit(b0, o0, v0);
    }

    /** The Cancel Route button, shown only while travelling (App.tsx:750): the travel
        ends with no notification and no change to burnout or heart rate. */
    method CancelTravel()
      requires Valid() && travelingTo.Some?
      modifies this`travelingTo
      ensures Valid() && travelingTo == None
      ensures burnout == old(burnout) && bpm == old(bpm) && notificationSent == old(notificationSent)
    {
      travelingTo := None;
    }

    /** The Dismiss button of the notification (App.tsx:760). */
    method DismissNotification()
      requires Valid()
      modifies this`notificationSent
      ensures Valid() && notificationSent == None
    {
      notificationSent := None;
    }

    /** One of the 8-second dismissal timers fires (App.tsx:402). */
    method NotificationTimeout()
      requires Valid() && dismissalsPending > 0
      modifies this`notificationSent, this`dismissalsPending
      ensures Valid() && notificationSent == None
      ensures dismissalsPending == old(dismissalsPending) - 1
    {
      notificationSent := None;
      dismissalsPending := dismissalsPending - 1;
    }

    // -------------------------------------------------------------------------
    // Watch face (App.tsx:522-563)
    // -------------------------------------------------------------------------

    /** The animal widget on the face opens the app (App.tsx:560-563); the widget is
        shown only on the face (App.tsx:522). */
    method OpenApp()
      requires Valid() && viewMode == Face
      modifies this`viewMode, this`sensoryOverload, this`overloadClearIn
      ensures Valid()
      ensures viewMode == App
      ensures AlarmState() == Rerender(old(bpm), old(sensoryOverload), old(viewMode), bpm,
                Alarm(old(sensoryOverload), App, old(overloadClearIn)))
    {
      var b0, o0, v0 := bpm, sensoryOverload, viewMode;
      viewMode := App;
      Commit(b0, o0, v0);
    }

    // -------------------------------------------------------------------------
    // Crown (App.tsx:412-431)
    // -------------------------------------------------------------------------

    /** A press of the crown: always back to the face; the press is counted, the pending
        reset is cancelled, and the third press in a row toggles witness mode and starts
        counting afresh, while any other press arms a new 400 ms reset. */
    method PressCrown()
      requires Valid()
      modifies this`viewMode, this`clickCount, this`clickResetPending, this`witnessMode,
               this`sensoryOverload, this`overloadClearIn
      ensures Valid()
      ensures viewMode == Face
      ensures old(clickCount) + 1 == TogglePresses ==>
                witnessMode == !old(witnessMode) && clickCount == 0 && !clickResetPending
      ensures old(clickCount) + 1 < TogglePresses ==>
                witnessMode == old(witnessMode) && clickCount == old(clickCount) + 1 && clickResetPending
      ensures AlarmState() == Rerender(old(bpm), old(sensoryOverload), old(viewMode), bpm,
                Alarm(old(sensoryOverload), Face, old(overloadClearIn)))
    {
      var b0, o0, v0 := bpm, sensoryOverload, viewMode;
      viewMode := Face;
      clickCount := clickCount + 1;
      clickResetPending := false;
      if clickCount == TogglePresses {
        witnessMode := !witnessMode;
        clickCount := 0;
      } else {
        clickResetPending := true;
      }
      Commit(b0, o0, v0);
    }

    /** The 400 ms reset timer fires (App.tsx:427-429). */
    method CrownWindowExpires()
      requires Valid() && clickResetPending
      modifies this`clickCount, this`clickResetPending
      ensures Valid() && clickCount == 0 && !clickResetPending
    {
      clickCount := 0;
      clickResetPending := false;
    }

    // -------------------------------------------------------------------------
    // Transcripts (App.tsx:433-461, 666, 686)
    // -------------------------------------------------------------------------

    /** The transcript input and the demo chips (App.tsx:666, 686). */
    method SetTranscript(text: string)
      requires Valid()
      modifies this`transcript
      ensures Valid() && transcript == text
    {
      transcript := text;
    }

    /** Submitting the transcript (App.tsx:433-461), with the classifier's verdict as a
        parameter and now the time stamp of the incident. A blank transcript does
        nothing. Otherwise burnout takes the adjustment, the watch's HRV follows it in
        watch-feed mode, an aggressive verdict logs the transcript as the newest incident
        and shows the threat status for 10 s, any other verdict shows monitoring, and the
        transcript is cleared. */
    method SubmitTranscript(result: AnalysisResult, now: string)
      requires Valid()
      modifies this`burnout, this`watchHrv, this`status, this`statusRevertsPending,
               this`incidents, this`transcript
      ensures Valid()
      ensures Blank(old(transcript)) ==>
                && burnout == old(burnout) && watchHrv == old(watchHrv)
                && status == old(status) && statusRevertsPending == old(statusRevertsPending)
                && incidents == old(incidents) && transcript == old(transcript)
      ensures !Blank(old(transcript)) ==>
                && burnout == Adjusted(old(burnout), result.stressAdjustment)
                && watchHrv == (if useWatchData then BurnoutHrv(burnout) else old(watchHrv))
                && transcript == ""
      ensures !Blank(old(transcript)) && result.isAggressive ==>
                && status == ThreatDetected
                && incidents == [Incident(now, old(transcript), result.reason)] + old(incidents)
                && statusRevertsPending == old(statusRevertsPending) + 1
      ensures !Blank(old(transcript)) && !result.isAggressive ==>
                && status == Monitoring
                && incidents == old(incidents)
                && statusRevertsPending == old(statusRevertsPending)
    {
      if Blank(transcript) {
        return;
      }
      burnout := Adjusted(burnout, result.stressAdjustment);
      if useWatchData {
        watchHrv := BurnoutHrv(burnout);
      }
      if result.isAggressive {
        status := ThreatDetected;
        incidents := [Incident(now, transcript, result.reason)] + incidents;
        statusRevertsPending := statusRevertsPending + 1;
      } else {
        status := Monitoring;
      }
      transcript := "";
    }

    /** One of the 10-second status timers fires (App.tsx:456). */
    method ThreatTimeout()
      requires Valid() && statusRevertsPending > 0
      modifies this`status, this`statusRevertsPending
      ensures Valid() && status == Monitoring
      ensures statusRevertsPending == old(statusRevertsPending) - 1
    {
      status := Monitoring;
      statusRevertsPending := statusRevertsPending - 1;
    }
  }
}
