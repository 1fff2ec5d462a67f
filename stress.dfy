/** The pure state-updater expressions of the stress simulation (App.tsx:313-362 and
    433-446): the rolling trend history, the two random walks of random mode and the
    affine map between the watch's HRV and burnout, with its inverse.

    All arithmetic is exact. The factor 0.8 is written 4/5 and the factor 1.33 is written
    133/100, and Math.floor becomes floor division (Dafny's `/` with a positive divisor).
    On the integer inputs the source gives these expressions, the exact values are never
    within rounding distance of an integer they do not equal, so the floors agree. */
module Stress {

  /** The most burnout samples the trend history keeps (App.tsx:316). */
  const HistoryCapacity: nat := 20

  /** Burnout at start-up (App.tsx:182). */
  const InitialBurnout: int := 15

  /** The trend history at start-up: fifteen samples of the initial burnout (App.tsx:183). */
  const InitialHistory: seq<int> := seq(15, _ => InitialBurnout)

  /** Math.max(lo, Math.min(hi, x)). */
  function Clamp(lo: int, hi: int, x: int): (r: int)
    requires lo <= hi
    ensures lo <= r <= hi
    ensures lo <= x <= hi ==> r == x
    ensures x < lo ==> r == lo
    ensures hi < x ==> r == hi
  {
    if x < lo then lo else if hi < x then hi else x
  }

  // ---------------------------------------------------------------------------
  // Trend history (App.tsx:313-319)
  // ---------------------------------------------------------------------------

  /** One run of the history timer: append the current burnout and, when that makes the
      list longer than the capacity, shift off its oldest entry (one entry only). */
  function Sampled(history: seq<int>, burnout: int): (r: seq<int>)
    ensures |r| == if |history| < HistoryCapacity then |history| + 1 else |history|
    ensures r[|r| - 1] == burnout
    ensures r[..|r| - 1] == if |history| < HistoryCapacity then history else history[1..]
  {
    var next := history + [burnout];
    if |next| > HistoryCapacity then next[1..] else next
  }

  /** Reference definition of a full rolling buffer: the newest (at most) HistoryCapacity
      entries of s, oldest first. */
  function Window(s: seq<int>): (r: seq<int>)
    ensures |r| == if |s| <= HistoryCapacity then |s| else HistoryCapacity
  {
    if |s| <= HistoryCapacity then s else s[|s| - HistoryCapacity..]
  }

  /** The history after the timer has fired once for each element of samples, in order. */
  function SampledAll(history: seq<int>, samples: seq<int>): seq<int>
    decreases |samples|
  {
    if samples == [] then history
    else Sampled(SampledAll(history, samples[..|samples| - 1]), samples[|samples| - 1])
  }

  /** From a history within capacity, one sample is the rolling buffer of history + [x]. */
  lemma SampledIsWindow(history: seq<int>, x: int)
    requires |history| <= HistoryCapacity
    ensures Sampled(history, x) == Window(history + [x])
  {
  }

  /** Trimming to the window before appending more makes no difference to the window. */
  lemma WindowOfWindow(s: seq<int>, t: seq<int>)
    ensures Window(Window(s) + t) == Window(s + t)
  {
    if |s| > HistoryCapacity {
      var w := s[|s| - HistoryCapacity..];
      if t == [] {
        assert w + t == w && s + t == s;
      } else {
        forall k | 0 <= k < HistoryCapacity
          ensures Window(w + t)[k] == Window(s + t)[k]
        {
          if |t| + k < HistoryCapacity {
            assert Window(w + t)[k] == w[|t| + k];
          }
        }
      }
    }
  }

  /** FIFO behaviour of the history: from any history within capacity, a run of samples
      leaves exactly the newest HistoryCapacity entries of old history and samples, in
      the order they were taken. */
  lemma {:induction false} SampledAllIsWindow(history: seq<int>, samples: seq<int>)
    requires |history| <= HistoryCapacity
    ensures SampledAll(history, samples) == Window(history + samples)
    decreases |samples|
  {
    if samples == [] {
      assert history + samples == history;
    } else {
      var init, x := samples[..|samples| - 1], samples[|samples| - 1];
      SampledAllIsWindow(history, init);
      var w := SampledAll(history, init);
      SampledIsWindow(w, x);
      WindowOfWindow(history + init, [x]);
      assert history + init + [x] == history + samples;
    }
  }

  /** Once at least HistoryCapacity samples have been taken, the history is exactly the
      newest HistoryCapacity of them: every older sample, and the whole start-up history,
      has been evicted. */
  lemma HistoryKeepsNewest(history: seq<int>, samples: seq<int>)
    requires |history| <= HistoryCapacity <= |samples|
    ensures SampledAll(history, samples) == samples[|samples| - HistoryCapacity..]
  {
    SampledAllIsWindow(history, samples);
    var all := history + samples;
    assert all[|all| - HistoryCapacity..] == samples[|samples| - HistoryCapacity..];
  }

  /** From the start-up history the buffer grows by one per sample until it holds twenty. */
  lemma HistoryLengthFromStart(samples: seq<int>)
    ensures |SampledAll(InitialHistory, samples)|
            == if |samples| <= 5 then 15 + |samples| else HistoryCapacity
  {
    SampledAllIsWindow(InitialHistory, samples);
  }

  // ---------------------------------------------------------------------------
  // Random mode (App.tsx:324-346)
  // ---------------------------------------------------------------------------

  /** The random-mode heart rate: 60 + 0.8 * burnout plus a noise in -5..5
      (Math.floor(Math.random() * 11) - 5), clamped to 60..180 and floored. It is computed
      from burnout alone, never from the previous heart rate. */
  function RandomBpm(burnout: int, noise: int): (r: int)
    requires -5 <= noise <= 5
    ensures 60 <= r <= 180
    ensures 0 <= burnout <= 100 ==> r <= 145
    ensures var raw := 60 + (4 * burnout) / 5 + noise;
            && (60 <= raw <= 180 ==> r == raw)
            && (raw < 60 ==> r == 60)
            && (raw > 180 ==> r == 180)
    ensures 60 < r < 180 ==> 5 * (r - 60 - noise) <= 4 * burnout < 5 * (r - 60 - noise) + 5
  {
    Clamp(60, 180, 60 + (4 * burnout) / 5 + noise)
  }

  /** Heart rate rises with burnout: for the same noise, more burnout never gives a lower
      heart rate. */
  lemma RandomBpmMonotone(b1: int, b2: int, noise: int)
    requires -5 <= noise <= 5
    requires b1 <= b2
    ensures RandomBpm(b1, noise) <= RandomBpm(b2, noise)
  {
    assert (4 * b1) / 5 <= (4 * b2) / 5;
  }

  /** In random mode the heart rate can cross the overload threshold (above 115) only
      when burnout is at least 64, and burnout 64 with the largest noise does cross it. */
  lemma RandomOverloadNeedsBurnout64(burnout: int, noise: int)
    requires -5 <= noise <= 5
    ensures RandomBpm(burnout, noise) > 115 ==> burnout >= 64
    ensures RandomBpm(64, 5) == 116
  {
  }

  /** In random mode the heart rate can fall to the overload recovery level (100 or below)
      only when burnout is at most 57, and burnout 57 with the smallest noise does. */
  lemma RandomRecoveryNeedsBurnout57(burnout: int, noise: int)
    requires -5 <= noise <= 5
    ensures RandomBpm(burnout, noise) <= 100 ==> burnout <= 57
    ensures RandomBpm(57, -5) == 100
  {
  }

  /** The random-mode burnout walk: the previous burnout plus a change in -15..15
      (Math.floor(Math.random() * 31) - 15), clamped to 0..100. */
  function RandomBurnout(burnout: int, change: int): (r: int)
    requires -15 <= change <= 15
    ensures 0 <= r <= 100
    ensures 0 <= burnout <= 100 ==> -15 <= r - burnout <= 15
    ensures 0 <= burnout + change <= 100 ==> r == burnout + change
    ensures burnout + change > 100 ==> r == 100
    ensures burnout + change < 0 ==> r == 0
  {
    Clamp(0, 100, burnout + change)
  }

  // ---------------------------------------------------------------------------
  // Watch-feed mode (App.tsx:348-362) and the HRV write-back (App.tsx:443-446)
  // ---------------------------------------------------------------------------

  /** Burnout derived from the watch's heart-rate variability: the floor of
      116 - 1.33 * hrv, clamped to 0..100. The value is characterised by its floor
      bounds: 100 * r is the largest multiple of 100 not above 11600 - 133 * hrv. */
  function HrvBurnout(hrv: int): (r: int)
    ensures 0 <= r <= 100
    ensures r == 0 <==> 11600 - 133 * hrv < 100
    ensures r == 100 <==> 11600 - 133 * hrv >= 10000
    ensures 0 < r < 100 ==> 100 * r <= 11600 - 133 * hrv < 100 * r + 100
  {
    Clamp(0, 100, (11600 - 133 * hrv) / 100)
  }

  /** The unfloored, clamped value of line 356 is above 85, which is what forces the app
      view at line 359. Clamping does not matter here since 85 lies inside 0..100. */
  predicate HrvEscalates(hrv: int) {
    11600 - 133 * hrv > 8500
  }

  /** Lower HRV means more burnout: the map is non-increasing. */
  lemma HrvBurnoutAntitone(h1: int, h2: int)
    requires h1 <= h2
    ensures HrvBurnout(h2) <= HrvBurnout(h1)
  {
    assert (11600 - 133 * h2) / 100 <= (11600 - 133 * h1) / 100;
  }

  /** The anchor points of the map: HRV 20 gives burnout 89, every HRV from 88 up gives 0
      and every HRV up to 12 gives 100. */
  lemma HrvBurnoutAnchors(hrv: int)
    ensures HrvBurnout(20) == 89
    ensures hrv >= 88 ==> HrvBurnout(hrv) == 0
    ensures hrv <= 12 ==> HrvBurnout(hrv) == 100
  {
  }

  /** The view is forced to the app exactly for HRV up to 23. At HRV 23 the floored
      burnout is 85, so the watch feed forces the app view at a burnout that random mode
      (which compares the integer burnout) would leave on the face. */
  lemma HrvEscalationThreshold(hrv: int)
    ensures HrvEscalates(hrv) <==> hrv <= 23
    ensures HrvBurnout(hrv) > 85 ==> HrvEscalates(hrv)
    ensures HrvBurnout(23) == 85 && HrvEscalates(23)
  {
  }

  /** The HRV written back after a transcript changes burnout in watch-feed mode: the
      floor of (116 - burnout) / 1.33, clamped to 10..100. For a burnout in 0..100 the
      clamp never acts: the HRV is the floor of 100 * (116 - burnout) / 133, in 12..87. */
  function BurnoutHrv(burnout: int): (r: int)
    ensures 10 <= r <= 100
    ensures 0 <= burnout <= 100 ==>
              12 <= r <= 87 && 133 * r <= 100 * (116 - burnout) < 133 * r + 133
  {
    Clamp(10, 100, (100 * (116 - burnout)) / 133)
  }

  /** Feeding the written-back HRV through the watch map gives back the burnout or one
      more: the write-back is the inverse of the map up to one unit of rounding. */
  lemma HrvRoundTrip(burnout: int)
    requires 0 <= burnout <= 100
    ensures HrvBurnout(BurnoutHrv(burnout)) == burnout
            || HrvBurnout(BurnoutHrv(burnout)) == burnout + 1
  {
    var h := BurnoutHrv(burnout);
    var r := HrvBurnout(h);
    assert 100 * burnout <= 11600 - 133 * h < 100 * burnout + 133;
  }

  /** The round trip does drift: burnout 11 is written back as HRV 78, which the map reads
      as burnout 12. The drift cannot be avoided, because no HRV at all maps to 11. */
  lemma HrvRoundTripDrifts(hrv: int)
    ensures BurnoutHrv(11) == 78 && HrvBurnout(78) == 12
    ensures HrvBurnout(hrv) != 11
  {
    if hrv <= 78 {
      assert 11600 - 133 * hrv >= 1226;
    } else {
      assert 11600 - 133 * hrv <= 1093;
    }
  }

  // ---------------------------------------------------------------------------
  // Transcript adjustment (App.tsx:440)
  // ---------------------------------------------------------------------------

  /** Burnout after a classified transcript: burnout plus the classifier's adjustment,
      clamped to 0..100. */
  function Adjusted(burnout: int, adjustment: int): (r: int)
    ensures 0 <= r <= 100
    ensures 0 <= burnout + adjustment <= 100 ==> r == burnout + adjustment
    ensures burnout + adjustment > 100 ==> r == 100
    ensures burnout + adjustment < 0 ==> r == 0
  {
    Clamp(0, 100, burnout + adjustment)
  }

  /** The adjustment is monotone in both arguments: a larger adjustment or a larger
      starting burnout never gives less burnout. */
  lemma AdjustedMonotone(b1: int, b2: int, a1: int, a2: int)
    requires b1 <= b2 && a1 <= a2
    ensures Adjusted(b1, a1) <= Adjusted(b2, a2)
  {
  }
}
