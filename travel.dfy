/** The travel sequence's pure parts (App.tsx:222-227, 383-409): the quiet zones, the
    parsing of their distance labels and the countdown of the remaining distance. */
module Travel {
  import opened Types

  /** Metres covered per one-second tick of the travel interval (App.tsx:387). */
  const MetresPerTick: nat := 5

  /** The three destinations offered on the map (App.tsx:223-227). */
  const QuietZones: seq<QuietZone> := [
    QuietZone("Blue Sensory Pod", "45m", "Soft lighting, weighted blankets."),
    QuietZone("Reading Nook", "120m", "Zero-noise zone, noise cancelling available."),
    QuietZone("Outdoor Zen Garden", "280m", "Natural breeze, water features.")
  ]

  // ---------------------------------------------------------------------------
  // Distance labels (App.tsx:406)
  // ---------------------------------------------------------------------------

  /** s.replace(c, '') with a one-character pattern: the first occurrence of c is removed. */
  function DropFirst(s: string, c: char): (r: string)
    ensures c !in s ==> r == s
    ensures c in s ==> |r| == |s| - 1
  {
    if s == [] then []
    else if s[0] == c then s[1..]
    else [s[0]] + DropFirst(s[1..], c)
  }

  predicate IsDigit(c: char) {
    '0' as int <= c as int <= '9' as int
  }

  /** Length of the leading run of decimal digits of s. */
  function DigitRun(s: string): (n: nat)
    ensures n <= |s|
    ensures forall i :: 0 <= i < n ==> IsDigit(s[i])
    ensures n < |s| ==> !IsDigit(s[n])
  {
    if s == [] || !IsDigit(s[0]) then 0 else 1 + DigitRun(s[1..])
  }

  /** The value of a string of decimal digits, most significant first. */
  function DigitsValue(d: string): nat
    requires forall i :: 0 <= i < |d| ==> IsDigit(d[i])
    decreases |d|
  {
    if d == [] then 0
    else 10 * DigitsValue(d[..|d| - 1]) + DigitValue(d[|d| - 1])
  }

  function DigitValue(c: char): (v: nat)
    requires IsDigit(c)
    ensures v <= 9
  {
    c as int - '0' as int
  }

  /** parseInt on a string that starts with its digits: the value of the leading run of
      decimal digits, or None (NaN) when the string does not start with a digit. */
  function ParseInt(s: string): (r: Option<nat>)
    ensures r.Some? <==> |s| > 0 && IsDigit(s[0])
  {
    var n := DigitRun(s);
    if n == 0 then None else Some(DigitsValue(s[..n]))
  }

  /** The distance of a quiet zone in metres: parseInt(distance.replace('m', '')). */
  function ParseDistance(distance: string): Option<nat> {
    ParseInt(DropFirst(distance, 'm'))
  }

  /** The decimal digits of n, most significant first, without leading zeros. */
  function Decimal(n: nat): (d: string)
    ensures |d| > 0 && forall i :: 0 <= i < |d| ==> IsDigit(d[i])
    decreases n
  {
    if n < 10 then [('0' as int + n) as char]
    else Decimal(n / 10) + [('0' as int + n % 10) as char]
  }

  lemma {:induction false} DecimalValue(n: nat)
    ensures DigitsValue(Decimal(n)) == n
    decreases n
  {
    var d := Decimal(n);
    if n >= 10 {
      DecimalValue(n / 10);
      assert d[..|d| - 1] == Decimal(n / 10);
    }
  }

  /** Parsing is the inverse of writing a distance as a label: the label "<n>m" parses to n. */
  lemma {:induction false} ParseDistanceRoundTrip(n: nat)
    ensures ParseDistance(Decimal(n) + "m") == Some(n)
  {
    var d := Decimal(n);
    assert 'm' !in d by {
      forall i | 0 <= i < |d| ensures d[i] != 'm' {
        assert IsDigit(d[i]);
      }
    }
    DropFirstSplit(d, 'm', []);
    assert d + "m" == d + ['m'] + [] && d + [] == d;
    DigitRunOfDigits(d);
    assert d[..|d|] == d;
    DecimalValue(n);
  }

  /** Characterisation of DropFirst: for s = p + [c] + q where p has no c, the result is
      p + q. */
  lemma {:induction false} DropFirstSplit(p: string, c: char, q: string)
    requires c !in p
    ensures DropFirst(p + [c] + q, c) == p + q
    decreases |p|
  {
    if p == [] {
      assert p + [c] + q == [c] + q;
    } else {
      assert p[0] != c && p[0] == (p + [c] + q)[0];
      assert (p + [c] + q)[1..] == p[1..] + [c] + q;
      DropFirstSplit(p[1..], c, q);
      assert [p[0]] + (p[1..] + q) == p + q;
    }
  }

  /** A string of digits that is whole is one digit run. */
  lemma DigitRunOfDigits(d: string)
    requires forall i :: 0 <= i < |d| ==> IsDigit(d[i])
    ensures DigitRun(d) == |d|
  {
  }

  /** Every offered zone's label parses: to 45, 120 and 280 metres. */
  lemma QuietZoneDistances()
    ensures ParseDistance(QuietZones[0].distance) == Some(45)
    ensures ParseDistance(QuietZones[1].distance) == Some(120)
    ensures ParseDistance(QuietZones[2].distance) == Some(280)
  {
    PodDistance();
    NookDistance();
    GardenDistance();
  }

  lemma PodDistance()
    ensures ParseDistance(QuietZones[0].distance) == Some(45)
  {
    assert Decimal(45) == "45" by {
      assert Decimal(4) == "4";
    }
    ZoneDistance(0, 45);
  }

  lemma NookDistance()
    ensures ParseDistance(QuietZones[1].distance) == Some(120)
  {
    assert Decimal(120) == "120" by {
      assert Decimal(1) == "1";
      assert Decimal(12) == "12";
    }
    ZoneDistance(1, 120);
  }

  lemma GardenDistance()
    ensures ParseDistance(QuietZones[2].distance) == Some(280)
  {
    assert Decimal(280) == "280" by {
      assert Decimal(2) == "2";
      assert Decimal(28) == "28";
    }
    ZoneDistance(2, 280);
  }

  /** Every offered zone's label parses. */
  lemma ZoneParses(i: nat)
    requires i < |QuietZones|
    ensures ParseDistance(QuietZones[i].distance).Some?
  {
    if i == 0 {
      PodDistance();
    } else if i == 1 {
      NookDistance();
    } else {
      GardenDistance();
    }
  }

  lemma ZoneDistance(i: nat, n: nat)
    requires i < |QuietZones| && QuietZones[i].distance == Decimal(n) + "m"
    ensures ParseDistance(QuietZones[i].distance) == Some(n)
  {
    ParseDistanceRoundTrip(n);
  }

  // ---------------------------------------------------------------------------
  // Countdown (App.tsx:385-388)
  // ---------------------------------------------------------------------------

  /** One tick of the travel interval: Math.max(0, distance - 5). */
  function TravelStep(distance: int): (r: nat)
    ensures distance > 0 ==> r < distance
    ensures distance >= MetresPerTick ==> r == distance - MetresPerTick
    ensures distance <= MetresPerTick ==> r == 0
  {
    if distance - MetresPerTick > 0 then distance - MetresPerTick else 0
  }

  /** Number of ticks the interval runs before the distance reaches 0: the arrival takes
      ceil(distance / 5) ticks. */
  function TicksToArrive(distance: nat): (r: nat)
    ensures r == (distance + MetresPerTick - 1) / MetresPerTick
    decreases distance
  {
    if distance == 0 then 0 else 1 + TicksToArrive(TravelStep(distance))
  }

  /** The nearest zone, 45 m away, is reached after nine ticks. */
  lemma NearestZoneTicks()
    ensures TicksToArrive(45) == 9
  {
  }
}
