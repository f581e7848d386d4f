/** The pressure thread's average, the flag it publishes and the burns that flag ends. */
module BurnPressure {
  import opened RunningAverage
  import opened Clock
  import opened BurnProtocol
  import opened BurnSafety
  import opened BurnRuns
  import opened BurnStop

  /** The converted PT1 readings of the steps i..j, oldest first. */
  function Readings(c: Config, es: seq<Event>, i: nat, j: nat): seq<real>
    requires i <= j <= |es|
    decreases j
  {
    if i == j then []
    else if es[j - 1].Sample? then Readings(c, es, i, j - 1) + [Converted(c, es[j - 1].raw)]
    else Readings(c, es, i, j - 1)
  }

  /** Whatever the other threads do, the average of a run is the running average of its readings. */
  lemma {:induction false} AverageOfRun(c: Config, ss: seq<State>, es: seq<Event>, i: nat, j: nat)
    requires IsRun(c, ss, es) && i <= j <= |es|
    ensures ss[j].avg == After(ss[i].avg, Readings(c, es, i, j))
  {
    if i < j {
      AverageOfRun(c, ss, es, i, j - 1);
      assert StepAt(c, ss, es, j - 1);
      if es[j - 1].Sample? {
        var xs, x := Readings(c, es, i, j - 1), Converted(c, es[j - 1].raw);
        assert (xs + [x])[..|xs|] == xs;
      }
    }
  }

  /** The raw counts of the same readings. */
  function RawReadings(es: seq<Event>, i: nat, j: nat): seq<nat>
    requires i <= j <= |es|
    decreases j
  {
    if i == j then []
    else if es[j - 1].Sample? then RawReadings(es, i, j - 1) + [es[j - 1].raw]
    else RawReadings(es, i, j - 1)
  }

  lemma {:induction false} ReadingsAreCalibrated(c: Config, es: seq<Event>, i: nat, j: nat)
    requires i <= j <= |es|
    ensures var raws, xs := RawReadings(es, i, j), Readings(c, es, i, j);
            |xs| == |raws| && forall k :: 0 <= k < |xs| ==> xs[k] == Converted(c, raws[k])
    decreases j
  {
    if i < j {
      ReadingsAreCalibrated(c, es, i, j - 1);
    }
  }

  /** The average of a run in terms of raw counts: the calibration is slope times the count plus the intercept. */
  lemma {:induction false} AverageOfRawCounts(c: Config, ss: seq<State>, es: seq<Event>, i: nat, j: nat)
    requires IsRun(c, ss, es) && i <= j <= |es|
    ensures ss[j].avg == AverageOfCounts(ss[i].avg, c.slope, c.yint, RawReadings(es, i, j))
  {
    AverageOfRun(c, ss, es, i, j);
    ReadingsAreCalibrated(c, es, i, j);
    AverageOfConverted(c, ss[i].avg, RawReadings(es, i, j), Readings(c, es, i, j));
  }

  lemma {:induction false} ReadingsPrefix(c: Config, es: seq<Event>, i: nat, q: nat, m: nat)
    requires i <= q <= m <= |es|
    ensures Readings(c, es, i, q) <= Readings(c, es, i, m)
    decreases m
  {
    if q < m {
      ReadingsPrefix(c, es, i, q, m - 1);
    }
  }

  // ---- a lasting fault ends the burn ----

  /** The readings stay below pressureMin (low) or above pressureMax (high) by at least d. */
  ghost predicate Beyond(c: Config, xs: seq<real>, d: real, low: bool) {
    d > 0.0 && if low then AllAtMost(xs, c.pressureMin - d) else AllAtLeast(xs, c.pressureMax + d)
  }

  /** How far the average still is on the good side of the limit. */
  function Margin(c: Config, avg: real, low: bool): real {
    if low then avg - c.pressureMin else c.pressureMax - avg
  }

  /** n is more than 19 margin / d. */
  predicate Enough(n: nat, d: real, margin: real) {
    n as real * d > 19.0 * margin
  }

  /** After more than 19 margin / d such readings the average is out of band, and stays so while they last. */
  lemma {:induction false} AverageTrips(c: Config, ss: seq<State>, es: seq<Event>, i: nat, p: nat, m: nat,
                                        d: real, low: bool)
    requires IsRun(c, ss, es) && i <= p <= m <= |es| && Beyond(c, Readings(c, es, i, m), d, low)
    requires Enough(|Readings(c, es, i, p)|, d, Margin(c, ss[i].avg, low))
    ensures OutOfBand(c, ss[m].avg)
  {
    AverageOfRun(c, ss, es, i, m);
    ReadingsPrefix(c, es, i, p, m);
    Trips(c, ss[i].avg, Readings(c, es, i, p), Readings(c, es, i, m), d, low);
  }

  lemma {:induction false} MoreIsEnough(few: nat, many: nat, d: real, margin: real)
    requires few <= many && d > 0.0 && Enough(few, d, margin)
    ensures Enough(many, d, margin)
  {
    Scale(d, few as real, many as real);
    assert few as real * d <= many as real * d;
  }

  lemma {:induction false} Trips(c: Config, avg: real, few: seq<real>, xs: seq<real>, d: real, low: bool)
    requires Beyond(c, xs, d, low) && few <= xs && Enough(|few|, d, Margin(c, avg, low))
    ensures OutOfBand(c, After(avg, xs))
  {
    MoreIsEnough(|few|, |xs|, d, Margin(c, avg, low));
    if low {
      TripsLow(avg, xs, c.pressureMin, d);
    } else {
      TripsHigh(avg, xs, c.pressureMax, d);
    }
  }

  predicate ClearsFlag(s: State, e: Event) {
    e == Cmd && s.cmd == ClearShutoff
  }

  lemma {:induction false} BeyondPrefix(c: Config, es: seq<Event>, i: nat, q: nat, m: nat, d: real, low: bool)
    requires i <= q <= m <= |es| && Beyond(c, Readings(c, es, i, m), d, low)
    ensures Beyond(c, Readings(c, es, i, q), d, low)
  {
    ReadingsPrefix(c, es, i, q, m);
    var xs, ys := Readings(c, es, i, q), Readings(c, es, i, m);
    assert forall k :: 0 <= k < |xs| ==> xs[k] == ys[k];
  }

  /** The flag published after that is true and stays true until a START clears it. */
  lemma {:induction false} FlagStays(c: Config, ss: seq<State>, es: seq<Event>, i: nat, p: nat, m: nat,
                                     d: real, low: bool)
    requires IsRun(c, ss, es) && i <= p < m <= |es| && Beyond(c, Readings(c, es, i, m), d, low)
    requires Enough(|Readings(c, es, i, p)|, d, Margin(c, ss[i].avg, low))
    requires es[p] == Publish && forall k :: p < k < m ==> !ClearsFlag(ss[k], es[k])
    ensures ss[m].pressureShutoff
    decreases m
  {
    BeyondPrefix(c, es, i, m - 1, m, d, low);
    AverageTrips(c, ss, es, i, p, m - 1, d, low);
    assert StepAt(c, ss, es, m - 1);
    if p < m - 1 {
      FlagStays(c, ss, es, i, p, m - 1, d, low);
      FlagStep(c, ss[m - 1], es[m - 1], NowMs(c, ss[m - 1]));
    }
  }

  lemma {:induction false} FlagStep(c: Config, s: State, e: Event, now: Timestamp)
    requires Enabled(s, e) && s.pressureShutoff && OutOfBand(c, s.avg) && !ClearsFlag(s, e)
    ensures NextAt(c, s, e, now).pressureShutoff
  {
  }

  /** In the shutdown, a pin is HIGH only before its shutdown write. */
  predicate ShuttingDown(s: State) {
    && Rank(s.pc) <= 4 && s.pc != Nap
    && (s.Valve() ==> s.pc == CloseValve)
    && (s.Igniter() ==> s.pc == CloseValve || s.pc == CloseIgniter)
  }

  lemma {:induction false} ShutdownStep(c: Config, s: State, e: Event, now: Timestamp)
    requires Enabled(s, e) && ShuttingDown(s) && (s.pc == Wait ==> e != Mon) && !ManualSet(e)
    ensures ShuttingDown(NextAt(c, s, e, now))
    ensures Rank(NextAt(c, s, e, now).pc) == Rank(s.pc) - (if e == Mon then 1 else 0)
  {
    match e
    case Mon =>
    case Receive(_) =>
    case _ =>
  }

  lemma {:induction false} ShutdownRuns(c: Config, ss: seq<State>, es: seq<Event>, q: nat, j: nat)
    requires IsRun(c, ss, es) && q <= j <= |es| && ss[q].pc == CloseValve
    requires None(ManualSet, es, q, j) && Count(MonStep, ss, es, q, j) <= 4
    ensures Rank(ss[j].pc) == 4 - Count(MonStep, ss, es, q, j) && ShuttingDown(ss[j])
  {
    if q < j {
      ShutdownRuns(c, ss, es, q, j - 1);
      assert StepAt(c, ss, es, j - 1);
      ShutdownStep(c, ss[j - 1], es[j - 1], NowMs(c, ss[j - 1]));
    }
  }

  /**
   Readings beyond a limit by d from i on, more than 19 margin / d of them by p, a store of the flag at p: the next
   pressure test past the delay ends the burn, and four more monitor steps leave the monitor waiting with both pins LOW,
   from any state and whatever manual commands came before that test.
   */
  lemma {:induction false} PressureEndsBurn(c: Config, ss: seq<State>, es: seq<Event>, i: nat, p: nat, t: nat, j: nat,
                                            d: real, low: bool)
    requires IsRun(c, ss, es) && i <= p < t < j <= |es| && None(ManualSet, es, t, j)
    requires Beyond(c, Readings(c, es, i, t), d, low)
    requires Enough(|Readings(c, es, i, p)|, d, Margin(c, ss[i].avg, low))
    requires es[p] == Publish && forall k :: p < k < t ==> !ClearsFlag(ss[k], es[k])
    requires c.shutoffEnabled && At(PressureTest, ss[t], es[t]) && ss[t].elapsed > c.shutoffDelay
    requires Count(MonStep, ss, es, t + 1, j) == 4
    ensures ss[t + 1].pc == CloseValve
    ensures ss[j].pc == Wait && ss[j].PinsLow()
  {
    FlagStays(c, ss, es, i, p, t, d, low);
    assert StepAt(c, ss, es, t);
    ShutdownRuns(c, ss, es, t + 1, j);
  }

  // ---- where a set flag comes from ----

  /** The store at p found the average out of band, and nothing has stored the flag between p and j. */
  ghost predicate FlagSetAt(c: Config, ss: seq<State>, es: seq<Event>, p: nat, j: nat)
    requires p < j <= |es| < |ss|
  {
    && es[p] == Publish && OutOfBand(c, ss[p].avg)
    && forall k :: p < k < j ==> es[k] != Publish && !ClearsFlag(ss[k], es[k])
  }

  /** The flag is set exactly when the last store to it was the sensor thread's, with the average out of band. */
  lemma {:induction false} FlagSetExactly(c: Config, ss: seq<State>, es: seq<Event>, j: nat)
    requires IsRun(c, ss, es) && !ss[0].pressureShutoff && j <= |es|
    ensures ss[j].pressureShutoff <==> exists p :: 0 <= p < j && FlagSetAt(c, ss, es, p, j)
  {
    if j > 0 {
      FlagSetExactly(c, ss, es, j - 1);
      assert StepAt(c, ss, es, j - 1);
      if es[j - 1] == Publish {
        assert OutOfBand(c, ss[j - 1].avg) ==> FlagSetAt(c, ss, es, j - 1, j);
      } else if ss[j - 1].pressureShutoff && ss[j].pressureShutoff {
        var p :| 0 <= p < j - 1 && FlagSetAt(c, ss, es, p, j - 1);
        assert FlagSetAt(c, ss, es, p, j);
      }
      if p :| 0 <= p < j - 1 && FlagSetAt(c, ss, es, p, j) {
        assert FlagSetAt(c, ss, es, p, j - 1);
      }
    }
  }

  /**
   A START turns the burn signal on before it clears the flag. A flag from before the START can be seen only until that
   second store: as long as it is set, the command thread is still between the two.
   */
  lemma {:induction false} StaleFlag(c: Config, ss: seq<State>, es: seq<Event>, p: nat, i: nat, j: nat)
    requires IsRun(c, ss, es) && p < i < j <= |es| && FlagSetAt(c, ss, es, p, j) && IsStart(es[i])
    ensures ss[j].cmd == ClearShutoff
    decreases j
  {
    assert StepAt(c, ss, es, j - 1);
    if i < j - 1 {
      StaleFlag(c, ss, es, p, i, j - 1);
    }
  }

  predicate BesidesMonitor(e: Event) {
    e != Mon && !e.Tick?
  }

  /** A run from s that ends before a pressure test that ends the burn, on a flag from before the START at i. */
  ghost predicate StaleTrip(c: Config, s: State, ss: seq<State>, es: seq<Event>, p: nat, i: nat) {
    && IsRun(c, ss, es) && ss[0] == s && p < i < |es|
    && FlagSetAt(c, ss, es, p, |es|) && IsStart(es[i])
    && ss[|es|].pc == PressureTest && PressureTripped(c, ss[|es|])
  }

  /** An out-of-band reading before a START whose second store comes later than the shutoff delay ends the new burn. */
  lemma {:induction false} StaleFlagEndsBurn(c: Config, s: State, raw: nat)
    requires Init(c, s) && OutOfBand(c, Update(INITIAL_AVERAGE, Converted(c, raw)))
    requires c.shutoffEnabled && c.hotflow > 50 && c.hotflow > c.shutoffDelay + 1
    requires s.clock + (c.hotflow + 50) * NS_PER_MS < TWO_64
    ensures exists ss: seq<State>, es: seq<Event>, p: nat, i: nat :: StaleTrip(c, s, ss, es, p, i)
  {
    var es0 := [Sample(raw), Load, Publish, Receive(START_IGNITION)];
    var s1 := Next(c, s, es0[0]);
    var s2 := Next(c, s1, es0[1]);
    var s3 := Next(c, s2, es0[2]);
    var t := Next(c, s3, es0[3]);
    var ss0 := [s, s1, s2, s3, t];
    assert StepAt(c, ss0, es0, 0) && StepAt(c, ss0, es0, 1) && StepAt(c, ss0, es0, 2) && StepAt(c, ss0, es0, 3);
    var ss1, es1 := StaleBurn(c, t);
    var ss, es := Join(c, ss0, es0, ss1, es1);
    forall k | 2 < k < |es| ensures es[k] != Publish && !ClearsFlag(ss[k], es[k]) {
      assert k >= 4 ==> !BesidesMonitor(es1[k - 4]);
    }
    assert ss[2] == ss0[2];
    assert StaleTrip(c, s, ss, es, 2, 3);
  }

  /** The monitor alone: one pass, a sleep past the shutoff delay, and the second pass up to its pressure test. */
  lemma {:induction false} StaleBurn(c: Config, t: State) returns (ss: seq<State>, es: seq<Event>)
    requires t.pc == Wait && t.ignitionOn && t.pressureShutoff && c.startTime <= t.clock
    requires c.shutoffEnabled && c.hotflow > 50 && c.hotflow > c.shutoffDelay + 1
    requires t.clock + (c.hotflow + 50) * NS_PER_MS < TWO_64
    ensures Continues(c, t, BesidesMonitor, ss, es)
    ensures ss[|es|].pc == PressureTest && PressureTripped(c, ss[|es|])
  {
    ss, es := PassToSleep(c, t, BesidesMonitor, [t], []);
    SleepsFifty(c, ss[|es|]);
    ss, es := WakeUp(c, t, BesidesMonitor, ss, es);
    ss, es := ResampleAt(c, t, BesidesMonitor, ss, es, if c.shutoffDelay < 50 then 0 else c.shutoffDelay - 49);
    ss, es := Extend(c, t, BesidesMonitor, ss, es, Mon);
    ss, es := Extend(c, t, BesidesMonitor, ss, es, Mon);
  }

  // ---- recovery ----

  /** The readings are inside the band by at least d. */
  ghost predicate Inside(c: Config, xs: seq<real>, d: real) {
    d > 0.0 && AllIn(xs, c.pressureMin + d, c.pressureMax - d)
  }

  lemma {:induction false} Recovers(c: Config, avg: real, few: seq<real>, xs: seq<real>, d: real)
    requires Inside(c, xs, d) && few <= xs
    requires Enough(|few|, d, c.pressureMin - avg) && Enough(|few|, d, avg - c.pressureMax)
    ensures !OutOfBand(c, After(avg, xs))
  {
    MoreIsEnough(|few|, |xs|, d, c.pressureMin - avg);
    MoreIsEnough(|few|, |xs|, d, avg - c.pressureMax);
    TripsHigh(avg, xs, c.pressureMin, d);
    TripsLow(avg, xs, c.pressureMax, d);
  }

  /**
   Readings inside the band by d from i on, wherever the average was: once more than 19 / d times its distance from the
   band of them have been read, the average is back, and stays so while they last.
   */
  lemma {:induction false} AverageRecovers(c: Config, ss: seq<State>, es: seq<Event>, i: nat, p: nat, m: nat, d: real)
    requires IsRun(c, ss, es) && i <= p <= m <= |es| && Inside(c, Readings(c, es, i, m), d)
    requires var n := |Readings(c, es, i, p)|;
             Enough(n, d, c.pressureMin - ss[i].avg) && Enough(n, d, ss[i].avg - c.pressureMax)
    ensures !OutOfBand(c, ss[m].avg)
  {
    AverageOfRun(c, ss, es, i, m);
    ReadingsPrefix(c, es, i, p, m);
    Recovers(c, ss[i].avg, Readings(c, es, i, p), Readings(c, es, i, m), d);
  }

  lemma {:induction false} InsidePrefix(c: Config, es: seq<Event>, i: nat, q: nat, m: nat, d: real)
    requires i <= q <= m <= |es| && Inside(c, Readings(c, es, i, m), d)
    ensures Inside(c, Readings(c, es, i, q), d)
  {
    ReadingsPrefix(c, es, i, q, m);
    var xs, ys := Readings(c, es, i, q), Readings(c, es, i, m);
    assert forall k :: 0 <= k < |xs| ==> xs[k] == ys[k];
  }

  /** The flag stored then is false and stays false, and no pressure test ends a burn while that lasts. */
  lemma {:induction false} PressureRecovers(c: Config, ss: seq<State>, es: seq<Event>, i: nat, p: nat, m: nat, d: real)
    requires IsRun(c, ss, es) && i <= p < m <= |es| && Inside(c, Readings(c, es, i, m), d) && es[p] == Publish
    requires var n := |Readings(c, es, i, p)|;
             Enough(n, d, c.pressureMin - ss[i].avg) && Enough(n, d, ss[i].avg - c.pressureMax)
    ensures !ss[m].pressureShutoff
    ensures m < |es| && At(PressureTest, ss[m], es[m]) ==> ss[m + 1].pc == IgnitionTest
    decreases m
  {
    InsidePrefix(c, es, i, m - 1, m, d);
    AverageRecovers(c, ss, es, i, p, m - 1, d);
    assert StepAt(c, ss, es, m - 1);
    if p < m - 1 {
      PressureRecovers(c, ss, es, i, p, m - 1, d);
    }
    assert m < |es| ==> StepAt(c, ss, es, m);
  }

  // ---- no false trip ----

  /** While every reading is in band the flag is never set and no pressure test ends a burn. */
  lemma {:induction false} NoFalseTrip(c: Config, ss: seq<State>, es: seq<Event>, j: nat)
    requires IsRun(c, ss, es) && Init(c, ss[0]) && j <= |es|
    requires c.pressureMin <= INITIAL_AVERAGE <= c.pressureMax
    requires AllIn(Readings(c, es, 0, j), c.pressureMin, c.pressureMax)
    ensures c.pressureMin <= ss[j].avg <= c.pressureMax && !ss[j].pressureShutoff
    ensures j > 0 && At(PressureTest, ss[j - 1], es[j - 1]) ==> ss[j].pc == IgnitionTest
  {
    AverageOfRun(c, ss, es, 0, j);
    StaysInBand(INITIAL_AVERAGE, Readings(c, es, 0, j), c.pressureMin, c.pressureMax);
    if j > 0 {
      ReadingsPrefix(c, es, 0, j - 1, j);
      var xs, ys := Readings(c, es, 0, j - 1), Readings(c, es, 0, j);
      assert forall k :: 0 <= k < |xs| ==> xs[k] == ys[k];
      NoFalseTrip(c, ss, es, j - 1);
      assert StepAt(c, ss, es, j - 1);
    }
  }
}
