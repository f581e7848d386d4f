/** How many burns a run begins, against the START and STOP commands it receives. */
module BurnAccounting {
  import opened Clock
  import opened BurnProtocol
  import opened BurnSafety

  /** The monitor has made its last store of a burn to ignitionOn, or is polling. */
  predicate OutOfBurn(pc: MonitorPc) {
    (pc == Wait || pc == Nap || pc == ClearMainOpen)
  }

  /** A START that turns the burn signal on for a monitor that is not in a burn. */
  predicate EffectiveStart(s: State, e: Event) {
    IsStart(e) && !s.ignitionOn && OutOfBurn(s.pc)
  }

  /** A STOP that takes the burn signal back before the monitor has seen it. */
  predicate CancellingStop(s: State, e: Event) {
    IsStop(e) && s.ignitionOn && OutOfBurn(s.pc)
  }

  predicate AnyStart(s: State, e: Event) {
    IsStart(e)
  }

  function Pending(s: State): nat {
    if s.ignitionOn && OutOfBurn(s.pc) then 1 else 0
  }

  lemma {:induction false} BalanceStep(c: Config, s: State, e: Event, now: Timestamp)
    requires Enabled(s, e)
    ensures (if BeginsBurn(s, e) then 1 else 0) + (if CancellingStop(s, e) then 1 else 0)
            + Pending(NextAt(c, s, e, now)) == (if EffectiveStart(s, e) then 1 else 0) + Pending(s)
  {
  }

  /** Every effective START is accounted for: it began one burn, was cancelled by a STOP, or is still pending. */
  lemma {:induction false} BurnBalance(c: Config, ss: seq<State>, es: seq<Event>, i: nat, j: nat)
    requires IsRun(c, ss, es) && i <= j <= |es|
    ensures Count(BeginsBurn, ss, es, i, j) + Count(CancellingStop, ss, es, i, j) + Pending(ss[j])
            == Count(EffectiveStart, ss, es, i, j) + Pending(ss[i])
  {
    if i < j {
      BurnBalance(c, ss, es, i, j - 1);
      assert StepAt(c, ss, es, j - 1);
      BalanceStep(c, ss[j - 1], es[j - 1], NowMs(c, ss[j - 1]));
    }
  }

  lemma {:induction false} EffectiveAmongStarts(ss: seq<State>, es: seq<Event>, i: nat, j: nat)
    requires i <= j <= |es| && |ss| == |es| + 1
    ensures Count(EffectiveStart, ss, es, i, j) <= Count(AnyStart, ss, es, i, j)
    ensures None(IsStart, es, i, j) ==> Count(AnyStart, ss, es, i, j) == 0
  {
    if i < j {
      EffectiveAmongStarts(ss, es, i, j - 1);
    }
  }

  /** Burns never outnumber STARTs. */
  lemma {:induction false} BurnsNeedStarts(c: Config, ss: seq<State>, es: seq<Event>, j: nat)
    requires IsRun(c, ss, es) && Init(c, ss[0]) && j <= |es|
    ensures Count(BeginsBurn, ss, es, 0, j) <= Count(AnyStart, ss, es, 0, j)
  {
    BurnBalance(c, ss, es, 0, j);
    EffectiveAmongStarts(ss, es, 0, j);
  }

  /** A START received before the monitor's final store of a burn begins no further burn by itself. */
  lemma {:induction false} LateStartIsLost(c: Config, ss: seq<State>, es: seq<Event>, i: nat, j: nat)
    requires IsRun(c, ss, es) && i < j <= |es|
    requires IsStart(es[i]) && !OutOfBurn(ss[i].pc) && None(IsStart, es, i + 1, j)
    ensures Count(BeginsBurn, ss, es, i, j) == 0
  {
    assert Pending(ss[i + 1]) == 0 && !BeginsBurn(ss[i], es[i]) by {
      assert StepAt(c, ss, es, i);
    }
    BurnBalance(c, ss, es, i + 1, j);
    EffectiveAmongStarts(ss, es, i + 1, j);
    CountFirst(BeginsBurn, ss, es, i, j);
  }

  lemma {:induction false} CountFirst(p: (State, Event) -> bool, ss: seq<State>, es: seq<Event>, i: nat, j: nat)
    requires i < j <= |es| && |ss| == |es| + 1
    ensures Count(p, ss, es, i, j) == (if p(ss[i], es[i]) then 1 else 0) + Count(p, ss, es, i + 1, j)
    decreases j
  {
    if i + 1 < j {
      CountFirst(p, ss, es, i, j - 1);
    }
  }
}
