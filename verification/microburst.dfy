/**
 * The `hw_params` callback of the Microburst ASoC machine driver: it sets the
 * DAI format on the CPU and the codec side, picks a PLL output rate from the
 * stream's sample rate, programs the codec PLL from the 12.288 MHz master
 * clock, and selects the PLL as the codec's system clock, returning the first
 * non-zero result.
 *
 * The ALSA calls are opaque: each call the driver makes is a `Call` value, and
 * the integer it returns is given by a caller-supplied oracle `step`.
 */
module Microburst {
  import opened Wrappers
  import opened Bytes

  /** `EINVAL` in the kernel's errno numbering; the driver returns its negation. */
  const EINVAL: int := 22

  /** Frequency of the master clock feeding the codec PLL, in Hz. */
  const MclkRate: nat := 12288000

  /** PLL output for the 48 kHz family: 1024 times 48 kHz. */
  const Pll48k: nat := 48000 * 1024

  /** PLL output for the 44.1 kHz family: 1024 times 44.1 kHz. */
  const Pll44k1: nat := 44100 * 1024

  /** Sample rates the driver serves from the 48 kHz family PLL setting. */
  const Family48k: set<nat> := {8000, 12000, 16000, 24000, 32000, 48000, 96000}

  /** Sample rates the driver serves from the 44.1 kHz family PLL setting. */
  const Family44k1: set<nat> := {7350, 11025, 14700, 22050, 29400, 44100, 88200}

  /** The switch on `params_rate`: the PLL output rate for a sample rate, or `None` for a rate it rejects. */
  function PllRate(rate: u32): (r: Option<nat>)
    ensures r == Some(Pll48k) <==> rate in Family48k
    ensures r == Some(Pll44k1) <==> rate in Family44k1
    ensures r.None? <==> rate !in Family48k + Family44k1
  {
    match rate
    case 48000 | 8000 | 12000 | 16000 | 24000 | 32000 | 96000 => Some(48000 * 1024)
    case 44100 | 7350 | 11025 | 14700 | 22050 | 29400 | 88200 => Some(44100 * 1024)
    case _ => None
  }

  /** The two families share no rate, so no rate could select both PLL settings. */
  lemma FamiliesDisjoint()
    ensures Family48k !! Family44k1
  {
  }

  /**
   * Every accepted rate divides the PLL rate it selects, with a ratio between
   * 512 and 6144: the chosen PLL output is always a whole multiple of the
   * sample rate.
   */
  lemma PllRateIsMultipleOfRate(rate: u32)
    requires PllRate(rate).Some?
    ensures PllRate(rate).value % rate == 0
    ensures 512 <= PllRate(rate).value / rate <= 6144
  {
    match rate
    case 8000 => case 12000 => case 16000 => case 24000 => case 32000 => case 48000 => case 96000 =>
    case 7350 => case 11025 => case 14700 => case 22050 => case 29400 => case 44100 => case 88200 =>
    case _ => assert false;
  }

  /** Which side of the DAI link a call configures. */
  datatype Dai = CpuDai | CodecDai

  /**
   * The ALSA calls the driver makes. The format word (I2S, normal bit and frame
   * clocks, codec as clock master), the PLL and clock-source identifiers and the
   * clock direction are the same constants in every call and are left symbolic.
   */
  datatype Call =
    | SetFmt(dai: Dai)
    | SetPll(pllDai: Dai, freqIn: nat, freqOut: nat)
    | SetSysclk(clkDai: Dai, freq: nat)

  /** What one `hw_params` invocation does: the value it returns and the calls it made, in order. */
  datatype Outcome = Outcome(ret: int, calls: seq<Call>)

  /** The full call sequence for a PLL rate, when every step succeeds. */
  function Plan(pll: nat): seq<Call>
  {
    [SetFmt(CpuDai), SetFmt(CodecDai), SetPll(CodecDai, MclkRate, pll), SetSysclk(CodecDai, pll)]
  }

  /** `bfin_eval_adau1x61_hw_params`, each ALSA call answered by `step`. */
  function HwParams(rate: u32, step: Call -> int): (o: Outcome)
    ensures 1 <= |o.calls| <= 4
    // The calls made are the first calls of the plan, in order.
    ensures PllRate(rate).Some? ==> o.calls == Plan(PllRate(rate).value)[..|o.calls|]
    ensures PllRate(rate).None? ==> |o.calls| <= 2 && o.calls == Plan(0)[..|o.calls|]
    // A call is only made after every earlier one returned zero.
    ensures forall i :: 0 <= i < |o.calls| - 1 ==> step(o.calls[i]) == 0
    // The last call's failure is what the driver returns, except for a rejected rate.
    ensures step(o.calls[|o.calls| - 1]) != 0 ==> o.ret == step(o.calls[|o.calls| - 1])
    ensures step(o.calls[|o.calls| - 1]) == 0 ==> o.ret == (if |o.calls| == 4 then 0 else -EINVAL)
    ensures o.ret == -EINVAL && step(o.calls[|o.calls| - 1]) == 0 <==> |o.calls| == 2 && step(o.calls[1]) == 0 && step(o.calls[0]) == 0 && PllRate(rate).None?
  {
    var cpuFmt := step(SetFmt(CpuDai));
    if cpuFmt != 0 then Outcome(cpuFmt, [SetFmt(CpuDai)])
    else
      var codecFmt := step(SetFmt(CodecDai));
      if codecFmt != 0 then Outcome(codecFmt, [SetFmt(CpuDai), SetFmt(CodecDai)])
      else
        match PllRate(rate)
        case None => Outcome(-EINVAL, [SetFmt(CpuDai), SetFmt(CodecDai)])
        case Some(pll) =>
          var pllRet := step(SetPll(CodecDai, MclkRate, pll));
          if pllRet != 0 then Outcome(pllRet, Plan(pll)[..3])
          else Outcome(step(SetSysclk(CodecDai, pll)), Plan(pll))
  }

  /** A rejected rate returns `-EINVAL` (unless a format call already failed) and never reaches the PLL or sysclk call. */
  lemma {:induction false} RejectedRateSkipsClocks(rate: u32, step: Call -> int)
    requires rate !in Family48k && rate !in Family44k1
    ensures forall c :: c in HwParams(rate, step).calls ==> c.SetFmt?
    ensures step(SetFmt(CpuDai)) == 0 && step(SetFmt(CodecDai)) == 0 ==> HwParams(rate, step).ret == -EINVAL
    ensures HwParams(rate, step).ret != 0
  {
    var o := HwParams(rate, step);
    assert o.calls == Plan(0)[..|o.calls|];
  }

  /**
   * The PLL is programmed from the 12.288 MHz master clock to the selected
   * rate, and the sysclk call names that same rate; when both calls succeed the
   * driver succeeds.
   */
  lemma {:induction false} ClockCallsUseSelectedRate(rate: u32, step: Call -> int)
    requires rate in Family48k + Family44k1
    ensures forall c :: c in HwParams(rate, step).calls && c.SetPll? ==> c.freqIn == MclkRate && c.freqOut == PllRate(rate).value
    ensures forall c :: c in HwParams(rate, step).calls && c.SetSysclk? ==> c.freq == PllRate(rate).value
    ensures |HwParams(rate, step).calls| == 4 ==> HwParams(rate, step).ret == step(SetSysclk(CodecDai, PllRate(rate).value))
  {
    var o := HwParams(rate, step);
    var plan := Plan(PllRate(rate).value);
    assert o.calls == plan[..|o.calls|];
    forall c | c in o.calls
      ensures c in plan
    {
    }
  }

  // ---------------------------------------------------------------------------
  // Reference semantics: a sequence of steps with early return
  // ---------------------------------------------------------------------------

  /** One step of an early-return sequence: an external call, or an internal check whose result is known. */
  datatype Step = Invoke(call: Call) | Check(result: int)

  /** The result a step produces under the oracle `step`. */
  function StepResult(s: Step, step: Call -> int): int
  {
    match s
    case Invoke(c) => step(c)
    case Check(r) => r
  }

  /** The external calls among `steps`, in order. */
  function CallsOf(steps: seq<Step>): seq<Call>
  {
    if steps == [] then []
    else (if steps[0].Invoke? then [steps[0].call] else []) + CallsOf(steps[1..])
  }

  /**
   * Runs `steps` in order and stops at the first non-zero result, which it
   * returns; 0 when every step succeeded. `calls` are the calls actually made.
   */
  function RunSteps(steps: seq<Step>, step: Call -> int): (o: Outcome)
    ensures o.ret == 0 <==> forall i :: 0 <= i < |steps| ==> StepResult(steps[i], step) == 0
    ensures o.ret == 0 ==> o.calls == CallsOf(steps)
    ensures o.ret != 0 ==>
      exists k :: 0 <= k < |steps| && o.ret == StepResult(steps[k], step)
        && (forall i :: 0 <= i < k ==> StepResult(steps[i], step) == 0)
        && o.calls == CallsOf(steps[..k + 1])
  {
    if steps == [] then Outcome(0, [])
    else
      var r := StepResult(steps[0], step);
      var first := if steps[0].Invoke? then [steps[0].call] else [];
      if r != 0 then
        assert steps[..1] == [steps[0]] && CallsOf([steps[0]]) == first;
        Outcome(r, first)
      else
        var rest := RunSteps(steps[1..], step);
        assert forall i :: 1 <= i < |steps| ==> steps[i] == steps[1..][i - 1];
        if rest.ret != 0 then
          var k' :| 0 <= k' < |steps| - 1 && rest.ret == StepResult(steps[1..][k'], step)
            && (forall i :: 0 <= i < k' ==> StepResult(steps[1..][i], step) == 0)
            && rest.calls == CallsOf(steps[1..][..k' + 1]);
          assert steps[..k' + 2][1..] == steps[1..][..k' + 1];
          Outcome(rest.ret, first + rest.calls)
        else
          Outcome(0, first + rest.calls)
  }

  /** One step of `RunSteps`: stop on a non-zero result, otherwise run the rest. */
  lemma RunStepsUnfold(steps: seq<Step>, step: Call -> int)
    requires steps != []
    ensures var r := StepResult(steps[0], step);
      var first := if steps[0].Invoke? then [steps[0].call] else [];
      RunSteps(steps, step)
        == if r != 0 then Outcome(r, first)
           else Outcome(RunSteps(steps[1..], step).ret, first + RunSteps(steps[1..], step).calls)
  {
  }

  /** The driver's steps for a sample rate: two format calls, the rate check, the PLL call, the sysclk call. */
  function HwParamsSteps(rate: u32): seq<Step>
  {
    var pll := match PllRate(rate) case Some(p) => p case None => 0;
    [ Invoke(SetFmt(CpuDai)), Invoke(SetFmt(CodecDai))
    , Check(if PllRate(rate).Some? then 0 else -EINVAL)
    , Invoke(SetPll(CodecDai, MclkRate, pll)), Invoke(SetSysclk(CodecDai, pll)) ]
  }

  /** The driver's nested early returns are the generic early-return sequence of its five steps. */
  lemma HwParamsIsEarlyReturn(rate: u32, step: Call -> int)
    ensures HwParams(rate, step) == RunSteps(HwParamsSteps(rate), step)
  {
    var s := HwParamsSteps(rate);
    assert s[1..][1..][1..][1..][1..] == [];
    RunStepsUnfold(s, step);
    RunStepsUnfold(s[1..], step);
    RunStepsUnfold(s[1..][1..], step);
    RunStepsUnfold(s[1..][1..][1..], step);
    RunStepsUnfold(s[1..][1..][1..][1..], step);
  }
}
