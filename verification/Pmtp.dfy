/**
 Ratio shifting (PMTP): a policy runs over a window of blocks, split into epochs of equal length, and compounds
 the running rate by its block rate at every block of the window.
 */
module Pmtp {
  import opened Decimal
  import opened Powers

  // ---------- The policy ----------

  /** PmtpParams, PmtpRateParams and PmtpEpoch. */
  datatype Policy = Policy(start: int, end: int, epochLength: int,
                           blockRate: int, runningRate: int, interPolicyRate: int,
                           epochCounter: int, blockCounter: int)

  /** PolicyCalculations: the rate at a height of the window. */
  function CompoundRate(blockRate: int, blocks: int, inter: int): int {
    Power(ONE + blockRate, if blocks > 0 then blocks else 0) - ONE + inter
  }

  /**
   A rate that has grown by `growth` has been compounded once a block: exactly, up to a relative error of one
   last decimal a block when the block rate is not negative, an absolute one when it lies in [-1, 0].
   */
  ghost predicate Compounds(blockRate: int, blocks: int, growth: int) {
    blocks >= 0
    && var grown, exact := DecToRat(ONE + growth), RealExp(1.0 + DecToRat(blockRate), blocks);
       && (blockRate >= 0 ==> Within(grown, exact, 2 * blocks))
       && (0 <= ONE + blockRate <= ONE ==> Close(grown, exact, 2 * blocks))
  }

  lemma CompoundRateCompounds(blockRate: int, blocks: int, inter: int)
    requires blocks >= 0
    ensures Compounds(blockRate, blocks, CompoundRate(blockRate, blocks, inter) - inter)
  {
    hide Power, Within, Close;
    OnePlus(blockRate);
    if blockRate >= 0 { PowerWithin(ONE + blockRate, blocks); }
    if 0 <= ONE + blockRate <= ONE { PowerClose(ONE + blockRate, blocks); }
  }

  lemma OnePlus(rate: int)
    ensures DecToRat(ONE + rate) == 1.0 + DecToRat(rate)
  {
  }

  function RateAt(p: Policy, h: int): int {
    CompoundRate(p.blockRate, h - p.start + 1, p.interPolicyRate)
  }

  /** Go's integer division, which truncates towards zero. */
  function GoDiv(a: int, b: int): int
    requires b > 0
  {
    if a >= 0 then a / b else -(-a / b)
  }

  function Started(p: Policy, h: int, blockRate: int): Policy {
    if h == p.start && p.epochCounter == 0 && p.blockCounter == 0 && p.epochLength > 0
    then p.(blockRate := blockRate, epochCounter := GoDiv(p.end - p.start + 1, p.epochLength), blockCounter := p.epochLength)
    else p
  }

  function Compounded(p: Policy, h: int): Policy {
    if p.start <= h <= p.end && p.epochCounter > 0
    then p.(runningRate := RateAt(p, h), blockCounter := p.blockCounter - 1)
    else p
  }

  function NextEpoch(p: Policy, h: int): Policy {
    if p.blockCounter == 0 && p.start <= h < p.end
    then p.(epochCounter := p.epochCounter - 1, blockCounter := p.epochLength)
    else p
  }

  function Ended(p: Policy, h: int): Policy {
    if h == p.end then p.(epochCounter := 0, blockCounter := 0, interPolicyRate := p.runningRate) else p
  }

  /** BeginBlocker's policy steps at height h; `blockRate` is what PolicyStart would compute. */
  function BlockBegun(p: Policy, h: int, blockRate: int): Policy {
    Ended(NextEpoch(Compounded(Started(p, h, blockRate), h), h), h)
  }

  predicate Inside(p: Policy, h: int) {
    p.start <= h <= p.end
  }

  /** MsgUpdatePmtpParams.ValidateBasic. */
  predicate Schedulable(start: int, end: int, epochLength: int) {
    epochLength > 0 && start >= 0 && end > 0 && end >= start && (end - start + 1) % epochLength == 0
  }

  function Scheduled(p: Policy, h: int, start: int, end: int, epochLength: int): Policy {
    if !Schedulable(start, end, epochLength) || Inside(p, h) || start <= h then p
    else p.(start := start, end := end, epochLength := epochLength)
  }

  datatype Rate = Unset | Set(rate: int)

  /** ModifyPmtpRates. */
  function Modified(p: Policy, h: int, blockRate: Rate, runningRate: Rate, endPolicy: bool): Policy {
    if Inside(p, h) then
      if endPolicy then p.(end := h, epochCounter := 0, blockCounter := 0, interPolicyRate := p.runningRate) else p
    else
      var q := if blockRate.Set? then p.(blockRate := blockRate.rate) else p;
      if runningRate.Set? then q.(runningRate := runningRate.rate, interPolicyRate := runningRate.rate) else q
  }

  // ---------- Interleavings ----------

  /** The chain after the block at `height` has begun. */
  datatype Chain = Chain(height: int, policy: Policy)

  datatype Action =
    | NewBlock(blockRate: int)
    | Schedule(start: int, end: int, epochLength: int)
    | Modify(newBlockRate: Rate, newRunningRate: Rate, endPolicy: bool)

  function Step(c: Chain, a: Action): Chain {
    match a
    case NewBlock(blockRate) => Chain(c.height + 1, BlockBegun(c.policy, c.height + 1, blockRate))
    case Schedule(start, end, epochLength) => c.(policy := Scheduled(c.policy, c.height, start, end, epochLength))
    case Modify(blockRate, runningRate, endPolicy) => c.(policy := Modified(c.policy, c.height, blockRate, runningRate, endPolicy))
  }

  function Run(c: Chain, actions: seq<Action>): Chain
    decreases |actions|
  {
    if actions == [] then c else Run(Step(c, actions[0]), actions[1..])
  }

  /** InitGenesis. */
  const GENESIS := Chain(0, Policy(0, 0, 1, 0, 0, 0, 0, 0))

  predicate Executing(c: Chain) {
    c.policy.start <= c.height < c.policy.end
  }

  /** The counters say exactly how many blocks of the window are left. */
  predicate Counting(p: Policy, left: int) {
    && p.epochCounter > 0 && 1 <= p.blockCounter <= p.epochLength
    && (p.epochCounter - 1) * p.epochLength + p.blockCounter == left
  }

  /** What holds after every block and every message. */
  predicate Consistent(c: Chain) {
    var p, h := c.policy, c.height;
    && p.epochLength > 0
    && (h < p.start ==> p.start <= p.end && (p.end - p.start + 1) % p.epochLength == 0)
    && if Executing(c)
       then Counting(p, p.end - h) && p.runningRate == RateAt(p, h)
       else p.epochCounter == 0 && p.blockCounter == 0 && p.interPolicyRate == p.runningRate
  }

  lemma LastOfCounting(p: Policy, left: int)
    requires Counting(p, left) && left >= 1
    ensures left == 1 ==> p.epochCounter == 1 && p.blockCounter == 1
    ensures left > 1 && p.blockCounter == 1 ==> p.epochCounter > 1
  {
    var rest := (p.epochCounter - 1) * p.epochLength;
    if p.epochCounter > 1 { MulLe(1, p.epochCounter - 1, p.epochLength); }
    assert p.epochCounter == 1 ==> rest == 0;
  }

  /** One block counted off, with the epoch rolled over at its end. */
  lemma CountedOff(p: Policy, h: int)
    requires p.epochLength > 0 && p.start <= h < p.end && Counting(p, p.end - h + 1)
    ensures var q := NextEpoch(Compounded(p, h), h);
            Counting(q, p.end - h)
            && q == p.(runningRate := RateAt(p, h), epochCounter := q.epochCounter, blockCounter := q.blockCounter)
  {
    hide RateAt;
    LastOfCounting(p, p.end - h + 1);
    var E, L := p.epochCounter, p.epochLength;
    assert (E - 2) * L + L == (E - 1) * L;
  }

  lemma FullEpochs(length: int, epochLength: int)
    requires epochLength > 0 && length > 0 && length % epochLength == 0
    ensures length / epochLength > 0 && (length / epochLength - 1) * epochLength + epochLength == length
  {
  }

  /** The block of the window, counted and compounded from full counters; the last one closes the policy. */
  lemma WindowBlock(p: Policy, h: int)
    requires p.epochLength > 0 && Inside(p, h) && Counting(p, p.end - h + 1)
    ensures var q := Ended(NextEpoch(Compounded(p, h), h), h);
            q.(epochCounter := 0, blockCounter := 0)
            == p.(epochCounter := 0, blockCounter := 0, runningRate := RateAt(p, h),
                  interPolicyRate := if h == p.end then RateAt(p, h) else p.interPolicyRate)
            && if h == p.end then q.epochCounter == 0 && q.blockCounter == 0 else Counting(q, p.end - h)
  {
    hide RateAt;
    if h < p.end {
      CountedOff(p, h);
    } else {
      LastOfCounting(p, 1);
    }
  }

  lemma RateOf(p: Policy, q: Policy, h: int)
    requires q.start == p.start && q.blockRate == p.blockRate && q.interPolicyRate == p.interPolicyRate
    ensures RateAt(q, h) == RateAt(p, h)
  {
  }

  /** The counters a block of the window starts from: fresh at its first block, left by the block before otherwise. */
  lemma WindowOpens(c: Chain, blockRate: int)
    requires Consistent(c) && Inside(c.policy, c.height + 1)
    ensures var p := Started(c.policy, c.height + 1, blockRate);
            p.epochLength > 0 && Counting(p, p.end - (c.height + 1) + 1)
            && p == c.policy.(epochCounter := p.epochCounter, blockCounter := p.blockCounter,
                              blockRate := if c.height + 1 == c.policy.start then blockRate else c.policy.blockRate)
  {
    hide RateAt;
    if c.height + 1 == c.policy.start {
      FullEpochs(c.policy.end - c.policy.start + 1, c.policy.epochLength);
    }
  }

  /** At every block of a window the rate is recomputed, from the inter-policy rate the window began with. */
  lemma RateRecomputed(c: Chain, blockRate: int)
    requires Consistent(c) && Inside(c.policy, c.height + 1)
    ensures var d := Step(c, NewBlock(blockRate));
            var p := c.policy;
            && d.policy.start == p.start && d.policy.end == p.end
            && d.policy.blockRate == (if d.height == p.start then blockRate else p.blockRate)
            && d.policy.runningRate == CompoundRate(d.policy.blockRate, d.height - p.start + 1, p.interPolicyRate)
            && d.policy.interPolicyRate == (if d.height == p.end then d.policy.runningRate else p.interPolicyRate)
  {
    hide CompoundRate, Compounded, NextEpoch, Ended, Started, Counting;
    WindowOpens(c, blockRate);
    WindowBlock(Started(c.policy, c.height + 1, blockRate), c.height + 1);
  }

  lemma BlockConsistent(c: Chain, blockRate: int)
    requires Consistent(c)
    ensures Consistent(Step(c, NewBlock(blockRate)))
  {
    hide CompoundRate, Counting;
    var h := c.height + 1;
    if Inside(c.policy, h) {
      var p := Started(c.policy, h, blockRate);
      WindowOpens(c, blockRate);
      WindowBlock(p, h);
      if h < p.end { RateOf(p, Step(c, NewBlock(blockRate)).policy, h); }
    }
  }

  /** Counters, rates and schedule stay consistent over every interleaving of blocks and messages. */
  lemma {:induction false} PolicyOverRuns(c: Chain, actions: seq<Action>)
    requires Consistent(c)
    ensures Consistent(Run(c, actions))
    decreases |actions|
  {
    hide RateAt, Counting, BlockBegun;
    if actions != [] {
      if actions[0].NewBlock? { BlockConsistent(c, actions[0].blockRate); }
      PolicyOverRuns(Step(c, actions[0]), actions[1..]);
    }
  }

  lemma GenesisConsistent()
    ensures Consistent(GENESIS)
  {
  }

  // ---------- Through one window ----------

  /** The policy that began at `start` is over: replaced, or past its end. */
  predicate Past(c: Chain, start: int) {
    c.height >= start && (c.policy.start > start || c.height > c.policy.end)
  }

  /** The policy that began at `start` is under way, or ended at this very height. */
  predicate Tracks(c: Chain, start: int, blockRate: int, inter: int) {
    && c.policy.start == start && start <= c.height <= c.policy.end && c.policy.blockRate == blockRate
    && c.policy.runningRate == CompoundRate(blockRate, c.height - start + 1, inter)
    && (Executing(c) ==> c.policy.interPolicyRate == inter)
  }

  lemma TracksStep(c: Chain, a: Action, start: int, blockRate: int, inter: int)
    requires Consistent(c) && (Past(c, start) || Tracks(c, start, blockRate, inter))
    ensures Past(Step(c, a), start) || Tracks(Step(c, a), start, blockRate, inter)
  {
    hide CompoundRate, Compounded, NextEpoch, Ended, Started, Counting;
    if a.NewBlock? {
      BlockKeepsWindow(c, a.blockRate);
      if Inside(c.policy, c.height + 1) { RateRecomputed(c, a.blockRate); }
    }
  }

  lemma BlockKeepsWindow(c: Chain, blockRate: int)
    ensures var d := Step(c, NewBlock(blockRate)); d.policy.start == c.policy.start && d.policy.end == c.policy.end
  {
    hide RateAt;
  }

  lemma {:induction false} TracksRun(c: Chain, actions: seq<Action>, start: int, blockRate: int, inter: int)
    requires Consistent(c) && (Past(c, start) || Tracks(c, start, blockRate, inter))
    ensures Past(Run(c, actions), start) || Tracks(Run(c, actions), start, blockRate, inter)
    decreases |actions|
  {
    hide Consistent, Past, Tracks, Step;
    if actions != [] {
      TracksStep(c, actions[0], start, blockRate, inter);
      PolicyOverRuns(c, actions[..1]);
      assert Run(c, actions[..1]) == Step(c, actions[0]);
      TracksRun(Step(c, actions[0]), actions[1..], start, blockRate, inter);
    }
  }

  /**
   From the block that opens a window to the last state of that window, whatever messages come between and
   even if the policy is ended early, the running rate is the block rate compounded once a block on top of the
   rate before the window, and the inter-policy rate stays that rate until the policy ends.
   */
  lemma RateThroughWindow(c: Chain, blockRate: int, actions: seq<Action>)
    requires Consistent(c) && c.height + 1 == c.policy.start
    ensures var f := Run(Step(c, NewBlock(blockRate)), actions);
            f.policy.start == c.policy.start && f.height <= f.policy.end ==>
              && f.policy.runningRate == CompoundRate(blockRate, f.height - f.policy.start + 1, c.policy.runningRate)
              && Compounds(blockRate, f.height - f.policy.start + 1, f.policy.runningRate - c.policy.runningRate)
              && (f.height < f.policy.end ==> f.policy.interPolicyRate == c.policy.runningRate)
  {
    hide CompoundRate, Compounds, Compounded, NextEpoch, Ended, Started, Counting, Run;
    var d := Step(c, NewBlock(blockRate));
    RateRecomputed(c, blockRate);
    BlockConsistent(c, blockRate);
    TracksRun(d, actions, c.policy.start, blockRate, c.policy.runningRate);
    var f := Run(d, actions);
    if f.policy.start == c.policy.start && f.height <= f.policy.end {
      CompoundRateCompounds(blockRate, f.height - f.policy.start + 1, c.policy.runningRate);
    }
  }

  // ---------- The sign of the rate ----------

  predicate NonNegative(a: Action) {
    match a
    case NewBlock(blockRate) => blockRate >= 0
    case Schedule(_, _, _) => true
    case Modify(blockRate, runningRate, _) =>
      (blockRate.Set? ==> blockRate.rate >= 0) && (runningRate.Set? ==> runningRate.rate >= 0)
  }

  predicate RatesNonNegative(p: Policy) {
    p.blockRate >= 0 && p.runningRate >= 0 && p.interPolicyRate >= 0
  }

  lemma StepNonNegative(c: Chain, a: Action)
    requires RatesNonNegative(c.policy) && NonNegative(a)
    ensures RatesNonNegative(Step(c, a).policy)
  {
    hide Power, GoDiv;
    if a.NewBlock? {
      var h := c.height + 1;
      var p := Started(c.policy, h, a.blockRate);
      var blocks := h - p.start + 1;
      PowerAtLeastOne(ONE + p.blockRate, if blocks > 0 then blocks else 0);
    }
  }

  /** Policies and settings that never lower the rate keep the running rate non-negative for ever. */
  lemma {:induction false} RateNonNegativeOverRuns(c: Chain, actions: seq<Action>)
    requires RatesNonNegative(c.policy) && forall i | 0 <= i < |actions| :: NonNegative(actions[i])
    ensures RatesNonNegative(Run(c, actions).policy)
    decreases |actions|
  {
    hide Step, NonNegative;
    if actions != [] {
      StepNonNegative(c, actions[0]);
      RateNonNegativeOverRuns(Step(c, actions[0]), actions[1..]);
    }
  }

  // ---------- From the schedule to the window ----------

  function Blocks(rates: seq<int>): seq<Action> {
    seq(|rates|, i requires 0 <= i < |rates| => NewBlock(rates[i]))
  }

  /** Blocks before the start of a scheduled policy change nothing but the height. */
  lemma {:induction false} WaitsForStart(c: Chain, rates: seq<int>)
    requires c.height + |rates| < c.policy.start <= c.policy.end
    ensures Run(c, Blocks(rates)) == Chain(c.height + |rates|, c.policy)
    decreases |rates|
  {
    hide RateAt;
    if rates != [] {
      var d := Step(c, NewBlock(rates[0]));
      assert d == Chain(c.height + 1, c.policy);
      assert Blocks(rates)[0] == NewBlock(rates[0]) && Blocks(rates)[1..] == Blocks(rates[1..]);
      WaitsForStart(d, rates[1..]);
    }
  }

  /**
   A valid schedule is taken exactly when no window is open and it starts later. The window that then opens is the
   one scheduled, and through it the block rate is compounded on the running rate there was when it was scheduled.
   */
  lemma ScheduledWindow(c: Chain, start: int, end: int, epochLength: int, waiting: seq<int>, blockRate: int, actions: seq<Action>)
    requires Consistent(c) && Schedulable(start, end, epochLength)
    ensures var taken := !Inside(c.policy, c.height) && c.height < start;
            var d := Step(c, Schedule(start, end, epochLength));
            && d == (if taken then c.(policy := c.policy.(start := start, end := end, epochLength := epochLength)) else c)
            && (taken && c.height + |waiting| + 1 == start ==>
                  var first := Step(Run(d, Blocks(waiting)), NewBlock(blockRate));
                  var f := Run(first, actions);
                  && first.height == start == first.policy.start && first.policy.end == end
                  && (f.policy.start == start && f.height <= f.policy.end ==>
                        Compounds(blockRate, f.height - start + 1, f.policy.runningRate - c.policy.runningRate)))
  {
    hide Compounds, RateAt, Consistent, Run, BlockBegun;
    var d := Step(c, Schedule(start, end, epochLength));
    if !Inside(c.policy, c.height) && c.height + |waiting| + 1 == start {
      assert Consistent(d) by { ScheduleConsistent(c, start, end, epochLength); }
      WaitsForStart(d, waiting);
      var w := Run(d, Blocks(waiting));
      assert Consistent(w) by { PolicyOverRuns(d, Blocks(waiting)); }
      BlockKeepsWindow(w, blockRate);
      RateThroughWindow(w, blockRate, actions);
    }
  }

  lemma ScheduleConsistent(c: Chain, start: int, end: int, epochLength: int)
    requires Consistent(c)
    ensures Consistent(Step(c, Schedule(start, end, epochLength)))
  {
    hide RateAt, Counting;
  }
}
