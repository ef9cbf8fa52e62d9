/** The ratio-shifting policy as the keeper runs it: stored counters and rates changed one by one, block by block. */
module PolicyKeeper {
  import opened Decimal
  import opened Pmtp
  import opened Powers

  class PolicyKeeper {
    var height: int
    var start: int
    var end: int
    var epochLength: int
    var blockRate: int
    var runningRate: int
    var interPolicyRate: int
    var epochCounter: int
    var blockCounter: int

    function Policy(): Policy
      reads this
    {
      Pmtp.Policy(start, end, epochLength, blockRate, runningRate, interPolicyRate, epochCounter, blockCounter)
    }

    function View(): Chain
      reads this
    {
      Chain(height, Policy())
    }

    /** What every reachable state satisfies: see Pmtp.Consistent. */
    predicate Valid()
      reads this
    {
      Consistent(View())
    }

    /** InitGenesis. */
    constructor ()
      ensures Valid() && View() == GENESIS
    {
      height, start, end, epochLength := 0, 0, 0, 1;
      blockRate, runningRate, interPolicyRate := 0, 0, 0;
      epochCounter, blockCounter := 0, 0;
    }

    method PolicyStart(rate: int)
      requires epochLength > 0
      modifies this`blockRate, this`epochCounter, this`blockCounter
      ensures blockRate == rate && epochCounter == GoDiv(end - start + 1, epochLength) && blockCounter == epochLength
      // When the epochs divide the window, the counters hold exactly its length.
      ensures start <= end && (end - start + 1) % epochLength == 0 ==> Counting(Policy(), end - start + 1)
    {
      var numBlocks := end - start + 1;
      var numEpochs := GoDiv(numBlocks, epochLength);
      blockRate := rate;
      epochCounter, blockCounter := numEpochs, epochLength;
      if start <= end && numBlocks % epochLength == 0 {
        FullEpochs(numBlocks, epochLength);
      }
    }

    method PolicyCalculations() returns (rate: int)
      requires start <= height
      modifies this`runningRate
      ensures rate == runningRate == RateAt(old(Policy()), height)
      ensures Compounds(blockRate, height - start + 1, runningRate - interPolicyRate)
    {
      CompoundRateCompounds(blockRate, height - start + 1, interPolicyRate);
      rate := Power(ONE + blockRate, height - start + 1) - ONE;
      rate := rate + interPolicyRate;
      runningRate := rate;
    }

    method DecrementBlockCounter()
      modifies this`blockCounter
      ensures blockCounter == old(blockCounter) - 1
    {
      blockCounter := blockCounter - 1;
    }

    method DecrementEpochCounter()
      modifies this`epochCounter
      ensures epochCounter == old(epochCounter) - 1
    {
      epochCounter := epochCounter - 1;
    }

    /** BeginBlocker, start of a policy. */
    method StartPolicy(rate: int)
      requires epochLength > 0
      modifies this`blockRate, this`epochCounter, this`blockCounter
      ensures Policy() == Started(old(Policy()), height, rate)
    {
      if height == start && epochCounter == 0 && blockCounter == 0 {
        PolicyStart(rate);
      }
    }

    /** BeginBlocker, block counter. */
    method ManageBlockCounter() returns (current: int)
      modifies this`runningRate, this`blockCounter
      ensures Policy() == Compounded(old(Policy()), height) && current == runningRate
    {
      current := runningRate;
      if start <= height <= end && epochCounter > 0 {
        current := PolicyCalculations();
        DecrementBlockCounter();
      }
    }

    /** BeginBlocker, epoch counter. */
    method ManageEpochCounter()
      modifies this`epochCounter, this`blockCounter
      ensures Policy() == NextEpoch(old(Policy()), height)
    {
      if blockCounter == 0 && start <= height < end {
        DecrementEpochCounter();
        blockCounter := epochLength;
      }
    }

    /** The policy half of BeginBlocker; `rate` is what PolicyStart computes from the governance rate. */
    method BeginBlocker(rate: int)
      requires Valid()
      modifies this
      ensures Valid() && View() == Step(old(View()), NewBlock(rate))
      // At every block of a window the counters hold exactly what is left of it ...
      ensures start <= height < end ==> epochCounter > 0 && (epochCounter - 1) * epochLength + blockCounter == end - height
      // ... and from its end to the next start they are zero and the two rates agree.
      ensures !(start <= height < end) ==> epochCounter == 0 == blockCounter && interPolicyRate == runningRate
    {
      hide RateAt, Started, Compounded, NextEpoch;
      ghost var before := View();
      height := height + 1;
      StartPolicy(rate);
      var current := ManageBlockCounter();
      ManageEpochCounter();
      if height == end {
        epochCounter, blockCounter := 0, 0;
        interPolicyRate := current;
      }
      BlockConsistent(before, rate);
    }

    method UpdatePmtpParams(newStart: int, newEnd: int, newLength: int) returns (ok: bool)
      requires Valid() && Schedulable(newStart, newEnd, newLength)
      modifies this`start, this`end, this`epochLength
      ensures Valid() && View() == Step(old(View()), Schedule(newStart, newEnd, newLength))
      ensures ok <==> !Inside(old(Policy()), height) && height < newStart
      ensures ok ==> !Executing(old(View())) && start == newStart && end == newEnd && epochLength == newLength
      ensures !ok ==> Policy() == old(Policy())
    {
      ok := false;
      if start <= height <= end { return; }
      if newStart <= height { return; }
      ok := true;
      start, end, epochLength := newStart, newEnd, newLength;
    }

    method ModifyPmtpRates(newBlockRate: Rate, newRunningRate: Rate, endPolicy: bool)
      requires Valid()
      modifies this
      ensures Valid() && View() == Step(old(View()), Modify(newBlockRate, newRunningRate, endPolicy))
      ensures Inside(old(Policy()), height) ==> runningRate == old(runningRate) && blockRate == old(blockRate)
      ensures endPolicy ==> !Executing(View())
      // Outside a window the rates given are stored, and the inter-policy rate follows the running one.
      ensures !Inside(old(Policy()), height) ==>
                && blockRate == (if newBlockRate.Set? then newBlockRate.rate else old(blockRate))
                && runningRate == (if newRunningRate.Set? then newRunningRate.rate else old(runningRate))
                && interPolicyRate == (if newRunningRate.Set? then newRunningRate.rate else old(interPolicyRate))
    {
      if newBlockRate.Set? && !(start <= height <= end) {
        blockRate := newBlockRate.rate;
      }
      if newRunningRate.Set? && !(start <= height <= end) {
        runningRate := newRunningRate.rate;
        interPolicyRate := newRunningRate.rate;
      }
      if endPolicy && start <= height <= end {
        end := height;
        epochCounter, blockCounter := 0, 0;
        interPolicyRate := runningRate;
      }
    }
  }
}
