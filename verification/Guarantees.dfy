/** The results about messages, gathered for the keeper that delivers them. */
module Guarantees {
  import opened Accounts
  import opened Ledger
  import opened RateLimit
  import opened Runs
  import opened Solvency
  import opened Supply
  import opened Types
  import opened UnitsCheck
  import opened UnlockSafety

  /** No coin of any denomination appears or disappears. */
  ghost predicate Conserves(s: State, t: State) {
    forall d :: Supply.Supply(t, d) == Supply.Supply(s, d)
  }

  /** The module account's surplus over its records is the same in every denomination. */
  ghost predicate KeepsSurplus(s: State, t: State) {
    forall d :: Surplus(t, d) == Surplus(s, d)
  }

  /** The ledger invariants: solvent, units in step with providers, the protection level within its maximum. */
  ghost predicate Sound(s: State) {
    Solvent(s) && UnitsMatch(s) && s.bucket.current <= s.bucket.max
  }

  /** What a successful message other than a decommission does to the coins. */
  lemma MessageKeeps(s: State, env: Env, m: Msg)
    requires Handle(s, env, m).Ok? && !m.MsgDecommission?
    ensures var t := Handle(s, env, m).value;
            && Conserves(s, t) && OnlyOwner(s.users, t.users, m.who)
            && (WellFormed(s) ==> WellFormed(t) && KeepsSurplus(s, t))
  {
    hide Handle, Surplus, Supply.Supply, OnlyOwner;
    var t := Handle(s, env, m).value;
    HandleOwner(s, env, m);
    forall d ensures Supply.Supply(t, d) == Supply.Supply(s, d) { HandleSupply(s, env, m, d); }
    if WellFormed(s) {
      HandleSurplus(s, env, m, NATIVE);
      forall d ensures Surplus(t, d) == Surplus(s, d) { HandleSurplus(s, env, m, d); }
    }
  }

  /** What delivering a message does to the coins, whether it succeeds or not. */
  lemma DeliveryConserves(s: State, env: Env, m: Msg)
    ensures Conserves(s, Step(s, Deliver(env, m)))
  {
    hide Step, Supply.Supply, Issued;
    var e := Deliver(env, m);
    OnlyRewardsIssue(s, e);
    forall d ensures Supply.Supply(Step(s, e), d) == Supply.Supply(s, d) { StepSupply(s, e, d); }
  }

  lemma DeliverySolvent(s: State, env: Env, m: Msg)
    requires Solvent(s) && ValidEvent(s, Deliver(env, m))
    ensures var t := Step(s, Deliver(env, m));
            Solvent(t) && (!m.MsgDecommission? ==> KeepsSurplus(s, t))
  {
    hide Step, Surplus, ValidEvent, Attempt;
    var e := Deliver(env, m);
    var t := Step(s, e);
    assert StrandedBy(s, e) == 0;
    StepSurplus(s, e, NATIVE);
    forall d ensures Surplus(t, d) >= Surplus(s, d) && (!m.MsgDecommission? ==> Surplus(t, d) == Surplus(s, d)) {
      StepSurplus(s, e, d);
    }
  }

  /** Delivering a message keeps the ledger invariants, if its add, should it be one, meets their condition. */
  lemma DeliverySound(s: State, env: Env, m: Msg)
    requires Sound(s) && ValidEvent(s, Deliver(env, m)) && SoundStep(s, Deliver(env, m))
    ensures Sound(Step(s, Deliver(env, m)))
  {
    hide Step, Solvent, UnitsMatch, ValidEvent, SoundStep, Sold, Bought;
    DeliverySolvent(s, env, m);
    StepUnits(s, Deliver(env, m));
    StepLevels(s, Deliver(env, m));
  }

  lemma DeliveryBacked(s: State, env: Env, m: Msg)
    requires Backed(s, env.height)
    ensures Backed(Step(s, Deliver(env, m)), env.height)
  {
    hide Step, Backed;
    StepBacked(s, Deliver(env, m), env.height);
  }

  /** A step other than a message or a setting keeps them too, as long as it strands no more than the surplus. */
  lemma BlockSound(s: State, e: Event)
    requires Sound(s) && ValidEvent(s, e) && !e.Deliver? && !Sets(e) && StrandedBy(s, e) <= Surplus(s, NATIVE)
    ensures Sound(Step(s, e))
  {
    hide Step, Surplus, UnitsMatch, ValidEvent, Sold, Bought, StrandedBy;
    StepUnits(s, e);
    StepLevels(s, e);
    StepSurplus(s, e, NATIVE);
    forall d ensures Surplus(Step(s, e), d) >= 0 { StepSurplus(s, e, d); }
  }
}
