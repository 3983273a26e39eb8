/** What the history of swaps implies: shape, rank, single payout, time lock. */
module SwapLifecycle {
  import opened Wrappers
  import opened Records
  import opened StateView
  import opened Forms
  import opened Ledger
  import opened Transitions
  import opened Effects
  import opened Invariants
  import opened Supply
  import opened SwapHistory
  import SwapFamily
  import KeyFamily

  /** Which fields of a reachable record go with which state. */
  lemma RecordShape(c: Crypto, es: seq<Event>, a: Address)
    requires AllNameAccounts(es) && a.SwapAddr? && HasSwap(Run(c, EMPTY, es), a)
    ensures var swap := Run(c, EMPTY, es)[a].swap;
      && (swap.state.Opened? ==> (swap.lock == "" <==> swap.isInitiator))
      && (swap.state.LockProvided? || swap.state.Approved? ==> swap.isInitiator && swap.lock != "")
      && (swap.state.Closed? ==> swap.lock != "" && c.keccak(swap.secretKey) == Some(swap.lock))
      && (!swap.state.Closed? ==> swap.secretKey == "")
  {
    SwapsAreExplained(c, es, a);
    hide Run, OpsOn;
    var ops, swap := OpsOn(c, es, a), Run(c, EMPTY, es)[a].swap;
    if swap.isInitiator && |ops| > 3 {
      assert Prepared(c, ops[..3], swap);
    }
  }

  /** An initiator's swap is closed only after its own INIT, one SET_SECRET_LOCK, its own APPROVE
      and a CLOSE with a preimage of the lock, in this order and with nothing in between. */
  lemma ClosedInitiatorHistory(c: Crypto, es: seq<Event>, a: Address)
    requires AllNameAccounts(es) && a.SwapAddr? && HasSwap(Run(c, EMPTY, es), a)
    requires var swap := Run(c, EMPTY, es)[a].swap; swap.state.Closed? && swap.isInitiator
    ensures var swap, ops := Run(c, EMPTY, es)[a].swap, OpsOn(c, es, a);
      && |ops| == 4
      && ops[0].payload.SwapInit? && ops[0].payload.initLock == "" && c.AccountOf(ops[0].signer) == swap.sender
      && ops[1].payload.SwapSetLock? && ops[1].payload.lock == swap.lock
      && ops[2].payload.SwapApprove? && c.AccountOf(ops[2].signer) == swap.sender
      && ops[3].payload.SwapClose? && c.keccak(ops[3].payload.secretKey) == Some(swap.lock)
  {
    SwapsAreExplained(c, es, a);
    hide Run, OpsOn;
    assert Prepared(c, OpsOn(c, es, a)[..3], Run(c, EMPTY, es)[a].swap);
  }

  /** A swap opened with a lock is closed by a preimage of that very lock. */
  lemma ClosedSolicitorHistory(c: Crypto, es: seq<Event>, a: Address)
    requires AllNameAccounts(es) && a.SwapAddr? && HasSwap(Run(c, EMPTY, es), a)
    requires var swap := Run(c, EMPTY, es)[a].swap; swap.state.Closed? && !swap.isInitiator
    ensures var ops := OpsOn(c, es, a);
      && |ops| == 2
      && ops[0].payload.SwapInit? && ops[0].payload.initLock != ""
      && ops[1].payload.SwapClose? && c.keccak(ops[1].payload.secretKey) == Some(ops[0].payload.initLock)
  {
    SwapsAreExplained(c, es, a);
  }

  function Rank(s: State, a: Address): nat {
    if !HasSwap(s, a) then 0
    else match s[a].swap.state
      case Opened => 1
      case LockProvided => 2
      case Approved => 3
      case _ => 4
  }

  predicate IsPayout(p: Payload) {
    p.SwapClose? || p.SwapExpire?
  }

  /** Every accepted operation on a swap raises its rank; nothing else moves it. Finished records
      never change, and the terms fixed by INIT never change. */
  lemma EventRaisesRank(c: Crypto, s: State, e: Event, ops: seq<Op>, a: Address)
    requires WellFormed(s) && NamesAccount(e) && a.SwapAddr? && Recorded(c, s, ops, a)
    ensures OpOf(c, s, e, a) != [] ==> Rank(s, a) < Rank(Step(c, s, e), a)
    ensures OpOf(c, s, e, a) == [] ==> Rank(s, a) == Rank(Step(c, s, e), a)
    ensures Rank(s, a) == 4 ==> HasSwap(Step(c, s, e), a) && Step(c, s, e)[a] == s[a]
    ensures HasSwap(s, a) ==> HasSwap(Step(c, s, e), a) && SameTerms(s[a].swap, Step(c, s, e)[a].swap)
  {
    if Accepted(c, s, e) {
      ProcessIsTransition(c, s, e.tx);
      hide Process, WellFormed;
      if Target(c, e.tx.payload) == Some(a) {
        TargetRaisesRank(c, s, e.tx.signer, e.tx.payload, Process(c, s, e.tx).value, ops, a);
      } else {
        OtherSwapsStand(c, s, e.tx.signer, e.tx.payload, Process(c, s, e.tx).value, a);
      }
    }
  }

  predicate SameTerms(x: Swap, y: Swap) {
    && x.id == y.id && x.amount == y.amount && x.sender == y.sender
    && x.receiver == y.receiver && x.createdAt == y.createdAt && x.isInitiator == y.isInitiator
    && (x.lock != "" ==> y.lock == x.lock)
  }

  lemma TargetRaisesRank(c: Crypto, s: State, signer: string, p: Payload, t: State, ops: seq<Op>, a: Address)
    requires WellFormed(s) && a.SwapAddr? && Recorded(c, s, ops, a)
    requires Target(c, p) == Some(a) && Transition(c, s, signer, p, t)
    requires p.SwapInit? ==> p.receiver.AccountAddr?
    ensures Rank(s, a) < Rank(t, a)
    ensures HasSwap(s, a) ==> HasSwap(t, a) && SameTerms(s[a].swap, t[a].swap)
  {
    hide TimeAt, FeeAt, EconomyOn, KeyFamily.ValidityAllowed, SettingAt;
  }

  /** At most four operations on a swap are ever accepted. */
  lemma {:induction false} AtMostFourOps(c: Crypto, es: seq<Event>, a: Address)
    requires AllNameAccounts(es) && a.SwapAddr?
    ensures |OpsOn(c, es, a)| <= Rank(Run(c, EMPTY, es), a) <= 4
  {
    hide Step, Process, Recorded;
    if es != [] {
      var before := Run(c, EMPTY, Before(es));
      AtMostFourOps(c, Before(es), a);
      SwapsAreExplained(c, Before(es), a);
      RunKeepsWellFormed(c, EMPTY, Before(es));
      EventRaisesRank(c, before, Last(es), OpsOn(c, Before(es), a), a);
    }
  }

  /** A finished swap stays as it is for the rest of every run, and later operations on it are all refused. */
  lemma {:induction false} FinishedIsFinal(c: Crypto, es: seq<Event>, i: nat, a: Address)
    requires AllNameAccounts(es) && a.SwapAddr? && i <= |es|
    requires Rank(Run(c, EMPTY, es[..i]), a) == 4
    ensures Rank(Run(c, EMPTY, es), a) == 4 && Run(c, EMPTY, es)[a] == Run(c, EMPTY, es[..i])[a]
    ensures OpsOn(c, es, a) == OpsOn(c, es[..i], a)
  {
    hide Step, Process, Recorded;
    if i == |es| {
      assert es[..i] == es;
    } else {
      assert Before(es)[..i] == es[..i];
      FinishedIsFinal(c, Before(es), i, a);
      var before := Run(c, EMPTY, Before(es));
      SwapsAreExplained(c, Before(es), a);
      RunKeepsWellFormed(c, EMPTY, Before(es));
      EventRaisesRank(c, before, Last(es), OpsOn(c, Before(es), a), a);
    }
  }

  /** The operations before the last of a history are no payouts. */
  lemma ExplainedPayouts(c: Crypto, ops: seq<Op>, swap: Swap)
    requires Explains(c, ops, swap)
    ensures 1 <= |ops| <= 4
    ensures forall i | 0 <= i < |ops| - 1 :: !IsPayout(ops[i].payload)
    ensures swap.state.Closed? <==> ops[|ops| - 1].payload.SwapClose?
    ensures swap.state.Expired? <==> ops[|ops| - 1].payload.SwapExpire?
  {
    hide IsSwapId, SwapFamily.TimeLock;
    if swap.isInitiator && swap.Finished() {
      var prefix := ops[..|ops| - 1];
      assert Prepared(c, prefix, swap);
      assert forall i | 0 <= i < |prefix| :: prefix[i] == ops[i];
    }
  }

  /** The event at `i` is an accepted CLOSE or EXPIRE of the swap at `a`. */
  predicate PaysOutAt(c: Crypto, es: seq<Event>, a: Address, i: nat) {
    && i < |es| && Accepted(c, Run(c, EMPTY, es[..i]), es[i])
    && Target(c, es[i].tx.payload) == Some(a) && IsPayout(es[i].tx.payload)
  }

  function Payee(swap: Swap): Address {
    if swap.state.Closed? then swap.receiver else swap.sender
  }

  lemma {:induction false} OpsComeFromEvents(c: Crypto, es: seq<Event>, a: Address, k: nat) returns (i: nat)
    requires k < |OpsOn(c, es, a)|
    ensures i < |es| && Accepted(c, Run(c, EMPTY, es[..i]), es[i])
    ensures Target(c, es[i].tx.payload) == Some(a) && es[i].tx.payload == OpsOn(c, es, a)[k].payload
  {
    hide Run, Accepted;
    i := |es| - 1;
    assert es[..i] == Before(es);
    if k < |OpsOn(c, Before(es), a)| {
      i := OpsComeFromEvents(c, Before(es), a, k);
      assert Before(es)[..i] == es[..i];
    }
  }

  /** From `s` to `t` one address gained the amount, and no other account changed its balance. */
  ghost predicate CreditsOnly(s: State, t: State, to: Address, amount: nat) {
    forall x: Address | x.IsAccount() :: Balance(t, x) == Balance(s, x) + (if x == to then amount else 0)
  }

  /** The event at `i` settles the swap: CLOSE pays the receiver, EXPIRE the sender. */
  ghost predicate SettledBy(c: Crypto, es: seq<Event>, swap: Swap, i: nat)
    requires i < |es| && es[i].Submit?
  {
    && (if es[i].tx.payload.SwapClose? then swap.state.Closed? else swap.state.Expired?)
    && CreditsOnly(Run(c, EMPTY, es[..i]), Run(c, EMPTY, es[..i + 1]), Payee(swap), swap.amount)
  }

  /** A payout finishes a live swap and credits its amount to the payee, and to nobody else. */
  lemma PayoutStep(c: Crypto, s: State, e: Event, a: Address)
    requires WellFormed(s) && Accepted(c, s, e) && Target(c, e.tx.payload) == Some(a) && IsPayout(e.tx.payload)
    ensures var t := Step(c, s, e);
      && HasLiveSwap(s, a) && HasSwap(t, a)
      && (if e.tx.payload.SwapClose? then t[a].swap.state.Closed? else t[a].swap.state.Expired?)
      && CreditsOnly(s, t, Payee(t[a].swap), t[a].swap.amount)
  {
    hide Process;
    ProcessIsTransition(c, s, e.tx);
    hide TimeAt;
  }

  lemma PayoutIsFinal(c: Crypto, es: seq<Event>, a: Address, i: nat)
    requires AllNameAccounts(es) && a.SwapAddr? && PaysOutAt(c, es, a, i)
    ensures Rank(Run(c, EMPTY, es[..i]), a) < 4 && Rank(Run(c, EMPTY, es[..i + 1]), a) == 4
    ensures HasSwap(Run(c, EMPTY, es), a) && SettledBy(c, es, Run(c, EMPTY, es)[a].swap, i)
  {
    hide Step, CreditsOnly;
    assert Before(es[..i + 1]) == es[..i] && Last(es[..i + 1]) == es[i];
    RunKeepsWellFormed(c, EMPTY, es[..i]);
    PayoutStep(c, Run(c, EMPTY, es[..i]), es[i], a);
    FinishedIsFinal(c, es, i + 1, a);
  }

  lemma FinishedWasPaid(c: Crypto, es: seq<Event>, a: Address)
    requires AllNameAccounts(es) && a.SwapAddr? && HasSwap(Run(c, EMPTY, es), a) && Run(c, EMPTY, es)[a].swap.Finished()
    ensures exists i: nat :: PaysOutAt(c, es, a, i)
  {
    hide Run, OpsOn, Accepted, Explains;
    var ops, swap := OpsOn(c, es, a), Run(c, EMPTY, es)[a].swap;
    SwapsAreExplained(c, es, a);
    ExplainedPayouts(c, ops, swap);
    hide AllNameAccounts, Recorded;
    var i := OpsComeFromEvents(c, es, a, |ops| - 1);
    assert PaysOutAt(c, es, a, i);
  }

  lemma PayoutsDoNotRepeat(c: Crypto, es: seq<Event>, a: Address, i: nat, j: nat)
    requires AllNameAccounts(es) && a.SwapAddr? && i < j && PaysOutAt(c, es, a, i)
    ensures !PaysOutAt(c, es, a, j)
  {
    hide Run, SettledBy;
    PayoutIsFinal(c, es, a, i);
    if PaysOutAt(c, es, a, j) {
      assert es[..j][..i + 1] == es[..i + 1];
      FinishedIsFinal(c, es[..j], i + 1, a);
      PayoutIsFinal(c, es, a, j);
    }
  }

  /** In any run a finished swap was paid out by exactly one event: a CLOSE if it is closed, an EXPIRE
      if it is expired. That event credited exactly the amount, to the receiver of a closed and to the
      sender of an expired swap, and nothing to anybody else. A live swap was not paid out. */
  lemma PaidOutOnce(c: Crypto, es: seq<Event>, a: Address)
    requires AllNameAccounts(es) && a.SwapAddr? && HasSwap(Run(c, EMPTY, es), a)
    ensures var swap := Run(c, EMPTY, es)[a].swap;
      && (swap.Finished() <==> exists i: nat :: PaysOutAt(c, es, a, i))
      && (forall i: nat, j: nat | PaysOutAt(c, es, a, i) && PaysOutAt(c, es, a, j) :: i == j)
      && (forall i: nat | PaysOutAt(c, es, a, i) :: SettledBy(c, es, swap, i))
  {
    if Run(c, EMPTY, es)[a].swap.Finished() {
      FinishedWasPaid(c, es, a);
    }
    hide Run, AllNameAccounts, PaysOutAt, CreditsOnly;
    forall i: nat | PaysOutAt(c, es, a, i) ensures SettledBy(c, es, Run(c, EMPTY, es)[a].swap, i) {
      PayoutIsFinal(c, es, a, i);
    }
    forall i: nat, j: nat | PaysOutAt(c, es, a, i) && PaysOutAt(c, es, a, j) ensures i == j {
      if i < j {
        PayoutsDoNotRepeat(c, es, a, i, j);
      } else if j < i {
        PayoutsDoNotRepeat(c, es, a, j, i);
      }
    }
  }
}
