/** The history of every swap record: which accepted operations led to it. */
module SwapHistory {
  import opened Wrappers
  import opened Records
  import opened StateView
  import opened Forms
  import opened Ledger
  import opened Transitions
  import opened Effects
  import opened Invariants
  import opened Supply
  import SwapFamily
  import KeyFamily

  /** An accepted operation on a swap, with its signer and the block time it saw. */
  datatype Op = Op(signer: string, payload: Payload, time: Option<nat>)

  /** The swap address a payload operates on. */
  function Target(c: Crypto, p: Payload): Option<Address> {
    match p
    case SwapInit(id, _, _, _) => Some(c.SwapOf(id))
    case SwapSetLock(id, _) => Some(c.SwapOf(id))
    case SwapApprove(id) => Some(c.SwapOf(id))
    case SwapExpire(id) => Some(c.SwapOf(id))
    case SwapClose(id, _) => Some(c.SwapOf(id))
    case _ => None
  }

  function OpOf(c: Crypto, s: State, e: Event, a: Address): seq<Op> {
    if Accepted(c, s, e) && Target(c, e.tx.payload) == Some(a)
    then [Op(e.tx.signer, e.tx.payload, TimeAt(s))] else []
  }

  /** The operations on the swap at `a` that a run accepts, in order. */
  function OpsOn(c: Crypto, es: seq<Event>, a: Address): seq<Op> {
    if es == [] then []
    else OpsOn(c, Before(es), a) + OpOf(c, Run(c, EMPTY, Before(es)), Last(es), a)
  }

  predicate OpenedBy(c: Crypto, op: Op, swap: Swap) {
    && op.payload.SwapInit? && op.time == Some(swap.createdAt)
    && swap.id == op.payload.swapId && IsSwapId(swap.id)
    && swap.sender == c.AccountOf(op.signer) && swap.receiver == op.payload.receiver
    && swap.amount == op.payload.amount != 0
    && swap.isInitiator == (op.payload.initLock == "")
    && (!swap.isInitiator ==> swap.lock == op.payload.initLock)
  }

  predicate LockedBy(op: Op, swap: Swap) {
    op.payload.SwapSetLock? && swap.lock == op.payload.lock != ""
  }

  predicate ApprovedBy(c: Crypto, op: Op, swap: Swap) {
    op.payload.SwapApprove? && c.AccountOf(op.signer) == swap.sender
  }

  predicate ClosedBy(c: Crypto, op: Op, swap: Swap) {
    && op.payload.SwapClose? && swap.secretKey == op.payload.secretKey != ""
    && c.keccak(swap.secretKey) == Some(swap.lock)
  }

  predicate ExpiredBy(c: Crypto, op: Op, swap: Swap) {
    && op.payload.SwapExpire? && c.AccountOf(op.signer) == swap.sender && swap.secretKey == ""
    && op.time.Some? && swap.createdAt + SwapFamily.TimeLock(swap.isInitiator) <= op.time.value
  }

  /** What happened to an initiator's swap between INIT and its end. */
  predicate Prepared(c: Crypto, ops: seq<Op>, swap: Swap) {
    match |ops|
    case 1 => swap.lock == ""
    case 2 => LockedBy(ops[1], swap)
    case 3 => LockedBy(ops[1], swap) && ApprovedBy(c, ops[2], swap)
    case _ => false
  }

  /** The eight histories a swap can have, and what each leaves in the record. */
  predicate Explains(c: Crypto, ops: seq<Op>, swap: Swap) {
    && ops != [] && OpenedBy(c, ops[0], swap)
    && match swap.state
       case Opened => |ops| == 1 && swap.secretKey == "" && (swap.isInitiator ==> Prepared(c, ops, swap))
       case LockProvided => swap.isInitiator && |ops| == 2 && swap.secretKey == "" && Prepared(c, ops, swap)
       case Approved => swap.isInitiator && |ops| == 3 && swap.secretKey == "" && Prepared(c, ops, swap)
       case Closed =>
         && |ops| == (if swap.isInitiator then 4 else 2)
         && (swap.isInitiator ==> Prepared(c, ops[..3], swap))
         && ClosedBy(c, ops[|ops| - 1], swap)
       case Expired =>
         && |ops| >= 2 && (!swap.isInitiator ==> |ops| == 2)
         && (swap.isInitiator ==> Prepared(c, ops[..|ops| - 1], swap))
         && ExpiredBy(c, ops[|ops| - 1], swap)
  }

  /** The record at `a` is what the operations accepted so far explain. */
  predicate Recorded(c: Crypto, s: State, ops: seq<Op>, a: Address) {
    if HasSwap(s, a) then a == c.SwapOf(s[a].swap.id) && Explains(c, ops, s[a].swap) else ops == []
  }

  /** An operation on another swap, or none at all, leaves the record alone. */
  lemma OtherSwapsStand(c: Crypto, s: State, signer: string, p: Payload, t: State, a: Address)
    requires WellFormed(s) && a.SwapAddr? && Target(c, p) != Some(a) && Transition(c, s, signer, p, t)
    requires p.SwapInit? ==> p.receiver.AccountAddr?
    ensures HasSwap(s, a) <==> HasSwap(t, a)
    ensures HasSwap(s, a) ==> s[a] == t[a]
  {
    hide TimeAt, FeeAt, EconomyOn, KeyFamily.ValidityAllowed, SettingAt;
  }

  lemma OpExplained(c: Crypto, s: State, signer: string, p: Payload, t: State, ops: seq<Op>, a: Address)
    requires WellFormed(s) && Target(c, p) == Some(a) && Transition(c, s, signer, p, t) && FormValid(c, p)
    requires p.SwapInit? ==> p.receiver.AccountAddr?
    requires Recorded(c, s, ops, a)
    ensures HasSwap(t, a)
    ensures Recorded(c, t, ops + [Op(signer, p, TimeAt(s))], a)
  {
    hide TimeAt, FeeAt, EconomyOn, KeyFamily.ValidityAllowed, SettingAt;
    var op := Op(signer, p, TimeAt(s));
    assert (ops + [op])[..|ops|] == ops;
    if ops != [] {
      assert (ops + [op])[0] == ops[0];
    }
  }

  lemma EventExplained(c: Crypto, s: State, e: Event, ops: seq<Op>, a: Address)
    requires WellFormed(s) && NamesAccount(e) && a.SwapAddr? && Recorded(c, s, ops, a)
    ensures Recorded(c, Step(c, s, e), ops + OpOf(c, s, e, a), a)
  {
    assert ops + [] == ops;
    if Accepted(c, s, e) {
      ProcessIsTransition(c, s, e.tx);
      hide Process, Transition, WellFormed, Explains;
      var t := Process(c, s, e.tx).value;
      if Target(c, e.tx.payload) == Some(a) {
        OpExplained(c, s, e.tx.signer, e.tx.payload, t, ops, a);
      } else {
        OtherSwapsStand(c, s, e.tx.signer, e.tx.payload, t, a);
      }
    }
  }

  /** Every swap record of every reachable state has one of the eight histories, and an address
      without a record was never operated on. */
  lemma {:induction false} SwapsAreExplained(c: Crypto, es: seq<Event>, a: Address)
    requires AllNameAccounts(es) && a.SwapAddr?
    ensures Recorded(c, Run(c, EMPTY, es), OpsOn(c, es, a), a)
  {
    hide Step, Process;
    if es != [] {
      SwapsAreExplained(c, Before(es), a);
      RunKeepsWellFormed(c, EMPTY, Before(es));
      EventExplained(c, Run(c, EMPTY, Before(es)), Last(es), OpsOn(c, Before(es), a), a);
    }
  }
}
