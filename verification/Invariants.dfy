/** Every reachable state is well formed: records stand at addresses of their own kind, and swap
    parties are accounts. */
module Invariants {
  import opened Records
  import opened StateView
  import opened Ledger
  import opened Transitions
  import opened Effects
  import KeyFamily

  /** Every address holds the kind of record its namespace is for. */
  ghost predicate Typed(s: State) {
    forall a | a in s :: KindOf(s[a]) == HomeKind(a)
  }

  ghost predicate AccountParties(s: State) {
    forall a | HasSwap(s, a) :: s[a].swap.sender.AccountAddr? && s[a].swap.receiver.AccountAddr?
  }

  ghost predicate WellFormed(s: State) {
    Typed(s) && AccountParties(s)
  }

  /** The receiver of a new swap is an account or the zero address, and the form refuses the latter. */
  predicate NamesAccount(e: Event) {
    e.Submit? && e.tx.payload.SwapInit? ==> e.tx.payload.receiver.IsAccount()
  }

  ghost predicate AllNameAccounts(es: seq<Event>) {
    forall e | e in es :: NamesAccount(e)
  }

  lemma StoringKeepsWellFormed(c: Crypto, s: State, signer: string, p: Payload, t: State)
    requires WellFormed(s) && Transition(c, s, signer, p, t) && (p.StoreKey? || p.StoreKeyFor?)
    ensures WellFormed(t)
  {
    PaidInWellFormed(s);
    hide EconomyOn, KeyFamily.ValidityAllowed, PaidIn, HasKey, KeyFamily.Linked;
  }

  lemma SwapsKeepWellFormed(c: Crypto, s: State, signer: string, p: Payload, t: State)
    requires WellFormed(s) && Transition(c, s, signer, p, t)
    requires p.SwapSetLock? || p.SwapApprove? || p.SwapExpire? || p.SwapClose?
    ensures WellFormed(t)
  {
    hide TimeAt, Opens, Stores, StoresFor, Issues, Transfers, Revokes;
  }

  lemma OpeningKeepsWellFormed(c: Crypto, s: State, signer: string, p: Payload, t: State)
    requires WellFormed(s) && Transition(c, s, signer, p, t) && p.SwapInit? && p.receiver.AccountAddr?
    ensures WellFormed(t)
  {
    hide TimeAt, FeeAt;
  }

  lemma TransitionKeepsWellFormed(c: Crypto, s: State, signer: string, p: Payload, t: State)
    requires WellFormed(s) && Transition(c, s, signer, p, t)
    requires p.SwapInit? ==> p.receiver.AccountAddr?
    ensures WellFormed(t)
  {
    if p.StoreKey? || p.StoreKeyFor? {
      StoringKeepsWellFormed(c, s, signer, p, t);
    } else if p.SwapSetLock? || p.SwapApprove? || p.SwapExpire? || p.SwapClose? {
      SwapsKeepWellFormed(c, s, signer, p, t);
    } else if p.SwapInit? {
      OpeningKeepsWellFormed(c, s, signer, p, t);
    }
    hide Opens, Stores, StoresFor, Locks, Approves, Expires, Closes;
  }

  lemma PaidInWellFormed(s: State)
    requires WellFormed(s) && Balance(s, ZeroAddr) + Price(s) <= MAX_U64
    ensures WellFormed(PaidIn(s))
  {
    hide EconomyOn;
  }

  lemma StepKeepsWellFormed(c: Crypto, s: State, e: Event)
    requires WellFormed(s) && NamesAccount(e)
    ensures WellFormed(Step(c, s, e))
  {
    if e.Submit? && Process(c, s, e.tx).Ok? {
      ProcessIsTransition(c, s, e.tx);
      TransitionKeepsWellFormed(c, s, e.tx.signer, e.tx.payload, Process(c, s, e.tx).value);
    }
  }

  lemma {:induction false} RunKeepsWellFormed(c: Crypto, s: State, es: seq<Event>)
    requires WellFormed(s) && AllNameAccounts(es)
    ensures WellFormed(Run(c, s, es))
  {
    if es != [] {
      RunKeepsWellFormed(c, s, Before(es));
      StepKeepsWellFormed(c, Run(c, s, Before(es)), Last(es));
    }
  }
}
