/** The statement of every account: what each accepted transaction adds to it or takes from it. */
module Balances {
  import opened Records
  import opened StateView
  import opened Ledger
  import opened Transitions
  import opened Effects
  import opened Invariants
  import opened Supply
  import KeyFamily

  /** Tokens that arrive at `x` with an accepted transaction. */
  function Incoming(c: Crypto, s: State, signer: string, p: Payload, x: Address): nat {
    match p
    case Genesis(supply) => if x == c.AccountOf(signer) then supply else 0
    case Transfer(to, value) => if x == to then value else 0
    case SwapInit(_, _, _, _) => if x == ZeroAddr && FeeAt(c, s) >= 0 then FeeAt(c, s) else 0
    case SwapExpire(id) =>
      if HasSwap(s, c.SwapOf(id)) && x == s[c.SwapOf(id)].swap.sender then s[c.SwapOf(id)].swap.amount else 0
    case SwapClose(id, _) =>
      if HasSwap(s, c.SwapOf(id)) && x == s[c.SwapOf(id)].swap.receiver then s[c.SwapOf(id)].swap.amount else 0
    case StoreKey(_) => if x == ZeroAddr then Price(s) else 0
    case StoreKeyFor(_, _, _) => if x == ZeroAddr then Price(s) else 0
    case _ => 0
  }

  /** Tokens that leave `x` with an accepted transaction. */
  function Outgoing(c: Crypto, s: State, signer: string, p: Payload, x: Address): nat {
    if x != c.AccountOf(signer) then 0
    else
      match p
      case Genesis(_) => Balance(s, x)
      case Transfer(_, value) => value
      case SwapInit(_, _, amount, _) => amount + (if FeeAt(c, s) >= 0 then FeeAt(c, s) else 0)
      case StoreKey(_) => Price(s)
      case StoreKeyFor(_, owner, _) => if x == c.AccountOf(owner) then 0 else Price(s)
      case _ => 0
  }

  lemma TransitionBalance(c: Crypto, s: State, signer: string, p: Payload, t: State, x: Address)
    requires WellFormed(s) && x.IsAccount() && Transition(c, s, signer, p, t)
    requires p.SwapInit? ==> p.receiver.AccountAddr?
    ensures Balance(t, x) == Balance(s, x) + Incoming(c, s, signer, p, x) - Outgoing(c, s, signer, p, x)
  {
    hide TimeAt, FeeAt, EconomyOn, KeyFamily.ValidityAllowed, SettingAt;
  }

  /** The balance of an account after one event. */
  lemma StepBalance(c: Crypto, s: State, e: Event, x: Address)
    requires WellFormed(s) && NamesAccount(e) && x.IsAccount()
    ensures Balance(Step(c, s, e), x) == Balance(s, x) +
      (if Accepted(c, s, e)
       then Incoming(c, s, e.tx.signer, e.tx.payload, x) - Outgoing(c, s, e.tx.signer, e.tx.payload, x) else 0)
  {
    if Accepted(c, s, e) {
      ProcessIsTransition(c, s, e.tx);
      hide Process;
      TransitionBalance(c, s, e.tx.signer, e.tx.payload, Process(c, s, e.tx).value, x);
    }
  }

  function IncomingIn(c: Crypto, s: State, es: seq<Event>, x: Address): nat {
    if es == [] then 0
    else
      var before, e := Run(c, s, Before(es)), Last(es);
      IncomingIn(c, s, Before(es), x) +
      (if Accepted(c, before, e) then Incoming(c, before, e.tx.signer, e.tx.payload, x) else 0)
  }

  function OutgoingIn(c: Crypto, s: State, es: seq<Event>, x: Address): nat {
    if es == [] then 0
    else
      var before, e := Run(c, s, Before(es)), Last(es);
      OutgoingIn(c, s, Before(es), x) +
      (if Accepted(c, before, e) then Outgoing(c, before, e.tx.signer, e.tx.payload, x) else 0)
  }

  /** Over any run, every account holds what came in less what went out. */
  lemma {:induction false} BalanceIsItsStatement(c: Crypto, es: seq<Event>, x: Address)
    requires AllNameAccounts(es) && x.IsAccount()
    ensures Balance(Run(c, EMPTY, es), x) == IncomingIn(c, EMPTY, es, x) - OutgoingIn(c, EMPTY, es, x)
  {
    if es != [] {
      BalanceIsItsStatement(c, Before(es), x);
      RunKeepsWellFormed(c, EMPTY, Before(es));
      StepBalance(c, Run(c, EMPTY, Before(es)), Last(es), x);
    }
  }

  /** Accepted registrations that were charged for. */
  function ChargedIn(c: Crypto, es: seq<Event>): nat {
    if es == [] then 0
    else
      var before, e := Run(c, EMPTY, Before(es)), Last(es);
      ChargedIn(c, Before(es)) +
      (if Accepted(c, before, e) && (e.tx.payload.StoreKey? || e.tx.payload.StoreKeyFor?) && EconomyOn(before)
       then 1 else 0)
  }

  /** The commissions of all accepted swaps. */
  function CommissionsIn(c: Crypto, es: seq<Event>): nat {
    if es == [] then 0
    else
      var before, e := Run(c, EMPTY, Before(es)), Last(es);
      CommissionsIn(c, Before(es)) +
      (if Accepted(c, before, e) && e.tx.payload.SwapInit? && FeeAt(c, before) >= 0 then FeeAt(c, before) else 0)
  }

  lemma ZeroAddressGains(c: Crypto, s: State, tx: Transaction)
    requires WellFormed(s) && Process(c, s, tx).Ok?
    ensures Outgoing(c, s, tx.signer, tx.payload, ZeroAddr) == 0
    ensures Incoming(c, s, tx.signer, tx.payload, ZeroAddr) ==
      match tx.payload
      case SwapInit(_, _, _, _) => if FeeAt(c, s) >= 0 then FeeAt(c, s) else 0
      case StoreKey(_) => Price(s)
      case StoreKeyFor(_, _, _) => Price(s)
      case _ => 0
  {
    hide Process;
    ProcessIsTransition(c, s, tx);
    hide TimeAt, FeeAt, EconomyOn;
  }

  /** The zero address is never debited, and nothing but charges and commissions ever reaches it: its
      balance is ten for every charged registration and every swap commission, and never falls. */
  lemma {:induction false} ZeroAddressOnlyReceives(c: Crypto, es: seq<Event>, i: nat)
    requires AllNameAccounts(es) && i <= |es|
    ensures Balance(Run(c, EMPTY, es), ZeroAddr) == 10 * ChargedIn(c, es) + CommissionsIn(c, es)
    ensures Balance(Run(c, EMPTY, es[..i]), ZeroAddr) <= Balance(Run(c, EMPTY, es), ZeroAddr)
  {
    hide Step, EconomyOn, FeeAt, Process;
    if es != [] {
      var before, e := Run(c, EMPTY, Before(es)), Last(es);
      ZeroAddressOnlyReceives(c, Before(es), if i < |es| then i else 0);
      RunKeepsWellFormed(c, EMPTY, Before(es));
      StepBalance(c, before, e, ZeroAddr);
      if Accepted(c, before, e) {
        ZeroAddressGains(c, before, e.tx);
      }
      if i < |es| {
        assert Before(es)[..i] == es[..i];
      } else {
        assert es[..i] == es;
      }
    }
  }
}
