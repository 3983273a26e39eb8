/** Conservation of tokens: balances plus the amounts locked in live swaps. */
module Supply {
  import opened Records
  import opened StateView
  import opened Ledger
  import opened Transitions
  import opened Effects
  import opened Invariants
  import SwapFamily
  import KeyFamily

  /** Tokens a record holds. A live swap is its own escrow; a finished one holds nothing. */
  function Worth(r: Record): nat {
    match r
    case AccountRec(account) => account.balance
    case SwapRec(swap) => if swap.Finished() then 0 else swap.amount
    case _ => 0
  }

  function WorthAt(s: State, a: Address): nat {
    if a in s then Worth(s[a]) else 0
  }

  ghost function Total(s: State): nat {
    if s == map[] then 0
    else
      var a :| a in s;
      Worth(s[a]) + Total(s - {a})
  }

  lemma {:induction false} TotalSplits(s: State, a: Address)
    requires a in s
    ensures Total(s) == Worth(s[a]) + Total(s - {a})
    decreases s
  {
    var b :| b in s && Total(s) == Worth(s[b]) + Total(s - {b});
    if a != b {
      TotalSplits(s - {b}, a);
      TotalSplits(s - {a}, b);
      assert s - {b} - {a} == s - {a} - {b};
    }
  }

  /** Writing one record changes the total by the difference at that address. */
  lemma TotalWrite(s: State, a: Address, r: Record)
    ensures Total(s[a := r]) == Total(s) - WorthAt(s, a) + Worth(r)
  {
    TotalSplits(s[a := r], a);
    assert s[a := r] - {a} == s - {a};
    if a in s {
      TotalSplits(s, a);
    } else {
      assert s - {a} == s;
    }
  }

  lemma TotalTwoWrites(s: State, a: Address, ra: Record, b: Address, rb: Record)
    requires a != b
    ensures Total(s[a := ra][b := rb]) == Total(s) - WorthAt(s, a) + Worth(ra) - WorthAt(s, b) + Worth(rb)
  {
    hide Total;
    TotalWrite(s, a, ra);
    TotalWrite(s[a := ra], b, rb);
  }

  lemma TotalThreeWrites(s: State, a: Address, ra: Record, b: Address, rb: Record, d: Address, rd: Record)
    requires a != b && a != d && b != d
    ensures Total(s[a := ra][b := rb][d := rd])
         == Total(s) - WorthAt(s, a) + Worth(ra) - WorthAt(s, b) + Worth(rb) - WorthAt(s, d) + Worth(rd)
  {
    hide Total;
    TotalTwoWrites(s, a, ra, b, rb);
    TotalWrite(s[a := ra][b := rb], d, rd);
  }

  /** Two different addresses together hold no more than the total. */
  lemma TwoWorthsFit(s: State, a: Address, b: Address)
    requires a != b
    ensures WorthAt(s, a) + WorthAt(s, b) <= Total(s)
  {
    if a in s {
      TotalSplits(s, a);
      if b in s {
        TotalSplits(s - {a}, b);
      }
    } else if b in s {
      TotalSplits(s, b);
    }
  }

  /** STORE_AND_PAY by the owner itself: the charge is written over, yet the zero address was paid. */
  predicate SelfPaid(c: Crypto, s: State, p: Payload, signer: string) {
    p.StoreKeyFor? && EconomyOn(s) && c.AccountOf(signer) == c.AccountOf(p.owner)
  }

  /** By how much an accepted transaction changes the total. */
  function Issued(c: Crypto, s: State, p: Payload, signer: string): int {
    if p.Genesis? then p.supply - Balance(s, c.AccountOf(signer))
    else if SelfPaid(c, s, p, signer) then KeyFamily.STORE_PRICE
    else 0
  }

  lemma GenesisSupply(c: Crypto, s: State, signer: string, supply: U64, t: State)
    requires Typed(s) && Issues(c, s, signer, supply, t)
    ensures Total(t) == Total(s) + supply - Balance(s, c.AccountOf(signer))
  {
    hide Total;
    var me := c.AccountOf(signer);
    TotalTwoWrites(s, me, AccountRec(Account(supply, [])), GenesisAddr, GenesisRec(StatusAfterGenesis(s)));
  }

  lemma TransferSupply(c: Crypto, s: State, signer: string, to: Address, value: U64, t: State)
    requires Typed(s) && Transfers(c, s, signer, to, value, t)
    ensures Total(t) == Total(s)
  {
    hide Total;
    var from := c.AccountOf(signer);
    TotalTwoWrites(s, from, Rebalanced(s, from, Balance(s, from) - value),
                   to, Rebalanced(s, to, Balance(s, to) + value));
  }

  lemma InitSupply(c: Crypto, s: State, signer: string, id: string, receiver: Address, amount: U64, lock: string,
                   t: State)
    requires Typed(s) && Opens(c, s, signer, id, receiver, amount, lock, t)
    ensures Total(t) == Total(s)
  {
    hide Total, TimeAt, FeeAt;
    var me, fee, a := c.AccountOf(signer), FeeAt(c, s), c.SwapOf(id);
    var swap := SwapRec(SwapFamily.NewSwap(c, signer, id, receiver, amount, lock, TimeAt(s).value));
    TotalThreeWrites(s, a, swap, me, Rebalanced(s, me, Balance(s, me) - amount - fee),
                     ZeroAddr, Rebalanced(s, ZeroAddr, Balance(s, ZeroAddr) + fee));
  }

  /** Finishing a live swap and crediting its amount to an account. */
  lemma PayoutSupply(s: State, a: Address, done: Swap, to: Address)
    requires Typed(s) && HasLiveSwap(s, a) && done.Finished() && done.amount == s[a].swap.amount
    requires to.IsAccount() && Balance(s, to) + done.amount <= MAX_U64
    ensures Total(s[a := SwapRec(done)][to := Rebalanced(s, to, Balance(s, to) + done.amount)]) == Total(s)
  {
    hide Total;
    TotalTwoWrites(s, a, SwapRec(done), to, Rebalanced(s, to, Balance(s, to) + done.amount));
  }

  lemma PaidInSupply(s: State)
    requires Typed(s) && Balance(s, ZeroAddr) + Price(s) <= MAX_U64
    ensures Total(PaidIn(s)) == Total(s) + Price(s)
    ensures forall a | a != ZeroAddr :: WorthAt(PaidIn(s), a) == WorthAt(s, a)
  {
    hide Total;
    if EconomyOn(s) {
      TotalWrite(s, ZeroAddr, Rebalanced(s, ZeroAddr, Balance(s, ZeroAddr) + Price(s)));
    }
  }

  lemma StoreSupply(c: Crypto, s: State, signer: string, payload: KeyPayload, t: State)
    requires Typed(s) && Stores(c, s, signer, payload, t)
    ensures Total(t) == Total(s)
  {
    hide Total, EconomyOn, HasKey, KeyFamily.ValidityAllowed;
    PaidInSupply(s);
    var key, me, info := c.KeyOf(payload.config.value), c.AccountOf(signer), KeyInfo(signer, payload, false);
    TotalTwoWrites(PaidIn(s), key, KeyRec(info),
                   me, AccountRec(KeyFamily.Linked(AccountAt(s, me).(balance := Balance(s, me) - Price(s)), key)));
  }

  lemma StoreForSupply(c: Crypto, s: State, signer: string, payload: KeyPayload, owner: string, t: State)
    requires Typed(s) && StoresFor(c, s, signer, payload, owner, t)
    ensures Total(t) == Total(s) + (if c.AccountOf(signer) == c.AccountOf(owner) then Price(s) else 0)
  {
    hide Total, PaidIn, EconomyOn, HasKey, KeyFamily.ValidityAllowed;
    PaidInSupply(s);
    var key, listed, payer := c.KeyOf(payload.config.value), c.AccountOf(owner), c.AccountOf(signer);
    var info, left := KeyInfo(owner, payload, false), Rebalanced(s, payer, Balance(s, payer) - Price(s));
    var last := AccountRec(KeyFamily.Linked(AccountAt(s, listed), key));
    if payer == listed {
      assert t == PaidIn(s)[key := KeyRec(info)][listed := last];
      TotalTwoWrites(PaidIn(s), key, KeyRec(info), listed, last);
    } else {
      TotalThreeWrites(PaidIn(s), payer, left, key, KeyRec(info), listed, last);
    }
  }

  lemma LockSupply(c: Crypto, s: State, id: string, lock: string, t: State)
    requires Locks(c, s, id, lock, t)
    ensures Total(t) == Total(s)
  {
    hide Total;
    TotalWrite(s, c.SwapOf(id), SwapRec(s[c.SwapOf(id)].swap.(lock := lock, state := LockProvided)));
  }

  lemma ApproveSupply(c: Crypto, s: State, signer: string, id: string, t: State)
    requires Approves(c, s, signer, id, t)
    ensures Total(t) == Total(s)
  {
    hide Total;
    TotalWrite(s, c.SwapOf(id), SwapRec(s[c.SwapOf(id)].swap.(state := Approved)));
  }

  lemma ExpireSupply(c: Crypto, s: State, signer: string, id: string, t: State)
    requires Typed(s) && Expires(c, s, signer, id, t)
    ensures Total(t) == Total(s)
  {
    hide Total, TimeAt;
    var swap := s[c.SwapOf(id)].swap;
    PayoutSupply(s, c.SwapOf(id), swap.(state := Expired), swap.sender);
  }

  lemma CloseSupply(c: Crypto, s: State, id: string, secret: string, t: State)
    requires WellFormed(s) && Closes(c, s, id, secret, t)
    ensures Total(t) == Total(s)
  {
    hide Total;
    var swap := s[c.SwapOf(id)].swap;
    PayoutSupply(s, c.SwapOf(id), swap.(state := Closed, secretKey := secret), swap.receiver);
  }

  lemma RevokeSupply(s: State, signer: string, a: Address, t: State)
    requires Revokes(s, signer, a, t)
    ensures Total(t) == Total(s)
  {
    hide Total;
    TotalWrite(s, a, KeyRec(s[a].info.(revoked := true)));
  }

  /** A transition changes the total by exactly what it issues. */
  lemma TransitionSupply(c: Crypto, s: State, signer: string, p: Payload, t: State)
    requires WellFormed(s) && Transition(c, s, signer, p, t)
    ensures Total(t) == Total(s) + Issued(c, s, p, signer)
  {
    hide Total, Typed, AccountParties, EconomyOn, Issues, Transfers, Opens, Locks, Approves, Expires, Closes, Stores,
         StoresFor, Revokes;
    match p
    case Genesis(supply) => GenesisSupply(c, s, signer, supply, t);
    case Transfer(to, value) => TransferSupply(c, s, signer, to, value, t);
    case SwapInit(id, receiver, amount, lock) => InitSupply(c, s, signer, id, receiver, amount, lock, t);
    case SwapSetLock(id, lock) => LockSupply(c, s, id, lock, t);
    case SwapApprove(id) => ApproveSupply(c, s, signer, id, t);
    case SwapExpire(id) => ExpireSupply(c, s, signer, id, t);
    case SwapClose(id, secret) => CloseSupply(c, s, id, secret, t);
    case StoreKey(key) => StoreSupply(c, s, signer, key, t);
    case StoreKeyFor(key, owner, _) => StoreForSupply(c, s, signer, key, owner, t);
    case RevokeKey(a) => RevokeSupply(s, signer, a, t);
  }

  /** An accepted transaction keeps the total if and only if it is no GENESIS that changes its
      signer's balance and no self-paid STORE_AND_PAY. */
  lemma ConservationIff(c: Crypto, s: State, tx: Transaction)
    requires WellFormed(s) && Process(c, s, tx).Ok?
    ensures Total(Process(c, s, tx).value) == Total(s) + Issued(c, s, tx.payload, tx.signer)
    ensures Total(Process(c, s, tx).value) == Total(s) <==>
      && (tx.payload.Genesis? ==> Balance(s, c.AccountOf(tx.signer)) == tx.payload.supply)
      && !SelfPaid(c, s, tx.payload, tx.signer)
  {
    hide Total;
    ProcessIsTransition(c, s, tx);
    TransitionSupply(c, s, tx.signer, tx.payload, Process(c, s, tx).value);
  }

  /** The event is a transaction that the ledger accepts in this state. */
  predicate Accepted(c: Crypto, s: State, e: Event) {
    e.Submit? && Process(c, s, e.tx).Ok?
  }

  /** The supplies of all GENESIS transactions a run accepts. */
  function IssuedIn(c: Crypto, s: State, es: seq<Event>): nat {
    if es == [] then 0
    else
      var before := Run(c, s, Before(es));
      IssuedIn(c, s, Before(es)) +
      (if Accepted(c, before, Last(es)) && Last(es).tx.payload.Genesis? then Last(es).tx.payload.supply else 0)
  }

  /** How many accepted registrations were charged to their own owner through STORE_AND_PAY. */
  function SelfPaidIn(c: Crypto, s: State, es: seq<Event>): nat {
    if es == [] then 0
    else
      var before := Run(c, s, Before(es));
      SelfPaidIn(c, s, Before(es)) +
      (if Accepted(c, before, Last(es)) && SelfPaid(c, before, Last(es).tx.payload, Last(es).tx.signer) then 1 else 0)
  }

  lemma OutsideSupply(c: Crypto, s: State, e: Event)
    requires Typed(s) && !e.Submit?
    ensures Total(Step(c, s, e)) == Total(s) && (GenesisDone(Step(c, s, e)) <==> GenesisDone(s))
  {
    hide Total;
    match e
    case Setting(key, entries) => TotalWrite(s, SettingAddr(key), SettingRec(entries));
    case Block(num, timestamp, oldest) =>
      TotalTwoWrites(s, BlockAddr(num), BlockRec(num, timestamp), ConfigAddr, ConfigRec(num, oldest));
  }

  lemma BalanceFits(s: State, a: Address)
    ensures Balance(s, a) <= WorthAt(s, a) <= Total(s)
  {
    if a in s {
      TotalSplits(s, a);
    }
  }

  /** The genesis status changes only by GENESIS, which needs it to be unset and sets it. */
  lemma TransitionGenesis(c: Crypto, s: State, signer: string, p: Payload, t: State)
    requires WellFormed(s) && Transition(c, s, signer, p, t)
    requires p.SwapInit? ==> p.receiver.AccountAddr?
    requires GenesisAddr in s ==> GenesisDone(s)
    ensures GenesisAddr in t ==> GenesisDone(t)
    ensures GenesisDone(t) <==> GenesisDone(s) || p.Genesis?
    ensures p.Genesis? ==> !GenesisDone(s)
  {
    hide TimeAt, FeeAt, EconomyOn, KeyFamily.ValidityAllowed, SettingAt;
  }

  /** What holds of the total after any run from the empty state. */
  ghost predicate SupplyHolds(c: Crypto, es: seq<Event>) {
    var s := Run(c, EMPTY, es);
    && WellFormed(s)
    && (GenesisAddr in s ==> GenesisDone(s))
    && (!GenesisDone(s) ==> Total(s) == IssuedIn(c, EMPTY, es) == SelfPaidIn(c, EMPTY, es) == 0)
    && Total(s) == IssuedIn(c, EMPTY, es) + KeyFamily.STORE_PRICE * SelfPaidIn(c, EMPTY, es)
  }

  lemma SubmitSupply(c: Crypto, s: State, tx: Transaction)
    requires WellFormed(s) && Process(c, s, tx).Ok? && NamesAccount(Submit(tx))
    requires GenesisAddr in s ==> GenesisDone(s)
    requires !GenesisDone(s) ==> Total(s) == 0
    ensures var t := Process(c, s, tx).value;
      && Total(t) == Total(s) + (if tx.payload.Genesis? then tx.payload.supply else 0)
                              + (if SelfPaid(c, s, tx.payload, tx.signer) then KeyFamily.STORE_PRICE else 0)
      && (GenesisAddr in t ==> GenesisDone(t))
      && (GenesisDone(t) <==> GenesisDone(s) || tx.payload.Genesis?)
      && (tx.payload.Genesis? ==> !GenesisDone(s))
      && (!GenesisDone(s) ==> !SelfPaid(c, s, tx.payload, tx.signer))
  {
    hide Total;
    hide Process;
    var p, signer, t := tx.payload, tx.signer, Process(c, s, tx).value;
    ProcessIsTransition(c, s, tx);
    TransitionSupply(c, s, signer, p, t);
    TransitionGenesis(c, s, signer, p, t);
    BalanceFits(s, c.AccountOf(signer));
    hide TimeAt, FeeAt, EconomyOn, KeyFamily.ValidityAllowed, SettingAt;
  }

  lemma {:induction false} SupplyHoldsInRuns(c: Crypto, es: seq<Event>)
    requires AllNameAccounts(es)
    ensures SupplyHolds(c, es)
  {
    hide Total, Process;
    if es == [] {
      TotalEmpty();
    } else {
      var before, e := Run(c, EMPTY, Before(es)), Last(es);
      SupplyHoldsInRuns(c, Before(es));
      StepKeepsWellFormed(c, before, e);
      if !e.Submit? {
        OutsideSupply(c, before, e);
      } else if Accepted(c, before, e) {
        SubmitSupply(c, before, e.tx);
      }
    }
  }

  lemma TotalEmpty()
    ensures Total(EMPTY) == 0
  {
  }

  lemma {:induction false} GenesisFixesSupply(c: Crypto, es: seq<Event>, i: nat)
    requires AllNameAccounts(es) && i < |es|
    requires Accepted(c, Run(c, EMPTY, es[..i]), es[i]) && es[i].tx.payload.Genesis?
    ensures GenesisDone(Run(c, EMPTY, es)) && IssuedIn(c, EMPTY, es) == es[i].tx.payload.supply
  {
    hide Total, Process;
    var before, e := Run(c, EMPTY, Before(es)), Last(es);
    SupplyHoldsInRuns(c, Before(es));
    if i < |es| - 1 {
      assert Before(es)[..i] == es[..i];
      GenesisFixesSupply(c, Before(es), i);
    }
    if !e.Submit? {
      OutsideSupply(c, before, e);
    } else if Accepted(c, before, e) {
      SubmitSupply(c, before, e.tx);
    }
  }

  /** Conservation over every run: nothing exists before GENESIS, and afterwards balances and live
      swaps add up to the genesis supply and the price of every self-paid registration. */
  lemma TokenConservation(c: Crypto, es: seq<Event>)
    requires AllNameAccounts(es)
    ensures !GenesisDone(Run(c, EMPTY, es)) ==> Total(Run(c, EMPTY, es)) == 0
    ensures forall i | 0 <= i < |es| && Accepted(c, Run(c, EMPTY, es[..i]), es[i]) && es[i].tx.payload.Genesis? ::
      Total(Run(c, EMPTY, es)) == es[i].tx.payload.supply + KeyFamily.STORE_PRICE * SelfPaidIn(c, EMPTY, es)
  {
    SupplyHoldsInRuns(c, es);
    forall i | 0 <= i < |es| && Accepted(c, Run(c, EMPTY, es[..i]), es[i]) && es[i].tx.payload.Genesis?
      ensures IssuedIn(c, EMPTY, es) == es[i].tx.payload.supply
    {
      GenesisFixesSupply(c, es, i);
    }
  }

  lemma PayoutFits(s: State, a: Address, to: Address)
    requires Total(s) <= MAX_U64 && HasLiveSwap(s, a)
    ensures Balance(s, to) + s[a].swap.amount <= MAX_U64
  {
    hide Total;
    TotalSplits(s, a);
    if a != to {
      TwoWorthsFit(s, a, to);
    }
  }
}
