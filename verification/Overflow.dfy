/** Exactly when a credit does not fit its uint64 field. */
module Overflow {
  import opened Wrappers
  import opened Records
  import opened StateView
  import opened Forms
  import opened Ledger
  import opened Transitions
  import opened Effects
  import opened Acceptance
  import opened Invariants
  import opened Supply
  import opened Room
  import opened SwapClient
  import AccountFamily
  import SwapFamily
  import KeyFamily

  predicate Exceeds(s: State, a: Address, amount: nat) {
    Balance(s, a) + amount > MAX_U64
  }

  predicate ChargeOverflows(c: Crypto, s: State, payer: Address, payload: KeyPayload) {
    && payload.config.Some? && KeyFamily.ValidityAllowed(payload) && !HasKey(s, c.KeyOf(payload.config.value))
    && EconomyOn(s) && KeyFamily.STORE_PRICE <= Balance(s, payer) && Exceeds(s, ZeroAddr, KeyFamily.STORE_PRICE)
  }

  predicate FeeOverflows(c: Crypto, s: State, payer: Address, id: string, amount: U64) {
    var fee := FeeAt(c, s);
    && !HasSwap(s, c.SwapOf(id)) && TimeAt(s).Some?
    && 0 < fee <= Balance(s, payer) - amount && Exceeds(s, ZeroAddr, fee)
  }

  /** Nothing but the size of the balance to be credited stands in the way of the operation. */
  predicate Overflows(c: Crypto, s: State, signer: string, p: Payload) {
    var me := c.AccountOf(signer);
    match p
    case Transfer(to, value) =>
      me != to && to.IsAccount() && 0 < value <= Balance(s, me) && Exceeds(s, to, value)
    case SwapInit(id, _, amount, _) => FeeOverflows(c, s, me, id, amount)
    case SwapExpire(id) =>
      && HasLiveSwap(s, c.SwapOf(id)) && TimeAt(s).Some?
      && var swap := s[c.SwapOf(id)].swap;
         && swap.sender == me && swap.createdAt + SwapFamily.TimeLock(swap.isInitiator) <= TimeAt(s).value
         && Exceeds(s, me, swap.amount)
    case SwapClose(id, _) =>
      MayClose(c, s, p) && Exceeds(s, s[c.SwapOf(id)].swap.receiver, s[c.SwapOf(id)].swap.amount)
    case StoreKey(key) => ChargeOverflows(c, s, me, key)
    case StoreKeyFor(key, _, _) => ChargeOverflows(c, s, me, key)
    case _ => false
  }

  ghost predicate ReadsCovered(c: Crypto, s: State, inputs: seq<Scope>, signer: string, p: Payload) {
    forall a | a in Reads(c, s, signer, p) :: Covers(inputs, a)
  }

  lemma TransferOverflows(s: State, inputs: seq<Scope>, from: Address, to: Address, value: U64)
    ensures AccountFamily.TransferFrom(View(s, inputs), from, to, value) == Err(OutOfRange) <==>
      && Covers(inputs, from) && Covers(inputs, to)
      && from != to && to.IsAccount() && 0 < value <= Balance(s, from) && Exceeds(s, to, value)
  {
  }

  lemma InitOverflows(c: Crypto, s: State, inputs: seq<Scope>, signer: string, p: Payload)
    requires p.SwapInit?
    ensures Handle(c, View(s, inputs), signer, p) == Err(OutOfRange) <==>
      ReadsCovered(c, s, inputs, signer, p) && Overflows(c, s, signer, p)
  {
    var v, me, fee := View(s, inputs), c.AccountOf(signer), FeeAt(c, s);
    ClockReads(s, inputs);
    CommissionReads(c, s, inputs);
    AccountReads(s, inputs, me);
    hide SwapFamily.LatestTime, SwapFamily.Commission, ReadAccount, FeeAt, TimeAt, ClockAddresses,
         AccountFamily.TransferFrom;
    if SwapFamily.InitTerms(c, v, me, p.swapId, p.amount).Ok? {
      InitTermsEffect(c, s, inputs, me, p.swapId, p.amount);
      TransferOverflows(s, inputs, me, ZeroAddr, fee);
      if AccountFamily.TransferFrom(v, me, ZeroAddr, fee).Ok? {
        TransferFromUpdate(s, inputs, me, ZeroAddr, fee);
      }
    }
  }

  lemma ExpireOverflows(c: Crypto, s: State, inputs: seq<Scope>, signer: string, p: Payload)
    requires p.SwapExpire?
    ensures Handle(c, View(s, inputs), signer, p) == Err(OutOfRange) <==>
      ReadsCovered(c, s, inputs, signer, p) && Overflows(c, s, signer, p)
  {
    ClockReads(s, inputs);
    LiveSwapReads(s, inputs, c.SwapOf(p.swapId));
    AccountReads(s, inputs, c.AccountOf(signer));
    hide SwapFamily.LatestTime, SwapFamily.LiveSwap, ReadAccount, TimeAt, ClockAddresses, Covers;
  }

  lemma CloseOverflows(c: Crypto, s: State, inputs: seq<Scope>, signer: string, p: Payload)
    requires p.SwapClose? && FormValid(c, p)
    ensures Handle(c, View(s, inputs), signer, p) == Err(OutOfRange) <==>
      ReadsCovered(c, s, inputs, signer, p) && Overflows(c, s, signer, p)
  {
    var a := c.SwapOf(p.swapId);
    LiveSwapReads(s, inputs, a);
    if HasLiveSwap(s, a) {
      AccountReads(s, inputs, s[a].swap.receiver);
    }
    hide SwapFamily.LiveSwap, ReadAccount, Covers, IsSwapId;
  }

  lemma ChargeOverflowsIff(s: State, inputs: seq<Scope>, payer: Address)
    requires payer.AccountAddr?
    ensures KeyFamily.Charge(View(s, inputs), payer) == Err(OutOfRange) <==>
      && Covers(inputs, SettingAddr(KeyFamily.ECONOMY_KEY)) && Covers(inputs, payer) && Covers(inputs, ZeroAddr)
      && EconomyOn(s) && KeyFamily.STORE_PRICE <= Balance(s, payer) && Exceeds(s, ZeroAddr, KeyFamily.STORE_PRICE)
  {
    if Covers(inputs, SettingAddr(KeyFamily.ECONOMY_KEY)) {
      assert ReadSetting(View(s, inputs), KeyFamily.ECONOMY_KEY) == Ok(SettingAt(s, KeyFamily.ECONOMY_KEY));
    }
    TransferOverflows(s, inputs, payer, ZeroAddr, KeyFamily.STORE_PRICE);
    hide AccountFamily.TransferFrom, Covers;
  }

  lemma StoreOverflows(c: Crypto, s: State, inputs: seq<Scope>, signer: string, p: Payload)
    requires p.StoreKey?
    ensures Handle(c, View(s, inputs), signer, p) == Err(OutOfRange) <==>
      SignaturesGood(c, p) && ReadsCovered(c, s, inputs, signer, p) && Overflows(c, s, signer, p)
  {
    var me := c.AccountOf(signer);
    NewKeyReads(c, s, inputs, p.key, me, me);
    AccountReads(s, inputs, me);
    ChargeOverflowsIff(s, inputs, me);
    hide KeyFamily.NewKey, KeyFamily.Charge, ReadAccount, Covers, EconomyOn, HasKey, KeyFamily.ValidityAllowed,
         KeyFamily.Linked;
  }

  lemma StoreForOverflows(c: Crypto, s: State, inputs: seq<Scope>, signer: string, p: Payload)
    requires p.StoreKeyFor?
    ensures Handle(c, View(s, inputs), signer, p) == Err(OutOfRange) <==>
      SignaturesGood(c, p) && ReadsCovered(c, s, inputs, signer, p) && Overflows(c, s, signer, p)
  {
    var me, listed := c.AccountOf(signer), c.AccountOf(p.owner);
    NewKeyReads(c, s, inputs, p.key, listed, me);
    AccountReads(s, inputs, me);
    AccountReads(s, inputs, listed);
    ChargeOverflowsIff(s, inputs, me);
    hide KeyFamily.NewKey, KeyFamily.Charge, ReadAccount, Covers, EconomyOn, HasKey, KeyFamily.ValidityAllowed,
         KeyFamily.Linked;
  }

  lemma HandlerOverflows(c: Crypto, s: State, inputs: seq<Scope>, signer: string, p: Payload)
    requires FormValid(c, p)
    ensures Handle(c, View(s, inputs), signer, p) == Err(OutOfRange) <==>
      SignaturesGood(c, p) && ReadsCovered(c, s, inputs, signer, p) && Overflows(c, s, signer, p)
  {
    match p
    case Transfer(to, value) => TransferOverflows(s, inputs, c.AccountOf(signer), to, value);
    case SwapInit(_, _, _, _) => InitOverflows(c, s, inputs, signer, p);
    case SwapExpire(_) => ExpireOverflows(c, s, inputs, signer, p);
    case SwapClose(_, _) => CloseOverflows(c, s, inputs, signer, p);
    case StoreKey(_) => StoreOverflows(c, s, inputs, signer, p);
    case StoreKeyFor(_, _, _) => StoreForOverflows(c, s, inputs, signer, p);
    case _ =>
  }

  /** A transaction fails for want of room in a uint64 if and only if it is well-formed, its signatures
      are good, what it reads is declared, and the credited balance is all that stands in the way. */
  lemma OverflowIff(c: Crypto, s: State, tx: Transaction)
    ensures Process(c, s, tx) == Err(OutOfRange) <==>
      && FormValid(c, tx.payload) && SignaturesGood(c, tx.payload)
      && ReadsCovered(c, s, tx.inputs, tx.signer, tx.payload)
      && Overflows(c, s, tx.signer, tx.payload)
  {
    if FormValid(c, tx.payload) {
      HandlerOverflows(c, s, tx.inputs, tx.signer, tx.payload);
    }
    hide Handle, Overflows, ReadsCovered;
  }

  /** Nothing overflows while all tokens together fit a uint64. */
  lemma TotalLeavesRoom(c: Crypto, s: State, signer: string, p: Payload)
    requires Total(s) <= MAX_U64
    ensures !Overflows(c, s, signer, p)
  {
    hide Total, TimeAt, FeeAt, EconomyOn, KeyFamily.ValidityAllowed;
    var me := c.AccountOf(signer);
    TwoWorthsFit(s, me, ZeroAddr);
    match p
    case Transfer(to, _) =>
      if me != to {
        TwoWorthsFit(s, me, to);
      }
    case SwapExpire(id) =>
      if HasLiveSwap(s, c.SwapOf(id)) {
        PayoutFits(s, c.SwapOf(id), me);
      }
    case SwapClose(id, _) =>
      if HasLiveSwap(s, c.SwapOf(id)) {
        PayoutFits(s, c.SwapOf(id), s[c.SwapOf(id)].swap.receiver);
      }
    case _ =>
  }

  /** While the total fits a uint64, no field of any transaction overflows or goes below zero. */
  lemma NoOverflow(c: Crypto, s: State, tx: Transaction)
    requires Total(s) <= MAX_U64
    ensures Process(c, s, tx) != Err(OutOfRange)
  {
    hide Total, Process, Overflows;
    TotalLeavesRoom(c, s, tx.signer, tx.payload);
    OverflowIff(c, s, tx);
  }

  /** The operations that credit the zero address, with every guard but its room. */
  predicate OverflowsZero(c: Crypto, s: State, signer: string, p: Payload) {
    match p
    case SwapInit(id, _, amount, _) => FeeOverflows(c, s, c.AccountOf(signer), id, amount)
    case StoreKey(key) => ChargeOverflows(c, s, c.AccountOf(signer), key)
    case StoreKeyFor(key, _, _) => ChargeOverflows(c, s, c.AccountOf(signer), key)
    case _ => false
  }

  lemma ReachableOverflows(c: Crypto, es: seq<Event>, signer: string, p: Payload)
    requires AllNameAccounts(es) && FormValid(c, p)
    ensures Overflows(c, Run(c, EMPTY, es), signer, p) <==> OverflowsZero(c, Run(c, EMPTY, es), signer, p)
  {
    var s, me := Run(c, EMPTY, es), c.AccountOf(signer);
    ZeroIsNoField(c);
    hide Run, TimeAt, FeeAt, EconomyOn, KeyFamily.ValidityAllowed, IsAddressField;
    match p
    case Transfer(to, _) =>
      if me != to {
        TwoFitInRuns(c, es, me, to);
      }
    case SwapExpire(id) =>
      if HasLiveSwap(s, c.SwapOf(id)) {
        PartiesHaveRoom(c, es, c.SwapOf(id));
      }
    case SwapClose(id, _) =>
      if HasLiveSwap(s, c.SwapOf(id)) {
        PartiesHaveRoom(c, es, c.SwapOf(id));
      }
    case _ =>
  }

  /** After any run, a transaction overflows if and only if it is INIT, STORE or STORE_AND_PAY, all else
      about it is in order, and the zero address has no room for the commission or the price. So
      transfers, withdrawals and closes never overflow. */
  lemma RunOverflowIff(c: Crypto, es: seq<Event>, tx: Transaction)
    requires AllNameAccounts(es)
    ensures var s := Run(c, EMPTY, es);
      Process(c, s, tx) == Err(OutOfRange) <==>
      && FormValid(c, tx.payload) && SignaturesGood(c, tx.payload)
      && ReadsCovered(c, s, tx.inputs, tx.signer, tx.payload)
      && OverflowsZero(c, s, tx.signer, tx.payload)
  {
    hide Process, Run, FormValid, SignaturesGood, ReadsCovered, Overflows, OverflowsZero;
    OverflowIff(c, Run(c, EMPTY, es), tx);
    if FormValid(c, tx.payload) {
      ReachableOverflows(c, es, tx.signer, tx.payload);
    }
  }

  /** Overflow in a run needs self-paid registrations: without them the total is the genesis supply. */
  lemma RunsDoNotOverflow(c: Crypto, es: seq<Event>, tx: Transaction)
    requires AllNameAccounts(es)
    requires IssuedIn(c, EMPTY, es) + KeyFamily.STORE_PRICE * SelfPaidIn(c, EMPTY, es) <= MAX_U64
    ensures Process(c, Run(c, EMPTY, es), tx) != Err(OutOfRange)
  {
    hide Total, Process;
    SupplyHoldsInRuns(c, es);
    NoOverflow(c, Run(c, EMPTY, es), tx);
  }

  /** The transfer an account client sends. */
  function TransferRequest(c: Crypto, signer: string, to: Address, value: U64): Transaction {
    var scopes := [Only(to), Only(c.AccountOf(signer))];
    Transaction(signer, scopes, scopes, Transfer(to, value))
  }

  lemma RequestOverflows(c: Crypto, s: State, signer: string, to: Address, value: U64)
    ensures Process(c, s, TransferRequest(c, signer, to, value)) == Err(OutOfRange) <==>
      IsAddressField(c, to) && Overflows(c, s, signer, Transfer(to, value))
  {
    var tx := TransferRequest(c, signer, to, value);
    assert tx.inputs[0] == Only(to) && tx.inputs[1] == Only(c.AccountOf(signer));
    hide Process, IsAddressField;
    OverflowIff(c, s, tx);
  }

  /** Some transfer from one account to another overflows if and only if the two balances together
      do not fit a uint64. */
  lemma TransferOverflowIff(c: Crypto, s: State, signer: string, to: Address)
    ensures (exists value: U64 :: Process(c, s, TransferRequest(c, signer, to, value)) == Err(OutOfRange)) <==>
      && IsAddressField(c, to) && to.IsAccount() && c.AccountOf(signer) != to
      && Balance(s, c.AccountOf(signer)) + Balance(s, to) > MAX_U64
  {
    hide Process, IsAddressField;
    var me := c.AccountOf(signer);
    if exists value: U64 :: Process(c, s, TransferRequest(c, signer, to, value)) == Err(OutOfRange) {
      var value: U64 :| Process(c, s, TransferRequest(c, signer, to, value)) == Err(OutOfRange);
      RequestOverflows(c, s, signer, to, value);
    }
    RequestOverflows(c, s, signer, to, Balance(s, me));
  }
}
