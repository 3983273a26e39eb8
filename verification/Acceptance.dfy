/** The other half of the refinement: a transition whose addresses are declared and whose signatures
    are good is accepted. */
module Acceptance {
  import opened Wrappers
  import opened Records
  import opened StateView
  import opened Ledger
  import opened Transitions
  import opened Effects
  import AccountFamily
  import SwapFamily
  import KeyFamily

  function PriceAddresses(s: State): set<Address> {
    if EconomyOn(s) then {ZeroAddr} else {}
  }

  function SwapParty(c: Crypto, s: State, p: Payload): set<Address>
    requires p.SwapExpire? || p.SwapClose?
  {
    var a := c.SwapOf(p.swapId);
    if HasSwap(s, a) then {if p.SwapClose? then s[a].swap.receiver else s[a].swap.sender} else {}
  }

  function KeyAddress(c: Crypto, key: KeyPayload): set<Address> {
    if key.config.Some? then {c.KeyOf(key.config.value)} else {}
  }

  /** The addresses an operation writes when it is accepted. */
  function Writes(c: Crypto, s: State, signer: string, p: Payload): set<Address> {
    var me := c.AccountOf(signer);
    match p
    case Genesis(_) => {me, GenesisAddr}
    case Transfer(to, _) => {me, to}
    case SwapInit(id, _, _, _) => {c.SwapOf(id), me, ZeroAddr}
    case SwapSetLock(id, _) => {c.SwapOf(id)}
    case SwapApprove(id) => {c.SwapOf(id)}
    case SwapExpire(id) => {c.SwapOf(id)} + SwapParty(c, s, p)
    case SwapClose(id, _) => {c.SwapOf(id)} + SwapParty(c, s, p)
    case StoreKey(key) => KeyAddress(c, key) + {me} + PriceAddresses(s)
    case StoreKeyFor(key, owner, _) => KeyAddress(c, key) + {me, c.AccountOf(owner)} + PriceAddresses(s)
    case RevokeKey(a) => {a}
  }

  /** The addresses an operation reads. */
  function Reads(c: Crypto, s: State, signer: string, p: Payload): set<Address> {
    var extra :=
      match p
      case Genesis(_) => {GenesisAddr}
      case SwapInit(_, _, _, _) => {SettingAddr(SwapFamily.COMMISSION_KEY)} + ClockAddresses(s)
      case SwapExpire(_) => ClockAddresses(s)
      case StoreKey(_) => {SettingAddr(KeyFamily.ECONOMY_KEY)}
      case StoreKeyFor(_, _, _) => {SettingAddr(KeyFamily.ECONOMY_KEY)}
      case _ => {};
    extra + (if p.Genesis? then {} else Writes(c, s, signer, p))
  }

  /** The cryptographic checks of the storing operations. */
  predicate SignaturesGood(c: Crypto, p: Payload) {
    && (p.StoreKey? || p.StoreKeyFor? ==> c.keyVerifies(p.key))
    && (p.StoreKeyFor? ==> c.ownerSigned(p.owner, p.signature, p.key) == Some(true))
  }

  lemma TransferAccepted(s: State, inputs: seq<Scope>, from: Address, to: Address, value: U64)
    requires from != to && to.IsAccount() && 0 < value <= Balance(s, from) && Balance(s, to) + value <= MAX_U64
    requires Covers(inputs, from) && Covers(inputs, to)
    ensures AccountFamily.TransferFrom(View(s, inputs), from, to, value).Ok?
  {
  }

  lemma InitTermsAccepted(c: Crypto, s: State, inputs: seq<Scope>, signer: string,
                          id: string, receiver: Address, amount: U64, lock: string, t: State)
    requires Opens(c, s, signer, id, receiver, amount, lock, t)
    requires forall a | a in Reads(c, s, signer, SwapInit(id, receiver, amount, lock)) :: Covers(inputs, a)
    ensures Covers(inputs, c.AccountOf(signer)) && Covers(inputs, ZeroAddr)
    ensures SwapFamily.InitTerms(c, View(s, inputs), c.AccountOf(signer), id, amount)
        == Ok((TimeAt(s).value, FeeAt(c, s)))
  {
    hide Covers;
    var read := Reads(c, s, signer, SwapInit(id, receiver, amount, lock));
    assert ClockAddresses(s) <= read
        && {SettingAddr(SwapFamily.COMMISSION_KEY), c.AccountOf(signer), ZeroAddr, c.SwapOf(id)} <= read;
    ClockReads(s, inputs);
    CommissionReads(c, s, inputs);
    AccountReads(s, inputs, c.AccountOf(signer));
    hide Reads, TimeAt, FeeAt, ClockAddresses, SwapFamily.LatestTime, SwapFamily.Commission, ReadAccount;
    assert Covers(inputs, c.SwapOf(id));
  }

  lemma InitAccepted(c: Crypto, s: State, inputs: seq<Scope>, signer: string,
                     id: string, receiver: Address, amount: U64, lock: string, t: State)
    requires Opens(c, s, signer, id, receiver, amount, lock, t)
    requires forall a | a in Reads(c, s, signer, SwapInit(id, receiver, amount, lock)) :: Covers(inputs, a)
    ensures var r := SwapFamily.Init(c, View(s, inputs), signer, id, receiver, amount, lock);
      r.Ok? && r.value.Keys == {c.SwapOf(id), c.AccountOf(signer), ZeroAddr}
  {
    InitTermsAccepted(c, s, inputs, signer, id, receiver, amount, lock, t);
    var me, fee := c.AccountOf(signer), FeeAt(c, s);
    TransferAccepted(s, inputs, me, ZeroAddr, fee);
    TransferFromUpdate(s, inputs, me, ZeroAddr, fee);
    hide SwapFamily.InitTerms, AccountFamily.TransferFrom, FeeAt, TimeAt, Reads, Covers;
  }

  lemma SwapAccepted(c: Crypto, s: State, inputs: seq<Scope>, signer: string, p: Payload, t: State)
    requires Transition(c, s, signer, p, t) && (p.SwapSetLock? || p.SwapApprove? || p.SwapExpire? || p.SwapClose?)
    requires forall a | a in Reads(c, s, signer, p) :: Covers(inputs, a)
    ensures var r := Handle(c, View(s, inputs), signer, p);
      r.Ok? && r.value.Keys <= Writes(c, s, signer, p)
  {
    hide Covers;
    var a := c.SwapOf(p.swapId);
    assert a in Reads(c, s, signer, p);
    LiveSwapReads(s, inputs, a);
    if p.SwapExpire? {
      assert ClockAddresses(s) <= Reads(c, s, signer, p);
      ClockReads(s, inputs);
    }
    if p.SwapExpire? || p.SwapClose? {
      var to := if p.SwapClose? then s[a].swap.receiver else s[a].swap.sender;
      assert to in Reads(c, s, signer, p);
      AccountReads(s, inputs, to);
    }
    hide SwapFamily.LiveSwap, SwapFamily.LatestTime, ReadAccount, Reads, TimeAt, ClockAddresses;
  }

  lemma ChargeAccepted(s: State, inputs: seq<Scope>, payer: Address)
    requires payer.AccountAddr? && Price(s) <= Balance(s, payer) && Balance(s, ZeroAddr) + Price(s) <= MAX_U64
    requires Covers(inputs, payer) && Covers(inputs, SettingAddr(KeyFamily.ECONOMY_KEY))
    requires EconomyOn(s) ==> Covers(inputs, ZeroAddr)
    ensures var r := KeyFamily.Charge(View(s, inputs), payer);
      r.Ok? && (r.value.Some? ==> EconomyOn(s) && r.value.value.Keys == {payer, ZeroAddr})
  {
    assert ReadSetting(View(s, inputs), KeyFamily.ECONOMY_KEY) == Ok(SettingAt(s, KeyFamily.ECONOMY_KEY));
    if EconomyOn(s) {
      TransferAccepted(s, inputs, payer, ZeroAddr, KeyFamily.STORE_PRICE);
    }
  }

  lemma StoreAccepted(c: Crypto, s: State, inputs: seq<Scope>, signer: string, payload: KeyPayload, t: State)
    requires Stores(c, s, signer, payload, t) && c.keyVerifies(payload)
    requires forall a | a in Reads(c, s, signer, StoreKey(payload)) :: Covers(inputs, a)
    ensures var r := KeyFamily.Store(c, View(s, inputs), signer, payload);
      r.Ok? && r.value.Keys <= Writes(c, s, signer, StoreKey(payload))
  {
    hide Covers;
    var me, key := c.AccountOf(signer), c.KeyOf(payload.config.value);
    assert Covers(inputs, key) && Covers(inputs, me) && Covers(inputs, SettingAddr(KeyFamily.ECONOMY_KEY));
    assert EconomyOn(s) ==> ZeroAddr in Reads(c, s, signer, StoreKey(payload));
    ChargeAccepted(s, inputs, me);
    NewKeyReads(c, s, inputs, payload, me, me);
    AccountReads(s, inputs, me);
    hide KeyFamily.NewKey, ReadAccount, KeyFamily.Charge, Reads, EconomyOn;
  }

  lemma StoreForAccepted(c: Crypto, s: State, inputs: seq<Scope>, signer: string,
                         payload: KeyPayload, owner: string, signature: string, t: State)
    requires StoresFor(c, s, signer, payload, owner, t)
    requires c.keyVerifies(payload) && c.ownerSigned(owner, signature, payload) == Some(true)
    requires forall a | a in Reads(c, s, signer, StoreKeyFor(payload, owner, signature)) :: Covers(inputs, a)
    ensures var r := KeyFamily.StoreFor(c, View(s, inputs), signer, payload, owner, signature);
      r.Ok? && r.value.Keys <= Writes(c, s, signer, StoreKeyFor(payload, owner, signature))
  {
    hide Covers;
    var me, listed, key := c.AccountOf(signer), c.AccountOf(owner), c.KeyOf(payload.config.value);
    assert Covers(inputs, key) && Covers(inputs, me) && Covers(inputs, listed)
        && Covers(inputs, SettingAddr(KeyFamily.ECONOMY_KEY));
    assert EconomyOn(s) ==> ZeroAddr in Reads(c, s, signer, StoreKeyFor(payload, owner, signature));
    ChargeAccepted(s, inputs, me);
    NewKeyReads(c, s, inputs, payload, listed, me);
    AccountReads(s, inputs, me);
    AccountReads(s, inputs, listed);
    hide KeyFamily.NewKey, ReadAccount, KeyFamily.Charge, Reads, EconomyOn;
  }

  lemma HandlerAccepts(c: Crypto, s: State, inputs: seq<Scope>, signer: string, p: Payload, t: State)
    requires Transition(c, s, signer, p, t) && SignaturesGood(c, p)
    requires forall a | a in Reads(c, s, signer, p) :: Covers(inputs, a)
    ensures var r := Handle(c, View(s, inputs), signer, p);
      r.Ok? && r.value.Keys <= Writes(c, s, signer, p)
  {
    match p
    case Genesis(_) => assert GenesisAddr in Reads(c, s, signer, p);
    case Transfer(to, value) =>
      assert c.AccountOf(signer) in Reads(c, s, signer, p) && to in Reads(c, s, signer, p);
      TransferAccepted(s, inputs, c.AccountOf(signer), to, value);
    case SwapInit(id, receiver, amount, lock) => InitAccepted(c, s, inputs, signer, id, receiver, amount, lock, t);
    case SwapSetLock(_, _) => SwapAccepted(c, s, inputs, signer, p, t);
    case SwapApprove(_) => SwapAccepted(c, s, inputs, signer, p, t);
    case SwapExpire(_) => SwapAccepted(c, s, inputs, signer, p, t);
    case SwapClose(_, _) => SwapAccepted(c, s, inputs, signer, p, t);
    case StoreKey(key) => StoreAccepted(c, s, inputs, signer, key, t);
    case StoreKeyFor(key, owner, signature) => StoreForAccepted(c, s, inputs, signer, key, owner, signature, t);
    case RevokeKey(a) => assert a in Reads(c, s, signer, p);
  }

  /** A state determines what each operation leads to. */
  lemma TransitionIsDeterministic(c: Crypto, s: State, signer: string, p: Payload, t: State, u: State)
    requires Transition(c, s, signer, p, t) && Transition(c, s, signer, p, u)
    ensures t == u
  {
    hide TimeAt, FeeAt, EconomyOn, SettingAt;
  }

  /** With its addresses declared and its signatures good, a well-formed transaction is accepted, with
      exactly this outcome, if and only if the transition relation allows it. */
  lemma AcceptedIff(c: Crypto, s: State, tx: Transaction, t: State)
    requires FormValid(c, tx.payload) && SignaturesGood(c, tx.payload)
    requires forall a | a in Reads(c, s, tx.signer, tx.payload) :: Covers(tx.inputs, a)
    requires forall a | a in Writes(c, s, tx.signer, tx.payload) :: Covers(tx.outputs, a)
    ensures Process(c, s, tx) == Ok(t) <==> Transition(c, s, tx.signer, tx.payload, t)
  {
    if Process(c, s, tx) == Ok(t) {
      ProcessIsTransition(c, s, tx);
    }
    if Transition(c, s, tx.signer, tx.payload, t) {
      HandlerAccepts(c, s, tx.inputs, tx.signer, tx.payload, t);
      hide Handle, Transition, Reads, Writes;
      assert Process(c, s, tx).Ok?;
      ProcessIsTransition(c, s, tx);
      TransitionIsDeterministic(c, s, tx.signer, tx.payload, t, Process(c, s, tx).value);
    }
  }
}
