/** Every accepted transaction is a transition: the handlers, which read a restricted view and
    return updates, refine the relation over whole states. */
module Effects {
  import opened Wrappers
  import opened Records
  import opened StateView
  import opened Forms
  import opened Ledger
  import opened Transitions
  import AccountFamily
  import SwapFamily
  import KeyFamily

  function ClockAddresses(s: State): set<Address> {
    {ConfigAddr} + (if ConfigAddr in s && s[ConfigAddr].ConfigRec? then {BlockAddr(s[ConfigAddr].latest)} else {})
  }

  lemma AccountReads(s: State, inputs: seq<Scope>, a: Address)
    ensures ReadAccount(View(s, inputs), a) == if Covers(inputs, a) then Ok(AccountAt(s, a)) else Err(Unauthorized)
  {
  }

  lemma LiveSwapReads(s: State, inputs: seq<Scope>, a: Address)
    ensures var r := SwapFamily.LiveSwap(View(s, inputs), a);
      && r != Err(OutOfRange)
      && (r.Ok? <==> Covers(inputs, a) && HasLiveSwap(s, a))
      && (r.Ok? ==> r.value == s[a].swap)
  {
  }

  lemma ClockReads(s: State, inputs: seq<Scope>)
    ensures var r := SwapFamily.LatestTime(View(s, inputs));
      && r != Err(OutOfRange)
      && (r.Ok? <==> TimeAt(s).Some? && forall a | a in ClockAddresses(s) :: Covers(inputs, a))
      && (r.Ok? ==> r.value == TimeAt(s).value)
  {
  }

  lemma CommissionReads(c: Crypto, s: State, inputs: seq<Scope>)
    ensures var r := SwapFamily.Commission(c, View(s, inputs));
      && r != Err(OutOfRange)
      && (r.Ok? ==> r.value == FeeAt(c, s) && Covers(inputs, SettingAddr(SwapFamily.COMMISSION_KEY)))
      && (Covers(inputs, SettingAddr(SwapFamily.COMMISSION_KEY)) && FeeAt(c, s) > 0 ==> r.Ok?)
  {
    if Covers(inputs, SettingAddr(SwapFamily.COMMISSION_KEY)) {
      assert ReadSetting(View(s, inputs), SwapFamily.COMMISSION_KEY) == Ok(SettingAt(s, SwapFamily.COMMISSION_KEY));
    }
  }

  lemma NewKeyReads(c: Crypto, s: State, inputs: seq<Scope>, payload: KeyPayload, first: Address, second: Address)
    ensures var r := KeyFamily.NewKey(c, View(s, inputs), payload, first, second);
      && r != Err(OutOfRange)
      && (r.Ok? <==>
            && payload.config.Some? && c.keyVerifies(payload) && Covers(inputs, c.KeyOf(payload.config.value))
            && Covers(inputs, first) && Covers(inputs, second)
            && !HasKey(s, c.KeyOf(payload.config.value)) && KeyFamily.ValidityAllowed(payload))
  {
    AccountReads(s, inputs, first);
    AccountReads(s, inputs, second);
    hide ReadAccount, Covers;
  }

  lemma TransferFromUpdate(s: State, inputs: seq<Scope>, from: Address, to: Address, value: U64)
    requires AccountFamily.TransferFrom(View(s, inputs), from, to, value).Ok?
    ensures from != to && to.IsAccount() && 0 < value <= Balance(s, from)
    ensures Balance(s, to) + value <= MAX_U64
    ensures AccountFamily.TransferFrom(View(s, inputs), from, to, value).value
         == map[from := AccountRec(AccountAt(s, from).(balance := Balance(s, from) - value)),
                to := AccountRec(AccountAt(s, to).(balance := Balance(s, to) + value))]
  {
    AccountReads(s, inputs, from);
    AccountReads(s, inputs, to);
  }

  lemma GenesisEffect(c: Crypto, s: State, inputs: seq<Scope>, signer: string, supply: U64, u: Update)
    requires AccountFamily.Genesis(c, View(s, inputs), signer, supply) == Ok(u)
    ensures Issues(c, s, signer, supply, s + u)
  {
  }

  lemma TransferEffect(c: Crypto, s: State, inputs: seq<Scope>, signer: string, to: Address, value: U64, u: Update)
    requires AccountFamily.Transfer(c, View(s, inputs), signer, to, value) == Ok(u)
    ensures Transfers(c, s, signer, to, value, s + u)
  {
    TransferFromUpdate(s, inputs, c.AccountOf(signer), to, value);
  }

  lemma InitTermsEffect(c: Crypto, s: State, inputs: seq<Scope>, sender: Address, id: string, amount: U64)
    requires SwapFamily.InitTerms(c, View(s, inputs), sender, id, amount).Ok?
    ensures !HasSwap(s, c.SwapOf(id)) && TimeAt(s).Some? && 0 <= FeeAt(c, s) <= Balance(s, sender) - amount
    ensures SwapFamily.InitTerms(c, View(s, inputs), sender, id, amount) == Ok((TimeAt(s).value, FeeAt(c, s)))
  {
    CommissionReads(c, s, inputs);
    ClockReads(s, inputs);
    AccountReads(s, inputs, sender);
  }

  lemma OpenEffect(c: Crypto, s: State, inputs: seq<Scope>, swap: Swap, fee: U64, u: Update)
    requires swap.sender.AccountAddr? && SwapFamily.Open(c, View(s, inputs), swap, fee) == Ok(u)
    ensures 0 < fee <= Balance(s, swap.sender) - swap.amount && Balance(s, ZeroAddr) + fee <= MAX_U64
    ensures s + u == s[c.SwapOf(swap.id) := SwapRec(swap)]
                      [swap.sender := Rebalanced(s, swap.sender, Balance(s, swap.sender) - swap.amount - fee)]
                      [ZeroAddr := Rebalanced(s, ZeroAddr, Balance(s, ZeroAddr) + fee)]
  {
    TransferFromUpdate(s, inputs, swap.sender, ZeroAddr, fee);
  }

  /** INIT is the inner transfer of the commission, with the amount taken off the sender as well. */
  lemma InitEffect(c: Crypto, s: State, inputs: seq<Scope>, signer: string,
                   id: string, receiver: Address, amount: U64, lock: string, u: Update)
    requires SwapFamily.Init(c, View(s, inputs), signer, id, receiver, amount, lock) == Ok(u)
    ensures Opens(c, s, signer, id, receiver, amount, lock, s + u)
  {
    hide SwapFamily.InitTerms, SwapFamily.Open, TimeAt, FeeAt;
    InitTermsEffect(c, s, inputs, c.AccountOf(signer), id, amount);
    var swap := SwapFamily.NewSwap(c, signer, id, receiver, amount, lock, TimeAt(s).value);
    OpenEffect(c, s, inputs, swap, FeeAt(c, s), u);
  }

  lemma SetLockEffect(c: Crypto, s: State, inputs: seq<Scope>, id: string, lock: string, u: Update)
    requires SwapFamily.SetLock(c, View(s, inputs), id, lock) == Ok(u)
    ensures Locks(c, s, id, lock, s + u)
  {
    LiveSwapReads(s, inputs, c.SwapOf(id));
  }

  lemma ApproveEffect(c: Crypto, s: State, inputs: seq<Scope>, signer: string, id: string, u: Update)
    requires SwapFamily.Approve(c, View(s, inputs), signer, id) == Ok(u)
    ensures Approves(c, s, signer, id, s + u)
  {
    LiveSwapReads(s, inputs, c.SwapOf(id));
  }

  lemma ExpireEffect(c: Crypto, s: State, inputs: seq<Scope>, signer: string, id: string, u: Update)
    requires SwapFamily.Expire(c, View(s, inputs), signer, id) == Ok(u)
    ensures Expires(c, s, signer, id, s + u)
  {
    LiveSwapReads(s, inputs, c.SwapOf(id));
    ClockReads(s, inputs);
    AccountReads(s, inputs, s[c.SwapOf(id)].swap.sender);
  }

  lemma CloseEffect(c: Crypto, s: State, inputs: seq<Scope>, id: string, secret: string, u: Update)
    requires SwapFamily.Close(c, View(s, inputs), id, secret) == Ok(u)
    ensures Closes(c, s, id, secret, s + u)
  {
    LiveSwapReads(s, inputs, c.SwapOf(id));
    AccountReads(s, inputs, s[c.SwapOf(id)].swap.receiver);
  }

  lemma ChargeEffect(s: State, inputs: seq<Scope>, from: Address)
    requires from.AccountAddr? && KeyFamily.Charge(View(s, inputs), from).Ok?
    ensures Price(s) <= Balance(s, from) && Balance(s, ZeroAddr) + Price(s) <= MAX_U64
    ensures KeyFamily.Charge(View(s, inputs), from).value ==
      if EconomyOn(s)
      then Some(map[from := Rebalanced(s, from, Balance(s, from) - Price(s)),
                    ZeroAddr := Rebalanced(s, ZeroAddr, Balance(s, ZeroAddr) + Price(s))])
      else None
  {
    assert ReadSetting(View(s, inputs), KeyFamily.ECONOMY_KEY) == Ok(SettingAt(s, KeyFamily.ECONOMY_KEY));
    if EconomyOn(s) {
      TransferFromUpdate(s, inputs, from, ZeroAddr, KeyFamily.STORE_PRICE);
    }
  }

  lemma WithChargeEffect(s: State, inputs: seq<Scope>, update: Update, payer: Address, u: Update)
    requires payer.AccountAddr? && ZeroAddr !in update
    requires payer in update && update[payer] == AccountRec(AccountAt(s, payer))
    requires KeyFamily.WithCharge(View(s, inputs), update, payer) == Ok(u)
    ensures Price(s) <= Balance(s, payer) && Balance(s, ZeroAddr) + Price(s) <= MAX_U64
    ensures u[payer] == Rebalanced(s, payer, Balance(s, payer) - Price(s))
    ensures s + u == PaidIn(s) + update[payer := Rebalanced(s, payer, Balance(s, payer) - Price(s))]
  {
    ChargeEffect(s, inputs, payer);
  }

  /** The charge of STORE falls on the account that is then linked to the key. */
  lemma StoreCharge(s: State, inputs: seq<Scope>, me: Address, key: Address, info: KeyInfo, charged: Update,
                    last: Record)
    requires me.AccountAddr? && key.KeyAddr?
    requires KeyFamily.WithCharge(View(s, inputs),
               map[me := AccountRec(AccountAt(s, me)), key := KeyRec(info)], me) == Ok(charged)
    ensures Price(s) <= Balance(s, me) && Balance(s, ZeroAddr) + Price(s) <= MAX_U64
    ensures me in charged && charged[me] == Rebalanced(s, me, Balance(s, me) - Price(s))
    ensures s + charged[me := last] == PaidIn(s)[key := KeyRec(info)][me := last]
  {
    WithChargeEffect(s, inputs, map[me := AccountRec(AccountAt(s, me)), key := KeyRec(info)], me, charged);
    assert s + charged[me := last] == (s + charged)[me := last];
  }

  /** STORE: the signer pays, then its account, as charged, lists the key. */
  lemma StoreEffect(c: Crypto, s: State, inputs: seq<Scope>, signer: string, payload: KeyPayload, u: Update)
    requires KeyFamily.Store(c, View(s, inputs), signer, payload) == Ok(u)
    ensures Stores(c, s, signer, payload, s + u)
  {
    var me, v := c.AccountOf(signer), View(s, inputs);
    NewKeyReads(c, s, inputs, payload, me, me);
    var key, info := c.KeyOf(payload.config.value), KeyInfo(signer, payload, false);
    AccountReads(s, inputs, me);
    var charged := KeyFamily.WithCharge(v, map[me := AccountRec(AccountAt(s, me)), key := KeyRec(info)], me).value;
    StoreCharge(s, inputs, me, key, info, charged, u[me]);
  }

  /** The charge of STORE_AND_PAY falls on the payer, and the owner's record is then written over it. */
  lemma StoreForCharge(s: State, inputs: seq<Scope>, owner: Address, payer: Address, key: Address, info: KeyInfo,
                       charged: Update, last: Record)
    requires owner.AccountAddr? && payer.AccountAddr? && key.KeyAddr?
    requires KeyFamily.WithCharge(View(s, inputs),
               map[owner := AccountRec(AccountAt(s, owner)), payer := AccountRec(AccountAt(s, payer)),
                 key := KeyRec(info)],
               payer) == Ok(charged)
    ensures Price(s) <= Balance(s, payer) && Balance(s, ZeroAddr) + Price(s) <= MAX_U64
    ensures s + charged[owner := last]
         == PaidIn(s)[payer := Rebalanced(s, payer, Balance(s, payer) - Price(s))][key := KeyRec(info)][owner := last]
  {
    hide EconomyOn, KeyFamily.WithCharge, PaidIn;
    WithChargeEffect(s, inputs,
      map[owner := AccountRec(AccountAt(s, owner)), payer := AccountRec(AccountAt(s, payer)), key := KeyRec(info)],
      payer, charged);
    assert s + charged[owner := last] == (s + charged)[owner := last];
  }

  /** STORE_AND_PAY: the signer pays, but the owner's account is written as it was before the charge. */
  lemma StoreForEffect(c: Crypto, s: State, inputs: seq<Scope>, signer: string,
                       payload: KeyPayload, owner: string, signature: string, u: Update)
    requires KeyFamily.StoreFor(c, View(s, inputs), signer, payload, owner, signature) == Ok(u)
    ensures StoresFor(c, s, signer, payload, owner, s + u)
  {
    var listed, payer, v := c.AccountOf(owner), c.AccountOf(signer), View(s, inputs);
    NewKeyReads(c, s, inputs, payload, listed, payer);
    var key, info := c.KeyOf(payload.config.value), KeyInfo(owner, payload, false);
    AccountReads(s, inputs, listed);
    AccountReads(s, inputs, payer);
    var charged := KeyFamily.WithCharge(v,
      map[listed := AccountRec(AccountAt(s, listed)), payer := AccountRec(AccountAt(s, payer)), key := KeyRec(info)],
      payer).value;
    StoreForCharge(s, inputs, listed, payer, key, info, charged, u[listed]);
  }

  lemma RevokeEffect(s: State, inputs: seq<Scope>, signer: string, a: Address, u: Update)
    requires KeyFamily.Revoke(View(s, inputs), signer, a) == Ok(u)
    ensures Revokes(s, signer, a, s + u)
  {
  }

  /** The handlers refine the transition relation. */
  lemma ProcessIsTransition(c: Crypto, s: State, tx: Transaction)
    requires Process(c, s, tx).Ok?
    ensures tx.payload.Transfer? ==> tx.payload.to != ZeroAddr
    ensures tx.payload.SwapInit? ==> tx.payload.receiver != ZeroAddr
    ensures FormValid(c, tx.payload) && Transition(c, s, tx.signer, tx.payload, Process(c, s, tx).value)
  {
    var u := Effect(c, s, tx).value;
    ZeroIsNoField(c);
    match tx.payload
    case Genesis(supply) => GenesisEffect(c, s, tx.inputs, tx.signer, supply, u);
    case Transfer(to, value) => TransferEffect(c, s, tx.inputs, tx.signer, to, value, u);
    case SwapInit(id, receiver, amount, lock) => InitEffect(c, s, tx.inputs, tx.signer, id, receiver, amount, lock, u);
    case SwapSetLock(id, lock) => SetLockEffect(c, s, tx.inputs, id, lock, u);
    case SwapApprove(id) => ApproveEffect(c, s, tx.inputs, tx.signer, id, u);
    case SwapExpire(id) => ExpireEffect(c, s, tx.inputs, tx.signer, id, u);
    case SwapClose(id, secret) => CloseEffect(c, s, tx.inputs, id, secret, u);
    case StoreKey(key) => StoreEffect(c, s, tx.inputs, tx.signer, key, u);
    case StoreKeyFor(key, owner, signature) => StoreForEffect(c, s, tx.inputs, tx.signer, key, owner, signature, u);
    case RevokeKey(a) => RevokeEffect(s, tx.inputs, tx.signer, a, u);
  }
}
