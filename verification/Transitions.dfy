/** The ledger as a transition relation over whole states, with no inputs, views or updates:
    when each operation may happen and what it leaves behind. */
module Transitions {
  import opened Wrappers
  import opened Records
  import opened StateView
  import opened Ledger
  import SwapFamily
  import KeyFamily

  /** The time of the latest block, if there is one. */
  function TimeAt(s: State): Option<nat> {
    if ConfigAddr in s && s[ConfigAddr].ConfigRec? then
      var a := BlockAddr(s[ConfigAddr].latest);
      if a in s && s[a].BlockRec? then Some(s[a].timestamp) else None
    else None
  }

  function FeeAt(c: Crypto, s: State): int {
    var setting := SettingAt(s, SwapFamily.COMMISSION_KEY);
    if setting.Some? && c.parseInt(setting.value).Some? then c.parseInt(setting.value).value else 0
  }

  predicate EconomyOn(s: State) {
    KeyFamily.IsEnabled(SettingAt(s, KeyFamily.ECONOMY_KEY))
  }

  /** What storing a key costs in this state. */
  function Price(s: State): U64 {
    if EconomyOn(s) then KeyFamily.STORE_PRICE else 0
  }

  predicate GenesisDone(s: State) {
    GenesisAddr in s && s[GenesisAddr] == GenesisRec(true)
  }

  predicate HasSwap(s: State, a: Address) {
    a in s && s[a].SwapRec?
  }

  predicate HasLiveSwap(s: State, a: Address) {
    HasSwap(s, a) && !s[a].swap.Finished()
  }

  predicate HasKey(s: State, a: Address) {
    a in s && s[a].KeyRec?
  }

  /** The account stored at `a`, with another balance. */
  function Rebalanced(s: State, a: Address, balance: int): Record
    requires 0 <= balance <= MAX_U64
  {
    AccountRec(AccountAt(s, a).(balance := balance))
  }

  /** The genesis status GENESIS writes back: a status already stored is kept. */
  function StatusAfterGenesis(s: State): bool {
    if GenesisAddr in s && s[GenesisAddr].GenesisRec? then s[GenesisAddr].status else true
  }

  ghost predicate Issues(c: Crypto, s: State, signer: string, supply: U64, t: State) {
    && !GenesisDone(s)
    && t == s[c.AccountOf(signer) := AccountRec(Account(supply, []))][GenesisAddr := GenesisRec(StatusAfterGenesis(s))]
  }

  ghost predicate Transfers(c: Crypto, s: State, signer: string, to: Address, value: U64, t: State) {
    var from := c.AccountOf(signer);
    && from != to && to.IsAccount() && 0 < value <= Balance(s, from) && Balance(s, to) + value <= MAX_U64
    && t == s[from := Rebalanced(s, from, Balance(s, from) - value)][to := Rebalanced(s, to, Balance(s, to) + value)]
  }

  /** The sender pays the amount into the swap record and the commission to the zero address. */
  ghost predicate Opens(c: Crypto, s: State, signer: string, id: string, receiver: Address, amount: U64, lock: string,
                        t: State) {
    var a, me, fee := c.SwapOf(id), c.AccountOf(signer), FeeAt(c, s);
    && !HasSwap(s, a) && TimeAt(s).Some?
    && 0 < fee <= Balance(s, me) - amount && Balance(s, ZeroAddr) + fee <= MAX_U64
    && t == s[a := SwapRec(SwapFamily.NewSwap(c, signer, id, receiver, amount, lock, TimeAt(s).value))]
             [me := Rebalanced(s, me, Balance(s, me) - amount - fee)]
             [ZeroAddr := Rebalanced(s, ZeroAddr, Balance(s, ZeroAddr) + fee)]
  }

  ghost predicate Locks(c: Crypto, s: State, id: string, lock: string, t: State) {
    var a := c.SwapOf(id);
    && HasLiveSwap(s, a) && s[a].swap.lock == ""
    && t == s[a := SwapRec(s[a].swap.(lock := lock, state := LockProvided))]
  }

  ghost predicate Approves(c: Crypto, s: State, signer: string, id: string, t: State) {
    var a := c.SwapOf(id);
    && HasLiveSwap(s, a) && s[a].swap.isInitiator && s[a].swap.sender == c.AccountOf(signer)
    && s[a].swap.lock != "" && s[a].swap.state == LockProvided
    && t == s[a := SwapRec(s[a].swap.(state := Approved))]
  }

  ghost predicate Expires(c: Crypto, s: State, signer: string, id: string, t: State) {
    var a := c.SwapOf(id);
    && HasLiveSwap(s, a) && TimeAt(s).Some?
    && var swap := s[a].swap;
       && swap.sender == c.AccountOf(signer)
       && swap.createdAt + SwapFamily.TimeLock(swap.isInitiator) <= TimeAt(s).value
       && Balance(s, swap.sender) + swap.amount <= MAX_U64
       && t == s[a := SwapRec(swap.(state := Expired))]
                [swap.sender := Rebalanced(s, swap.sender, Balance(s, swap.sender) + swap.amount)]
  }

  ghost predicate Closes(c: Crypto, s: State, id: string, secret: string, t: State) {
    var a := c.SwapOf(id);
    && HasLiveSwap(s, a)
    && var swap := s[a].swap;
       && swap.lock != "" && c.keccak(secret) == Some(swap.lock)
       && (swap.isInitiator ==> swap.state == Approved)
       && Balance(s, swap.receiver) + swap.amount <= MAX_U64
       && t == s[a := SwapRec(swap.(state := Closed, secretKey := secret))]
                [swap.receiver := Rebalanced(s, swap.receiver, Balance(s, swap.receiver) + swap.amount)]
  }

  /** The state with the storing price added at the zero address; unchanged when nothing is charged. */
  function PaidIn(s: State): State
    requires Balance(s, ZeroAddr) + Price(s) <= MAX_U64
  {
    if EconomyOn(s) then s[ZeroAddr := Rebalanced(s, ZeroAddr, Balance(s, ZeroAddr) + Price(s))] else s
  }

  ghost predicate MayStore(c: Crypto, s: State, payer: Address, payload: KeyPayload) {
    && payload.config.Some? && KeyFamily.ValidityAllowed(payload) && !HasKey(s, c.KeyOf(payload.config.value))
    && Price(s) <= Balance(s, payer) && Balance(s, ZeroAddr) + Price(s) <= MAX_U64
  }

  /** The signer pays, then its account, as charged, lists the key. */
  ghost predicate Stores(c: Crypto, s: State, signer: string, payload: KeyPayload, t: State) {
    var me := c.AccountOf(signer);
    && MayStore(c, s, me, payload)
    && var key := c.KeyOf(payload.config.value);
       t == PaidIn(s)[key := KeyRec(KeyInfo(signer, payload, false))]
                     [me := AccountRec(KeyFamily.Linked(AccountAt(s, me).(balance := Balance(s, me) - Price(s)), key))]
  }

  /** The signer pays, but the owner's account is written as it was before the charge. */
  ghost predicate StoresFor(c: Crypto, s: State, signer: string, payload: KeyPayload, owner: string, t: State) {
    var listed, payer := c.AccountOf(owner), c.AccountOf(signer);
    && MayStore(c, s, payer, payload)
    && var key := c.KeyOf(payload.config.value);
       t == PaidIn(s)[payer := Rebalanced(s, payer, Balance(s, payer) - Price(s))]
                     [key := KeyRec(KeyInfo(owner, payload, false))]
                     [listed := AccountRec(KeyFamily.Linked(AccountAt(s, listed), key))]
  }

  ghost predicate Revokes(s: State, signer: string, a: Address, t: State) {
    && HasKey(s, a) && s[a].info.owner == signer && !s[a].info.revoked
    && t == s[a := KeyRec(s[a].info.(revoked := true))]
  }

  ghost predicate Transition(c: Crypto, s: State, signer: string, p: Payload, t: State) {
    match p
    case Genesis(supply) => Issues(c, s, signer, supply, t)
    case Transfer(to, value) => Transfers(c, s, signer, to, value, t)
    case SwapInit(id, receiver, amount, lock) => Opens(c, s, signer, id, receiver, amount, lock, t)
    case SwapSetLock(id, lock) => Locks(c, s, id, lock, t)
    case SwapApprove(id) => Approves(c, s, signer, id, t)
    case SwapExpire(id) => Expires(c, s, signer, id, t)
    case SwapClose(id, secret) => Closes(c, s, id, secret, t)
    case StoreKey(key) => Stores(c, s, signer, key, t)
    case StoreKeyFor(key, owner, _) => StoresFor(c, s, signer, key, owner, t)
    case RevokeKey(a) => Revokes(s, signer, a, t)
  }
}
