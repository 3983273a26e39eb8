/** Transactions of the three families, their application, and runs. */
module Ledger {
  import opened Wrappers
  import opened Records
  import opened StateView
  import opened Forms
  import AccountFamily
  import SwapFamily
  import KeyFamily

  datatype Payload =
    | Genesis(supply: U64)
    | Transfer(to: Address, value: U64)
    | SwapInit(swapId: string, receiver: Address, amount: U64, initLock: string)
    | SwapSetLock(swapId: string, lock: string)
    | SwapApprove(swapId: string)
    | SwapExpire(swapId: string)
    | SwapClose(swapId: string, secretKey: string)
    | StoreKey(key: KeyPayload)
    | StoreKeyFor(key: KeyPayload, owner: string, signature: string)
    | RevokeKey(address: Address)

  datatype Transaction = Transaction(signer: string, inputs: seq<Scope>, outputs: seq<Scope>, payload: Payload)

  predicate KeyFormValid(key: KeyPayload) {
    key.config.Some? && key.config.value != "" && key.validFrom != 0 && key.validTo != 0
  }

  /** The required fields of each payload form. */
  predicate FormValid(c: Crypto, p: Payload) {
    match p
    case Genesis(supply) => supply != 0
    case Transfer(to, value) => IsAddressField(c, to) && value != 0
    case SwapInit(id, receiver, amount, _) => IsSwapId(id) && IsAddressField(c, receiver) && amount != 0
    case SwapSetLock(id, lock) => IsSwapId(id) && Given(lock)
    case SwapApprove(id) => IsSwapId(id)
    case SwapExpire(id) => IsSwapId(id)
    case SwapClose(id, secretKey) => IsSwapId(id) && Given(secretKey)
    case StoreKey(key) => KeyFormValid(key)
    case StoreKeyFor(key, owner, signature) => KeyFormValid(key) && owner != "" && signature != ""
    case RevokeKey(a) => IsAddressField(c, a)
  }

  function Handle(c: Crypto, v: View, signer: string, p: Payload): Result<Update> {
    match p
    case Genesis(supply) => AccountFamily.Genesis(c, v, signer, supply)
    case Transfer(to, value) => AccountFamily.Transfer(c, v, signer, to, value)
    case SwapInit(id, receiver, amount, lock) => SwapFamily.Init(c, v, signer, id, receiver, amount, lock)
    case SwapSetLock(id, lock) => SwapFamily.SetLock(c, v, id, lock)
    case SwapApprove(id) => SwapFamily.Approve(c, v, signer, id)
    case SwapExpire(id) => SwapFamily.Expire(c, v, signer, id)
    case SwapClose(id, secretKey) => SwapFamily.Close(c, v, id, secretKey)
    case StoreKey(key) => KeyFamily.Store(c, v, signer, key)
    case StoreKeyFor(key, owner, signature) => KeyFamily.StoreFor(c, v, signer, key, owner, signature)
    case RevokeKey(a) => KeyFamily.Revoke(v, signer, a)
  }

  /** The records a transaction writes, or why it is refused. */
  function Effect(c: Crypto, s: State, tx: Transaction, parser: Parser := Strict): Result<Update> {
    if !FormValid(c, tx.payload) then Err(BadForm)
    else
      var update :- Handle(c, View(s, tx.inputs, parser), tx.signer, tx.payload);
      if CoversAll(tx.outputs, update.Keys) then Ok(update) else Err(Unauthorized)
  }

  function Process(c: Crypto, s: State, tx: Transaction, parser: Parser := Strict): Result<State> {
    var update :- Effect(c, s, tx, parser);
    Ok(s + update)
  }

  /** What happens to the state from outside: a transaction is submitted, the settings family
      writes an entry, or a block is published. */
  datatype Event =
    | Submit(tx: Transaction)
    | Setting(key: string, entries: seq<(string, string)>)
    | Block(num: nat, timestamp: nat, oldest: nat)

  function Step(c: Crypto, s: State, e: Event, parser: Parser := Strict): State {
    match e
    case Submit(tx) =>
      var r := Process(c, s, tx, parser);
      if r.Ok? then r.value else s
    case Setting(key, entries) => s[SettingAddr(key) := SettingRec(entries)]
    case Block(num, timestamp, oldest) =>
      s[BlockAddr(num) := BlockRec(num, timestamp)][ConfigAddr := ConfigRec(num, oldest)]
  }

  function Before(es: seq<Event>): seq<Event>
    requires es != []
  {
    es[..|es| - 1]
  }

  function Last(es: seq<Event>): Event
    requires es != []
  {
    es[|es| - 1]
  }

  /** The state after a run of events; a refused transaction leaves it as it was. */
  function Run(c: Crypto, s: State, es: seq<Event>, parser: Parser := Strict): State {
    if es == [] then s else Step(c, Run(c, s, Before(es), parser), Last(es), parser)
  }

  const EMPTY: State := map[]
}
