/** The transaction processor: handlers that read through the cache, change their own copies of
    records, and return what is to be written; and the application of a transaction. */
module Handlers {
  import opened Wrappers
  import opened Records
  import opened StateView
  import opened Ledger
  import opened CacheContext
  import AccountFamily
  import SwapFamily
  import KeyFamily

  /** The account at an address; an absent one is fresh. */
  method GetAccount(ctx: CacheContextService, a: Address) returns (r: Result<Account>)
    requires ctx.Valid()
    modifies ctx
    ensures ctx.Valid()
    ensures r == ReadAccount(ViewOf(ctx.context), a)
  {
    var stored :- ctx.GetData(AccountKind, a);
    r := Ok(if stored.Some? then stored.value.account else NEW_ACCOUNT);
  }

  method GetSetting(ctx: CacheContextService, key: string) returns (r: Result<Option<string>>)
    requires ctx.Valid()
    modifies ctx
    ensures ctx.Valid()
    ensures r == ReadSetting(ViewOf(ctx.context), key)
  {
    var stored :- ctx.GetData(SettingKind, SettingAddr(key));
    var entries := if stored.Some? then stored.value.entries else [];
    var i := 0;
    while i < |entries|
      invariant i <= |entries|
      invariant EntryFor(entries, key) == EntryFor(entries[i..], key)
    {
      if entries[i].0 == key {
        return Ok(Some(entries[i].1));
      }
      assert entries[i..][1..] == entries[i + 1..];
      i := i + 1;
    }
    r := Ok(None);
  }

  method Genesis(c: Crypto, ctx: CacheContextService, signer: string, supply: U64) returns (r: Result<Update>)
    requires ctx.Valid()
    modifies ctx
    ensures ctx.Valid()
    ensures r == AccountFamily.Genesis(c, ViewOf(ctx.context), signer, supply)
  {
    var me := c.AccountOf(signer);
    var stored :- ctx.GetData(GenesisKind, GenesisAddr);
    var status;
    if stored.None? {
      status := true;
    } else if stored.value.status {
      return Err(GenesisRepeated);
    } else {
      status := stored.value.status;
    }
    var account := NEW_ACCOUNT;
    account := account.(balance := supply);
    r := Ok(map[me := AccountRec(account), GenesisAddr := GenesisRec(status)]);
  }

  method TransferFrom(ctx: CacheContextService, from: Address, to: Address, value: U64) returns (r: Result<Update>)
    requires ctx.Valid()
    modifies ctx
    ensures ctx.Valid()
    ensures r == AccountFamily.TransferFrom(ViewOf(ctx.context), from, to, value)
  {
    if value == 0 {
      return Err(ZeroAmount);
    }
    if !to.IsAccount() {
      return Err(NotAnAccount);
    }
    if from == to {
      return Err(SelfTransfer);
    }
    ghost var v := ViewOf(ctx.context);
    ReadTwo(v, (from, AccountKind), (to, AccountKind));
    var both :- ctx.GetCachedData([(from, AccountKind), (to, AccountKind)]);
    var sender := if both[0].Some? then both[0].value.account else NEW_ACCOUNT;
    var receiver := if both[1].Some? then both[1].value.account else NEW_ACCOUNT;
    if sender.balance < value {
      return Err(LowBalance);
    }
    receiver :- Credit(receiver, value);
    sender := sender.(balance := sender.balance - value);
    r := Ok(map[from := AccountRec(sender), to := AccountRec(receiver)]);
  }

  /** Reading two resolvers together is reading one after the other. */
  lemma ReadTwo(v: View, x: (Address, Kind), y: (Address, Kind))
    ensures ReadAll(v, [x, y]) ==
      var first := Read(v, x.1, x.0);
      if first.Err? then Err(first.error)
      else
        var second := Read(v, y.1, y.0);
        if second.Err? then Err(second.error) else Ok([first.value, second.value])
  {
    assert [x, y][1..] == [y] && [y][1..] == [];
    assert ReadAll(v, []) == Ok([]);
    var second := Read(v, y.1, y.0);
    if second.Ok? {
      assert [second.value] + [] == [second.value];
    }
    assert ReadAll(v, [y]) == if second.Err? then Err(second.error) else Ok([second.value]);
    var first := Read(v, x.1, x.0);
    if first.Ok? && second.Ok? {
      assert [first.value] + [second.value] == [first.value, second.value];
    }
  }

  /** The time of the latest block. */
  method LatestTime(ctx: CacheContextService) returns (r: Result<nat>)
    requires ctx.Valid()
    modifies ctx
    ensures ctx.Valid()
    ensures r == SwapFamily.LatestTime(ViewOf(ctx.context))
  {
    var config :- ctx.GetData(ConfigKind, ConfigAddr);
    if config.None? {
      return Err(NoBlockConfig);
    }
    var block :- ctx.GetData(BlockKind, BlockAddr(config.value.latest));
    if block.None? {
      return Err(NoBlock);
    }
    r := Ok(block.value.timestamp);
  }

  method SwapInit(c: Crypto, ctx: CacheContextService, signer: string,
                  id: string, receiver: Address, amount: U64, lock: string) returns (r: Result<Update>)
    requires ctx.Valid()
    modifies ctx
    ensures ctx.Valid()
    ensures r == SwapFamily.Init(c, ViewOf(ctx.context), signer, id, receiver, amount, lock)
  {
    ghost var v := ViewOf(ctx.context);
    var taken :- ctx.GetData(SwapKind, c.SwapOf(id));
    if taken.Some? {
      return Err(SwapTaken);
    }
    var now :- LatestTime(ctx);
    var swap := Swap(id, Opened, amount, now, lock, "", c.AccountOf(signer), receiver, lock == "");
    var setting :- GetSetting(ctx, SwapFamily.COMMISSION_KEY);
    var number := if setting.Some? then c.parseInt(setting.value) else None;
    if number.None? {
      return Err(BadSetting);
    }
    var commission := number.value;
    if commission < 0 {
      return Err(NegativeCommission);
    }
    assert SwapFamily.Commission(c, v) == Ok(commission);
    var account :- GetAccount(ctx, swap.sender);
    if account.balance < swap.amount + commission {
      return Err(LowBalance);
    }
    assert SwapFamily.InitTerms(c, v, swap.sender, id, amount) == Ok((now, commission));
    hide SwapFamily.InitTerms, SwapFamily.Commission, Read;
    var moved :- TransferFrom(ctx, swap.sender, ZeroAddr, commission);
    var sender := moved[swap.sender].account;
    sender :- Debit(sender, swap.amount);
    r := Ok(map[c.SwapOf(id) := SwapRec(swap)] + moved[swap.sender := AccountRec(sender)]);
  }

  method GetLiveSwap(ctx: CacheContextService, a: Address) returns (r: Result<Swap>)
    requires ctx.Valid()
    modifies ctx
    ensures ctx.Valid()
    ensures r == SwapFamily.LiveSwap(ViewOf(ctx.context), a)
  {
    var stored :- ctx.GetData(SwapKind, a);
    if stored.None? {
      return Err(NoSwap);
    }
    if stored.value.swap.state in [Closed, Expired] {
      return Err(SwapFinished);
    }
    r := Ok(stored.value.swap);
  }

  method SwapSetLock(c: Crypto, ctx: CacheContextService, id: string, lock: string) returns (r: Result<Update>)
    requires ctx.Valid()
    modifies ctx
    ensures ctx.Valid()
    ensures r == SwapFamily.SetLock(c, ViewOf(ctx.context), id, lock)
  {
    var swap :- GetLiveSwap(ctx, c.SwapOf(id));
    if swap.lock != "" {
      return Err(LockPresent);
    }
    swap := swap.(lock := lock);
    swap := swap.(state := LockProvided);
    r := Ok(map[c.SwapOf(id) := SwapRec(swap)]);
  }

  method SwapApprove(c: Crypto, ctx: CacheContextService, signer: string, id: string) returns (r: Result<Update>)
    requires ctx.Valid()
    modifies ctx
    ensures ctx.Valid()
    ensures r == SwapFamily.Approve(c, ViewOf(ctx.context), signer, id)
  {
    var swap :- GetLiveSwap(ctx, c.SwapOf(id));
    if !swap.isInitiator || swap.sender != c.AccountOf(signer) {
      return Err(NotTheInitiator);
    }
    if swap.lock == "" {
      return Err(LockMissing);
    }
    if swap.state != LockProvided {
      return Err(LockNotProvided);
    }
    swap := swap.(state := Approved);
    r := Ok(map[c.SwapOf(id) := SwapRec(swap)]);
  }

  method SwapExpire(c: Crypto, ctx: CacheContextService, signer: string, id: string) returns (r: Result<Update>)
    requires ctx.Valid()
    modifies ctx
    ensures ctx.Valid()
    ensures r == SwapFamily.Expire(c, ViewOf(ctx.context), signer, id)
  {
    var swap :- GetLiveSwap(ctx, c.SwapOf(id));
    if c.AccountOf(signer) != swap.sender {
      return Err(NotTheSender);
    }
    var now :- LatestTime(ctx);
    var delta := if swap.isInitiator then 24 * SwapFamily.HOUR else 48 * SwapFamily.HOUR;
    if swap.createdAt + delta > now {
      return Err(TimeLocked);
    }
    var account :- GetAccount(ctx, swap.sender);
    account :- Credit(account, swap.amount);
    swap := swap.(state := Expired);
    r := Ok(map[c.SwapOf(id) := SwapRec(swap), swap.sender := AccountRec(account)]);
  }

  method SwapClose(c: Crypto, ctx: CacheContextService, id: string, secretKey: string) returns (r: Result<Update>)
    requires ctx.Valid()
    modifies ctx
    ensures ctx.Valid()
    ensures r == SwapFamily.Close(c, ViewOf(ctx.context), id, secretKey)
  {
    var swap :- GetLiveSwap(ctx, c.SwapOf(id));
    if swap.lock == "" {
      return Err(LockMissing);
    }
    var hash := c.keccak(secretKey);
    if hash.None? {
      return Err(Undecodable);
    }
    if hash.value != swap.lock {
      return Err(WrongSecret);
    }
    if swap.isInitiator && swap.state != Approved {
      return Err(NotApproved);
    }
    var account :- GetAccount(ctx, swap.receiver);
    account :- Credit(account, swap.amount);
    swap := swap.(secretKey := secretKey);
    swap := swap.(state := Closed);
    r := Ok(map[c.SwapOf(id) := SwapRec(swap), swap.receiver := AccountRec(account)]);
  }

  method ChargeForStoring(ctx: CacheContextService, from: Address) returns (r: Result<Option<Update>>)
    requires ctx.Valid()
    modifies ctx
    ensures ctx.Valid()
    ensures r == KeyFamily.Charge(ViewOf(ctx.context), from)
  {
    var setting :- GetSetting(ctx, KeyFamily.ECONOMY_KEY);
    if !KeyFamily.IsEnabled(setting) {
      return Ok(None);
    }
    if from == ZeroAddr {
      return Err(ZeroPayer);
    }
    var moved :- TransferFrom(ctx, from, ZeroAddr, KeyFamily.STORE_PRICE);
    r := Ok(Some(moved));
  }

  method StoreKey(c: Crypto, ctx: CacheContextService, signer: string, payload: KeyPayload) returns (r: Result<Update>)
    requires ctx.Valid()
    modifies ctx
    ensures ctx.Valid()
    ensures r == KeyFamily.Store(c, ViewOf(ctx.context), signer, payload)
  {
    ghost var v := ViewOf(ctx.context);
    if payload.config.None? {
      return Err(NoConfiguration);
    }
    if !c.keyVerifies(payload) {
      return Err(BadKeySignature);
    }
    var key, me := c.KeyOf(payload.config.value), c.AccountOf(signer);
    ReadTwo(v, (key, KeyKind), (me, AccountKind));
    var both :- ctx.GetCachedData([(key, KeyKind), (me, AccountKind)]);
    if both[0].Some? {
      return Err(KeyTaken);
    }
    var account := if both[1].Some? then both[1].value.account else NEW_ACCOUNT;
    if payload.validTo - payload.validFrom > KeyFamily.MAX_VALIDITY {
      return Err(ValidityTooLong);
    }
    assert KeyFamily.NewKey(c, v, payload, me, me) == Ok(key) && ReadAccount(v, me) == Ok(account);
    hide KeyFamily.NewKey, ReadAccount, Read;
    var state: Update := map[me := AccountRec(account), key := KeyRec(KeyInfo(signer, payload, false))];
    var charge :- ChargeForStoring(ctx, me);
    if charge.Some? {
      state := state + charge.value;
      account := state[me].account;
    }
    if key !in account.pubKeys {
      account := account.(pubKeys := account.pubKeys + [key]);
    }
    r := Ok(state[me := AccountRec(account)]);
  }

  lemma ReadThree(v: View, x: (Address, Kind), y: (Address, Kind), z: (Address, Kind))
    ensures ReadAll(v, [x, y, z]) ==
      var first := Read(v, x.1, x.0);
      if first.Err? then Err(first.error)
      else
        var rest := ReadAll(v, [y, z]);
        if rest.Err? then Err(rest.error) else Ok([first.value] + rest.value)
  {
    assert [x, y, z][1..] == [y, z];
  }

  method StoreKeyFor(c: Crypto, ctx: CacheContextService, signer: string,
                     payload: KeyPayload, owner: string, signature: string) returns (r: Result<Update>)
    requires ctx.Valid()
    modifies ctx
    ensures ctx.Valid()
    ensures r == KeyFamily.StoreFor(c, ViewOf(ctx.context), signer, payload, owner, signature)
  {
    ghost var v := ViewOf(ctx.context);
    var signed := c.ownerSigned(owner, signature, payload);
    if signed.None? {
      return Err(Undecodable);
    }
    if !signed.value {
      return Err(BadOwnerSignature);
    }
    if payload.config.None? {
      return Err(NoConfiguration);
    }
    if !c.keyVerifies(payload) {
      return Err(BadKeySignature);
    }
    var key, listed, payer := c.KeyOf(payload.config.value), c.AccountOf(owner), c.AccountOf(signer);
    ReadThree(v, (key, KeyKind), (listed, AccountKind), (payer, AccountKind));
    ReadTwo(v, (listed, AccountKind), (payer, AccountKind));
    var three :- ctx.GetCachedData([(key, KeyKind), (listed, AccountKind), (payer, AccountKind)]);
    if three[0].Some? {
      return Err(KeyTaken);
    }
    var ownerAccount := if three[1].Some? then three[1].value.account else NEW_ACCOUNT;
    var payerAccount := if three[2].Some? then three[2].value.account else NEW_ACCOUNT;
    if payload.validTo - payload.validFrom > KeyFamily.MAX_VALIDITY {
      return Err(ValidityTooLong);
    }
    assert KeyFamily.NewKey(c, v, payload, listed, payer) == Ok(key);
    assert ReadAccount(v, listed) == Ok(ownerAccount) && ReadAccount(v, payer) == Ok(payerAccount);
    hide KeyFamily.NewKey, ReadAccount, Read;
    var state: Update := map[listed := AccountRec(ownerAccount), payer := AccountRec(payerAccount),
                             key := KeyRec(KeyInfo(owner, payload, false))];
    var charge :- ChargeForStoring(ctx, payer);
    if charge.Some? {
      state := state + charge.value;
    }
    if key !in ownerAccount.pubKeys {
      ownerAccount := ownerAccount.(pubKeys := ownerAccount.pubKeys + [key]);
    }
    r := Ok(state[listed := AccountRec(ownerAccount)]);
  }

  method RevokeKey(ctx: CacheContextService, signer: string, a: Address) returns (r: Result<Update>)
    requires ctx.Valid()
    modifies ctx
    ensures ctx.Valid()
    ensures r == KeyFamily.Revoke(ViewOf(ctx.context), signer, a)
  {
    var known :- ctx.GetData(KeyKind, a);
    if known.None? {
      return Err(NoKey);
    }
    var info := known.value.info;
    if signer != info.owner {
      return Err(NotTheOwner);
    }
    if info.revoked {
      return Err(AlreadyRevoked);
    }
    info := info.(revoked := true);
    r := Ok(map[a := KeyRec(info)]);
  }

  method Dispatch(c: Crypto, ctx: CacheContextService, signer: string, p: Payload) returns (r: Result<Update>)
    requires ctx.Valid()
    modifies ctx
    ensures ctx.Valid()
    ensures r == Handle(c, ViewOf(ctx.context), signer, p)
  {
    match p
    case Genesis(supply) => r := Genesis(c, ctx, signer, supply);
    case Transfer(to, value) => r := TransferFrom(ctx, c.AccountOf(signer), to, value);
    case SwapInit(id, receiver, amount, lock) => r := SwapInit(c, ctx, signer, id, receiver, amount, lock);
    case SwapSetLock(id, lock) => r := SwapSetLock(c, ctx, id, lock);
    case SwapApprove(id) => r := SwapApprove(c, ctx, signer, id);
    case SwapExpire(id) => r := SwapExpire(c, ctx, signer, id);
    case SwapClose(id, secretKey) => r := SwapClose(c, ctx, id, secretKey);
    case StoreKey(key) => r := StoreKey(c, ctx, signer, key);
    case StoreKeyFor(key, owner, signature) => r := StoreKeyFor(c, ctx, signer, key, owner, signature);
    case RevokeKey(a) => r := RevokeKey(ctx, signer, a);
  }

  /** Applying a transaction through the cache is the pure step: the state becomes exactly what the
      transaction leads to, and a refused transaction changes nothing. */
  method Apply(c: Crypto, tx: Transaction, context: StateContext) returns (r: Result<()>)
    requires context.inputs == tx.inputs && context.outputs == tx.outputs
    modifies context`state
    ensures var expected := Process(c, old(context.state), tx, context.parser);
      if expected.Ok? then r == Ok(()) && context.state == expected.value
      else r == Err(expected.error) && context.state == old(context.state)
  {
    if !FormValid(c, tx.payload) {
      return Err(BadForm);
    }
    var ctx := new CacheContextService(context);
    var loaded := ctx.PreloadState(tx.inputs);
    assert loaded.Ok?;
    var update :- Dispatch(c, ctx, tx.signer, tx.payload);
    r := context.SetState(update);
  }
}
