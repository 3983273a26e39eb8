/** What a handler's answer depends on: the results of its reads, and no others. */
module Reading {
  import opened Records
  import opened StateView
  import opened Ledger
  import AccountFamily
  import SwapFamily
  import KeyFamily

  /** The two views answer every read alike, or at least every read of an address as the kind of
      record it is meant for. */
  ghost predicate Alike(v: View, w: View, everywhere: bool) {
    forall kind, a | everywhere || HomeKind(a) == kind :: Read(v, kind, a) == Read(w, kind, a)
  }

  /** All addresses the payload leads to are read as what they are meant for: REVOKE names a key, and
      the parties of the swap it operates on are accounts. */
  ghost predicate ReadsAtHome(c: Crypto, v: View, p: Payload) {
    && (p.RevokeKey? ==> p.address.KeyAddr?)
    && (p.SwapExpire? || p.SwapClose? ==>
          var swap := SwapFamily.LiveSwap(v, c.SwapOf(p.swapId));
          swap.Ok? ==> HomeKind(swap.value.sender) == AccountKind && HomeKind(swap.value.receiver) == AccountKind)
  }

  lemma AlikeReads(v: View, w: View, everywhere: bool)
    requires Alike(v, w, everywhere)
    ensures forall a | everywhere || HomeKind(a) == AccountKind :: ReadAccount(v, a) == ReadAccount(w, a)
    ensures forall key :: ReadSetting(v, key) == ReadSetting(w, key)
    ensures forall id: string :: SwapFamily.LiveSwap(v, SwapAddr(id)) == SwapFamily.LiveSwap(w, SwapAddr(id))
    ensures SwapFamily.LatestTime(v) == SwapFamily.LatestTime(w)
  {
    hide Read;
  }

  lemma SameTransfer(v: View, w: View, everywhere: bool, from: Address, to: Address, value: U64)
    requires Alike(v, w, everywhere) && (everywhere || HomeKind(from) == AccountKind)
    ensures AccountFamily.TransferFrom(v, from, to, value) == AccountFamily.TransferFrom(w, from, to, value)
  {
    AlikeReads(v, w, everywhere);
    hide Read, ReadAccount, Alike;
  }

  lemma SameTerms(c: Crypto, v: View, w: View, everywhere: bool, sender: Address, id: string, amount: U64)
    requires Alike(v, w, everywhere) && sender.AccountAddr?
    ensures SwapFamily.InitTerms(c, v, sender, id, amount) == SwapFamily.InitTerms(c, w, sender, id, amount)
  {
    AlikeReads(v, w, everywhere);
    assert Read(v, SwapKind, c.SwapOf(id)) == Read(w, SwapKind, c.SwapOf(id));
    assert SwapFamily.Commission(c, v) == SwapFamily.Commission(c, w);
    hide Alike, Read, ReadAccount, ReadSetting, SwapFamily.LatestTime, SwapFamily.Commission, SwapFamily.LiveSwap;
  }

  lemma SameInit(c: Crypto, v: View, w: View, everywhere: bool, signer: string,
                 id: string, receiver: Address, amount: U64, lock: string)
    requires Alike(v, w, everywhere)
    ensures SwapFamily.Init(c, v, signer, id, receiver, amount, lock)
        == SwapFamily.Init(c, w, signer, id, receiver, amount, lock)
  {
    hide Alike, SwapFamily.InitTerms, AccountFamily.TransferFrom;
    var me := c.AccountOf(signer);
    SameTerms(c, v, w, everywhere, me, id, amount);
    if SwapFamily.InitTerms(c, v, me, id, amount).Ok? {
      SameTransfer(v, w, everywhere, me, ZeroAddr, SwapFamily.InitTerms(c, v, me, id, amount).value.1);
    }
  }

  lemma SameSwapHandlers(c: Crypto, v: View, w: View, everywhere: bool, signer: string, p: Payload)
    requires Alike(v, w, everywhere) && (p.SwapSetLock? || p.SwapApprove? || p.SwapExpire? || p.SwapClose?)
    requires everywhere || ReadsAtHome(c, v, p)
    ensures Handle(c, v, signer, p) == Handle(c, w, signer, p)
  {
    AlikeReads(v, w, everywhere);
    hide Covers, Read, ReadAccount, SwapFamily.LatestTime, SwapFamily.LiveSwap, Alike;
  }

  lemma SameCharge(v: View, w: View, everywhere: bool, payer: Address)
    requires Alike(v, w, everywhere) && payer.AccountAddr?
    ensures KeyFamily.Charge(v, payer) == KeyFamily.Charge(w, payer)
  {
    AlikeReads(v, w, everywhere);
    SameTransfer(v, w, everywhere, payer, ZeroAddr, KeyFamily.STORE_PRICE);
    hide Read, Alike;
  }

  lemma SameNewKey(c: Crypto, v: View, w: View, everywhere: bool, payload: KeyPayload, first: Address, second: Address)
    requires Alike(v, w, everywhere) && first.AccountAddr? && second.AccountAddr?
    ensures ReadAccount(v, first) == ReadAccount(w, first) && ReadAccount(v, second) == ReadAccount(w, second)
    ensures KeyFamily.NewKey(c, v, payload, first, second) == KeyFamily.NewKey(c, w, payload, first, second)
  {
    AlikeReads(v, w, everywhere);
    hide Read, ReadAccount, KeyFamily.ValidityAllowed;
  }

  lemma SameStore(c: Crypto, v: View, w: View, everywhere: bool, signer: string, payload: KeyPayload)
    requires Alike(v, w, everywhere)
    ensures KeyFamily.Store(c, v, signer, payload) == KeyFamily.Store(c, w, signer, payload)
  {
    hide Alike, ReadAccount, KeyFamily.NewKey, KeyFamily.Charge, KeyFamily.Linked;
    var me := c.AccountOf(signer);
    SameNewKey(c, v, w, everywhere, payload, me, me);
    SameCharge(v, w, everywhere, me);
  }

  lemma SameStoreFor(c: Crypto, v: View, w: View, everywhere: bool, signer: string,
                     payload: KeyPayload, owner: string, signature: string)
    requires Alike(v, w, everywhere)
    ensures KeyFamily.StoreFor(c, v, signer, payload, owner, signature)
         == KeyFamily.StoreFor(c, w, signer, payload, owner, signature)
  {
    hide Alike, ReadAccount, KeyFamily.NewKey, KeyFamily.Charge, KeyFamily.Linked;
    SameNewKey(c, v, w, everywhere, payload, c.AccountOf(owner), c.AccountOf(signer));
    SameCharge(v, w, everywhere, c.AccountOf(signer));
  }

  /** A handler gives the same answer on views that answer its reads alike. */
  lemma AnswersDependOnReads(c: Crypto, v: View, w: View, everywhere: bool, signer: string, p: Payload)
    requires Alike(v, w, everywhere) && (everywhere || ReadsAtHome(c, v, p))
    ensures Handle(c, v, signer, p) == Handle(c, w, signer, p)
  {
    match p
    case Genesis(_) =>
    case Transfer(to, value) => SameTransfer(v, w, everywhere, c.AccountOf(signer), to, value);
    case SwapInit(id, receiver, amount, lock) => SameInit(c, v, w, everywhere, signer, id, receiver, amount, lock);
    case SwapSetLock(_, _) => SameSwapHandlers(c, v, w, everywhere, signer, p);
    case SwapApprove(_) => SameSwapHandlers(c, v, w, everywhere, signer, p);
    case SwapExpire(_) => SameSwapHandlers(c, v, w, everywhere, signer, p);
    case SwapClose(_, _) => SameSwapHandlers(c, v, w, everywhere, signer, p);
    case StoreKey(key) => SameStore(c, v, w, everywhere, signer, key);
    case StoreKeyFor(key, owner, signature) => SameStoreFor(c, v, w, everywhere, signer, key, owner, signature);
    case RevokeKey(a) => assert everywhere || HomeKind(a) == KeyKind;
  }
}
