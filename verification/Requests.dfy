/** When each of the ten operations is accepted and what it leaves behind, in every state and spelled
    out down to the constants. */
module Requests {
  import opened Wrappers
  import opened Records
  import opened StateView
  import opened Forms
  import opened Ledger
  import opened Transitions
  import opened Effects
  import opened Acceptance
  import opened SwapClient
  import TimeLock
  import AccountFamily
  import SwapFamily
  import KeyFamily

  /** A swap that is neither closed nor expired. */
  predicate Open(s: State, a: Address) {
    a in s && s[a].SwapRec? && s[a].swap.state != Closed && s[a].swap.state != Expired
  }

  lemma GenesisIff(c: Crypto, s: State, tx: Transaction)
    requires tx.payload.Genesis?
    requires CoversAll(tx.inputs, {GenesisAddr}) && CoversAll(tx.outputs, {c.AccountOf(tx.signer), GenesisAddr})
    ensures var r, me := Process(c, s, tx), c.AccountOf(tx.signer);
      && (r.Ok? <==> tx.payload.supply > 0 && !(GenesisAddr in s && s[GenesisAddr] == GenesisRec(true)))
      && (r.Ok? && GenesisAddr !in s ==>
            r.value == s[me := AccountRec(Account(tx.payload.supply, []))][GenesisAddr := GenesisRec(true)])
  {
    hide Process, Covers;
    if Process(c, s, tx).Ok? {
      ProcessIsTransition(c, s, tx);
    }
    if FormValid(c, tx.payload) && !GenesisDone(s) {
      var t := s[c.AccountOf(tx.signer) := AccountRec(Account(tx.payload.supply, []))]
                [GenesisAddr := GenesisRec(StatusAfterGenesis(s))];
      AcceptedIff(c, s, tx, t);
    }
  }

  lemma TransferIff(c: Crypto, s: State, tx: Transaction)
    requires tx.payload.Transfer?
    requires CoversAll(tx.inputs, {c.AccountOf(tx.signer), tx.payload.to})
    requires CoversAll(tx.outputs, {c.AccountOf(tx.signer), tx.payload.to})
    ensures var r, from, to, value := Process(c, s, tx), c.AccountOf(tx.signer), tx.payload.to, tx.payload.value;
      && (r.Ok? <==>
            && to.AccountAddr? && IsAddressField(c, to) && from != to
            && 0 < value <= Balance(s, from) && Balance(s, to) + value <= MAX_U64)
      && (r.Ok? ==>
            r.value == s[from := AccountRec(Account(Balance(s, from) - value, AccountAt(s, from).pubKeys))]
                        [to := AccountRec(Account(Balance(s, to) + value, AccountAt(s, to).pubKeys))])
  {
    hide Process, Covers, IsAddressField;
    var from, to, value := c.AccountOf(tx.signer), tx.payload.to, tx.payload.value;
    if Process(c, s, tx).Ok? {
      ProcessIsTransition(c, s, tx);
    }
    if FormValid(c, tx.payload) && from != to && to.AccountAddr? && value <= Balance(s, from)
       && Balance(s, to) + value <= MAX_U64 {
      var t := s[from := Rebalanced(s, from, Balance(s, from) - value)]
                [to := Rebalanced(s, to, Balance(s, to) + value)];
      AcceptedIff(c, s, tx, t);
    }
  }

  /** The first reason for which a transfer is refused, in the order of the checks. */
  lemma TransferRefusals(s: State, inputs: seq<Scope>, from: Address, to: Address, value: U64)
    requires Covers(inputs, from) && Covers(inputs, to)
    ensures AccountFamily.TransferFrom(View(s, inputs), from, to, value) ==
      if value == 0 then Err(ZeroAmount)
      else if !to.AccountAddr? && to != ZeroAddr then Err(NotAnAccount)
      else if from == to then Err(SelfTransfer)
      else if Balance(s, from) < value then Err(LowBalance)
      else if Balance(s, to) + value > MAX_U64 then Err(OutOfRange)
      else Ok(map[from := AccountRec(Account(Balance(s, from) - value, AccountAt(s, from).pubKeys)),
                  to := AccountRec(Account(Balance(s, to) + value, AccountAt(s, to).pubKeys))])
  {
    AccountReads(s, inputs, from);
    AccountReads(s, inputs, to);
    hide Covers, ReadAccount;
  }

  lemma InitIff(c: Crypto, s: State, signer: string, id: string, receiver: Address, amount: U64, lock: string)
    ensures Process(c, s, Request(c, signer, SwapInit(id, receiver, amount, lock), ZeroAddr)).Ok? <==>
      && IsSwapId(id) && IsAddressField(c, receiver) && amount > 0
      && !(c.SwapOf(id) in s && s[c.SwapOf(id)].SwapRec?) && TimeAt(s).Some?
      && 0 < FeeAt(c, s) && amount + FeeAt(c, s) <= Balance(s, c.AccountOf(signer))
      && Balance(s, ZeroAddr) + FeeAt(c, s) <= MAX_U64
  {
    var p := SwapInit(id, receiver, amount, lock);
    hide Process, Covers, CoversAll, IsAddressField, IsSwapId, TimeAt, FeeAt, Inputs, Outputs;
    if Process(c, s, Request(c, signer, p, ZeroAddr)).Ok? {
      ProcessIsTransition(c, s, Request(c, signer, p, ZeroAddr));
    }
    if FormValid(c, p) && !HasSwap(s, c.SwapOf(id)) && TimeAt(s).Some? && 0 < FeeAt(c, s)
       && amount + FeeAt(c, s) <= Balance(s, c.AccountOf(signer)) && Balance(s, ZeroAddr) + FeeAt(c, s) <= MAX_U64 {
      InitAccepts(c, s, signer, p);
    }
  }

  lemma InitLeaves(c: Crypto, s: State, tx: Transaction)
    requires tx.payload.SwapInit? && Process(c, s, tx).Ok?
    ensures var t, p, me, a := Process(c, s, tx).value, tx.payload, c.AccountOf(tx.signer), c.SwapOf(tx.payload.swapId);
      && a in t && t[a].SwapRec? && Some(t[a].swap.createdAt) == TimeAt(s)
      && t[a].swap == Swap(p.swapId, Opened, p.amount, t[a].swap.createdAt, p.initLock, "",
                           me, p.receiver, p.initLock == "")
      && AccountAt(t, me) == AccountAt(s, me).(balance := Balance(t, me))
      && Balance(t, me) == Balance(s, me) - p.amount - FeeAt(c, s)
      && AccountAt(t, ZeroAddr) == AccountAt(s, ZeroAddr).(balance := Balance(t, ZeroAddr))
      && Balance(t, ZeroAddr) == Balance(s, ZeroAddr) + FeeAt(c, s)
      && forall x | x != a && x != me && x != ZeroAddr :: Lookup(t, x) == Lookup(s, x)
  {
    hide Process, TimeAt, FeeAt;
    ProcessIsTransition(c, s, tx);
  }

  lemma InitAccepts(c: Crypto, s: State, signer: string, p: Payload)
    requires p.SwapInit? && FormValid(c, p) && !HasSwap(s, c.SwapOf(p.swapId)) && TimeAt(s).Some?
    requires 0 < FeeAt(c, s) <= Balance(s, c.AccountOf(signer)) - p.amount
    requires Balance(s, ZeroAddr) + FeeAt(c, s) <= MAX_U64
    ensures Process(c, s, Request(c, signer, p, ZeroAddr)).Ok?
  {
    hide Process, FormValid, Covers, CoversAll, TimeAt, FeeAt, Inputs, Outputs, Reads, Writes;
    InitRequestCovers(c, s, signer, p);
    var me, fee := c.AccountOf(signer), FeeAt(c, s);
    var swap := SwapFamily.NewSwap(c, signer, p.swapId, p.receiver, p.amount, p.initLock, TimeAt(s).value);
    var t := s[c.SwapOf(p.swapId) := SwapRec(swap)][me := Rebalanced(s, me, Balance(s, me) - p.amount - fee)]
              [ZeroAddr := Rebalanced(s, ZeroAddr, Balance(s, ZeroAddr) + fee)];
    AcceptedIff(c, s, Request(c, signer, p, ZeroAddr), t);
  }

  lemma InitRequestCovers(c: Crypto, s: State, signer: string, p: Payload)
    requires p.SwapInit?
    ensures forall a | a in Reads(c, s, signer, p) :: Covers(Inputs(c, c.AccountOf(signer), p, ZeroAddr), a)
    ensures forall a | a in Writes(c, s, signer, p) :: Covers(Outputs(c, c.AccountOf(signer), p, ZeroAddr), a)
  {
    hide Covers, Inputs, Outputs;
    InitDeclares(c, c.AccountOf(signer), p, ZeroAddr);
  }

  lemma SetLockIff(c: Crypto, s: State, signer: string, id: string, lock: string)
    ensures var r, a := Process(c, s, Request(c, signer, SwapSetLock(id, lock), ZeroAddr)), c.SwapOf(id);
      && (r.Ok? <==> IsSwapId(id) && Given(lock) && Open(s, a) && s[a].swap.lock == "")
      && (r.Ok? ==> r.value == s[a := SwapRec(s[a].swap.(lock := lock, state := LockProvided))])
  {
    var p := SwapSetLock(id, lock);
    var tx, a := Request(c, signer, p, ZeroAddr), c.SwapOf(id);
    hide Process, IsSwapId, Given;
    if Process(c, s, tx).Ok? {
      ProcessIsTransition(c, s, tx);
    }
    if FormValid(c, p) && HasLiveSwap(s, a) && s[a].swap.lock == "" {
      OwnSwapCovers(c, signer, p);
      hide Covers, CoversAll, Inputs, Outputs;
      AcceptedIff(c, s, tx, s[a := SwapRec(s[a].swap.(lock := lock, state := LockProvided))]);
    }
  }

  lemma OwnSwapCovers(c: Crypto, signer: string, p: Payload)
    requires p.SwapSetLock? || p.SwapApprove?
    ensures Covers(Inputs(c, c.AccountOf(signer), p, ZeroAddr), c.SwapOf(p.swapId))
    ensures Covers(Outputs(c, c.AccountOf(signer), p, ZeroAddr), c.SwapOf(p.swapId))
  {
    assert Inputs(c, c.AccountOf(signer), p, ZeroAddr)[0] == Only(c.SwapOf(p.swapId));
    assert Outputs(c, c.AccountOf(signer), p, ZeroAddr)[0] == Only(c.SwapOf(p.swapId));
  }

  lemma ApproveIff(c: Crypto, s: State, signer: string, id: string)
    ensures var r, a := Process(c, s, Request(c, signer, SwapApprove(id), ZeroAddr)), c.SwapOf(id);
      && (r.Ok? <==>
            && IsSwapId(id) && a in s && s[a].SwapRec?
            && s[a].swap.isInitiator && s[a].swap.sender == c.AccountOf(signer)
            && s[a].swap.lock != "" && s[a].swap.state == LockProvided)
      && (r.Ok? ==> r.value == s[a := SwapRec(s[a].swap.(state := Approved))])
  {
    var p := SwapApprove(id);
    var tx, a := Request(c, signer, p, ZeroAddr), c.SwapOf(id);
    hide Process, IsSwapId;
    if Process(c, s, tx).Ok? {
      ProcessIsTransition(c, s, tx);
    }
    if FormValid(c, p) && HasLiveSwap(s, a) && s[a].swap.isInitiator && s[a].swap.sender == c.AccountOf(signer)
       && s[a].swap.lock != "" && s[a].swap.state == LockProvided {
      OwnSwapCovers(c, signer, p);
      hide Covers, CoversAll, Inputs, Outputs;
      AcceptedIff(c, s, tx, s[a := SwapRec(s[a].swap.(state := Approved))]);
    }
  }

  lemma ExpireIff(c: Crypto, s: State, signer: string, id: string)
    ensures var r, a := Process(c, s, Request(c, signer, SwapExpire(id), ZeroAddr)), c.SwapOf(id);
      r.Ok? <==>
      && IsSwapId(id) && Open(s, a) && s[a].swap.sender == c.AccountOf(signer) && TimeAt(s).Some?
      && s[a].swap.createdAt + (if s[a].swap.isInitiator then 24 * 3600 else 48 * 3600) <= TimeAt(s).value
      && Balance(s, s[a].swap.sender) + s[a].swap.amount <= MAX_U64
  {
    var tx, a := Request(c, signer, SwapExpire(id), ZeroAddr), c.SwapOf(id);
    hide Process, IsSwapId, TimeAt;
    if Process(c, s, tx).Ok? {
      ProcessIsTransition(c, s, tx);
    }
    if IsSwapId(id) && HasLiveSwap(s, a) && s[a].swap.sender == c.AccountOf(signer) {
      TimeLock.WithdrawalIff(c, s, signer, id);
    }
  }

  lemma CloseIff(c: Crypto, s: State, signer: string, id: string, secret: string, receiver: Address)
    requires HasSwap(s, c.SwapOf(id)) ==> s[c.SwapOf(id)].swap.receiver == receiver
    ensures var r, a := Process(c, s, Request(c, signer, SwapClose(id, secret), receiver)), c.SwapOf(id);
      r.Ok? <==>
      && IsSwapId(id) && Given(secret) && Open(s, a)
      && s[a].swap.lock != "" && c.keccak(secret) == Some(s[a].swap.lock)
      && (s[a].swap.isInitiator ==> s[a].swap.state == Approved)
      && Balance(s, receiver) + s[a].swap.amount <= MAX_U64
  {
    var p, a := SwapClose(id, secret), c.SwapOf(id);
    var tx := Request(c, signer, p, receiver);
    hide Process, IsSwapId, Given;
    if Process(c, s, tx).Ok? {
      ProcessIsTransition(c, s, tx);
    }
    if MayClose(c, s, p) && Balance(s, receiver) + s[a].swap.amount <= MAX_U64 {
      TimeLock.CloseAccepted(c, s, signer, p);
    }
  }

  /** What both storing operations ask of a key and its payer. */
  predicate KeyMayBeStored(c: Crypto, s: State, key: KeyPayload, payer: Address) {
    && key.config.Some? && key.config.value != "" && key.validFrom != 0 && key.validTo != 0
    && c.keyVerifies(key) && key.validTo - key.validFrom <= 365 * 24 * 3600
    && !(c.KeyOf(key.config.value) in s && s[c.KeyOf(key.config.value)].KeyRec?)
    && (EconomyOn(s) ==> 10 <= Balance(s, payer) && Balance(s, ZeroAddr) + 10 <= MAX_U64)
  }

  lemma StoreIff(c: Crypto, s: State, tx: Transaction)
    requires tx.payload.StoreKey?
    requires forall k | tx.payload.key.config == Some(k) ::
      var touched := {c.KeyOf(k), c.AccountOf(tx.signer), ZeroAddr};
      CoversAll(tx.inputs, touched + {SettingAddr("remme.economy_enabled")}) && CoversAll(tx.outputs, touched)
    ensures Process(c, s, tx).Ok? <==> KeyMayBeStored(c, s, tx.payload.key, c.AccountOf(tx.signer))
  {
    hide Process, Covers, EconomyOn;
    var key, me := tx.payload.key, c.AccountOf(tx.signer);
    if Process(c, s, tx).Ok? {
      ProcessIsTransition(c, s, tx);
      ProcessChecksSignatures(c, s, tx);
    }
    if KeyMayBeStored(c, s, key, me) {
      var k := c.KeyOf(key.config.value);
      var left := AccountAt(s, me).(balance := Balance(s, me) - Price(s));
      var t := PaidIn(s)[k := KeyRec(KeyInfo(tx.signer, key, false))][me := AccountRec(KeyFamily.Linked(left, k))];
      AcceptedIff(c, s, tx, t);
    }
  }

  lemma StoreForIff(c: Crypto, s: State, tx: Transaction)
    requires tx.payload.StoreKeyFor?
    requires forall k | tx.payload.key.config == Some(k) ::
      var touched := {c.KeyOf(k), c.AccountOf(tx.signer), c.AccountOf(tx.payload.owner), ZeroAddr};
      CoversAll(tx.inputs, touched + {SettingAddr("remme.economy_enabled")}) && CoversAll(tx.outputs, touched)
    ensures var p := tx.payload;
      Process(c, s, tx).Ok? <==>
      && p.owner != "" && p.signature != "" && c.ownerSigned(p.owner, p.signature, p.key) == Some(true)
      && KeyMayBeStored(c, s, p.key, c.AccountOf(tx.signer))
  {
    hide Process, Covers, EconomyOn;
    var p, key := tx.payload, tx.payload.key;
    var payer, listed := c.AccountOf(tx.signer), c.AccountOf(tx.payload.owner);
    if Process(c, s, tx).Ok? {
      ProcessIsTransition(c, s, tx);
      ProcessChecksSignatures(c, s, tx);
    }
    if FormValid(c, p) && SignaturesGood(c, p) && KeyMayBeStored(c, s, key, payer) {
      var k := c.KeyOf(key.config.value);
      var t := PaidIn(s)[payer := Rebalanced(s, payer, Balance(s, payer) - Price(s))]
                        [k := KeyRec(KeyInfo(p.owner, key, false))]
                        [listed := AccountRec(KeyFamily.Linked(AccountAt(s, listed), k))];
      AcceptedIff(c, s, tx, t);
    }
  }

  lemma ProcessChecksSignatures(c: Crypto, s: State, tx: Transaction)
    requires Process(c, s, tx).Ok?
    ensures SignaturesGood(c, tx.payload)
  {
    hide KeyFamily.Charge, KeyFamily.Linked;
  }

  /** The keys of an account once a key is linked to it. */
  function With(keys: seq<Address>, key: Address): seq<Address> {
    if key in keys then keys else keys + [key]
  }

  lemma StoreLeaves(c: Crypto, s: State, tx: Transaction, k: string)
    requires tx.payload.StoreKey? && Process(c, s, tx).Ok? && tx.payload.key.config == Some(k)
    ensures var t, me, price := Process(c, s, tx).value, c.AccountOf(tx.signer), if EconomyOn(s) then 10 else 0;
      && c.KeyOf(k) in t && t[c.KeyOf(k)] == KeyRec(KeyInfo(tx.signer, tx.payload.key, false))
      && AccountAt(t, me).pubKeys == With(AccountAt(s, me).pubKeys, c.KeyOf(k))
      && Balance(t, me) == Balance(s, me) - price && Balance(t, ZeroAddr) == Balance(s, ZeroAddr) + price
      && forall x | x != c.KeyOf(k) && x != me && x != ZeroAddr :: Lookup(t, x) == Lookup(s, x)
  {
    hide Process, EconomyOn;
    ProcessIsTransition(c, s, tx);
  }

  lemma StoreForLeaves(c: Crypto, s: State, tx: Transaction, k: string)
    requires tx.payload.StoreKeyFor? && Process(c, s, tx).Ok? && tx.payload.key.config == Some(k)
    ensures var t, payer, price := Process(c, s, tx).value, c.AccountOf(tx.signer), if EconomyOn(s) then 10 else 0;
      var owner := c.AccountOf(tx.payload.owner);
      && c.KeyOf(k) in t && t[c.KeyOf(k)] == KeyRec(KeyInfo(tx.payload.owner, tx.payload.key, false))
      && AccountAt(t, owner).pubKeys == With(AccountAt(s, owner).pubKeys, c.KeyOf(k))
      && Balance(t, owner) == Balance(s, owner)
      && (payer != owner ==> AccountAt(t, payer).pubKeys == AccountAt(s, payer).pubKeys)
      && (payer != owner ==> Balance(t, payer) == Balance(s, payer) - price)
      && Balance(t, ZeroAddr) == Balance(s, ZeroAddr) + price
      && forall x | x != c.KeyOf(k) && x != payer && x != owner && x != ZeroAddr :: Lookup(t, x) == Lookup(s, x)
  {
    hide Process, EconomyOn;
    ProcessIsTransition(c, s, tx);
  }

  lemma RevokeIff(c: Crypto, s: State, tx: Transaction)
    requires tx.payload.RevokeKey?
    requires CoversAll(tx.inputs, {tx.payload.address}) && CoversAll(tx.outputs, {tx.payload.address})
    ensures var r, a := Process(c, s, tx), tx.payload.address;
      && (r.Ok? <==>
            && IsAddressField(c, a) && a in s && s[a].KeyRec?
            && s[a].info.owner == tx.signer && !s[a].info.revoked)
      && (r.Ok? ==> r.value == s[a := KeyRec(KeyInfo(tx.signer, s[a].info.payload, true))])
      // Every key address passes the form.
      && (a.KeyAddr? && IsHexDigest(a.digest) ==> IsAddressField(c, a))
  {
    hide Process, Covers, IsAddressField, IsHexDigest;
    var a := tx.payload.address;
    if a.KeyAddr? && IsHexDigest(a.digest) {
      AddressFieldIff(c, a);
    }
    if Process(c, s, tx).Ok? {
      ProcessIsTransition(c, s, tx);
    }
    if FormValid(c, tx.payload) && HasKey(s, a) && s[a].info.owner == tx.signer && !s[a].info.revoked {
      AcceptedIff(c, s, tx, s[a := KeyRec(s[a].info.(revoked := true))]);
    }
  }
}
