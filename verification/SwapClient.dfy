/** The inputs and outputs the swap client declares, and that they are enough. */
module SwapClient {
  import opened Wrappers
  import opened Records
  import opened StateView
  import opened Forms
  import opened Ledger
  import opened Transitions
  import SwapFamily

  predicate IsSwapPayload(p: Payload) {
    p.SwapInit? || p.SwapSetLock? || p.SwapApprove? || p.SwapExpire? || p.SwapClose?
  }

  /** `receiver` is what the caller of the closing request names; other requests do not use it. */
  function Inputs(c: Crypto, user: Address, p: Payload, receiver: Address): seq<Scope>
    requires IsSwapPayload(p)
  {
    var swap := Only(c.SwapOf(p.swapId));
    match p
    case SwapInit(_, _, _, _) =>
      [swap, Only(user), Only(SettingAddr(SwapFamily.COMMISSION_KEY)), Only(ZeroAddr), Only(ConfigAddr), ALL_BLOCKS]
    case SwapExpire(_) => [swap, Only(user), Only(ConfigAddr), ALL_BLOCKS]
    case SwapClose(_, _) => [swap, Only(ZeroAddr), Only(receiver), Only(user)]
    case _ => [swap, Only(user)]
  }

  function Outputs(c: Crypto, user: Address, p: Payload, receiver: Address): seq<Scope>
    requires IsSwapPayload(p)
  {
    var swap := Only(c.SwapOf(p.swapId));
    match p
    case SwapInit(_, _, _, _) => [swap, Only(user), Only(ZeroAddr)]
    case SwapExpire(_) => [swap, Only(user)]
    case SwapClose(_, _) => Inputs(c, user, p, receiver)
    case _ => [swap]
  }

  /** The transaction the client sends. */
  function Request(c: Crypto, signer: string, p: Payload, receiver: Address): Transaction
    requires IsSwapPayload(p)
  {
    var user := c.AccountOf(signer);
    Transaction(signer, Inputs(c, user, p, receiver), Outputs(c, user, p, receiver), p)
  }

  /** The addresses the client declares for each operation, and no others. */
  lemma DeclaredExactly(c: Crypto, user: Address, p: Payload, receiver: Address, a: Address)
    requires IsSwapPayload(p)
    ensures Covers(Inputs(c, user, p, receiver), a) <==>
      || a == c.SwapOf(p.swapId) || a == user
      || (p.SwapInit? && (a == ZeroAddr || a == SettingAddr("remme.settings.swap_comission")))
      || ((p.SwapInit? || p.SwapExpire?) && (a.ConfigAddr? || a.BlockAddr?))
      || (p.SwapClose? && (a == ZeroAddr || a == receiver))
    ensures Covers(Outputs(c, user, p, receiver), a) <==>
      || a == c.SwapOf(p.swapId)
      || ((p.SwapInit? || p.SwapExpire? || p.SwapClose?) && a == user)
      || ((p.SwapInit? || p.SwapClose?) && a == ZeroAddr)
      || (p.SwapClose? && a == receiver)
  {
    var inputs, outputs := Inputs(c, user, p, receiver), Outputs(c, user, p, receiver);
    CoversIff(inputs, a);
    CoversIff(outputs, a);
    hide Covers;
  }

  lemma CoversIff(scopes: seq<Scope>, a: Address)
    requires |scopes| <= 6
    ensures Covers(scopes, a) <==>
      || (|scopes| > 0 && scopes[0].Contains(a)) || (|scopes| > 1 && scopes[1].Contains(a))
      || (|scopes| > 2 && scopes[2].Contains(a)) || (|scopes| > 3 && scopes[3].Contains(a))
      || (|scopes| > 4 && scopes[4].Contains(a)) || (|scopes| > 5 && scopes[5].Contains(a))
  {
  }

  lemma InitDeclares(c: Crypto, user: Address, p: Payload, receiver: Address)
    requires p.SwapInit?
    ensures var inputs := Inputs(c, user, p, receiver);
      && Covers(inputs, c.SwapOf(p.swapId)) && Covers(inputs, user) && Covers(inputs, ZeroAddr)
      && Covers(inputs, SettingAddr(SwapFamily.COMMISSION_KEY)) && Covers(inputs, ConfigAddr)
      && forall num :: Covers(inputs, BlockAddr(num))
    ensures CoversAll(Outputs(c, user, p, receiver), {c.SwapOf(p.swapId), user, ZeroAddr})
  {
    var inputs, outputs := Inputs(c, user, p, receiver), Outputs(c, user, p, receiver);
    assert inputs[0] == Only(c.SwapOf(p.swapId)) && inputs[1] == Only(user)
        && inputs[2] == Only(SettingAddr(SwapFamily.COMMISSION_KEY)) && inputs[3] == Only(ZeroAddr)
        && inputs[4] == Only(ConfigAddr) && inputs[5] == ALL_BLOCKS;
    assert outputs[0] == Only(c.SwapOf(p.swapId)) && outputs[1] == Only(user) && outputs[2] == Only(ZeroAddr);
  }

  lemma InitIsCovered(c: Crypto, s: State, signer: string, p: Payload, receiver: Address)
    requires p.SwapInit?
    ensures Process(c, s, Request(c, signer, p, receiver)) != Err(Unauthorized)
  {
    InitDeclares(c, c.AccountOf(signer), p, receiver);
    hide Inputs, Outputs, Covers, CoversAll, IsSwapId;
    InitReadsCovered(c, View(s, Request(c, signer, p, receiver).inputs), signer, p.swapId, p.receiver, p.amount,
      p.initLock);
    hide SwapFamily.Init;
  }

  lemma InitReadsCovered(c: Crypto, v: View, signer: string, id: string, receiver: Address, amount: U64, lock: string)
    requires Covers(v.inputs, c.SwapOf(id)) && Covers(v.inputs, c.AccountOf(signer)) && Covers(v.inputs, ZeroAddr)
    requires Covers(v.inputs, SettingAddr(SwapFamily.COMMISSION_KEY)) && Covers(v.inputs, ConfigAddr)
    requires forall num :: Covers(v.inputs, BlockAddr(num))
    ensures var r := SwapFamily.Init(c, v, signer, id, receiver, amount, lock);
      r != Err(Unauthorized) && (r.Ok? ==> r.value.Keys == {c.SwapOf(id), c.AccountOf(signer), ZeroAddr})
  {
    hide Covers;
    assert SwapFamily.LatestTime(v) != Err(Unauthorized);
    assert SwapFamily.Commission(c, v) != Err(Unauthorized);
    hide SwapFamily.LatestTime, SwapFamily.Commission;
  }

  lemma SetLockIsCovered(c: Crypto, s: State, signer: string, p: Payload, receiver: Address)
    requires p.SwapSetLock? || p.SwapApprove?
    ensures Process(c, s, Request(c, signer, p, receiver)) != Err(Unauthorized)
  {
    var tx := Request(c, signer, p, receiver);
    assert tx.inputs[0] == Only(c.SwapOf(p.swapId)) && tx.outputs[0] == Only(c.SwapOf(p.swapId));
  }

  lemma ExpireReadsCovered(c: Crypto, v: View, signer: string, id: string)
    requires Covers(v.inputs, c.SwapOf(id)) && Covers(v.inputs, c.AccountOf(signer)) && Covers(v.inputs, ConfigAddr)
    requires forall num :: Covers(v.inputs, BlockAddr(num))
    ensures var r := SwapFamily.Expire(c, v, signer, id);
      r != Err(Unauthorized) && (r.Ok? ==> r.value.Keys == {c.SwapOf(id), c.AccountOf(signer)})
  {
    hide Covers;
    assert SwapFamily.LatestTime(v) != Err(Unauthorized);
    hide SwapFamily.LatestTime;
  }

  lemma ExpireIsCovered(c: Crypto, s: State, signer: string, p: Payload, receiver: Address)
    requires p.SwapExpire?
    ensures Process(c, s, Request(c, signer, p, receiver)) != Err(Unauthorized)
  {
    hide SwapFamily.Expire, IsSwapId;
    var tx := Request(c, signer, p, receiver);
    assert tx.inputs[0] == Only(c.SwapOf(p.swapId)) && tx.inputs[1] == Only(c.AccountOf(signer))
        && tx.inputs[2] == Only(ConfigAddr) && tx.inputs[3] == ALL_BLOCKS;
    assert tx.outputs[0] == Only(c.SwapOf(p.swapId)) && tx.outputs[1] == Only(c.AccountOf(signer));
    ExpireReadsCovered(c, View(s, tx.inputs), signer, p.swapId);
  }

  /** Every guard of CLOSE before the receiver's account is read. */
  predicate MayClose(c: Crypto, s: State, p: Payload)
    requires p.SwapClose?
  {
    && FormValid(c, p) && HasLiveSwap(s, c.SwapOf(p.swapId))
    && var swap := s[c.SwapOf(p.swapId)].swap;
       swap.lock != "" && c.keccak(p.secretKey) == Some(swap.lock) && (swap.isInitiator ==> swap.state == Approved)
  }

  /** A closing request fails for its declared addresses exactly when it would pay a receiver it
      neither named nor declares anyway. */
  lemma CloseIsCovered(c: Crypto, s: State, signer: string, p: Payload, receiver: Address)
    requires p.SwapClose?
    ensures Process(c, s, Request(c, signer, p, receiver)) == Err(Unauthorized) <==>
      && MayClose(c, s, p)
      && s[c.SwapOf(p.swapId)].swap.receiver !in {receiver, ZeroAddr, c.AccountOf(signer), c.SwapOf(p.swapId)}
  {
    var tx := Request(c, signer, p, receiver);
    var v, a := View(s, tx.inputs), c.SwapOf(p.swapId);
    assert tx.inputs[0] == Only(a) && tx.inputs[1] == Only(ZeroAddr) && tx.inputs[2] == Only(receiver)
        && tx.inputs[3] == Only(c.AccountOf(signer)) && tx.outputs == tx.inputs;
    assert Covers(tx.inputs, a);
    assert SwapFamily.LiveSwap(v, a).Ok? <==> HasLiveSwap(s, a);
    if HasLiveSwap(s, a) {
      var to := s[a].swap.receiver;
      assert Covers(tx.inputs, to) <==> to in {receiver, ZeroAddr, c.AccountOf(signer), a};
    }
  }

  /** For every state, what the client declares is enough for the swap operations. */
  lemma DeclaredIsEnough(c: Crypto, s: State, signer: string, p: Payload, receiver: Address)
    requires IsSwapPayload(p)
    requires p.SwapClose? && HasSwap(s, c.SwapOf(p.swapId)) ==> s[c.SwapOf(p.swapId)].swap.receiver == receiver
    ensures Process(c, s, Request(c, signer, p, receiver)) != Err(Unauthorized)
  {
    hide Process;
    match p
    case SwapInit(_, _, _, _) => InitIsCovered(c, s, signer, p, receiver);
    case SwapSetLock(_, _) => SetLockIsCovered(c, s, signer, p, receiver);
    case SwapApprove(_) => SetLockIsCovered(c, s, signer, p, receiver);
    case SwapExpire(_) => ExpireIsCovered(c, s, signer, p, receiver);
    case SwapClose(_, _) => CloseIsCovered(c, s, signer, p, receiver);
  }
}
