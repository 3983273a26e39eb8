/** Swaps are never withdrawn early, and never stuck once their time has passed. */
module TimeLock {
  import opened Wrappers
  import opened Records
  import opened StateView
  import opened Forms
  import opened Ledger
  import opened Transitions
  import opened Effects
  import opened Invariants
  import opened Supply
  import opened Room
  import opened SwapHistory
  import SwapClient
  import SwapFamily
  import KeyFamily

  /** Blocks are published with timestamps that do not go back. */
  ghost predicate TimesRise(c: Crypto, es: seq<Event>) {
    forall i | 0 <= i < |es| && es[i].Block? ::
      var now := TimeAt(Run(c, EMPTY, es[..i])); now.Some? ==> now.value <= es[i].timestamp
  }

  predicate NoLater(x: Option<nat>, y: Option<nat>) {
    x.Some? ==> y.Some? && x.value <= y.value
  }

  lemma TransitionKeepsTime(c: Crypto, s: State, signer: string, p: Payload, t: State)
    requires WellFormed(s) && Transition(c, s, signer, p, t)
    requires p.SwapInit? ==> p.receiver.AccountAddr?
    ensures TimeAt(t) == TimeAt(s)
  {
    hide FeeAt, EconomyOn, KeyFamily.ValidityAllowed, SettingAt;
  }

  lemma StepKeepsTime(c: Crypto, s: State, e: Event)
    requires WellFormed(s) && NamesAccount(e)
    requires e.Block? && TimeAt(s).Some? ==> TimeAt(s).value <= e.timestamp
    ensures NoLater(TimeAt(s), TimeAt(Step(c, s, e)))
  {
    if Accepted(c, s, e) {
      ProcessIsTransition(c, s, e.tx);
      hide Process;
      TransitionKeepsTime(c, s, e.tx.signer, e.tx.payload, Process(c, s, e.tx).value);
    }
  }

  /** Every recorded operation saw a time no later than the current one. */
  lemma {:induction false} OpsAreInThePast(c: Crypto, es: seq<Event>, a: Address, k: nat)
    requires AllNameAccounts(es) && TimesRise(c, es) && k < |OpsOn(c, es, a)|
    ensures NoLater(OpsOn(c, es, a)[k].time, TimeAt(Run(c, EMPTY, es)))
  {
    hide Step, Process, TimeAt, WellFormed;
    if es != [] {
      var before := Run(c, EMPTY, Before(es));
      assert forall i | 0 <= i < |Before(es)| :: Before(es)[..i] == es[..i];
      assert es[..|es| - 1] == Before(es);
      RunKeepsWellFormed(c, EMPTY, Before(es));
      StepKeepsTime(c, before, Last(es));
      if k < |OpsOn(c, Before(es), a)| {
        OpsAreInThePast(c, Before(es), a, k);
      }
    }
  }

  lemma ExpiryIsLast(c: Crypto, ops: seq<Op>, swap: Swap)
    requires Explains(c, ops, swap) && swap.state.Expired?
    ensures |ops| >= 2 && ExpiredBy(c, ops[|ops| - 1], swap)
  {
    hide Prepared, OpenedBy, ExpiredBy;
  }

  /** No swap is expired before its time lock has run out. */
  lemma ExpiredOnlyAfterTimeLock(c: Crypto, es: seq<Event>, a: Address)
    requires AllNameAccounts(es) && TimesRise(c, es) && a.SwapAddr? && HasSwap(Run(c, EMPTY, es), a)
    requires Run(c, EMPTY, es)[a].swap.state.Expired?
    ensures var swap, now := Run(c, EMPTY, es)[a].swap, TimeAt(Run(c, EMPTY, es));
      now.Some? && swap.createdAt + (if swap.isInitiator then 24 * 3600 else 48 * 3600) <= now.value
  {
    hide Run, OpsOn, Explains, TimeAt, TimesRise, AllNameAccounts, IsSwapId;
    SwapsAreExplained(c, es, a);
    ExpiryIsLast(c, OpsOn(c, es, a), Run(c, EMPTY, es)[a].swap);
    OpsAreInThePast(c, es, a, |OpsOn(c, es, a)| - 1);
  }

  /** What the sender of a live swap has to wait for, and what its balance must leave room for. */
  predicate MayWithdraw(s: State, swap: Swap) {
    && TimeAt(s).Some? && swap.createdAt + (if swap.isInitiator then 24 * 3600 else 48 * 3600) <= TimeAt(s).value
    && Balance(s, swap.sender) + swap.amount <= MAX_U64
  }

  lemma WithdrawalDeclares(c: Crypto, s: State, me: Address, id: string)
    ensures CoversAll(SwapClient.Inputs(c, me, SwapExpire(id), ZeroAddr), ClockAddresses(s) + {c.SwapOf(id), me})
    ensures CoversAll(SwapClient.Outputs(c, me, SwapExpire(id), ZeroAddr), {c.SwapOf(id), me})
  {
    var p := SwapExpire(id);
    var inputs, outputs := SwapClient.Inputs(c, me, p, ZeroAddr), SwapClient.Outputs(c, me, p, ZeroAddr);
    assert inputs[0] == Only(c.SwapOf(id)) && inputs[1] == Only(me)
        && inputs[2] == Only(ConfigAddr) && inputs[3] == ALL_BLOCKS;
    assert outputs[0] == Only(c.SwapOf(id)) && outputs[1] == Only(me);
  }

  lemma ExpireSucceeds(c: Crypto, s: State, inputs: seq<Scope>, signer: string, id: string)
    requires HasLiveSwap(s, c.SwapOf(id)) && c.AccountOf(signer) == s[c.SwapOf(id)].swap.sender
    requires MayWithdraw(s, s[c.SwapOf(id)].swap)
    requires CoversAll(inputs, ClockAddresses(s) + {c.SwapOf(id), c.AccountOf(signer)})
    ensures var r := SwapFamily.Expire(c, View(s, inputs), signer, id);
      r.Ok? && r.value.Keys == {c.SwapOf(id), c.AccountOf(signer)}
  {
    hide Covers, TimeAt, ClockAddresses, ReadAccount, SwapFamily.LiveSwap, SwapFamily.LatestTime;
    LiveSwapReads(s, inputs, c.SwapOf(id));
    ClockReads(s, inputs);
    AccountReads(s, inputs, c.AccountOf(signer));
  }

  lemma WithdrawalAccepted(c: Crypto, s: State, signer: string, id: string)
    requires IsSwapId(id) && HasLiveSwap(s, c.SwapOf(id))
    requires c.AccountOf(signer) == s[c.SwapOf(id)].swap.sender && MayWithdraw(s, s[c.SwapOf(id)].swap)
    ensures Process(c, s, SwapClient.Request(c, signer, SwapExpire(id), ZeroAddr)).Ok?
  {
    hide MayWithdraw, CoversAll, SwapFamily.Expire, SwapClient.Inputs, SwapClient.Outputs, IsSwapId;
    WithdrawalDeclares(c, s, c.AccountOf(signer), id);
    ExpireSucceeds(c, s, SwapClient.Request(c, signer, SwapExpire(id), ZeroAddr).inputs, signer, id);
  }

  /** The sender's request to withdraw a live swap is accepted if and only if the time lock has run out
      and the sender's balance has room for the amount. */
  lemma WithdrawalIff(c: Crypto, s: State, signer: string, id: string)
    requires IsSwapId(id) && HasLiveSwap(s, c.SwapOf(id))
    requires c.AccountOf(signer) == s[c.SwapOf(id)].swap.sender
    ensures var swap := s[c.SwapOf(id)].swap;
      Process(c, s, SwapClient.Request(c, signer, SwapExpire(id), ZeroAddr)).Ok? <==>
      && TimeAt(s).Some?
      && swap.createdAt + (if swap.isInitiator then 24 * 3600 else 48 * 3600) <= TimeAt(s).value
      && Balance(s, swap.sender) + swap.amount <= MAX_U64
  {
    var tx := SwapClient.Request(c, signer, SwapExpire(id), ZeroAddr);
    hide Process, TimeAt;
    if Process(c, s, tx).Ok? {
      ProcessIsTransition(c, s, tx);
    } else if MayWithdraw(s, s[c.SwapOf(id)].swap) {
      WithdrawalAccepted(c, s, signer, id);
    }
  }

  /** No stuck funds: in every reachable state the sender's request to withdraw a live swap is accepted
      if and only if its time lock has run out, and then returns exactly the amount. */
  lemma FundsAreNeverStuck(c: Crypto, es: seq<Event>, a: Address, signer: string)
    requires AllNameAccounts(es) && a.SwapAddr? && HasLiveSwap(Run(c, EMPTY, es), a)
    requires c.AccountOf(signer) == Run(c, EMPTY, es)[a].swap.sender
    ensures var s := Run(c, EMPTY, es); var swap := s[a].swap;
      var r := Process(c, s, SwapClient.Request(c, signer, SwapExpire(swap.id), ZeroAddr));
      && (r.Ok? <==>
            TimeAt(s).Some? && swap.createdAt + (if swap.isInitiator then 24 * 3600 else 48 * 3600) <= TimeAt(s).value)
      && (r.Ok? ==>
            && HasSwap(r.value, a) && r.value[a].swap == swap.(state := Expired)
            && Balance(r.value, swap.sender) == Balance(s, swap.sender) + swap.amount)
  {
    hide Process;
    var s := Run(c, EMPTY, es);
    SwapsAreExplained(c, es, a);
    PartiesHaveRoom(c, es, a);
    hide Run, OpsOn;
    var tx := SwapClient.Request(c, signer, SwapExpire(s[a].swap.id), ZeroAddr);
    WithdrawalIff(c, s, signer, s[a].swap.id);
    if Process(c, s, tx).Ok? {
      ProcessIsTransition(c, s, tx);
    }
  }

  lemma CloseSucceeds(c: Crypto, s: State, inputs: seq<Scope>, p: Payload)
    requires p.SwapClose? && SwapClient.MayClose(c, s, p)
    requires var swap := s[c.SwapOf(p.swapId)].swap;
      && Covers(inputs, c.SwapOf(p.swapId)) && Covers(inputs, swap.receiver)
      && Balance(s, swap.receiver) + swap.amount <= MAX_U64
    ensures var r := SwapFamily.Close(c, View(s, inputs), p.swapId, p.secretKey);
      r.Ok? && r.value.Keys == {c.SwapOf(p.swapId), s[c.SwapOf(p.swapId)].swap.receiver}
  {
    hide Covers, ReadAccount, SwapFamily.LiveSwap, IsSwapId;
    LiveSwapReads(s, inputs, c.SwapOf(p.swapId));
    AccountReads(s, inputs, s[c.SwapOf(p.swapId)].swap.receiver);
  }

  lemma CloseAccepted(c: Crypto, s: State, signer: string, p: Payload)
    requires p.SwapClose? && SwapClient.MayClose(c, s, p)
    requires var swap := s[c.SwapOf(p.swapId)].swap; Balance(s, swap.receiver) + swap.amount <= MAX_U64
    ensures Process(c, s, SwapClient.Request(c, signer, p, s[c.SwapOf(p.swapId)].swap.receiver)).Ok?
  {
    var a, to := c.SwapOf(p.swapId), s[c.SwapOf(p.swapId)].swap.receiver;
    var scopes := SwapClient.Inputs(c, c.AccountOf(signer), p, to);
    assert scopes[0] == Only(a) && scopes[2] == Only(to);
    assert Covers(scopes, a) && Covers(scopes, to);
    CloseSucceeds(c, s, scopes, p);
    hide Covers, SwapFamily.Close, SwapClient.Inputs, IsSwapId, Given;
  }

  /** The secret is enough: in every reachable state a request to close a live swap, naming its receiver,
      is accepted if and only if it brings a preimage of the lock and an initiator's swap is approved,
      and then pays exactly the amount. */
  lemma SecretIsEnough(c: Crypto, es: seq<Event>, a: Address, signer: string, secret: string)
    requires AllNameAccounts(es) && a.SwapAddr? && HasLiveSwap(Run(c, EMPTY, es), a)
    ensures var s := Run(c, EMPTY, es); var swap := s[a].swap;
      var r := Process(c, s, SwapClient.Request(c, signer, SwapClose(swap.id, secret), swap.receiver));
      && (r.Ok? <==>
            && Given(secret) && swap.lock != "" && c.keccak(secret) == Some(swap.lock)
            && (swap.isInitiator ==> swap.state == Approved))
      && (r.Ok? ==>
            && HasSwap(r.value, a) && r.value[a].swap == swap.(state := Closed, secretKey := secret)
            && Balance(r.value, swap.receiver) == Balance(s, swap.receiver) + swap.amount)
  {
    hide Process;
    var s := Run(c, EMPTY, es);
    SwapsAreExplained(c, es, a);
    PartiesHaveRoom(c, es, a);
    RunKeepsWellFormed(c, EMPTY, es);
    hide Run, OpsOn, IsSwapId, Given;
    var p := SwapClose(s[a].swap.id, secret);
    var tx := SwapClient.Request(c, signer, p, s[a].swap.receiver);
    if Process(c, s, tx).Ok? {
      ProcessIsTransition(c, s, tx);
    } else if SwapClient.MayClose(c, s, p) {
      CloseAccepted(c, s, signer, p);
    }
  }
}
