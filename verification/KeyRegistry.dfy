/** Registered keys and the key lists of accounts. */
module KeyRegistry {
  import opened Records
  import opened StateView
  import opened Ledger
  import opened Transitions
  import opened Effects
  import opened Invariants
  import opened Supply
  import KeyFamily

  /** Key `k` is in the list of the account at `x`. */
  predicate Lists(s: State, x: Address, k: Address) {
    k in AccountAt(s, x).pubKeys
  }

  predicate NoRepeats(keys: seq<Address>) {
    forall i, j | 0 <= i < j < |keys| :: keys[i] != keys[j]
  }

  /** A key is listed at an address exactly when it is registered with an owner of that address. */
  ghost predicate Agree(c: Crypto, s: State) {
    && (forall x, k :: Lists(s, x, k) <==> HasKey(s, k) && c.AccountOf(s[k].info.owner) == x)
    && (forall x :: NoRepeats(AccountAt(s, x).pubKeys))
  }

  /** States whose accounts keep their lists and whose keys keep their owners agree alike. */
  lemma SameLists(c: Crypto, s: State, t: State)
    requires Agree(c, s)
    requires forall x :: AccountAt(t, x).pubKeys == AccountAt(s, x).pubKeys
    requires forall k :: HasKey(t, k) <==> HasKey(s, k)
    requires forall k | HasKey(s, k) && HasKey(t, k) :: t[k].info.owner == s[k].info.owner
    ensures Agree(c, t)
  {
    forall x, k ensures Lists(t, x, k) <==> HasKey(t, k) && c.AccountOf(t[k].info.owner) == x {
      assert Lists(t, x, k) <==> Lists(s, x, k);
    }
    forall x ensures NoRepeats(AccountAt(t, x).pubKeys) {
      assert NoRepeats(AccountAt(s, x).pubKeys);
    }
  }

  /** Registering a new key in its owner's list. */
  lemma OneMoreKey(c: Crypto, s: State, t: State, key: Address, info: KeyInfo)
    requires Agree(c, s) && key.KeyAddr? && !HasKey(s, key) && HasKey(t, key) && t[key].info == info
    requires var x := c.AccountOf(info.owner);
      AccountAt(t, x).pubKeys == KeyFamily.Linked(AccountAt(s, x), key).pubKeys
    requires forall x | x != c.AccountOf(info.owner) :: AccountAt(t, x).pubKeys == AccountAt(s, x).pubKeys
    requires forall k | k != key :: HasKey(t, k) <==> HasKey(s, k)
    requires forall k | k != key && HasKey(s, k) && HasKey(t, k) :: t[k].info == s[k].info
    ensures Agree(c, t)
  {
    var owner := c.AccountOf(info.owner);
    assert !Lists(s, owner, key);
    forall x, k ensures Lists(t, x, k) <==> HasKey(t, k) && c.AccountOf(t[k].info.owner) == x {
      assert Lists(s, x, k) <==> HasKey(s, k) && c.AccountOf(s[k].info.owner) == x;
      assert !Lists(s, x, key);
    }
    forall x ensures NoRepeats(AccountAt(t, x).pubKeys) {
      assert NoRepeats(AccountAt(s, x).pubKeys);
    }
  }

  /** GENESIS replaces its signer's record, list and all. */
  lemma GenesisAgrees(c: Crypto, s: State, signer: string, supply: U64, t: State)
    requires WellFormed(s) && Agree(c, s) && Issues(c, s, signer, supply, t)
    ensures Agree(c, t) <==> AccountAt(s, c.AccountOf(signer)).pubKeys == []
  {
    var me := c.AccountOf(signer);
    assert forall k :: HasKey(t, k) <==> HasKey(s, k);
    if AccountAt(s, me).pubKeys == [] {
      SameLists(c, s, t);
    } else {
      var k := AccountAt(s, me).pubKeys[0];
      assert Lists(s, me, k) && HasKey(t, k) && !Lists(t, me, k);
    }
  }

  lemma StoreAgrees(c: Crypto, s: State, signer: string, payload: KeyPayload, t: State)
    requires WellFormed(s) && Agree(c, s) && Stores(c, s, signer, payload, t)
    ensures Agree(c, t)
  {
    hide EconomyOn, KeyFamily.ValidityAllowed, Agree;
    OneMoreKey(c, s, t, c.KeyOf(payload.config.value), KeyInfo(signer, payload, false));
  }

  lemma StoreForAgrees(c: Crypto, s: State, signer: string, payload: KeyPayload, owner: string, t: State)
    requires WellFormed(s) && Agree(c, s) && StoresFor(c, s, signer, payload, owner, t)
    ensures Agree(c, t)
  {
    hide EconomyOn, KeyFamily.ValidityAllowed, Agree;
    OneMoreKey(c, s, t, c.KeyOf(payload.config.value), KeyInfo(owner, payload, false));
  }

  lemma OthersAgree(c: Crypto, s: State, signer: string, p: Payload, t: State)
    requires WellFormed(s) && Agree(c, s) && Transition(c, s, signer, p, t)
    requires !p.Genesis? && !p.StoreKey? && !p.StoreKeyFor?
    requires p.SwapInit? ==> p.receiver.AccountAddr?
    ensures Agree(c, t)
  {
    hide TimeAt, FeeAt, EconomyOn, KeyFamily.ValidityAllowed, SettingAt, Agree;
    SameLists(c, s, t);
  }

  /** A transition keeps keys and lists in agreement, unless it is a GENESIS signed by an account
      that already lists keys. */
  lemma TransitionAgreesIff(c: Crypto, s: State, signer: string, p: Payload, t: State)
    requires WellFormed(s) && Agree(c, s) && Transition(c, s, signer, p, t)
    requires p.SwapInit? ==> p.receiver.AccountAddr?
    ensures Agree(c, t) <==> (p.Genesis? ==> AccountAt(s, c.AccountOf(signer)).pubKeys == [])
  {
    hide Agree;
    if p.Genesis? {
      GenesisAgrees(c, s, signer, p.supply, t);
    } else if p.StoreKey? {
      StoreAgrees(c, s, signer, p.key, t);
    } else if p.StoreKeyFor? {
      StoreForAgrees(c, s, signer, p.key, p.owner, t);
    } else {
      OthersAgree(c, s, signer, p, t);
    }
  }

  /** What one event may do to a registered key: nothing, or revoke it by its owner. */
  lemma EventOnKey(c: Crypto, s: State, e: Event, k: Address)
    requires WellFormed(s) && NamesAccount(e) && k.KeyAddr?
    ensures HasKey(s, k) ==> HasKey(Step(c, s, e), k)
    ensures HasKey(s, k) && Step(c, s, e)[k] != s[k] ==>
      && !s[k].info.revoked && Step(c, s, e)[k].info == s[k].info.(revoked := true)
      && Accepted(c, s, e) && e.tx.payload == RevokeKey(k) && e.tx.signer == s[k].info.owner
    ensures !HasKey(s, k) && HasKey(Step(c, s, e), k) ==>
      var after := Step(c, s, e)[k].info;
      && Registers(c, s, e, k) && !after.revoked
      && after.payload.validTo - after.payload.validFrom <= 365 * 24 * 3600
    ensures Registers(c, s, e, k) ==> !HasKey(s, k) && HasKey(Step(c, s, e), k)
  {
    if Accepted(c, s, e) {
      ProcessIsTransition(c, s, e.tx);
      hide Process;
      TransitionOnKey(c, s, e.tx.signer, e.tx.payload, Process(c, s, e.tx).value, k);
    }
  }

  /** The event is an accepted registration of the key at `k`. */
  predicate Registers(c: Crypto, s: State, e: Event, k: Address) {
    && Accepted(c, s, e) && (e.tx.payload.StoreKey? || e.tx.payload.StoreKeyFor?)
    && e.tx.payload.key.config.Some? && c.KeyOf(e.tx.payload.key.config.value) == k
  }

  lemma TransitionOnKey(c: Crypto, s: State, signer: string, p: Payload, t: State, k: Address)
    requires WellFormed(s) && k.KeyAddr? && Transition(c, s, signer, p, t)
    requires p.SwapInit? ==> p.receiver.AccountAddr?
    ensures HasKey(s, k) ==> HasKey(t, k)
    ensures HasKey(s, k) && t[k] != s[k] ==>
      && !s[k].info.revoked && t[k].info == s[k].info.(revoked := true)
      && p == RevokeKey(k) && signer == s[k].info.owner
    ensures var stores := (p.StoreKey? || p.StoreKeyFor?) && p.key.config.Some? && c.KeyOf(p.key.config.value) == k;
      && (!HasKey(s, k) && HasKey(t, k) ==>
            stores && !t[k].info.revoked && KeyFamily.ValidityAllowed(t[k].info.payload))
      && (stores ==> !HasKey(s, k) && HasKey(t, k))
  {
    hide TimeAt, FeeAt, EconomyOn, SettingAt;
  }

  /** The event is an accepted GENESIS whose signer already lists keys. */
  predicate ForgetsKeys(c: Crypto, s: State, e: Event) {
    Accepted(c, s, e) && e.tx.payload.Genesis? && AccountAt(s, c.AccountOf(e.tx.signer)).pubKeys != []
  }

  ghost predicate NothingForgotten(c: Crypto, es: seq<Event>) {
    forall i | 0 <= i < |es| :: !ForgetsKeys(c, Run(c, EMPTY, es[..i]), es[i])
  }

  /** A registered key that its owner's account does not list. */
  predicate Orphaned(c: Crypto, s: State, k: Address) {
    HasKey(s, k) && !Lists(s, c.AccountOf(s[k].info.owner), k)
  }

  /** A registered key that is not in a list does not get into it: it cannot be registered again. */
  lemma StaysUnlisted(c: Crypto, s: State, signer: string, p: Payload, t: State, x: Address, k: Address)
    requires WellFormed(s) && Transition(c, s, signer, p, t) && (p.SwapInit? ==> p.receiver.AccountAddr?)
    requires HasKey(s, k) && !Lists(s, x, k)
    ensures !Lists(t, x, k)
  {
    hide TimeAt, FeeAt, EconomyOn, KeyFamily.ValidityAllowed, SettingAt;
  }

  lemma OrphanStays(c: Crypto, s: State, e: Event, k: Address)
    requires WellFormed(s) && NamesAccount(e) && Orphaned(c, s, k)
    ensures Orphaned(c, Step(c, s, e), k)
  {
    EventOnKey(c, s, e, k);
    if Accepted(c, s, e) {
      ProcessIsTransition(c, s, e.tx);
      hide Process, WellFormed;
      StaysUnlisted(c, s, e.tx.signer, e.tx.payload, Process(c, s, e.tx).value, c.AccountOf(s[k].info.owner), k);
    }
  }

  lemma OrphanDisagrees(c: Crypto, s: State, k: Address)
    requires Orphaned(c, s, k)
    ensures !Agree(c, s)
  {
  }

  /** A GENESIS that forgets keys orphans one of them. */
  lemma ForgettingOrphans(c: Crypto, s: State, e: Event) returns (k: Address)
    requires WellFormed(s) && Agree(c, s) && ForgetsKeys(c, s, e)
    ensures Orphaned(c, Step(c, s, e), k)
  {
    var me := c.AccountOf(e.tx.signer);
    k := AccountAt(s, me).pubKeys[0];
    assert Lists(s, me, k);
    ProcessIsTransition(c, s, e.tx);
    hide Process;
  }

  /** An event that forgets no keys keeps the agreement. */
  lemma EventAgrees(c: Crypto, s: State, e: Event)
    requires WellFormed(s) && NamesAccount(e) && Agree(c, s) && !ForgetsKeys(c, s, e)
    ensures Agree(c, Step(c, s, e))
  {
    if Accepted(c, s, e) {
      ProcessIsTransition(c, s, e.tx);
      hide Process, Agree, WellFormed, Transition;
      TransitionAgreesIff(c, s, e.tx.signer, e.tx.payload, Process(c, s, e.tx).value);
    } else if !e.Submit? {
      hide Agree;
      SameLists(c, s, Step(c, s, e));
    }
  }

  /** What a run leaves behind: agreement, or a key that is registered and listed nowhere. */
  lemma {:induction false} AgreeOrOrphan(c: Crypto, es: seq<Event>) returns (k: Address)
    requires AllNameAccounts(es)
    ensures NothingForgotten(c, es) ==> Agree(c, Run(c, EMPTY, es))
    ensures !NothingForgotten(c, es) ==> Orphaned(c, Run(c, EMPTY, es), k)
  {
    hide Process, Step, ForgetsKeys, Orphaned;
    k := ZeroAddr;
    if es == [] {
      assert forall x :: AccountAt(EMPTY, x) == NEW_ACCOUNT;
    } else {
      hide Agree, WellFormed;
      var before, e := Run(c, EMPTY, Before(es)), Last(es);
      assert forall i | 0 <= i < |Before(es)| :: Before(es)[..i] == es[..i] && Before(es)[i] == es[i];
      assert es[..|es| - 1] == Before(es) && es[|es| - 1] == e;
      k := AgreeOrOrphan(c, Before(es));
      RunKeepsWellFormed(c, EMPTY, Before(es));
      if !NothingForgotten(c, Before(es)) {
        OrphanStays(c, before, e, k);
      } else if ForgetsKeys(c, before, e) {
        k := ForgettingOrphans(c, before, e);
      } else {
        EventAgrees(c, before, e);
      }
    }
  }

  /** After any run keys and lists agree if and only if no accepted GENESIS was signed by an account
      that already listed keys; and while they agree no key is in two lists. */
  lemma AgreementIff(c: Crypto, es: seq<Event>)
    requires AllNameAccounts(es)
    ensures Agree(c, Run(c, EMPTY, es)) <==>
      forall i | 0 <= i < |es| && Accepted(c, Run(c, EMPTY, es[..i]), es[i]) && es[i].tx.payload.Genesis? ::
        AccountAt(Run(c, EMPTY, es[..i]), c.AccountOf(es[i].tx.signer)).pubKeys == []
    ensures Agree(c, Run(c, EMPTY, es)) ==>
      forall x, y, k | Lists(Run(c, EMPTY, es), x, k) && Lists(Run(c, EMPTY, es), y, k) :: x == y
  {
    hide Process, Run, Orphaned, NoRepeats;
    var k := AgreeOrOrphan(c, es);
    if !NothingForgotten(c, es) {
      OrphanDisagrees(c, Run(c, EMPTY, es), k);
    }
  }

  /** Before GENESIS, storing keys is charged for. */
  ghost predicate ChargedUntilGenesis(c: Crypto, es: seq<Event>) {
    forall i | 0 <= i < |es| :: var s := Run(c, EMPTY, es[..i]); GenesisDone(s) || EconomyOn(s)
  }

  lemma ListsOnlyByStoring(c: Crypto, s: State, signer: string, p: Payload, t: State)
    requires WellFormed(s) && Transition(c, s, signer, p, t) && !p.Genesis?
    requires p.SwapInit? ==> p.receiver.AccountAddr?
    requires Balance(s, c.AccountOf(signer)) == 0 && EconomyOn(s)
    ensures forall x :: AccountAt(t, x).pubKeys == AccountAt(s, x).pubKeys
  {
    hide TimeAt, FeeAt, EconomyOn, KeyFamily.ValidityAllowed, SettingAt;
  }

  /** Nobody can pay for a key before GENESIS. */
  lemma EventListsNothing(c: Crypto, s: State, e: Event)
    requires WellFormed(s) && NamesAccount(e) && EconomyOn(s) && Total(s) == 0
    requires !GenesisDone(s) && GenesisAddr !in s && forall x :: AccountAt(s, x).pubKeys == []
    ensures !GenesisDone(Step(c, s, e)) ==> forall x :: AccountAt(Step(c, s, e), x).pubKeys == []
  {
    hide Total;
    if Accepted(c, s, e) {
      var signer, p, t := e.tx.signer, e.tx.payload, Process(c, s, e.tx).value;
      ProcessIsTransition(c, s, e.tx);
      hide Process, WellFormed;
      TransitionGenesis(c, s, signer, p, t);
      if !GenesisDone(t) {
        BalanceFits(s, c.AccountOf(signer));
        ListsOnlyByStoring(c, s, signer, p, t);
      }
    } else if !e.Submit? {
      assert forall x :: AccountAt(Step(c, s, e), x).pubKeys == AccountAt(s, x).pubKeys;
    }
  }

  lemma {:induction false} NothingListedBeforeGenesis(c: Crypto, es: seq<Event>)
    requires AllNameAccounts(es) && ChargedUntilGenesis(c, es)
    ensures !GenesisDone(Run(c, EMPTY, es)) ==> forall x :: AccountAt(Run(c, EMPTY, es), x).pubKeys == []
  {
    hide Total, Process, Step, EconomyOn;
    if es == [] {
      assert forall x :: AccountAt(EMPTY, x) == NEW_ACCOUNT;
    } else {
      hide WellFormed;
      var before, e := Run(c, EMPTY, Before(es)), Last(es);
      assert forall i | 0 <= i < |Before(es)| :: Before(es)[..i] == es[..i];
      assert es[..|es| - 1] == Before(es);
      NothingListedBeforeGenesis(c, Before(es));
      SupplyHoldsInRuns(c, Before(es));
      if GenesisDone(before) {
        GenesisStays(c, before, e);
      } else {
        EventListsNothing(c, before, e);
      }
    }
  }

  lemma GenesisStays(c: Crypto, s: State, e: Event)
    requires WellFormed(s) && NamesAccount(e) && GenesisDone(s)
    ensures GenesisDone(Step(c, s, e))
  {
    if Accepted(c, s, e) {
      ProcessIsTransition(c, s, e.tx);
      hide Process;
      TransitionGenesis(c, s, e.tx.signer, e.tx.payload, Process(c, s, e.tx).value);
    }
  }

  /** In particular, they agree after every run that charges for keys until GENESIS. */
  lemma RegistryAgrees(c: Crypto, es: seq<Event>)
    requires AllNameAccounts(es) && ChargedUntilGenesis(c, es)
    ensures Agree(c, Run(c, EMPTY, es))
  {
    hide Process, Agree, Total;
    forall i | 0 <= i < |es| && Accepted(c, Run(c, EMPTY, es[..i]), es[i]) && es[i].tx.payload.Genesis?
      ensures AccountAt(Run(c, EMPTY, es[..i]), c.AccountOf(es[i].tx.signer)).pubKeys == []
    {
      var s := Run(c, EMPTY, es[..i]);
      assert forall j | 0 <= j < i :: es[..i][..j] == es[..j];
      NothingListedBeforeGenesis(c, es[..i]);
      SupplyHoldsInRuns(c, es[..i]);
      SubmitSupply(c, s, es[i].tx);
    }
    AgreementIff(c, es);
  }

  /** How many registrations of the key at `k` a run accepts. */
  function RegistrationsOf(c: Crypto, es: seq<Event>, k: Address): nat {
    if es == [] then 0
    else RegistrationsOf(c, Before(es), k) + (if Registers(c, Run(c, EMPTY, Before(es)), Last(es), k) then 1 else 0)
  }

  /** A key is registered at most once in a run, exactly if it is in the final state, and never for
      more than 365 days. */
  lemma {:induction false} RegisteredAtMostOnce(c: Crypto, es: seq<Event>, k: Address)
    requires AllNameAccounts(es) && k.KeyAddr?
    ensures RegistrationsOf(c, es, k) == (if HasKey(Run(c, EMPTY, es), k) then 1 else 0)
    ensures HasKey(Run(c, EMPTY, es), k) ==>
      var payload := Run(c, EMPTY, es)[k].info.payload; payload.validTo - payload.validFrom <= 365 * 24 * 3600
  {
    hide Process, Step, WellFormed;
    if es != [] {
      RegisteredAtMostOnce(c, Before(es), k);
      RunKeepsWellFormed(c, EMPTY, Before(es));
      EventOnKey(c, Run(c, EMPTY, Before(es)), Last(es), k);
    }
  }

  /** Owner and payload of a key never change, and a revoked key stays revoked. */
  lemma {:induction false} KeysAreKept(c: Crypto, es: seq<Event>, i: nat, k: Address)
    requires AllNameAccounts(es) && k.KeyAddr? && i <= |es| && HasKey(Run(c, EMPTY, es[..i]), k)
    ensures HasKey(Run(c, EMPTY, es), k)
    ensures var early, late := Run(c, EMPTY, es[..i])[k].info, Run(c, EMPTY, es)[k].info;
      late.owner == early.owner && late.payload == early.payload && (early.revoked ==> late.revoked)
  {
    hide Process, Step, WellFormed;
    if i == |es| {
      assert es[..i] == es;
    } else {
      assert Before(es)[..i] == es[..i];
      KeysAreKept(c, Before(es), i, k);
      RunKeepsWellFormed(c, EMPTY, Before(es));
      EventOnKey(c, Run(c, EMPTY, Before(es)), Last(es), k);
    }
  }

  /** A revoked key was revoked by an accepted REVOKE of its owner. */
  lemma {:induction false} RevokedByOwner(c: Crypto, es: seq<Event>, k: Address)
    requires AllNameAccounts(es) && k.KeyAddr?
    requires HasKey(Run(c, EMPTY, es), k) && Run(c, EMPTY, es)[k].info.revoked
    ensures exists i | 0 <= i < |es| ::
      && Accepted(c, Run(c, EMPTY, es[..i]), es[i]) && es[i].tx.payload == RevokeKey(k)
      && es[i].tx.signer == Run(c, EMPTY, es)[k].info.owner
  {
    hide Process, Step, WellFormed;
    var before := Run(c, EMPTY, Before(es));
    RunKeepsWellFormed(c, EMPTY, Before(es));
    EventOnKey(c, before, Last(es), k);
    assert es[..|es| - 1] == Before(es);
    if HasKey(before, k) && before[k].info.revoked {
      RevokedByOwner(c, Before(es), k);
      var i :| 0 <= i < |Before(es)| && Accepted(c, Run(c, EMPTY, Before(es)[..i]), Before(es)[i])
        && Before(es)[i].tx.payload == RevokeKey(k) && Before(es)[i].tx.signer == before[k].info.owner;
      assert Before(es)[..i] == es[..i] && Before(es)[i] == es[i];
    } else {
      assert es[|es| - 1] == Last(es);
    }
  }
}
