/** Runs and states in which the ledger does less than one would expect of it. */
module Counterexamples {
  import opened Wrappers
  import opened Records
  import opened StateView
  import opened Forms
  import opened Ledger
  import opened Transitions
  import opened Effects
  import opened Acceptance
  import opened Invariants
  import opened Supply
  import opened KeyRegistry
  import opened Balances
  import opened Overflow
  import opened SwapHistory
  import SwapClient
  import SwapFamily
  import KeyFamily

  const KEY := KeyPayload(Some("k"), 1, 2, "")

  /** A signer issues the largest supply, registers a key for itself through STORE_AND_PAY, and opens a
      swap for the commission of the day. */
  function IssueAll(c: Crypto): Transaction {
    var scopes := [Only(GenesisAddr), Only(c.AccountOf("a"))];
    Transaction("a", scopes, scopes, Genesis(MAX_U64))
  }

  function StoreForSelf(c: Crypto): Transaction {
    var scopes := [Only(c.KeyOf("k")), Only(c.AccountOf("a")), Only(ZeroAddr),
                   Only(SettingAddr(KeyFamily.ECONOMY_KEY))];
    Transaction("a", scopes, scopes, StoreKeyFor(KEY, "a", "s"))
  }

  const COMMISSION := "18446744073709551610"

  function SetCommission(): Event {
    Setting(SwapFamily.COMMISSION_KEY, [(SwapFamily.COMMISSION_KEY, COMMISSION)])
  }

  function OpenSwap(c: Crypto, id: string, receiver: Address): Transaction {
    SwapClient.Request(c, "a", SwapInit(id, receiver, 1, ""), ZeroAddr)
  }

  function Issued1(c: Crypto): State {
    map[c.AccountOf("a") := AccountRec(Account(MAX_U64, [])), GenesisAddr := GenesisRec(true)]
  }

  lemma FirstStep(c: Crypto)
    ensures Process(c, EMPTY, IssueAll(c)) == Ok(Issued1(c))
  {
    var tx := IssueAll(c);
    assert tx.inputs[0] == Only(GenesisAddr) && tx.inputs[1] == Only(c.AccountOf("a"));
    assert EMPTY[c.AccountOf("a") := AccountRec(Account(MAX_U64, []))][GenesisAddr := GenesisRec(true)] == Issued1(c);
    hide Process;
    AcceptedIff(c, EMPTY, tx, Issued1(c));
  }

  lemma FirstFacts(c: Crypto)
    ensures WellFormed(Issued1(c)) && EconomyOn(Issued1(c)) && !HasKey(Issued1(c), c.KeyOf("k"))
    ensures Balance(Issued1(c), c.AccountOf("a")) == MAX_U64 && Balance(Issued1(c), ZeroAddr) == 0
  {
  }

  lemma StoreForSelfDeclares(c: Crypto)
    ensures var scopes := StoreForSelf(c).inputs;
      CoversAll(scopes, {c.KeyOf("k"), c.AccountOf("a"), ZeroAddr, SettingAddr(KeyFamily.ECONOMY_KEY)})
  {
    var scopes := StoreForSelf(c).inputs;
    assert scopes[0] == Only(c.KeyOf("k")) && scopes[1] == Only(c.AccountOf("a")) && scopes[2] == Only(ZeroAddr)
        && scopes[3] == Only(SettingAddr(KeyFamily.ECONOMY_KEY));
  }

  lemma SecondStep(c: Crypto)
    requires c.keyVerifies(KEY) && c.ownerSigned("a", "s", KEY) == Some(true)
    ensures Process(c, Issued1(c), StoreForSelf(c)).Ok?
  {
    var tx, s, me, key := StoreForSelf(c), Issued1(c), c.AccountOf("a"), c.KeyOf("k");
    StoreForSelfDeclares(c);
    FirstFacts(c);
    hide Covers, Process, Issued1, EconomyOn, HasKey, Balance, PaidIn;
    var t := PaidIn(s)[me := Rebalanced(s, me, Balance(s, me) - Price(s))]
                      [key := KeyRec(KeyInfo("a", KEY, false))]
                      [me := AccountRec(KeyFamily.Linked(AccountAt(s, me), key))];
    assert StoresFor(c, s, "a", KEY, "a", t);
    AcceptedIff(c, s, tx, t);
  }

  /** The state after the commission is set and a block is published. */
  function Priced(s: State): State {
    s[SettingAddr(SwapFamily.COMMISSION_KEY) := SettingRec([(SwapFamily.COMMISSION_KEY, COMMISSION)])]
     [BlockAddr(0) := BlockRec(0, 0)][ConfigAddr := ConfigRec(0, 0)]
  }

  lemma PricedFacts(c: Crypto, s: State, a: Address, id: string)
    requires c.parseInt(COMMISSION) == Some(MAX_U64 - 5)
    ensures Step(c, Step(c, s, SetCommission()), Block(0, 0, 0)) == Priced(s)
    ensures FeeAt(c, Priced(s)) == MAX_U64 - 5 && TimeAt(Priced(s)).Some?
    ensures a.IsAccount() ==> Balance(Priced(s), a) == Balance(s, a)
    ensures HasSwap(Priced(s), c.SwapOf(id)) <==> HasSwap(s, c.SwapOf(id))
  {
    assert SettingAt(Priced(s), SwapFamily.COMMISSION_KEY) == Some(COMMISSION);
  }

  lemma OpenSwapReads(c: Crypto, t: State, id: string, receiver: Address)
    ensures var tx := OpenSwap(c, id, receiver); ReadsCovered(c, t, tx.inputs, tx.signer, tx.payload)
  {
    hide Covers, CoversAll, SwapClient.Inputs, SwapClient.Outputs;
    var tx := OpenSwap(c, id, receiver);
    SwapClient.InitDeclares(c, c.AccountOf("a"), tx.payload, ZeroAddr);
  }

  lemma OpenSwapFails(c: Crypto, s: State, id: string, receiver: Address)
    requires c.parseInt(COMMISSION) == Some(MAX_U64 - 5) && IsSwapId(id) && IsAddressField(c, receiver)
    requires Balance(s, c.AccountOf("a")) == MAX_U64 && Balance(s, ZeroAddr) == 10 && !HasSwap(s, c.SwapOf(id))
    ensures Process(c, Step(c, Step(c, s, SetCommission()), Block(0, 0, 0)), OpenSwap(c, id, receiver))
        == Err(OutOfRange)
  {
    hide Process, Step, Priced, TimeAt, FeeAt, Balance, HasSwap, ReadsCovered, IsSwapId, IsAddressField;
    PricedFacts(c, s, c.AccountOf("a"), id);
    PricedFacts(c, s, ZeroAddr, id);
    OpenSwapReads(c, Priced(s), id, receiver);
    OverflowIff(c, Priced(s), OpenSwap(c, id, receiver));
    hide SwapClient.Inputs, SwapClient.Outputs;
  }

  /** How a run and its counts grow by one event. */
  lemma OneMoreEvent(c: Crypto, es: seq<Event>, e: Event)
    ensures var s, more := Run(c, EMPTY, es), es + [e];
      && Run(c, EMPTY, more) == Step(c, s, e)
      && IssuedIn(c, EMPTY, more) == IssuedIn(c, EMPTY, es) +
           (if Accepted(c, s, e) && e.tx.payload.Genesis? then e.tx.payload.supply else 0)
      && SelfPaidIn(c, EMPTY, more) == SelfPaidIn(c, EMPTY, es) +
           (if Accepted(c, s, e) && SelfPaid(c, s, e.tx.payload, e.tx.signer) then 1 else 0)
  {
    hide Step, Accepted, SelfPaid;
    assert Before(es + [e]) == es && Last(es + [e]) == e;
  }

  lemma NoEvent(c: Crypto)
    ensures Run(c, EMPTY, []) == EMPTY && IssuedIn(c, EMPTY, []) == 0 && SelfPaidIn(c, EMPTY, []) == 0
  {
  }

  lemma RunOfTwo(c: Crypto)
    requires c.keyVerifies(KEY) && c.ownerSigned("a", "s", KEY) == Some(true)
    ensures var es := [Submit(IssueAll(c)), Submit(StoreForSelf(c))];
      && Run(c, EMPTY, es) == Step(c, Issued1(c), Submit(StoreForSelf(c)))
      && IssuedIn(c, EMPTY, es) == MAX_U64 && SelfPaidIn(c, EMPTY, es) == 1
  {
    hide Process, Run, IssuedIn, SelfPaidIn, Issued1, EconomyOn;
    var first, second := Submit(IssueAll(c)), Submit(StoreForSelf(c));
    FirstStep(c);
    SecondStep(c);
    FirstFacts(c);
    NoEvent(c);
    OneMoreEvent(c, [], first);
    OneMoreEvent(c, [first], second);
    assert [] + [first] == [first] && [first] + [second] == [first, second];
  }

  lemma AfterSelfPayment(c: Crypto, id: string)
    requires c.keyVerifies(KEY) && c.ownerSigned("a", "s", KEY) == Some(true)
    ensures var t := Step(c, Issued1(c), Submit(StoreForSelf(c)));
      Balance(t, c.AccountOf("a")) == MAX_U64 && Balance(t, ZeroAddr) == 10 && !HasSwap(t, c.SwapOf(id))
  {
    var s, tx := Issued1(c), StoreForSelf(c);
    SecondStep(c);
    FirstFacts(c);
    assert !HasSwap(s, c.SwapOf(id));
    hide Process, Issued1, EconomyOn, WellFormed, Balance;
    ProcessIsTransition(c, s, tx);
    hide Transition;
    OtherSwapsStand(c, s, "a", tx.payload, Process(c, s, tx).value, c.SwapOf(id));
    StepBalance(c, s, Submit(tx), c.AccountOf("a"));
    StepBalance(c, s, Submit(tx), ZeroAddr);
  }

  function Overpaid(c: Crypto): seq<Event> {
    [Submit(IssueAll(c)), Submit(StoreForSelf(c)), SetCommission(), Block(0, 0, 0)]
  }

  lemma OverpaidRun(c: Crypto)
    requires c.keyVerifies(KEY) && c.ownerSigned("a", "s", KEY) == Some(true)
    ensures Run(c, EMPTY, Overpaid(c))
         == Step(c, Step(c, Step(c, Issued1(c), Submit(StoreForSelf(c))), SetCommission()), Block(0, 0, 0))
    ensures IssuedIn(c, EMPTY, Overpaid(c)) == MAX_U64 && SelfPaidIn(c, EMPTY, Overpaid(c)) == 1
  {
    var es := Overpaid(c);
    RunOfTwo(c);
    hide Process, Run, Step, IssuedIn, SelfPaidIn, Issued1;
    assert es[..2] == [es[0], es[1]] && es[..2] + [es[2]] == es[..3] && es[..3] + [es[3]] == es;
    OneMoreEvent(c, es[..2], es[2]);
    OneMoreEvent(c, es[..3], es[3]);
  }

  /** Conservation and the absence of overflow both fail once a registration pays for itself: ten
      tokens exist beyond the supply, and a swap, whatever its id and receiver, cannot be opened
      although its sender can pay for it. */
  lemma SelfPaymentOverflows(c: Crypto, id: string, receiver: Address)
    requires c.keyVerifies(KEY) && c.ownerSigned("a", "s", KEY) == Some(true)
    requires c.parseInt(COMMISSION) == Some(MAX_U64 - 5) && IsSwapId(id) && IsAddressField(c, receiver)
    ensures Total(Run(c, EMPTY, Overpaid(c))) == MAX_U64 + 10
    ensures Process(c, Run(c, EMPTY, Overpaid(c)), OpenSwap(c, id, receiver)) == Err(OutOfRange)
  {
    hide Total, Process, Run, Step, IssuedIn, SelfPaidIn, Issued1, IsSwapId, IsAddressField;
    OverpaidRun(c);
    AfterSelfPayment(c, id);
    OpenSwapFails(c, Step(c, Issued1(c), Submit(StoreForSelf(c))), id, receiver);
    SupplyHoldsInRuns(c, Overpaid(c));
  }

  /** The economy is switched off, a signer registers a key, and then signs GENESIS. */
  function SwitchOff(): Event {
    Setting(KeyFamily.ECONOMY_KEY, [(KeyFamily.ECONOMY_KEY, "false")])
  }

  function StoreKeyOf(c: Crypto): Transaction {
    var scopes := [Only(c.KeyOf("k")), Only(c.AccountOf("a")), Only(SettingAddr(KeyFamily.ECONOMY_KEY))];
    Transaction("a", scopes, scopes, StoreKey(KEY))
  }

  function Off1(): State {
    map[SettingAddr(KeyFamily.ECONOMY_KEY) := SettingRec([(KeyFamily.ECONOMY_KEY, "false")])]
  }

  function Registered2(c: Crypto): State {
    Off1()[c.KeyOf("k") := KeyRec(KeyInfo("a", KEY, false))][c.AccountOf("a") := AccountRec(Account(0, [c.KeyOf("k")]))]
  }

  lemma OffFacts(c: Crypto)
    ensures !EconomyOn(Off1()) && AccountAt(Off1(), c.AccountOf("a")) == NEW_ACCOUNT && !HasKey(Off1(), c.KeyOf("k"))
    ensures Balance(Off1(), ZeroAddr) == 0
  {
    assert SettingAt(Off1(), KeyFamily.ECONOMY_KEY) == Some("false");
    KeyFamily.EnabledSpellings("false");
  }

  lemma StoredForFree(c: Crypto)
    requires c.keyVerifies(KEY)
    ensures Process(c, Off1(), StoreKeyOf(c)) == Ok(Registered2(c))
  {
    var tx, s, me, key := StoreKeyOf(c), Off1(), c.AccountOf("a"), c.KeyOf("k");
    assert tx.inputs[0] == Only(key) && tx.inputs[1] == Only(me)
        && tx.inputs[2] == Only(SettingAddr(KeyFamily.ECONOMY_KEY));
    OffFacts(c);
    hide Process, Off1, EconomyOn, HasKey;
    assert KeyFamily.Linked(NEW_ACCOUNT, key) == Account(0, [key]);
    assert Stores(c, s, "a", KEY, Registered2(c));
    AcceptedIff(c, s, tx, Registered2(c));
  }

  lemma IssuedLate(c: Crypto)
    ensures Process(c, Registered2(c), IssueAll(c)).Ok?
  {
    var tx, s := IssueAll(c), Registered2(c);
    assert tx.inputs[0] == Only(GenesisAddr) && tx.inputs[1] == Only(c.AccountOf("a"));
    assert GenesisAddr !in s;
    hide Process, Registered2;
    AcceptedIff(c, s, tx, s[c.AccountOf("a") := AccountRec(Account(MAX_U64, []))][GenesisAddr := GenesisRec(true)]);
  }

  function Forgetful(c: Crypto): seq<Event> {
    [SwitchOff(), Submit(StoreKeyOf(c)), Submit(IssueAll(c))]
  }

  lemma ForgetfulRun(c: Crypto)
    requires c.keyVerifies(KEY)
    ensures Run(c, EMPTY, Forgetful(c)[..2]) == Registered2(c)
  {
    var es := Forgetful(c);
    StoredForFree(c);
    hide Process, Run;
    NoEvent(c);
    OneMoreEvent(c, [], es[0]);
    OneMoreEvent(c, [es[0]], es[1]);
    assert [] + [es[0]] == [es[0]] && [es[0]] + [es[1]] == es[..2];
    assert Step(c, EMPTY, es[0]) == Off1();
  }

  /** A run in which GENESIS empties the list of its signer while the signer's key stays registered. */
  lemma GenesisForgetsKeys(c: Crypto)
    requires c.keyVerifies(KEY)
    ensures !Agree(c, Run(c, EMPTY, [SwitchOff(), Submit(StoreKeyOf(c)), Submit(IssueAll(c))]))
  {
    ForgetfulRun(c);
    IssuedLate(c);
    assert AccountAt(Registered2(c), c.AccountOf("a")).pubKeys == [c.KeyOf("k")];
    hide Process, Agree, Run, Registered2, AccountAt;
    AgreementIff(c, Forgetful(c));
  }
}
