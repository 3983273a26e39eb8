/** In every run the tokens outside the zero address fit a uint64: whatever is created beyond the
    genesis supply is paid to the zero address, which never spends it. */
module Room {
  import opened Records
  import opened StateView
  import opened Ledger
  import opened Transitions
  import opened Invariants
  import opened Supply
  import opened Balances

  /** Every self-paid registration was charged for. */
  lemma {:induction false} SelfPaidIsCharged(c: Crypto, es: seq<Event>)
    ensures SelfPaidIn(c, EMPTY, es) <= ChargedIn(c, es)
  {
    hide Process, Step, EconomyOn;
    if es != [] {
      SelfPaidIsCharged(c, Before(es));
    }
  }

  /** GENESIS is accepted once, so what a run issues is one uint64. */
  lemma {:induction false} IssuedFits(c: Crypto, es: seq<Event>)
    requires AllNameAccounts(es)
    ensures IssuedIn(c, EMPTY, es) <= MAX_U64
  {
    hide Process, Step, Total;
    if es != [] {
      IssuedFits(c, Before(es));
      if Accepted(c, Run(c, EMPTY, Before(es)), Last(es)) {
        SupplyHoldsInRuns(c, Before(es));
        SubmitSupply(c, Run(c, EMPTY, Before(es)), Last(es).tx);
      }
    }
  }

  /** The tokens outside the zero address never exceed the genesis supply, and fit a uint64. */
  lemma RestFits(c: Crypto, es: seq<Event>)
    requires AllNameAccounts(es)
    ensures Total(Run(c, EMPTY, es)) - Balance(Run(c, EMPTY, es), ZeroAddr) <= IssuedIn(c, EMPTY, es) <= MAX_U64
  {
    hide Run, Total;
    SupplyHoldsInRuns(c, es);
    ZeroAddressOnlyReceives(c, es, |es|);
    SelfPaidIsCharged(c, es);
    IssuedFits(c, es);
  }

  lemma TwoBesideZeroFit(s: State, a: Address, b: Address)
    requires a != b && a != ZeroAddr && b != ZeroAddr
    ensures WorthAt(s, a) + WorthAt(s, b) + Balance(s, ZeroAddr) <= Total(s)
  {
    if ZeroAddr in s {
      TotalSplits(s, ZeroAddr);
      assert WorthAt(s - {ZeroAddr}, a) == WorthAt(s, a) && WorthAt(s - {ZeroAddr}, b) == WorthAt(s, b);
      hide Total;
      TwoWorthsFit(s - {ZeroAddr}, a, b);
    } else {
      hide Total;
      TwoWorthsFit(s, a, b);
    }
  }

  /** In every reachable state two accounts, or an account and a live swap, together fit a uint64. */
  lemma TwoFitInRuns(c: Crypto, es: seq<Event>, a: Address, b: Address)
    requires AllNameAccounts(es) && a != b && a != ZeroAddr && b != ZeroAddr
    ensures WorthAt(Run(c, EMPTY, es), a) + WorthAt(Run(c, EMPTY, es), b) <= MAX_U64
  {
    hide Run, Total;
    RestFits(c, es);
    TwoBesideZeroFit(Run(c, EMPTY, es), a, b);
  }

  /** In every reachable state both parties of a live swap have room for its amount. */
  lemma PartiesHaveRoom(c: Crypto, es: seq<Event>, a: Address)
    requires AllNameAccounts(es) && HasLiveSwap(Run(c, EMPTY, es), a)
    ensures var s := Run(c, EMPTY, es);
      && Balance(s, s[a].swap.sender) + s[a].swap.amount <= MAX_U64
      && Balance(s, s[a].swap.receiver) + s[a].swap.amount <= MAX_U64
  {
    var s := Run(c, EMPTY, es);
    RunKeepsWellFormed(c, EMPTY, es);
    hide Run;
    TwoFitInRuns(c, es, a, s[a].swap.sender);
    TwoFitInRuns(c, es, a, s[a].swap.receiver);
  }
}
