/** How the message library reads data of another kind makes no difference to any run. */
module Parsing {
  import opened Wrappers
  import opened Records
  import opened StateView
  import opened Ledger
  import opened Transitions
  import opened Invariants
  import opened Reading
  import SwapFamily

  /** The addresses a payload names are of the kind they are documented to be. */
  predicate NamesItsKinds(e: Event) {
    NamesAccount(e) && (e.Submit? && e.tx.payload.RevokeKey? ==> e.tx.payload.address.KeyAddr?)
  }

  /** Elsewhere it may: what a parser makes of data of another kind is what is read. */
  lemma ParserDecides(s: State, inputs: seq<Scope>, f: (Kind, Record) -> Option<Record>, kind: Kind, a: Address)
    requires Covers(inputs, a) && a in s && KindOf(s[a]) != kind
    ensures Read(View(s, inputs), kind, a) == Ok(None)
    ensures f(kind, s[a]).Some? && KindOf(f(kind, s[a]).value) == kind ==>
      Read(View(s, inputs, Lenient(f)), kind, a) == Ok(f(kind, s[a]))
  {
  }

  lemma WellFormedReadsAlike(s: State, inputs: seq<Scope>, parser: Parser)
    requires Typed(s)
    ensures Alike(View(s, inputs), View(s, inputs, parser), false)
  {
  }

  /** In a well-formed state no handler comes to read a record as another kind. */
  lemma ParserIsIrrelevant(c: Crypto, s: State, tx: Transaction, parser: Parser)
    requires WellFormed(s) && NamesItsKinds(Submit(tx))
    ensures Process(c, s, tx, parser) == Process(c, s, tx)
  {
    var v := View(s, tx.inputs);
    WellFormedReadsAlike(s, tx.inputs, parser);
    if tx.payload.SwapExpire? || tx.payload.SwapClose? {
      var a := c.SwapOf(tx.payload.swapId);
      assert SwapFamily.LiveSwap(v, a).Ok? ==> HasSwap(s, a) && SwapFamily.LiveSwap(v, a).value == s[a].swap;
    }
    hide Alike, Handle;
    AnswersDependOnReads(c, v, View(s, tx.inputs, parser), false, tx.signer, tx.payload);
  }

  /** Every run is the same whatever the message library makes of data of another kind. */
  lemma {:induction false} RunsDoNotDependOnTheParser(c: Crypto, es: seq<Event>, parser: Parser)
    requires forall e | e in es :: NamesItsKinds(e)
    ensures Run(c, EMPTY, es, parser) == Run(c, EMPTY, es)
  {
    if es != [] {
      var before, e := Run(c, EMPTY, Before(es)), Last(es);
      RunsDoNotDependOnTheParser(c, Before(es), parser);
      RunKeepsWellFormed(c, EMPTY, Before(es));
      hide Process;
      if e.Submit? {
        ParserIsIrrelevant(c, before, e.tx, parser);
      }
    }
  }
}
