/** Transactions whose declared addresses do not conflict may be applied in any order. */
module Scheduling {
  import opened Records
  import opened StateView
  import opened Ledger
  import opened Reading

  /** The two states hold the same records at all addresses in scope. */
  ghost predicate SameWithin(scopes: seq<Scope>, s: State, t: State) {
    forall a | Covers(scopes, a) :: Lookup(s, a) == Lookup(t, a)
  }

  /** A handler's answer depends on nothing outside the declared inputs. */
  lemma HandlerReadsOnlyInputs(c: Crypto, inputs: seq<Scope>, parser: Parser, s: State, t: State, signer: string,
                               p: Payload)
    requires SameWithin(inputs, s, t)
    ensures Handle(c, View(s, inputs, parser), signer, p) == Handle(c, View(t, inputs, parser), signer, p)
  {
    hide Handle;
    assert Alike(View(s, inputs, parser), View(t, inputs, parser), true);
    AnswersDependOnReads(c, View(s, inputs, parser), View(t, inputs, parser), true, signer, p);
  }

  /** No address that one transaction may write is read or written by the other. */
  ghost predicate Independent(x: Transaction, y: Transaction) {
    && (forall a | Covers(x.outputs, a) :: !Covers(y.inputs, a) && !Covers(y.outputs, a))
    && (forall a | Covers(y.outputs, a) :: !Covers(x.inputs, a) && !Covers(x.outputs, a))
  }

  /** Transactions that declare full addresses only are independent exactly when no output of one is
      among the inputs or outputs of the other. */
  lemma FullAddressesIff(x: Transaction, y: Transaction)
    requires forall scope | scope in x.inputs + x.outputs + y.inputs + y.outputs :: scope.Only?
    ensures Independent(x, y) <==>
      && (forall a | Only(a) in x.outputs :: Only(a) !in y.inputs && Only(a) !in y.outputs)
      && (forall a | Only(a) in y.outputs :: Only(a) !in x.inputs && Only(a) !in x.outputs)
  {
    forall scopes, a | scopes in {x.inputs, x.outputs, y.inputs, y.outputs}
      ensures Covers(scopes, a) <==> Only(a) in scopes
    {
      assert forall scope | scope in scopes :: scope in x.inputs + x.outputs + y.inputs + y.outputs;
    }
  }

  function Apply(c: Crypto, parser: Parser, s: State, tx: Transaction): State {
    Step(c, s, Submit(tx), parser)
  }

  /** Applying a transaction is invisible to an independent one. */
  lemma IndependentUnaffected(c: Crypto, parser: Parser, s: State, x: Transaction, y: Transaction)
    requires Independent(x, y)
    ensures Effect(c, Apply(c, parser, s, x), y, parser) == Effect(c, s, y, parser)
  {
    hide Handle;
    var t := Apply(c, parser, s, x);
    forall a | Covers(y.inputs, a) ensures Lookup(s, a) == Lookup(t, a) {
      if Effect(c, s, x, parser).Ok? {
        assert !Covers(x.outputs, a);
        assert a !in Effect(c, s, x, parser).value.Keys;
      }
    }
    HandlerReadsOnlyInputs(c, y.inputs, parser, s, t, y.signer, y.payload);
  }

  /** Independent transactions commute: either order gives each the same verdict and leads to the
      same state. */
  lemma IndependentCommute(c: Crypto, parser: Parser, s: State, x: Transaction, y: Transaction)
    requires Independent(x, y)
    ensures Effect(c, Apply(c, parser, s, x), y, parser) == Effect(c, s, y, parser)
    ensures Effect(c, Apply(c, parser, s, y), x, parser) == Effect(c, s, x, parser)
    ensures Apply(c, parser, Apply(c, parser, s, x), y) == Apply(c, parser, Apply(c, parser, s, y), x)
  {
    hide Effect, Covers;
    IndependentUnaffected(c, parser, s, x, y);
    IndependentUnaffected(c, parser, s, y, x);
    var u, w := Effect(c, s, x, parser), Effect(c, s, y, parser);
    if u.Ok? && w.Ok? {
      EffectWithinOutputs(c, parser, s, x);
      EffectWithinOutputs(c, parser, s, y);
      assert u.value.Keys !! w.value.Keys by {
        forall a | a in u.value.Keys ensures a !in w.value.Keys {
          assert Covers(x.outputs, a);
        }
      }
      assert s + u.value + w.value == s + w.value + u.value;
    }
  }

  lemma EffectWithinOutputs(c: Crypto, parser: Parser, s: State, tx: Transaction)
    ensures Effect(c, s, tx, parser).Ok? ==>
      forall a | a in Effect(c, s, tx, parser).value.Keys :: Covers(tx.outputs, a)
  {
    hide Handle, Covers;
  }

  function ApplyAll(c: Crypto, parser: Parser, s: State, txs: seq<Transaction>): State
    decreases txs
  {
    if txs == [] then s else ApplyAll(c, parser, Apply(c, parser, s, txs[0]), txs[1..])
  }

  /** Applying transactions one after the other is the run that submits them. */
  lemma {:induction false} ApplyAllIsRun(c: Crypto, parser: Parser, s: State, txs: seq<Transaction>)
    ensures ApplyAll(c, parser, s, txs) == Run(c, s, seq(|txs|, i requires 0 <= i < |txs| => Submit(txs[i])), parser)
  {
    var es := seq(|txs|, i requires 0 <= i < |txs| => Submit(txs[i]));
    if txs != [] {
      var front, last := txs[..|txs| - 1], txs[|txs| - 1];
      ApplyAllIsRun(c, parser, s, front);
      assert Before(es) == seq(|front|, i requires 0 <= i < |front| => Submit(front[i]));
      assert Last(es) == Submit(last) && txs == front + [last];
      ApplyAppended(c, parser, s, front, [last]);
      hide Step;
    }
  }

  ghost predicate PairwiseIndependent(txs: seq<Transaction>) {
    forall i, j | 0 <= i < j < |txs| :: Independent(txs[i], txs[j])
  }

  lemma {:induction false} ApplyAppended(c: Crypto, parser: Parser, s: State, first: seq<Transaction>,
                                         second: seq<Transaction>)
    ensures ApplyAll(c, parser, s, first + second) == ApplyAll(c, parser, ApplyAll(c, parser, s, first), second)
    decreases first
  {
    hide Apply;
    if first == [] {
      assert first + second == second;
    } else {
      assert (first + second)[1..] == first[1..] + second;
      ApplyAppended(c, parser, Apply(c, parser, s, first[0]), first[1..], second);
    }
  }

  /** A transaction may be moved past any number of transactions it is independent of. */
  lemma {:induction false} MovePast(c: Crypto, parser: Parser, s: State, tx: Transaction, txs: seq<Transaction>)
    requires forall i | 0 <= i < |txs| :: Independent(tx, txs[i])
    ensures ApplyAll(c, parser, Apply(c, parser, s, tx), txs) == Apply(c, parser, ApplyAll(c, parser, s, txs), tx)
    decreases txs
  {
    hide Apply, Independent;
    if txs != [] {
      IndependentCommute(c, parser, s, tx, txs[0]);
      MovePast(c, parser, Apply(c, parser, s, txs[0]), tx, txs[1..]);
    }
  }

  lemma RestIsRest<T>(tx: T, rest: seq<T>, other: seq<T>, k: nat)
    requires k < |other| && other[k] == tx && multiset([tx] + rest) == multiset(other)
    ensures multiset(other[..k] + other[k + 1..]) == multiset(rest)
    ensures other == other[..k] + ([tx] + other[k + 1..])
  {
    assert other == other[..k] + ([tx] + other[k + 1..]);
    assert multiset([tx] + other[k + 1..]) == multiset{tx} + multiset(other[k + 1..]);
    assert multiset(other[..k] + ([tx] + other[k + 1..])) == multiset(other[..k]) + multiset([tx] + other[k + 1..]);
    assert multiset([tx] + rest) == multiset{tx} + multiset(rest);
    assert multiset(other[..k] + other[k + 1..]) == multiset(other) - multiset{tx} == multiset(rest);
  }

  /** Any two orders of pairwise independent transactions lead to the same state. */
  lemma {:induction false} OrderDoesNotMatter(c: Crypto, parser: Parser, s: State, txs: seq<Transaction>,
                                              other: seq<Transaction>)
    requires PairwiseIndependent(txs) && multiset(txs) == multiset(other)
    ensures ApplyAll(c, parser, s, txs) == ApplyAll(c, parser, s, other)
    decreases |txs|
  {
    hide Apply, Independent;
    if txs == [] {
      assert |multiset(other)| == 0;
    } else {
      var tx, rest := txs[0], txs[1..];
      assert txs == [tx] + rest;
      var k := IndexOf(tx, other);
      var before, after := other[..k], other[k + 1..];
      RestIsRest(tx, rest, other, k);
      IndependentOfOthers(txs, before, after);
      OrderDoesNotMatter(c, parser, Apply(c, parser, s, tx), rest, before + after);
      ApplyAppended(c, parser, Apply(c, parser, s, tx), before, after);
      MovePast(c, parser, s, tx, before);
      ApplyAppended(c, parser, s, before, [tx] + after);
      assert ([tx] + after)[1..] == after;
    }
  }

  lemma IndexOf<T>(x: T, xs: seq<T>) returns (k: nat)
    requires x in multiset(xs)
    ensures k < |xs| && xs[k] == x
  {
    k :| 0 <= k < |xs| && xs[k] == x;
  }

  /** The first of pairwise independent transactions is independent of each of the others, however ordered. */
  lemma IndependentOfOthers(txs: seq<Transaction>, before: seq<Transaction>, after: seq<Transaction>)
    requires txs != [] && PairwiseIndependent(txs) && multiset(before + after) == multiset(txs[1..])
    ensures PairwiseIndependent(txs[1..])
    ensures forall i | 0 <= i < |before| :: Independent(txs[0], before[i])
  {
    hide Independent;
    forall i | 0 <= i < |before| ensures Independent(txs[0], before[i]) {
      assert (before + after)[i] == before[i] && before[i] in multiset(before + after);
      var j := IndexOf(before[i], txs[1..]);
      assert txs[j + 1] == before[i];
    }
  }
}
