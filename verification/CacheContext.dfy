/** The transaction context and the read cache in front of it. */
module CacheContext {
  import opened Wrappers
  import opened Records
  import opened StateView

  /** An entry the context returns; `None` is an entry without data. */
  datatype Entry = Entry(address: Address, data: Option<Record>)

  /** The state and the declared addresses of one transaction. A context may report an address
      without data as an empty entry, or leave it out of its answer. `parser` is how the message
      library reads stored data. */
  class StateContext {
    var state: State
    const inputs: seq<Scope>
    const outputs: seq<Scope>
    const reportsMissing: bool
    const parser: Parser

    constructor (state: State, inputs: seq<Scope>, outputs: seq<Scope>, reportsMissing: bool, parser: Parser)
      ensures this.state == state && this.inputs == inputs && this.outputs == outputs
      ensures this.reportsMissing == reportsMissing && this.parser == parser
    {
      this.state, this.inputs, this.outputs := state, inputs, outputs;
      this.reportsMissing, this.parser := reportsMissing, parser;
    }

    function EntriesFor(addresses: seq<Address>): (es: seq<Entry>)
      reads this
      ensures forall e | e in es :: e.address in addresses && e.data == Lookup(state, e.address)
      ensures forall a | a in addresses && a in state :: Entry(a, Some(state[a])) in es
    {
      if addresses == [] then []
      else
        var data := Lookup(state, addresses[0]);
        (if data.Some? || reportsMissing then [Entry(addresses[0], data)] else []) + EntriesFor(addresses[1..])
    }

    function GetState(addresses: seq<Address>): Result<seq<Entry>>
      reads this
    {
      if forall a | a in addresses :: Covers(inputs, a) then Ok(EntriesFor(addresses)) else Err(Unauthorized)
    }

    method SetState(entries: Update) returns (r: Result<()>)
      modifies `state
      ensures CoversAll(outputs, entries.Keys) ==> r == Ok(()) && state == old(state) + entries
      ensures !CoversAll(outputs, entries.Keys) ==> r == Err(Unauthorized) && state == old(state)
    {
      if CoversAll(outputs, entries.Keys) {
        state := state + entries;
        r := Ok(());
      } else {
        r := Err(Unauthorized);
      }
    }
  }

  /** What the cache is supposed to be indistinguishable from. */
  function ViewOf(context: StateContext): View
    reads context
  {
    View(context.state, context.inputs, context.parser)
  }

  class CacheContextService {
    var storage: map<Address, Option<Record>>
    const context: StateContext

    /** Everything cached may be read, and is what the context holds. */
    ghost predicate Valid()
      reads this, context
    {
      forall a | a in storage :: Covers(context.inputs, a) && storage[a] == Lookup(context.state, a)
    }

    constructor (context: StateContext)
      ensures Valid() && this.context == context && storage == map[]
    {
      this.context := context;
      storage := map[];
    }

    /** Fills the cache with whatever the context holds at the full addresses among the inputs. */
    method PreloadState(addresses: seq<Scope>) returns (r: Result<()>)
      requires Valid()
      modifies this
      ensures Valid()
      ensures r.Ok? <==> forall a | Only(a) in addresses :: Covers(context.inputs, a)
      ensures r.Err? ==> r == Err(Unauthorized) && storage == old(storage)
      ensures r.Ok? ==> forall a | Only(a) in addresses && a in context.state :: a in storage
      ensures forall a | a in old(storage) :: a in storage
    {
      var full := FullAddresses(addresses);
      var entries :- context.GetState(full);
      for i := 0 to |entries|
        invariant Valid()
        invariant forall a | a in old(storage) :: a in storage
        invariant forall j | 0 <= j < i :: entries[j].address in storage
      {
        storage := storage[entries[i].address := entries[i].data];
      }
      assert forall a | a in full && a in context.state :: Entry(a, Some(context.state[a])) in entries;
      r := Ok(());
    }

    /** One result for each resolver, in order, as if read from the state directly. */
    method GetCachedData(resolvers: seq<(Address, Kind)>) returns (r: Result<seq<Option<Record>>>)
      requires Valid()
      modifies this
      ensures Valid()
      ensures r == ReadAll(ViewOf(context), resolvers)
    {
      var results := [];
      ghost var v := ViewOf(context);
      PrependNothing(ReadAll(v, resolvers));
      assert resolvers[0..] == resolvers;
      for i := 0 to |resolvers|
        invariant Valid()
        invariant ReadAll(v, resolvers) == Prepend(results, ReadAll(v, resolvers[i..]))
      {
        var (address, kind) := resolvers[i];
        assert resolvers[i..][1..] == resolvers[i + 1..];
        PrependOneMore(results, Decode(v.parser, kind, Lookup(v.state, address)), ReadAll(v, resolvers[i + 1..]));
        var data: Option<Record>;
        if address in storage {
          data := storage[address];
        } else {
          var entries := context.GetState([address]);
          if entries.Err? {
            return Err(entries.error);
          } else if entries.value == [] {
            results := results + [None];
            continue;
          }
          data := entries.value[0].data;
          storage := storage[address := data];
        }
        results := results + [Decode(context.parser, kind, data)];
      }
      assert results + [] == results;
      r := Ok(results);
    }

    method GetData(kind: Kind, address: Address) returns (r: Result<Option<Record>>)
      requires Valid()
      modifies this
      ensures Valid()
      ensures r == Read(ViewOf(context), kind, address)
    {
      var results :- GetCachedData([(address, kind)]);
      r := Ok(results[0]);
    }
  }

  function FullAddresses(scopes: seq<Scope>): (full: seq<Address>)
    ensures forall a :: a in full <==> Only(a) in scopes
  {
    if scopes == [] then []
    else (if scopes[0].Only? then [scopes[0].address] else []) + FullAddresses(scopes[1..])
  }

  ghost function Prepend(first: seq<Option<Record>>, rest: Result<seq<Option<Record>>>): Result<seq<Option<Record>>> {
    if rest.Ok? then Ok(first + rest.value) else rest
  }

  lemma PrependNothing(rest: Result<seq<Option<Record>>>)
    ensures Prepend([], rest) == rest
  {
    if rest.Ok? {
      assert [] + rest.value == rest.value;
    }
  }

  lemma PrependOneMore(first: seq<Option<Record>>, next: Option<Record>, rest: Result<seq<Option<Record>>>)
    ensures Prepend(first, Prepend([next], rest)) == Prepend(first + [next], rest)
  {
    if rest.Ok? {
      assert first + ([next] + rest.value) == first + [next] + rest.value;
    }
  }

  /** Reading resolvers together succeeds iff all addresses are declared, and then gives, in order,
      what each address holds, decoded as asked. */
  lemma {:induction false} ReadAllIsPointwise(v: View, resolvers: seq<(Address, Kind)>)
    ensures ReadAll(v, resolvers).Ok? <==> forall i | 0 <= i < |resolvers| :: Covers(v.inputs, resolvers[i].0)
    ensures ReadAll(v, resolvers).Ok? ==> |ReadAll(v, resolvers).value| == |resolvers|
    ensures ReadAll(v, resolvers).Ok? ==> forall i | 0 <= i < |resolvers| ::
      ReadAll(v, resolvers).value[i] == Decode(v.parser, resolvers[i].1, Lookup(v.state, resolvers[i].0))
  {
    if resolvers != [] {
      ReadAllIsPointwise(v, resolvers[1..]);
      assert resolvers == [resolvers[0]] + resolvers[1..];
    }
  }
}
