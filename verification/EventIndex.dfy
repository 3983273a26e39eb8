/** Which handlers are interested in an event type. */
module EventIndex {

  /** The registered handlers: the event types each name listens to. */
  type Handlers = map<string, seq<string>>

  type Index = map<string, set<string>>

  predicate Routes(index: Index, kind: string, name: string) {
    kind in index && name in index[kind]
  }

  predicate Listens(handlers: Handlers, name: string, kind: string) {
    name in handlers && kind in handlers[name]
  }

  /** The inverse of the handlers' event lists: a type leads to a name exactly when the name listens
      to the type, and every type in the index leads somewhere. */
  method BuildIndex(handlers: Handlers) returns (index: Index)
    ensures forall kind, name :: Routes(index, kind, name) <==> Listens(handlers, name, kind)
    ensures forall kind, name | kind in index && name in index[kind] :: name in handlers && kind in handlers[name]
    ensures forall name, i | name in handlers && 0 <= i < |handlers[name]| ::
      handlers[name][i] in index && name in index[handlers[name][i]]
    ensures forall kind | kind in index :: index[kind] != {}
  {
    index := map[];
    var todo := handlers.Keys;
    while todo != {}
      invariant todo <= handlers.Keys
      invariant forall kind, name :: Routes(index, kind, name) <==> Listens(handlers, name, kind) && name !in todo
      invariant forall kind | kind in index :: index[kind] != {}
      decreases |todo|
    {
      var name :| name in todo;
      var kinds := handlers[name];
      ghost var before := index;
      for i := 0 to |kinds|
        invariant forall kind, n :: Routes(index, kind, n) <==>
          Routes(before, kind, n) || (n == name && kind in kinds[..i])
        invariant forall kind | kind in index :: index[kind] != {}
      {
        var kind := kinds[i];
        assert kinds[..i + 1] == kinds[..i] + [kind];
        if kind in index {
          index := index[kind := index[kind] + {name}];
        } else {
          index := index[kind := {name}];
        }
      }
      assert kinds[..|kinds|] == kinds;
      todo := todo - {name};
    }
    assert forall kind, name | kind in index && name in index[kind] :: Routes(index, kind, name);
    forall name, i | name in handlers && 0 <= i < |handlers[name]|
      ensures handlers[name][i] in index && name in index[handlers[name][i]]
    {
      assert Listens(handlers, name, handlers[name][i]) && Routes(index, handlers[name][i], name);
    }
  }

  /** The event types to ask the validator for; names without a handler are skipped. */
  function PrepareEvents(handlers: Handlers, names: seq<string>): seq<string> {
    if names == [] then []
    else (if names[0] in handlers then handlers[names[0]] else []) + PrepareEvents(handlers, names[1..])
  }

  /** Every type subscribed to for some names leads back to one of them, and nothing a name listens
      to is left out. */
  lemma {:induction false} SubscribedTypesRouteBack(handlers: Handlers, index: Index, names: seq<string>, kind: string)
    requires forall k, n :: Routes(index, k, n) <==> Listens(handlers, n, k)
    ensures kind in PrepareEvents(handlers, names) <==> exists n :: n in names && Routes(index, kind, n)
  {
    if names != [] {
      SubscribedTypesRouteBack(handlers, index, names[1..], kind);
      assert names == [names[0]] + names[1..];
      if exists n :: n in names && Routes(index, kind, n) {
        var n :| n in names && Routes(index, kind, n);
        assert n == names[0] || n in names[1..];
      }
      assert Routes(index, kind, names[0]) <==> Listens(handlers, names[0], kind);
    }
  }
}
