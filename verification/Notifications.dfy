/** Subscriptions of websocket connections and the notifications sent to them. */
module Notifications {
  import opened Wrappers
  import opened EventIndex

  datatype Subscription = Subscription(msgId: string, data: string)

  datatype Occurrence = Occurrence(kind: string, body: string)

  datatype Notification = Notification(name: string, msgId: string, response: string, hash: string)

  /** What the handlers do with an event, which the model does not look into: `respond` gives the
      response for a subscriber, if the event concerns it, and `hash` the hash of a response. */
  datatype Behaviour = Behaviour(
    respond: (string, Occurrence, string) -> Option<string>,
    hash: (string, string) -> string)

  type Connection = nat

  function HashesOf(sent: seq<Notification>): set<string> {
    set n | n in sent :: n.hash
  }

  predicate Distinct(sent: seq<Notification>) {
    forall i, j | 0 <= i < j < |sent| :: sent[i].hash != sent[j].hash
  }

  /** The event calls for a notification under this subscription name. */
  predicate Due(b: Behaviour, index: Index, subs: map<string, Subscription>, e: Occurrence, name: string) {
    Routes(index, e.kind, name) && name in subs && b.respond(name, e, subs[name].data).Some?
  }

  function HashFor(b: Behaviour, subs: map<string, Subscription>, e: Occurrence, name: string): string
    requires name in subs && b.respond(name, e, subs[name].data).Some?
  {
    b.hash(name, b.respond(name, e, subs[name].data).value)
  }

  /** The hashes of all notifications the events call for. */
  function DueHashes(b: Behaviour, index: Index, subs: map<string, Subscription>, es: seq<Occurrence>): set<string> {
    set e, name | e in es && name in subs && Due(b, index, subs, e, name) :: HashFor(b, subs, e, name)
  }

  /** A hash is due if and only if some event of a type leads to a subscribed name, and the handler of
      that name has a response with that hash. */
  lemma DueIff(b: Behaviour, index: Index, subs: map<string, Subscription>, es: seq<Occurrence>, h: string)
    ensures h in DueHashes(b, index, subs, es) <==>
      exists e, name :: e in es && e.kind in index && name in index[e.kind] && name in subs
        && var response := b.respond(name, e, subs[name].data);
           response.Some? && b.hash(name, response.value) == h
  {
  }

  class EventServer {
    var subsevt: map<Connection, map<string, Subscription>>
    var evthashes: map<Connection, set<string>>

    /** What each connection was sent since its hashes are kept. */
    ghost var sent: map<Connection, seq<Notification>>

    /** The kept hashes are those of what was sent, and nothing was sent twice. */
    ghost predicate HashesMatch()
      reads this
    {
      && sent.Keys == evthashes.Keys
      && forall ws | ws in sent :: Distinct(sent[ws]) && evthashes[ws] == HashesOf(sent[ws])
    }

    /** A connection with a subscription has a set of hashes. */
    ghost predicate SubscribersKnown()
      reads this
    {
      forall ws | ws in subsevt && subsevt[ws] != map[] :: ws in evthashes
    }

    ghost predicate Valid()
      reads this
    {
      HashesMatch() && SubscribersKnown()
    }

    constructor ()
      ensures Valid() && subsevt == map[] && evthashes == map[] && sent == map[]
    {
      subsevt, evthashes, sent := map[], map[], map[];
    }

    function Subs(ws: Connection): map<string, Subscription>
      reads this
    {
      if ws in subsevt then subsevt[ws] else map[]
    }

    /** `granted` says whether the request was valid and the validator agreed to it. */
    method Subscribe(handlers: Handlers, ws: Connection, name: string, sub: Subscription,
                     granted: bool) returns (ok: bool)
      requires Valid()
      modifies this
      ensures Valid()
      ensures ok <==> name in handlers && granted && !(ws in old(subsevt) && name in old(subsevt)[ws])
      ensures ok ==>
        subsevt == old(subsevt)[ws := (if ws in old(subsevt) then old(subsevt)[ws] else map[])[name := sub]]
      ensures !ok ==> subsevt == if name in handlers then old(subsevt)[ws := old(Subs(ws))] else old(subsevt)
      ensures !ok ==> evthashes == old(evthashes) && sent == old(sent)
      ensures ok && ws in old(evthashes) ==> evthashes == old(evthashes) && sent == old(sent)
      ensures ok && ws !in old(evthashes) ==> evthashes == old(evthashes)[ws := {}] && sent == old(sent)[ws := []]
    {
      if name !in handlers {
        return false;
      }
      var subs := if ws in subsevt then subsevt[ws] else map[];
      subsevt := subsevt[ws := subs];
      if name in subs || !granted {
        return false;
      }
      if ws !in evthashes {
        evthashes := evthashes[ws := {}];
        sent := sent[ws := []];
      }
      subsevt := subsevt[ws := subs[name := sub]];
      ok := true;
    }

    method Unsubscribe(ws: Connection, name: string) returns (ok: bool)
      requires Valid()
      modifies `subsevt
      ensures Valid()
      ensures ok <==> ws in old(subsevt) && name in old(subsevt)[ws]
      ensures subsevt == if ok then old(subsevt)[ws := old(subsevt)[ws] - {name}] else old(subsevt)
    {
      if ws in subsevt && name in subsevt[ws] {
        assert subsevt[ws] != map[];
        subsevt := subsevt[ws := subsevt[ws] - {name}];
        ok := true;
      } else {
        ok := false;
      }
    }

    method Disconnect(ws: Connection)
      requires Valid()
      modifies this
      ensures Valid()
      ensures subsevt == old(subsevt) - {ws} && evthashes == old(evthashes) - {ws} && sent == old(sent) - {ws}
    {
      subsevt := subsevt - {ws};
      evthashes := evthashes - {ws};
      sent := sent - {ws};
    }

    /** One event under one name: at most one notification, and none that was sent before. */
    method Notify(b: Behaviour, index: Index, ws: Connection, e: Occurrence, name: string)
      requires HashesMatch() && Routes(index, e.kind, name)
      modifies this
      ensures HashesMatch() && evthashes.Keys == old(evthashes.Keys)
      ensures old(SubscribersKnown()) ==> subsevt == old(subsevt)
      ensures ws in evthashes ==> subsevt == old(subsevt)
      ensures ws !in evthashes ==> evthashes == old(evthashes) && sent == old(sent)
      ensures ws in evthashes ==> evthashes == Grown(old(evthashes), ws, DueUnder(b, index, Subs(ws), e, {name}))
      ensures ws in evthashes ==> Extends(b, index, Subs(ws), [e], old(sent), sent, ws)
    {
      var subs := if ws in subsevt then subsevt[ws] else map[];
      if name !in subs {
        NothingDue(b, index, subs, e, name, evthashes, sent, ws);
        return;
      }
      if ws !in evthashes {
        subsevt := subsevt[ws := subs - {name}];
        return;
      }
      var response := b.respond(name, e, subs[name].data);
      if response.None? {
        NothingDue(b, index, subs, e, name, evthashes, sent, ws);
        return;
      }
      var hash := b.hash(name, response.value);
      assert DueUnder(b, index, subs, e, {name}) == {hash};
      if hash in evthashes[ws] {
        GrownNot(evthashes, ws, {hash});
        ExtendsNot(b, index, subs, [e], sent, ws);
        return;
      }
      var note := Notification(name, subs[name].msgId, response.value, hash);
      SentOneMore(sent[ws], note);
      sent := sent[ws := sent[ws] + [note]];
      evthashes := evthashes[ws := evthashes[ws] + {hash}];
      assert [e][0] == e && JustifiedBy(b, index, subs, e, note);
    }

    /** One event under every name its type leads to. */
    method NotifyAll(b: Behaviour, index: Index, ws: Connection, e: Occurrence)
      requires HashesMatch()
      modifies this
      ensures HashesMatch() && evthashes.Keys == old(evthashes.Keys)
      ensures old(SubscribersKnown()) ==> subsevt == old(subsevt)
      ensures ws in evthashes ==> subsevt == old(subsevt)
      ensures ws !in evthashes ==> evthashes == old(evthashes) && sent == old(sent)
      ensures ws in evthashes ==> evthashes == Grown(old(evthashes), ws, DueHashes(b, index, Subs(ws), [e]))
      ensures ws in evthashes ==> Extends(b, index, Subs(ws), [e], old(sent), sent, ws)
    {
      var names := if e.kind in index then index[e.kind] else {};
      ghost var subs := Subs(ws);
      var todo := names;
      if ws in evthashes {
        GrownNot(evthashes, ws, DueUnder(b, index, subs, e, names - todo));
        ExtendsNot(b, index, subs, [e], sent, ws);
      }
      hide Grown, DueUnder, Extends;
      while todo != {}
        invariant HashesMatch() && evthashes.Keys == old(evthashes.Keys) && todo <= names
        invariant old(SubscribersKnown()) ==> subsevt == old(subsevt)
        invariant ws !in evthashes ==> evthashes == old(evthashes) && sent == old(sent)
        invariant ws in evthashes ==> subsevt == old(subsevt)
        invariant ws in evthashes ==>
          evthashes == Grown(old(evthashes), ws, DueUnder(b, index, subs, e, names - todo))
        invariant ws in evthashes ==> Extends(b, index, subs, [e], old(sent), sent, ws)
        decreases |todo|
      {
        var name :| name in todo;
        ghost var hashesBefore, sentBefore := evthashes, sent;
        Notify(b, index, ws, e, name);
        if ws in evthashes {
          NameDone(b, index, subs, e, names, todo, name, old(evthashes), hashesBefore, evthashes, ws);
          ExtendsAgain(b, index, subs, [e], old(sent), sentBefore, sent, ws);
        }
        todo := todo - {name};
      }
      assert DueUnder(b, index, subs, e, names - {}) == DueHashes(b, index, subs, [e]) by {
        DueOfOne(b, index, subs, e, names);
        assert names - {} == names;
      }
    }

    /** A message of events. Afterwards the kept hashes are the old ones and those of everything the
        events call for; only notifications that were new, and subscribed to, have been sent. */
    method ProcessMsg(b: Behaviour, index: Index, ws: Connection, es: seq<Occurrence>)
      requires Valid()
      modifies this
      ensures Valid() && evthashes.Keys == old(evthashes.Keys)
      ensures subsevt == old(subsevt)
      ensures ws in evthashes ==> evthashes[ws] == old(evthashes)[ws] + DueHashes(b, index, Subs(ws), es)
      ensures ws !in evthashes ==> evthashes == old(evthashes) && sent == old(sent)
      ensures ws in evthashes ==> evthashes == Grown(old(evthashes), ws, DueHashes(b, index, Subs(ws), es))
      ensures ws in evthashes ==> Extends(b, index, Subs(ws), es, old(sent), sent, ws)
    {
      ghost var subs := Subs(ws);
      if ws in evthashes {
        GrownNot(evthashes, ws, DueHashes(b, index, subs, es[..0]));
        ExtendsNot(b, index, subs, es[..0], sent, ws);
      }
      for i := 0 to |es|
        invariant Valid() && evthashes.Keys == old(evthashes.Keys) && subsevt == old(subsevt)
        invariant ws !in evthashes ==> evthashes == old(evthashes) && sent == old(sent)
        invariant ws in evthashes ==>
          evthashes == Grown(old(evthashes), ws, DueHashes(b, index, subs, es[..i]))
        invariant ws in evthashes ==> Extends(b, index, subs, es[..i], old(sent), sent, ws)
      {
        ghost var before := sent;
        NotifyAll(b, index, ws, es[i]);
        assert es[..i + 1] == es[..i] + [es[i]];
        DueOfMore(b, index, subs, es[..i], es[i]);
        if ws in evthashes {
          GrownAgain(old(evthashes), ws, DueHashes(b, index, subs, es[..i]), DueHashes(b, index, subs, [es[i]]));
          ExtendsByMore(b, index, subs, es[..i], es[i], old(sent), before, sent, ws);
        }
      }
      assert es[..|es|] == es;
    }
  }

  /** The kept hashes with some added for one connection. */
  ghost function Grown(hashes: map<Connection, set<string>>, ws: Connection, added: set<string>)
    : map<Connection, set<string>>
  {
    hashes[ws := (if ws in hashes then hashes[ws] else {}) + added]
  }

  lemma GrownNot(hashes: map<Connection, set<string>>, ws: Connection, added: set<string>)
    requires ws in hashes && added <= hashes[ws]
    ensures Grown(hashes, ws, added) == hashes
  {
    assert hashes[ws] + added == hashes[ws];
  }

  lemma GrownAgain(hashes: map<Connection, set<string>>, ws: Connection, x: set<string>, y: set<string>)
    ensures Grown(Grown(hashes, ws, x), ws, y) == Grown(hashes, ws, x + y)
  {
    assert (if ws in hashes then hashes[ws] else {}) + x + y == (if ws in hashes then hashes[ws] else {}) + (x + y);
  }

  /** The hashes one event calls for under some of the names. */
  function DueUnder(b: Behaviour, index: Index, subs: map<string, Subscription>, e: Occurrence,
                    names: set<string>): set<string> {
    set name | name in names && Due(b, index, subs, e, name) :: HashFor(b, subs, e, name)
  }

  /** The notification answers a subscription to this event. */
  predicate JustifiedBy(b: Behaviour, index: Index, subs: map<string, Subscription>, e: Occurrence,
                        note: Notification) {
    && Due(b, index, subs, e, note.name)
    && note.msgId == subs[note.name].msgId
    && note.response == b.respond(note.name, e, subs[note.name].data).value
    && note.hash == b.hash(note.name, note.response)
  }

  ghost predicate Justified(b: Behaviour, index: Index, subs: map<string, Subscription>, es: seq<Occurrence>,
                            note: Notification) {
    exists i | 0 <= i < |es| :: JustifiedBy(b, index, subs, es[i], note)
  }

  /** From `x` to `y`, only `ws` was sent something, and only what the events justify. */
  ghost predicate Extends(b: Behaviour, index: Index, subs: map<string, Subscription>, es: seq<Occurrence>,
                          x: map<Connection, seq<Notification>>, y: map<Connection, seq<Notification>>,
                        ws: Connection) {
    && ws in x && ws in y && y - {ws} == x - {ws}
    && x[ws] <= y[ws]
    && forall i | |x[ws]| <= i < |y[ws]| :: Justified(b, index, subs, es, y[ws][i])
  }

  lemma NothingDue(b: Behaviour, index: Index, subs: map<string, Subscription>, e: Occurrence, name: string,
                   hashes: map<Connection, set<string>>, sent: map<Connection, seq<Notification>>, ws: Connection)
    requires !Due(b, index, subs, e, name) && sent.Keys == hashes.Keys
    ensures ws in hashes ==> hashes == Grown(hashes, ws, DueUnder(b, index, subs, e, {name}))
    ensures ws in hashes ==> Extends(b, index, subs, [e], sent, sent, ws)
  {
    if ws in hashes {
      GrownNot(hashes, ws, DueUnder(b, index, subs, e, {name}));
    }
  }

  lemma ExtendsNot(b: Behaviour, index: Index, subs: map<string, Subscription>, es: seq<Occurrence>,
                   sent: map<Connection, seq<Notification>>, ws: Connection)
    requires ws in sent
    ensures Extends(b, index, subs, es, sent, sent, ws)
  {
  }

  lemma ExtendsAgain(b: Behaviour, index: Index, subs: map<string, Subscription>, es: seq<Occurrence>,
                     x: map<Connection, seq<Notification>>, y: map<Connection, seq<Notification>>,
                     z: map<Connection, seq<Notification>>, ws: Connection)
    requires Extends(b, index, subs, es, x, y, ws) && Extends(b, index, subs, es, y, z, ws)
    ensures Extends(b, index, subs, es, x, z, ws)
  {
    hide Justified;
    forall i | |x[ws]| <= i < |z[ws]| ensures Justified(b, index, subs, es, z[ws][i]) {
      if i < |y[ws]| {
        assert z[ws][i] == y[ws][i];
      }
    }
  }

  lemma ExtendsByMore(b: Behaviour, index: Index, subs: map<string, Subscription>, es: seq<Occurrence>, e: Occurrence,
                      x: map<Connection, seq<Notification>>, y: map<Connection, seq<Notification>>,
                      z: map<Connection, seq<Notification>>, ws: Connection)
    requires Extends(b, index, subs, es, x, y, ws) && Extends(b, index, subs, [e], y, z, ws)
    ensures Extends(b, index, subs, es + [e], x, z, ws)
  {
    hide JustifiedBy;
    var more := es + [e];
    forall i | |x[ws]| <= i < |z[ws]| ensures Justified(b, index, subs, more, z[ws][i]) {
      if i < |y[ws]| {
        assert z[ws][i] == y[ws][i];
        var k :| 0 <= k < |es| && JustifiedBy(b, index, subs, es[k], y[ws][i]);
        assert more[k] == es[k];
      } else {
        assert more[|es|] == e && [e][0] == e;
      }
    }
  }

  lemma DueUnderUnion(b: Behaviour, index: Index, subs: map<string, Subscription>, e: Occurrence, done: set<string>,
                      name: string)
    ensures DueUnder(b, index, subs, e, done + {name})
         == DueUnder(b, index, subs, e, done) + DueUnder(b, index, subs, e, {name})
  {
  }

  /** What one more name adds to the hashes. */
  lemma NameDone(b: Behaviour, index: Index, subs: map<string, Subscription>, e: Occurrence,
                 names: set<string>, todo: set<string>, name: string,
                 x: map<Connection, set<string>>, y: map<Connection, set<string>>, z: map<Connection, set<string>>,
                 ws: Connection)
    requires name in todo && todo <= names
    requires y == Grown(x, ws, DueUnder(b, index, subs, e, names - todo))
    requires z == Grown(y, ws, DueUnder(b, index, subs, e, {name}))
    ensures z == Grown(x, ws, DueUnder(b, index, subs, e, names - (todo - {name})))
  {
    var done := names - todo;
    DueUnderUnion(b, index, subs, e, done, name);
    GrownAgain(x, ws, DueUnder(b, index, subs, e, done), DueUnder(b, index, subs, e, {name}));
    hide DueUnder, Grown;
    assert names - (todo - {name}) == done + {name};
  }

  lemma DueOfOne(b: Behaviour, index: Index, subs: map<string, Subscription>, e: Occurrence, names: set<string>)
    requires names == if e.kind in index then index[e.kind] else {}
    ensures DueUnder(b, index, subs, e, names) == DueHashes(b, index, subs, [e])
  {
    hide HashFor;
    assert e in [e];
  }

  lemma DueOfMore(b: Behaviour, index: Index, subs: map<string, Subscription>, es: seq<Occurrence>, e: Occurrence)
    ensures DueHashes(b, index, subs, es + [e]) == DueHashes(b, index, subs, es) + DueHashes(b, index, subs, [e])
  {
    hide HashFor;
    assert forall x :: x in es + [e] <==> x in es || x in [e];
  }

  lemma SentOneMore(sent: seq<Notification>, note: Notification)
    requires Distinct(sent) && note.hash !in HashesOf(sent)
    ensures Distinct(sent + [note]) && HashesOf(sent + [note]) == HashesOf(sent) + {note.hash}
  {
    assert forall i | 0 <= i < |sent| :: sent[i] in sent;
    assert forall n :: n in sent + [note] <==> n in sent || n == note;
  }
}
