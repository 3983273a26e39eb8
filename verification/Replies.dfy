/** Every future and every queued message, told from the events alone. */
module Replies {
  import opened Wrappers
  import opened MessageRouter

  /** What the router holds under an id after the events: the first reply, timeout or disconnect after
      the id was expected decides, until the end of waiting removes it. */
  function Waiting(es: seq<Event>, id: string): Option<Future> {
    if es == [] then None
    else
      var before := Waiting(es[..|es| - 1], id);
      match es[|es| - 1]
      case Expect(x) => if x == id then Some(Pending) else before
      case Route(msg) => if msg.id == id && before == Some(Pending) then Some(Resolved(msg)) else before
      case Timeout(x) => if x == id && before == Some(Pending) then Some(Cancelled) else before
      case FailAll(error) => if before == Some(Pending) then Some(Failed(error)) else before
      case Finish(x) => if x == id && before != Some(Pending) then None else before
      case Take => before
  }

  /** The messages that came when nothing was held under their id, in order. */
  function Unclaimed(es: seq<Event>): seq<Message> {
    if es == [] then []
    else
      var before, e := es[..|es| - 1], es[|es| - 1];
      Unclaimed(before) + (if e.Route? && Waiting(before, e.msg.id).None? then [e.msg] else [])
  }

  /** How many of them have been taken. */
  function Taken(es: seq<Event>): nat {
    if es == [] then 0
    else
      var before, e := es[..|es| - 1], es[|es| - 1];
      Taken(before) + (if e == Take && Taken(before) < |Unclaimed(before)| then 1 else 0)
  }

  function Held(w: World, id: string): Option<Future> {
    if id in w.router.futures then Some(w.router.futures[id]) else None
  }

  lemma StepHeld(w: World, e: Event, id: string)
    ensures Held(Step(w, e), id) ==
      match e
      case Expect(x) => if x == id then Some(Pending) else Held(w, id)
      case Route(msg) => if msg.id == id && Held(w, id) == Some(Pending) then Some(Resolved(msg)) else Held(w, id)
      case Timeout(x) => if x == id && Held(w, id) == Some(Pending) then Some(Cancelled) else Held(w, id)
      case FailAll(error) => if Held(w, id) == Some(Pending) then Some(Failed(error)) else Held(w, id)
      case Finish(x) => if x == id && Held(w, id) != Some(Pending) then None else Held(w, id)
      case Take => Held(w, id)
  {
  }

  /** In every run, whatever the ids, the router holds exactly what the events say, and the queue is
      the unclaimed messages that were not taken. */
  lemma {:induction false} RouterIsItsHistory(es: seq<Event>)
    ensures forall id :: Held(Run(es), id) == Waiting(es, id)
    ensures Taken(es) <= |Unclaimed(es)|
    ensures Run(es).taken == Unclaimed(es)[..Taken(es)] && Run(es).router.queue == Unclaimed(es)[Taken(es)..]
  {
    if es != [] {
      var before, e := es[..|es| - 1], es[|es| - 1];
      RouterIsItsHistory(before);
      forall id ensures Held(Run(es), id) == Waiting(es, id) {
        StepHeld(Run(before), e, id);
      }
      QueueOneMore(Run(before), e, Unclaimed(before), Taken(before));
      assert e.Route? ==> Held(Run(before), e.msg.id) == Waiting(before, e.msg.id);
      hide Held, Waiting, Step;
    }
  }

  lemma QueueOneMore(w: World, e: Event, unclaimed: seq<Message>, taken: nat)
    requires taken <= |unclaimed| && w.taken == unclaimed[..taken] && w.router.queue == unclaimed[taken..]
    ensures var more := unclaimed + (if e.Route? && Held(w, e.msg.id).None? then [e.msg] else []);
      var k := taken + (if e == Take && taken < |unclaimed| then 1 else 0);
      Step(w, e).taken == more[..k] && Step(w, e).router.queue == more[k..]
  {
  }

  /** The event has no bearing on a reply waited for under the id. */
  predicate Unrelated(e: Event, id: string) {
    match e
    case Expect(x) => x != id
    case Route(msg) => msg.id != id
    case Timeout(x) => x != id
    case FailAll(_) => false
    case _ => true
  }

  lemma {:induction false} StillPending(xs: seq<Event>, id: string, ys: seq<Event>)
    requires forall e | e in ys :: Unrelated(e, id)
    ensures Waiting(xs + [Expect(id)] + ys, id) == Some(Pending)
  {
    var es := xs + [Expect(id)] + ys;
    if ys == [] {
      assert es[|es| - 1] == Expect(id);
    } else {
      var zs := ys[..|ys| - 1];
      assert es[..|es| - 1] == xs + [Expect(id)] + zs && es[|es| - 1] == ys[|ys| - 1];
      assert Unrelated(ys[|ys| - 1], id);
      StillPending(xs, id, zs);
    }
  }

  /** An id that is expected stays pending until the first reply, timeout or disconnect, which gives its
      future the message, the cancellation or the error. */
  lemma FirstAnswerCounts(xs: seq<Event>, id: string, ys: seq<Event>, msg: Message, error: string)
    requires (forall e | e in ys :: Unrelated(e, id)) && msg.id == id
    ensures var es := xs + [Expect(id)] + ys;
      && Run(es).FutureOf(id) == Some(Pending)
      && Run(es + [Route(msg)]).FutureOf(id) == Some(Resolved(msg))
      && Run(es + [Route(msg)]).router.queue == Run(es).router.queue
      && Run(es + [Timeout(id)]).FutureOf(id) == Some(Cancelled)
      && Run(es + [FailAll(error)]).FutureOf(id) == Some(Failed(error))
  {
    var es := xs + [Expect(id)] + ys;
    StillPending(xs, id, ys);
    RouterIsItsHistory(es);
    assert Held(Run(es), id) == Some(Pending);
    forall e: Event ensures Run(es + [e]) == Step(Run(es), e) {
      assert (es + [e])[..|es|] == es;
    }
    StepHeld(Run(es), Route(msg), id);
    StepHeld(Run(es), Timeout(id), id);
    StepHeld(Run(es), FailAll(error), id);
    hide Run;
  }

  lemma {:induction false} NeverExpected(es: seq<Event>, id: string)
    requires Expect(id) !in es
    ensures Waiting(es, id) == None
  {
    if es != [] {
      NeverExpected(es[..|es| - 1], id);
    }
  }

  /** A message is queued if and only if nothing is held under its id: always so if the id was never
      expected, and otherwise only once waiting for it has ended. */
  lemma QueuedIff(es: seq<Event>, msg: Message)
    ensures var w, t := Run(es), Run(es + [Route(msg)]);
      && (Waiting(es, msg.id).None? ==> t.router.queue == w.router.queue + [msg])
      && (Waiting(es, msg.id).Some? ==> t.router.queue == w.router.queue)
      && (Expect(msg.id) !in es ==> t.router.queue == w.router.queue + [msg])
  {
    RouterIsItsHistory(es);
    assert Held(Run(es), msg.id) == Waiting(es, msg.id);
    assert (es + [Route(msg)])[..|es|] == es;
    if Expect(msg.id) !in es {
      NeverExpected(es, msg.id);
    }
    hide Run, Waiting;
  }
}
