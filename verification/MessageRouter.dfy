/** The router between replies that are waited for and messages that are not. */
module MessageRouter {
  import opened Wrappers

  datatype Message = Message(id: string, content: string)

  /** A future is pending until it is given a result or an error, or cancelled by a timeout. */
  datatype Future = Pending | Resolved(msg: Message) | Failed(error: string) | Cancelled

  datatype Router = Router(futures: map<string, Future>, queue: seq<Message>) {

    function Expecting(id: string): Router {
      this.(futures := futures[id := Pending])
    }

    /** A result set on a finished future is refused and dropped. */
    function WithReply(id: string, msg: Message): Router {
      if id in futures && futures[id].Pending? then this.(futures := futures[id := Resolved(msg)]) else this
    }

    function Routed(msg: Message): Router {
      if msg.id in futures then WithReply(msg.id, msg) else this.(queue := queue + [msg])
    }

    function AllFailed(error: string): Router {
      this.(futures := map id | id in futures :: if futures[id].Pending? then Failed(error) else futures[id])
    }

    function TimedOut(id: string): Router {
      if id in futures && futures[id].Pending? then this.(futures := futures[id := Cancelled]) else this
    }

    function Without(id: string): Router {
      this.(futures := futures - {id})
    }
  }

  class MessageRouter {
    var futures: map<string, Future>
    var queue: seq<Message>

    function Now(): Router
      reads this
    {
      Router(futures, queue)
    }

    constructor ()
      ensures Now() == Router(map[], [])
    {
      futures, queue := map[], [];
    }

    method ExpectReply(id: string)
      modifies this
      ensures Now() == old(Now()).Expecting(id)
      ensures futures == old(futures)[id := Pending] && queue == old(queue)
    {
      futures := futures[id := Pending];
    }

    method SetReply(id: string, msg: Message)
      modifies this
      ensures Now() == old(Now()).WithReply(id, msg)
    {
      if id in futures {
        if futures[id].Pending? {
          futures := futures[id := Resolved(msg)];
        }
      }
    }

    method FailReply(id: string, error: string)
      modifies this
      ensures queue == old(queue)
      ensures futures == if id in old(futures) && old(futures)[id].Pending?
                         then old(futures)[id := Failed(error)] else old(futures)
    {
      if id in futures && futures[id].Pending? {
        futures := futures[id := Failed(error)];
      }
    }

    /** Fails every reply still waited for, and only those. */
    method FailAll(error: string)
      modifies this
      ensures Now() == old(Now()).AllFailed(error)
      ensures forall id | id in futures :: !futures[id].Pending?
    {
      var todo := futures.Keys;
      while todo != {}
        invariant todo <= futures.Keys == old(futures).Keys && queue == old(queue)
        invariant forall id | id in todo :: futures[id] == old(futures)[id]
        invariant forall id | id in futures.Keys - todo :: futures[id] == old(Now()).AllFailed(error).futures[id]
        decreases |todo|
      {
        var id :| id in todo;
        FailReply(id, error);
        todo := todo - {id};
      }
    }

    method RouteMsg(msg: Message)
      modifies this
      ensures Now() == old(Now()).Routed(msg)
    {
      if msg.id in futures {
        SetReply(msg.id, msg);
      } else {
        queue := queue + [msg];
      }
    }

    /** The oldest queued message, or nothing when the queue is empty. */
    method IncomingNowait() returns (r: Option<Message>)
      modifies this
      ensures futures == old(futures)
      ensures old(queue) == [] ==> r == None && queue == []
      ensures old(queue) != [] ==> r.Some? && old(queue) == [r.value] + queue
    {
      if queue == [] {
        return None;
      }
      r := Some(queue[0]);
      queue := queue[1..];
    }

    /** The end of waiting for a reply: its future leaves the table and is handed over. */
    method FinishReply(id: string) returns (r: Option<Future>)
      modifies this
      ensures Now() == old(Now()).Without(id)
      ensures r == if id in old(futures) then Some(old(futures)[id]) else None
    {
      if id in futures {
        r := Some(futures[id]);
        futures := futures - {id};
      } else {
        r := None;
        assert futures - {id} == futures;
      }
    }
  }

  /** What became of a routed message. */
  datatype Fate = Answered | Enqueued | Dropped

  /** A router together with what has left it: finished futures, messages taken from the queue, and
      the messages routed so far. */
  datatype World = World(
    router: Router, collected: map<string, Future>, taken: seq<Message>, log: seq<(Message, Fate)>)
  {
    /** The future of an id, waited for or already collected. */
    function FutureOf(id: string): Option<Future> {
      if id in router.futures then Some(router.futures[id])
      else if id in collected then Some(collected[id])
      else None
    }

    function FateOf(msg: Message): Fate {
      if msg.id !in router.futures then Enqueued
      else if router.futures[msg.id].Pending? then Answered
      else Dropped
    }
  }

  datatype Event =
    | Expect(id: string)
    | Route(msg: Message)
    | Timeout(id: string)
    | Finish(id: string)
    | FailAll(error: string)
    | Take

  const NEW_WORLD := World(Router(map[], []), map[], [], [])

  /** Correlation ids are fresh. */
  predicate Fresh(w: World, e: Event) {
    e.Expect? ==> w.FutureOf(e.id).None?
  }

  function Step(w: World, e: Event): World {
    match e
    case Expect(id) => w.(router := w.router.Expecting(id))
    case Route(msg) => w.(router := w.router.Routed(msg), log := w.log + [(msg, w.FateOf(msg))])
    case Timeout(id) => w.(router := w.router.TimedOut(id))
    case Finish(id) =>
      if id in w.router.futures && !w.router.futures[id].Pending?
      then w.(router := w.router.Without(id), collected := w.collected[id := w.router.futures[id]]) else w
    case FailAll(error) => w.(router := w.router.AllFailed(error))
    case Take =>
      if w.router.queue == [] then w
      else w.(router := w.router.(queue := w.router.queue[1..]), taken := w.taken + [w.router.queue[0]])
  }

  function Run(es: seq<Event>): World {
    if es == [] then NEW_WORLD else Step(Run(es[..|es| - 1]), es[|es| - 1])
  }

  predicate AllFresh(es: seq<Event>) {
    forall i | 0 <= i < |es| :: Fresh(Run(es[..i]), es[i])
  }

  /** The messages that met a fate, in the order they came. */
  function Met(log: seq<(Message, Fate)>, fate: Fate): seq<Message> {
    if log == [] then []
    else
      var last := log[|log| - 1];
      Met(log[..|log| - 1], fate) + (if last.1 == fate then [last.0] else [])
  }

  /** The ids whose future was given a message. */
  function ResolvedIds(w: World): set<string> {
    set id | id in w.router.futures.Keys + w.collected.Keys && w.FutureOf(id).value.Resolved?
  }

  /** No id is both waited for and collected, and only finished futures are collected. */
  ghost predicate Separate(w: World) {
    && w.router.futures.Keys !! w.collected.Keys
    && forall id | id in w.collected :: !w.collected[id].Pending?
  }

  /** Messages nobody waited for are queued and taken in the order they came. */
  ghost predicate InOrder(w: World) {
    Met(w.log, Enqueued) == w.taken + w.router.queue
  }

  /** Answers and resolved futures are the same messages, one for one. */
  ghost predicate OneForOne(w: World) {
    && |Met(w.log, Answered)| == |ResolvedIds(w)|
    && (forall m | m in Met(w.log, Answered) :: w.FutureOf(m.id) == Some(Resolved(m)))
    && (forall id | id in ResolvedIds(w) :: w.FutureOf(id).value.msg in Met(w.log, Answered))
  }

  /** Only replies to finished futures are dropped. */
  ghost predicate OnlyLate(w: World) {
    forall m | m in Met(w.log, Dropped) :: w.FutureOf(m.id).Some? && !w.FutureOf(m.id).value.Pending?
  }

  /** No reply is waited for. */
  ghost predicate NothingPending(w: World) {
    forall id | w.FutureOf(id).Some? :: !w.FutureOf(id).value.Pending?
  }

  /** Where every routed message is: results of futures, queue entries in order, and late replies. */
  ghost predicate Accounted(w: World) {
    Separate(w) && InOrder(w) && OneForOne(w) && OnlyLate(w)
  }

  /** A finished future never changes, whether it is still in the table or collected. */
  lemma FinishedNeverChanges(w: World, e: Event, id: string)
    requires w.router.futures.Keys !! w.collected.Keys && Fresh(w, e)
    requires w.FutureOf(id).Some? && !w.FutureOf(id).value.Pending?
    ensures Step(w, e).FutureOf(id) == w.FutureOf(id)
  {
  }

  lemma MetOneMore(log: seq<(Message, Fate)>, entry: (Message, Fate), fate: Fate)
    ensures Met(log + [entry], fate) == Met(log, fate) + (if entry.1 == fate then [entry.0] else [])
  {
    assert (log + [entry])[..|log|] == log;
  }

  lemma RouteInOrder(w: World, msg: Message)
    requires InOrder(w)
    ensures InOrder(Step(w, Route(msg)))
  {
    MetOneMore(w.log, (msg, w.FateOf(msg)), Enqueued);
    assert w.taken + (w.router.queue + [msg]) == w.taken + w.router.queue + [msg];
  }

  lemma RouteOneForOne(w: World, msg: Message)
    requires Separate(w) && OneForOne(w)
    ensures OneForOne(Step(w, Route(msg)))
  {
    hide Met;
    var t := Step(w, Route(msg));
    MetOneMore(w.log, (msg, w.FateOf(msg)), Answered);
    RouteResolves(w, msg);
    hide ResolvedIds;
  }

  /** Routing resolves the future it answers and no other. */
  lemma RouteResolves(w: World, msg: Message)
    requires Separate(w)
    ensures w.FateOf(msg).Answered? ==>
      msg.id !in ResolvedIds(w) && ResolvedIds(Step(w, Route(msg))) == ResolvedIds(w) + {msg.id}
    ensures !w.FateOf(msg).Answered? ==> ResolvedIds(Step(w, Route(msg))) == ResolvedIds(w)
    ensures forall id | w.FutureOf(id).Some? && w.FutureOf(id).value.Resolved? ::
      id in ResolvedIds(w) && Step(w, Route(msg)).FutureOf(id) == w.FutureOf(id)
    ensures forall id | id in ResolvedIds(w) :: w.FutureOf(id).Some? && w.FutureOf(id).value.Resolved?
  {
  }

  lemma RouteOnlyLate(w: World, msg: Message)
    requires OnlyLate(w)
    ensures OnlyLate(Step(w, Route(msg)))
  {
    hide Met;
    MetOneMore(w.log, (msg, w.FateOf(msg)), Dropped);
  }

  /** Events that route nothing resolve nothing, and leave finished futures alone. */
  lemma QuietAccounted(w: World, e: Event)
    requires Accounted(w) && Fresh(w, e) && !e.Route? && !e.Take?
    ensures Accounted(Step(w, e))
  {
    hide Met;
    var t := Step(w, e);
    forall id | w.FutureOf(id).Some? && !w.FutureOf(id).value.Pending? ensures t.FutureOf(id) == w.FutureOf(id) {
      FinishedNeverChanges(w, e, id);
    }
    assert ResolvedIds(t) == ResolvedIds(w);
  }

  lemma TakeAccounted(w: World)
    requires Accounted(w)
    ensures Accounted(Step(w, Take))
  {
    hide Met;
    assert ResolvedIds(Step(w, Take)) == ResolvedIds(w);
    if w.router.queue != [] {
      assert w.taken + w.router.queue == w.taken + [w.router.queue[0]] + w.router.queue[1..];
    }
  }

  lemma FailAllEndsWaiting(w: World, error: string)
    requires Separate(w)
    ensures NothingPending(Step(w, FailAll(error)))
  {
  }

  lemma StepAccounted(w: World, e: Event)
    requires Accounted(w) && Fresh(w, e)
    ensures Accounted(Step(w, e))
    ensures e.FailAll? ==> NothingPending(Step(w, e))
  {
    if e.FailAll? {
      FailAllEndsWaiting(w, e.error);
    }
    hide InOrder, OneForOne, OnlyLate, NothingPending;
    match e
    case Route(msg) =>
      RouteInOrder(w, msg);
      RouteOneForOne(w, msg);
      RouteOnlyLate(w, msg);
    case Take => TakeAccounted(w);
    case _ => QuietAccounted(w, e);
  }

  /** In every run, each routed message is the result of exactly one future, an entry of the queue
      in arrival order, or a late reply to a finished future; the numbers add up. Right after a
      disconnect no reply is waited for. */
  lemma {:induction false} MessagesAreAccounted(es: seq<Event>)
    requires AllFresh(es)
    ensures Accounted(Run(es))
    ensures var w := Run(es);
      |w.log| == |ResolvedIds(w)| + |w.taken| + |w.router.queue| + |Met(w.log, Dropped)|
    ensures es != [] && es[|es| - 1].FailAll? ==> NothingPending(Run(es))
  {
    hide NothingPending, Step;
    if es != [] {
      var before := es[..|es| - 1];
      assert forall i | 0 <= i < |before| :: before[..i] == es[..i];
      MessagesAreAccounted(before);
      StepAccounted(Run(before), es[|es| - 1]);
    }
    EveryFateCounted(Run(es).log);
  }

  lemma {:induction false} EveryFateCounted(log: seq<(Message, Fate)>)
    ensures |log| == |Met(log, Answered)| + |Met(log, Enqueued)| + |Met(log, Dropped)|
  {
    if log != [] {
      EveryFateCounted(log[..|log| - 1]);
    }
  }
}
