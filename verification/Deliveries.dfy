/** Several consumers of one connection. Every subscription starts one. A consumer looks a hash up, sends
    its notification if the hash is not kept, and adds the hash only when sending is over; other
    consumers act in between. */
module Deliveries {
  type Consumer = nat

  datatype Delivery = Delivery(consumer: Consumer, hash: string)

  /** `sending` is what each busy consumer sends; one that never gets done stays there. */
  datatype World = World(kept: set<string>, sending: map<Consumer, string>, sent: seq<Delivery>)

  datatype Event = Check(consumer: Consumer, hash: string) | Add(consumer: Consumer)

  const NOTHING := World({}, map[], [])

  /** The check leads to sending: its consumer is not busy, and the hash not kept. */
  predicate Passes(w: World, e: Event) {
    e.Check? && e.consumer !in w.sending && e.hash !in w.kept
  }

  function Step(w: World, e: Event): World {
    match e
    case Check(k, h) =>
      if Passes(w, e) then w.(sending := w.sending[k := h], sent := w.sent + [Delivery(k, h)]) else w
    case Add(k) =>
      if k in w.sending then w.(kept := w.kept + {w.sending[k]}, sending := w.sending - {k}) else w
  }

  function Run(es: seq<Event>): World {
    if es == [] then NOTHING else Step(Run(es[..|es| - 1]), es[|es| - 1])
  }

  ghost predicate Repeats(w: World, h: string) {
    exists i, j :: 0 <= i < j < |w.sent| && w.sent[i].hash == w.sent[j].hash == h
  }

  /** A check of the hash passes while another consumer is sending it. */
  ghost predicate Overtaken(es: seq<Event>, n: nat, h: string) {
    n < |es| && Passes(Run(es[..n]), es[n]) && es[n].hash == h && h in Run(es[..n]).sending.Values
  }

  ghost predicate NoConsumerRepeats(w: World) {
    forall i, j | 0 <= i < j < |w.sent| :: w.sent[i] != w.sent[j]
  }

  /** What was sent is kept, or being sent by the same consumer. */
  ghost predicate Tracked(w: World) {
    && (forall i | 0 <= i < |w.sent| ::
          || w.sent[i].hash in w.kept
          || (w.sent[i].consumer in w.sending && w.sending[w.sent[i].consumer] == w.sent[i].hash))
    && (forall h | h in w.kept || h in w.sending.Values :: exists i :: 0 <= i < |w.sent| && w.sent[i].hash == h)
  }

  lemma StepTracked(w: World, e: Event)
    requires Tracked(w) && NoConsumerRepeats(w)
    ensures Tracked(Step(w, e)) && NoConsumerRepeats(Step(w, e))
  {
    var t := Step(w, e);
    if Passes(w, e) {
      assert t.sent[|w.sent|] == Delivery(e.consumer, e.hash);
    }
    forall h | h in t.kept || h in t.sending.Values ensures exists i :: 0 <= i < |t.sent| && t.sent[i].hash == h {
      if h in w.kept || h in w.sending.Values {
        var i :| 0 <= i < |w.sent| && w.sent[i].hash == h;
        assert t.sent[i].hash == h;
      }
    }
  }

  /** No consumer sends a hash twice, and in every run exactly what was sent is kept or being sent. So a
      hash is sent at most once by each consumer, and only once if there is one consumer. */
  lemma {:induction false} EachConsumerSendsOnce(es: seq<Event>)
    ensures NoConsumerRepeats(Run(es)) && Tracked(Run(es))
  {
    if es != [] {
      EachConsumerSendsOnce(es[..|es| - 1]);
      StepTracked(Run(es[..|es| - 1]), es[|es| - 1]);
    }
  }

  /** A hash is sent twice if and only if at some moment a check of it passes while another consumer
      is still sending it. */
  lemma {:induction false} SentTwiceIff(es: seq<Event>, h: string)
    ensures Repeats(Run(es), h) <==> exists n: nat :: Overtaken(es, n, h)
  {
    if es != [] {
      var before, e := es[..|es| - 1], es[|es| - 1];
      SentTwiceIff(before, h);
      EachConsumerSendsOnce(before);
      OvertakenOneMore(es, h);
      RepeatsOneMore(Run(before), e, h);
      hide Repeats, Overtaken, Passes;
    }
  }

  lemma OvertakenOneMore(es: seq<Event>, h: string)
    requires es != []
    ensures var before, e := es[..|es| - 1], es[|es| - 1];
      (exists n: nat :: Overtaken(es, n, h)) <==>
        || (exists n: nat :: Overtaken(before, n, h))
        || (Passes(Run(before), e) && e.hash == h && h in Run(before).sending.Values)
  {
    hide Run;
    var before, e := es[..|es| - 1], es[|es| - 1];
    forall n: nat | n < |before| ensures Overtaken(before, n, h) <==> Overtaken(es, n, h) {
      assert before[..n] == es[..n];
    }
    assert es[..|before|] == before;
    assert Overtaken(es, |before|, h) <==> Passes(Run(before), e) && e.hash == h && h in Run(before).sending.Values;
  }

  lemma RepeatsOneMore(w: World, e: Event, h: string)
    requires Tracked(w)
    ensures Repeats(Step(w, e), h) <==> Repeats(w, h) || (Passes(w, e) && e.hash == h && h in w.sending.Values)
  {
    var t := Step(w, e);
    if Repeats(w, h) {
      var i, j :| 0 <= i < j < |w.sent| && w.sent[i].hash == w.sent[j].hash == h;
      assert t.sent[i].hash == t.sent[j].hash == h;
    }
    if Passes(w, e) && e.hash == h && h in w.sending.Values {
      var i :| 0 <= i < |w.sent| && w.sent[i].hash == h;
      assert t.sent[i].hash == t.sent[|w.sent|].hash == h;
    }
    if Repeats(t, h) && !Repeats(w, h) {
      var i, j :| 0 <= i < j < |t.sent| && t.sent[i].hash == t.sent[j].hash == h;
      assert j == |w.sent| && w.sent[i].hash == h;
    }
  }

  /** A hash is sent if and only if a consumer that is not busy checks it. */
  lemma {:induction false} SentIff(es: seq<Event>, h: string)
    ensures (exists d :: d in Run(es).sent && d.hash == h) <==>
      exists n: nat :: n < |es| && es[n].Check? && es[n].hash == h && es[n].consumer !in Run(es[..n]).sending
  {
    if es != [] {
      var before, e := es[..|es| - 1], es[|es| - 1];
      SentIff(before, h);
      EachConsumerSendsOnce(before);
      assert forall n: nat | n < |before| :: before[n] == es[n] && before[..n] == es[..n];
      assert es[..|before|] == before;
      SentOneMore(Run(before), e, h);
      hide Run, Step;
    }
  }

  lemma SentOneMore(w: World, e: Event, h: string)
    requires Tracked(w)
    ensures (exists d :: d in Step(w, e).sent && d.hash == h) <==>
      || (exists d :: d in w.sent && d.hash == h)
      || (e.Check? && e.hash == h && e.consumer !in w.sending)
  {
    var t := Step(w, e);
    assert forall d | d in w.sent :: d in t.sent;
    if e.Check? && e.consumer !in w.sending {
      if e.hash in w.kept {
        var i :| 0 <= i < |w.sent| && w.sent[i].hash == e.hash;
        assert w.sent[i] in w.sent;
      } else {
        assert Delivery(e.consumer, e.hash) in t.sent;
      }
    }
  }

  /** A busy consumer that adds its hash is free again, and the hash is kept from then on. */
  lemma AddEndsSending(es: seq<Event>, k: Consumer, more: seq<Event>)
    requires k in Run(es).sending
    ensures k !in Run(es + [Add(k)]).sending
    ensures Run(es).sending[k] in Run(es + [Add(k)] + more).kept
  {
    assert (es + [Add(k)])[..|es|] == es;
    KeptForGood(es + [Add(k)], more);
  }

  lemma {:induction false} KeptForGood(es: seq<Event>, more: seq<Event>)
    ensures Run(es).kept <= Run(es + more).kept
  {
    if more == [] {
      assert es + more == es;
    } else {
      var rest := more[..|more| - 1];
      assert (es + more)[..|es + more| - 1] == es + rest;
      KeptForGood(es, rest);
    }
  }

  /** With a single consumer nothing is sent twice. */
  lemma {:induction false} OneConsumerNeverRepeats(es: seq<Event>, k: Consumer)
    requires forall e | e in es :: e.consumer == k
    ensures forall d | d in Run(es).sent :: d.consumer == k
    ensures forall h :: !Repeats(Run(es), h)
  {
    EachConsumerSendsOnce(es);
    if es != [] {
      OneConsumerNeverRepeats(es[..|es| - 1], k);
    }
  }
}
