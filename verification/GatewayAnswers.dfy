/** What a subscription delivers, what ends a session, and which promise an event settles. */
module GatewayAnswers {
  import opened Prelude
  import opened GatewaySession

  // ---- promises --------------------------------------------------------------------------------

  /**
   A push settles nothing. A reply or an error settles the promise at the head of the queue,
   resolving it if and only if it is a reply; with no promise queued an error is only counted.
   */
  lemma {:induction false} MessageMeans(c: Client, e: Event)
    ensures var after := Received(c, e);
      && (e.op == PubSubOp ==> after == c)
      && (e.op != PubSubOp && c.pending != [] ==>
            && c.pending == [c.pending[0]] + after.pending
            && after.settled == c.settled + [Settlement(c.pending[0], e.origin, e.op == OkOp)]
            && after.unattributed == c.unattributed)
      && (e.op != PubSubOp && c.pending == [] ==>
            after.pending == [] && after.settled == c.settled
            && after.unattributed == c.unattributed + if e.op == ErrorOp then 1 else 0)
      && after.open == c.open && after.issued == c.issued && after.dropped == c.dropped
  {
  }

  /** A dropped connection rejects all that was queued, in order. */
  lemma {:induction false} DropMeans(c: Client)
    ensures var after := Disconnected(c);
      && !after.open && after.pending == [] && after.dropped == c.dropped + c.pending
      && after.settled == c.settled && after.issued == c.issued && after.unattributed == c.unattributed
  {
  }

  // ---- subscriptions ---------------------------------------------------------------------------

  /** The events among these that the pump of that receiver made. */
  function FromPump(events: seq<Event>, id: nat): seq<Event> {
    if events == [] then []
    else
      var last := events[|events| - 1];
      FromPump(events[..|events| - 1], id)
      + if last.origin.Pump? && last.origin.id == id then [last] else []
  }

  predicate Listening(s: State, id: nat) {
    s.gateway.receiver.Some? && s.gateway.receiver.value.id == id
  }

  function Queued(s: State, id: nat): seq<Event> {
    if Listening(s, id) then s.gateway.receiver.value.queue else []
  }

  /** What the pump makes in a step: nothing once its receiver was replaced or closed or the client is gone. */
  function MadeIn(s: State, step: Step, id: nat): seq<Event> {
    if !s.client.open || !Listening(s, id) || s.gateway.receiver.value.closed then []
    else if step == PumpPushes(id) then [Event(PubSubOp, Pump(id, s.gateway.receiver.value.topic))]
    else if step == PumpFails(id) then [Event(ErrorOp, Pump(id, s.gateway.receiver.value.topic))]
    else []
  }

  function Made(s: State, steps: seq<Step>, id: nat): seq<Event>
    decreases |steps|
  {
    if steps == [] then [] else MadeIn(s, steps[0], id) + Made(Next(s, steps[0]), steps[1..], id)
  }

  lemma {:induction false} FromPumpOne(events: seq<Event>, e: Event, id: nat)
    ensures FromPump(events + [e], id)
         == FromPump(events, id) + if e.origin.Pump? && e.origin.id == id then [e] else []
  {
    assert (events + [e])[..|events|] == events;
  }

  /** What was queued is sent in order, what is made is queued last, and a new subscription discards the queue. */
  predicate Delivers(s: State, t: State, made: seq<Event>, id: nat) {
    && (Listening(t, id) ==> Listening(s, id))
    && (Listening(t, id) || !Listening(s, id) ==>
          FromPump(t.sent, id) + Queued(t, id) == FromPump(s.sent, id) + Queued(s, id) + made)
    && (!Listening(t, id) ==> FromPump(t.sent, id) == FromPump(s.sent, id))
  }

  lemma {:induction false} AnsweringDelivers(s: State, ok: bool, id: nat)
    requires s.client.open && id < s.gateway.spawned
    ensures Delivers(s, Next(s, GatewayHandles(ok)), [], id)
  {
    hide FromPump;
    var sent := FromPump(s.sent, id);
    assert sent + [] == sent && sent + Queued(s, id) + [] == sent + Queued(s, id);
    if s.up != [] {
      var events := Handled(s.gateway, s.up[0], ok).1;
      if events == [] {
        assert s.sent + events == s.sent;
      } else {
        FromPumpOne(s.sent, events[0], id);
        assert s.sent + events == s.sent + [events[0]];
      }
    }
  }

  lemma {:induction false} ForwardingDelivers(s: State, id: nat)
    requires s.client.open && Sound(s)
    ensures Delivers(s, Next(s, GatewayForwards), [], id)
  {
    hide FromPump, Numbered;
    var sent := FromPump(s.sent, id);
    assert sent + [] == sent && sent + Queued(s, id) + [] == sent + Queued(s, id);
    if s.gateway.receiver.Some? && s.gateway.receiver.value.queue != [] {
      var r := s.gateway.receiver.value;
      FromPumpOne(s.sent, r.queue[0], id);
      Shift(sent, r.queue);
      assert r.queue[0].origin == Pump(r.id, r.topic);
    }
  }

  lemma {:induction false} OthersDeliver(s: State, step: Step, id: nat)
    requires s.client.open && !step.GatewayHandles? && !step.GatewayForwards?
    ensures Delivers(s, Next(s, step), MadeIn(s, step, id), id)
  {
    hide FromPump;
    var sent := FromPump(s.sent, id);
    assert sent + Queued(s, id) + [] == sent + Queued(s, id);
    if Listening(s, id) {
      Assoc(sent, s.gateway.receiver.value.queue, MadeIn(s, step, id));
    }
  }

  lemma {:induction false} StepDelivers(s: State, step: Step, id: nat)
    requires Sound(s) && id < s.gateway.spawned
    ensures Sound(Next(s, step)) && id < Next(s, step).gateway.spawned
    ensures Delivers(s, Next(s, step), MadeIn(s, step, id), id)
  {
    NextKeepsSound(s, step);
    SpawnedGrows(s, step);
    hide Sound, Next, Delivers;
    if !s.client.open {
      ClosedDelivers(s, step, id);
    } else if step.GatewayHandles? {
      AnsweringDelivers(s, step.ok, id);
    } else if step.GatewayForwards? {
      ForwardingDelivers(s, id);
    } else {
      OthersDeliver(s, step, id);
    }
  }

  lemma {:induction false} ClosedDelivers(s: State, step: Step, id: nat)
    requires !s.client.open
    ensures Delivers(s, Next(s, step), [], id)
  {
    hide FromPump;
    var all := FromPump(s.sent, id) + Queued(s, id);
    assert all + [] == all;
  }

  lemma {:induction false} SpawnedGrows(s: State, step: Step)
    ensures Next(s, step).gateway.spawned >= s.gateway.spawned
  {
  }

  /**
   In every run what a subscription's pump makes is sent in the order it was made, each event
   once: while the subscription lasts nothing of it is missing but what is queued, and when
   another takes its place just a tail of it is.
   */
  lemma {:induction false} PushesAreDelivered(s: State, steps: seq<Step>, id: nat)
    requires Sound(s) && id < s.gateway.spawned
    ensures var end := Run(s, steps);
      var all := FromPump(s.sent, id) + Queued(s, id) + Made(s, steps, id);
      && (Listening(end, id) ==> FromPump(end.sent, id) + Queued(end, id) == all)
      && FromPump(end.sent, id) <= all
    decreases |steps|
  {
    hide Sound, Next, FromPump, MadeIn, Queued, Listening;
    if steps == [] {
      QueuedIsTail(s, id);
      assert FromPump(s.sent, id) + Queued(s, id) + [] == FromPump(s.sent, id) + Queued(s, id);
    } else {
      var t := Next(s, steps[0]);
      StepDelivers(s, steps[0], id);
      PushesAreDelivered(t, steps[1..], id);
      Grouped(FromPump(s.sent, id) + Queued(s, id), MadeIn(s, steps[0], id), Made(t, steps[1..], id));
      if !Listening(t, id) {
        NobodyMakes(t, steps[1..], id);
        assert FromPump(t.sent, id) + [] + [] == FromPump(t.sent, id);
        QueuedIsTail(t, id);
      }
    }
  }

  lemma {:induction false} Grouped(a: seq<Event>, b: seq<Event>, c: seq<Event>)
    ensures a + (b + c) == (a + b) + c && a <= a + b + c
  {
  }

  lemma {:induction false} QueuedIsTail(s: State, id: nat)
    ensures FromPump(s.sent, id) <= FromPump(s.sent, id) + Queued(s, id)
    ensures !Listening(s, id) ==> Queued(s, id) == []
  {
  }

  lemma {:induction false} NobodyMakes(s: State, steps: seq<Step>, id: nat)
    requires Sound(s) && id < s.gateway.spawned && !Listening(s, id)
    ensures Made(s, steps, id) == [] && !Listening(Run(s, steps), id)
    decreases |steps|
  {
    hide Sound, Next;
    if steps != [] {
      StepDelivers(s, steps[0], id);
      NobodyMakes(Next(s, steps[0]), steps[1..], id);
    }
  }

  /** The channel's end, once everything queued was forwarded, drops the connection; a failing pump is such an end. */
  lemma {:induction false} EndOfChannelDrops(s: State)
    requires s.client.open && s.gateway.receiver.Some? && s.gateway.receiver.value.queue == []
    ensures var r := s.gateway.receiver.value;
      var ended := Next(Next(s, PumpEnds(r.id)), GatewayForwards);
      && !ended.client.open && ended.client.dropped == s.client.dropped + s.client.pending && ended.sent == s.sent
      && (!r.closed ==>
            var failed := Next(Next(s, PumpFails(r.id)), GatewayForwards);
            && failed.client == s.client && failed.sent == s.sent + [Event(ErrorOp, Pump(r.id, r.topic))]
            && !Next(failed, GatewayForwards).client.open)
      && (!r.closed ==> Next(s, GatewayForwards) == s)
  {
  }
}
