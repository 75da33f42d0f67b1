/**
 One browser session: the client's FIFO of unanswered promises, the gateway's
 command loop, and the pub/sub pump whose events share the reply channel.
 Replies carry no request id, so correlation rests on order alone.

 `Ticket` and `Origin` are bookkeeping of this model: the client acts on `op`
 only and never looks at where an event came from.
 */
module GatewaySession {
  import opened Prelude

  type Ticket = nat

  datatype Command = Request(ticket: Ticket) | Subscribe(topic: string)

  datatype Op = OkOp | ErrorOp | PubSubOp

  datatype Origin = Answer(ticket: Ticket) | Pump(id: nat, topic: string)

  datatype Event = Event(op: Op, origin: Origin)

  /** Which event settled which promise. */
  datatype Settlement = Settlement(promise: Ticket, cause: Origin, resolved: bool)

  // ---- the browser client ------------------------------------------------------

  datatype Client = Client(
    open: bool, issued: nat, pending: seq<Ticket>, settled: seq<Settlement>,
    dropped: seq<Ticket>, unattributed: nat)

  const NEW_CLIENT := Client(true, 0, [], [], [], 0)

  function Requested(c: Client): Client {
    c.(issued := c.issued + 1, pending := c.pending + [c.issued])
  }

  function Received(c: Client, e: Event): Client {
    if e.op.PubSubOp? then c
    else if c.pending != [] then
      c.(pending := c.pending[1..],
         settled := c.settled + [Settlement(c.pending[0], e.origin, e.op.OkOp?)])
    else if e.op.ErrorOp? then c.(unattributed := c.unattributed + 1)
    else c
  }

  function Disconnected(c: Client): Client {
    c.(open := false, pending := [], dropped := c.dropped + c.pending)
  }

  class CanopeeWeb {
    var open: bool
    var issued: nat
    var pending: seq<Ticket>
    var settled: seq<Settlement>
    var dropped: seq<Ticket>
    var unattributed: nat

    ghost function View(): Client
      reads this
    {
      Client(open, issued, pending, settled, dropped, unattributed)
    }

    constructor ()
      ensures View() == NEW_CLIENT
    {
      open, issued, pending, settled, dropped, unattributed := true, 0, [], [], [], 0;
    }

    /** Sends a request and queues its promise. */
    method Request() returns (sent: Command)
      requires open
      modifies this
      ensures View() == Requested(old(View()))
      ensures sent == Command.Request(old(issued))
    {
      sent := Command.Request(issued);
      pending := pending + [issued];
      issued := issued + 1;
    }

    method OnMessage(e: Event)
      modifies this
      ensures View() == Received(old(View()), e)
    {
      match e.op
      case OkOp =>
        if pending != [] {
          settled := settled + [Settlement(pending[0], e.origin, true)];
          pending := pending[1..];
        }
      case ErrorOp =>
        if pending != [] {
          settled := settled + [Settlement(pending[0], e.origin, false)];
          pending := pending[1..];
        } else {
          unattributed := unattributed + 1;
        }
      case PubSubOp =>
    }

    /** The connection is gone: every queued promise is rejected. */
    method Drop()
      modifies this
      ensures View() == Disconnected(old(View()))
    {
      ghost var all := dropped + pending;
      while pending != []
        invariant dropped + pending == all
        invariant open == old(open) && issued == old(issued)
        invariant settled == old(settled) && unattributed == old(unattributed)
        decreases |pending|
      {
        Shift(dropped, pending);
        dropped := dropped + [pending[0]];
        pending := pending[1..];
      }
      open := false;
    }
  }

  lemma {:induction false} Shift<T>(x: seq<T>, y: seq<T>)
    requires y != []
    ensures x + [y[0]] + y[1..] == x + y
  {
  }

  // ---- the gateway -------------------------------------------------------------

  /** The receiving end of one subscription's channel. */
  datatype Receiver = Receiver(id: nat, topic: string, queue: seq<Event>, closed: bool)

  datatype Gateway = Gateway(receiver: Option<Receiver>, spawned: nat)

  const NEW_GATEWAY := Gateway(None, 0)

  /** One command: a subscription replaces the receiver, anything else is answered at once. */
  function Handled(g: Gateway, command: Command, ok: bool): (Gateway, seq<Event>) {
    match command
    case Subscribe(topic) => (Gateway(Some(Receiver(g.spawned, topic, [], false)), g.spawned + 1), [])
    case Request(ticket) => (g, [Event(if ok then OkOp else ErrorOp, Answer(ticket))])
  }

  /** A pump's event reaches the gateway only through the receiver it was spawned with. */
  function Pumped(g: Gateway, id: nat, failed: bool): Gateway {
    if g.receiver.None? || g.receiver.value.id != id || g.receiver.value.closed then g
    else
      var r := g.receiver.value;
      var e := Event(if failed then ErrorOp else PubSubOp, Pump(id, r.topic));
      g.(receiver := Some(r.(queue := r.queue + [e], closed := failed)))
  }

  function PumpEnded(g: Gateway, id: nat): Gateway {
    if g.receiver.None? || g.receiver.value.id != id then g
    else g.(receiver := Some(g.receiver.value.(closed := true)))
  }

  /** The session loop's two arms. */
  class Session {
    var receiver: Option<Receiver>
    var spawned: nat
    var sent: seq<Event>

    ghost function View(): Gateway
      reads this
    {
      Gateway(receiver, spawned)
    }

    constructor ()
      ensures View() == NEW_GATEWAY && sent == []
    {
      receiver, spawned, sent := None, 0, [];
    }

    method HandleCommand(command: Command, ok: bool)
      modifies this
      ensures (View(), sent) == (Handled(old(View()), command, ok).0,
                                 old(sent) + Handled(old(View()), command, ok).1)
    {
      match command
      case Subscribe(topic) =>
        receiver := Some(Receiver(spawned, topic, [], false));
        spawned := spawned + 1;
        assert sent == old(sent) + [];
      case Request(ticket) =>
        sent := sent + [Event(if ok then OkOp else ErrorOp, Answer(ticket))];
    }

    /** Forwards the next subscription event; an exhausted channel ends the session. */
    method HandleSubscription() returns (ended: bool)
      requires receiver.Some? && (receiver.value.queue != [] || receiver.value.closed)
      modifies this
      ensures spawned == old(spawned)
      ensures var r := old(receiver).value;
        if r.queue == [] then ended && receiver == old(receiver) && sent == old(sent)
        else !ended && receiver == Some(r.(queue := r.queue[1..])) && sent == old(sent) + [r.queue[0]]
    {
      var r := receiver.value;
      if r.queue == [] {
        return true;
      }
      sent := sent + [r.queue[0]];
      receiver := Some(r.(queue := r.queue[1..]));
      return false;
    }
  }

  // ---- the session as a whole ----------------------------------------------------

  /** `up` and `down` are the two directions of the socket; `sent` is everything ever put on `down`. */
  datatype State = State(client: Client, up: seq<Command>, down: seq<Event>, gateway: Gateway, sent: seq<Event>)

  const INIT := State(NEW_CLIENT, [], [], NEW_GATEWAY, [])

  datatype Step =
    | ClientRequests
    | ClientSubscribes(topic: string)
    | GatewayHandles(ok: bool)
    | PumpPushes(id: nat)
    | PumpFails(id: nat)
    | PumpEnds(id: nat)
    | GatewayForwards
    | ClientReceives
    | ConnectionDrops

  function Send(s: State, events: seq<Event>): State {
    s.(down := s.down + events, sent := s.sent + events)
  }

  function Next(s: State, step: Step): State {
    if !s.client.open then s
    else match step
      case ClientRequests =>
        s.(client := Requested(s.client), up := s.up + [Request(s.client.issued)])
      case ClientSubscribes(topic) => s.(up := s.up + [Subscribe(topic)])
      case GatewayHandles(ok) =>
        if s.up == [] then s
        else
          var (g, events) := Handled(s.gateway, s.up[0], ok);
          Send(s.(up := s.up[1..], gateway := g), events)
      case PumpPushes(id) => s.(gateway := Pumped(s.gateway, id, false))
      case PumpFails(id) => s.(gateway := Pumped(s.gateway, id, true))
      case PumpEnds(id) => s.(gateway := PumpEnded(s.gateway, id))
      case GatewayForwards =>
        if s.gateway.receiver.None? then s
        else
          var r := s.gateway.receiver.value;
          if r.queue != [] then
            Send(s.(gateway := s.gateway.(receiver := Some(r.(queue := r.queue[1..])))), [r.queue[0]])
          else if r.closed then s.(client := Disconnected(s.client))
          else s
      case ClientReceives =>
        if s.down == [] then s
        else s.(client := Received(s.client, s.down[0]), down := s.down[1..])
      case ConnectionDrops => s.(client := Disconnected(s.client))
  }

  function Run(s: State, steps: seq<Step>): State
    decreases |steps|
  {
    if steps == [] then s else Run(Next(s, steps[0]), steps[1..])
  }

  // ---- FIFO correlation ------------------------------------------------------------

  function TicketsUp(up: seq<Command>): seq<Ticket> {
    if up == [] then []
    else (if up[0].Request? then [up[0].ticket] else []) + TicketsUp(up[1..])
  }

  function TicketsDown(down: seq<Event>): seq<Ticket> {
    if down == [] then []
    else (if down[0].origin.Answer? then [down[0].origin.ticket] else []) + TicketsDown(down[1..])
  }

  /** The client is about to take a pump's error for the answer to a request. */
  predicate Theft(s: State, step: Step) {
    && s.client.open && step.ClientReceives? && s.down != []
    && s.down[0].origin.Pump? && s.down[0].op.ErrorOp?
    && s.client.pending != []
  }

  predicate TheftFree(s: State, steps: seq<Step>)
    decreases |steps|
  {
    steps == [] || (!Theft(s, steps[0]) && TheftFree(Next(s, steps[0]), steps[1..]))
  }

  /** Every settled promise was settled by the answer to its own request. */
  predicate Matched(settled: seq<Settlement>) {
    forall k :: 0 <= k < |settled| ==> settled[k].cause == Answer(settled[k].promise)
  }

  predicate EventsAreTagged(events: seq<Event>) {
    forall i :: 0 <= i < |events| ==>
      && (events[i].origin.Answer? ==> !events[i].op.PubSubOp?)
      && (events[i].origin.Pump? ==> !events[i].op.OkOp?)
  }

  /** Promises are numbered in order: settled ones first, then the queue, or what was dropped. */
  predicate Numbered(c: Client) {
    && c.issued == |c.settled| + |c.pending| + |c.dropped|
    && (forall k :: 0 <= k < |c.settled| ==> c.settled[k].promise == k)
    && (forall k :: 0 <= k < |c.pending| ==> c.pending[k] == |c.settled| + k)
    && (c.open ==> c.dropped == [])
    && (!c.open ==> c.pending == [])
  }

  /** Holds in every run, thefts or not. */
  predicate Sound(s: State) {
    && Numbered(s.client)
    && EventsAreTagged(s.down)
    && (s.gateway.receiver.Some? ==>
          var r := s.gateway.receiver.value;
          && r.id < s.gateway.spawned
          && forall i :: 0 <= i < |r.queue| ==>
               r.queue[i].origin == Pump(r.id, r.topic) && !r.queue[i].op.OkOp?)
  }

  /** What the queue holds is exactly the requests whose answers are still under way, in order. */
  predicate Aligned(s: State) {
    && Matched(s.client.settled)
    && (s.client.open ==> s.client.pending == TicketsDown(s.down) + TicketsUp(s.up))
  }

  lemma {:induction false} TicketsUpAppend(a: seq<Command>, b: seq<Command>)
    ensures TicketsUp(a + b) == TicketsUp(a) + TicketsUp(b)
  {
    if a == [] {
      assert a + b == b;
    } else {
      TicketsUpAppend(a[1..], b);
      Assoc(if a[0].Request? then [a[0].ticket] else [], TicketsUp(a[1..]), TicketsUp(b));
      assert (a + b)[1..] == a[1..] + b;
    }
  }

  lemma {:induction false} TicketsDownAppend(a: seq<Event>, b: seq<Event>)
    ensures TicketsDown(a + b) == TicketsDown(a) + TicketsDown(b)
  {
    if a == [] {
      assert a + b == b;
    } else {
      TicketsDownAppend(a[1..], b);
      Assoc(if a[0].origin.Answer? then [a[0].origin.ticket] else [], TicketsDown(a[1..]), TicketsDown(b));
      assert (a + b)[1..] == a[1..] + b;
    }
  }

  lemma {:induction false} NextKeepsSound(s: State, step: Step)
    requires Sound(s)
    ensures Sound(Next(s, step))
  {
  }

  lemma {:induction false} HandlingKeepsAligned(s: State, ok: bool)
    requires Aligned(s) && s.client.open && s.up != []
    ensures Aligned(Next(s, GatewayHandles(ok)))
  {
    var events := Handled(s.gateway, s.up[0], ok).1;
    TicketsDownAppend(s.down, events);
    var rest := TicketsUp(s.up[1..]);
    if s.up[0].Request? {
      var t := s.up[0].ticket;
      assert TicketsDown(events) == [t];
      assert TicketsDown(s.down) + ([t] + rest) == (TicketsDown(s.down) + [t]) + rest;
    } else {
      assert TicketsDown(s.down) + [] == TicketsDown(s.down);
      assert [] + rest == rest;
    }
  }

  lemma {:induction false} ForwardingKeepsAligned(s: State)
    requires Sound(s) && Aligned(s) && s.client.open
    ensures Aligned(Next(s, GatewayForwards))
  {
    if s.gateway.receiver.Some? && s.gateway.receiver.value.queue != [] {
      var e := s.gateway.receiver.value.queue[0];
      TicketsDownAppend(s.down, [e]);
      assert TicketsDown([e]) == [];
    }
  }

  lemma {:induction false} ReceivingKeepsAligned(s: State)
    requires Sound(s) && Aligned(s) && s.client.open && !Theft(s, ClientReceives)
    ensures Aligned(Next(s, ClientReceives))
  {
    if s.down != [] {
      var e, rest := s.down[0], TicketsDown(s.down[1..]) + TicketsUp(s.up);
      if e.origin.Answer? {
        assert s.client.pending == [e.origin.ticket] + rest;
      } else {
        assert s.client.pending == rest;
      }
    }
  }

  lemma {:induction false} NextKeepsAligned(s: State, step: Step)
    requires Sound(s) && Aligned(s) && !Theft(s, step)
    ensures Aligned(Next(s, step))
  {
    if s.client.open {
      match step
      case ClientRequests =>
        TicketsUpAppend(s.up, [Request(s.client.issued)]);
        assert TicketsUp([Request(s.client.issued)]) == [s.client.issued];
      case ClientSubscribes(topic) =>
        TicketsUpAppend(s.up, [Subscribe(topic)]);
        assert TicketsUp([Subscribe(topic)]) == [];
      case GatewayHandles(ok) =>
        if s.up != [] {
          HandlingKeepsAligned(s, ok);
        }
      case GatewayForwards => ForwardingKeepsAligned(s);
      case ClientReceives => ReceivingKeepsAligned(s);
      case _ =>
    }
  }

  lemma {:induction false} SettledOnlyGrows(s: State, step: Step)
    ensures s.client.settled <= Next(s, step).client.settled
  {
  }

  lemma {:induction false} MismatchPersists(s: State, steps: seq<Step>)
    requires !Matched(s.client.settled)
    ensures !Matched(Run(s, steps).client.settled)
    decreases |steps|
  {
    if steps != [] {
      SettledOnlyGrows(s, steps[0]);
      var k :| 0 <= k < |s.client.settled| && s.client.settled[k].cause != Answer(s.client.settled[k].promise);
      assert Next(s, steps[0]).client.settled[k] == s.client.settled[k];
      MismatchPersists(Next(s, steps[0]), steps[1..]);
    }
  }

  lemma {:induction false} RunCorrelates(s: State, steps: seq<Step>)
    requires Sound(s) && Aligned(s)
    ensures Sound(Run(s, steps))
    ensures TheftFree(s, steps) ==> Aligned(Run(s, steps))
    ensures TheftFree(s, steps) <==> Matched(Run(s, steps).client.settled)
    decreases |steps|
  {
    if steps != [] {
      var t := Next(s, steps[0]);
      NextKeepsSound(s, steps[0]);
      if Theft(s, steps[0]) {
        var last := |t.client.settled| - 1;
        assert t.client.settled[last].cause.Pump?;
        MismatchPersists(t, steps[1..]);
        RunKeepsSound(t, steps[1..]);
      } else {
        NextKeepsAligned(s, steps[0]);
        RunCorrelates(t, steps[1..]);
      }
    }
  }

  lemma {:induction false} RunKeepsSound(s: State, steps: seq<Step>)
    requires Sound(s)
    ensures Sound(Run(s, steps))
    decreases |steps|
  {
    if steps != [] {
      NextKeepsSound(s, steps[0]);
      RunKeepsSound(Next(s, steps[0]), steps[1..]);
    }
  }

  /**
   Over every interleaving: the k-th promise is settled, if at all, in k-th
   place; while open, the queue holds the requests sent minus the replies
   taken; and every promise settled was settled by the answer to its own
   request if and only if no pump error reached the client while promises were
   waiting.
   */
  lemma {:induction false} FifoCorrelation(steps: seq<Step>)
    ensures var c := Run(INIT, steps).client;
      && (forall k :: 0 <= k < |c.settled| ==> c.settled[k].promise == k)
      && (c.open ==> |c.pending| == c.issued - |c.settled|)
      && ((forall k :: 0 <= k < |c.settled| ==> c.settled[k].cause == Answer(k)) <==> TheftFree(INIT, steps))
  {
    RunCorrelates(INIT, steps);
  }

  // ---- how promises are settled --------------------------------------------------------------------

  /** What the gateway made of the requests it handled, in order: true for a success. */
  function Verdicts(s: State, steps: seq<Step>): seq<bool>
    decreases |steps|
  {
    if steps == [] then []
    else
      (match steps[0]
       case GatewayHandles(ok) => if s.client.open && s.up != [] && s.up[0].Request? then [ok] else []
       case _ => [])
      + Verdicts(Next(s, steps[0]), steps[1..])
  }

  function Resolutions(settled: seq<Settlement>): seq<bool> {
    seq(|settled|, k requires 0 <= k < |settled| => settled[k].resolved)
  }

  /** The successes and failures among the answers still on the wire. */
  function OnTheWire(down: seq<Event>): seq<bool> {
    if down == [] then [] else (if down[0].origin.Answer? then [down[0].op == OkOp] else []) + OnTheWire(down[1..])
  }

  lemma {:induction false} OnTheWireAppend(a: seq<Event>, b: seq<Event>)
    ensures OnTheWire(a + b) == OnTheWire(a) + OnTheWire(b)
  {
    if a == [] {
      assert a + b == b;
    } else {
      OnTheWireAppend(a[1..], b);
      Assoc(if a[0].origin.Answer? then [a[0].op == OkOp] else [], OnTheWire(a[1..]), OnTheWire(b));
      assert (a + b)[1..] == a[1..] + b;
    }
  }

  /** What was told so far: the settled promises, then the answers under way. */
  function Told(s: State): seq<bool> {
    Resolutions(s.client.settled) + OnTheWire(s.down)
  }

  lemma {:induction false} StepTells(s: State, step: Step)
    requires Sound(s) && Aligned(s) && s.client.open && !Theft(s, step)
    ensures Told(Next(s, step)) == Told(s) + Verdicts(s, [step])
  {
    assert [step][1..] == [] && Verdicts(Next(s, step), []) == [];
    assert Told(s) + [] == Told(s);
    match step
    case GatewayHandles(ok) =>
      if s.up != [] {
        var events := Handled(s.gateway, s.up[0], ok).1;
        OnTheWireAppend(s.down, events);
        if s.up[0].Request? {
          assert events[1..] == [] && OnTheWire(events) == [ok];
        } else {
          assert OnTheWire(events) == [];
        }
        Assoc(Resolutions(s.client.settled), OnTheWire(s.down), OnTheWire(events));
      }
    case GatewayForwards =>
      if s.gateway.receiver.Some? && s.gateway.receiver.value.queue != [] {
        var e := s.gateway.receiver.value.queue[0];
        OnTheWireAppend(s.down, [e]);
        assert [e][1..] == [] && OnTheWire([e]) == [];
        assert OnTheWire(s.down) + [] == OnTheWire(s.down);
      }
    case ClientReceives =>
      if s.down != [] && s.down[0].origin.Answer? {
        var e := s.down[0];
        assert s.client.pending != [];
        assert Resolutions(Next(s, step).client.settled) == Resolutions(s.client.settled) + [e.op == OkOp];
        Assoc(Resolutions(s.client.settled), [e.op == OkOp], OnTheWire(s.down[1..]));
      }
    case _ =>
  }

  lemma {:induction false} RunTells(s: State, steps: seq<Step>, before: seq<bool>)
    requires Sound(s) && Aligned(s) && TheftFree(s, steps) && Told(s) == before
    ensures Resolutions(Run(s, steps).client.settled) <= before + Verdicts(s, steps)
    decreases |steps|
  {
    hide Next, Sound, Aligned, Theft;
    if steps == [] {
      assert before + [] == before;
    } else if !s.client.open {
      ClosedStays(s, steps);
    } else {
      NextKeepsSound(s, steps[0]);
      NextKeepsAligned(s, steps[0]);
      StepTells(s, steps[0]);
      var now := Verdicts(s, [steps[0]]);
      assert [steps[0]][1..] == [] && now + [] == now;
      RunTells(Next(s, steps[0]), steps[1..], before + now);
      Assoc(before, now, Verdicts(Next(s, steps[0]), steps[1..]));
    }
  }

  lemma {:induction false} ClosedStays(s: State, steps: seq<Step>)
    requires !s.client.open
    ensures Run(s, steps) == s && Verdicts(s, steps) == []
    decreases |steps|
  {
    if steps != [] {
      ClosedStays(s, steps[1..]);
    }
  }

  /**
   Over every run without a theft the k-th promise is resolved if the gateway handled the
   k-th request with success, and rejected if it did not.
   */
  lemma {:induction false} PromisesTellVerdicts(steps: seq<Step>, k: nat)
    requires TheftFree(INIT, steps) && k < |Run(INIT, steps).client.settled|
    ensures k < |Verdicts(INIT, steps)|
    ensures Run(INIT, steps).client.settled[k].resolved == Verdicts(INIT, steps)[k]
  {
    hide Run, Verdicts, TheftFree;
    assert Told(INIT) == [];
    RunTells(INIT, steps, []);
    assert [] + Verdicts(INIT, steps) == Verdicts(INIT, steps);
    var told := Resolutions(Run(INIT, steps).client.settled);
    assert told[k] == Verdicts(INIT, steps)[k];
  }

  /** No pump error is queued or under way. */
  predicate NoPumpError(s: State) {
    && (forall i :: 0 <= i < |s.down| && s.down[i].origin.Pump? ==> s.down[i].op == PubSubOp)
    && (s.gateway.receiver.Some? ==>
          var queue := s.gateway.receiver.value.queue;
          forall i :: 0 <= i < |queue| && queue[i].origin.Pump? ==> queue[i].op == PubSubOp)
  }

  /** Events that are pushed never steal: without a failing pump every promise gets its own answer. */
  lemma {:induction false} OnlyFailuresSteal(s: State, steps: seq<Step>)
    requires NoPumpError(s) && forall i :: 0 <= i < |steps| ==> !steps[i].PumpFails?
    ensures TheftFree(s, steps)
    decreases |steps|
  {
    if steps != [] {
      assert NoPumpError(Next(s, steps[0]));
      OnlyFailuresSteal(Next(s, steps[0]), steps[1..]);
    }
  }

  lemma {:induction false} RunAppend(s: State, a: seq<Step>, b: seq<Step>)
    ensures Run(s, a + b) == Run(Run(s, a), b)
    ensures TheftFree(s, a + b) <==> TheftFree(s, a) && TheftFree(Run(s, a), b)
    decreases |a|
  {
    hide Next, Theft;
    if a == [] {
      assert a + b == b;
    } else {
      assert (a + b)[1..] == a[1..] + b;
      RunAppend(Next(s, a[0]), a[1..], b);
    }
  }

  const SUBSCRIBE_FAILS := [ClientSubscribes("chat"), GatewayHandles(true), PumpFails(0)]

  lemma {:induction false} ErrorIsQueued()
    ensures var s := Run(INIT, SUBSCRIBE_FAILS);
      && s.client == NEW_CLIENT && s.up == [] && s.down == []
      && s.gateway.receiver.Some? && s.gateway.receiver.value.queue == [Event(ErrorOp, Pump(0, "chat"))]
  {
    var s1 := Next(INIT, SUBSCRIBE_FAILS[0]);
    var s2 := Next(s1, SUBSCRIBE_FAILS[1]);
    var s3 := Next(s2, SUBSCRIBE_FAILS[2]);
    assert Run(s3, SUBSCRIBE_FAILS[1..][1..][1..]) == s3;
    assert s3.gateway.receiver.value.queue == [Event(ErrorOp, Pump(0, "chat"))];
  }

  lemma {:induction false} ErrorMeetsRequest(s: State)
    requires s.client == NEW_CLIENT && s.up == [] && s.down == []
    requires s.gateway.receiver.Some? && s.gateway.receiver.value.queue == [Event(ErrorOp, Pump(0, "chat"))]
    ensures var t := Run(s, [GatewayForwards, ClientRequests]);
      && t.client == Requested(NEW_CLIENT) && t.up == [Request(0)] && t.down == [Event(ErrorOp, Pump(0, "chat"))]
  {
    var steps := [GatewayForwards, ClientRequests];
    assert steps[1..] == [ClientRequests] && steps[1..][1..] == [];
    assert Run(Next(Next(s, GatewayForwards), ClientRequests), []) == Run(s, steps);
  }

  /** A run in which a failing pump settles a promise whose answer is still to come. */
  lemma {:induction false} PumpErrorStealsAPromise()
    ensures var steps := SUBSCRIBE_FAILS + [GatewayForwards, ClientRequests] + [ClientReceives];
      && !TheftFree(INIT, steps)
      && Run(INIT, steps).client.settled == [Settlement(0, Pump(0, "chat"), false)]
      && Run(INIT, steps).up == [Request(0)]
  {
    var five := SUBSCRIBE_FAILS + [GatewayForwards, ClientRequests];
    ErrorIsQueued();
    ErrorMeetsRequest(Run(INIT, SUBSCRIBE_FAILS));
    hide SUBSCRIBE_FAILS;
    RunAppend(INIT, SUBSCRIBE_FAILS, [GatewayForwards, ClientRequests]);
    RunAppend(INIT, five, [ClientReceives]);
    var t := Run(INIT, five);
    assert [ClientReceives][1..] == [];
    assert Theft(t, ClientReceives) && Run(t, [ClientReceives]) == Next(t, ClientReceives);
  }

  // ---- one subscription at a time ----------------------------------------------------

  /** From `s` on, pump events put on the wire come from subscription `floor` or a later one. */
  predicate FromFloor(sent: seq<Event>, from: nat, floor: nat)
    requires from <= |sent|
  {
    forall i :: from <= i < |sent| && sent[i].origin.Pump? ==> sent[i].origin.id >= floor
  }

  lemma {:induction false} SentAfterFloor(s: State, steps: seq<Step>, from: nat, floor: nat)
    requires Sound(s) && from <= |s.sent| && FromFloor(s.sent, from, floor)
    requires floor <= s.gateway.spawned
    requires s.gateway.receiver.Some? ==> floor <= s.gateway.receiver.value.id
    ensures s.sent <= Run(s, steps).sent
    ensures FromFloor(Run(s, steps).sent, from, floor)
    decreases |steps|
  {
    if steps != [] {
      NextKeepsSound(s, steps[0]);
      SentAfterFloor(Next(s, steps[0]), steps[1..], from, floor);
    }
  }

  /**
   Once a subscription has been handled, in every continuation no event of any
   earlier subscription is put on the wire.
   */
  lemma {:induction false} OldTopicIsSilent(before: seq<Step>, after: seq<Step>)
    requires var s := Run(INIT, before); s.client.open && s.up != [] && s.up[0].Subscribe?
    ensures var s := Next(Run(INIT, before), GatewayHandles(true));
      && s.gateway.receiver.Some?
      && s.sent <= Run(s, after).sent
      && FromFloor(Run(s, after).sent, |s.sent|, s.gateway.receiver.value.id)
  {
    RunKeepsSound(INIT, before);
    var s := Next(Run(INIT, before), GatewayHandles(true));
    NextKeepsSound(Run(INIT, before), GatewayHandles(true));
    SentAfterFloor(s, after, |s.sent|, s.gateway.receiver.value.id);
  }
}
