/**
 The publisher's side of the edge registry: a serve session registers, beats every
 thirty seconds until it is stopped, and deregisters.
 */
module Publisher {
  import opened Prelude
  import opened EdgeRegistry
  import opened Text

  const REGISTER_INTERVAL: nat := 30

  type SessionId = nat

  /** A session's heartbeat task: whether it may still send, when its sleep ends, whether it returned. */
  datatype Task = Task(appId: string, running: bool, due: nat, ended: bool)

  datatype Message =
    | Register(session: SessionId, appId: string, timestamp: nat)
    | Deregister(session: SessionId, appId: string)

  /** `tasks` is indexed by session; `stopping` holds the sessions whose tasks are being awaited. */
  datatype State = State(
    slot: Option<SessionId>, tasks: seq<Task>, stopping: set<SessionId>, sent: seq<Message>)

  const IDLE: State := State(None, [], {}, [])

  /**
   Stopping begins by taking the slot and deregistering, and ends when its tasks have
   been awaited: nothing tells them to return, so they may act in between. A session
   starts once the slot is free; replacing one is stopping it first.
   */
  datatype Step =
    | Start(appId: string, servable: bool, now: nat, accepted: bool)
    | Beat(session: SessionId, now: nat)
    | StopBegins
    | StopEnds(session: SessionId)

  function Started(s: State, appId: string, now: nat, accepted: bool): State {
    var id := |s.tasks|;
    s.(sent := s.sent + [Register(id, appId, now)],
       tasks := s.tasks + [Task(appId, accepted, now + REGISTER_INTERVAL, !accepted)],
       slot := if accepted then Some(id) else None)
  }

  predicate Fires(s: State, id: SessionId, now: nat) {
    id < |s.tasks| && !s.tasks[id].ended && s.tasks[id].running && s.tasks[id].due <= now
  }

  function Next(s: State, step: Step): State {
    match step
    case Start(appId, servable, now, accepted) =>
      if s.slot.Some? || !servable then s else Started(s, appId, now, accepted)
    case Beat(id, now) =>
      if Fires(s, id, now) then
        s.(sent := s.sent + [Register(id, s.tasks[id].appId, now)],
           tasks := s.tasks[id := s.tasks[id].(due := now + REGISTER_INTERVAL)])
      else if id < |s.tasks| && s.tasks[id].due <= now then
        s.(tasks := s.tasks[id := s.tasks[id].(ended := true)])
      else s
    case StopBegins =>
      if s.slot.None? || s.slot.value >= |s.tasks| then s
      else
        var id := s.slot.value;
        s.(slot := None, stopping := s.stopping + {id},
           sent := s.sent + [Deregister(id, s.tasks[id].appId)])
    case StopEnds(id) =>
      if id !in s.stopping || id >= |s.tasks| then s
      else s.(stopping := s.stopping - {id}, tasks := s.tasks[id := s.tasks[id].(running := false)])
  }

  class ServeRuntime {
    var slot: Option<SessionId>
    var tasks: seq<Task>
    var stopping: set<SessionId>
    var sent: seq<Message>

    function View(): State
      reads this
    {
      State(slot, tasks, stopping, sent)
    }

    constructor ()
      ensures View() == IDLE
    {
      slot, tasks, stopping, sent := None, [], {}, [];
    }

    /**
     Replaces a running session first: it is stopped, and may beat at the times `beats`
     while its tasks are awaited. `accepted` is the edge's answer to the registration.
     */
    method StartServeSession(appId: string, servable: bool, now: nat, accepted: bool, beats: seq<nat>)
      returns (ok: bool)
      requires slot.Some? ==> slot.value < |tasks|
      modifies this
      ensures View() == RunFrom(old(View()), Replacing(old(slot), beats) + [Start(appId, servable, now, accepted)])
      ensures ok == (servable && accepted)
    {
      ghost var before := View();
      if slot.Some? {
        StopServeSession(beats);
      }
      ghost var stopped := View();
      RunAppend(before, Replacing(before.slot, beats), [Start(appId, servable, now, accepted)]);
      RunOne(stopped, Start(appId, servable, now, accepted));
      if !servable {
        return false;
      }
      var id := |tasks|;
      sent := sent + [Register(id, appId, now)];
      if !accepted {
        tasks := tasks + [Task(appId, false, now + REGISTER_INTERVAL, true)];
        return false;
      }
      tasks := tasks + [Task(appId, true, now + REGISTER_INTERVAL, false)];
      slot := Some(id);
      return true;
    }

    method StopServeSession(beats: seq<nat>)
      requires slot.Some? ==> slot.value < |tasks|
      modifies this
      ensures View() == RunFrom(old(View()), Replacing(old(slot), beats)) && slot == None
    {
      if slot.None? {
        return;
      }
      ghost var before := View();
      var id := slot.value;
      BeginStop();
      RunOne(before, StopBegins);
      assert BeatsOf(id, beats[..0]) == [] && [StopBegins] + [] == [StopBegins];
      for i := 0 to |beats|
        invariant id in stopping && id < |tasks| && slot == None
        invariant View() == RunFrom(before, [StopBegins] + BeatsOf(id, beats[..i]))
      {
        ghost var so := [StopBegins] + BeatsOf(id, beats[..i]);
        ghost var s := View();
        HeartbeatTurn(id, beats[i]);
        RunAppend(before, so, [Beat(id, beats[i])]);
        RunOne(s, Beat(id, beats[i]));
        assert [StopBegins] + BeatsOf(id, beats[..i + 1]) == so + [Beat(id, beats[i])];
      }
      assert beats[..|beats|] == beats;
      ghost var s := View();
      Terminate(id);
      RunAppend(before, [StopBegins] + BeatsOf(id, beats), [StopEnds(id)]);
      RunOne(s, StopEnds(id));
    }

    /** The heartbeat task waking up: asleep still, or returning, or sending and sleeping again. */
    method HeartbeatTurn(id: SessionId, now: nat)
      requires id < |tasks|
      modifies this
      ensures View() == Next(old(View()), Beat(id, now))
    {
      if now < tasks[id].due {
        return;
      }
      if tasks[id].ended || !tasks[id].running {
        tasks := tasks[id := tasks[id].(ended := true)];
        return;
      }
      sent := sent + [Register(id, tasks[id].appId, now)];
      tasks := tasks[id := tasks[id].(due := now + REGISTER_INTERVAL)];
    }

    method BeginStop()
      requires slot.Some? ==> slot.value < |tasks|
      modifies this
      ensures View() == Next(old(View()), StopBegins)
    {
      if slot.None? {
        return;
      }
      var id := slot.value;
      slot := None;
      sent := sent + [Deregister(id, tasks[id].appId)];
      stopping := stopping + {id};
    }

    method Terminate(id: SessionId)
      requires id in stopping && id < |tasks|
      modifies this
      ensures View() == Next(old(View()), StopEnds(id))
    {
      tasks := tasks[id := tasks[id].(running := false)];
      stopping := stopping - {id};
    }
  }

  // ---- runs ----------------------------------------------------------------------------------

  function RunFrom(s: State, steps: seq<Step>): State
    decreases |steps|
  {
    if steps == [] then s else RunFrom(Next(s, steps[0]), steps[1..])
  }

  lemma {:induction false} RunAppend(s: State, a: seq<Step>, b: seq<Step>)
    ensures RunFrom(s, a + b) == RunFrom(RunFrom(s, a), b)
    decreases |a|
  {
    if a == [] {
      assert a + b == b;
    } else {
      assert (a + b)[1..] == a[1..] + b;
      RunAppend(Next(s, a[0]), a[1..], b);
    }
  }

  lemma {:induction false} RunOne(s: State, step: Step)
    ensures RunFrom(s, [step]) == Next(s, step)
  {
    assert [step][1..] == [];
  }

  function BeatsOf(id: SessionId, beats: seq<nat>): seq<Step> {
    seq(|beats|, k requires 0 <= k < |beats| => Beat(id, beats[k]))
  }

  /** Stopping what is in the slot, if anything, with beats coming while its tasks are awaited. */
  function Replacing(slot: Option<SessionId>, beats: seq<nat>): seq<Step> {
    if slot.None? then [] else [StopBegins] + BeatsOf(slot.value, beats) + [StopEnds(slot.value)]
  }

  /** The slot holds a running session, and only sessions taken out of it are being stopped. */
  ghost predicate Sound(s: State) {
    && (s.slot.Some? ==> s.slot.value < |s.tasks| && s.tasks[s.slot.value].running && !s.tasks[s.slot.value].ended)
    && (forall id :: id in s.stopping ==> id < |s.tasks| && s.slot != Some(id))
    && (forall m :: m in s.sent ==> m.session < |s.tasks|)
  }

  lemma {:induction false} RunKeepsSound(s: State, steps: seq<Step>)
    requires Sound(s)
    ensures Sound(RunFrom(s, steps)) && |RunFrom(s, steps).tasks| >= |s.tasks|
    decreases |steps|
  {
    if steps != [] {
      assert Sound(Next(s, steps[0])) && |Next(s, steps[0]).tasks| >= |s.tasks|;
      hide Sound, Next;
      RunKeepsSound(Next(s, steps[0]), steps[1..]);
    }
  }

  /** The last message of a session. */
  function LastOf(sent: seq<Message>, id: SessionId): Option<Message> {
    if sent == [] then None
    else if sent[|sent| - 1].session == id then Some(sent[|sent| - 1])
    else LastOf(sent[..|sent| - 1], id)
  }

  lemma {:induction false} LastOfAppend(sent: seq<Message>, m: Message, id: SessionId)
    ensures LastOf(sent + [m], id) == if m.session == id then Some(m) else LastOf(sent, id)
  {
    assert (sent + [m])[..|sent|] == sent;
  }

  /** A stopped session: out of the slot, its tasks awaited or not. */
  predicate Gone(s: State, id: SessionId) {
    id < |s.tasks| && s.slot != Some(id)
  }

  lemma {:induction false} SilentStep(s: State, step: Step, id: SessionId)
    requires Sound(s) && Gone(s, id) && !(step.Beat? && step.session == id && Fires(s, id, step.now))
    ensures Sound(Next(s, step)) && Gone(Next(s, step), id)
    ensures LastOf(Next(s, step).sent, id) == LastOf(s.sent, id)
    ensures Next(s, step).tasks[id].due == s.tasks[id].due
    ensures Next(s, step).tasks[id].running == (s.tasks[id].running && !(step == StopEnds(id) && id in s.stopping))
    ensures id in Next(s, step).stopping <==> id in s.stopping && step != StopEnds(id)
  {
    hide LastOf;
    var t := Next(s, step);
    if |t.sent| > |s.sent| {
      LastOfAppend(s.sent, t.sent[|s.sent|], id);
    }
  }

  /** Once its tasks have been awaited, a session never sends again. */
  lemma {:induction false} StoppedIsSilent(s: State, steps: seq<Step>, id: SessionId)
    requires Sound(s) && Gone(s, id) && !s.tasks[id].running
    ensures LastOf(RunFrom(s, steps).sent, id) == LastOf(s.sent, id)
    decreases |steps|
  {
    if steps != [] {
      SilentStep(s, steps[0], id);
      hide Next, Sound, LastOf;
      StoppedIsSilent(Next(s, steps[0]), steps[1..], id);
    }
  }

  /** A beat of the session comes due before its stop ends. */
  predicate BeatsBeforeStopEnds(steps: seq<Step>, id: SessionId, due: nat, k: int) {
    && 0 <= k < |steps| && steps[k].Beat? && steps[k].session == id && due <= steps[k].now
    && forall j :: 0 <= j < k ==> steps[j] != StopEnds(id)
  }

  /** While a session is being stopped its last message stays the deregistration unless a beat comes due. */
  lemma {:induction false} QuietWhileStopping(s: State, steps: seq<Step>, id: SessionId)
    requires Sound(s) && Gone(s, id) && id in s.stopping && !s.tasks[id].ended
    requires forall k :: !BeatsBeforeStopEnds(steps, id, s.tasks[id].due, k)
    ensures LastOf(RunFrom(s, steps).sent, id) == LastOf(s.sent, id)
    decreases |steps|
  {
    if steps != [] {
      var step, rest := steps[0], steps[1..];
      assert !BeatsBeforeStopEnds(steps, id, s.tasks[id].due, 0);
      SilentStep(s, step, id);
      if step == StopEnds(id) {
        StoppedIsSilent(Next(s, step), rest, id);
      } else {
        forall k ensures BeatsBeforeStopEnds(rest, id, s.tasks[id].due, k) ==>
                           BeatsBeforeStopEnds(steps, id, s.tasks[id].due, k + 1)
        {
        }
        assert Next(s, step).tasks[id].ended == s.tasks[id].ended;
        hide Next, Sound, LastOf;
        QuietWhileStopping(Next(s, step), rest, id);
      }
    }
  }

  lemma {:induction false} NeverDeregistersAgain(s: State, steps: seq<Step>, id: SessionId)
    requires Sound(s) && Gone(s, id) && LastOf(s.sent, id).Some? && LastOf(s.sent, id).value.Register?
    ensures LastOf(RunFrom(s, steps).sent, id).Some? && LastOf(RunFrom(s, steps).sent, id).value.Register?
    decreases |steps|
  {
    if steps != [] {
      var step := steps[0];
      if step.Beat? && step.session == id && Fires(s, id, step.now) {
        LastOfAppend(s.sent, Register(id, s.tasks[id].appId, step.now), id);
      } else {
        SilentStep(s, step, id);
      }
      hide LastOf, Fires;
      NeverDeregistersAgain(Next(s, step), steps[1..], id);
    }
  }

  lemma {:induction false} DueBeatIsSent(s: State, steps: seq<Step>, id: SessionId, k: nat)
    requires Sound(s) && Gone(s, id) && s.tasks[id].running && !s.tasks[id].ended
    requires BeatsBeforeStopEnds(steps, id, s.tasks[id].due, k)
    ensures LastOf(RunFrom(s, steps).sent, id).Some? && LastOf(RunFrom(s, steps).sent, id).value.Register?
    decreases |steps|
  {
    var step, rest := steps[0], steps[1..];
    if step.Beat? && step.session == id && Fires(s, id, step.now) {
      LastOfAppend(s.sent, Register(id, s.tasks[id].appId, step.now), id);
      hide LastOf;
      NeverDeregistersAgain(Next(s, step), rest, id);
    } else {
      SilentStep(s, step, id);
      assert step != StopEnds(id);
      assert BeatsBeforeStopEnds(rest, id, s.tasks[id].due, k - 1);
      assert Next(s, step).tasks[id].ended == s.tasks[id].ended;
      hide LastOf, Sound, Next, BeatsBeforeStopEnds;
      DueBeatIsSent(Next(s, step), rest, id, k - 1);
    }
  }

  /**
   Stopping a session leaves its deregistration as its last message, whatever follows,
   if and only if no beat of it comes due before its tasks have been awaited.
   */
  lemma {:induction false} StopIsFinalIff(s: State, steps: seq<Step>)
    requires Sound(s) && s.slot.Some?
    ensures var id := s.slot.value;
            var last := LastOf(RunFrom(Next(s, StopBegins), steps).sent, id);
            && last.Some?
            && (last.value.Deregister? <==> !exists k :: BeatsBeforeStopEnds(steps, id, s.tasks[id].due, k))
  {
    var id := s.slot.value;
    var t := Next(s, StopBegins);
    LastOfAppend(s.sent, Deregister(id, s.tasks[id].appId), id);
    if k :| BeatsBeforeStopEnds(steps, id, s.tasks[id].due, k) {
      hide LastOf;
      DueBeatIsSent(t, steps, id, k);
    } else {
      hide LastOf;
      QuietWhileStopping(t, steps, id);
    }
  }

  // ---- missed beats --------------------------------------------------------------------------

  /** Beats go out in order, each at most the interval and some slack after the one before. */
  predicate Spaced(sentAt: seq<nat>, slack: nat) {
    forall k :: 0 < k < |sentAt| ==> sentAt[k - 1] <= sentAt[k] <= sentAt[k - 1] + REGISTER_INTERVAL + slack
  }

  /** `heard[k]` is where the k-th beat stands in the registry's trace, if it was accepted there. */
  predicate HeardAs(trace: seq<Event>, sentAt: seq<nat>, heard: seq<Option<nat>>, key: Subdomain, p: Peer) {
    && |heard| == |sentAt|
    && (forall k :: 0 <= k < |heard| && heard[k].Some? ==>
          && heard[k].value < |trace| && AcceptedAt(trace, heard[k].value, key)
          && trace[heard[k].value].peer == p && trace[heard[k].value].at == sentAt[k])
    && (forall j, k :: 0 <= j < k < |heard| && heard[j].Some? && heard[k].Some? ==> heard[j].value < heard[k].value)
  }

  /** Of any `m + 1` beats in a row at least one is heard. */
  predicate MissesAtMost(heard: seq<Option<nat>>, m: nat) {
    forall a, b :: 0 <= a <= b < |heard| && b - a >= m ==> SomeHeard(heard, a, b)
  }

  predicate SomeHeard(heard: seq<Option<nat>>, from: int, to: int) {
    exists j :: 0 <= from <= j <= to < |heard| && heard[j].Some?
  }

  function Heard(heard: seq<Option<nat>>): seq<nat> {
    if heard == [] then []
    else
      var last := heard[|heard| - 1];
      Heard(heard[..|heard| - 1]) + if last.Some? then [last.value] else []
  }

  function LastHeard(heard: seq<Option<nat>>): (k: nat)
    requires heard != [] && heard[0].Some?
    ensures k < |heard| && heard[k].Some? && forall j :: k < j < |heard| ==> heard[j].None?
  {
    if heard[|heard| - 1].Some? then |heard| - 1 else LastHeard(heard[..|heard| - 1])
  }

  lemma {:induction false} SpanOfBeats(sentAt: seq<nat>, slack: nat, a: nat, b: nat, gaps: nat)
    requires Spaced(sentAt, slack) && a <= b < |sentAt| && b - a <= gaps
    ensures sentAt[b] <= sentAt[a] + gaps * (REGISTER_INTERVAL + slack)
    decreases b - a
  {
    var gap := REGISTER_INTERVAL + slack;
    if a < b {
      SpanOfBeats(sentAt, slack, a, b - 1, gaps - 1);
      assert gaps * gap == (gaps - 1) * gap + gap;
    }
  }

  lemma {:induction false} HeardIsSteady(
    trace: seq<Event>, sentAt: seq<nat>, heard: seq<Option<nat>>, slack: nat, m: nat, key: Subdomain, p: Peer)
    requires Spaced(sentAt, slack) && HeardAs(trace, sentAt, heard, key, p) && MissesAtMost(heard, m)
    requires heard != [] && heard[0].Some? && (m + 1) * (REGISTER_INTERVAL + slack) <= REGISTRY_TTL
    ensures var beats := Heard(heard);
            && beats != [] && beats[0] == heard[0].value && beats[|beats| - 1] == heard[LastHeard(heard)].value
            && Steady(trace, beats, key, p)
  {
    hide AcceptedAt, Steady, Spaced;
    var n := |heard| - 1;
    var init := heard[..n];
    if n == 0 {
      assert Heard(init) == [] && Heard(heard) == [heard[0].value];
      OneIsSteady(trace, heard[0].value, key, p);
    } else {
      HeardBefore(trace, sentAt, heard, slack, m, key, p);
      HeardIsSteady(trace, sentAt[..n], init, slack, m, key, p);
      if heard[n].Some? {
        var last := LastHeard(init);
        assert heard[last] == init[last] && forall j :: last < j < n ==> heard[j] == init[j];
        RecentlyHeard(heard, m, last);
        SpanOfBeats(sentAt, slack, last, n, m + 1);
        SteadyGrows(trace, Heard(init), heard[n].value, key, p);
      } else {
        assert Heard(heard) == Heard(init);
      }
    }
  }

  lemma {:induction false} OneIsSteady(trace: seq<Event>, i: nat, key: Subdomain, p: Peer)
    requires i < |trace| && AcceptedAt(trace, i, key) && trace[i].peer == p
    ensures Steady(trace, [i], key, p)
  {
  }

  lemma {:induction false} HeardBefore(
    trace: seq<Event>, sentAt: seq<nat>, heard: seq<Option<nat>>, slack: nat, m: nat, key: Subdomain, p: Peer)
    requires Spaced(sentAt, slack) && HeardAs(trace, sentAt, heard, key, p) && MissesAtMost(heard, m) && heard != []
    ensures var n := |heard| - 1;
            Spaced(sentAt[..n], slack) && HeardAs(trace, sentAt[..n], heard[..n], key, p) && MissesAtMost(heard[..n], m)
  {
    hide AcceptedAt;
    var n := |heard| - 1;
    forall a, b | 0 <= a <= b < n && b - a >= m ensures SomeHeard(heard[..n], a, b) {
      assert SomeHeard(heard, a, b);
      var j :| 0 <= a <= j <= b < |heard| && heard[j].Some?;
      assert heard[..n][j].Some?;
    }
  }

  lemma {:induction false} RecentlyHeard(heard: seq<Option<nat>>, m: nat, last: nat)
    requires MissesAtMost(heard, m) && last + 1 < |heard|
    requires forall j :: last < j < |heard| - 1 ==> heard[j].None?
    ensures |heard| - 1 - last <= m + 1
  {
    assert last + 1 <= |heard| - 2 && |heard| - 2 - (last + 1) >= m ==> SomeHeard(heard, last + 1, |heard| - 2);
  }

  lemma {:induction false} SteadyGrows(trace: seq<Event>, beats: seq<nat>, i: nat, key: Subdomain, p: Peer)
    requires beats != [] && Steady(trace, beats, key, p) && i < |trace| && AcceptedAt(trace, i, key)
    requires trace[i].peer == p && beats[|beats| - 1] < i
    requires trace[i].at <= trace[beats[|beats| - 1]].at + REGISTRY_TTL
    ensures Steady(trace, beats + [i], key, p)
  {
    hide AcceptedAt;
  }

  /**
   Beats spaced by thirty seconds, give or take `slack`, keep the app resolvable from
   the first accepted one until ninety seconds after the last, though up to `m` in a row
   get lost: two with no slack, one with fifteen seconds of it.
   */
  lemma {:induction false} MissedBeatsAreTolerated(
    trace: seq<Event>, sentAt: seq<nat>, heard: seq<Option<nat>>, slack: nat, m: nat,
    n: nat, now: nat, query: string, p: Peer)
    requires Timed(trace) && ArrivedBy(trace, n, now)
    requires Spaced(sentAt, slack) && HeardAs(trace, sentAt, heard, Lower(query), p) && MissesAtMost(heard, m)
    requires heard != [] && heard[0].Some? && (m + 1) * (REGISTER_INTERVAL + slack) <= REGISTRY_TTL
    requires heard[0].value < n && now <= sentAt[LastHeard(heard)] + REGISTRY_TTL
    requires Unchallenged(trace[..n], heard[0].value, Lower(query), p)
    ensures Lookup(Run(trace[..n]), now, query) == Some(p)
  {
    HeardIsSteady(trace, sentAt, heard, slack, m, Lower(query), p);
    hide Steady, AcceptedAt, DroppedAt, EdgeRegistry.Run, Lookup;
    SteadyPublisherAlwaysResolves(trace, Heard(heard), n, now, query, p);
  }

  // ---- a session's own beats -------------------------------------------------------------------

  /** When a session registered, in order. */
  function RegisteredAt(sent: seq<Message>, id: SessionId): seq<nat> {
    if sent == [] then []
    else
      var last := sent[|sent| - 1];
      RegisteredAt(sent[..|sent| - 1], id) + if last.Register? && last.session == id then [last.timestamp] else []
  }

  lemma {:induction false} RegisteredAtAppend(sent: seq<Message>, m: Message, id: SessionId)
    ensures RegisteredAt(sent + [m], id)
         == RegisteredAt(sent, id) + if m.Register? && m.session == id then [m.timestamp] else []
  {
    assert (sent + [m])[..|sent|] == sent;
  }

  lemma {:induction false} UnsentIsEmpty(sent: seq<Message>, id: SessionId)
    requires forall m :: m in sent ==> m.session < id
    ensures RegisteredAt(sent, id) == []
  {
    if sent != [] {
      assert sent[|sent| - 1] in sent;
      UnsentIsEmpty(sent[..|sent| - 1], id);
    }
  }

  /** Every heartbeat turn of the session that sends comes at most `slack` after it was due. */
  predicate Prompt(s: State, steps: seq<Step>, id: SessionId, slack: nat)
    decreases |steps|
  {
    steps == [] ||
    (&& (steps[0].Beat? && steps[0].session == id && Fires(s, id, steps[0].now) ==>
           steps[0].now <= s.tasks[id].due + slack)
     && Prompt(Next(s, steps[0]), steps[1..], id, slack))
  }

  /** The session's registrations so far are spaced, and the next is due an interval after the last. */
  predicate Paced(s: State, id: SessionId, slack: nat) {
    var times := RegisteredAt(s.sent, id);
    id < |s.tasks| && times != [] && Spaced(times, slack) && s.tasks[id].due == times[|times| - 1] + REGISTER_INTERVAL
  }

  lemma {:induction false} StepKeepsPace(s: State, step: Step, id: SessionId, slack: nat)
    requires Paced(s, id, slack) && Prompt(s, [step], id, slack)
    ensures Paced(Next(s, step), id, slack)
  {
    hide RegisteredAt;
    var t := Next(s, step);
    if |t.sent| > |s.sent| {
      RegisteredAtAppend(s.sent, t.sent[|s.sent|], id);
    }
  }

  /** A session started and prompt about its beats keeps them spaced, over every run. */
  lemma {:induction false} SessionIsPaced(s: State, steps: seq<Step>, id: SessionId, slack: nat)
    requires Paced(s, id, slack) && Prompt(s, steps, id, slack)
    ensures Paced(RunFrom(s, steps), id, slack)
    decreases |steps|
  {
    if steps != [] {
      assert [steps[0]][1..] == [];
      StepKeepsPace(s, steps[0], id, slack);
      hide Next, Paced, Fires;
      SessionIsPaced(Next(s, steps[0]), steps[1..], id, slack);
    }
  }

  /**
   From the publisher's own runs to the edge: start a session, let it run in whatever
   company, each beat sent within `slack` of its time; of what it sent, `heard` says what
   the edge accepted. Then the app resolves to it throughout, up to `m` beats in a row lost.
   */
  lemma {:induction false} RunningSessionResolves(
    s: State, appId: string, start: nat, steps: seq<Step>, slack: nat, m: nat,
    trace: seq<Event>, heard: seq<Option<nat>>, n: nat, now: nat, query: string, p: Peer)
    requires Sound(s) && s.slot.None?
    requires Prompt(Next(s, Start(appId, true, start, true)), steps, |s.tasks|, slack)
    requires var sentAt := RegisteredAt(RunFrom(Next(s, Start(appId, true, start, true)), steps).sent, |s.tasks|);
             && HeardAs(trace, sentAt, heard, Lower(query), p) && MissesAtMost(heard, m)
             && heard != [] && heard[0].Some? && heard[0].value < n
             && now <= sentAt[LastHeard(heard)] + REGISTRY_TTL
    requires (m + 1) * (REGISTER_INTERVAL + slack) <= REGISTRY_TTL
    requires Timed(trace) && ArrivedBy(trace, n, now) && Unchallenged(trace[..n], heard[0].value, Lower(query), p)
    ensures Lookup(EdgeRegistry.Run(trace[..n]), now, query) == Some(p)
  {
    StartedIsPaced(s, appId, start, slack);
    hide Sound, RegisteredAt, Next, Lower, Lookup, EdgeRegistry.Run, HeardAs, MissesAtMost, Unchallenged, Prompt, LastHeard;
    hide Timed, ArrivedBy, Spaced;
    var id, t := |s.tasks|, Next(s, Start(appId, true, start, true));
    SessionIsPaced(t, steps, id, slack);
    MissedBeatsAreTolerated(trace, RegisteredAt(RunFrom(t, steps).sent, id), heard, slack, m, n, now, query, p);
  }

  lemma {:induction false} StartedIsPaced(s: State, appId: string, start: nat, slack: nat)
    requires Sound(s) && s.slot.None?
    ensures Paced(Next(s, Start(appId, true, start, true)), |s.tasks|, slack)
  {
    UnsentIsEmpty(s.sent, |s.tasks|);
    RegisteredAtAppend(s.sent, Register(|s.tasks|, appId, start), |s.tasks|);
    hide RegisteredAt;
  }
}
