/**
 How the devices of one identity come to agree: runs in which every pass has the newest list,
 what machines that have stopped moving hold, and the ways in which they can stand apart.
 */
module DeviceAgreement {
  import opened Prelude
  import opened Devices
  import opened DeviceSync

  // ---- runs in which every pass hears of the newest list ------------------------------------------

  /** The newest publication, with no other of its second. */
  predicate Top(s: System, p: Snapshot) {
    p in s.published && forall q :: q in s.published && q != p ==> q.stamp < p.stamp
  }

  /** The pass has the list `p`, by its refresh or already, and its clock is past it. */
  predicate Hears(s: System, step: Step, p: Snapshot) {
    && Enabled(s, step)
    && (Acts(step) ==> step.Ticks? && step.a.now > p.stamp && Had(s.machines[step.i], step) == Some(p))
  }

  function TopAfter(s: System, step: Step, p: Snapshot): Snapshot
    requires Enabled(s, step)
  {
    if !Acts(step) then p
    else
      match Stepped(s.machines[step.i], step).cached
      case None => p
      case Some(q) => q
  }

  /** Pointers travel and machines make their passes, each hearing of what is then the newest. */
  predicate HearingRuns(s: System, steps: seq<Step>, p: Snapshot)
    decreases |steps|
  {
    steps == [] || (Hears(s, steps[0], p) && HearingRuns(Next(s, steps[0]), steps[1..], TopAfter(s, steps[0], p)))
  }

  function LastTop(s: System, steps: seq<Step>, p: Snapshot): Snapshot
    requires HearingRuns(s, steps, p)
    decreases |steps|
  {
    if steps == [] then p else LastTop(Next(s, steps[0]), steps[1..], TopAfter(s, steps[0], p))
  }

  function Publications(s: System, steps: seq<Step>, p: Snapshot): nat
    requires HearingRuns(s, steps, p)
    decreases |steps|
  {
    if steps == [] then 0
    else
      var q := TopAfter(s, steps[0], p);
      (if q != p then 1 else 0) + Publications(Next(s, steps[0]), steps[1..], q)
  }

  lemma {:induction false} HearingIsRunning(s: System, steps: seq<Step>, p: Snapshot)
    requires HearingRuns(s, steps, p)
    ensures Runs(s, steps)
    decreases |steps|
  {
    hide Enabled, Next, TopAfter;
    if steps != [] {
      HearingIsRunning(Next(s, steps[0]), steps[1..], TopAfter(s, steps[0], p));
    }
  }

  /**
   A pass that reaches the record hears of the newest list if and only if it can have it, and has
   its pointer in hand, is delivered it by an unblocked scan, or finds it on the DHT; the DHT
   is asked only when nothing later was pushed.
   */
  lemma {:induction false} HearsIff(s: System, universe: set<DeviceId>, i: nat, a: Answers, p: Snapshot)
    requires Sound(s, universe) && Top(s, p) && Enabled(s, Ticks(i, a)) && a.reached && a.now > p.stamp
    ensures var m := s.machines[i];
      Hears(s, Ticks(i, a), p)
      <==> && Has(m.held, a, Some(p))
           && (m.cached == Some(p) || (p in m.store && a.pushed.Some?)
               || (a.dht == Some(p) && !Later(a.pushed, Resolving(m.cached, a))))
  {
    hide Ids, Distinct, IdsOf;
    var m := s.machines[i];
    assert MachineSound(m, s.published, universe);
    assert p in m.store && a.pushed.Some? ==> a.pushed == Some(p);
    assert m.cached.Some? ==> m.cached == Some(p) || m.cached.value.stamp < p.stamp;
    assert a.pushed.Some? ==> a.pushed == Some(p) || a.pushed.value.stamp < p.stamp;
  }

  /** A hearing pass ends holding the new newest list, which names what the last did and more if it is another. */
  lemma {:induction false} HearingKeepsTop(s: System, universe: set<DeviceId>, step: Step, p: Snapshot)
    requires Sound(s, universe) && Top(s, p) && Hears(s, step, p)
    ensures var t, q := Next(s, step), TopAfter(s, step, p);
      && Sound(t, universe) && SameSelves(s, t) && Top(t, q) && IdsOf(p) <= IdsOf(q) <= universe
      && (q != p ==> IdsOf(p) < IdsOf(q) && q.stamp > p.stamp)
      && step.i < |s.machines| && (step.Ticks? || (!Acts(step) && q == p))
      && (step.Ticks? ==> && t.machines[step.i].cached == Some(q)
                          && IdsOf(q) == IdsOf(p) + ListIds(ListOf(step.a.remote)) + {s.machines[step.i].self})
      && forall i :: 0 <= i < |s.machines| && (!Acts(step) || i != step.i) ==> t.machines[i].cached == s.machines[i].cached
  {
    hide Ids, Distinct, Ticked, Resolving, Refreshed;
    NextKeepsSound(s, universe, step);
    assert MachineSound(s.machines[step.i], s.published, universe);
    assert p in s.published;
    if Acts(step) {
      StepLaws(s, universe, step);
    }
  }

  /**
   Write-frugal: over every hearing run, however long, each publication grows the newest
   list, so there are at most as many as there are ids it did not name at first.
   */
  lemma {:induction false} PublicationsAreBounded(s: System, universe: set<DeviceId>, steps: seq<Step>, p: Snapshot)
    requires Sound(s, universe) && Top(s, p) && HearingRuns(s, steps, p)
    ensures Runs(s, steps)
    ensures var t, q := Run(s, steps), LastTop(s, steps, p);
      && Sound(t, universe) && SameSelves(s, t) && Top(t, q) && q.stamp >= p.stamp && IdsOf(p) <= IdsOf(q) <= universe
      && (Publications(s, steps, p) == 0 <==> q == p)
      && Publications(s, steps, p) + |IdsOf(p)| <= |IdsOf(q)| <= |universe|
    decreases |steps|
  {
    hide Sound, Top, Hears, Next, TopAfter, IdsOf;
    HearingIsRunning(s, steps, p);
    if steps == [] {
      TopIsSound(s, universe, p);
    } else {
      HearingKeepsTop(s, universe, steps[0], p);
      var t, q := Next(s, steps[0]), TopAfter(s, steps[0], p);
      PublicationsAreBounded(t, universe, steps[1..], q);
      SubsetSize(IdsOf(p), IdsOf(q));
    }
  }

  lemma {:induction false} TopIsSound(s: System, universe: set<DeviceId>, p: Snapshot)
    requires Sound(s, universe) && Top(s, p)
    ensures IdsOf(p) <= universe && |IdsOf(p)| <= |universe|
  {
    hide IdsOf, Distinct;
    SubsetSize(IdsOf(p), universe);
  }

  predicate TicksIn(steps: seq<Step>, i: nat) {
    exists k :: 0 <= k < |steps| && steps[k].Ticks? && steps[k].i == i
  }

  /** Every machine makes at least one pass. */
  predicate Round(s: System, steps: seq<Step>) {
    forall i :: 0 <= i < |s.machines| ==> TicksIn(steps, i)
  }

  /** All machines hold the list `p` and are named by it. */
  predicate AgreedOn(s: System, p: Snapshot) {
    forall i :: 0 <= i < |s.machines| ==> s.machines[i].cached == Some(p) && s.machines[i].self in IdsOf(p)
  }

  /** While nothing is published, a machine that made its pass holds the newest list, and keeps it. */
  lemma {:induction false} QuietRunSpreads(s: System, universe: set<DeviceId>, steps: seq<Step>, p: Snapshot, i: nat)
    requires Sound(s, universe) && Top(s, p) && HearingRuns(s, steps, p) && i < |s.machines|
    requires Publications(s, steps, p) == 0
    ensures Runs(s, steps) && |Run(s, steps).machines| == |s.machines| && LastTop(s, steps, p) == p
    ensures Run(s, steps).machines[i].cached
         == if TicksIn(steps, i) then Some(p) else s.machines[i].cached
    ensures TicksIn(steps, i) ==> s.machines[i].self in IdsOf(p)
    decreases |steps|
  {
    hide Sound, Top, Enabled, Next, TopAfter, IdsOf, InHand;
    HearingIsRunning(s, steps, p);
    if steps != [] {
      HearingKeepsTop(s, universe, steps[0], p);
      var t := Next(s, steps[0]);
      QuietRunSpreads(t, universe, steps[1..], p, i);
      TicksInRest(steps, i);
    }
  }

  lemma {:induction false} TicksInRest(steps: seq<Step>, i: nat)
    requires steps != []
    ensures TicksIn(steps, i) <==> (steps[0].Ticks? && steps[0].i == i) || TicksIn(steps[1..], i)
  {
    var rest := steps[1..];
    if k :| 0 <= k < |rest| && rest[k].Ticks? && rest[k].i == i {
      assert steps[k + 1] == rest[k];
    }
    if k :| 0 < k < |steps| && steps[k].Ticks? && steps[k].i == i {
      assert rest[k - 1] == steps[k];
    }
  }

  /** No machine goes back: while it hears, the stamp of what it holds only grows. */
  lemma {:induction false} StampsGrow(s: System, universe: set<DeviceId>, steps: seq<Step>, p: Snapshot, i: nat)
    requires Sound(s, universe) && Top(s, p) && HearingRuns(s, steps, p)
    requires i < |s.machines| && s.machines[i].cached.Some?
    ensures Runs(s, steps) && i < |Run(s, steps).machines|
    ensures var after := Run(s, steps).machines[i].cached;
      after.Some? && s.machines[i].cached.value.stamp <= after.value.stamp
    decreases |steps|
  {
    hide Distinct, Enabled, Next, TopAfter, IdsOf, InHand;
    HearingIsRunning(s, steps, p);
    if steps != [] {
      HearingKeepsTop(s, universe, steps[0], p);
      assert MachineSound(s.machines[i], s.published, universe);
      StampsGrow(Next(s, steps[0]), universe, steps[1..], TopAfter(s, steps[0], p), i);
    }
  }

  predicate HoldsLater(s: System, stamp: nat) {
    exists i :: 0 <= i < |s.machines| && s.machines[i].cached.Some? && s.machines[i].cached.value.stamp > stamp
  }

  lemma {:induction false} PublisherHoldsLater(s: System, universe: set<DeviceId>, steps: seq<Step>, p: Snapshot)
    requires Sound(s, universe) && Top(s, p) && HearingRuns(s, steps, p) && Publications(s, steps, p) > 0
    ensures Runs(s, steps) && HoldsLater(Run(s, steps), p.stamp)
    decreases |steps|
  {
    hide Sound, Top, Enabled, Next, TopAfter, IdsOf, InHand;
    HearingIsRunning(s, steps, p);
    HearingKeepsTop(s, universe, steps[0], p);
    var t, q := Next(s, steps[0]), TopAfter(s, steps[0], p);
    if q == p {
      PublisherHoldsLater(t, universe, steps[1..], p);
    } else {
      var i := steps[0].i;
      StampsGrow(t, universe, steps[1..], q, i);
      assert Run(s, steps) == Run(t, steps[1..]);
    }
  }

  /**
   A round of passes ends with every machine holding the list that was newest when it began,
   and named by it, if and only if nobody published during it.
   */
  lemma {:induction false} RoundAgreesIff(s: System, universe: set<DeviceId>, steps: seq<Step>, p: Snapshot)
    requires Sound(s, universe) && Top(s, p) && HearingRuns(s, steps, p) && Round(s, steps)
    ensures Runs(s, steps)
    ensures AgreedOn(Run(s, steps), p) <==> Publications(s, steps, p) == 0
  {
    hide Sound, Top, IdsOf, HearingRuns, Runs, Run, Publications, TicksIn;
    PublicationsAreBounded(s, universe, steps, p);
    var t := Run(s, steps);
    if Publications(s, steps, p) == 0 {
      forall i | 0 <= i < |t.machines| ensures t.machines[i].cached == Some(p) && t.machines[i].self in IdsOf(p) {
        assert TicksIn(steps, i);
        QuietRunSpreads(s, universe, steps, p, i);
      }
    } else {
      PublisherHoldsLater(s, universe, steps, p);
    }
  }

  // ---- many rounds -----------------------------------------------------------------------------

  predicate HearingRounds(s: System, rounds: seq<seq<Step>>, p: Snapshot)
    decreases |rounds|
  {
    rounds == [] ||
    (HearingRuns(s, rounds[0], p) && Runs(s, rounds[0]) && Round(s, rounds[0])
     && HearingRounds(Run(s, rounds[0]), rounds[1..], LastTop(s, rounds[0], p)))
  }

  /** How many of the rounds do not end in agreement on what was newest when they began. */
  function Unsettled(s: System, rounds: seq<seq<Step>>, p: Snapshot): nat
    requires HearingRounds(s, rounds, p)
    decreases |rounds|
  {
    if rounds == [] then 0
    else
      var t := Run(s, rounds[0]);
      (if AgreedOn(t, p) then 0 else 1) + Unsettled(t, rounds[1..], LastTop(s, rounds[0], p))
  }

  /**
   Agreement is reached: however many rounds there are, all but as many as there are ids to
   learn end with every machine holding one list that names it.
   */
  lemma {:induction false} AgreementIsReached(s: System, universe: set<DeviceId>, rounds: seq<seq<Step>>, p: Snapshot)
    requires Sound(s, universe) && Top(s, p) && HearingRounds(s, rounds, p)
    ensures |IdsOf(p)| + Unsettled(s, rounds, p) <= |universe|
    decreases |rounds|
  {
    hide Sound, Top, IdsOf, HearingRuns, Runs, Run, LastTop, Publications, Round, AgreedOn;
    if rounds == [] {
      TopIsSound(s, universe, p);
    } else {
      PublicationsAreBounded(s, universe, rounds[0], p);
      RoundAgreesIff(s, universe, rounds[0], p);
      AgreementIsReached(Run(s, rounds[0]), universe, rounds[1..], LastTop(s, rounds[0], p));
    }
  }

  /** Nobody is served an id the newest list does not name. */
  predicate NoNews(s: System, steps: seq<Step>, p: Snapshot)
    requires HearingRuns(s, steps, p)
    decreases |steps|
  {
    steps == [] ||
    ((steps[0].Ticks? ==> ListIds(ListOf(steps[0].a.remote)) <= IdsOf(p))
     && NoNews(Next(s, steps[0]), steps[1..], TopAfter(s, steps[0], p)))
  }

  function Selves(s: System): (selves: set<DeviceId>)
    ensures forall i :: 0 <= i < |s.machines| ==> s.machines[i].self in selves
  {
    set i | 0 <= i < |s.machines| :: s.machines[i].self
  }

  lemma {:induction false} SelvesStay(s: System, t: System)
    requires SameSelves(s, t)
    ensures Selves(t) == Selves(s)
  {
    assert forall i :: 0 <= i < |s.machines| ==> t.machines[i].self == s.machines[i].self;
  }

  lemma {:induction false} LearnsOnlySelves(s: System, universe: set<DeviceId>, steps: seq<Step>, p: Snapshot)
    requires Sound(s, universe) && Top(s, p) && HearingRuns(s, steps, p) && NoNews(s, steps, p)
    ensures IdsOf(LastTop(s, steps, p)) <= IdsOf(p) + Selves(s)
    ensures forall i :: 0 <= i < |s.machines| && TicksIn(steps, i) ==> s.machines[i].self in IdsOf(LastTop(s, steps, p))
    decreases |steps|
  {
    hide Sound, Top, Enabled, Next, TopAfter, IdsOf, InHand;
    if steps != [] {
      HearingKeepsTop(s, universe, steps[0], p);
      var t, q := Next(s, steps[0]), TopAfter(s, steps[0], p);
      LearnsOnlySelves(t, universe, steps[1..], q);
      PublicationsAreBounded(t, universe, steps[1..], q);
      SelvesStay(s, t);
      forall i | 0 <= i < |s.machines| && TicksIn(steps, i)
        ensures s.machines[i].self in IdsOf(LastTop(s, steps, p))
      {
        TicksInRest(steps, i);
        assert t.machines[i].self == s.machines[i].self;
      }
    }
  }

  lemma {:induction false} NothingToLearn(s: System, universe: set<DeviceId>, steps: seq<Step>, p: Snapshot)
    requires Sound(s, universe) && Top(s, p) && HearingRuns(s, steps, p) && NoNews(s, steps, p)
    requires Selves(s) <= IdsOf(p)
    ensures Publications(s, steps, p) == 0
    decreases |steps|
  {
    hide Sound, Top, Enabled, Next, TopAfter, IdsOf, InHand;
    if steps != [] {
      HearingKeepsTop(s, universe, steps[0], p);
      var t, q := Next(s, steps[0]), TopAfter(s, steps[0], p);
      SelvesStay(s, t);
      NothingToLearn(t, universe, steps[1..], p);
    }
  }

  /**
   Two rounds are enough when nobody is served an id out of nowhere: whatever the machines
   held, they then all hold one list, naming what the newest did and every one of them.
   */
  lemma {:induction false} TwoRoundsAgree(
    s: System, universe: set<DeviceId>, first: seq<Step>, second: seq<Step>, p: Snapshot)
    requires Sound(s, universe) && Top(s, p)
    requires HearingRuns(s, first, p) && NoNews(s, first, p) && Runs(s, first) && Round(s, first)
    requires var t, q := Run(s, first), LastTop(s, first, p);
      HearingRuns(t, second, q) && NoNews(t, second, q) && Runs(t, second) && Round(t, second)
    ensures var q := LastTop(s, first, p);
      AgreedOn(Run(Run(s, first), second), q) && IdsOf(q) == IdsOf(p) + Selves(s)
  {
    hide Sound, Top, IdsOf, HearingRuns, Runs, Run, LastTop, Publications, NoNews, TicksIn;
    var t, q := Run(s, first), LastTop(s, first, p);
    LearnsOnlySelves(s, universe, first, p);
    PublicationsAreBounded(s, universe, first, p);
    SelvesStay(s, t);
    assert Selves(s) <= IdsOf(q);
    NothingToLearn(t, universe, second, q);
    RoundAgreesIff(t, universe, second, q);
  }

  /** Once all agree on the newest list, hold it, and it names everybody, no pass changes anything, whatever it meets. */
  lemma {:induction false} AgreedIsQuiet(s: System, universe: set<DeviceId>, p: Snapshot, i: nat, a: Answers)
    requires Sound(s, universe) && Top(s, p) && AgreedOn(s, p) && IdsOf(p) == universe
    requires Enabled(s, Ticks(i, a)) && p in s.machines[i].held && p.stamp <= a.now
    ensures Next(s, Ticks(i, a)) == s
  {
    hide Ids, Distinct, Ticked, IdsOf, Refreshed;
    var m := s.machines[i];
    assert MachineSound(m, s.published, universe);
    RefreshedIsLater(m, a);
    InHandIsPublished(s, universe, Ticks(i, a));
    assert a.remote.Some? ==> IdsOf(a.remote.value) <= universe;
    assert ListIds(ListOf(a.remote)) <= universe;
    QuietIff(s, universe, i, a);
  }

  // ---- two in one second -----------------------------------------------------------------------

  /** Some publication no other is later than is in hand, or delivered or on the DHT with its list within reach. */
  predicate Reached(s: System, m: Machine, a: Answers) {
    exists p :: p in s.published && NewestIn(s.published, p) && Reaches(m, a, p)
  }

  predicate Reaches(m: Machine, a: Answers, p: Snapshot) {
    || m.cached == Some(p)
    || (p in m.store && a.pushed.Some? && Has(m.held, a, a.pushed))
    || (a.dht == Some(p) && Has(m.held, a, a.dht) && !Later(a.pushed, Resolving(m.cached, a)))
  }

  predicate Stuck(s: System, answers: seq<Answers>) {
    && |answers| == |s.machines|
    && forall i :: 0 <= i < |s.machines| ==> StuckAt(s, i, answers[i])
  }

  /** A pass that reaches the record and something newest changes nothing. */
  predicate StuckAt(s: System, i: nat, a: Answers) {
    && Enabled(s, Ticks(i, a)) && a.reached && Next(s, Ticks(i, a)) == s
    && Reached(s, s.machines[i], a) && forall p :: p in s.published ==> p.stamp <= a.now
  }

  lemma {:induction false} StuckHoldsNewest(s: System, universe: set<DeviceId>, i: nat, a: Answers)
    requires Sound(s, universe) && i < |s.machines| && StuckAt(s, i, a)
    ensures s.machines[i].cached.Some? && NewestIn(s.published, s.machines[i].cached.value)
    ensures s.machines[i].self in IdsOf(s.machines[i].cached.value)
  {
    hide Ids, Distinct, IdsOf, Ticked;
    var m := s.machines[i];
    assert MachineSound(m, s.published, universe);
    InHandIsPublished(s, universe, Ticks(i, a));
    QuietIff(s, universe, i, a);
    var p :| p in s.published && NewestIn(s.published, p) && Reaches(m, a, p);
    assert p in m.store && a.pushed.Some? ==> p.stamp <= a.pushed.value.stamp;
  }

  /**
   Machines whose passes change nothing any more all hold a list of the newest second; they
   hold the same one, and are all named by it, unless two were published in that second.
   */
  lemma {:induction false} StuckAgreeUnlessTied(s: System, universe: set<DeviceId>, answers: seq<Answers>)
    requires Sound(s, universe) && Stuck(s, answers)
    ensures forall i :: 0 <= i < |s.machines| ==>
      s.machines[i].cached.Some? && NewestIn(s.published, s.machines[i].cached.value)
    ensures forall p :: p in s.published && Top(s, p) ==> AgreedOn(s, p)
  {
    hide Sound, StuckAt, IdsOf, NewestIn;
    forall i | 0 <= i < |s.machines|
      ensures s.machines[i].cached.Some? && NewestIn(s.published, s.machines[i].cached.value)
      ensures s.machines[i].self in IdsOf(s.machines[i].cached.value)
    {
      assert StuckAt(s, i, answers[i]);
      StuckHoldsNewest(s, universe, i, answers[i]);
    }
    forall p | p in s.published && Top(s, p) ensures AgreedOn(s, p) {
      forall i | 0 <= i < |s.machines| ensures s.machines[i].cached == Some(p) {
        OnlyNewest(s, p, s.machines[i].cached.value);
      }
    }
  }

  lemma {:induction false} OnlyNewest(s: System, p: Snapshot, q: Snapshot)
    requires Top(s, p) && NewestIn(s.published, q)
    ensures q == p
  {
  }

  function Initial(selves: seq<DeviceId>): System {
    System(seq(|selves|, i requires 0 <= i < |selves| => Machine(selves[i], None, {}, {})), {})
  }

  function Entry(id: DeviceId, now: nat): DeviceEntry {
    DeviceEntry(id, "", Some(now))
  }

  /** Answers with nothing on the DHT; what can be fetched is what is served. */
  function Told(pushed: Option<Snapshot>, remote: Option<Snapshot>, now: nat, id: nat): Answers {
    Answers(pushed, None, remote, if remote.Some? then {remote.value} else {}, true, "", now, id)
  }

  lemma {:induction false} FirstLists(a: DeviceId, b: DeviceId)
    requires a != b
    ensures Added(None, None, a, "", 5) == DeviceList([Entry(a, 5)], 1)
    ensures Added(Some(DeviceList([Entry(a, 5)], 1)), None, a, "", 6) == DeviceList([Entry(a, 5)], 2)
    ensures var one := Some(DeviceList([Entry(a, 5)], 1));
      Added(one, one, b, "", 6) == DeviceList([Entry(a, 5), Entry(b, 6)], 2)
    ensures Reconciled(None, None, b, "", 6) == (Some(DeviceList([Entry(b, 6)], 1)), true)
  {
    var one := [Entry(a, 5)];
    assert one[1..] == [] && [] + one == one && one[0 := one[0]] == one;
    assert one[0].id == a && Lists(one, a) && Union(one, one) == Union(one, []) == one;
    assert one + [Entry(b, 6)] == [Entry(a, 5), Entry(b, 6)];
    assert [] + [Entry(b, 6)] == [Entry(b, 6)];
    assert Position(one, a) == 0 && Position(one, b) == 1;
  }

  predicate Follows(s: System, step: Step, t: System) {
    Enabled(s, step) && Next(s, step) == t
  }

  lemma {:induction false} RunsThrough(states: seq<System>, steps: seq<Step>)
    requires |states| == |steps| + 1
    requires forall k :: 0 <= k < |steps| ==> Follows(states[k], steps[k], states[k + 1])
    ensures Runs(states[0], steps) && Run(states[0], steps) == states[|steps|]
    decreases |steps|
  {
    hide Enabled, Next;
    if steps != [] {
      assert Follows(states[0], steps[0], states[1]);
      RunsThrough(states[1..], steps[1..]);
    }
  }

  /** The lists of the story: one device twice, and the other with it in the same second as the second time. */
  function Early(a: DeviceId): Snapshot { Snapshot(5, DeviceList([Entry(a, 5)], 1), 0) }
  function Alone(a: DeviceId): Snapshot { Snapshot(6, DeviceList([Entry(a, 5)], 2), 1) }
  function Both(a: DeviceId, b: DeviceId): Snapshot { Snapshot(6, DeviceList([Entry(a, 5), Entry(b, 6)], 2), 2) }

  function Story(a: DeviceId, b: DeviceId): seq<Step> {
    [Registers(0, Told(None, None, 5, 0), a), Arrives(1, Early(a)), Registers(0, Told(Some(Early(a)), None, 6, 1), a),
     Registers(1, Told(Some(Early(a)), Some(Early(a)), 6, 2), b), Arrives(0, Both(a, b)), Arrives(1, Alone(a))]
  }

  function Apart(a: DeviceId, b: DeviceId): System {
    var all := {Early(a), Alone(a), Both(a, b)};
    System([Machine(a, Some(Alone(a)), all, {Early(a), Alone(a)}),
            Machine(b, Some(Both(a, b)), all, {Early(a), Both(a, b)})], all)
  }

  function StoryStates(a: DeviceId, b: DeviceId): seq<System> {
    var e, l, u := Early(a), Alone(a), Both(a, b);
    var a1, a2 := Machine(a, Some(e), {e}, {e}), Machine(a, Some(l), {e, l}, {e, l});
    var b1, b2 := Machine(b, None, {e}, {}), Machine(b, Some(u), {e, u}, {e, u});
    [Initial([a, b]), System([a1, Machine(b, None, {}, {})], {e}), System([a1, b1], {e}), System([a2, b1], {e, l}),
     System([a2, b2], {e, l, u}), System([a2.(store := {e, l, u}), b2], {e, l, u}), Apart(a, b)]
  }

  lemma {:induction false} StoryBegins(a: DeviceId, b: DeviceId, k: nat)
    requires a != b && k < 3
    ensures Follows(StoryStates(a, b)[k], Story(a, b)[k], StoryStates(a, b)[k + 1])
  {
    hide Added;
    FirstLists(a, b);
    var e, l := Early(a), Alone(a);
    assert Initial([a, b]).machines == [Machine(a, None, {}, {}), Machine(b, None, {}, {})];
    assert {} + {e} == {e} && {e} + {e} == {e} && {e} + {l} == {e, l};
  }

  lemma {:induction false} StoryEnds(a: DeviceId, b: DeviceId, k: nat)
    requires a != b && 3 <= k < 6
    ensures Follows(StoryStates(a, b)[k], Story(a, b)[k], StoryStates(a, b)[k + 1])
  {
    hide Added;
    FirstLists(a, b);
    var e, l, u := Early(a), Alone(a), Both(a, b);
    assert {} + {e} == {e} && {e} + {e} == {e};
    assert {e} + {u} == {e, u} && {e, l} + {u} == {e, l, u} && {e, u} + {l} == {e, l, u};
    assert {e, l, u} + {l} == {e, l, u} + {u} == {e, l, u};
  }

  lemma {:induction false} StoryLeadsApart(a: DeviceId, b: DeviceId)
    requires a != b
    ensures Runs(Initial([a, b]), Story(a, b)) && Run(Initial([a, b]), Story(a, b)) == Apart(a, b)
  {
    hide Follows, Runs, Run;
    forall k | 0 <= k < 6 ensures Follows(StoryStates(a, b)[k], Story(a, b)[k], StoryStates(a, b)[k + 1]) {
      if k < 3 {
        StoryBegins(a, b, k);
      } else {
        StoryEnds(a, b, k);
      }
    }
    RunsThrough(StoryStates(a, b), Story(a, b));
  }

  /** What each is told from then on: its scan finds the lone list's pointer first, and who has that list serves it. */
  function ToldSince(a: DeviceId, i: nat, now: nat, id: nat): Answers {
    Told(Some(Alone(a)), if i == 0 then None else Some(Alone(a)), now, id)
  }

  lemma {:induction false} ApartIsSound(a: DeviceId, b: DeviceId)
    requires a != b
    ensures Sound(Apart(a, b), {a, b}) && IdsOf(Alone(a)) == {a} && IdsOf(Both(a, b)) == {a, b}
  {
    var one, two := [Entry(a, 5)], [Entry(a, 5), Entry(b, 6)];
    assert one[0].id == a && two[0].id == a && two[1].id == b;
    assert Ids(one) == {a} && Ids(two) == {a, b};
    hide Ids;
  }

  lemma {:induction false} ApartIsStuck(a: DeviceId, b: DeviceId, i: nat, now: nat, id: nat)
    requires a != b && i < 2 && now > 6
    ensures StuckAt(Apart(a, b), i, ToldSince(a, i, now, id))
  {
    hide Ids, Ticked, Distinct, IdsOf;
    var s, told := Apart(a, b), ToldSince(a, i, now, id);
    ApartIsSound(a, b);
    assert NewestIn(s.published, Alone(a)) && NewestIn(s.published, Both(a, b));
    assert Reaches(s.machines[i], told, s.machines[i].cached.value);
    assert Refreshed(s.machines[i], told) == s.machines[i].cached;
    assert Enabled(s, Ticks(i, told));
    hide Refreshed, Enabled, Sound;
    QuietIff(s, {a, b}, i, told);
  }

  /**
   It happens: a device restarts in the second in which another joins after hearing of it. Both
   lists are the newest, so neither replaces the other, and as long as both machines' scans find
   the lone list's pointer first every later pass on either leaves everything as it is.
   */
  lemma {:induction false} SameSecondSplits(a: DeviceId, b: DeviceId, now: nat, id: nat)
    requires a != b && now > 6
    ensures Runs(Initial([a, b]), Story(a, b))
    ensures var s := Run(Initial([a, b]), Story(a, b));
      && Stuck(s, [ToldSince(a, 0, now, id), ToldSince(a, 1, now, id)])
      && s.machines[0].cached == Some(Alone(a)) && s.machines[1].cached == Some(Both(a, b))
      && b !in IdsOf(Alone(a)) && b in IdsOf(Both(a, b))
  {
    hide StuckAt, IdsOf, Runs, Run, Story;
    StoryLeadsApart(a, b);
    ApartIsSound(a, b);
    ApartIsStuck(a, b, 0, now, id);
    ApartIsStuck(a, b, 1, now, id);
  }

  // ---- a list that cannot be had -----------------------------------------------------------------

  /** With nothing served, a pass that cannot have the list in hand publishes one that names its machine alone. */
  lemma {:induction false} UnhadListIsForgotten(s: System, universe: set<DeviceId>, i: nat, a: Answers)
    requires Sound(s, universe) && Enabled(s, Ticks(i, a)) && a.remote.None? && Had(s.machines[i], Ticks(i, a)).None?
    ensures var t := Next(s, Ticks(i, a));
      && t.machines[i].cached.Some?
      && var p := t.machines[i].cached.value;
         p in t.published && IdsOf(p) == {s.machines[i].self} && p.stamp == a.now && p.list.version == 1
  {
    hide Ids, Distinct, Ticked, Refreshed, Resolving;
    StepLaws(s, universe, Ticks(i, a));
  }

  /** So it goes when the object of the list in hand was evicted and nothing is within reach. */
  lemma {:induction false} EvictedListIsForgotten(s: System, universe: set<DeviceId>, i: nat, a: Answers)
    requires Sound(s, universe) && i < |s.machines| && s.machines[i].cached.Some?
    requires a.remote.None? && a.fetchable == {} && !Later(a.pushed, s.machines[i].cached) && !Later(a.dht, s.machines[i].cached)
    requires var lost := Next(s, Loses(i, s.machines[i].cached.value)); Enabled(lost, Ticks(i, a))
    ensures var t := Next(Next(s, Loses(i, s.machines[i].cached.value)), Ticks(i, a));
      t.machines[i].cached.Some? && IdsOf(t.machines[i].cached.value) == {s.machines[i].self}
  {
    hide Ids, Distinct, Ticked;
    var step := Loses(i, s.machines[i].cached.value);
    NextKeepsSound(s, universe, step);
    UnhadListIsForgotten(Next(s, step), universe, i, a);
  }

  function Lone(b: DeviceId): Snapshot { Snapshot(6, DeviceList([Entry(b, 6)], 1), 1) }

  function Forgetting(a: DeviceId, b: DeviceId): seq<Step> {
    [Registers(0, Told(None, None, 5, 0), a), Arrives(1, Early(a)), Ticks(1, Told(Some(Early(a)), None, 6, 1))]
  }

  /**
   It happens to a fresh device: it is pushed the pointer of another that is out of reach, and
   its first pass publishes, as the newest list, one that names itself alone.
   */
  lemma {:induction false} FreshDeviceForgets(a: DeviceId, b: DeviceId)
    requires a != b
    ensures Runs(Initial([a, b]), Forgetting(a, b))
    ensures var s := Run(Initial([a, b]), Forgetting(a, b));
      && |s.machines| == 2 && s.machines[0].cached == Some(Early(a)) && a in IdsOf(Early(a))
      && s.machines[1].cached == Some(Lone(b)) && IdsOf(Lone(b)) == {b} && Top(s, Lone(b))
  {
    hide Added, Reconciled;
    FirstLists(a, b);
    var e, l, steps := Early(a), Lone(b), Forgetting(a, b);
    var s0, a1 := Initial([a, b]), Machine(a, Some(e), {e}, {e});
    assert s0.machines == [Machine(a, None, {}, {}), Machine(b, None, {}, {})];
    assert {} + {e} == {e} && {e} + {l} == {e, l} && {} + {l} == {l};
    var s1, s2 := System([a1, Machine(b, None, {}, {})], {e}), System([a1, Machine(b, None, {e}, {})], {e});
    var s3 := System([a1, Machine(b, Some(l), {e, l}, {l})], {e, l});
    assert Follows(s0, steps[0], s1) && Follows(s1, steps[1], s2) && Follows(s2, steps[2], s3);
    RunsThrough([s0, s1, s2, s3], steps);
    assert e.list.devices[0].id == a && l.list.devices[0].id == b;
  }
}
