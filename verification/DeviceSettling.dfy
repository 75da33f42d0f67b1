/**
 The device lists settle whatever is heard when: over every run, however late or patchy the
 pointers, the lists and the answers, passes publish only so often. A publication strictly
 enlarges the list it starts from, and no machine starts twice from the same one; from nothing
 it starts only before its first list, or once for each list in hand whose object it lost.
 */
module DeviceSettling {
  import opened Prelude
  import opened Devices
  import opened DeviceSync
  import opened DeviceAgreement

  /** What one start from a list with `room` ids left to learn can lead to, among `n` machines. */
  function Weight(n: nat, room: nat): nat {
    if room == 0 then 0 else 1 + Product(n, Weight(n, room - 1))
  }

  lemma {:induction false} MoreRoomWeighsMore(n: nat, a: nat, b: nat)
    requires a <= b
    ensures Weight(n, a) <= Weight(n, b)
  {
    if 0 < a {
      MoreRoomWeighsMore(n, a - 1, b - 1);
      Times(n, Weight(n, a - 1), Weight(n, b - 1));
    }
  }

  function Product(k: nat, w: nat): nat {
    k * w
  }

  lemma {:induction false} OneMore(k: nat, w: nat)
    ensures Product(0, w) == 0 && Product(k + 1, w) == Product(k, w) + w
  {
  }

  /** One more than `n` shares paid out of `worth`, one of them to the payer, leaves one to spare. */
  lemma {:induction false} Balance(n: nat, share: nat, worth: nat, mine: nat, mine': nat, others: nat, others': nat)
    requires n > 0 && 1 + Product(n, share) <= worth
    requires mine' + worth <= mine + share && others' <= others + Product(n - 1, share)
    ensures others' + mine' + 1 <= others + mine
  {
    OneMore(n - 1, share);
  }

  lemma {:induction false} Times(n: nat, a: nat, b: nat)
    requires a <= b
    ensures Product(n, a) <= Product(n, b)
  {
  }

  /** A list with strictly less room is worth so much less that all machines can have it. */
  lemma {:induction false} LessRoomPays(n: nat, less: nat, more: nat)
    requires less < more
    ensures 1 + Product(n, Weight(n, less)) <= Weight(n, more)
  {
    MoreRoomWeighsMore(n, less, more - 1);
    Times(n, Weight(n, less), Weight(n, more - 1));
  }

  function Room(universe: set<DeviceId>, p: Snapshot): nat {
    |universe - IdsOf(p)|
  }

  ghost function Worth(n: nat, universe: set<DeviceId>, ps: set<Snapshot>): nat {
    if ps == {} then 0
    else
      var p :| p in ps;
      Weight(n, Room(universe, p)) + Worth(n, universe, ps - {p})
  }

  lemma {:induction false} WorthWithout(n: nat, universe: set<DeviceId>, ps: set<Snapshot>, p: Snapshot)
    requires p in ps
    ensures Worth(n, universe, ps) == Weight(n, Room(universe, p)) + Worth(n, universe, ps - {p})
  {
    hide Weight, Room;
    var first :| first in ps
      && Worth(n, universe, ps) == Weight(n, Room(universe, first)) + Worth(n, universe, ps - {first});
    if first != p {
      WorthWithout(n, universe, ps - {first}, p);
      WorthWithout(n, universe, ps - {p}, first);
      assert ps - {first} - {p} == ps - {p} - {first};
    }
  }

  lemma {:induction false} FewerAreWorthLess(n: nat, universe: set<DeviceId>, ps: set<Snapshot>, qs: set<Snapshot>)
    requires ps <= qs
    ensures Worth(n, universe, ps) <= Worth(n, universe, qs)
    decreases |qs - ps|
  {
    hide Weight, Room;
    if ps != qs {
      var q :| q in qs && q !in ps;
      WorthWithout(n, universe, qs, q);
      assert (qs - {q}) - ps == (qs - ps) - {q};
      FewerAreWorthLess(n, universe, ps, qs - {q});
    }
  }

  lemma {:induction false} WorthIsBounded(n: nat, universe: set<DeviceId>, ps: set<Snapshot>)
    ensures Worth(n, universe, ps) <= Product(|ps|, Weight(n, |universe|))
  {
    if ps != {} {
      var p :| p in ps;
      var rest := ps - {p};
      WorthIsBounded(n, universe, rest);
      hide Worth;
      WorthWithout(n, universe, ps, p);
      RoomIsBounded(n, universe, p);
      hide Weight, Room, Product;
      var w := Weight(n, |universe|);
      OneMore(|rest|, w);
      assert |ps| == |rest| + 1;
    }
  }

  lemma {:induction false} RoomIsBounded(n: nat, universe: set<DeviceId>, p: Snapshot)
    ensures Weight(n, Room(universe, p)) <= Weight(n, |universe|)
  {
    hide Weight, IdsOf;
    SubsetSize(universe - IdsOf(p), universe);
    MoreRoomWeighsMore(n, Room(universe, p), |universe|);
  }

  /** The lists a machine could still start from: the one it holds and all later ones. */
  function Ahead(m: Machine, published: set<Snapshot>): set<Snapshot> {
    set p | p in published && (m.cached.None? || m.cached == Some(p) || m.cached.value.stamp < p.stamp)
  }

  /** The machine has the list in hand without fetching it. */
  predicate Grounded(m: Machine) {
    m.cached.Some? && m.cached.value in m.held
  }

  ghost function Left(n: nat, universe: set<DeviceId>, m: Machine, published: set<Snapshot>): nat {
    Worth(n, universe, Ahead(m, published)) + if Grounded(m) then 0 else Weight(n, |universe|)
  }

  ghost function Potential(n: nat, universe: set<DeviceId>, machines: seq<Machine>, published: set<Snapshot>): nat {
    if machines == [] then 0
    else
      var k := |machines| - 1;
      Potential(n, universe, machines[..k], published) + Left(n, universe, machines[k], published)
  }

  // ---- one machine -------------------------------------------------------------------------------

  /** Somebody else's new list adds its weight at most. */
  lemma {:induction false} OthersGainAtMost(n: nat, universe: set<DeviceId>, m: Machine, published: set<Snapshot>, p: Snapshot)
    ensures Left(n, universe, m, published + {p})
         <= Left(n, universe, m, published) + Weight(n, Room(universe, p))
  {
    hide Weight, Room;
    var before, after := Ahead(m, published), Ahead(m, published + {p});
    if p in after {
      WorthWithout(n, universe, after, p);
      FewerAreWorthLess(n, universe, after - {p}, before);
    } else {
      FewerAreWorthLess(n, universe, after, before);
    }
  }

  /** What the machine holds is what it held, or later. */
  predicate MovedOn(before: Option<Snapshot>, after: Option<Snapshot>) {
    before.Some? ==> after == before || (after.Some? && before.value.stamp < after.value.stamp)
  }

  lemma {:induction false} MovingOnCostsNothing(
    n: nat, universe: set<DeviceId>, m: Machine, m': Machine, published: set<Snapshot>)
    requires MovedOn(m.cached, m'.cached) && (Grounded(m) ==> Grounded(m'))
    ensures Left(n, universe, m', published) <= Left(n, universe, m, published)
  {
    hide Weight, Room;
    FewerAreWorthLess(n, universe, Ahead(m', published), Ahead(m, published));
  }

  /** Losing the list in hand allows one more start from nothing. */
  lemma {:induction false} LosingGivesOneStart(
    n: nat, universe: set<DeviceId>, m: Machine, m': Machine, published: set<Snapshot>)
    requires m'.cached == m.cached
    ensures Left(n, universe, m', published) <= Left(n, universe, m, published) + Weight(n, |universe|)
  {
    hide Weight, Room;
    assert Ahead(m', published) == Ahead(m, published);
  }

  /** The machine, holding `pointer` or something earlier, publishes `p`, starting from `local` or from nothing. */
  predicate Starts(m: Machine, m': Machine, published: set<Snapshot>, pointer: Option<Snapshot>, local: Option<Snapshot>, p: Snapshot) {
    && MovedOn(m.cached, pointer) && (pointer.Some? ==> pointer.value.stamp <= p.stamp)
    && m'.cached == Some(p) && p in m'.held
    && if local.Some? then local == pointer && local.value in published && local.value != p else !Grounded(m)
  }

  /** Starting from a list uses it up, since the new one is another and no earlier; so does starting from nothing. */
  lemma {:induction false} PublishingUsesUp(
    n: nat, universe: set<DeviceId>, m: Machine, m': Machine, published: set<Snapshot>,
    pointer: Option<Snapshot>, local: Option<Snapshot>, p: Snapshot)
    requires Starts(m, m', published, pointer, local, p)
    ensures Left(n, universe, m', published + {p})
            + Weight(n, if local.Some? then Room(universe, local.value) else |universe|)
         <= Left(n, universe, m, published) + Weight(n, Room(universe, p))
  {
    hide Weight, Room;
    var before, after := Ahead(m, published), Ahead(m', published + {p});
    WorthWithout(n, universe, after, p);
    if local.Some? {
      assert local.value in before && local.value !in after - {p};
      WorthWithout(n, universe, before, local.value);
      FewerAreWorthLess(n, universe, after - {p}, before - {local.value});
    } else {
      FewerAreWorthLess(n, universe, after - {p}, before);
    }
  }

  /** A command may publish a list no larger than the last; it costs nothing and gives its weight at most. */
  lemma {:induction false} CommandGivesAtMost(
    n: nat, universe: set<DeviceId>, m: Machine, m': Machine, published: set<Snapshot>, pointer: Option<Snapshot>, p: Snapshot)
    requires MovedOn(m.cached, pointer) && (pointer.Some? ==> pointer.value.stamp <= p.stamp)
    requires m'.cached == Some(p) && p in m'.held
    ensures Left(n, universe, m', published + {p}) <= Left(n, universe, m, published) + Weight(n, Room(universe, p))
  {
    hide Weight, Room;
    var before, after := Ahead(m, published), Ahead(m', published + {p});
    WorthWithout(n, universe, after, p);
    FewerAreWorthLess(n, universe, after - {p}, before);
  }

  // ---- all machines --------------------------------------------------------------------------------

  lemma {:induction false} AllGainAtMost(
    n: nat, universe: set<DeviceId>, machines: seq<Machine>, k: nat, published: set<Snapshot>, p: Snapshot)
    requires |machines| == k
    ensures Potential(n, universe, machines, published + {p})
         <= Potential(n, universe, machines, published) + Product(k, Weight(n, Room(universe, p)))
  {
    hide Weight, Room, Left, Product;
    if k > 0 {
      AllGainAtMost(n, universe, machines[..k - 1], k - 1, published, p);
      OthersGainAtMost(n, universe, machines[k - 1], published, p);
      OneMore(k - 1, Weight(n, Room(universe, p)));
    }
  }

  /** Replacing one machine changes the potential by what that machine has left. */
  lemma {:induction false} OneChanges(
    n: nat, universe: set<DeviceId>, machines: seq<Machine>, i: nat, m: Machine, published: set<Snapshot>)
    requires i < |machines|
    ensures Potential(n, universe, machines[i := m], published) + Left(n, universe, machines[i], published)
         == Potential(n, universe, machines, published) + Left(n, universe, m, published)
  {
    hide Left;
    var k := |machines| - 1;
    if i < k {
      assert machines[i := m][..k] == machines[..k][i := m];
      OneChanges(n, universe, machines[..k], i, m, published);
    } else {
      assert machines[i := m][..k] == machines[..k];
    }
  }

  /** The others may gain the new list, and all of it together costs less than the start was worth. */
  lemma {:induction false} PublishingCosts(
    universe: set<DeviceId>, machines: seq<Machine>, i: nat, m': Machine, published: set<Snapshot>,
    pointer: Option<Snapshot>, local: Option<Snapshot>, p: Snapshot)
    requires i < |machines| && Starts(machines[i], m', published, pointer, local, p)
    requires Room(universe, p) < if local.Some? then Room(universe, local.value) else |universe|
    ensures var n := |machines|;
      Potential(n, universe, machines[i := m'], published + {p}) + 1 <= Potential(n, universe, machines, published)
  {
    hide Weight, Room, Left, Potential, Product, Starts;
    var n, others := |machines|, machines[..i] + machines[i + 1..];
    var room := if local.Some? then Room(universe, local.value) else |universe|;
    LessRoomPays(n, Room(universe, p), room);
    assert machines[i := m'][..i] + machines[i := m'][i + 1..] == others;
    PotentialSplits(n, universe, machines, i, published);
    PotentialSplits(n, universe, machines[i := m'], i, published + {p});
    AllGainAtMost(n, universe, others, n - 1, published, p);
    PublishingUsesUp(n, universe, machines[i], m', published, pointer, local, p);
    Balance(n, Weight(n, Room(universe, p)), Weight(n, room),
            Left(n, universe, machines[i], published), Left(n, universe, m', published + {p}),
            Potential(n, universe, others, published), Potential(n, universe, others, published + {p}));
  }

  lemma {:induction false} CommandCosts(
    universe: set<DeviceId>, machines: seq<Machine>, i: nat, m': Machine, published: set<Snapshot>,
    pointer: Option<Snapshot>, p: Snapshot)
    requires i < |machines| && MovedOn(machines[i].cached, pointer) && (pointer.Some? ==> pointer.value.stamp <= p.stamp)
    requires m'.cached == Some(p) && p in m'.held
    ensures var n := |machines|;
      Potential(n, universe, machines[i := m'], published + {p})
      <= Potential(n, universe, machines, published) + Product(n, Weight(n, |universe|))
  {
    hide Weight, Room, Left, Potential, Product, MovedOn;
    var n, others := |machines|, machines[..i] + machines[i + 1..];
    assert machines[i := m'][..i] + machines[i := m'][i + 1..] == others;
    PotentialSplits(n, universe, machines, i, published);
    PotentialSplits(n, universe, machines[i := m'], i, published + {p});
    AllGainAtMost(n, universe, others, n - 1, published, p);
    CommandGivesAtMost(n, universe, machines[i], m', published, pointer, p);
    OneMore(n - 1, Weight(n, Room(universe, p)));
    RoomIsBounded(n, universe, p);
    Times(n, Weight(n, Room(universe, p)), Weight(n, |universe|));
  }

  lemma {:induction false} PotentialSplits(n: nat, universe: set<DeviceId>, machines: seq<Machine>, i: nat, published: set<Snapshot>)
    requires i < |machines|
    ensures Potential(n, universe, machines, published)
         == Potential(n, universe, machines[..i] + machines[i + 1..], published) + Left(n, universe, machines[i], published)
  {
    hide Left;
    var k, others := |machines| - 1, machines[..i] + machines[i + 1..];
    if i < k {
      PotentialSplits(n, universe, machines[..k], i, published);
      assert machines[..k][..i] + machines[..k][i + 1..] == others[..k - 1];
      assert others[k - 1] == machines[k];
    } else {
      assert others == machines[..k];
    }
  }

  // ---- every run ---------------------------------------------------------------------------------

  /** The clock of a machine that acts is not behind the pointer in its hand. */
  predicate Timely(s: System, step: Step) {
    && Enabled(s, step)
    && (Acts(step) ==> var pointer := InHand(s.machines[step.i], step); pointer.Some? ==> pointer.value.stamp <= step.a.now)
  }

  predicate TimelyRuns(s: System, steps: seq<Step>)
    decreases |steps|
  {
    steps == [] || (Timely(s, steps[0]) && TimelyRuns(Next(s, steps[0]), steps[1..]))
  }

  predicate PassPublishes(s: System, step: Step)
    requires Enabled(s, step)
  {
    step.Ticks? && Publishes(s.machines[step.i], step)
  }

  /** How many passes publish. */
  function Published(s: System, steps: seq<Step>): nat
    requires Runs(s, steps)
    decreases |steps|
  {
    if steps == [] then 0
    else (if PassPublishes(s, steps[0]) then 1 else 0) + Published(Next(s, steps[0]), steps[1..])
  }

  /** The object of a list in hand goes. */
  predicate LosesHand(s: System, step: Step)
    requires Enabled(s, step)
  {
    step.Loses? && s.machines[step.i].cached == Some(step.p)
  }

  function Losses(s: System, steps: seq<Step>): nat
    requires Runs(s, steps)
    decreases |steps|
  {
    if steps == [] then 0
    else (if LosesHand(s, steps[0]) then 1 else 0) + Losses(Next(s, steps[0]), steps[1..])
  }

  /** Devices are added, at start-up or by hand, or removed. */
  predicate Commands(step: Step) {
    step.Registers? || step.Removes?
  }

  function CommandsIn(steps: seq<Step>): nat
    decreases |steps|
  {
    if steps == [] then 0 else (if Commands(steps[0]) then 1 else 0) + CommandsIn(steps[1..])
  }

  /** A step that publishes starts from a list it strictly enlarges, or from nothing; one that does not moves its machine on. */
  lemma {:induction false} PassLaws(s: System, universe: set<DeviceId>, step: Step)
    requires Sound(s, universe) && Timely(s, step) && Within(step, universe)
    ensures var t := Next(s, step);
      && step.i < |s.machines| && t.machines == s.machines[step.i := t.machines[step.i]]
      && var m, m' := s.machines[step.i], t.machines[step.i];
         if Acts(step) && Publishes(m, step) then
           && m'.cached.Some? && t.published == s.published + {m'.cached.value} && m'.cached.value in m'.held
           && MovedOn(m.cached, InHand(m, step))
           && (InHand(m, step).Some? ==> InHand(m, step).value.stamp <= m'.cached.value.stamp)
           && (step.Ticks? ==>
                 && Starts(m, m', s.published, InHand(m, step), Had(m, step), m'.cached.value)
                 && Room(universe, m'.cached.value)
                    < if Had(m, step).Some? then Room(universe, Had(m, step).value) else |universe|)
         else
           && t.published == s.published && MovedOn(m.cached, m'.cached)
           && (Grounded(m) && !LosesHand(s, step) ==> Grounded(m'))
  {
    hide Ids, Distinct, Ticked, Enrolled, Removed, Room;
    var m := s.machines[step.i];
    assert MachineSound(m, s.published, universe);
    if Acts(step) {
      InHandIsPublished(s, universe, step);
      StepLaws(s, universe, step);
      if Publishes(m, step) && step.Ticks? {
        var p := Stepped(m, step).cached.value;
        assert IdsOf(p) == ListIds(ListOf(Had(m, step))) + JoinedIds(m, step);
        assert m.self in JoinedIds(m, step);
        RoomShrinks(universe, Had(m, step), JoinedIds(m, step), p);
      }
    }
  }

  lemma {:induction false} RoomShrinks(universe: set<DeviceId>, local: Option<Snapshot>, joined: set<DeviceId>, p: Snapshot)
    requires IdsOf(p) == ListIds(ListOf(local)) + joined && IdsOf(p) <= universe
    requires joined != {} && (local.Some? ==> !(joined <= IdsOf(local.value)))
    ensures Room(universe, p) < if local.Some? then Room(universe, local.value) else |universe|
    ensures local != Some(p)
  {
    hide Ids;
    var before := ListIds(ListOf(local));
    assert local.Some? ==> before == IdsOf(local.value);
    hide IdsOf;
    assert !(joined <= before) by {
      assert local.None? ==> before == {};
    }
    hide ListIds;
    Shrinks(universe, before, joined);
    assert local.None? ==> universe - before == universe;
  }

  lemma {:induction false} Shrinks<T>(universe: set<T>, before: set<T>, joined: set<T>)
    requires before + joined <= universe && !(joined <= before)
    ensures |universe - (before + joined)| < |universe - before|
  {
    var d :| d in joined && d !in before;
    assert d in universe - before && d !in universe - (before + joined);
    SubsetSize(universe - (before + joined), universe - before);
  }

  /** What a step may add to the potential. */
  function Gift(s: System, universe: set<DeviceId>, step: Step): nat
    requires Enabled(s, step)
  {
    var n, w := |s.machines|, Weight(|s.machines|, |universe|);
    (if LosesHand(s, step) then w else 0) + if Commands(step) then Product(n, w) else 0
  }

  lemma {:induction false} StepPays(s: System, universe: set<DeviceId>, step: Step)
    requires Sound(s, universe) && Timely(s, step) && Within(step, universe)
    ensures var n, t := |s.machines|, Next(s, step);
      && Sound(t, universe) && |t.machines| == n
      && Potential(n, universe, t.machines, t.published) + (if PassPublishes(s, step) then 1 else 0)
         <= Potential(n, universe, s.machines, s.published) + Gift(s, universe, step)
  {
    hide Sound, Room, Weight, Product, Starts, Stepped;
    NextKeepsSound(s, universe, step);
    PassLaws(s, universe, step);
    var n, t, i := |s.machines|, Next(s, step), step.i;
    var m, m' := s.machines[i], t.machines[i];
    hide Next, Had, InHand, MovedOn, Left, Potential, Grounded;
    if Acts(step) && Publishes(m, step) {
      if step.Ticks? {
        PublishingCosts(universe, s.machines, i, m', s.published, InHand(m, step), Had(m, step), m'.cached.value);
      } else {
        CommandCosts(universe, s.machines, i, m', s.published, InHand(m, step), m'.cached.value);
      }
    } else {
      OneChanges(n, universe, s.machines, i, m', s.published);
      if LosesHand(s, step) {
        assert m'.cached == m.cached by { LosingKeepsPointer(s, step); }
        LosingGivesOneStart(n, universe, m, m', s.published);
      } else {
        MovingOnCostsNothing(n, universe, m, m', s.published);
      }
    }
  }

  lemma {:induction false} LosingKeepsPointer(s: System, step: Step)
    requires Enabled(s, step) && step.Loses?
    ensures Next(s, step).machines[step.i].cached == s.machines[step.i].cached
  {
  }

  lemma {:induction false} PotentialIsBounded(n: nat, universe: set<DeviceId>, machines: seq<Machine>, published: set<Snapshot>)
    ensures Potential(n, universe, machines, published)
         <= Product(|machines|, Product(|published| + 1, Weight(n, |universe|)))
  {
    hide Left, Weight, Product;
    if machines != [] {
      var k, each := |machines| - 1, Product(|published| + 1, Weight(n, |universe|));
      PotentialIsBounded(n, universe, machines[..k], published);
      LeftIsBounded(n, universe, machines[k], published);
      OneMore(k, each);
    }
  }

  lemma {:induction false} LeftIsBounded(n: nat, universe: set<DeviceId>, m: Machine, published: set<Snapshot>)
    ensures Left(n, universe, m, published) <= Product(|published| + 1, Weight(n, |universe|))
  {
    hide Weight, Worth, Ahead, Left, Product;
    var ahead := Ahead(m, published);
    LeftIsWorthAndMore(n, universe, m, published);
    WorthIsBounded(n, universe, ahead);
    AheadIsPublished(m, published);
    Capped(Worth(n, universe, ahead), |ahead|, |published|, Weight(n, |universe|));
  }

  lemma {:induction false} LeftIsWorthAndMore(n: nat, universe: set<DeviceId>, m: Machine, published: set<Snapshot>)
    ensures Left(n, universe, m, published) <= Worth(n, universe, Ahead(m, published)) + Weight(n, |universe|)
  {
    hide Weight, Worth, Ahead;
  }

  lemma {:induction false} AheadIsPublished(m: Machine, published: set<Snapshot>)
    ensures |Ahead(m, published)| <= |published|
  {
    SubsetSize(Ahead(m, published), published);
  }

  lemma {:induction false} Capped(worth: nat, k: nat, most: nat, w: nat)
    requires worth <= Product(k, w) && k <= most
    ensures worth + w <= Product(most + 1, w)
  {
    OneMore(most, w);
    assert k * w <= most * w;
  }

  /**
   Over every run, whatever is heard, missed, fetched or lost on the way and however long it
   goes on, the number of passes that publish is bounded by what the start allows, and what
   each command and each loss of a list in hand adds to it.
   */
  lemma {:induction false} PublicationsEndInEveryRun(s: System, universe: set<DeviceId>, steps: seq<Step>)
    requires Sound(s, universe) && TimelyRuns(s, steps)
    requires forall k :: 0 <= k < |steps| ==> Within(steps[k], universe)
    ensures Runs(s, steps)
    ensures var n, w := |s.machines|, Weight(|s.machines|, |universe|);
      Published(s, steps) <= n * ((|s.published| + 1) * w) + Losses(s, steps) * w + CommandsIn(steps) * (n * w)
  {
    hide Potential, Weight, Published, Losses, CommandsIn, TimelyRuns;
    RunPays(s, universe, steps);
    PotentialIsBounded(|s.machines|, universe, s.machines, s.published);
  }

  lemma {:induction false} RunPays(s: System, universe: set<DeviceId>, steps: seq<Step>)
    requires Sound(s, universe) && TimelyRuns(s, steps)
    requires forall k :: 0 <= k < |steps| ==> Within(steps[k], universe)
    ensures Runs(s, steps)
    ensures var n, w := |s.machines|, Weight(|s.machines|, |universe|);
      Published(s, steps) <= Potential(n, universe, s.machines, s.published)
                             + Product(Losses(s, steps), w) + Product(CommandsIn(steps), Product(n, w))
    decreases |steps|
  {
    hide Sound, Enabled, Next, Potential, PassPublishes, LosesHand, Commands, Weight, Product, Within;
    var n, w := |s.machines|, Weight(|s.machines|, |universe|);
    OneMore(0, w);
    OneMore(0, Product(n, w));
    if steps != [] {
      var t, rest := Next(s, steps[0]), steps[1..];
      StepPays(s, universe, steps[0]);
      RunPays(t, universe, rest);
      OneMore(Losses(t, rest), w);
      OneMore(CommandsIn(rest), Product(n, w));
    }
  }

  // ---- a clock that is behind ----------------------------------------------------------------------

  /** Machine `i` is left out of the newest list it was pushed, which it has, and holds nothing else of that second or later. */
  predicate Behind(s: System, i: nat, q: Snapshot) {
    && i < |s.machines|
    && var m := s.machines[i];
       && NewestIn(m.store, q) && q in m.held && m.self !in IdsOf(q)
       && (m.cached.Some? ==> m.cached == Some(q) || m.cached.value.stamp < q.stamp)
  }

  function Hearing(q: Snapshot, now: nat): Answers {
    Answers(Some(q), None, None, {}, true, "", now, now)
  }

  lemma {:induction false} StaysBehind(s: System, universe: set<DeviceId>, i: nat, q: Snapshot, now: nat)
    requires Sound(s, universe) && Behind(s, i, q) && now < q.stamp
    ensures var step := Ticks(i, Hearing(q, now));
      Enabled(s, step) && PassPublishes(s, step) && Sound(Next(s, step), universe) && Behind(Next(s, step), i, q)
  {
    hide Ids, Distinct, Ticked;
    var step := Ticks(i, Hearing(q, now));
    assert MachineSound(s.machines[i], s.published, universe);
    assert Enabled(s, step) && Had(s.machines[i], step) == Some(q);
    StepLaws(s, universe, step);
    NextKeepsSound(s, universe, step);
  }

  /**
   That the clocks are not behind is needed: a machine whose clock is behind a list that leaves
   it out publishes with every pass, for as many passes as there are, and takes that list over
   again each time.
   */
  lemma {:induction false} SlowClockNeverSettles(s: System, universe: set<DeviceId>, i: nat, q: Snapshot, now: nat, n: nat)
    returns (steps: seq<Step>)
    requires Sound(s, universe) && Behind(s, i, q) && now < q.stamp
    ensures |steps| == n && (forall k :: 0 <= k < n ==> steps[k].Ticks? && steps[k].i == i)
    ensures Runs(s, steps) && Published(s, steps) == n
    decreases n
  {
    hide Sound, Behind, Enabled, Next, PassPublishes;
    if n == 0 {
      steps := [];
    } else {
      var step := Ticks(i, Hearing(q, now));
      StaysBehind(s, universe, i, q, now);
      var rest := SlowClockNeverSettles(Next(s, step), universe, i, q, now, n - 1);
      steps := [step] + rest;
      assert steps[1..] == rest;
    }
  }

  // ---- and then they agree ------------------------------------------------------------------------

  /** A pass that gets as far as the record, whose scan is not blocked, and that can have what it was pushed. */
  predicate FullPass(s: System, step: Step)
    requires Enabled(s, step)
  {
    step.Ticks? && step.a.reached && step.a.pushed.Some? && Has(s.machines[step.i].held, step.a, step.a.pushed)
  }

  /** Machine `i` makes a full pass. */
  predicate PassesIn(s: System, steps: seq<Step>, i: nat)
    requires Runs(s, steps)
    decreases |steps|
  {
    steps != [] && ((FullPass(s, steps[0]) && steps[0].i == i) || PassesIn(Next(s, steps[0]), steps[1..], i))
  }

  /** Nothing is published, by a pass or a command. */
  predicate Silent(s: System, steps: seq<Step>)
    requires Runs(s, steps)
  {
    Published(s, steps) == 0 && CommandsIn(steps) == 0
  }

  /** While nothing is published, what was delivered stays, and a full pass takes the newest list and keeps it. */
  lemma {:induction false} QuietPass(s: System, universe: set<DeviceId>, step: Step, p: Snapshot, i: nat)
    requires Sound(s, universe) && Top(s, p) && Enabled(s, step) && !PassPublishes(s, step) && !Commands(step)
    requires i < |s.machines| && p in s.machines[i].store
    ensures var t := Next(s, step);
      && Sound(t, universe) && Top(t, p) && SameSelves(s, t) && p in t.machines[i].store
      && (step.i == i && FullPass(s, step) ==> t.machines[i].cached == Some(p) && t.machines[i].self in IdsOf(p))
      && (s.machines[i].cached == Some(p) ==> t.machines[i].cached == Some(p))
  {
    hide Ids, Distinct, Ticked;
    NextKeepsSound(s, universe, step);
    var m := s.machines[step.i];
    assert MachineSound(m, s.published, universe);
    if step.Ticks? {
      assert step.i == i && step.a.pushed.Some? ==> step.a.pushed == Some(p);
      StepLaws(s, universe, step);
    }
  }

  lemma {:induction false} QuietRunReaches(s: System, universe: set<DeviceId>, steps: seq<Step>, p: Snapshot, i: nat)
    requires Sound(s, universe) && Top(s, p) && Runs(s, steps) && Silent(s, steps)
    requires i < |s.machines| && p in s.machines[i].store
    ensures |Run(s, steps).machines| == |s.machines|
    ensures var m := Run(s, steps).machines[i];
      (PassesIn(s, steps, i) ==> m.cached == Some(p) && m.self in IdsOf(p))
      && (s.machines[i].cached == Some(p) ==> m.cached == Some(p)) && m.self == s.machines[i].self
    decreases |steps|
  {
    hide Sound, Top, Enabled, Next, IdsOf, PassPublishes, FullPass;
    if steps != [] {
      QuietPass(s, universe, steps[0], p, i);
      QuietRunReaches(Next(s, steps[0]), universe, steps[1..], p, i);
    }
  }

  /**
   So in a stretch without publications, once the newest pointer was delivered to everyone,
   everyone that makes a full pass holds that list and is named by it, whatever else happens.
   */
  lemma {:induction false} QuietStretchAgrees(s: System, universe: set<DeviceId>, steps: seq<Step>, p: Snapshot)
    requires Sound(s, universe) && Top(s, p) && Runs(s, steps) && Silent(s, steps)
    requires forall i :: 0 <= i < |s.machines| ==> p in s.machines[i].store && PassesIn(s, steps, i)
    ensures AgreedOn(Run(s, steps), p)
  {
    hide Sound, Top, IdsOf, Silent, Runs, Run, PassesIn;
    SizeStays(s, steps);
    forall i | 0 <= i < |Run(s, steps).machines|
      ensures Run(s, steps).machines[i].cached == Some(p) && Run(s, steps).machines[i].self in IdsOf(p)
    {
      QuietRunReaches(s, universe, steps, p, i);
    }
  }

  lemma {:induction false} SizeStays(s: System, steps: seq<Step>)
    requires Runs(s, steps)
    ensures |Run(s, steps).machines| == |s.machines|
    decreases |steps|
  {
    hide Stepped;
    if steps != [] {
      SizeStays(Next(s, steps[0]), steps[1..]);
    }
  }
}
