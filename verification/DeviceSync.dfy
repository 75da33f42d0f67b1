/**
 The device lists of one identity as its devices really keep them. A pointer travels apart
 from the list it names. Before it reconciles, a device takes over whole whatever list a
 later pointer names, if it can have it; a list in hand that it cannot have reads as none.
 */
module DeviceSync {
  import opened Prelude
  import opened Records
  import opened Devices

  /** A publication: its stamp in seconds, the list it names, and the content id that tells it from others. */
  datatype Snapshot = Snapshot(stamp: nat, list: DeviceList, id: nat)

  /**
   `cached` is the pointer file, `store` the pointers published here or pushed here by others,
   and `held` the publications whose list objects are in the store.
   */
  datatype Machine = Machine(self: DeviceId, cached: Option<Snapshot>, store: set<Snapshot>, held: set<Snapshot>)

  datatype System = System(machines: seq<Machine>, published: set<Snapshot>)

  /**
   What one step meets: the store scan's newest pointer, the DHT's answer, the list some peer
   serves for a known manifest, the lists that can be fetched, whether the refresh gets as far
   as this record, and the particulars of what it would publish.
   */
  datatype Answers = Answers(
    pushed: Option<Snapshot>, dht: Option<Snapshot>, remote: Option<Snapshot>, fetchable: set<Snapshot>, reached: bool,
    name: string, now: nat, id: nat)

  predicate Later(p: Option<Snapshot>, local: Option<Snapshot>) {
    p.Some? && (local.None? || p.value.stamp > local.value.stamp)
  }

  /** The pointer resolved: the cached one, and only failing that a pushed one or the DHT's. */
  function Resolving(cached: Option<Snapshot>, a: Answers): Option<Snapshot> {
    if cached.Some? then cached else if a.pushed.Some? then a.pushed else a.dht
  }

  /** The list it names is in the store or can be fetched. */
  predicate Has(held: set<Snapshot>, a: Answers, p: Option<Snapshot>) {
    p.Some? && (p.value in held || p.value in a.fetchable)
  }

  /** What is fetched is imported. */
  function Keeping(held: set<Snapshot>, a: Answers, p: Option<Snapshot>): set<Snapshot> {
    if Has(held, a, p) then held + {p.value} else held
  }

  /** A refresh takes the pushed pointer if later, else the DHT's if that is, provided it gets the list. */
  function Adopted(held: set<Snapshot>, local: Option<Snapshot>, a: Answers): Option<Snapshot> {
    if !a.reached then local
    else if Later(a.pushed, local) then if Has(held, a, a.pushed) then a.pushed else local
    else if Later(a.dht, local) && Has(held, a, a.dht) then a.dht
    else local
  }

  /** The pointer after resolving and refreshing. */
  function Refreshed(m: Machine, a: Answers): Option<Snapshot> {
    var local := Resolving(m.cached, a);
    Adopted(Keeping(m.held, a, local), local, a)
  }

  function PointerOf(owner: string, p: Option<Snapshot>): Option<PointerTo<Snapshot>> {
    match p
    case None => None
    case Some(snapshot) => Some(PointerTo.Pointer(owner, "devices", snapshot, snapshot.stamp, owner))
  }

  /** That is resolving and then refreshing the `devices` record as `Records` has it. */
  lemma {:induction false} RefreshingIsSyncing(owner: string, m: Machine, a: Answers)
    ensures var pushed, dht, local := PointerOf(owner, a.pushed), PointerOf(owner, a.dht), Resolving(m.cached, a);
      var held := Keeping(m.held, a, local);
      var world := World(pushed, dht, a.reached && Has(held, a, a.pushed), a.reached && Has(held, a, a.dht));
      && Resolved(owner, "devices", PointerOf(owner, m.cached), pushed, dht)
         == (PointerOf(owner, local), PointerOf(owner, local))
      && Synced(owner, "devices", world, PointerOf(owner, local)).0 == PointerOf(owner, Refreshed(m, a))
  {
  }

  function ListOf(p: Option<Snapshot>): Option<DeviceList> {
    match p
    case None => None
    case Some(snapshot) => Some(snapshot.list)
  }

  /** A pointer whose list cannot be had reads as no list. */
  function Having(held: set<Snapshot>, a: Answers, p: Option<Snapshot>): Option<Snapshot> {
    if Has(held, a, p) then p else None
  }

  /** The machine once the pointer in hand is `local`, its list fetched if need be. */
  function Holding(m: Machine, a: Answers, local: Option<Snapshot>): Machine {
    m.(cached := local, held := Keeping(Keeping(m.held, a, Resolving(m.cached, a)), a, local))
  }

  function Publishing(m: Machine, list: DeviceList, a: Answers): Machine {
    var snapshot := Snapshot(a.now, list, a.id);
    m.(cached := Some(snapshot), store := m.store + {snapshot}, held := m.held + {snapshot})
  }

  /** One pass of the periodic task: refresh, then reconcile with what list there is. */
  function Ticked(m: Machine, a: Answers): Machine {
    var m' := Holding(m, a, Refreshed(m, a));
    var local := ListOf(Having(m'.held, a, m'.cached));
    var (list, wrote) := Reconciled(local, ListOf(a.remote), m.self, a.name, a.now);
    if wrote && list.Some? then Publishing(m', list.value, a) else m'
  }

  /** Registering at start-up, or adding another device, always publishes. */
  function Enrolled(m: Machine, a: Answers, id: DeviceId): Machine {
    var m' := Holding(m, a, Resolving(m.cached, a));
    var local := ListOf(Having(m'.held, a, m'.cached));
    Publishing(m', Added(local, ListOf(a.remote), id, a.name, a.now), a)
  }

  function Removed(m: Machine, a: Answers, id: DeviceId): Machine {
    var m' := Holding(m, a, Resolving(m.cached, a));
    var local := ListOf(Having(m'.held, a, m'.cached));
    var merged := Merged(local, ListOf(a.remote));
    Publishing(m', Saved(local, merged.(devices := Without(merged.devices, id))), a)
  }

  /** A running node: the pointer file, its store's pointers and lists, and the three ways it writes the list. */
  class Node {
    const self: DeviceId
    var cached: Option<Snapshot>
    var store: set<Snapshot>
    var held: set<Snapshot>

    constructor (self: DeviceId)
      ensures View() == Machine(self, None, {}, {})
    {
      this.self, this.cached, this.store, this.held := self, None, {}, {};
    }

    ghost function View(): Machine
      reads this
    {
      Machine(self, cached, store, held)
    }

    /** Resolves the pointer and gets its list, from the store or else from a peer; failing both there is none. */
    method Load(a: Answers) returns (list: Option<DeviceList>)
      modifies this`cached, this`held
      ensures cached == Resolving(old(cached), a)
      ensures held == Keeping(old(held), a, cached) && list == ListOf(Having(old(held), a, cached))
    {
      if cached.None? {
        cached := if a.pushed.Some? then a.pushed else a.dht;
      }
      if cached.None? {
        return None;
      }
      if cached.value !in held {
        if cached.value !in a.fetchable {
          return None;
        }
        held := held + {cached.value};
      }
      assert held == Keeping(old(held), a, cached);
      return Some(cached.value.list);
    }

    /** Takes over a later pointer once its list is fetched; a failing fetch ends the refresh. */
    method Refresh(a: Answers)
      modifies this`cached, this`held
      ensures cached == Adopted(old(held), old(cached), a)
      ensures held == if cached != old(cached) then Keeping(old(held), a, cached) else old(held)
    {
      if !a.reached {
        return;
      }
      if a.pushed.Some? && (cached.None? || a.pushed.value.stamp > cached.value.stamp) {
        if a.pushed.value in held || a.pushed.value in a.fetchable {
          held := held + {a.pushed.value};
          cached := a.pushed;
        }
        return;
      }
      if a.dht.Some? && (cached.None? || a.dht.value.stamp > cached.value.stamp) {
        if a.dht.value in held || a.dht.value in a.fetchable {
          held := held + {a.dht.value};
          cached := a.dht;
        }
      }
    }

    method Publish(list: DeviceList, a: Answers)
      modifies this
      ensures View() == Publishing(old(View()), list, a)
    {
      cached := Some(Snapshot(a.now, list, a.id));
      store := store + {cached.value};
      held := held + {cached.value};
    }

    /** The periodic task: neither a list that cannot be had nor a refresh that fails ends the pass. */
    method PeriodicPass(a: Answers)
      modifies this
      ensures View() == Ticked(old(View()), a)
    {
      hide Reconciled;
      var _ := Load(a);
      Refresh(a);
      var list := Load(a);
      var device := new Device(self, a.name);
      device.list := list;
      var wrote := device.Reconcile(ListOf(a.remote), a.now);
      if wrote && device.list.Some? {
        Publish(device.list.value, a);
      }
    }

    method AddDevice(a: Answers, id: DeviceId)
      modifies this
      ensures View() == Enrolled(old(View()), a, id)
    {
      hide Added;
      var list := Load(a);
      var device := new Device(self, a.name);
      device.list := list;
      device.AddDevice(ListOf(a.remote), id, a.name, a.now);
      Publish(device.list.value, a);
    }

    method RemoveDevice(a: Answers, id: DeviceId) returns (ok: bool)
      modifies this
      ensures ok <==> id != self
      ensures View() == if ok then Removed(old(View()), a, id) else old(View())
    {
      if id == self {
        return false;
      }
      hide Merged, Without;
      var list := Load(a);
      var device := new Device(self, a.name);
      device.list := list;
      var _ := device.RemoveDevice(ListOf(a.remote), id);
      Publish(device.list.value, a);
      return true;
    }
  }

  /** A pointer arrives without its list; a list object is evicted; the rest is what a node does. */
  datatype Step =
    | Arrives(i: nat, p: Snapshot)
    | Loses(i: nat, p: Snapshot)
    | Ticks(i: nat, a: Answers)
    | Registers(i: nat, a: Answers, id: DeviceId)
    | Removes(i: nat, a: Answers, id: DeviceId)

  predicate Acts(step: Step) {
    step.Ticks? || step.Registers? || step.Removes?
  }

  predicate NewestIn(all: set<Snapshot>, p: Snapshot) {
    p in all && forall q :: q in all ==> q.stamp <= p.stamp
  }

  /** The pointers a machine can name when it asks for lists. */
  predicate Known(local: Option<Snapshot>, a: Answers, p: Snapshot) {
    local == Some(p) || a.pushed == Some(p) || a.dht == Some(p)
  }

  /** A store scan delivers the newest pointer, or nothing when a file blocks it. */
  predicate Answerable(s: System, m: Machine, local: Option<Snapshot>, a: Answers) {
    && (a.pushed.Some? ==> NewestIn(m.store, a.pushed.value))
    && (a.dht.Some? ==> a.dht.value in s.published)
    && (a.remote.Some? ==> Known(local, a, a.remote.value))
  }

  /** The pointer in hand when a step merges. */
  function InHand(m: Machine, step: Step): Option<Snapshot>
    requires Acts(step)
  {
    if step.Ticks? then Refreshed(m, step.a) else Resolving(m.cached, step.a)
  }

  /** The publication whose list a step merges from, if there is one. */
  function Had(m: Machine, step: Step): Option<Snapshot>
    requires Acts(step)
  {
    Having(Holding(m, step.a, InHand(m, step)).held, step.a, InHand(m, step))
  }

  predicate Enabled(s: System, step: Step) {
    && step.i < |s.machines|
    && (step.Arrives? ==> step.p in s.published)
    && (Acts(step) ==> Answerable(s, s.machines[step.i], InHand(s.machines[step.i], step), step.a))
    && (step.Removes? ==> step.id != s.machines[step.i].self)
  }

  /** What the step makes of the machine that takes it. */
  function Stepped(m: Machine, step: Step): Machine {
    match step
    case Arrives(_, p) => m.(store := m.store + {p})
    case Loses(_, p) => m.(held := m.held - {p})
    case Ticks(_, a) => Ticked(m, a)
    case Registers(_, a, id) => Enrolled(m, a, id)
    case Removes(_, a, id) => Removed(m, a, id)
  }

  /** What a machine then has cached is what it adopted or has just published. */
  function Next(s: System, step: Step): System
    requires Enabled(s, step)
  {
    var m := Stepped(s.machines[step.i], step);
    System(s.machines[step.i := m], s.published + if m.cached.Some? then {m.cached.value} else {})
  }

  predicate Runs(s: System, steps: seq<Step>)
    decreases |steps|
  {
    steps == [] || (Enabled(s, steps[0]) && Runs(Next(s, steps[0]), steps[1..]))
  }

  function Run(s: System, steps: seq<Step>): System
    requires Runs(s, steps)
    decreases |steps|
  {
    if steps == [] then s else Run(Next(s, steps[0]), steps[1..])
  }

  // ---- every run -------------------------------------------------------------------------------

  function IdsOf(p: Snapshot): set<DeviceId> {
    Ids(p.list.devices)
  }

  /** What a machine has was published, and published lists are duplicate-free and name nothing outside `universe`. */
  predicate Sound(s: System, universe: set<DeviceId>) {
    && (forall i :: 0 <= i < |s.machines| ==> MachineSound(s.machines[i], s.published, universe))
    && (forall p :: p in s.published ==> Distinct(p.list.devices) && IdsOf(p) <= universe)
  }

  predicate MachineSound(m: Machine, published: set<Snapshot>, universe: set<DeviceId>) {
    && m.self in universe && m.store <= published && m.held <= published
    && (m.cached.Some? ==> m.cached.value in published)
  }

  predicate Within(step: Step, universe: set<DeviceId>) {
    step.Registers? ==> step.id in universe
  }

  lemma {:induction false} InHandIsPublished(s: System, universe: set<DeviceId>, step: Step)
    requires Sound(s, universe) && Enabled(s, step) && Acts(step)
    ensures var m := s.machines[step.i];
      var pointer, local, remote := InHand(m, step), Had(m, step), step.a.remote;
      && (pointer.Some? ==> pointer.value in s.published)
      && (local.Some? ==> local == pointer) && (remote.Some? ==> remote.value in s.published)
      && WellFormed(ListOf(local)) && ListIds(ListOf(local)) <= universe && ListIds(ListOf(remote)) <= universe
      && Holding(m, step.a, pointer).held <= s.published
  {
    hide Ids, Distinct;
    assert MachineSound(s.machines[step.i], s.published, universe);
  }

  /** The ids a step merges in besides those of the list it has. */
  function JoinedIds(m: Machine, step: Step): set<DeviceId>
    requires Acts(step)
  {
    ListIds(ListOf(step.a.remote)) + if step.Registers? then {step.id} else if step.Ticks? then {m.self} else {}
  }

  /** A pass over a list it has publishes nothing if and only if that names all it meets. */
  predicate Publishes(m: Machine, step: Step)
    requires Acts(step)
  {
    !step.Ticks? || Had(m, step).None? || !(JoinedIds(m, step) <= IdsOf(Had(m, step).value))
  }

  /** What a step leaves behind, whatever it is answered: the list it has with what is joined to it. */
  lemma {:induction false} StepLaws(s: System, universe: set<DeviceId>, step: Step)
    requires Sound(s, universe) && Enabled(s, step) && Within(step, universe) && Acts(step)
    ensures var before := s.machines[step.i]; var local := Had(before, step);
      var m := Stepped(before, step);
      && m.self == before.self && m.cached.Some? && Distinct(m.cached.value.list.devices)
      && IdsOf(m.cached.value) == ListIds(ListOf(local)) + JoinedIds(before, step) - (if step.Removes? then {step.id} else {})
      && IdsOf(m.cached.value) <= universe && m.cached.value in m.held && before.store <= m.store
      && if Publishes(before, step) then
           && m == Publishing(Holding(before, step.a, InHand(before, step)), m.cached.value.list, step.a)
           && m.cached.value.stamp == step.a.now && m.cached.value.id == step.a.id
           && m.cached.value.list.version == (if local.Some? then local.value.list.version + 1 else 1)
         else m == Holding(before, step.a, local) && local.Some?
  {
    hide Ids, Distinct, Resolving, Refreshed, Reconciled, Added, Merged, Without;
    var m := s.machines[step.i];
    var local, remote := ListOf(Had(m, step)), ListOf(step.a.remote);
    InHandIsPublished(s, universe, step);
    assert MachineSound(m, s.published, universe);
    hide Sound, Enabled;
    if step.Ticks? {
      ReconcileLaws(local, remote, m.self, step.a.name, step.a.now);
      WrittenVersion(local, remote, m.self, step.a.name, step.a.now);
    } else if step.Registers? {
      AddLaws(local, remote, step.id, step.a.name, step.a.now);
      AddedVersion(local, remote, step.id, step.a.name, step.a.now);
    } else {
      MergedLaws(local, remote);
      WithoutLaws(Merged(local, remote).devices, step.id);
    }
  }

  lemma {:induction false} AddedVersion(
    local: Option<DeviceList>, remote: Option<DeviceList>, id: DeviceId, name: string, now: nat)
    ensures Added(local, remote, id, name, now).version == if local.Some? then local.value.version + 1 else 1
  {
    hide Merged;
  }

  lemma {:induction false} WrittenVersion(
    local: Option<DeviceList>, remote: Option<DeviceList>, self: DeviceId, name: string, now: nat)
    ensures var (list, wrote) := Reconciled(local, remote, self, name, now);
      wrote ==> list.Some? && list.value.version == if local.Some? then local.value.version + 1 else 1
  {
    hide Wanted, SameIds;
  }

  predicate SameSelves(s: System, t: System) {
    |t.machines| == |s.machines| && forall i :: 0 <= i < |s.machines| ==> t.machines[i].self == s.machines[i].self
  }

  lemma {:induction false} NextKeepsSound(s: System, universe: set<DeviceId>, step: Step)
    requires Sound(s, universe) && Enabled(s, step) && Within(step, universe)
    ensures Sound(Next(s, step), universe) && SameSelves(s, Next(s, step)) && s.published <= Next(s, step).published
  {
    hide Ids, Distinct, Ticked, Enrolled, Removed, Resolving, Refreshed, IdsOf;
    assert MachineSound(s.machines[step.i], s.published, universe);
    var m := Stepped(s.machines[step.i], step);
    if Acts(step) {
      InHandIsPublished(s, universe, step);
      StepLaws(s, universe, step);
    }
    hide Enabled, Stepped, Holding, Had, Publishes;
    assert MachineSound(m, Next(s, step).published, universe);
  }

  /** Over every run whatever a machine holds or publishes is duplicate-free and made up by nobody. */
  lemma {:induction false} RunKeepsSound(s: System, universe: set<DeviceId>, steps: seq<Step>)
    requires Sound(s, universe) && Runs(s, steps) && forall k :: 0 <= k < |steps| ==> Within(steps[k], universe)
    ensures Sound(Run(s, steps), universe) && SameSelves(s, Run(s, steps)) && s.published <= Run(s, steps).published
    decreases |steps|
  {
    hide Sound, Enabled, Next, Within;
    if steps != [] {
      NextKeepsSound(s, universe, steps[0]);
      RunKeepsSound(Next(s, steps[0]), universe, steps[1..]);
    }
  }

  // ---- one pass --------------------------------------------------------------------------------

  lemma {:induction false} RefreshedIsLater(m: Machine, a: Answers)
    ensures var local := Refreshed(m, a);
      && (m.cached.Some? && local != m.cached ==> Later(local, m.cached) && Has(m.held, a, local))
      && (m.cached.Some? ==> local.Some?)
  {
  }

  /**
   A pass whose clock is not behind its pointer changes nothing if and only if the list in hand
   is held, nothing later can be taken over, and everything the pass meets is already named.
   */
  lemma {:induction false} QuietIff(s: System, universe: set<DeviceId>, i: nat, a: Answers)
    requires Sound(s, universe) && Enabled(s, Ticks(i, a))
    requires var local := Refreshed(s.machines[i], a); local.Some? ==> local.value.stamp <= a.now
    ensures var m := s.machines[i];
      Next(s, Ticks(i, a)) == s
      <==> m.cached.Some? && m.cached.value in m.held && Refreshed(m, a) == m.cached
           && m.self in IdsOf(m.cached.value) && ListIds(ListOf(a.remote)) <= IdsOf(m.cached.value)
  {
    hide Ids, Distinct, Ticked, Refreshed;
    var m, step := s.machines[i], Ticks(i, a);
    StepLaws(s, universe, step);
    assert MachineSound(m, s.published, universe);
    RefreshedIsLater(m, a);
    var after := Stepped(m, step);
    hide IdsOf, Sound, Enabled, Stepped;
    assert Next(s, step).machines[i] == after;
    assert s.machines[i := m] == s.machines;
    if m.cached.Some? && m.cached.value in m.held {
      assert m.held + {m.cached.value} == m.held;
    }
    if Next(s, step) == s {
      assert after == m;
    }
  }

  /**
   A pass loses an id if and only if it cannot have the list in hand, or takes over a later
   one that does not name it; and no served list names it, and it is not the machine's own.
   */
  lemma {:induction false} LosesIff(s: System, universe: set<DeviceId>, i: nat, a: Answers, id: DeviceId)
    requires Sound(s, universe) && Enabled(s, Ticks(i, a))
    requires s.machines[i].cached.Some? && id in IdsOf(s.machines[i].cached.value)
    ensures var m := s.machines[i]; var after := Next(s, Ticks(i, a)).machines[i];
      && after.cached.Some?
      && (id !in IdsOf(after.cached.value)
          <==> && (Had(m, Ticks(i, a)).None? || (Refreshed(m, a) != m.cached && id !in ListIds(ListOf(Refreshed(m, a)))))
               && id !in ListIds(ListOf(a.remote)) && id != m.self)
  {
    hide Ids, Distinct, Ticked, Refreshed, Resolving;
    StepLaws(s, universe, Ticks(i, a));
  }

  /**
   Nobody stays unknown: a machine whose list does not name it, or that has none, publishes in
   the same pass one that names it and all it had or was served, under the next version.
   */
  lemma {:induction false} UnnamedMachineSpeaksUp(s: System, universe: set<DeviceId>, i: nat, a: Answers)
    requires Sound(s, universe) && Enabled(s, Ticks(i, a))
    requires s.machines[i].self !in ListIds(ListOf(Had(s.machines[i], Ticks(i, a))))
    ensures var local, t := Had(s.machines[i], Ticks(i, a)), Next(s, Ticks(i, a));
      && t.machines[i].cached.Some?
      && var p := t.machines[i].cached.value;
         && p in t.published && p.stamp == a.now
         && p.list.version == (if local.Some? then local.value.list.version + 1 else 1)
         && IdsOf(p) == ListIds(ListOf(local)) + ListIds(ListOf(a.remote)) + {s.machines[i].self}
  {
    hide Ids, Distinct, Ticked, Refreshed, Resolving;
    StepLaws(s, universe, Ticks(i, a));
  }

  /** And whoever has that pointer delivered and its list within reach names all it does after the next pass. */
  lemma {:induction false} LaterListIsTakenWhole(s: System, universe: set<DeviceId>, i: nat, a: Answers, p: Snapshot)
    requires Sound(s, universe) && Enabled(s, Ticks(i, a)) && a.reached && Has(s.machines[i].held, a, Some(p))
    requires a.pushed == Some(p) && s.machines[i].cached.Some? && Later(a.pushed, s.machines[i].cached)
    ensures var after := Next(s, Ticks(i, a)).machines[i];
      && after.cached.Some? && IdsOf(p) <= IdsOf(after.cached.value)
      && after.cached.value.list.version >= p.list.version
  {
    hide Ids, Distinct, Ticked;
    StepLaws(s, universe, Ticks(i, a));
  }

  /**
   A removal is published like any list, and a machine that takes it over names the removed one
   again if and only if it is the removed one, still running, or is served a list that names it.
   */
  lemma {:induction false} RemovalHeardIff(
    s: System, universe: set<DeviceId>, i: nat, a: Answers, id: DeviceId, j: nat, b: Answers)
    requires Sound(s, universe) && Enabled(s, Removes(i, a, id))
    requires var t := Next(s, Removes(i, a, id));
      Enabled(t, Ticks(j, b)) && Had(t.machines[j], Ticks(j, b)) == t.machines[i].cached
    ensures var t := Next(s, Removes(i, a, id));
      && t.machines[i].cached.Some? && t.machines[i].cached.value in t.published && id !in IdsOf(t.machines[i].cached.value)
      && var after := Next(t, Ticks(j, b)).machines[j].cached;
         && after.Some?
         && (id in IdsOf(after.value) <==> t.machines[j].self == id || id in ListIds(ListOf(b.remote)))
  {
    hide Ids, Distinct, Ticked, Removed, Resolving, Refreshed;
    StepLaws(s, universe, Removes(i, a, id));
    NextKeepsSound(s, universe, Removes(i, a, id));
    var t := Next(s, Removes(i, a, id));
    hide Sound;
    StepLaws(t, universe, Ticks(j, b));
  }

  // ---- what a machine names, exactly -------------------------------------------------------------

  function Named(m: Machine): set<DeviceId> {
    ListIds(ListOf(m.cached))
  }

  /** The step makes the machine name `id`: by joining it, or by taking over a list that names it. */
  predicate Brings(m: Machine, step: Step, id: DeviceId) {
    && Acts(step) && !(step.Removes? && step.id == id)
    && (id in JoinedIds(m, step) || (Had(m, step) != m.cached && id in ListIds(ListOf(Had(m, step)))))
  }

  /** The step does not, and removes `id` or goes on from another list than the one in hand, or from none. */
  predicate Drops(m: Machine, step: Step, id: DeviceId) {
    Acts(step) && !Brings(m, step, id) && (Had(m, step) != m.cached || (step.Removes? && step.id == id))
  }

  lemma {:induction false} StepNamesIff(s: System, universe: set<DeviceId>, step: Step, id: DeviceId)
    requires Sound(s, universe) && Enabled(s, step) && Within(step, universe)
    ensures var m := s.machines[step.i];
      id in Named(Next(s, step).machines[step.i]) <==> Brings(m, step, id) || (id in Named(m) && !Drops(m, step, id))
  {
    hide Ids, Distinct, Ticked, Enrolled, Removed, Refreshed, Resolving, Had, JoinedIds;
    if Acts(step) {
      StepLaws(s, universe, step);
    }
  }

  /** No step of machine `i` drops `id`. */
  predicate NeverDropped(s: System, steps: seq<Step>, i: nat, id: DeviceId)
    requires Runs(s, steps)
    decreases |steps|
  {
    steps == [] || (!(steps[0].i == i && Drops(s.machines[steps[0].i], steps[0], id))
                    && NeverDropped(Next(s, steps[0]), steps[1..], i, id))
  }

  /** Some step of machine `i` brings `id` and no later one drops it. */
  predicate BroughtAndKept(s: System, steps: seq<Step>, i: nat, id: DeviceId)
    requires Runs(s, steps)
    decreases |steps|
  {
    steps != [] && var t := Next(s, steps[0]);
    || (steps[0].i == i && Brings(s.machines[steps[0].i], steps[0], id) && NeverDropped(t, steps[1..], i, id))
    || BroughtAndKept(t, steps[1..], i, id)
  }

  /**
   Over every run a machine names an id if and only if a step of its own brought it and none
   since dropped it, or it named it at first and none dropped it.
   */
  lemma {:induction false} NamedIff(s: System, universe: set<DeviceId>, steps: seq<Step>, i: nat, id: DeviceId)
    requires Sound(s, universe) && Runs(s, steps) && i < |s.machines|
    requires forall k :: 0 <= k < |steps| ==> Within(steps[k], universe)
    ensures |Run(s, steps).machines| == |s.machines|
    ensures id in Named(Run(s, steps).machines[i])
       <==> BroughtAndKept(s, steps, i, id) || (id in Named(s.machines[i]) && NeverDropped(s, steps, i, id))
    decreases |steps|
  {
    hide Sound, Within, Brings, Drops, Named, Stepped;
    if steps != [] {
      NextKeepsSound(s, universe, steps[0]);
      StepNamesIff(s, universe, steps[0], id);
      NamedIff(Next(s, steps[0]), universe, steps[1..], i, id);
    }
  }

  /**
   Over every run after machine `i` removes `id` it names it again if and only if a step of its
   own since brought it, by a list served or taken over or by adding it, and none dropped it.
   */
  lemma {:induction false} RemovedIsBackIff(
    s: System, universe: set<DeviceId>, i: nat, a: Answers, id: DeviceId, steps: seq<Step>)
    requires Sound(s, universe) && Enabled(s, Removes(i, a, id)) && Runs(Next(s, Removes(i, a, id)), steps)
    requires forall k :: 0 <= k < |steps| ==> Within(steps[k], universe)
    ensures var t := Next(s, Removes(i, a, id));
      && |Run(t, steps).machines| == |s.machines|
      && (id in Named(Run(t, steps).machines[i]) <==> BroughtAndKept(t, steps, i, id))
  {
    var step := Removes(i, a, id);
    assert Within(step, universe);
    hide Sound, Within, Drops, Named, Stepped, Runs, Run;
    NextKeepsSound(s, universe, step);
    StepNamesIff(s, universe, step, id);
    assert !Brings(s.machines[i], step, id) && Drops(s.machines[i], step, id) by { RemovingDrops(s.machines[i], step); }
    NamedIff(Next(s, step), universe, steps, i, id);
  }

  lemma {:induction false} RemovingDrops(m: Machine, step: Step)
    requires step.Removes?
    ensures !Brings(m, step, step.id) && Drops(m, step, step.id)
  {
  }
}
