/** What merging, adding, removing and reconciling make of each entry, and which list a pass works on. */
module DeviceAnswers {
  import opened Prelude
  import opened Devices
  import opened DeviceSync

  // ---- merging -----------------------------------------------------------------------------------

  /** Merging in one entry more appends it as it is, unless its id is there; merging in nothing changes nothing. */
  lemma {:induction false} UnionMeans(local: seq<DeviceEntry>, remote: seq<DeviceEntry>, e: DeviceEntry)
    ensures Union(local, []) == local
    ensures Union(local, remote + [e])
         == Union(local, remote) + if e.id in Ids(Union(local, remote)) then [] else [e]
    decreases |remote|
  {
    if remote == [] {
      assert (remote + [e])[1..] == [];
      assert local + [] == local;
      assert Lists(local, e.id) <==> e.id in Ids(local);
    } else {
      assert (remote + [e])[1..] == remote[1..] + [e];
      UnionMeans(if Lists(local, remote[0].id) then local else local + [remote[0]], remote[1..], e);
    }
  }

  /** The version of a merge is the higher of the two, and a saved list's is one above the list it replaces. */
  lemma {:induction false} VersionsMean(local: Option<DeviceList>, remote: Option<DeviceList>, list: DeviceList)
    ensures var merged := Merged(local, remote);
      var mine := match local case Some(l) => l.version case None => 0;
      var theirs := match remote case Some(r) => r.version case None => 0;
      && merged.version >= mine && merged.version >= theirs && (merged.version == mine || merged.version == theirs)
      && merged.devices == Union(match local case Some(l) => l.devices case None => [],
                                 match remote case Some(r) => r.devices case None => [])
      && Saved(local, list) == DeviceList(list.devices, mine + 1)
  {
  }

  // ---- adding and removing -----------------------------------------------------------------------

  predicate FirstOf(devices: seq<DeviceEntry>, id: DeviceId, i: int) {
    && 0 <= i < |devices| && devices[i].id == id
    && forall j :: 0 <= j < i ==> devices[j].id != id
  }

  /**
   Adding a device: its first entry in the merged list gets the name given and keeps the time
   it was added at, or there is a new last entry added now; the other entries stay as merged.
   */
  lemma {:induction false} AddingMeans(
    local: Option<DeviceList>, remote: Option<DeviceList>, id: DeviceId, name: string, now: nat, i: nat)
    ensures var merged, after := Merged(local, remote).devices, Added(local, remote, id, name, now).devices;
      && (id !in Ids(merged) ==> after == merged + [DeviceEntry(id, name, Some(now))])
      && (FirstOf(merged, id, i) ==>
            && |after| == |merged|
            && after[i].id == id && after[i].name == name
            && (merged[i].addedAt.Some? ==> after[i].addedAt == merged[i].addedAt)
            && (merged[i].addedAt.None? ==> after[i].addedAt == Some(now))
            && forall j :: 0 <= j < |merged| && j != i ==> after[j] == merged[j])
    ensures Added(local, remote, id, name, now).version == match local case Some(l) => l.version + 1 case None => 1
  {
    hide Merged;
    var merged := Merged(local, remote).devices;
    assert Lists(merged, id) <==> id in Ids(merged);
  }

  /** Removing takes out every entry of that id and keeps the others in order. */
  lemma {:induction false} RemovingMeans(devices: seq<DeviceEntry>, e: DeviceEntry, id: DeviceId)
    ensures Without([], id) == []
    ensures Without(devices + [e], id) == Without(devices, id) + if e.id == id then [] else [e]
    decreases |devices|
  {
    if devices == [] {
      assert (devices + [e])[1..] == [];
    } else {
      assert (devices + [e])[1..] == devices[1..] + [e];
      RemovingMeans(devices[1..], e, id);
    }
  }

  // ---- reconciling -------------------------------------------------------------------------------

  /**
   Reconciling writes the merged list, with an entry for this device at its end if none names it,
   under the next version; a duplicate-free list is left alone if and only if nothing was added to it.
   */
  lemma {:induction false} ReconcilingMeans(
    local: Option<DeviceList>, remote: Option<DeviceList>, self: DeviceId, name: string, now: nat)
    requires WellFormed(local)
    ensures var (after, wrote) := Reconciled(local, remote, self, name, now);
      var merged := Merged(local, remote).devices;
      var wanted := merged + if self in Ids(merged) then [] else [DeviceEntry(self, name, Some(now))];
      && (!wrote ==> local.Some? && local.value.devices == wanted && after == local)
      && (wrote ==> local.None? || |wanted| > |local.value.devices|)
      && (wrote ==> after == Some(DeviceList(wanted, match local case Some(l) => l.version + 1 case None => 1)))
  {
    hide Merged, Ids, SameIds;
    WantedLaws(local, remote, self, name, now);
    var merged := Merged(local, remote).devices;
    assert Lists(merged, self) <==> self in Ids(merged);
    assert merged + [] == merged;
    var wanted := Wanted(local, remote, self, name, now);
    if local.Some? {
      SameIdsIffSameLength(local.value, wanted);
    }
  }

  lemma {:induction false} SameIdsIffSameLength(a: DeviceList, b: DeviceList)
    requires a.devices <= b.devices
    ensures SameIds(a, b) <==> a.devices == b.devices
  {
    assert |multiset(IdSeq(a.devices))| == |a.devices| && |multiset(IdSeq(b.devices))| == |b.devices|;
    if |a.devices| == |b.devices| { assert a.devices == b.devices; }
  }

  // ---- the freshest list served ------------------------------------------------------------------

  /** Peers are asked in order, each manifest of all of them before the next manifest. */
  lemma {:induction false} AskingMeans<M, P>(
    manifests: seq<M>, more: seq<M>, peers: seq<P>, others: seq<P>, m: M, p: P, ask: (P, M) -> Option<DeviceList>)
    ensures Asked([], peers, ask) == [] && Asked([m], [p], ask) == [ask(p, m)]
    ensures Asked(manifests + more, peers, ask) == Asked(manifests, peers, ask) + Asked(more, peers, ask)
    ensures Asked([m], peers + others, ask) == Asked([m], peers, ask) + Asked([m], others, ask)
    decreases |manifests|
  {
    assert AskedFor(m, [p], ask) == [ask(p, m)] + AskedFor(m, [], ask) == [ask(p, m)];
    AskedOne(m, [p], ask);
    AskedOne(m, peers, ask);
    AskedOne(m, others, ask);
    AskedOne(m, peers + others, ask);
    AskedForAppends(m, peers, others, ask);
    if manifests == [] {
      assert manifests + more == more && [] + Asked(more, peers, ask) == Asked(more, peers, ask);
    } else {
      assert (manifests + more)[1..] == manifests[1..] + more;
      AskingMeans(manifests[1..], more, peers, others, m, p, ask);
      Assoc(AskedFor(manifests[0], peers, ask), Asked(manifests[1..], peers, ask), Asked(more, peers, ask));
    }
  }

  lemma {:induction false} AskedOne<M, P>(m: M, peers: seq<P>, ask: (P, M) -> Option<DeviceList>)
    ensures Asked([m], peers, ask) == AskedFor(m, peers, ask)
  {
    assert [m][1..] == [] && Asked([], peers, ask) == [];
    assert AskedFor(m, peers, ask) + [] == AskedFor(m, peers, ask);
  }

  lemma {:induction false} AskedForAppends<M, P>(m: M, peers: seq<P>, others: seq<P>, ask: (P, M) -> Option<DeviceList>)
    ensures AskedFor(m, peers + others, ask) == AskedFor(m, peers, ask) + AskedFor(m, others, ask)
    decreases |peers|
  {
    if peers == [] {
      assert peers + others == others;
    } else {
      assert (peers + others)[1..] == peers[1..] + others;
      AskedForAppends(m, peers[1..], others, ask);
      Assoc([ask(peers[0], m)], AskedFor(m, peers[1..], ask), AskedFor(m, others, ask));
    }
  }

  /** The list kept is some answer with no later version among them, before which all are of earlier ones. */
  lemma {:induction false} BestMeans(answers: seq<Option<DeviceList>>, best: Option<DeviceList>, i: nat)
    requires IsBest(answers, best) && i < |answers| && answers[i].Some?
    ensures best.Some? && answers[i].value.version <= best.value.version
    ensures exists k :: 0 <= k < |answers| && answers[k] == best && (answers[i].value.version == best.value.version ==> k <= i)
  {
    var k :| 0 <= k < |answers| && answers[k] == best && FirstBest(answers, k);
    assert i < k ==> answers[i].value.version < answers[k].value.version;
  }

  // ---- which list a pass works on ----------------------------------------------------------------

  /** A list can be had from the store or from a peer. */
  predicate Obtainable(held: set<Snapshot>, a: Answers, p: Option<Snapshot>) {
    p.Some? && (p.value in held || p.value in a.fetchable)
  }

  /**
   The pointer a step works on is the cached one, else one pushed, else the DHT's; and in a pass
   whose refresh gets there a later pushed one if its list can be had, or with none pushed that is
   later, a later one of the DHT if its list can be had. Its list is used if it can be had.
   */
  lemma {:induction false} InHandMeans(m: Machine, a: Answers)
    ensures var first := if m.cached.Some? then m.cached else if a.pushed.Some? then a.pushed else a.dht;
      var floor: int := if first.Some? then first.value.stamp else -1;
      var held := m.held + if Obtainable(m.held, a, first) then {first.value} else {};
      var pushed, pulled := a.pushed.Some? && a.pushed.value.stamp > floor, a.dht.Some? && a.dht.value.stamp > floor;
      && Resolving(m.cached, a) == first
      && (!a.reached || (!pushed && !pulled) ==> Refreshed(m, a) == first)
      && (a.reached && pushed ==> Refreshed(m, a) == if Obtainable(held, a, a.pushed) then a.pushed else first)
      && (a.reached && !pushed && pulled ==> Refreshed(m, a) == if Obtainable(held, a, a.dht) then a.dht else first)
      && var local := Refreshed(m, a);
         Holding(m, a, local)
         == m.(cached := local, held := held + if Obtainable(held, a, local) then {local.value} else {})
  {
  }

  /** What is had of a pointer is its list if it can be had. */
  lemma {:induction false} HavingMeans(held: set<Snapshot>, a: Answers, p: Option<Snapshot>)
    ensures Having(held, a, p) == if Obtainable(held, a, p) then p else None
    ensures ListOf(Having(held, a, p)) == if Obtainable(held, a, p) then Some(p.value.list) else None
  {
  }

  /** A publication is stamped with the clock, cached, and put into the store with its list. */
  lemma {:induction false} PublishingMeans(m: Machine, list: DeviceList, a: Answers)
    ensures var after := Publishing(m, list, a);
      && after.self == m.self && after.cached.Some?
      && after.cached.value.stamp == a.now && after.cached.value.list == list && after.cached.value.id == a.id
      && after.store == m.store + {after.cached.value} && after.held == m.held + {after.cached.value}
  {
  }

  /** Each step, from the list it has: a pass reconciles it, registering adds to it, removing takes out of it. */
  lemma {:induction false} StepsMean(m: Machine, a: Answers, id: DeviceId)
    ensures var first, refreshed := Resolving(m.cached, a), Refreshed(m, a);
      var ticking, writing := Holding(m, a, refreshed), Holding(m, a, first);
      var had, kept := ListOf(Having(ticking.held, a, refreshed)), ListOf(Having(writing.held, a, first));
      var remote := match a.remote case Some(p) => Some(p.list) case None => None;
      var (list, wrote) := Reconciled(had, remote, m.self, a.name, a.now);
      && Ticked(m, a) == (if wrote && list.Some? then Publishing(ticking, list.value, a) else ticking)
      && Enrolled(m, a, id) == Publishing(writing, Added(kept, remote, id, a.name, a.now), a)
      && Removed(m, a, id)
         == Publishing(writing, Saved(kept, Merged(kept, remote).(devices := Without(Merged(kept, remote).devices, id))), a)
  {
    hide Reconciled, Added, Saved, Merged, Without, Refreshed, Resolving;
  }
}
