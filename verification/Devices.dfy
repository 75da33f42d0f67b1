/**
 The device list of one identity, kept on every device separately and merged by
 union. Reconciling must converge without writing for ever.
 */
module Devices {
  import opened Prelude

  type DeviceId = string

  datatype DeviceEntry = DeviceEntry(id: DeviceId, name: string, addedAt: Option<nat>)

  datatype DeviceList = DeviceList(devices: seq<DeviceEntry>, version: nat)

  function Ids(devices: seq<DeviceEntry>): (ids: set<DeviceId>)
    ensures forall d :: d in ids <==> exists i :: 0 <= i < |devices| && devices[i].id == d
  {
    set i | 0 <= i < |devices| :: devices[i].id
  }

  function ListIds(list: Option<DeviceList>): set<DeviceId> {
    if list.Some? then Ids(list.value.devices) else {}
  }

  predicate Distinct(devices: seq<DeviceEntry>) {
    forall i, j :: 0 <= i < j < |devices| ==> devices[i].id != devices[j].id
  }

  predicate Lists(devices: seq<DeviceEntry>, id: DeviceId) {
    exists i :: 0 <= i < |devices| && devices[i].id == id
  }

  // ---- merging --------------------------------------------------------------------------

  /** The local entries, then each remote entry whose id is not there yet. */
  function Union(local: seq<DeviceEntry>, remote: seq<DeviceEntry>): seq<DeviceEntry>
    decreases |remote|
  {
    if remote == [] then local
    else Union(if Lists(local, remote[0].id) then local else local + [remote[0]], remote[1..])
  }

  function Merged(local: Option<DeviceList>, remote: Option<DeviceList>): DeviceList {
    var base := if local.Some? then local.value else DeviceList([], 0);
    if remote.None? then base
    else
      DeviceList(Union(base.devices, remote.value.devices),
                 if base.version < remote.value.version then remote.value.version else base.version)
  }

  /** Saving numbers the list after the one it replaces, whatever version it was merged to. */
  function Saved(local: Option<DeviceList>, list: DeviceList): DeviceList {
    list.(version := if local.Some? then local.value.version + 1 else 1)
  }

  function Position(devices: seq<DeviceEntry>, id: DeviceId): (i: nat)
    ensures i <= |devices|
    ensures i < |devices| <==> Lists(devices, id)
    ensures i < |devices| ==> devices[i].id == id
    ensures forall j :: 0 <= j < i ==> devices[j].id != id
  {
    if devices == [] || devices[0].id == id then 0 else 1 + Position(devices[1..], id)
  }

  function Registered(devices: seq<DeviceEntry>, id: DeviceId, name: string, now: nat): seq<DeviceEntry> {
    var i := Position(devices, id);
    if i == |devices| then devices + [DeviceEntry(id, name, Some(now))]
    else devices[i := DeviceEntry(id, name, if devices[i].addedAt.Some? then devices[i].addedAt else Some(now))]
  }

  function Added(local: Option<DeviceList>, remote: Option<DeviceList>, id: DeviceId, name: string, now: nat): DeviceList {
    var merged := Merged(local, remote);
    Saved(local, merged.(devices := Registered(merged.devices, id, name, now)))
  }

  function Without(devices: seq<DeviceEntry>, id: DeviceId): seq<DeviceEntry> {
    if devices == [] then []
    else (if devices[0].id == id then [] else [devices[0]]) + Without(devices[1..], id)
  }

  function Wanted(local: Option<DeviceList>, remote: Option<DeviceList>, self: DeviceId, name: string, now: nat): DeviceList {
    var merged := Merged(local, remote);
    if Lists(merged.devices, self) then merged
    else merged.(devices := merged.devices + [DeviceEntry(self, name, Some(now))])
  }

  function IdSeq(devices: seq<DeviceEntry>): seq<DeviceId> {
    seq(|devices|, i requires 0 <= i < |devices| => devices[i].id)
  }

  /** Sorted comparison of the id vectors: equal as multisets. */
  predicate SameIds(a: DeviceList, b: DeviceList) {
    multiset(IdSeq(a.devices)) == multiset(IdSeq(b.devices))
  }

  /** The local list after reconciling, and whether a new snapshot was written. */
  function Reconciled(local: Option<DeviceList>, remote: Option<DeviceList>, self: DeviceId, name: string, now: nat)
    : (Option<DeviceList>, bool)
  {
    var wanted := Wanted(local, remote, self, name, now);
    if local.Some? && SameIds(local.value, wanted) then (local, false)
    else (Some(Saved(local, wanted)), true)
  }

  /** The k-th answer is a list no other outranks, and every earlier one ranks below it. */
  predicate FirstBest(answers: seq<Option<DeviceList>>, k: nat) {
    && k < |answers| && answers[k].Some?
    && (forall i :: 0 <= i < |answers| && answers[i].Some? ==> answers[i].value.version <= answers[k].value.version)
    && (forall i :: 0 <= i < k && answers[i].Some? ==> answers[i].value.version < answers[k].value.version)
  }

  function AskedFor<M, P>(manifest: M, peers: seq<P>, ask: (P, M) -> Option<DeviceList>): seq<Option<DeviceList>> {
    if peers == [] then [] else [ask(peers[0], manifest)] + AskedFor(manifest, peers[1..], ask)
  }

  /** What the peers answer, manifest by manifest. */
  function Asked<M, P>(manifests: seq<M>, peers: seq<P>, ask: (P, M) -> Option<DeviceList>): seq<Option<DeviceList>> {
    if manifests == [] then [] else AskedFor(manifests[0], peers, ask) + Asked(manifests[1..], peers, ask)
  }

  /** The list kept is the first best answer, and there is none only if nobody served any. */
  predicate IsBest(answers: seq<Option<DeviceList>>, best: Option<DeviceList>) {
    && (best.None? <==> forall i :: 0 <= i < |answers| ==> answers[i].None?)
    && (best.Some? ==> exists k :: 0 <= k < |answers| && answers[k] == best && FirstBest(answers, k))
  }

  lemma {:induction false} BestExtends(answers: seq<Option<DeviceList>>, best: Option<DeviceList>, next: Option<DeviceList>)
    requires IsBest(answers, best)
    ensures IsBest(answers + [next],
                   if next.Some? && (best.None? || next.value.version > best.value.version) then next else best)
  {
    var more := answers + [next];
    if next.Some? && (best.None? || next.value.version > best.value.version) {
      assert more[|answers|] == next && FirstBest(more, |answers|);
    } else if best.Some? {
      var k :| 0 <= k < |answers| && answers[k] == best && FirstBest(answers, k);
      assert more[k] == best && FirstBest(more, k);
    }
  }

  lemma {:induction false} AskedForIff<M, P>(
    manifest: M, peers: seq<P>, ask: (P, M) -> Option<DeviceList>, list: Option<DeviceList>)
    ensures list in AskedFor(manifest, peers, ask) <==> exists p :: p in peers && ask(p, manifest) == list
    decreases |peers|
  {
    if peers != [] {
      AskedForIff(manifest, peers[1..], ask, list);
      assert peers == [peers[0]] + peers[1..];
    }
  }

  /** What is served was asked for: exactly the lists the peers have for the known manifests. */
  lemma {:induction false} AskedIff<M, P>(
    manifests: seq<M>, peers: seq<P>, ask: (P, M) -> Option<DeviceList>, list: Option<DeviceList>)
    ensures list in Asked(manifests, peers, ask)
       <==> exists m, p :: m in manifests && p in peers && ask(p, m) == list
    decreases |manifests|
  {
    if manifests != [] {
      AskedForIff(manifests[0], peers, ask, list);
      AskedIff(manifests[1..], peers, ask, list);
      assert manifests == [manifests[0]] + manifests[1..];
    }
  }

  /** One device: its identity on the network and its own view of the list. */
  class Device {
    const self: DeviceId
    const name: string
    var list: Option<DeviceList>

    constructor (self: DeviceId, name: string)
      ensures this.self == self && this.name == name && list == None
    {
      this.self, this.name, this.list := self, name, None;
    }

    /** The best so far once every peer has been asked for one manifest. */
    static method AskPeers<M, P>(
      manifest: M, peers: seq<P>, ask: (P, M) -> Option<DeviceList>, ghost got: seq<Option<DeviceList>>,
      sofar: Option<DeviceList>)
      returns (best: Option<DeviceList>)
      requires IsBest(got, sofar)
      ensures IsBest(got + AskedFor(manifest, peers, ask), best)
    {
      hide IsBest, FirstBest;
      best := sofar;
      ghost var all := got;
      for j := 0 to |peers|
        invariant all + AskedFor(manifest, peers[j..], ask) == got + AskedFor(manifest, peers, ask)
        invariant IsBest(all, best)
      {
        assert peers[j..][1..] == peers[j + 1..];
        var list := ask(peers[j], manifest);
        BestExtends(all, best, list);
        Assoc(all, [list], AskedFor(manifest, peers[j + 1..], ask));
        all := all + [list];
        if list.Some? && (best.None? || list.value.version > best.value.version) {
          best := list;
        }
      }
      assert all + [] == all;
    }

    /** Every peer is asked for every known manifest; of what is served, the first of the highest-versioned. */
    static method FreshestDeviceList<M, P>(manifests: seq<M>, peers: seq<P>, ask: (P, M) -> Option<DeviceList>)
      returns (best: Option<DeviceList>)
      ensures IsBest(Asked(manifests, peers, ask), best)
    {
      best := None;
      ghost var got := [];
      assert IsBest(got, best);
      hide IsBest, AskedFor;
      for i := 0 to |manifests|
        invariant got + Asked(manifests[i..], peers, ask) == Asked(manifests, peers, ask)
        invariant IsBest(got, best)
      {
        assert manifests[i..][1..] == manifests[i + 1..];
        best := AskPeers(manifests[i], peers, ask, got, best);
        Assoc(got, AskedFor(manifests[i], peers, ask), Asked(manifests[i + 1..], peers, ask));
        got := got + AskedFor(manifests[i], peers, ask);
      }
      assert got + [] == got;
    }

    method LoadMerged(remote: Option<DeviceList>) returns (merged: DeviceList)
      ensures merged == Merged(list, remote)
    {
      merged := if list.Some? then list.value else DeviceList([], 0);
      if remote.Some? {
        var localVersion := merged.version;
        for i := 0 to |remote.value.devices|
          invariant merged.version == localVersion
          invariant Union(merged.devices, remote.value.devices[i..])
                 == Union(if list.Some? then list.value.devices else [], remote.value.devices)
        {
          assert remote.value.devices[i..][1..] == remote.value.devices[i + 1..];
          if !Lists(merged.devices, remote.value.devices[i].id) {
            merged := merged.(devices := merged.devices + [remote.value.devices[i]]);
          }
        }
        merged := merged.(version := if localVersion < remote.value.version then remote.value.version else localVersion);
      }
    }

    method Save(wanted: DeviceList)
      modifies this
      ensures list == Some(Saved(old(list), wanted))
    {
      var version := if list.Some? then list.value.version + 1 else 1;
      list := Some(wanted.(version := version));
    }

    /** Adds or refreshes one entry, keeping an existing entry's `addedAt`. */
    method AddDevice(remote: Option<DeviceList>, id: DeviceId, deviceName: string, now: nat)
      modifies this
      ensures list == Some(Added(old(list), remote, id, deviceName, now))
    {
      var merged := LoadMerged(remote);
      var i := Find(merged.devices, id);
      if i == |merged.devices| {
        merged := merged.(devices := merged.devices + [DeviceEntry(id, deviceName, Some(now))]);
      } else {
        var addedAt := if merged.devices[i].addedAt.Some? then merged.devices[i].addedAt else Some(now);
        merged := merged.(devices := merged.devices[i := DeviceEntry(id, deviceName, addedAt)]);
      }
      Save(merged);
    }

    static method Find(devices: seq<DeviceEntry>, id: DeviceId) returns (i: nat)
      ensures i == Position(devices, id)
    {
      i := 0;
      while i < |devices| && devices[i].id != id
        invariant i <= |devices|
        invariant forall j :: 0 <= j < i ==> devices[j].id != id
      {
        i := i + 1;
      }
    }

    /** Drops every entry of another device; refuses to drop this one. */
    method RemoveDevice(remote: Option<DeviceList>, id: DeviceId) returns (ok: bool)
      modifies this
      ensures ok == (id != self)
      ensures list == if !ok then old(list) else
        var merged := Merged(old(list), remote);
        Some(Saved(old(list), merged.(devices := Without(merged.devices, id))))
    {
      if id == self {
        return false;
      }
      var merged := LoadMerged(remote);
      var kept: seq<DeviceEntry> := [];
      for i := 0 to |merged.devices|
        invariant list == old(list)
        invariant kept + Without(merged.devices[i..], id) == Without(merged.devices, id)
      {
        assert merged.devices[i..][1..] == merged.devices[i + 1..];
        if merged.devices[i].id != id {
          Assoc(kept, [merged.devices[i]], Without(merged.devices[i + 1..], id));
          kept := kept + [merged.devices[i]];
        }
      }
      assert merged.devices[|merged.devices|..] == [];
      assert kept == Without(merged.devices, id);
      Save(merged.(devices := kept));
      return true;
    }

    /** Writes only when the set of ids changed. */
    method Reconcile(remote: Option<DeviceList>, now: nat) returns (wrote: bool)
      modifies this
      ensures (list, wrote) == Reconciled(old(list), remote, self, name, now)
    {
      var wanted := LoadMerged(remote);
      if !Lists(wanted.devices, self) {
        wanted := wanted.(devices := wanted.devices + [DeviceEntry(self, name, Some(now))]);
      }
      if list.Some? && SameIds(list.value, wanted) {
        return false;
      }
      Save(wanted);
      return true;
    }
  }

  // ---- what merging gives -----------------------------------------------------------------

  lemma {:induction false} UnionLaws(local: seq<DeviceEntry>, remote: seq<DeviceEntry>)
    requires Distinct(local)
    ensures Distinct(Union(local, remote))
    ensures Ids(Union(local, remote)) == Ids(local) + Ids(remote)
    ensures local <= Union(local, remote)
    decreases |remote|
  {
    hide Ids, Distinct, Lists;
    if remote == [] {
      IdsSmall(DeviceEntry("", "", None));
    } else {
      var next := if Lists(local, remote[0].id) then local else local + [remote[0]];
      UnionStep(local, remote[0]);
      UnionLaws(next, remote[1..]);
      assert remote == [remote[0]] + remote[1..];
      IdsAppend([remote[0]], remote[1..]);
      IdsSmall(remote[0]);
    }
  }

  lemma {:induction false} UnionStep(local: seq<DeviceEntry>, e: DeviceEntry)
    requires Distinct(local)
    ensures var next := if Lists(local, e.id) then local else local + [e];
      Distinct(next) && Ids(next) == Ids(local) + {e.id} && local <= next
  {
    IdsAppend(local, [e]);
    IdsSmall(e);
    assert Lists(local, e.id) <==> e.id in Ids(local);
  }

  lemma {:induction false} IdsSmall(e: DeviceEntry)
    ensures Ids([]) == {} && Ids([e]) == {e.id}
  {
    assert [e][0].id == e.id;
  }

  lemma {:induction false} IdsAppend(a: seq<DeviceEntry>, b: seq<DeviceEntry>)
    ensures Ids(a + b) == Ids(a) + Ids(b)
  {
    forall d | d in Ids(a) + Ids(b) ensures d in Ids(a + b) {
      if d in Ids(a) {
        var i :| 0 <= i < |a| && a[i].id == d;
        assert (a + b)[i].id == d;
      } else {
        var i :| 0 <= i < |b| && b[i].id == d;
        assert (a + b)[|a| + i].id == d;
      }
    }
  }

  predicate WellFormed(list: Option<DeviceList>) {
    list.Some? ==> Distinct(list.value.devices)
  }

  lemma {:induction false} MergedLaws(local: Option<DeviceList>, remote: Option<DeviceList>)
    requires WellFormed(local)
    ensures var merged := Merged(local, remote).devices;
      && Distinct(merged) && Ids(merged) == ListIds(local) + ListIds(remote)
      && (local.Some? ==> local.value.devices <= merged)
  {
    hide Union;
    IdsSmall(DeviceEntry("", "", None));
    if remote.Some? {
      UnionLaws(if local.Some? then local.value.devices else [], remote.value.devices);
    }
  }

  /** The merged-and-registered list: distinct, local entries first and untouched, ids the union. */
  lemma {:induction false} WantedLaws(
    local: Option<DeviceList>, remote: Option<DeviceList>, self: DeviceId, name: string, now: nat)
    requires WellFormed(local)
    ensures var wanted := Wanted(local, remote, self, name, now);
      && Distinct(wanted.devices)
      && Ids(wanted.devices) == ListIds(local) + ListIds(remote) + {self}
      && (local.Some? ==> local.value.devices <= wanted.devices)
  {
    hide Ids, Union;
    MergedLaws(local, remote);
    var merged := Merged(local, remote).devices;
    IdsAppend(merged, [DeviceEntry(self, name, Some(now))]);
    IdsSmall(DeviceEntry(self, name, Some(now)));
    assert Lists(merged, self) ==> self in Ids(merged);
  }

  lemma {:induction false} SameIdsIffSameSet(a: DeviceList, b: DeviceList)
    requires Distinct(a.devices) && Distinct(b.devices) && a.devices <= b.devices
    ensures SameIds(a, b) <==> Ids(a.devices) == Ids(b.devices)
  {
    var n := |a.devices|;
    if n < |b.devices| {
      var extra := b.devices[n];
      assert extra.id in Ids(b.devices);
      assert |multiset(IdSeq(a.devices))| == n && |multiset(IdSeq(b.devices))| == |b.devices|;
      assert forall i :: 0 <= i < n ==> a.devices[i] == b.devices[i] && b.devices[i].id != extra.id;
    } else {
      assert a.devices == b.devices;
    }
  }

  /**
   Reconciling never loses an id or touches a local entry, knows exactly the
   union afterwards, and writes if and only if that union (with this device) has
   something new, or nothing was ever saved.
   */
  lemma {:induction false} ReconcileLaws(
    local: Option<DeviceList>, remote: Option<DeviceList>, self: DeviceId, name: string, now: nat)
    requires WellFormed(local)
    ensures var (list, wrote) := Reconciled(local, remote, self, name, now);
      && list.Some? && WellFormed(list)
      && ListIds(list) == ListIds(local) + ListIds(remote) + {self}
      && (local.Some? ==> local.value.devices <= list.value.devices)
      && (wrote <==> local.None? || ListIds(local) != ListIds(list))
      && (!wrote ==> list == local)
  {
    WantedLaws(local, remote, self, name, now);
    var wanted := Wanted(local, remote, self, name, now);
    if local.Some? {
      SameIdsIffSameSet(local.value, wanted);
    }
  }

  lemma {:induction false} SameIdsPointwise(a: seq<DeviceEntry>, b: seq<DeviceEntry>)
    requires |a| == |b| && forall i :: 0 <= i < |a| ==> a[i].id == b[i].id
    ensures Ids(a) == Ids(b)
  {
  }

  /** Adding never loses an id; entries of other devices stay as they are locally. */
  lemma {:induction false} AddLaws(
    local: Option<DeviceList>, remote: Option<DeviceList>, id: DeviceId, name: string, now: nat)
    requires WellFormed(local)
    ensures var list := Some(Added(local, remote, id, name, now));
      && WellFormed(list)
      && ListIds(list) == ListIds(local) + ListIds(remote) + {id}
      && (local.Some? ==> forall i :: 0 <= i < |local.value.devices| ==>
            && i < |list.value.devices| && list.value.devices[i].id == local.value.devices[i].id
            && (local.value.devices[i].id != id ==> list.value.devices[i] == local.value.devices[i])
            && (local.value.devices[i].addedAt.Some? ==>
                  list.value.devices[i].addedAt == local.value.devices[i].addedAt))
  {
    hide Ids, Union;
    MergedLaws(local, remote);
    var merged := Merged(local, remote).devices;
    var after := Registered(merged, id, name, now);
    IdsAppend(merged, [DeviceEntry(id, name, Some(now))]);
    IdsSmall(DeviceEntry(id, name, Some(now)));
    if Position(merged, id) < |merged| {
      SameIdsPointwise(merged, after);
      assert merged[Position(merged, id)].id in Ids(merged);
    }
  }

  /** A removed device is gone, and comes back with the next merge if and only if the list merged in names it. */
  lemma {:induction false} RemovalUndoneIff(
    local: DeviceList, remote: Option<DeviceList>, id: DeviceId, self: DeviceId, name: string, now: nat)
    requires Distinct(local.devices) && id != self
    ensures id !in Ids(Without(local.devices, id))
    ensures id in ListIds(Reconciled(Some(local.(devices := Without(local.devices, id))), remote, self, name, now).0)
       <==> id in ListIds(remote)
  {
    hide Ids, Reconciled;
    WithoutLaws(local.devices, id);
    ReconcileLaws(Some(local.(devices := Without(local.devices, id))), remote, self, name, now);
  }

  lemma {:induction false} WithoutLaws(devices: seq<DeviceEntry>, id: DeviceId)
    requires Distinct(devices)
    ensures Distinct(Without(devices, id))
    ensures Ids(Without(devices, id)) == Ids(devices) - {id}
  {
    if devices != [] {
      WithoutLaws(devices[1..], id);
      var head := if devices[0].id == id then [] else [devices[0]];
      IdsAppend(head, Without(devices[1..], id));
      assert devices == [devices[0]] + devices[1..];
      IdsAppend([devices[0]], devices[1..]);
      assert Ids([devices[0]]) == {devices[0].id};
      assert forall i :: 0 < i < |devices| ==> devices[1..][i - 1] == devices[i];
      assert devices[0].id !in Ids(devices[1..]);
      assert Ids([]) == {};
    }
  }
}
