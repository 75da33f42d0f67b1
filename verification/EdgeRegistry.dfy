/**
 The edge's registry of publishers: which peer serves which app subdomain, while
 its registrations stay fresh.
 */
module EdgeRegistry {
  import opened Prelude
  import opened Text

  type Peer = string
  type Identity = string
  type Subdomain = string

  const REGISTRY_TTL: nat := 90
  const MAX_TIMESTAMP_SKEW_SECS: nat := 120
  const SUBDOMAIN_LEN: nat := 32

  /** A registration claim; `genuine` says that its signature verifies for `identity`. */
  datatype Registration = Registration(appId: string, identity: Identity, timestamp: nat, genuine: bool)

  /** What the registering peer serves when asked for the manifest. */
  datatype Served = Unreachable | Bundle(digest: string, manifestOwner: Option<Identity>)

  datatype Entry = Entry(peer: Peer, identity: Identity, lastSeen: nat)

  type Entries = map<Subdomain, Entry>

  datatype Refusal = BadSignature | StaleTimestamp | NoManifest | WrongDigest | NotAManifest | NotTheOwner

  type Verdict = Result<(), Refusal>

  /** One inbound message: monotonic time, wall clock, sender, claim, and what the sender serves. */
  datatype Event = Event(at: nat, wall: nat, peer: Peer, claim: Registration, served: Served)

  function AppSubdomain(appId: string): Subdomain {
    if |appId| >= SUBDOMAIN_LEN then appId[..SUBDOMAIN_LEN] else appId
  }

  function KeyOf(e: Event): Subdomain {
    AppSubdomain(Trim(e.claim.appId))
  }

  function Skew(a: nat, b: nat): nat {
    if a < b then b - a else a - b
  }

  /** A first registration: signature, freshness, and a manifest that hashes to the id and names the signer. */
  function Validated(e: Event): Verdict {
    if !e.claim.genuine then Err(BadSignature)
    else if Skew(e.wall, e.claim.timestamp) > MAX_TIMESTAMP_SKEW_SECS then Err(StaleTimestamp)
    else
      match e.served
      case Unreachable => Err(NoManifest)
      case Bundle(digest, owner) =>
        if digest != Trim(e.claim.appId) then Err(WrongDigest)
        else if owner.None? then Err(NotAManifest)
        else if owner.value != e.claim.identity then Err(NotTheOwner)
        else Ok(())
  }

  predicate IsHeartbeat(entries: Entries, e: Event) {
    && KeyOf(e) in entries
    && entries[KeyOf(e)].peer == e.peer
    && entries[KeyOf(e)].identity == e.claim.identity
    && e.claim.genuine
  }

  /**
   A zero timestamp drops the mapping, whoever sends it and whatever its
   signature; a heartbeat refreshes; anything else must validate.
   */
  function Handled(entries: Entries, e: Event): (Entries, Verdict) {
    if e.claim.timestamp == 0 then (entries - {KeyOf(e)}, Ok(()))
    else
      var verdict := if IsHeartbeat(entries, e) then Ok(()) else Validated(e);
      if verdict.Ok? then (entries[KeyOf(e) := Entry(e.peer, e.claim.identity, e.at)], verdict)
      else (entries, verdict)
  }

  function Lookup(entries: Entries, now: nat, query: string): Option<Peer> {
    var key := Lower(query);
    if key in entries && now - entries[key].lastSeen <= REGISTRY_TTL then Some(entries[key].peer) else None
  }

  class Registry {
    var entries: Entries

    constructor ()
      ensures entries == map[]
    {
      entries := map[];
    }

    method Resolve(now: nat, subdomain: string) returns (peer: Option<Peer>)
      ensures peer == Lookup(entries, now, subdomain)
    {
      var key := Lower(subdomain);
      if key in entries && now - entries[key].lastSeen <= REGISTRY_TTL {
        return Some(entries[key].peer);
      }
      return None;
    }

    method Handle(e: Event) returns (verdict: Verdict)
      modifies this
      ensures (entries, verdict) == Handled(old(entries), e)
    {
      var subdomain := AppSubdomain(Trim(e.claim.appId));
      if e.claim.timestamp == 0 {
        entries := entries - {subdomain};
        return Ok(());
      }
      if subdomain in entries {
        var entry := entries[subdomain];
        if entry.peer == e.peer && entry.identity == e.claim.identity && e.claim.genuine {
          entries := entries[subdomain := Entry(e.peer, entry.identity, e.at)];
          return Ok(());
        }
      }
      verdict := Validated(e);
      if verdict.Ok? {
        entries := entries[subdomain := Entry(e.peer, e.claim.identity, e.at)];
      }
    }
  }

  // ---- traces --------------------------------------------------------------------------------

  predicate Timed(trace: seq<Event>) {
    forall i, j :: 0 <= i <= j < |trace| ==> trace[i].at <= trace[j].at
  }

  function Run(trace: seq<Event>): Entries {
    if trace == [] then map[] else Handled(Run(trace[..|trace| - 1]), trace[|trace| - 1]).0
  }

  /** The k-th message was a registration for `key` and was accepted. */
  predicate AcceptedAt(trace: seq<Event>, k: nat, key: Subdomain)
    requires k < |trace|
  {
    KeyOf(trace[k]) == key && trace[k].claim.timestamp != 0 && Handled(Run(trace[..k]), trace[k]).1.Ok?
  }

  predicate DroppedAt(trace: seq<Event>, k: nat, key: Subdomain)
    requires k < |trace|
  {
    KeyOf(trace[k]) == key && trace[k].claim.timestamp == 0
  }

  /** Message `k` was accepted for `key`, and no later one was accepted for it or dropped it. */
  predicate LastWord(trace: seq<Event>, k: int, key: Subdomain) {
    && 0 <= k < |trace| && AcceptedAt(trace, k, key)
    && forall j :: k < j < |trace| ==> !Touches(trace, j, key)
  }

  predicate Touches(trace: seq<Event>, k: nat, key: Subdomain)
    requires k < |trace|
  {
    AcceptedAt(trace, k, key) || DroppedAt(trace, k, key)
  }

  function EntryOf(e: Event): Entry {
    Entry(e.peer, e.claim.identity, e.at)
  }

  lemma {:induction false} PrefixAgrees(trace: seq<Event>, n: nat, k: nat, key: Subdomain)
    requires k < n <= |trace|
    ensures AcceptedAt(trace[..n], k, key) <==> AcceptedAt(trace, k, key)
    ensures DroppedAt(trace[..n], k, key) <==> DroppedAt(trace, k, key)
  {
    assert trace[..n][..k] == trace[..k];
  }

  lemma {:induction false} PrefixLastWord(trace: seq<Event>, k: nat, key: Subdomain)
    requires k + 1 < |trace| && !Touches(trace, |trace| - 1, key)
    ensures LastWord(trace[..|trace| - 1], k, key) <==> LastWord(trace, k, key)
  {
    hide AcceptedAt, DroppedAt;
    var n := |trace| - 1;
    forall j | k <= j < n ensures Touches(trace[..n], j, key) <==> Touches(trace, j, key) {
      PrefixAgrees(trace, n, j, key);
    }
    PrefixAgrees(trace, n, k, key);
  }

  lemma {:induction false} UntouchedKey(trace: seq<Event>, key: Subdomain)
    requires trace != [] && !Touches(trace, |trace| - 1, key)
    ensures key in Run(trace) <==> key in Run(trace[..|trace| - 1])
    ensures key in Run(trace) ==> Run(trace)[key] == Run(trace[..|trace| - 1])[key]
  {
  }

  /** What the last word says is what the map holds. */
  lemma {:induction false} LastWordIsTheEntry(trace: seq<Event>, k: nat, key: Subdomain)
    requires LastWord(trace, k, key)
    ensures key in Run(trace) && Run(trace)[key] == EntryOf(trace[k])
  {
    var n := |trace| - 1;
    if k == n {
      LatestIsTheEntry(trace, key);
    } else {
      hide Run, AcceptedAt, DroppedAt;
      PrefixLastWord(trace, k, key);
      LastWordIsTheEntry(trace[..n], k, key);
      UntouchedKey(trace, key);
    }
  }

  lemma {:induction false} LatestIsTheEntry(trace: seq<Event>, key: Subdomain)
    requires trace != [] && AcceptedAt(trace, |trace| - 1, key)
    ensures key in Run(trace) && Run(trace)[key] == EntryOf(trace[|trace| - 1])
  {
  }

  /** And every entry of the map is somebody's last word. */
  lemma {:induction false} EntryIsALastWord(trace: seq<Event>, key: Subdomain) returns (k: nat)
    requires key in Run(trace)
    ensures LastWord(trace, k, key) && Run(trace)[key] == EntryOf(trace[k])
  {
    var n := |trace| - 1;
    if AcceptedAt(trace, n, key) {
      LatestIsTheEntry(trace, key);
      k := n;
    } else {
      EntrySurvives(trace, key);
      hide Run, AcceptedAt, DroppedAt;
      k := EntryIsALastWord(trace[..n], key);
      PrefixLastWord(trace, k, key);
    }
  }

  lemma {:induction false} EntrySurvives(trace: seq<Event>, key: Subdomain)
    requires key in Run(trace) && !AcceptedAt(trace, |trace| - 1, key)
    ensures !Touches(trace, |trace| - 1, key)
    ensures key in Run(trace[..|trace| - 1]) && Run(trace[..|trace| - 1])[key] == Run(trace)[key]
  {
  }

  predicate HeardFrom(trace: seq<Event>, k: int, key: Subdomain, p: Peer, now: nat) {
    LastWord(trace, k, key) && trace[k].peer == p && now - trace[k].at <= REGISTRY_TTL
  }

  /**
   Freshness, exactly: a subdomain resolves to `p` if and only if the last word
   on it was an accepted registration from `p` at most 90 seconds ago.
   */
  lemma {:induction false} ResolvesIff(trace: seq<Event>, now: nat, query: string, p: Peer)
    ensures Lookup(Run(trace), now, query) == Some(p) <==> exists k :: HeardFrom(trace, k, Lower(query), p, now)
  {
    hide Run, Lower, Touches, AcceptedAt;
    var key := Lower(query);
    if key in Run(trace) {
      var k := EntryIsALastWord(trace, key);
      assert HeardFrom(trace, k, key, Run(trace)[key].peer, now) <==> now - trace[k].at <= REGISTRY_TTL;
    }
    forall k | HeardFrom(trace, k, key, p, now) ensures Lookup(Run(trace), now, query) == Some(p) {
      LastWordIsTheEntry(trace, k, key);
    }
  }

  /** After a deregistration, whoever sent it, an app resolves only if somebody was accepted for it since. */
  lemma {:induction false} GoneUntilAccepted(trace: seq<Event>, k: nat, now: nat, query: string) returns (j: nat)
    requires k < |trace| && DroppedAt(trace, k, Lower(query)) && Lookup(Run(trace), now, query).Some?
    ensures k < j < |trace| && AcceptedAt(trace, j, Lower(query))
  {
    hide Run, Lower;
    j := EntryIsALastWord(trace, Lower(query));
    assert Touches(trace, k, Lower(query));
  }

  /** A publisher all of whose accepted messages are older than 90 seconds resolves for nobody. */
  lemma {:induction false} SilentPublisherNeverResolves(trace: seq<Event>, now: nat, query: string, p: Peer)
    requires forall k :: 0 <= k < |trace| && trace[k].peer == p && AcceptedAt(trace, k, Lower(query)) ==>
      now - trace[k].at > REGISTRY_TTL
    ensures Lookup(Run(trace), now, query) != Some(p)
  {
    ResolvesIff(trace, now, query, p);
  }

  /** Nothing said about `key` from message `first` on takes it away from `p`. */
  predicate Unchallenged(trace: seq<Event>, first: nat, key: Subdomain, p: Peer) {
    forall k :: first <= k < |trace| ==>
      !DroppedAt(trace, k, key) && (AcceptedAt(trace, k, key) ==> trace[k].peer == p)
  }

  lemma {:induction false} RecentPublisherResolves(trace: seq<Event>, first: nat, now: nat, query: string, p: Peer)
    requires Timed(trace) && first < |trace| && AcceptedAt(trace, first, Lower(query))
    requires Unchallenged(trace, first, Lower(query), p) && now - trace[first].at <= REGISTRY_TTL
    ensures Lookup(Run(trace), now, query) == Some(p)
  {
    var key := Lower(query);
    var k := LastAcceptance(trace, first, key, |trace|);
    assert trace[first].at <= trace[k].at;
    assert HeardFrom(trace, k, key, p, now);
    ResolvesIff(trace, now, query, p);
  }

  /** Accepted beats from `p`, in order, each within 90 seconds of the one before. */
  predicate Steady(trace: seq<Event>, beats: seq<nat>, key: Subdomain, p: Peer) {
    && (forall i :: 0 <= i < |beats| ==>
          beats[i] < |trace| && AcceptedAt(trace, beats[i], key) && trace[beats[i]].peer == p)
    && (forall i :: 0 < i < |beats| ==>
          beats[i - 1] < beats[i] && trace[beats[i]].at <= trace[beats[i - 1]].at + REGISTRY_TTL)
  }

  /** The first `n` messages are those that had arrived by `now`. */
  predicate ArrivedBy(trace: seq<Event>, n: nat, now: nat) {
    && n <= |trace|
    && (forall k :: 0 <= k < n ==> trace[k].at <= now)
    && (forall k :: n <= k < |trace| ==> now <= trace[k].at)
  }

  /**
   A publisher whose accepted beats are at most 90 seconds apart resolves at every
   moment from the first beat until 90 seconds after the last, as long as nobody
   deregisters the app or is accepted in its place.
   */
  lemma {:induction false} SteadyPublisherAlwaysResolves(
    trace: seq<Event>, beats: seq<nat>, n: nat, now: nat, query: string, p: Peer)
    requires Timed(trace) && ArrivedBy(trace, n, now) && beats != [] && Steady(trace, beats, Lower(query), p)
    requires beats[0] < n && now <= trace[beats[|beats| - 1]].at + REGISTRY_TTL
    requires Unchallenged(trace[..n], beats[0], Lower(query), p)
    ensures Lookup(Run(trace[..n]), now, query) == Some(p)
  {
    hide AcceptedAt, DroppedAt, Lookup, Lower;
    var i := LatestBeat(beats, n);
    assert now <= trace[beats[i]].at + REGISTRY_TTL;
    BeatsAreOrdered(trace, beats, Lower(query), p, i);
    PrefixAgrees(trace, n, beats[i], Lower(query));
    RecentPublisherResolves(trace[..n], beats[i], now, query, p);
  }

  lemma {:induction false} BeatsAreOrdered(trace: seq<Event>, beats: seq<nat>, key: Subdomain, p: Peer, i: nat)
    requires Steady(trace, beats, key, p) && i < |beats|
    ensures beats[0] <= beats[i]
  {
    if i > 0 { BeatsAreOrdered(trace, beats, key, p, i - 1); }
  }

  lemma {:induction false} LatestBeat(beats: seq<nat>, n: nat) returns (i: nat)
    requires beats != [] && beats[0] < n
    ensures i < |beats| && beats[i] < n && (i + 1 < |beats| ==> n <= beats[i + 1])
  {
    var last := |beats| - 1;
    if last == 0 || beats[last] < n {
      i := last;
    } else {
      i := LatestBeat(beats[..last], n);
    }
  }

  /**
   The holder of an entry refreshes it with a signature alone: whatever it serves,
   however stale its timestamp, and however long after the entry stopped resolving.
   */
  lemma {:induction false} HolderRefreshesWithoutValidation(entries: Entries, e: Event, query: string)
    requires Lower(query) == KeyOf(e) && KeyOf(e) in entries && e.claim.timestamp != 0
    requires entries[KeyOf(e)].peer == e.peer && entries[KeyOf(e)].identity == e.claim.identity && e.claim.genuine
    ensures Handled(entries, e).1.Ok? && Lookup(Handled(entries, e).0, e.at, query) == Some(e.peer)
  {
  }

  lemma {:induction false} LastAcceptance(trace: seq<Event>, first: nat, key: Subdomain, n: nat) returns (k: nat)
    requires first < n <= |trace| && AcceptedAt(trace, first, key)
    ensures first <= k < n && AcceptedAt(trace, k, key)
    ensures forall j :: k < j < n ==> !AcceptedAt(trace, j, key)
  {
    hide AcceptedAt;
    if n - 1 == first || AcceptedAt(trace, n - 1, key) {
      k := n - 1;
    } else {
      k := LastAcceptance(trace, first, key, n - 1);
    }
  }

  /** The k-th message passed full validation for `key`, from `peer` and as `identity`. */
  predicate ValidatedAt(trace: seq<Event>, k: nat, key: Subdomain, peer: Peer, identity: Identity)
    requires k < |trace|
  {
    && AcceptedAt(trace, k, key) && Validated(trace[k]).Ok?
    && trace[k].peer == peer && trace[k].claim.identity == identity
  }

  /**
   `k` is where an entry comes from: message `k` passed full validation for that
   peer and identity, and since then nothing dropped the app or was accepted for
   it but that same pair.
   */
  predicate Origin(trace: seq<Event>, k: int, key: Subdomain, peer: Peer, identity: Identity) {
    && 0 <= k < |trace| && ValidatedAt(trace, k, key, peer, identity)
    && forall j :: k < j < |trace| ==> HeldAt(trace, j, key, peer, identity)
  }

  predicate HeldAt(trace: seq<Event>, j: nat, key: Subdomain, peer: Peer, identity: Identity)
    requires j < |trace|
  {
    && !DroppedAt(trace, j, key)
    && (AcceptedAt(trace, j, key) ==> trace[j].peer == peer && trace[j].claim.identity == identity)
  }

  /** Every entry traces back to a successful validation for its peer and identity. */
  lemma {:induction false} EntriesTraceBackToValidation(trace: seq<Event>, key: Subdomain) returns (k: nat)
    requires key in Run(trace)
    ensures Origin(trace, k, key, Run(trace)[key].peer, Run(trace)[key].identity)
  {
    var n := |trace| - 1;
    var entry := Run(trace)[key];
    if AcceptedAt(trace, n, key) && Validated(trace[n]).Ok? {
      LatestIsTheEntry(trace, key);
      k := n;
    } else {
      PairSurvives(trace, key);
      hide Run, AcceptedAt, DroppedAt, Validated;
      k := EntriesTraceBackToValidation(trace[..n], key);
      OriginExtends(trace, k, key, entry.peer, entry.identity);
    }
  }

  lemma {:induction false} OriginExtends(trace: seq<Event>, k: nat, key: Subdomain, peer: Peer, identity: Identity)
    requires trace != [] && Origin(trace[..|trace| - 1], k, key, peer, identity)
    requires HeldAt(trace, |trace| - 1, key, peer, identity)
    ensures Origin(trace, k, key, peer, identity)
  {
    hide AcceptedAt, DroppedAt, Validated;
    var n := |trace| - 1;
    PrefixAgrees(trace, n, k, key);
    forall j | k < j < n ensures HeldAt(trace, j, key, peer, identity) {
      PrefixAgrees(trace, n, j, key);
      assert HeldAt(trace[..n], j, key, peer, identity);
    }
  }

  /** Short of a new validation, whoever holds an app keeps holding it. */
  lemma {:induction false} PairSurvives(trace: seq<Event>, key: Subdomain)
    requires key in Run(trace)
    requires !(AcceptedAt(trace, |trace| - 1, key) && Validated(trace[|trace| - 1]).Ok?)
    ensures key in Run(trace[..|trace| - 1])
    ensures Run(trace[..|trace| - 1])[key].peer == Run(trace)[key].peer
    ensures Run(trace[..|trace| - 1])[key].identity == Run(trace)[key].identity
    ensures HeldAt(trace, |trace| - 1, key, Run(trace)[key].peer, Run(trace)[key].identity)
  {
  }

  // ---- every entry can be reached ---------------------------------------------------------

  predicate IsLower(s: string) {
    Lower(s) == s
  }

  /** Digests are printed in lower-case hexadecimal, so that is what served payloads hash to. */
  predicate ServesLowerCase(trace: seq<Event>) {
    forall k :: 0 <= k < |trace| && trace[k].served.Bundle? ==> IsLower(trace[k].served.digest)
  }

  lemma {:induction false} ValidatedKeyIsLower(e: Event)
    requires Validated(e).Ok? && (e.served.Bundle? ==> IsLower(e.served.digest))
    ensures IsLower(KeyOf(e))
  {
    var id := Trim(e.claim.appId);
    assert forall i :: 0 <= i < |id| ==> id[i] == Lower(id)[i] == LowerChar(id[i]);
    hide Trim;
    assert forall i :: 0 <= i < |KeyOf(e)| ==> KeyOf(e)[i] == id[i];
  }

  /** Keys are not lower-cased, but only a digest gets in: every key of every run is lower case. */
  lemma {:induction false} KeysAreLowerCase(trace: seq<Event>, key: Subdomain)
    requires ServesLowerCase(trace) && key in Run(trace)
    ensures IsLower(key)
  {
    hide Run, IsLower, Validated, KeyOf;
    var k := EntriesTraceBackToValidation(trace, key);
    ValidatedKeyIsLower(trace[k]);
  }

  /** So lower-casing a query loses no entry: each resolves, while fresh, under its own key and every respelling. */
  lemma {:induction false} EveryFreshEntryIsReachable(trace: seq<Event>, key: Subdomain, query: string, now: nat)
    requires ServesLowerCase(trace) && key in Run(trace)
    requires EqualIgnoringCase(query, key) && now - Run(trace)[key].lastSeen <= REGISTRY_TTL
    ensures Lookup(Run(trace), now, query) == Some(Run(trace)[key].peer)
  {
    KeysAreLowerCase(trace, key);
    hide Run, Lower;
  }
}
