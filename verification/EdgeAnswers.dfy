/** What the edge answers to one message and to one query, told in the fields that came in. */
module EdgeAnswers {
  import opened Prelude
  import opened Text
  import opened EdgeRegistry

  /** The two clocks are at most two minutes apart. */
  predicate Current(wall: nat, timestamp: nat) {
    -120 <= (wall as int) - (timestamp as int) <= 120
  }

  /** A message of the peer and identity that hold the key, with a signature that verifies. */
  predicate FromHolder(entries: Entries, key: Subdomain, e: Event) {
    && key in entries && entries[key].peer == e.peer && entries[key].identity == e.claim.identity
    && e.claim.genuine
  }

  /** The map with only this key changed, to be absent or to hold the entry. */
  ghost predicate OnlyAt(before: Entries, after: Entries, key: Subdomain, entry: Option<Entry>) {
    && (key in after <==> entry.Some?) && (entry.Some? ==> after[key] == entry.value)
    && forall k :: k != key ==> (k in after <==> k in before) && (k in before ==> after[k] == before[k])
  }

  /** The answer to a message that is not the holder's: the first thing wrong with it, or none. */
  ghost predicate FirstFault(e: Event, id: string, r: Verdict) {
    var close, served := Current(e.wall, e.claim.timestamp), e.served.Bundle?;
    var hashes := served && e.served.digest == id;
    && (r == Err(BadSignature) <==> !e.claim.genuine)
    && (r == Err(StaleTimestamp) <==> e.claim.genuine && !close)
    && (r == Err(NoManifest) <==> e.claim.genuine && close && !served)
    && (r == Err(WrongDigest) <==> e.claim.genuine && close && served && !hashes)
    && (r == Err(NotAManifest) <==> e.claim.genuine && close && hashes && e.served.manifestOwner == None)
    && (r == Err(NotTheOwner)
        <==> && e.claim.genuine && close && hashes
             && e.served.manifestOwner.Some? && e.served.manifestOwner.value != e.claim.identity)
    && (r == Ok(()) <==> e.claim.genuine && close && hashes && e.served.manifestOwner == Some(e.claim.identity))
  }

  lemma {:induction false} ValidatingMeans(e: Event, id: string)
    requires Trim(e.claim.appId) == id
    ensures FirstFault(e, id, Validated(e))
  {
    hide Trim;
  }

  /**
   A message for an id, whatever blanks around it, is about the first 32 characters of the
   id. With timestamp zero it removes that entry. Else it is accepted from the holder, and
   from anyone else if and only if the signature verifies, the clocks are two minutes apart
   at most, and the manifest served hashes to the id and names the claimed identity; the first
   of these to fail is the answer. An accepted message becomes the entry, a refused one changes nothing.
   */
  lemma {:induction false} MessageMeans(entries: Entries, e: Event, left: string, id: string, right: string)
    requires e.claim.appId == left + id + right && AllBlank(left) && AllBlank(right) && IsTrimmed(id)
    ensures var key := if |id| < 32 then id else id[..32];
      var (after, r) := Handled(entries, e);
      && (e.claim.timestamp == 0 ==> r == Ok(()) && OnlyAt(entries, after, key, None))
      && (e.claim.timestamp != 0 && FromHolder(entries, key, e) ==> r == Ok(()))
      && (e.claim.timestamp != 0 && !FromHolder(entries, key, e) ==> FirstFault(e, id, r))
      && (e.claim.timestamp != 0 && r.Ok? ==> OnlyAt(entries, after, key, Some(Entry(e.peer, e.claim.identity, e.at))))
      && (r.Err? ==> after == entries)
  {
    TrimIs(left, id, right);
    KeyMeans(e, id);
    ValidatingMeans(e, id);
    var key := if |id| < 32 then id else id[..32];
    hide Trim, AllBlank, IsTrimmed, FirstFault, Validated, KeyOf, FromHolder, OnlyAt, Handled;
    HandlingMeans(entries, e, key);
  }

  lemma {:induction false} KeyMeans(e: Event, id: string)
    requires Trim(e.claim.appId) == id
    ensures KeyOf(e) == if |id| < 32 then id else id[..32]
  {
    hide Trim;
    assert |id| == 32 ==> id[..32] == id;
  }

  lemma {:induction false} HandlingMeans(entries: Entries, e: Event, key: Subdomain)
    requires KeyOf(e) == key
    ensures var (after, r) := Handled(entries, e);
      && (e.claim.timestamp == 0 ==> r == Ok(()) && OnlyAt(entries, after, key, None))
      && (e.claim.timestamp != 0 ==> r == if FromHolder(entries, key, e) then Ok(()) else Validated(e))
      && (e.claim.timestamp != 0 && r.Ok? ==> OnlyAt(entries, after, key, Some(Entry(e.peer, e.claim.identity, e.at))))
      && (r.Err? ==> after == entries)
  {
    hide KeyOf, Validated;
  }

  /** A query finds the peer of the entry under its lower-case spelling, up to and including its 90th second. */
  lemma {:induction false} QueryMeans(entries: Entries, now: nat, query: string, p: Peer)
    ensures Lookup(entries, now, query) == Some(p)
       <==> && Lower(query) in entries && entries[Lower(query)].peer == p
            && (now as int) - (entries[Lower(query)].lastSeen as int) <= 90
  {
    hide Lower;
  }
}
