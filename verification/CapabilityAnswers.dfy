/** What a capability is signed over, when it is good, and what the issuer's index does, literally. */
module CapabilityAnswers {
  import opened Prelude
  import opened Text
  import opened Decimal
  import opened Capabilities
  import opened CapabilityIndex

  // ---- texts -------------------------------------------------------------------------------------

  function ResourceText(r: Resource): string {
    match r
    case Object(id) => "object:" + id
    case SharedName(owner, name) => "shared:" + owner + ":" + name
    case Channel(topic) => "channel:" + topic
  }

  lemma {:induction false} ResourceTextIs(r: Resource)
    ensures Canonical(r) == ResourceText(r)
  {
  }

  /** Reading a resource: the kind is what stands before the first colon. */
  lemma {:induction false} ResourceReads(kind: string, rest: string, owner: string, name: string)
    requires ':' !in kind && ':' !in owner
    ensures Parse(kind) == Err(NoKind)
    ensures Parse("object:" + rest) == Ok(Resource.Object(rest))
    ensures Parse("channel:" + rest) == Ok(Channel(rest))
    ensures Parse("shared:" + owner) == Err(NoName)
    ensures Parse("shared:" + owner + ":" + name) == Ok(SharedName(owner, name))
    ensures kind != "object" && kind != "channel" && kind != "shared" ==> Parse(kind + ":" + rest) == Err(UnknownKind(kind))
  {
    hide SplitOnce;
    assert kind + ":" + rest == kind + [':'] + rest;
    SplitOnceIs(kind, ':', rest);
    assert "object:" + rest == "object" + [':'] + rest;
    SplitOnceIs("object", ':', rest);
    assert "channel:" + rest == "channel" + [':'] + rest;
    SplitOnceIs("channel", ':', rest);
    assert "shared:" + owner == "shared" + [':'] + owner;
    SplitOnceIs("shared", ':', owner);
    assert "shared:" + owner + ":" + name == "shared" + [':'] + (owner + [':'] + name);
    SplitOnceIs("shared", ':', owner + [':'] + name);
    SplitOnceIs(owner, ':', name);
  }

  predicate NameReads(p: Permission, name: string) {
    match p
    case Publish => name == "publish"
    case Read => name == "read"
    case Write => name == "write"
  }

  /** In the order of their names no permission of `ps` comes after `q`. */
  predicate UpTo(ps: seq<Permission>, q: Permission) {
    forall p :: p in ps ==> p == q || p == Publish || q == Write
  }

  /** The names in their own order, with commas between: the first alone, each later one after a comma. */
  lemma {:induction false} PermissionNames(ps: seq<Permission>, q: Permission, name: string)
    requires UpTo(ps, q) && NameReads(q, name)
    ensures PermissionsText([]) == ""
    ensures PermissionsText(ps + [q]) == if ps == [] then name else PermissionsText(ps) + "," + name
  {
    assert PermissionText(q) == name;
    SortAppends(ps, q);
    hide PermissionText, Sort;
    JoinAppends(Sort(ps), q);
    SortSorts(ps);
    SortedNothing();
    if ps == [] { assert |multiset(Sort(ps))| == 0; }
    assert |multiset(Sort(ps))| == |Sort(ps)| && |multiset(ps)| == |ps|;
  }

  lemma {:induction false} SortedNothing()
    ensures PermissionsText([]) == ""
  {
    assert Sort([]) == [];
  }

  lemma {:induction false} SortAppends(ps: seq<Permission>, q: Permission)
    requires UpTo(ps, q)
    ensures Sort(ps + [q]) == Sort(ps) + [q]
  {
    CountsGrow(ps, q);
    var a, b, w := multiset(ps)[Publish], multiset(ps)[Read], multiset(ps)[Write];
    TimesGrow(q, multiset(ps)[q]);
    NoTimes(Read);
    NoTimes(Write);
    hide Times, UpTo;
    var x, y, z := Times(Publish, a), Times(Read, b), Times(Write, w);
    match q
    case Publish => assert (x + [q]) + [] + [] == (x + [] + []) + [q];
    case Read => assert x + (y + [q]) + [] == (x + y + []) + [q];
    case Write => assert x + y + (z + [q]) == (x + y + z) + [q];
  }

  lemma {:induction false} TimesGrow(p: Permission, n: nat)
    ensures Times(p, n + 1) == Times(p, n) + [p]
  {
  }

  lemma {:induction false} NoTimes(p: Permission)
    ensures Times(p, 0) == []
  {
  }

  lemma {:induction false} CountsGrow(ps: seq<Permission>, q: Permission)
    requires UpTo(ps, q)
    ensures forall p :: multiset(ps + [q])[p] == multiset(ps)[p] + if p == q then 1 else 0
    ensures q != Write ==> multiset(ps)[Write] == 0
    ensures q == Publish ==> multiset(ps)[Read] == 0
  {
    assert Write in multiset(ps) ==> Write in ps;
    assert Read in multiset(ps) ==> Read in ps;
  }

  lemma {:induction false} JoinAppends(ps: seq<Permission>, q: Permission)
    ensures Join(ps + [q]) == if ps == [] then PermissionText(q) else Join(ps) + "," + PermissionText(q)
    decreases |ps|
  {
    hide PermissionText;
    if ps == [] {
      assert ps + [q] == [q];
    } else {
      assert (ps + [q])[1..] == ps[1..] + [q] && (ps + [q])[0] == ps[0];
      JoinAppends(ps[1..], q);
    }
  }

  /** The text that is digested for the id and signed: five parts between colons, the last empty without an expiry. */
  function Signed(c: Capability): string {
    c.subject + ":" + ResourceText(c.resource) + ":" + PermissionsText(c.permissions) + ":" + Print(c.issuedAt) + ":"
    + match c.expiresAt case Some(at) => Print(at) case None => ""
  }

  lemma {:induction false} SignedIs(c: Capability)
    ensures Fields(c) == Signed(c)
  {
    ResourceTextIs(c.resource);
    hide Canonical, ResourceText, PermissionsText, Print;
    Regroup(c.subject, Canonical(c.resource), PermissionsText(c.permissions), Print(c.issuedAt), ExpiryText(c.expiresAt));
  }

  lemma {:induction false} Regroup(a: string, b: string, c: string, d: string, e: string)
    ensures (a + ":" + b + ":") + c + (":" + d + ":" + e) == a + ":" + b + ":" + c + ":" + d + ":" + e
  {
  }

  // ---- when a capability is good -----------------------------------------------------------------

  /**
   It verifies if and only if its key is the issuer's, its id the digest of the text, and the
   signature is that key's over the label, the id and the text.
   */
  lemma {:induction false} VerifiesIff(scheme: Scheme, c: Capability)
    ensures Verifies(scheme, c)
       <==> && scheme.issuerOf(c.publicKey) == Some(c.issuer) && c.id == scheme.digest(Signed(c))
            && scheme.checks(c.publicKey, "canopee/capability/v1:" + c.id + ":" + Signed(c), c.signature)
  {
    SignedIs(c);
    hide Fields, Signed;
  }

  /** It permits just its subject just its permissions on just its resource, from its issue through its expiry. */
  lemma {:induction false} PermitsIff(
    scheme: Scheme, c: Capability, who: IdentityId, p: Permission, what: Resource, now: nat)
    ensures Permits(scheme, c, who, p, what, now)
       <==> && Verifies(scheme, c) && who == c.subject && what == c.resource && p in c.permissions
            && c.issuedAt <= now && (c.expiresAt == None || now <= c.expiresAt.value)
  {
    hide Verifies;
  }

  /** What is issued names its issuer, and is as asked. */
  lemma {:induction false} IssuedMeans(
    scheme: Scheme, s: Signer, subject: IdentityId, resource: Resource, permissions: seq<Permission>, now: nat,
    expiresAt: Option<nat>)
    ensures var c := Issue(scheme, s, subject, resource, permissions, now, expiresAt);
      && c.issuer == s.id && c.subject == subject && c.resource == resource && c.permissions == permissions
      && c.issuedAt == now && c.expiresAt == expiresAt && c.publicKey == s.publicKey
      && c.id == scheme.digest(Signed(c))
      && c.signature == s.sign("canopee/capability/v1:" + c.id + ":" + Signed(c))
  {
    var c := Issue(scheme, s, subject, resource, permissions, now, expiresAt);
    SignedIs(c);
    assert Fields(c) == SigningFields(subject, resource, permissions, now, expiresAt);
    hide Fields, Signed, SigningFields;
  }

  // ---- the index ---------------------------------------------------------------------------------

  /** The first entry with the id is the i-th. */
  predicate FirstIs(entries: seq<Entry>, id: CapabilityId, i: int) {
    && 0 <= i < |entries| && entries[i].capability.id == id
    && forall j :: 0 <= j < i ==> entries[j].capability.id != id
  }

  lemma {:induction false} FirstReaches(entries: seq<Entry>, id: CapabilityId, i: nat)
    requires FirstIs(entries, id, i)
    ensures FirstWithId(entries, id) == i
  {
    FirstWithIdIs(entries, id, i);
  }

  /** Granting appends one open entry, to the index or to an empty one, under the next version. */
  lemma {:induction false} GrantMeans(index: Option<Index>, c: Capability)
    ensures Granted(index, c) == match index
              case Some(before) => Index(before.entries + [Entry(c, false)], before.version + 1)
              case None => Index([Entry(c, false)], 1)
  {
  }

  /** Revoking closes the first entry with the id and no other, under the next version, or there is none. */
  lemma {:induction false} RevokeMeans(index: Option<Index>, id: CapabilityId, i: nat)
    ensures Revoked(index, id) == Err(NothingIssued) <==> index == None
    ensures Revoked(index, id) == Err(NoSuchCapability(id))
       <==> index.Some? && forall j :: 0 <= j < |index.value.entries| ==> index.value.entries[j].capability.id != id
    ensures index.Some? && FirstIs(index.value.entries, id, i) ==>
      && Revoked(index, id).Ok?
      && var before, after := index.value, Revoked(index, id).value;
         && after.version == before.version + 1 && |after.entries| == |before.entries|
         && after.entries[i].revoked && after.entries[i].capability == before.entries[i].capability
         && forall j :: 0 <= j < |before.entries| && j != i ==> after.entries[j] == before.entries[j]
  {
    if index.Some? && FirstIs(index.value.entries, id, i) {
      FirstReaches(index.value.entries, id, i);
    }
  }

  /** The first entry with the id is there and closed. */
  ghost predicate ClosedIn(index: Option<Index>, id: CapabilityId) {
    index.Some? && exists i :: FirstIs(index.value.entries, id, i) && index.value.entries[i].revoked
  }

  /** The verdict, cause by cause in this order: does it verify, is it past its end, is it before its start, is it closed. */
  lemma {:induction false} VerdictMeans(scheme: Scheme, index: Option<Index>, c: Capability, now: nat)
    ensures var r := Checked(scheme, index, c, now);
      var ended := c.expiresAt.Some? && c.expiresAt.value < now;
      && (r == Invalid <==> !Verifies(scheme, c))
      && (r.Expired? <==> Verifies(scheme, c) && ended) && (r.Expired? ==> r == Expired(c.expiresAt.value))
      && (r == NotYetIssued <==> Verifies(scheme, c) && !ended && now < c.issuedAt)
      && (r == RevokedByIssuer <==> Verifies(scheme, c) && !ended && c.issuedAt <= now && ClosedIn(index, c.id))
      && (r == GrantVerified <==> Verifies(scheme, c) && !ended && c.issuedAt <= now && !ClosedIn(index, c.id))
  {
    hide Verifies, FirstIs;
    ClosedIs(index, c.id);
    hide ClosedIn, IsRevoked;
  }

  lemma {:induction false} ClosedIs(index: Option<Index>, id: CapabilityId)
    ensures ClosedIn(index, id) <==> IsRevoked(index, id)
  {
    if index.Some? {
      var entries := index.value.entries;
      var k := FirstWithId(entries, id);
      assert k < |entries| ==> FirstIs(entries, id, k);
      forall i | FirstIs(entries, id, i) ensures i == k {
        FirstReaches(entries, id, i);
      }
    }
  }

  /** Access is what some open entry permits. */
  lemma {:induction false} AccessMeans(
    scheme: Scheme, index: Option<Index>, who: IdentityId, p: Permission, what: Resource, now: nat)
    ensures HasAccess(scheme, index, who, p, what, now)
       <==> index.Some? && exists e :: e in index.value.entries && !e.revoked && Permits(scheme, e.capability, who, p, what, now)
  {
    hide Permits;
    if index.Some? {
      var entries := index.value.entries;
      assert forall i :: 0 <= i < |entries| ==> entries[i] in entries;
    }
  }
}
