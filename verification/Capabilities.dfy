/** Signed capabilities: resource names, the bytes a grant is signed over, and when it permits. */
module Capabilities {
  import opened Prelude
  import opened Text
  import opened Decimal

  type IdentityId = string
  type CapabilityId = string

  datatype Permission = Publish | Read | Write

  function PermissionText(p: Permission): string {
    match p
    case Read => "read"
    case Write => "write"
    case Publish => "publish"
  }

  datatype Resource =
    | Object(id: string)
    | SharedName(owner: IdentityId, name: string)
    | Channel(topic: string)

  datatype ParseError = NoKind | NoName | UnknownKind(kind: string)

  function Canonical(r: Resource): string {
    match r
    case Object(id) => "object" + [':'] + id
    case SharedName(owner, name) => "shared" + [':'] + (owner + [':'] + name)
    case Channel(topic) => "channel" + [':'] + topic
  }

  function Parse(s: string): Result<Resource, ParseError> {
    match SplitOnce(s, ':')
    case None => Err(NoKind)
    case Some((kind, rest)) =>
      if kind == "object" then Ok(Object(rest))
      else if kind == "channel" then Ok(Channel(rest))
      else if kind == "shared" then
        match SplitOnce(rest, ':')
        case None => Err(NoName)
        case Some((owner, name)) => Ok(SharedName(owner, name))
      else Err(UnknownKind(kind))
  }

  /** Whatever is accepted prints back as it was written. */
  lemma {:induction false} CanonicalOfParse(s: string)
    requires Parse(s).Ok?
    ensures Canonical(Parse(s).value) == s
  {
  }

  /** A resource reads back as itself exactly when it is not a shared name whose owner has a colon. */
  lemma {:induction false} ParseOfCanonicalIff(r: Resource)
    ensures Parse(Canonical(r)) == Ok(r) <==> (r.SharedName? ==> ':' !in r.owner)
  {
    hide SplitOnce;
    match r
    case Object(id) => SplitOnceIs("object", ':', id);
    case Channel(topic) => SplitOnceIs("channel", ':', topic);
    case SharedName(owner, name) =>
      var rest := owner + [':'] + name;
      SplitOnceIs("shared", ':', rest);
      if ':' !in owner { SplitOnceIs(owner, ':', name); } else { assert ':' in rest; }
  }

  const IDENTITY_SCHEME: string := "canopee"

  /** Every identity has a colon in its scheme, so no shared name of a real owner reads back. */
  lemma {:induction false} SharedNamesOfIdentitiesReadBackWrong(path: string, name: string)
    ensures Parse(Canonical(SharedName(IDENTITY_SCHEME + [':'] + path, name)))
         == Ok(SharedName(IDENTITY_SCHEME, path + [':'] + name))
  {
    hide SplitOnce;
    var rest := (IDENTITY_SCHEME + [':'] + path) + [':'] + name;
    SplitOnceIs("shared", ':', rest);
    assert rest == IDENTITY_SCHEME + [':'] + (path + [':'] + name);
    SplitOnceIs(IDENTITY_SCHEME, ':', path + [':'] + name);
  }

  /** Two resources print alike only if they are equal, or shared names that split one text differently. */
  lemma {:induction false} CanonicalEqualIff(r: Resource, q: Resource)
    ensures Canonical(r) == Canonical(q)
       <==> r == q || (r.SharedName? && q.SharedName? && r.owner + [':'] + r.name == q.owner + [':'] + q.name)
  {
    KindIs(r);
    KindIs(q);
    hide SplitOnce;
    assert Kind(r) == Kind(q) ==> (r.Object? <==> q.Object?) && (r.Channel? <==> q.Channel?);
  }

  function Kind(r: Resource): string {
    match r
    case Object(_) => "object"
    case SharedName(_, _) => "shared"
    case Channel(_) => "channel"
  }

  function Rest(r: Resource): string {
    match r
    case Object(id) => id
    case SharedName(owner, name) => owner + [':'] + name
    case Channel(topic) => topic
  }

  lemma {:induction false} KindIs(r: Resource)
    ensures SplitOnce(Canonical(r), ':') == Some((Kind(r), Rest(r)))
  {
    SplitOnceIs(Kind(r), ':', Rest(r));
  }

  // ---- permissions ---------------------------------------------------------------------------

  /** The order of the permission names as strings. */
  function Rank(p: Permission): nat {
    match p
    case Publish => 0
    case Read => 1
    case Write => 2
  }

  function Times(p: Permission, n: nat): (ps: seq<Permission>)
    ensures |ps| == n && forall i :: 0 <= i < n ==> ps[i] == p
  {
    seq(n, _ => p)
  }

  /** The sorted list, by counting. */
  function Sort(ps: seq<Permission>): seq<Permission> {
    var counts := multiset(ps);
    Times(Publish, counts[Publish]) + Times(Read, counts[Read]) + Times(Write, counts[Write])
  }

  predicate IsSorted(ps: seq<Permission>) {
    forall i, j :: 0 <= i < j < |ps| ==> Rank(ps[i]) <= Rank(ps[j])
  }

  lemma {:induction false} TimesCounts(p: Permission, n: nat, q: Permission)
    ensures multiset(Times(p, n))[q] == if p == q then n else 0
  {
    if n > 0 {
      assert Times(p, n) == Times(p, n - 1) + [p];
      TimesCounts(p, n - 1, q);
    }
  }

  /** It is in order and a permutation. */
  lemma {:induction false} SortSorts(ps: seq<Permission>)
    ensures IsSorted(Sort(ps)) && multiset(Sort(ps)) == multiset(ps)
  {
    var counts := multiset(ps);
    hide Times;
    forall q ensures multiset(Sort(ps))[q] == counts[q] {
      TimesCounts(Publish, counts[Publish], q);
      TimesCounts(Read, counts[Read], q);
      TimesCounts(Write, counts[Write], q);
    }
  }

  /** `join(",")` over the names. */
  function Join(ps: seq<Permission>): string {
    if ps == [] then ""
    else if |ps| == 1 then PermissionText(ps[0])
    else PermissionText(ps[0]) + "," + Join(ps[1..])
  }

  lemma {:induction false} JoinStart(ps: seq<Permission>)
    requires ps != []
    ensures PermissionText(ps[0]) <= Join(ps)
    ensures Join(ps)[|PermissionText(ps[0])|..] == if |ps| == 1 then "" else "," + Join(ps[1..])
  {
  }

  lemma {:induction false} JoinIsInjective(ps: seq<Permission>, qs: seq<Permission>)
    requires Join(ps) == Join(qs)
    ensures ps == qs
  {
    if ps != [] { JoinStart(ps); }
    if qs != [] { JoinStart(qs); }
    if ps != [] && qs != [] {
      assert Join(ps)[0] == PermissionText(ps[0])[0] && Join(qs)[0] == PermissionText(qs[0])[0];
      assert ps[0] == qs[0];
      if |ps| > 1 && |qs| > 1 {
        assert ("," + Join(ps[1..]))[1..] == Join(ps[1..]) && ("," + Join(qs[1..]))[1..] == Join(qs[1..]);
        JoinIsInjective(ps[1..], qs[1..]);
      }
      assert ps == [ps[0]] + ps[1..] && qs == [qs[0]] + qs[1..];
    }
  }

  function PermissionsText(ps: seq<Permission>): string {
    Join(Sort(ps))
  }

  /** The signed text of a permission list tells its multiset and nothing else. */
  lemma {:induction false} PermissionsTextIff(ps: seq<Permission>, qs: seq<Permission>)
    ensures PermissionsText(ps) == PermissionsText(qs) <==> multiset(ps) == multiset(qs)
  {
    SortSorts(ps);
    SortSorts(qs);
    hide Join;
    if PermissionsText(ps) == PermissionsText(qs) {
      JoinIsInjective(Sort(ps), Sort(qs));
    }
  }

  // ---- capabilities --------------------------------------------------------------------------

  /** Hashing and signature checking; keys and signatures are opaque texts. */
  datatype Scheme = Scheme(
    digest: string -> string,
    issuerOf: string -> Option<IdentityId>,
    checks: (string, string, string) -> bool)

  datatype Signer = Signer(id: IdentityId, publicKey: string, sign: string -> string)

  datatype Capability = Capability(
    id: CapabilityId,
    issuer: IdentityId,
    subject: IdentityId,
    resource: Resource,
    permissions: seq<Permission>,
    issuedAt: nat,
    expiresAt: Option<nat>,
    publicKey: string,
    signature: string)

  function ExpiryText(expiresAt: Option<nat>): string {
    if expiresAt.Some? then Print(expiresAt.value) else ""
  }

  function SigningFields(
    subject: IdentityId, resource: Resource, permissions: seq<Permission>, issuedAt: nat, expiresAt: Option<nat>): string
  {
    (subject + ":" + Canonical(resource) + ":") + PermissionsText(permissions)
    + (":" + Print(issuedAt) + ":" + ExpiryText(expiresAt))
  }

  function SigningBytes(id: CapabilityId, fields: string): string {
    "canopee/capability/v1:" + id + ":" + fields
  }

  function Fields(c: Capability): string {
    SigningFields(c.subject, c.resource, c.permissions, c.issuedAt, c.expiresAt)
  }

  predicate Verifies(scheme: Scheme, c: Capability) {
    && scheme.issuerOf(c.publicKey) == Some(c.issuer)
    && c.id == scheme.digest(Fields(c))
    && scheme.checks(c.publicKey, SigningBytes(c.id, Fields(c)), c.signature)
  }

  predicate IsActiveAt(c: Capability, now: nat) {
    c.issuedAt <= now && (c.expiresAt.Some? ==> now <= c.expiresAt.value)
  }

  predicate Permits(scheme: Scheme, c: Capability, subject: IdentityId, p: Permission, resource: Resource, now: nat) {
    && subject == c.subject && c.resource == resource && p in c.permissions
    && Verifies(scheme, c) && IsActiveAt(c, now)
  }

  function Issue(scheme: Scheme, signer: Signer, subject: IdentityId, resource: Resource,
                 permissions: seq<Permission>, now: nat, expiresAt: Option<nat>): Capability
  {
    var fields := SigningFields(subject, resource, permissions, now, expiresAt);
    var id := scheme.digest(fields);
    Capability(id, signer.id, subject, resource, permissions, now, expiresAt, signer.publicKey,
               signer.sign(SigningBytes(id, fields)))
  }

  /** A signer whose key names it and whose signatures check. */
  ghost predicate Honest(scheme: Scheme, s: Signer) {
    && scheme.issuerOf(s.publicKey) == Some(s.id)
    && forall text :: scheme.checks(s.publicKey, text, s.sign(text))
  }

  /** A fresh grant permits exactly what it lists, to its subject, on its resource, for its time. */
  lemma {:induction false} IssuedPermitsIff(
    scheme: Scheme, s: Signer, subject: IdentityId, resource: Resource, permissions: seq<Permission>,
    issuedAt: nat, expiresAt: Option<nat>, who: IdentityId, p: Permission, what: Resource, now: nat)
    requires Honest(scheme, s)
    ensures Permits(scheme, Issue(scheme, s, subject, resource, permissions, issuedAt, expiresAt), who, p, what, now)
       <==> who == subject && what == resource && p in permissions
            && issuedAt <= now && (expiresAt.Some? ==> now <= expiresAt.value)
  {
  }

  // ---- what the signed text pins -----------------------------------------------------------

  lemma {:induction false} LastColonSplits(x: string, y: string, x': string, y': string)
    requires x + [':'] + y == x' + [':'] + y' && ':' !in y && ':' !in y'
    ensures x == x' && y == y'
  {
    var s, t := x + [':'] + y, x' + [':'] + y';
    assert s[|x|] == ':' && t[|x'|] == ':';
    assert forall k :: |x| < k < |s| ==> s[k] == y[k - |x| - 1] != ':';
    assert forall k :: |x'| < k < |t| ==> t[k] == y'[k - |x'| - 1] != ':';
    assert |x'| <= |x| <= |x'|;
    assert s[..|x|] == x && t[..|x'|] == x' && s[|x| + 1..] == y && t[|x'| + 1..] == y';
  }

  lemma {:induction false} JoinHasNoColon(ps: seq<Permission>)
    ensures ':' !in Join(ps)
  {
    if |ps| > 1 { JoinHasNoColon(ps[1..]); }
  }

  lemma {:induction false} DigitsHaveNoColon(s: string)
    requires AllDigits(s)
    ensures ':' !in s
  {
    forall i | 0 <= i < |s| ensures s[i] != ':' {
      assert IsDigit(s[i]);
    }
  }

  lemma {:induction false} ExpiryIsInjective(a: Option<nat>, b: Option<nat>)
    requires ExpiryText(a) == ExpiryText(b)
    ensures a == b
  {
    if a.Some? { ValueOfPrint(a.value); }
    if b.Some? { ValueOfPrint(b.value); }
  }

  /** Who may do something with what, as the signed text has it. */
  function Grantee(subject: IdentityId, resource: Resource): string {
    subject + ":" + Canonical(resource)
  }

  lemma {:induction false} FieldsByParts(c: Capability)
    ensures Fields(c) == ((Grantee(c.subject, c.resource) + [':'] + PermissionsText(c.permissions))
                          + [':'] + Print(c.issuedAt)) + [':'] + ExpiryText(c.expiresAt)
  {
    hide Canonical, PermissionsText, Print, ExpiryText;
    var g, p, i, e := Grantee(c.subject, c.resource), PermissionsText(c.permissions), Print(c.issuedAt), ExpiryText(c.expiresAt);
    FiveParts(g, p, i, e);
  }

  lemma {:induction false} FiveParts(g: string, p: string, i: string, e: string)
    ensures (g + ":") + p + (":" + i + ":" + e) == ((g + [':'] + p) + [':'] + i) + [':'] + e
  {
  }

  /**
   Two capabilities are signed over the same text if and only if they agree on both
   times, on the permissions as a multiset, and on subject and resource run together:
   where the subject ends and the resource begins is all that the text leaves open.
   */
  lemma {:induction false} FieldsEqualIff(c: Capability, d: Capability)
    ensures Fields(c) == Fields(d)
       <==> && c.issuedAt == d.issuedAt && c.expiresAt == d.expiresAt
            && multiset(c.permissions) == multiset(d.permissions)
            && Grantee(c.subject, c.resource) == Grantee(d.subject, d.resource)
  {
    FieldsByParts(c);
    FieldsByParts(d);
    PermissionsTextIff(c.permissions, d.permissions);
    hide Fields, Grantee;
    if Fields(c) == Fields(d) {
      TextsAgree(c, d);
      ValueOfPrint(c.issuedAt);
      ValueOfPrint(d.issuedAt);
      ExpiryIsInjective(c.expiresAt, d.expiresAt);
    }
  }

  lemma {:induction false} TextsAgree(c: Capability, d: Capability)
    requires Fields(c) == Fields(d)
    ensures Grantee(c.subject, c.resource) == Grantee(d.subject, d.resource)
    ensures PermissionsText(c.permissions) == PermissionsText(d.permissions)
    ensures Print(c.issuedAt) == Print(d.issuedAt) && ExpiryText(c.expiresAt) == ExpiryText(d.expiresAt)
  {
    FieldsByParts(c);
    FieldsByParts(d);
    JoinHasNoColon(Sort(c.permissions));
    JoinHasNoColon(Sort(d.permissions));
    DigitsHaveNoColon(Print(c.issuedAt));
    DigitsHaveNoColon(Print(d.issuedAt));
    DigitsHaveNoColon(ExpiryText(c.expiresAt));
    DigitsHaveNoColon(ExpiryText(d.expiresAt));
    hide Fields, Grantee, PermissionsText, Print, ExpiryText;
    var gc, pc := Grantee(c.subject, c.resource), PermissionsText(c.permissions);
    var gd, pd := Grantee(d.subject, d.resource), PermissionsText(d.permissions);
    LastColonSplits((gc + [':'] + pc) + [':'] + Print(c.issuedAt), ExpiryText(c.expiresAt),
                    (gd + [':'] + pd) + [':'] + Print(d.issuedAt), ExpiryText(d.expiresAt));
    LastColonSplits(gc + [':'] + pc, Print(c.issuedAt), gd + [':'] + pd, Print(d.issuedAt));
    LastColonSplits(gc, pc, gd, pd);
  }

  /** Grants that differ only in their permission lists share an id exactly when those agree as multisets. */
  lemma {:induction false} IdsTellPermissionsIff(
    scheme: Scheme, s: Signer, subject: IdentityId, resource: Resource, ps: seq<Permission>, qs: seq<Permission>,
    issuedAt: nat, expiresAt: Option<nat>)
    requires forall a, b :: scheme.digest(a) == scheme.digest(b) ==> a == b
    ensures Issue(scheme, s, subject, resource, ps, issuedAt, expiresAt).id
         == Issue(scheme, s, subject, resource, qs, issuedAt, expiresAt).id
       <==> multiset(ps) == multiset(qs)
  {
    hide PermissionsText, Canonical, Print, ExpiryText;
    var prefix := subject + ":" + Canonical(resource) + ":";
    var suffix := ":" + Print(issuedAt) + ":" + ExpiryText(expiresAt);
    PermissionsTextIff(ps, qs);
    MiddleIsDetermined(prefix, PermissionsText(ps), PermissionsText(qs), suffix);
  }

  lemma {:induction false} MiddleIsDetermined(prefix: string, x: string, y: string, suffix: string)
    ensures prefix + x + suffix == prefix + y + suffix <==> x == y
  {
    var s, t := prefix + x + suffix, prefix + y + suffix;
    if s == t {
      assert |x| == |y|;
      assert s[|prefix|..|prefix| + |x|] == x && t[|prefix|..|prefix| + |y|] == y;
    }
  }
}
