/** The issuer's index of grants: granting, revoking and the two authorization checks, over whole runs. */
module CapabilityIndex {
  import opened Prelude
  import opened Capabilities

  datatype Entry = Entry(capability: Capability, revoked: bool)

  datatype Index = Index(entries: seq<Entry>, version: nat)

  datatype RevokeError = NothingIssued | NoSuchCapability(id: CapabilityId)

  datatype Verdict = Invalid | Expired(at: nat) | NotYetIssued | RevokedByIssuer | GrantVerified

  /** The first entry with that id, or the length. */
  function FirstWithId(entries: seq<Entry>, id: CapabilityId): (i: nat)
    ensures i <= |entries|
    ensures i < |entries| ==> entries[i].capability.id == id
    ensures forall j :: 0 <= j < i ==> entries[j].capability.id != id
  {
    if entries == [] || entries[0].capability.id == id then 0 else 1 + FirstWithId(entries[1..], id)
  }

  predicate IsRevoked(index: Option<Index>, id: CapabilityId) {
    && index.Some?
    && var i := FirstWithId(index.value.entries, id);
       i < |index.value.entries| && index.value.entries[i].revoked
  }

  function Granted(index: Option<Index>, c: Capability): Index {
    var loaded := if index.Some? then index.value else Index([], 0);
    Index(loaded.entries + [Entry(c, false)], loaded.version + 1)
  }

  function Revoked(index: Option<Index>, id: CapabilityId): Result<Index, RevokeError> {
    if index.None? then Err(NothingIssued)
    else
      var entries := index.value.entries;
      var i := FirstWithId(entries, id);
      if i == |entries| then Err(NoSuchCapability(id))
      else Ok(Index(entries[i := Entry(entries[i].capability, true)], index.value.version + 1))
  }

  predicate Grants(scheme: Scheme, e: Entry, subject: IdentityId, p: Permission, resource: Resource, now: nat) {
    !e.revoked && Permits(scheme, e.capability, subject, p, resource, now)
  }

  /** Some entry is unrevoked and permits the access. */
  predicate HasAccess(
    scheme: Scheme, index: Option<Index>, subject: IdentityId, p: Permission, resource: Resource, now: nat)
  {
    index.Some? && exists i :: 0 <= i < |index.value.entries|
                            && Grants(scheme, index.value.entries[i], subject, p, resource, now)
  }

  /** `published` is the issuer's index as far as it can be had. */
  function Checked(scheme: Scheme, published: Option<Index>, c: Capability, now: nat): Verdict {
    if !Verifies(scheme, c) then Invalid
    else if !IsActiveAt(c, now) then
      if c.expiresAt.Some? && now > c.expiresAt.value then Expired(c.expiresAt.value) else NotYetIssued
    else if IsRevoked(published, c.id) then RevokedByIssuer
    else GrantVerified
  }

  /** An index that cannot be had reads as none. */
  function Loaded(index: Option<Index>, had: bool): Option<Index> {
    if had then index else None
  }

  /** `stored` holds the capabilities put into the store as objects, `published` each index saved, in order. */
  class Issuer {
    const scheme: Scheme
    const signer: Signer
    var index: Option<Index>
    var stored: set<Capability>
    var published: seq<Index>

    constructor (scheme: Scheme, signer: Signer)
      ensures index == None && stored == {} && published == [] && this.scheme == scheme && this.signer == signer
    {
      this.scheme, this.signer, index, stored, published := scheme, signer, None, {}, [];
    }

    /** The next version is published and is the one loaded from then on. */
    method SaveIndex(wanted: Index)
      modifies this`index, this`published
      ensures index == Some(wanted.(version := wanted.version + 1))
      ensures published == old(published) + [wanted.(version := wanted.version + 1)]
    {
      index := Some(wanted.(version := wanted.version + 1));
      published := published + [index.value];
    }

    method GrantCapability(subject: IdentityId, resource: Resource, permissions: seq<Permission>,
                           expiresAt: Option<nat>, had: bool, now: nat)
      returns (c: Capability)
      modifies this
      ensures c == Issue(scheme, signer, subject, resource, permissions, now, expiresAt)
      ensures stored == old(stored) + {c}
      ensures index == Some(Granted(Loaded(old(index), had), c)) && published == old(published) + [index.value]
    {
      c := Issue(scheme, signer, subject, resource, permissions, now, expiresAt);
      stored := stored + {c};
      var loaded := if had && index.Some? then index.value else Index([], 0);
      SaveIndex(loaded.(entries := loaded.entries + [Entry(c, false)]));
    }

    method RevokeCapability(id: CapabilityId, had: bool) returns (r: Result<(), RevokeError>)
      modifies this`index, this`published
      ensures match Revoked(Loaded(old(index), had), id)
              case Ok(next) => index == Some(next) && published == old(published) + [next] && r == Ok(())
              case Err(error) => index == old(index) && published == old(published) && r == Err(error)
    {
      if !had || index.None? {
        return Err(NothingIssued);
      }
      var loaded := index.value;
      var i := 0;
      while i < |loaded.entries| && loaded.entries[i].capability.id != id
        invariant i <= |loaded.entries| && index == old(index) && published == old(published)
        invariant forall j :: 0 <= j < i ==> loaded.entries[j].capability.id != id
      {
        i := i + 1;
      }
      assert i == FirstWithId(loaded.entries, id);
      if i == |loaded.entries| {
        return Err(NoSuchCapability(id));
      }
      SaveIndex(loaded.(entries := loaded.entries[i := loaded.entries[i].(revoked := true)]));
      return Ok(());
    }

    /** `remote` is another issuer's index as fetched, absent when the fetch failed or timed out. */
    method CheckCapability(c: Capability, remote: Option<Index>, had: bool, now: nat) returns (verdict: Verdict)
      ensures verdict == Checked(scheme, if c.issuer == signer.id then Loaded(index, had) else remote, c, now)
    {
      if !Verifies(scheme, c) {
        return Invalid;
      }
      if !IsActiveAt(c, now) {
        match c.expiresAt {
          case Some(at) => return if now > at then Expired(at) else NotYetIssued;
          case None => return NotYetIssued;
        }
      }
      var published := if c.issuer != signer.id then remote else if had then index else None;
      var revoked := false;
      if published.Some? {
        var i := FirstWithId(published.value.entries, c.id);
        revoked := i < |published.value.entries| && published.value.entries[i].revoked;
      }
      return if revoked then RevokedByIssuer else GrantVerified;
    }

    method CheckAccess(subject: IdentityId, p: Permission, resource: Resource, had: bool, now: nat) returns (granted: bool)
      ensures granted <==> HasAccess(scheme, Loaded(index, had), subject, p, resource, now)
    {
      if !had || index.None? {
        return false;
      }
      hide Permits, Grants;
      var entries := index.value.entries;
      for i := 0 to |entries|
        invariant forall j :: 0 <= j < i ==> !Grants(scheme, entries[j], subject, p, resource, now)
      {
        if Grants(scheme, entries[i], subject, p, resource, now) {
          assert Grants(scheme, index.value.entries[i], subject, p, resource, now);
          return true;
        }
      }
      return false;
    }
  }

  // ---- whole runs ----------------------------------------------------------------------------

  datatype Step = Grant(capability: Capability) | Revoke(id: CapabilityId)

  function Next(index: Option<Index>, step: Step): Option<Index> {
    match step
    case Grant(c) => Some(Granted(index, c))
    case Revoke(id) =>
      match Revoked(index, id)
      case Ok(next) => Some(next)
      case Err(_) => index
  }

  function Run(steps: seq<Step>): Option<Index> {
    if steps == [] then None else Next(Run(steps[..|steps| - 1]), steps[|steps| - 1])
  }

  function Entries(index: Option<Index>): seq<Entry> {
    if index.Some? then index.value.entries else []
  }

  /** The grant of step `i` has that id, and a later step revokes it. */
  predicate RevokedAfterGrant(steps: seq<Step>, id: CapabilityId, i: int, j: int) {
    0 <= i < j < |steps| && steps[i].Grant? && steps[i].capability.id == id && steps[j] == Revoke(id)
  }

  predicate GrantedWithin(steps: seq<Step>, id: CapabilityId) {
    exists i :: 0 <= i < |steps| && steps[i].Grant? && steps[i].capability.id == id
  }

  lemma {:induction false} FirstWithIdIs(entries: seq<Entry>, id: CapabilityId, i: nat)
    requires i <= |entries| && (i < |entries| ==> entries[i].capability.id == id)
    requires forall j :: 0 <= j < i ==> entries[j].capability.id != id
    ensures FirstWithId(entries, id) == i
  {
  }

  lemma {:induction false} KnownIff(steps: seq<Step>, id: CapabilityId)
    ensures FirstWithId(Entries(Run(steps)), id) < |Entries(Run(steps))| <==> GrantedWithin(steps, id)
  {
    if steps != [] {
      var n := |steps| - 1;
      var init, step := steps[..n], steps[n];
      KnownIff(init, id);
      StepKeepsIds(Run(init), step, id);
      hide GrantedWithin, FirstWithId;
      GrantedWithinGrows(steps, id);
    }
  }

  lemma {:induction false} GrantedWithinGrows(steps: seq<Step>, id: CapabilityId)
    requires steps != []
    ensures var init, step := steps[..|steps| - 1], steps[|steps| - 1];
            GrantedWithin(steps, id) <==> GrantedWithin(init, id) || (step.Grant? && step.capability.id == id)
  {
    var n := |steps| - 1;
    assert forall i :: 0 <= i < n ==> steps[..n][i] == steps[i];
    if GrantedWithin(steps[..n], id) {
      var i :| 0 <= i < n && steps[..n][i].Grant? && steps[..n][i].capability.id == id;
      assert steps[i].Grant?;
    }
  }

  lemma {:induction false} StepKeepsIds(index: Option<Index>, step: Step, id: CapabilityId)
    ensures var before, after := Entries(index), Entries(Next(index, step));
            FirstWithId(after, id) < |after|
            <==> FirstWithId(before, id) < |before| || (step.Grant? && step.capability.id == id)
    ensures FirstWithId(Entries(index), id) < |Entries(index)| ==>
              FirstWithId(Entries(Next(index, step)), id) == FirstWithId(Entries(index), id)
  {
    var before, after := Entries(index), Entries(Next(index, step));
    assert |after| >= |before|;
    assert forall j :: 0 <= j < |before| ==> after[j].capability == before[j].capability;
    assert step.Grant? ==> after == before + [Entry(step.capability, false)];
    var i := FirstWithId(before, id);
    if i < |before| {
      FirstWithIdIs(after, id, i);
    } else if step.Grant? && step.capability.id == id {
      FirstWithIdIs(after, id, i);
    } else {
      FirstWithIdIs(after, id, |after|);
    }
  }

  lemma {:induction false} StepRevokes(index: Option<Index>, step: Step, id: CapabilityId)
    ensures IsRevoked(Next(index, step), id)
       <==> IsRevoked(index, id) || (step == Revoke(id) && FirstWithId(Entries(index), id) < |Entries(index)|)
  {
    StepKeepsIds(index, step, id);
  }

  /** An id counts as revoked exactly when some step revoked it after some step granted it, and for ever after. */
  lemma {:induction false} RevokedIff(steps: seq<Step>, id: CapabilityId)
    ensures IsRevoked(Run(steps), id) <==> exists i, j :: RevokedAfterGrant(steps, id, i, j)
  {
    if steps != [] {
      hide IsRevoked, Run, GrantedWithin;
      var n := |steps| - 1;
      var init, step := steps[..n], steps[n];
      RevokedIff(init, id);
      KnownIff(init, id);
      RunStep(steps);
      StepRevokes(Run(init), step, id);
      RevokedAfterGrantGrows(steps, id);
    }
  }

  lemma {:induction false} RunStep(steps: seq<Step>)
    requires steps != []
    ensures Run(steps) == Next(Run(steps[..|steps| - 1]), steps[|steps| - 1])
  {
  }

  lemma {:induction false} RevokedAfterGrantGrows(steps: seq<Step>, id: CapabilityId)
    requires steps != []
    ensures var init := steps[..|steps| - 1];
            (exists i, j :: RevokedAfterGrant(steps, id, i, j))
            <==> (exists i, j :: RevokedAfterGrant(init, id, i, j))
                 || (steps[|steps| - 1] == Revoke(id) && GrantedWithin(init, id))
  {
    var n := |steps| - 1;
    var init := steps[..n];
    assert forall i :: 0 <= i < n ==> init[i] == steps[i];
    forall i, j | RevokedAfterGrant(init, id, i, j) ensures RevokedAfterGrant(steps, id, i, j) {
    }
    forall i, j | RevokedAfterGrant(steps, id, i, j)
      ensures RevokedAfterGrant(init, id, i, j) || (j == n && steps[n] == Revoke(id) && GrantedWithin(init, id))
    {
      assert init[i] == steps[i];
    }
    if steps[n] == Revoke(id) && GrantedWithin(init, id) {
      var i :| 0 <= i < |init| && init[i].Grant? && init[i].capability.id == id;
      assert RevokedAfterGrant(steps, id, i, n);
    }
  }

  /**
   The issuer's own capability checks out exactly when it verifies, is in its time
   window, and was never revoked after being granted; so a revoked one is refused for ever.
   */
  lemma {:induction false} OwnCapabilityChecksOutIff(scheme: Scheme, steps: seq<Step>, c: Capability, now: nat)
    ensures Checked(scheme, Run(steps), c, now) == GrantVerified
       <==> Verifies(scheme, c) && IsActiveAt(c, now) && !exists i, j :: RevokedAfterGrant(steps, c.id, i, j)
  {
    hide Run, IsRevoked, Verifies;
    RevokedIff(steps, c.id);
  }

  lemma {:induction false} RevocationIsForEver(
    scheme: Scheme, steps: seq<Step>, more: seq<Step>, c: Capability, i: nat, j: nat, now: nat)
    requires RevokedAfterGrant(steps, c.id, i, j)
    ensures Checked(scheme, Run(steps + more), c, now) != GrantVerified
  {
    hide Run, IsRevoked, Verifies;
    assert RevokedAfterGrant(steps + more, c.id, i, j);
    OwnCapabilityChecksOutIff(scheme, steps + more, c, now);
  }

  // ---- access ----------------------------------------------------------------------------------

  /** Revocation as it is meant: every entry with the id. */
  function RevokeAll(entries: seq<Entry>, id: CapabilityId): (r: seq<Entry>)
    ensures |r| == |entries|
    ensures forall k :: 0 <= k < |r| ==>
      r[k] == Entry(entries[k].capability, entries[k].revoked || entries[k].capability.id == id)
  {
    seq(|entries|, k requires 0 <= k < |entries| =>
      Entry(entries[k].capability, entries[k].revoked || entries[k].capability.id == id))
  }

  /** The entries an index would have if revocation reached every copy. */
  function Ledger(steps: seq<Step>): seq<Entry> {
    if steps == [] then [] else LedgerNext(Ledger(steps[..|steps| - 1]), steps[|steps| - 1])
  }

  function LedgerNext(before: seq<Entry>, step: Step): seq<Entry> {
    match step
    case Grant(c) => before + [Entry(c, false)]
    case Revoke(id) => RevokeAll(before, id)
  }

  /** The same grants in the same order, and nothing revoked that was not meant to be. */
  predicate NoMoreRevoked(entries: seq<Entry>, meant: seq<Entry>) {
    && |entries| == |meant|
    && forall k :: 0 <= k < |entries| ==>
         entries[k].capability == meant[k].capability && (entries[k].revoked ==> meant[k].revoked)
  }

  lemma {:induction false} IndexRevokesNoMore(steps: seq<Step>)
    ensures NoMoreRevoked(Entries(Run(steps)), Ledger(steps))
  {
    if steps != [] {
      var init, step := steps[..|steps| - 1], steps[|steps| - 1];
      IndexRevokesNoMore(init);
      RunStep(steps);
      LedgerStep(steps);
      StepRevokesNoMore(Run(init), step, Ledger(init));
    }
  }

  lemma {:induction false} StepRevokesNoMore(index: Option<Index>, step: Step, meant: seq<Entry>)
    requires NoMoreRevoked(Entries(index), meant)
    ensures NoMoreRevoked(Entries(Next(index, step)), LedgerNext(meant, step))
  {
  }

  predicate DistinctIds(entries: seq<Entry>) {
    forall i, j :: 0 <= i < j < |entries| ==> entries[i].capability.id != entries[j].capability.id
  }

  /** Revoking reaches every copy exactly when no later entry with the id is still open. */
  lemma {:induction false} RevocationIsCompleteIff(index: Index, id: CapabilityId)
    requires Revoked(Some(index), id).Ok?
    ensures Revoked(Some(index), id).value.entries == RevokeAll(index.entries, id)
       <==> forall j :: FirstWithId(index.entries, id) < j < |index.entries| ==>
              (index.entries[j].capability.id == id ==> index.entries[j].revoked)
  {
  }

  /** With pairwise distinct ids the index is the ledger. */
  lemma {:induction false} IndexIsLedger(steps: seq<Step>)
    requires DistinctIds(Ledger(steps))
    ensures Entries(Run(steps)) == Ledger(steps)
  {
    if steps != [] {
      var init, step := steps[..|steps| - 1], steps[|steps| - 1];
      LedgerIdsShrink(steps);
      IndexIsLedger(init);
      RunStep(steps);
      var index := Run(init);
      hide Run, Ledger;
      StepMatchesLedger(index, step);
      LedgerStep(steps);
    }
  }

  lemma {:induction false} LedgerStep(steps: seq<Step>)
    requires steps != []
    ensures Ledger(steps) == LedgerNext(Ledger(steps[..|steps| - 1]), steps[|steps| - 1])
  {
  }

  lemma {:induction false} StepMatchesLedger(index: Option<Index>, step: Step)
    requires DistinctIds(Entries(index))
    ensures Entries(Next(index, step)) == LedgerNext(Entries(index), step)
  {
  }

  lemma {:induction false} LedgerIdsShrink(steps: seq<Step>)
    requires steps != [] && DistinctIds(Ledger(steps))
    ensures DistinctIds(Ledger(steps[..|steps| - 1]))
  {
    var before, after := Ledger(steps[..|steps| - 1]), Ledger(steps);
    assert forall k :: 0 <= k < |before| ==> before[k].capability == after[k].capability;
  }

  /** Step `i` grants the capability and no later step revokes its id. */
  predicate OpenAt(steps: seq<Step>, i: int, c: Capability) {
    0 <= i < |steps| && steps[i] == Grant(c) && forall j :: i < j < |steps| ==> steps[j] != Revoke(c.id)
  }

  lemma {:induction false} LedgerHoldsOpenGrants(steps: seq<Step>, c: Capability)
    ensures Entry(c, false) in Ledger(steps) <==> exists i :: OpenAt(steps, i, c)
  {
    if steps != [] {
      var n := |steps| - 1;
      var init, step := steps[..n], steps[n];
      LedgerHoldsOpenGrants(init, c);
      LedgerMoves(Ledger(init), step, c);
      LedgerStep(steps);
      hide Ledger, LedgerNext;
      if step == Grant(c) {
        assert OpenAt(steps, n, c);
      } else if step != Revoke(c.id) {
        forall i ensures OpenAt(init, i, c) <==> OpenAt(steps, i, c) {
          assert forall j :: 0 <= j < n ==> init[j] == steps[j];
        }
      }
    }
  }

  lemma {:induction false} LedgerMoves(before: seq<Entry>, step: Step, c: Capability)
    ensures Entry(c, false) in LedgerNext(before, step)
       <==> step == Grant(c) || (Entry(c, false) in before && step != Revoke(c.id))
  {
  }

  /** A grant that no step revoked, and that permits the access. */
  predicate OpenGrant(scheme: Scheme, steps: seq<Step>, i: int,
                      subject: IdentityId, p: Permission, resource: Resource, now: nat)
  {
    && 0 <= i < |steps| && steps[i].Grant? && OpenAt(steps, i, steps[i].capability)
    && Permits(scheme, steps[i].capability, subject, p, resource, now)
  }

  /** An open grant always gives access, whatever else was granted or revoked. */
  lemma {:induction false} OpenGrantGivesAccess(
    scheme: Scheme, steps: seq<Step>, i: nat, subject: IdentityId, p: Permission, resource: Resource, now: nat)
    requires OpenGrant(scheme, steps, i, subject, p, resource, now)
    ensures HasAccess(scheme, Run(steps), subject, p, resource, now)
  {
    hide Run, Ledger, Permits;
    var c := steps[i].capability;
    LedgerHoldsOpenGrants(steps, c);
    IndexRevokesNoMore(steps);
    var k :| 0 <= k < |Ledger(steps)| && Ledger(steps)[k] == Entry(c, false);
    assert Grants(scheme, Entries(Run(steps))[k], subject, p, resource, now);
  }

  /** With pairwise distinct ids there is access exactly when some grant is open. */
  lemma {:induction false} AccessIff(
    scheme: Scheme, steps: seq<Step>, subject: IdentityId, p: Permission, resource: Resource, now: nat)
    requires DistinctIds(Ledger(steps))
    ensures HasAccess(scheme, Run(steps), subject, p, resource, now)
       <==> exists i :: OpenGrant(scheme, steps, i, subject, p, resource, now)
  {
    hide Run, Ledger, Permits;
    if HasAccess(scheme, Run(steps), subject, p, resource, now) {
      IndexIsLedger(steps);
      var k :| 0 <= k < |Ledger(steps)| && Grants(scheme, Ledger(steps)[k], subject, p, resource, now);
      var c := Ledger(steps)[k].capability;
      assert Ledger(steps)[k] == Entry(c, false);
      LedgerHoldsOpenGrants(steps, c);
      var i :| OpenAt(steps, i, c);
      assert OpenGrant(scheme, steps, i, subject, p, resource, now);
    }
    forall i | OpenGrant(scheme, steps, i, subject, p, resource, now)
      ensures HasAccess(scheme, Run(steps), subject, p, resource, now)
    {
      OpenGrantGivesAccess(scheme, steps, i, subject, p, resource, now);
    }
  }

  /**
   A grant issued twice within one second has one id twice. Revoking it refuses the
   capability itself, and yet leaves the access: only the first entry was marked.
   */
  lemma {:induction false} DuplicateSurvivesRevocation(
    scheme: Scheme, c: Capability, subject: IdentityId, p: Permission, resource: Resource, now: nat)
    requires Permits(scheme, c, subject, p, resource, now)
    ensures var index := Run([Grant(c), Grant(c), Revoke(c.id)]);
            Checked(scheme, index, c, now) == RevokedByIssuer && HasAccess(scheme, index, subject, p, resource, now)
  {
    hide Permits, Verifies;
    var steps := [Grant(c), Grant(c), Revoke(c.id)];
    var once, twice := [Grant(c)], [Grant(c), Grant(c)];
    assert steps[..2] == twice && twice[..1] == once && once[..0] == [];
    assert Run([]) == None;
    RunStep(once);
    RunStep(twice);
    RunStep(steps);
    var index := Run(steps);
    assert Run(once).value.entries == [Entry(c, false)];
    assert Run(twice).value.entries == [Entry(c, false), Entry(c, false)];
    assert index.value.entries == [Entry(c, true), Entry(c, false)];
    assert Grants(scheme, index.value.entries[1], subject, p, resource, now);
    assert Verifies(scheme, c) && IsActiveAt(c, now) by { PermitsMeans(scheme, c, subject, p, resource, now); }
  }

  lemma {:induction false} PermitsMeans(
    scheme: Scheme, c: Capability, subject: IdentityId, p: Permission, resource: Resource, now: nat)
    requires Permits(scheme, c, subject, p, resource, now)
    ensures Verifies(scheme, c) && IsActiveAt(c, now)
  {
  }

  // ---- an index that cannot be read ----------------------------------------------------------------

  /** A step of the issuer, and whether it could have the current index. */
  datatype Attempt = Attempt(step: Step, had: bool)

  function Attempted(index: Option<Index>, a: Attempt): Option<Index> {
    match a.step
    case Grant(c) => Some(Granted(Loaded(index, a.had), c))
    case Revoke(id) => if a.had then Next(index, a.step) else index
  }

  function RunAttempts(attempts: seq<Attempt>): Option<Index> {
    if attempts == [] then None else Attempted(RunAttempts(attempts[..|attempts| - 1]), attempts[|attempts| - 1])
  }

  /** A grant that cannot have the index starts a new one. */
  predicate StartsOver(a: Attempt) {
    a.step.Grant? && !a.had
  }

  /** The steps that still tell: from the last grant that started over, without the revocations that failed. */
  function Telling(attempts: seq<Attempt>): seq<Step> {
    if attempts == [] then []
    else
      var before, last := Telling(attempts[..|attempts| - 1]), attempts[|attempts| - 1];
      if last.had then before + [last.step] else if last.step.Grant? then [last.step] else before
  }

  lemma {:induction false} AttemptsAreTold(attempts: seq<Attempt>)
    ensures RunAttempts(attempts) == Run(Telling(attempts))
  {
    if attempts != [] {
      var before, last := attempts[..|attempts| - 1], attempts[|attempts| - 1];
      AttemptsAreTold(before);
      hide Granted, Revoked;
      var steps := Telling(before);
      assert (steps + [last.step])[..|steps|] == steps;
      assert [last.step][..0] == [] && Run([]) == None;
      RunStep(steps + [last.step]);
      RunStep([last.step]);
    }
  }

  /**
   With an index that may be out of reach, an own capability checks out if and only if it
   verifies and is in its window, and the check cannot have the index or no telling step
   revoked it after one granted it.
   */
  lemma {:induction false} OwnCheckIff(scheme: Scheme, attempts: seq<Attempt>, had: bool, c: Capability, now: nat)
    ensures Checked(scheme, Loaded(RunAttempts(attempts), had), c, now) == GrantVerified
       <==> && Verifies(scheme, c) && IsActiveAt(c, now)
            && (!had || !exists i, j :: RevokedAfterGrant(Telling(attempts), c.id, i, j))
  {
    hide Run, RunAttempts, Telling, Verifies, IsActiveAt, RevokedAfterGrant;
    AttemptsAreTold(attempts);
    OwnCapabilityChecksOutIff(scheme, Telling(attempts), c, now);
  }

  predicate SomeStartsOver(attempts: seq<Attempt>) {
    exists k :: 0 <= k < |attempts| && StartsOver(attempts[k])
  }

  lemma {:induction false} TellingAppends(attempts: seq<Attempt>, more: seq<Attempt>)
    ensures Telling(attempts + more) == if SomeStartsOver(more) then Telling(more) else Telling(attempts) + Telling(more)
    decreases |more|
  {
    if more == [] {
      assert attempts + more == attempts;
      assert Telling(attempts) + [] == Telling(attempts);
    } else {
      var front, last := more[..|more| - 1], more[|more| - 1];
      assert (attempts + more)[..|attempts + more| - 1] == attempts + front;
      TellingAppends(attempts, front);
      SomeStartsOverGrows(more);
      Assoc(Telling(attempts), Telling(front), [last.step]);
    }
  }

  lemma {:induction false} SomeStartsOverGrows(more: seq<Attempt>)
    requires more != []
    ensures SomeStartsOver(more) <==> SomeStartsOver(more[..|more| - 1]) || StartsOver(more[|more| - 1])
  {
    var front := more[..|more| - 1];
    if k :| 0 <= k < |more| && StartsOver(more[k]) && k < |front| {
      assert front[k] == more[k];
    }
    if k :| 0 <= k < |front| && StartsOver(front[k]) {
      assert more[k] == front[k];
    }
  }

  /**
   A revocation lasts, whatever follows, if and only if no grant since started over, or the
   capability was granted and revoked again from there.
   */
  lemma {:induction false} RevocationLastsIff(attempts: seq<Attempt>, more: seq<Attempt>, id: CapabilityId)
    requires IsRevoked(RunAttempts(attempts), id)
    ensures IsRevoked(RunAttempts(attempts + more), id) <==> !SomeStartsOver(more) || IsRevoked(RunAttempts(more), id)
  {
    hide IsRevoked, Run, RunAttempts, Telling, SomeStartsOver;
    AttemptsAreTold(attempts);
    AttemptsAreTold(more);
    AttemptsAreTold(attempts + more);
    TellingAppends(attempts, more);
    if !SomeStartsOver(more) {
      var steps := Telling(attempts);
      RevokedIff(steps, id);
      RevokedIff(steps + Telling(more), id);
      var i, j :| RevokedAfterGrant(steps, id, i, j);
      assert RevokedAfterGrant(steps + Telling(more), id, i, j);
    }
  }
}
