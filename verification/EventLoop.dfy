/**
 The swarm event loop's object exchange: requests go out under fresh ids, replies
 come back by id, and a replication collects one verdict per target.
 */
module EventLoop {
  import opened Prelude

  type Peer = string
  type RequestId = nat
  type Caller = nat
  type ObjectId = string

  datatype Request<B> = GetObject(objectId: ObjectId) | Store(bundle: B)

  datatype Response<B> = Object(found: B) | NotFound | Stored | StoreFailed(reason: string)

  datatype Failure =
    | ObjectNotFound | Refused(reason: string) | WrongKind | RequestFailed(error: string)
    | NotConnected(peer: Peer) | DroppedResponse

  datatype Command<B> =
    | Get(peer: Peer, objectId: ObjectId, caller: Caller)
    | Replicate(target: Option<Peer>, bundle: B)

  /**
   What the loop reacts to. `known` lists the keys of the peer map in the order a
   broadcast happens to visit them.
   */
  datatype Event<B> =
    | Commanded(command: Command<B>, known: seq<Peer>)
    | Answered(id: RequestId, response: Response<B>)
    | Failed(id: RequestId, error: string)
    | Seen(peer: Peer)
    | Closed(peer: Peer)

  /** A message on a one-shot channel: to the caller of a get, or to one target's slot of a replication. */
  datatype Reply<B> =
    | Got(id: RequestId, caller: Caller, found: Result<B, Failure>)
    | Put(id: RequestId, verdict: Result<(), Failure>)

  /** A request that went out, with whoever waits for it. */
  datatype Issued<B> = Issued(peer: Peer, request: Request<B>, caller: Caller)

  datatype State<B> = State(
    nextId: RequestId,
    pendingGet: map<RequestId, Caller>,
    pendingStore: map<RequestId, Peer>,
    peers: set<Peer>,
    issued: seq<Issued<B>>,
    replies: seq<Reply<B>>)

  function Initial<B>(): State<B> {
    State(0, map[], map[], {}, [], [])
  }

  // ---- one step ------------------------------------------------------------------------------

  function GetAnswer<B>(response: Response<B>): Result<B, Failure> {
    match response
    case Object(found) => Ok(found)
    case NotFound => Err(ObjectNotFound)
    case _ => Err(WrongKind)
  }

  function StoreAnswer<B>(response: Response<B>): Result<(), Failure> {
    match response
    case Stored => Ok(())
    case StoreFailed(reason) => Err(Refused(reason))
    case _ => Err(WrongKind)
  }

  function IssueGet<B>(s: State<B>, peer: Peer, objectId: ObjectId, caller: Caller): State<B> {
    s.(nextId := s.nextId + 1,
       pendingGet := s.pendingGet[s.nextId := caller],
       issued := s.issued + [Issued(peer, GetObject(objectId), caller)])
  }

  function IssueStore<B>(s: State<B>, peer: Peer, bundle: B): State<B> {
    s.(nextId := s.nextId + 1,
       pendingStore := s.pendingStore[s.nextId := peer],
       issued := s.issued + [Issued(peer, Store(bundle), 0)])
  }

  function IssueStores<B>(s: State<B>, targets: seq<Peer>, bundle: B): State<B> {
    if targets == [] then s
    else IssueStore(IssueStores(s, targets[..|targets| - 1], bundle), targets[|targets| - 1], bundle)
  }

  /** Whom a replication addresses; nobody when the named peer is not known. */
  function Targets(peers: set<Peer>, target: Option<Peer>, known: seq<Peer>): seq<Peer> {
    match target
    case Some(p) => if p in peers then [p] else []
    case None => known
  }

  function Settle<B>(s: State<B>, id: RequestId, get: Result<B, Failure>, put: Result<(), Failure>): State<B> {
    if id in s.pendingStore then
      s.(pendingStore := s.pendingStore - {id}, replies := s.replies + [Put(id, put)])
    else if id in s.pendingGet then
      s.(pendingGet := s.pendingGet - {id}, replies := s.replies + [Got(id, s.pendingGet[id], get)])
    else s
  }

  function Next<B>(local: Peer, s: State<B>, e: Event<B>): State<B> {
    match e
    case Commanded(Get(peer, objectId, caller), _) => IssueGet(s, peer, objectId, caller)
    case Commanded(Replicate(target, bundle), known) => IssueStores(s, Targets(s.peers, target, known), bundle)
    case Answered(id, response) => Settle(s, id, GetAnswer(response), StoreAnswer(response))
    case Failed(id, error) => Settle(s, id, Err(RequestFailed(error)), Err(RequestFailed(error)))
    case Seen(peer) => if peer == local then s else s.(peers := s.peers + {peer})
    case Closed(peer) => s.(peers := s.peers - {peer})
  }

  predicate AnyStored(verdicts: seq<Option<Result<(), Failure>>>) {
    exists k :: 0 <= k < |verdicts| && verdicts[k].Some? && verdicts[k].value.Ok?
  }

  /** The verdict on a replication: an error only if nobody stored it, and then the first one. */
  function Collected(verdicts: seq<Option<Result<(), Failure>>>): Result<(), Failure> {
    if verdicts == [] || AnyStored(verdicts) then Ok(()) else Err(ErrorOf(verdicts[0]))
  }

  function ErrorOf(verdict: Option<Result<(), Failure>>): Failure {
    match verdict
    case Some(Err(error)) => error
    case _ => DroppedResponse
  }

  /** What a replication command leads to: an immediate reply, or a wait for these ids. */
  datatype Started = Replied(verdict: Result<(), Failure>) | Waiting(ids: seq<RequestId>)

  function Start(nextId: RequestId, peers: set<Peer>, target: Option<Peer>, known: seq<Peer>): Started {
    if target.Some? && target.value !in peers then Replied(Err(NotConnected(target.value)))
    else
      var targets := Targets(peers, target, known);
      if targets == [] then Replied(Ok(())) else Waiting(seq(|targets|, k => nextId + k))
  }

  class Loop<B> {
    const local: Peer
    var nextId: RequestId
    var pendingGet: map<RequestId, Caller>
    var pendingStore: map<RequestId, Peer>
    var peers: set<Peer>
    var issued: seq<Issued<B>>
    var replies: seq<Reply<B>>

    function View(): State<B>
      reads this
    {
      State(nextId, pendingGet, pendingStore, peers, issued, replies)
    }

    constructor (local: Peer)
      ensures View() == Initial() && this.local == local
    {
      this.local := local;
      nextId, pendingGet, pendingStore, peers, issued, replies := 0, map[], map[], {}, [], [];
    }

    method SendRequest(peer: Peer, request: Request<B>, caller: Caller) returns (id: RequestId)
      modifies this
      ensures id == old(nextId)
      ensures View() == old(View()).(nextId := id + 1, issued := old(issued) + [Issued(peer, request, caller)])
    {
      id := nextId;
      nextId, issued := nextId + 1, issued + [Issued(peer, request, caller)];
    }

    method HandleGet(peer: Peer, objectId: ObjectId, caller: Caller)
      modifies this
      ensures View() == Next(local, old(View()), Commanded(Get(peer, objectId, caller), []))
    {
      var id := SendRequest(peer, GetObject(objectId), caller);
      pendingGet := pendingGet[id := caller];
    }

    method HandleReplicate(target: Option<Peer>, bundle: B, known: seq<Peer>) returns (started: Started)
      modifies this
      ensures View() == Next(local, old(View()), Commanded(Replicate(target, bundle), known))
      ensures started == Start(old(nextId), old(peers), target, known)
    {
      var targets := [];
      match target {
        case Some(peer) =>
          if peer !in peers {
            return Replied(Err(NotConnected(peer)));
          }
          targets := [peer];
        case None =>
          targets := known;
      }
      if targets == [] {
        return Replied(Ok(()));
      }
      ghost var before := View();
      var ids := [];
      for i := 0 to |targets|
        invariant View() == IssueStores(before, targets[..i], bundle)
        invariant nextId == before.nextId + i
        invariant ids == seq(i, k => before.nextId + k)
      {
        assert targets[..i + 1][..i] == targets[..i];
        var id := SendRequest(targets[i], Store(bundle), 0);
        pendingStore := pendingStore[id := targets[i]];
        ids := ids + [id];
      }
      assert targets[..|targets|] == targets;
      return Waiting(ids);
    }

    method HandleResponse(id: RequestId, response: Response<B>)
      modifies this
      ensures View() == Next(local, old(View()), Answered(id, response))
    {
      if id in pendingStore {
        pendingStore := pendingStore - {id};
        var verdict: Result<(), Failure>;
        match response {
          case Stored => verdict := Ok(());
          case StoreFailed(reason) => verdict := Err(Refused(reason));
          case _ => verdict := Err(WrongKind);
        }
        replies := replies + [Put(id, verdict)];
      } else if id in pendingGet {
        var caller := pendingGet[id];
        pendingGet := pendingGet - {id};
        var found: Result<B, Failure>;
        match response {
          case Object(bundle) => found := Ok(bundle);
          case NotFound => found := Err(ObjectNotFound);
          case _ => found := Err(WrongKind);
        }
        replies := replies + [Got(id, caller, found)];
      }
    }

    method HandleOutboundFailure(id: RequestId, error: string)
      modifies this
      ensures View() == Next(local, old(View()), Failed(id, error))
    {
      if id in pendingStore {
        pendingStore := pendingStore - {id};
        replies := replies + [Put(id, Err(RequestFailed(error)))];
      } else if id in pendingGet {
        var caller := pendingGet[id];
        pendingGet := pendingGet - {id};
        replies := replies + [Got(id, caller, Err(RequestFailed(error)))];
      }
    }

    method HandlePeer(peer: Peer, connected: bool)
      modifies this
      ensures View() == Next(local, old(View()), if connected then Seen(peer) else Closed(peer))
    {
      if !connected {
        peers := peers - {peer};
      } else if peer != local {
        peers := peers + {peer};
      }
    }
  }

  lemma {:induction false} AnyStoredGrows(verdicts: seq<Option<Result<(), Failure>>>, i: nat)
    requires i < |verdicts|
    ensures AnyStored(verdicts[..i + 1])
       <==> AnyStored(verdicts[..i]) || (verdicts[i].Some? && verdicts[i].value.Ok?)
  {
  }

  /** The collecting task: `None` is a channel dropped without a verdict. */
  method Collect(verdicts: seq<Option<Result<(), Failure>>>) returns (reply: Result<(), Failure>)
    ensures reply == Collected(verdicts)
  {
    var successes := 0;
    var firstError: Option<Failure> := None;
    for i := 0 to |verdicts|
      invariant successes == 0 <==> !AnyStored(verdicts[..i])
      invariant i == 0 ==> firstError.None?
      invariant successes == 0 && i > 0 ==> firstError == Some(ErrorOf(verdicts[0]))
    {
      AnyStoredGrows(verdicts, i);
      match verdicts[i] {
        case Some(Ok(_)) =>
          assert verdicts[..i + 1][i].value.Ok?;
          successes := successes + 1;
        case Some(Err(error)) =>
          if firstError.None? { firstError := Some(error); }
        case None =>
          if firstError.None? { firstError := Some(DroppedResponse); }
      }
    }
    assert verdicts[..|verdicts|] == verdicts;
    if firstError.Some? && successes == 0 {
      return Err(firstError.value);
    }
    return Ok(());
  }

  /** A replication reports an error if and only if it had targets and none stored, and then that of the first target. */
  lemma {:induction false} CollectedMeans(verdicts: seq<Option<Result<(), Failure>>>)
    ensures Collected(verdicts) == Ok(()) <==> verdicts == [] || exists k :: 0 <= k < |verdicts| && verdicts[k] == Some(Ok(()))
    ensures Collected(verdicts).Err? ==>
      && verdicts != []
      && (verdicts[0] == None ==> Collected(verdicts) == Err(DroppedResponse))
      && (verdicts[0].Some? ==> Collected(verdicts) == verdicts[0].value)
  {
    forall k | 0 <= k < |verdicts| && verdicts[k].Some? && verdicts[k].value.Ok? ensures verdicts[k] == Some(Ok(())) {
      assert verdicts[k].value.value == ();
    }
    if verdicts != [] && verdicts[0].Some? && verdicts[0].value.Ok? {
      assert verdicts[0] == Some(Ok(()));
    }
  }

  // ---- whole runs ----------------------------------------------------------------------------

  function Run<B>(local: Peer, events: seq<Event<B>>): State<B> {
    if events == [] then Initial()
    else Next(local, Run(local, events[..|events| - 1]), events[|events| - 1])
  }

  function AnswersTo<B>(replies: seq<Reply<B>>, id: RequestId): seq<Reply<B>> {
    if replies == [] then []
    else
      var last := replies[|replies| - 1];
      AnswersTo(replies[..|replies| - 1], id) + if last.id == id then [last] else []
  }

  /** What one id looks like from outside. */
  datatype Status<B> = Unused | Pending(request: Request<B>, caller: Caller) | Settled(reply: Reply<B>)

  ghost predicate HasStatus<B>(s: State<B>, id: RequestId, status: Status<B>) {
    && |s.issued| == s.nextId
    && match status
       case Unused =>
         id >= s.nextId && id !in s.pendingGet && id !in s.pendingStore && AnswersTo(s.replies, id) == []
       case Pending(request, caller) =>
         && id < s.nextId && s.issued[id].request == request && s.issued[id].caller == caller
         && AnswersTo(s.replies, id) == []
         && (if request.GetObject? then id in s.pendingGet && s.pendingGet[id] == caller && id !in s.pendingStore
             else id in s.pendingStore && id !in s.pendingGet)
       case Settled(reply) =>
         && id < s.nextId && id !in s.pendingGet && id !in s.pendingStore
         && AnswersTo(s.replies, id) == [reply] && OwnKind(s.issued[id], id, reply)
  }

  /** A reply of the kind that was asked for, to whoever asked. */
  predicate OwnKind<B>(issued: Issued<B>, id: RequestId, reply: Reply<B>) {
    reply.id == id && match issued.request
                      case GetObject(_) => reply.Got? && reply.caller == issued.caller
                      case Store(_) => reply.Put?
  }

  predicate Names<B>(e: Event<B>, id: RequestId) {
    (e.Answered? || e.Failed?) && e.id == id
  }

  /** The reply that `e` gives to a request. */
  function ReplyFrom<B>(request: Request<B>, caller: Caller, e: Event<B>): Reply<B>
    requires e.Answered? || e.Failed?
  {
    match request
    case GetObject(_) =>
      Got(e.id, caller, if e.Answered? then GetAnswer(e.response) else Err(RequestFailed(e.error)))
    case Store(_) =>
      Put(e.id, if e.Answered? then StoreAnswer(e.response) else Err(RequestFailed(e.error)))
  }

  /** How one event moves one id. */
  function Moved<B>(s: State<B>, e: Event<B>, id: RequestId, status: Status<B>): Status<B> {
    match status
    case Unused =>
      (match e
       case Commanded(Get(_, objectId, caller), _) =>
         if id == s.nextId then Pending(GetObject(objectId), caller) else Unused
       case Commanded(Replicate(target, bundle), known) =>
         if s.nextId <= id < s.nextId + |Targets(s.peers, target, known)| then Pending(Store(bundle), 0) else Unused
       case _ => Unused)
    case Pending(request, caller) => if Names(e, id) then Settled(ReplyFrom(request, caller, e)) else status
    case Settled(_) => status
  }

  lemma {:induction false} IssueStoresMoves<B>(
    s: State<B>, targets: seq<Peer>, bundle: B, id: RequestId, status: Status<B>)
    requires HasStatus(s, id, status)
    ensures IssueStores(s, targets, bundle).nextId == s.nextId + |targets|
    ensures IssueStores(s, targets, bundle).replies == s.replies
    ensures IssueStores(s, targets, bundle).peers == s.peers
    ensures HasStatus(IssueStores(s, targets, bundle), id,
                      if s.nextId <= id < s.nextId + |targets| then Pending(Store(bundle), 0) else status)
  {
    if targets != [] {
      IssueStoresMoves(s, targets[..|targets| - 1], bundle, id, status);
    }
  }

  lemma {:induction false} SettleMoves<B>(
    s: State<B>, e: Event<B>, id: RequestId, status: Status<B>)
    requires HasStatus(s, id, status) && (e.Answered? || e.Failed?)
    ensures HasStatus(Next("", s, e), id, Moved(s, e, id, status))
  {
    var t := Next("", s, e);
    if |t.replies| > |s.replies| {
      assert t.replies[..|t.replies| - 1] == s.replies;
    }
  }

  lemma {:induction false} StepMoves<B>(local: Peer, s: State<B>, e: Event<B>, id: RequestId, status: Status<B>)
    requires HasStatus(s, id, status)
    ensures HasStatus(Next(local, s, e), id, Moved(s, e, id, status))
  {
    match e
    case Commanded(Get(_, _, _), _) =>
    case Commanded(Replicate(target, bundle), known) =>
      IssueStoresMoves(s, Targets(s.peers, target, known), bundle, id, status);
    case Answered(_, _) => SettleMoves(s, e, id, status);
    case Failed(_, _) => SettleMoves(s, e, id, status);
    case Seen(_) =>
    case Closed(_) =>
  }

  /** What the run has made of an id, followed one event at a time. */
  function StatusAt<B>(local: Peer, events: seq<Event<B>>, id: RequestId): Status<B> {
    if events == [] then Unused
    else
      var init := events[..|events| - 1];
      Moved(Run(local, init), events[|events| - 1], id, StatusAt(local, init, id))
  }

  lemma {:induction false} StatusHolds<B>(local: Peer, events: seq<Event<B>>, id: RequestId)
    ensures HasStatus(Run(local, events), id, StatusAt(local, events, id))
  {
    hide Moved, Next;
    if events == [] {
      assert HasStatus(Initial<B>(), id, Unused);
    } else {
      hide HasStatus;
      var init := events[..|events| - 1];
      StatusHolds(local, init, id);
      StepMoves(local, Run(local, init), events[|events| - 1], id, StatusAt(local, init, id));
    }
  }

  /**
   Every issued request is either waiting in the one map of its kind and unanswered,
   or in neither map and answered exactly once, with an answer of its own kind.
   */
  ghost predicate Conserved<B>(s: State<B>) {
    && s.pendingGet.Keys !! s.pendingStore.Keys
    && |s.issued| == s.nextId
    && (forall id :: s.nextId <= id ==> Idle(s, id) && AnswersTo(s.replies, id) == [])
    && (forall id :: 0 <= id < s.nextId ==> if Idle(s, id) then AnsweredOnce(s, id) else Waits(s, id))
  }

  predicate Idle<B>(s: State<B>, id: RequestId) {
    id !in s.pendingGet && id !in s.pendingStore
  }

  predicate AnsweredOnce<B>(s: State<B>, id: RequestId)
    requires id < |s.issued|
  {
    |AnswersTo(s.replies, id)| == 1 && OwnKind(s.issued[id], id, AnswersTo(s.replies, id)[0])
  }

  ghost predicate Waits<B>(s: State<B>, id: RequestId)
    requires id < |s.issued|
  {
    && AnswersTo(s.replies, id) == []
    && (id in s.pendingGet <==> s.issued[id].request.GetObject?)
    && (id in s.pendingGet ==> s.pendingGet[id] == s.issued[id].caller)
  }

  lemma {:induction false} EveryRunConserves<B>(local: Peer, events: seq<Event<B>>)
    ensures Conserved(Run(local, events))
  {
    hide Run, StatusAt, AnswersTo;
    var s := Run(local, events);
    StatusHolds(local, events, 0);
    forall id: RequestId ensures HasStatus(s, id, StatusAt(local, events, id)) {
      StatusHolds(local, events, id);
    }
    forall id | id in s.pendingGet ensures id !in s.pendingStore {
      assert HasStatus(s, id, StatusAt(local, events, id));
    }
    forall id | s.nextId <= id ensures Idle(s, id) && AnswersTo(s.replies, id) == [] {
      assert HasStatus(s, id, StatusAt(local, events, id));
    }
    forall id | 0 <= id < s.nextId ensures if Idle(s, id) then AnsweredOnce(s, id) else Waits(s, id) {
      assert HasStatus(s, id, StatusAt(local, events, id));
    }
  }

  /** A second answer, or a failure after an answer, changes nothing. */
  lemma {:induction false} DuplicateChangesNothing<B>(local: Peer, events: seq<Event<B>>, e: Event<B>)
    requires (e.Answered? || e.Failed?) && AnswersTo(Run(local, events).replies, e.id) != []
    ensures Next(local, Run(local, events), e) == Run(local, events)
  {
    hide Run, StatusAt, AnswersTo;
    StatusHolds(local, events, e.id);
  }

  /** The first event from step `from` on that names the id. */
  function FirstWord<B>(events: seq<Event<B>>, from: nat, id: RequestId): Option<Event<B>> {
    if |events| <= from then None
    else
      var earlier := FirstWord(events[..|events| - 1], from, id);
      if earlier.Some? then earlier
      else if Names(events[|events| - 1], id) then Some(events[|events| - 1])
      else None
  }

  lemma {:induction false} FirstWordNames<B>(events: seq<Event<B>>, from: nat, id: RequestId)
    ensures FirstWord(events, from, id).Some? ==> Names(FirstWord(events, from, id).value, id)
  {
    if |events| > from { FirstWordNames(events[..|events| - 1], from, id); }
  }

  /** Where a request issued at step `i` ends up, by the first word on it. */
  function ByFirstWord<B>(word: Option<Event<B>>, pending: Status<B>): Status<B>
    requires pending.Pending? && (word.Some? ==> word.value.Answered? || word.value.Failed?)
  {
    if word.None? then pending else Settled(ReplyFrom(pending.request, pending.caller, word.value))
  }

  /**
   What becomes of a request is decided by the first response or failure that names
   it after it went out: it waits as long as there is none, and the reply is that
   event's, whatever comes later.
   */
  lemma {:induction false} FirstWordDecides<B>(local: Peer, events: seq<Event<B>>, from: nat, id: RequestId)
    requires from <= |events| && StatusAt(local, events[..from], id).Pending?
    ensures FirstWord(events, from, id).Some? ==> Names(FirstWord(events, from, id).value, id)
    ensures HasStatus(Run(local, events), id,
                      ByFirstWord(FirstWord(events, from, id), StatusAt(local, events[..from], id)))
  {
    hide HasStatus, Run;
    FirstWordNames(events, from, id);
    StatusByFirstWord(local, events, from, id);
    StatusHolds(local, events, id);
  }

  lemma {:induction false} StatusByFirstWord<B>(local: Peer, events: seq<Event<B>>, from: nat, id: RequestId)
    requires from <= |events| && StatusAt(local, events[..from], id).Pending?
    requires FirstWord(events, from, id).Some? ==> Names(FirstWord(events, from, id).value, id)
    ensures StatusAt(local, events, id)
         == ByFirstWord(FirstWord(events, from, id), StatusAt(local, events[..from], id))
  {
    hide Run, ReplyFrom;
    if |events| == from {
      assert events[..from] == events;
    } else {
      var init := events[..|events| - 1];
      assert init[..from] == events[..from];
      FirstWordNames(init, from, id);
      StatusByFirstWord(local, init, from, id);
    }
  }

  // ---- what the waiting sender is told --------------------------------------------------------

  /** Event `k` is the first after step `i` that brings word on the id: an answer to it or its failure. */
  predicate IsFirstWord<B>(events: seq<Event<B>>, i: nat, k: int, id: RequestId) {
    && i < k < |events|
    && (match events[k] case Answered(id', _) => id' == id case Failed(id', _) => id' == id case _ => false)
    && forall j :: i < j < k ==>
         match events[j] case Answered(id', _) => id' != id case Failed(id', _) => id' != id case _ => true
  }

  lemma {:induction false} FirstWordIs<B>(events: seq<Event<B>>, i: nat, k: nat, id: RequestId)
    requires IsFirstWord(events, i, k, id)
    ensures FirstWord(events, i + 1, id) == Some(events[k])
    decreases |events|
  {
    var n := |events| - 1;
    var init := events[..n];
    if k < n {
      assert IsFirstWord(init, i, k, id);
      FirstWordIs(init, i, k, id);
    } else {
      NoWord(init, i, id);
    }
  }

  lemma {:induction false} NoWord<B>(events: seq<Event<B>>, i: nat, id: RequestId)
    requires forall j :: i < j < |events| ==>
      match events[j] case Answered(id', _) => id' != id case Failed(id', _) => id' != id case _ => true
    ensures FirstWord(events, i + 1, id) == None
    decreases |events|
  {
    if |events| > i + 1 {
      NoWord(events[..|events| - 1], i, id);
    }
  }

  lemma {:induction false} AnswersAreReplies<B>(replies: seq<Reply<B>>, id: RequestId, r: Reply<B>)
    ensures r in AnswersTo(replies, id) <==> r in replies && r.id == id
  {
    if replies != [] {
      var n := |replies| - 1;
      AnswersAreReplies(replies[..n], id, r);
      assert replies == replies[..n] + [replies[n]];
    }
  }

  /**
   A get, over every run: the request goes to the peer named, under the next id. Its caller is
   told nothing as long as no answer or failure names that id; and then the object if the first
   such word brings it, that it was not found if it says so, that the answer is of the wrong
   kind if it is one to a store, and the error if it is a failure. No other reply bears the id.
   */
  lemma {:induction false} GetIsAnswered<B>(
    local: Peer, events: seq<Event<B>>, i: nat, peer: Peer, objectId: ObjectId, caller: Caller, known: seq<Peer>, k: nat,
    r: Reply<B>)
    requires i < |events| && events[i] == Commanded(Get(peer, objectId, caller), known)
    ensures var id, end := Run(local, events[..i]).nextId, Run(local, events);
      && id < |end.issued| && end.issued[id] == Issued(peer, GetObject(objectId), caller)
      && ((forall j :: !IsFirstWord(events, i, j, id)) && r in end.replies ==> r.id != id)
      && (IsFirstWord(events, i, k, id) ==>
            (r in end.replies && r.id == id <==>
               r == Got(id, caller, match events[k]
                                    case Answered(_, Object(found)) => Ok(found)
                                    case Answered(_, NotFound) => Err(ObjectNotFound)
                                    case Answered(_, _) => Err(WrongKind)
                                    case Failed(_, error) => Err(RequestFailed(error))
                                    case _ => Err(DroppedResponse))))
  {
    hide Run, AnswersTo, FirstWord;
    var id := Run(local, events[..i]).nextId;
    RequestDecided(local, events, i, id, k, r);
    var upTo := events[..i + 1];
    assert upTo[..i] == events[..i];
    StatusHolds(local, events[..i], id);
    assert StatusAt(local, upTo, id) == Pending(GetObject(objectId), caller);
    IssuedStays(local, events, i + 1);
    SentByGet(local, events[..i], events[i]);
    assert upTo == events[..i] + [events[i]];
  }

  lemma {:induction false} SentByGet<B>(local: Peer, before: seq<Event<B>>, e: Event<B>)
    requires e.Commanded? && e.command.Get?
    ensures var s, t := Run(local, before), Run(local, before + [e]);
      |s.issued| == s.nextId && t.issued == s.issued + [Issued(e.command.peer, GetObject(e.command.objectId), e.command.caller)]
  {
    StatusHolds(local, before, 0);
    assert (before + [e])[..|before|] == before;
  }

  /** The same of one target of a replication: stored, refused with its reason, of the wrong kind, or failed. */
  lemma {:induction false} StoreIsAnswered<B>(
    local: Peer, events: seq<Event<B>>, i: nat, target: Option<Peer>, bundle: B, known: seq<Peer>, id: RequestId, k: nat,
    r: Reply<B>)
    requires i < |events| && events[i] == Commanded(Replicate(target, bundle), known)
    requires var s := Run(local, events[..i]); s.nextId <= id < s.nextId + |Targets(s.peers, target, known)|
    ensures var end := Run(local, events);
      && id < |end.issued| && end.issued[id].request == Store(bundle)
      && ((forall j :: !IsFirstWord(events, i, j, id)) && r in end.replies ==> r.id != id)
      && (IsFirstWord(events, i, k, id) ==>
            (r in end.replies && r.id == id <==>
               r == Put(id, match events[k]
                            case Answered(_, Stored) => Ok(())
                            case Answered(_, StoreFailed(reason)) => Err(Refused(reason))
                            case Answered(_, _) => Err(WrongKind)
                            case Failed(_, error) => Err(RequestFailed(error))
                            case _ => Err(DroppedResponse))))
  {
    hide Run, AnswersTo, FirstWord, Targets;
    RequestDecided(local, events, i, id, k, r);
    var upTo := events[..i + 1];
    assert upTo[..i] == events[..i];
    StatusHolds(local, events[..i], id);
    assert StatusAt(local, upTo, id) == Pending(Store(bundle), 0);
  }

  lemma {:induction false} RequestDecided<B>(
    local: Peer, events: seq<Event<B>>, i: nat, id: RequestId, k: nat, r: Reply<B>)
    requires i < |events|
    ensures var end, pending := Run(local, events), StatusAt(local, events[..i + 1], id);
      pending.Pending? ==>
        && id < |end.issued| && end.issued[id].request == pending.request && end.issued[id].caller == pending.caller
        && ((forall j :: !IsFirstWord(events, i, j, id)) && r in end.replies ==> r.id != id)
        && (IsFirstWord(events, i, k, id) ==>
              (r in end.replies && r.id == id <==> r == ReplyFrom(pending.request, pending.caller, events[k])))
  {
    hide Run, ReplyFrom, AnswersTo, StatusAt;
    var end, pending := Run(local, events), StatusAt(local, events[..i + 1], id);
    if pending.Pending? {
      AnswersAreReplies(end.replies, id, r);
      IssuedStays(local, events, i + 1);
      StatusHolds(local, events[..i + 1], id);
      FirstWordDecides(local, events, i + 1, id);
      if IsFirstWord(events, i, k, id) {
        FirstWordIs(events, i, k, id);
      } else if forall j :: !IsFirstWord(events, i, j, id) {
        NoFirstWord(events, i, id);
      }
    }
  }

  lemma {:induction false} NoFirstWord<B>(events: seq<Event<B>>, i: nat, id: RequestId)
    requires forall j :: !IsFirstWord(events, i, j, id)
    ensures FirstWord(events, i + 1, id) == None
  {
    var j := FirstAfter(events, i, id);
    if j < |events| {
      assert IsFirstWord(events, i, j, id);
    } else {
      NoWord(events, i, id);
    }
  }

  /** The place of the first word after step `i`, or the length. */
  function FirstAfter<B>(events: seq<Event<B>>, i: nat, id: RequestId): (k: nat)
    ensures k > i && (k < |events| ==> Names(events[k], id))
    ensures forall j :: i < j < k && j < |events| ==> !Names(events[j], id)
    ensures k >= |events| || Names(events[k], id)
    decreases |events| - i
  {
    if i + 1 >= |events| || Names(events[i + 1], id) then i + 1 else FirstAfter(events, i + 1, id)
  }

  lemma {:induction false} IssuedStays<B>(local: Peer, events: seq<Event<B>>, n: nat)
    requires n <= |events|
    ensures Run(local, events[..n]).issued <= Run(local, events).issued
    decreases |events|
  {
    if n == |events| {
      assert events[..n] == events;
    } else {
      var init := events[..|events| - 1];
      assert init[..n] == events[..n];
      IssuedStays(local, init, n);
      IssuedGrows(local, Run(local, init), events[|events| - 1]);
    }
  }

  lemma {:induction false} IssuedGrows<B>(local: Peer, s: State<B>, e: Event<B>)
    ensures s.issued <= Next(local, s, e).issued
  {
    if e.Commanded? && e.command.Replicate? {
      StoresGrow(s, Targets(s.peers, e.command.target, e.known), e.command.bundle);
    }
  }

  lemma {:induction false} StoresGrow<B>(s: State<B>, targets: seq<Peer>, bundle: B)
    ensures s.issued <= IssueStores(s, targets, bundle).issued
  {
    if targets != [] { StoresGrow(s, targets[..|targets| - 1], bundle); }
  }

  // ---- replication ---------------------------------------------------------------------------

  /** `known` lists each connected peer once. */
  ghost predicate Enumerates(known: seq<Peer>, peers: set<Peer>) {
    && (forall p :: p in known <==> p in peers)
    && (forall i, j :: 0 <= i < j < |known| ==> known[i] != known[j])
  }

  predicate StoredFirst<B>(events: seq<Event<B>>, from: nat, id: RequestId) {
    var word := FirstWord(events, from, id);
    word.Some? && word.value.Answered? && word.value.response.Stored?
  }

  function VerdictOf<B>(s: State<B>, id: RequestId): Option<Result<(), Failure>> {
    var answers := AnswersTo(s.replies, id);
    if answers != [] && answers[0].Put? then Some(answers[0].verdict) else None
  }

  predicate AllAnswered<B>(s: State<B>, started: Started) {
    started.Waiting? ==> forall id :: id in started.ids ==> AnswersTo(s.replies, id) != []
  }

  /** What the caller of a replication hears. */
  function Outcome<B>(s: State<B>, started: Started): Result<(), Failure> {
    match started
    case Replied(verdict) => verdict
    case Waiting(ids) => Collected(seq(|ids|, k requires 0 <= k < |ids| => VerdictOf(s, ids[k])))
  }

  lemma {:induction false} TargetStored<B>(
    local: Peer, events: seq<Event<B>>, i: nat, target: Option<Peer>, bundle: B, known: seq<Peer>, id: RequestId)
    requires i < |events| && events[i] == Commanded(Replicate(target, bundle), known)
    requires var s := Run(local, events[..i]); s.nextId <= id < s.nextId + |Targets(s.peers, target, known)|
    requires AnswersTo(Run(local, events).replies, id) != []
    ensures VerdictOf(Run(local, events), id).Some?
    ensures VerdictOf(Run(local, events), id).value.Ok? <==> StoredFirst(events, i + 1, id)
  {
    hide Run, Targets, AnswersTo;
    var upTo := events[..i + 1];
    assert upTo[..i] == events[..i];
    StatusHolds(local, events[..i], id);
    assert StatusAt(local, upTo, id) == Pending(Store(bundle), 0);
    FirstWordDecides(local, events, i + 1, id);
  }

  /**
   Once every target has answered, replicating to a named peer succeeds exactly when
   the peer was connected and its first word was that it stored the object, and a
   broadcast succeeds exactly when there was nobody to send to or somebody stored it.
   */
  lemma {:induction false} ReplicationSucceedsIff<B>(
    local: Peer, events: seq<Event<B>>, i: nat, target: Option<Peer>, bundle: B, known: seq<Peer>)
    requires i < |events| && events[i] == Commanded(Replicate(target, bundle), known)
    requires Enumerates(known, Run(local, events[..i]).peers)
    requires var s := Run(local, events[..i]);
             AllAnswered(Run(local, events), Start(s.nextId, s.peers, target, known))
    ensures var s := Run(local, events[..i]);
            Outcome(Run(local, events), Start(s.nextId, s.peers, target, known)).Ok?
            <==> match target
                 case Some(p) => p in s.peers && StoredFirst(events, i + 1, s.nextId)
                 case None => s.peers == {} || SomebodyStored(events, i + 1, s.nextId, |known|)
  {
    hide Run, StoredFirst, VerdictOf, AnswersTo;
    var s, final := Run(local, events[..i]), Run(local, events);
    var started := Start(s.nextId, s.peers, target, known);
    if started.Waiting? {
      var ids := started.ids;
      var verdicts := seq(|ids|, k requires 0 <= k < |ids| => VerdictOf(final, ids[k]));
      forall k | 0 <= k < |ids|
        ensures verdicts[k].Some? && (verdicts[k].value.Ok? <==> StoredFirst(events, i + 1, s.nextId + k))
      {
        assert ids[k] in ids;
        TargetStored(local, events, i, target, bundle, known, s.nextId + k);
      }
      if target.None? {
        assert known[0] in s.peers;
        SomebodyStoredIffAnyStored(events, i + 1, s.nextId, verdicts);
      }
    } else if target.None? {
      assert forall p :: p in s.peers ==> p in known;
    }
  }

  predicate SomebodyStored<B>(events: seq<Event<B>>, from: nat, first: RequestId, n: nat) {
    exists id :: first <= id < first + n && StoredFirst(events, from, id)
  }

  lemma {:induction false} SomebodyStoredIffAnyStored<B>(
    events: seq<Event<B>>, from: nat, first: RequestId, verdicts: seq<Option<Result<(), Failure>>>)
    requires forall k :: 0 <= k < |verdicts| ==>
      verdicts[k].Some? && (verdicts[k].value.Ok? <==> StoredFirst(events, from, first + k))
    ensures SomebodyStored(events, from, first, |verdicts|) <==> AnyStored(verdicts)
  {
    hide StoredFirst;
    forall id | first <= id < first + |verdicts| && StoredFirst(events, from, id) ensures AnyStored(verdicts) {
      assert verdicts[id - first].value.Ok?;
    }
  }

  /** The k-th target of a replication is asked under the k-th of the ids waited for. */
  lemma {:induction false} EveryTargetIsAsked<B>(s: State<B>, targets: seq<Peer>, bundle: B, k: nat)
    requires |s.issued| == s.nextId && k < |targets|
    ensures |IssueStores(s, targets, bundle).issued| == s.nextId + |targets| == IssueStores(s, targets, bundle).nextId
    ensures IssueStores(s, targets, bundle).issued[s.nextId + k] == Issued(targets[k], Store(bundle), 0)
  {
    var last := |targets| - 1;
    if k < last {
      EveryTargetIsAsked(s, targets[..last], bundle, k);
    } else if last > 0 {
      EveryTargetIsAsked(s, targets[..last], bundle, 0);
    }
  }

  /** Seen at step `k`, and not closed since. */
  predicate SeenSince<B>(events: seq<Event<B>>, k: int, p: Peer) {
    0 <= k < |events| && events[k] == Seen(p) && forall j :: k < j < |events| ==> events[j] != Closed(p)
  }

  /**
   A peer counts as connected exactly when no connection to it has closed since it
   was last seen: closing one of two connections forgets it.
   */
  lemma {:induction false} ConnectedIff<B>(local: Peer, events: seq<Event<B>>, p: Peer)
    ensures p in Run(local, events).peers <==> p != local && exists k :: SeenSince(events, k, p)
  {
    if events != [] {
      var n := |events| - 1;
      var init, e := events[..n], events[n];
      ConnectedIff(local, init, p);
      PeersMove(local, Run(local, init), e, p);
      if e == Seen(p) {
        assert SeenSince(events, n, p);
      } else if e != Closed(p) {
        forall k ensures SeenSince(init, k, p) <==> SeenSince(events, k, p) {
          assert forall j :: 0 <= j < n ==> init[j] == events[j];
        }
      }
    }
  }

  lemma {:induction false} PeersMove<B>(local: Peer, s: State<B>, e: Event<B>, p: Peer)
    ensures p in Next(local, s, e).peers <==> (e != Closed(p) && (p in s.peers || (e == Seen(p) && p != local)))
  {
    if e.Commanded? && e.command.Replicate? {
      StoresKeepPeers(s, Targets(s.peers, e.command.target, e.known), e.command.bundle);
    }
  }

  lemma {:induction false} StoresKeepPeers<B>(s: State<B>, targets: seq<Peer>, bundle: B)
    ensures IssueStores(s, targets, bundle).peers == s.peers
  {
    if targets != [] { StoresKeepPeers(s, targets[..|targets| - 1], bundle); }
  }
}
