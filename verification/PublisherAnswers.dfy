/** What each step of a serve session does to the slot, its tasks and what is sent. */
module PublisherAnswers {
  import opened Prelude
  import opened Publisher

  /** The other sessions' tasks are as they were. */
  predicate OthersStay(before: seq<Task>, after: seq<Task>, id: SessionId) {
    |after| == |before| && forall k :: 0 <= k < |before| && k != id ==> after[k] == before[k]
  }

  /**
   Starting: nothing happens while a session is in the slot or the app cannot be served. Else
   one registration is sent, stamped now, and the new session is in the slot, with its next
   beat due in thirty seconds, if and only if the edge accepted it.
   */
  lemma {:induction false} StartingMeans(s: State, appId: string, servable: bool, now: nat, accepted: bool)
    ensures var after := Next(s, Start(appId, servable, now, accepted));
      && (s.slot.Some? || !servable ==> after == s)
      && (s.slot.None? && servable ==>
            && |after.sent| == |s.sent| + 1 && after.sent[..|s.sent|] == s.sent
            && after.sent[|s.sent|] == Register(|s.tasks|, appId, now)
            && |after.tasks| == |s.tasks| + 1 && after.tasks[..|s.tasks|] == s.tasks
            && after.tasks[|s.tasks|] == Task(appId, accepted, now + 30, !accepted)
            && after.slot == (if accepted then Some(|s.tasks|) else None) && after.stopping == s.stopping)
  {
  }

  /**
   A task waking up: before its time it sleeps on; a running one registers its app again, stamped
   now, and is next due in thirty seconds; one that runs no longer or has returned sends nothing.
   */
  lemma {:induction false} BeatMeans(s: State, id: SessionId, now: nat)
    ensures var after := Next(s, Beat(id, now));
      && after.slot == s.slot && after.stopping == s.stopping && OthersStay(s.tasks, after.tasks, id)
      && (id >= |s.tasks| || now < s.tasks[id].due ==> after == s)
      && (id < |s.tasks| && s.tasks[id].due <= now && s.tasks[id].running && !s.tasks[id].ended ==>
            && after.sent == s.sent + [Register(id, s.tasks[id].appId, now)]
            && after.tasks[id] == Task(s.tasks[id].appId, true, now + 30, false))
      && (id < |s.tasks| && s.tasks[id].due <= now && (!s.tasks[id].running || s.tasks[id].ended) ==>
            && after.sent == s.sent
            && after.tasks[id] == Task(s.tasks[id].appId, s.tasks[id].running, s.tasks[id].due, true))
  {
  }

  /** Stopping takes the session out of the slot and deregisters its app at once; its task is told nothing yet. */
  lemma {:induction false} StopBeginsMeans(s: State)
    requires s.slot.Some? && s.slot.value < |s.tasks|
    ensures var after := Next(s, StopBegins);
      && after.slot == None && after.stopping == s.stopping + {s.slot.value} && after.tasks == s.tasks
      && after.sent == s.sent + [Deregister(s.slot.value, s.tasks[s.slot.value].appId)]
    ensures Next(s.(slot := None), StopBegins) == s.(slot := None)
  {
  }

  /** It ends with the running flag lowered, and nothing sent. */
  lemma {:induction false} StopEndsMeans(s: State, id: SessionId)
    requires id in s.stopping && id < |s.tasks|
    ensures var after := Next(s, StopEnds(id));
      && after.slot == s.slot && after.sent == s.sent && id !in after.stopping
      && (forall other :: other != id ==> (other in after.stopping <==> other in s.stopping))
      && OthersStay(s.tasks, after.tasks, id)
      && after.tasks[id] == Task(s.tasks[id].appId, false, s.tasks[id].due, s.tasks[id].ended)
  {
  }
}
