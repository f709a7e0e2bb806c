/**
 The code of one API call and the statements it runs, in a world in which other calls may
 do anything between its steps: every way through it is a run of the protocol.
 */
module IdempotentCall {
  import opened Options
  import opened Idempotency
  import opened IdempotentAnswers

  /** Where a process can end in the middle of its call. */
  datatype Point = AtClaim | AtRead | AtPoll(polls: nat) | AtGiveUp | AtExecute | AtComplete

  /** The result of the operation, the faults the call meets, a statement under a fault taking effect or not, and where the process ends, if it does. */
  datatype Fate = Fate(
    claimFault: Option<bool>,
    readFaults: seq<bool>,
    result: OpResult,
    completeFault: Option<bool>,
    crash: Option<Point>)

  lemma {:induction false} RunsCompose(s: State, a: seq<Event>, b: seq<Event>)
    requires Legal(s, a) && Legal(After(s, a), b)
    ensures Legal(s, a + b) && After(s, a + b) == After(After(s, a), b)
    decreases |a|
  {
    hide Enabled, Apply;
    if a == [] {
      assert a + b == b;
    } else {
      assert (a + b)[1..] == a[1..] + b;
      RunsCompose(Apply(s, a[0]), a[1..], b);
    }
  }

  lemma OneStep(s: State, e: Event)
    requires Enabled(s, e)
    ensures Legal(s, [e]) && After(s, [e]) == Apply(s, e)
  {
    hide Enabled, Apply;
    assert [e][1..] == [];
    assert Legal(Apply(s, e), []) && After(Apply(s, e), []) == Apply(s, e);
  }

  /** The second state can follow from the first. */
  ghost predicate Reaches(s: State, t: State) {
    exists events :: Legal(s, events) && After(s, events) == t
  }

  lemma ReachesSelf(s: State)
    ensures Reaches(s, s)
  {
    assert Legal(s, []) && After(s, []) == s;
  }

  lemma ReachesTwice(s: State, t: State, u: State)
    requires Reaches(s, t) && Reaches(t, u)
    ensures Reaches(s, u)
  {
    hide Legal, After;
    var a :| Legal(s, a) && After(s, a) == t;
    var b :| Legal(t, b) && After(t, b) == u;
    RunsCompose(s, a, b);
  }

  lemma ReachesStep(s: State, t: State, e: Event)
    requires Reaches(s, t) && Enabled(t, e)
    ensures Reaches(s, Apply(t, e))
  {
    hide Legal, After, Enabled, Apply, Reaches;
    OneStep(t, e);
    ReachesBy(t, [e]);
    ReachesTwice(s, t, Apply(t, e));
  }

  lemma ReachesBy(s: State, events: seq<Event>)
    requires Legal(s, events)
    ensures Reaches(s, After(s, events))
  {
  }

  /** The run call i made for its request, with this result. */
  predicate IsRunOf(r: Run, i: nat, req: Request, result: OpResult) {
    r.slot == req.slot && r.hash == req.hash && r.policy == req.policy && r.caller == i && r.result == result
  }

  class World {
    var now: nat
    var table: map<Slot, Record>
    /** What the operations did outside the service; a record names the run it stems from, and nothing is decided by it. */
    var log: seq<Run>
    /** Where each call is, and when each run was recorded: a history of the run, which no code reads. */
    ghost var calls: map<nat, Call>
    ghost var recorded: map<nat, nat>

    ghost function Snapshot(): State
      reads this
    {
      State(now, table, calls, log, recorded)
    }

    /** Time passes and other calls take any steps; call i is left alone. */
    method Elsewhere(i: nat)
      requires i in calls
      modifies this
      ensures Reaches(old(Snapshot()), Snapshot()) && i in calls && calls[i] == old(calls)[i]
    {
      ReachesSelf(Snapshot());
    }

    // ---------- the statements ----------

    /** Expired records, the longest expired first, and no more than one claim sweeps. */
    method Sweep() returns (swept: set<Slot>)
      ensures OldestExpired(table, now, swept)
    {
      var left := set k | k in table && Expired(table[k], now);
      swept := {};
      ghost var all := left;
      while left != {} && |swept| < SWEEP_LIMIT
        invariant swept + left == all && swept !! left && |swept| <= SWEEP_LIMIT
        invariant forall k, other :: k in swept && other in left ==> table[k].expiresAt <= table[other].expiresAt
        decreases |left|
      {
        var k := Oldest(left);
        left := left - {k};
        swept := swept + {k};
      }
    }

    method Oldest(slots: set<Slot>) returns (oldest: Slot)
      requires slots != {} && forall k :: k in slots ==> k in table && table[k].Completed?
      ensures oldest in slots && forall k :: k in slots ==> table[oldest].expiresAt <= table[k].expiresAt
    {
      oldest :| oldest in slots;
      var left := slots - {oldest};
      while left != {}
        invariant oldest in slots && left <= slots
        invariant forall k :: k in slots && k !in left ==> table[oldest].expiresAt <= table[k].expiresAt
        decreases |left|
      {
        var k :| k in left;
        if table[k].expiresAt < table[oldest].expiresAt {
          oldest := k;
        }
        left := left - {k};
      }
    }

    /** Sweeps, and inserts the record or takes over an expired one, in one statement; it acquires if it wrote the record. */
    method ClaimStatement(req: Request) returns (acquired: bool, ghost swept: set<Slot>)
      modifies this`table
      ensures OldestExpired(old(table), now, swept)
      ensures acquired <==> Free(old(table), req.slot, now)
      ensures table == if acquired then (old(table) - swept)[req.slot := InProgress(req.hash, now)] else old(table) - swept
    {
      var expired := Sweep();
      swept := expired;
      acquired := req.slot !in table || (table[req.slot].Completed? && table[req.slot].expiresAt <= now);
      table := table - expired;
      if acquired {
        table := table[req.slot := InProgress(req.hash, now)];
      }
    }

    method Lookup(slot: Slot, hash: string) returns (row: Lookup)
      ensures row == LookupRow(table, slot, hash)
    {
      if slot !in table {
        return Vanished;
      }
      if table[slot].hash != hash {
        return Conflict;
      }
      match table[slot] {
        case InProgress(_, createdAt) => return Pending(createdAt);
        case Completed(_, status, body, _, run) => return Found(status, body, run);
      }
    }

    /** Records the answer if the record is in progress under the caller's hash. */
    method CompleteStatement(req: Request, status: Status, body: Option<Message>, run: nat) returns (updated: bool)
      modifies this`table
      ensures updated <==> Completable(old(table), req)
      ensures table == if updated then old(table)[req.slot := Completed(req.hash, status, body, now + 24 * 60 * 60, run)] else old(table)
    {
      updated := req.slot in table && table[req.slot].InProgress? && table[req.slot].hash == req.hash;
      if updated {
        table := table[req.slot := Completed(req.hash, status, body, now + RETENTION, run)];
      }
    }

    // ---------- the call ----------

    /** The call moves on. */
    ghost method Moves(i: nat, phase: Phase)
      requires i in calls
      modifies this`calls
      ensures calls == old(calls)[i := old(calls)[i].(phase := phase)]
    {
      calls := calls[i := calls[i].(phase := phase)];
    }

    ghost method Ends(i: nat, response: Response, source: Option<nat>)
      requires i in calls
      modifies this`calls
      ensures calls == old(calls)[i := old(calls)[i].(phase := Done(response, source))]
    {
      Moves(i, Done(response, source));
    }

    /** The process ends in the middle of the call. */
    ghost method Crashes(i: nat, start: State)
      requires i in calls && !calls[i].phase.Done? && Reaches(start, Snapshot())
      modifies this`calls
      ensures Reaches(start, Snapshot()) && i in calls && calls[i] == old(calls)[i].(phase := Crashed)
    {
      hide Reaches;
      ghost var before := Snapshot();
      Moves(i, Crashed);
      ReachesStep(start, before, Event.Crash(i));
    }

    /** Other calls act before the next step of this one. */
    method Waits(i: nat, ghost start: State)
      requires i in calls && Reaches(start, Snapshot())
      modifies this
      ensures Reaches(start, Snapshot()) && i in calls && calls[i] == old(calls)[i]
    {
      hide Reaches;
      ghost var before := Snapshot();
      Elsewhere(i);
      ReachesTwice(start, before, Snapshot());
    }

    /** The whole call: claim, then replay, refuse, wait, or execute and record; no response if the process ends first. */
    method RunIdempotentCall(i: nat, req: Request, fate: Fate) returns (response: Option<Response>)
      requires i in calls && calls[i] == Call(req, Start) && |fate.readFaults| == POLLS + 1
      modifies this
      ensures Reaches(old(Snapshot()), Snapshot()) && EndsWith(calls, i, response)
      ensures response.None? ==> fate.crash.Some?
    {
      hide Reaches, Legal, After, Enabled, Apply;
      ghost var start := Snapshot();
      ReachesSelf(start);
      Waits(i, start);
      if fate.crash == Some(AtClaim) {
        Crashes(i, start);
        return None;
      }
      ghost var before := Snapshot();
      if fate.claimFault.Some? {
        ghost var swept: set<Slot> := {};
        if fate.claimFault.value {
          var _, cleaned := ClaimStatement(req);
          swept := cleaned;
        }
        var r := Response(500, Message(req.id, Refusal(ClaimFailed, true)), false, false, false);
        Ends(i, r, None);
        ClaimErrorIsStep(before, i, swept, fate.claimFault.value, Snapshot());
        ReachesStep(start, before, ClaimError(i, swept, fate.claimFault.value));
        return Some(r);
      }
      var acquired, swept := ClaimStatement(req);
      Moves(i, if acquired then Executing else Missed);
      ClaimIsStep(before, i, swept, Snapshot());
      ReachesStep(start, before, Claim(i, swept));
      if acquired {
        response := ExecuteAndComplete(i, req, fate, start);
      } else {
        response := AnswerFromRecord(i, req, fate, start);
      }
    }

    /** The call owns the record: it runs the operation and records the result. */
    method ExecuteAndComplete(i: nat, req: Request, fate: Fate, ghost start: State) returns (response: Option<Response>)
      requires i in calls && calls[i] == Call(req, Executing) && Reaches(start, Snapshot())
      modifies this
      ensures Reaches(start, Snapshot()) && EndsWith(calls, i, response)
      ensures fate.crash != Some(AtExecute) ==> exists a :: 0 <= a < |log| && IsRunOf(log[a], i, req, fate.result)
      ensures response.None? <==> fate.crash == Some(AtExecute) || fate.crash == Some(AtComplete)
      ensures response.Some? ==> IsFirstAnswer(response.value, fate.result, req.id) || IsNotRecorded(response.value, req.id)
      ensures response.Some? && fate.completeFault.Some? ==> IsNotRecorded(response.value, req.id)
    {
      hide Reaches, Legal, After, Enabled, Apply;
      Waits(i, start);
      if fate.crash == Some(AtExecute) {
        Crashes(i, start);
        return None;
      }
      ghost var before := Snapshot();
      var run := |log|;
      var result := fate.result;
      log := log + [Run(req.slot, req.hash, req.policy, i, result, now)];
      Moves(i, Executed(run));
      ExecuteIsStep(before, i, result, Snapshot());
      ReachesStep(start, before, Execute(i, result));
      before := Snapshot();
      Elsewhere(i);
      LogGrows(before, Snapshot());
      ReachesTwice(start, before, Snapshot());
      assert IsRunOf(log[run], i, req, result);
      response := Records(i, req, result, fate, start, run);
      assert IsRunOf(log[run], i, req, result);
    }

    method Records(i: nat, req: Request, result: OpResult, fate: Fate, ghost start: State, run: nat) returns (response: Option<Response>)
      requires i in calls && calls[i] == Call(req, Executed(run)) && Reaches(start, Snapshot())
      requires run < |log| && log[run].result == result
      modifies this`table, this`calls, this`recorded
      ensures Reaches(start, Snapshot()) && EndsWith(calls, i, response)
      ensures response.None? <==> fate.crash == Some(AtComplete)
      ensures response.Some? ==> IsFirstAnswer(response.value, result, req.id) || IsNotRecorded(response.value, req.id)
      ensures response.Some? && fate.completeFault.Some? ==> IsNotRecorded(response.value, req.id)
    {
      hide Reaches, Legal, After, Enabled, Apply;
      if fate.crash == Some(AtComplete) {
        Crashes(i, start);
        return None;
      }
      ghost var before := Snapshot();
      var updated := false;
      if fate.completeFault.None? || fate.completeFault.value {
        updated := CompleteStatement(req, StatusOf(result), Encoded(req.policy, result), run);
      }
      if updated {
        recorded := recorded[run := now];
      }
      if fate.completeFault.Some? || !updated {
        var r := Refused(500, req.id, NotRecorded, true);
        Ends(i, r, None);
        assert Snapshot() == Moved(if updated then Recorded(before, req, run) else before, i, Done(r, None));
        NotRecordedIsStep(before, i, run, fate.completeFault, Snapshot());
        ReachesStep(start, before, CompletionOf(i, fate.completeFault));
        return Some(r);
      }
      var r := FirstHand(result, req.id);
      Ends(i, r, Some(run));
      CompleteIsStep(before, i, run, Snapshot());
      ReachesStep(start, before, Complete(i));
      response := Some(r);
    }

    /** The record was there: it is replayed, refused or waited for. */
    method AnswerFromRecord(i: nat, req: Request, fate: Fate, ghost start: State) returns (response: Option<Response>)
      requires i in calls && calls[i] == Call(req, Missed) && |fate.readFaults| == POLLS + 1 && Reaches(start, Snapshot())
      modifies this
      ensures Reaches(start, Snapshot()) && EndsWith(calls, i, response)
      ensures response.None? ==> fate.crash.Some?
    {
      hide Reaches, Legal, After, Enabled, Apply, LookupRow, Replay;
      Waits(i, start);
      if fate.crash == Some(AtRead) {
        Crashes(i, start);
        return None;
      }
      ghost var before := Snapshot();
      if fate.readFaults[0] {
        var r := Response(500, Message(req.id, Refusal(ClaimFailed, true)), false, false, false);
        Ends(i, r, None);
        ReadErrorIsStep(before, i, r, Snapshot());
        ReachesStep(start, before, ReadError(i));
        return Some(r);
      }
      var row := Lookup(req.slot, req.hash);
      match row {
        case Vanished =>
          response := Some(Response(409, Message(req.id, Refusal(ClaimVanished, false)), false, false, false));
          Ends(i, response.value, None);
        case Conflict =>
          response := Some(Refused(409, req.id, KeyReused, false));
          Ends(i, response.value, None);
        case Found(status, body, run) =>
          response := Some(Replay(status, body, req.id));
          Ends(i, response.value, Some(run));
        case Pending(createdAt) =>
          response := None;
          Moves(i, Waiting(0, createdAt));
      }
      ReadRowIsStep(before, i, row, Snapshot());
      ReachesStep(start, before, ReadRow(i));
      if row.Pending? {
        response := WaitsAndGivesUp(i, req, row.createdAt, fate, start);
      }
    }

    /** Polls, and gives up if no poll brings an answer. */
    method WaitsAndGivesUp(i: nat, req: Request, createdAt: nat, fate: Fate, ghost start: State) returns (response: Option<Response>)
      requires i in calls && calls[i] == Call(req, Waiting(0, createdAt)) && |fate.readFaults| == POLLS + 1 && Reaches(start, Snapshot())
      modifies this
      ensures Reaches(start, Snapshot()) && EndsWith(calls, i, response)
      ensures response.None? ==> fate.crash.Some?
    {
      hide Reaches, Legal, After, Enabled, Apply;
      var over;
      over, response := WaitForIdempotentResult(i, req, createdAt, fate, start);
      if over {
        return;
      }
      Waits(i, start);
      if fate.crash == Some(AtGiveUp) {
        Crashes(i, start);
        return None;
      }
      ghost var before := Snapshot();
      var r := GiveUpAnswer(now, createdAt, req.id);
      Ends(i, r, None);
      GiveUpIsStep(before, i, r, Snapshot());
      ReachesStep(start, before, GiveUp(i));
      response := Some(r);
    }

    /** Polls for the result of the call that owns the record: an answer, the end of the process, or ten polls that found the record in progress. */
    method WaitForIdempotentResult(i: nat, req: Request, createdAt: nat, fate: Fate, ghost start: State) returns (over: bool, answer: Option<Response>)
      requires i in calls && calls[i] == Call(req, Waiting(0, createdAt)) && |fate.readFaults| == POLLS + 1 && Reaches(start, Snapshot())
      modifies this
      ensures Reaches(start, Snapshot())
      ensures if over then EndsWith(calls, i, answer) else i in calls && calls[i] == Call(req, Waiting(10, createdAt))
      ensures over && answer.None? ==> fate.crash.Some?
    {
      hide Reaches, Legal, After, Enabled, Apply, LookupRow, Replay;
      for polls := 0 to POLLS
        invariant Reaches(start, Snapshot())
        invariant i in calls && calls[i] == Call(req, Waiting(polls, createdAt))
      {
        Waits(i, start);
        if fate.crash == Some(AtPoll(polls)) {
          Crashes(i, start);
          return true, None;
        }
        ghost var before := Snapshot();
        if fate.readFaults[polls + 1] {
          answer := Some(Refused(500, req.id, Unreadable, true));
          Ends(i, answer.value, None);
          ReadErrorIsStep(before, i, answer.value, Snapshot());
          ReachesStep(start, before, ReadError(i));
          return true, answer;
        }
        var row := Lookup(req.slot, req.hash);
        match row {
          case Vanished =>
            answer := Some(Refused(500, req.id, Unreadable, true));
            Ends(i, answer.value, None);
          case Conflict =>
            answer := Some(Refused(409, req.id, KeyReused, false));
            Ends(i, answer.value, None);
          case Pending(_) =>
            Moves(i, Waiting(polls + 1, createdAt));
          case Found(status, body, run) =>
            answer := Some(Replay(status, body, req.id));
            Ends(i, answer.value, Some(run));
        }
        PollIsStep(before, i, row, Snapshot());
        ReachesStep(start, before, PollRow(i));
        if !row.Pending? {
          return true, answer;
        }
      }
      return false, None;
    }
  }

  /** What the caller is told of the result of its own operation. */
  ghost predicate IsFirstAnswer(response: Response, result: OpResult, id: string) {
    && Tells(result, response.status, response.message.outcome) && response.message.requestId == id
    && response.keyEchoed && !response.replayed && !response.retryAfter
  }

  /** What it is told if the result could not be recorded. */
  ghost predicate IsNotRecorded(response: Response, id: string) {
    response == Response(500, Message(id, Refusal(NotRecorded, true)), true, false, false)
  }

  /** A call has ended with its response, or its process has ended before. */
  predicate EndsWith(calls: map<nat, Call>, i: nat, response: Option<Response>) {
    i in calls && match response
                  case Some(r) => calls[i].phase.Done? && calls[i].phase.response == r
                  case None => calls[i].phase.Crashed?
  }

  /** What one claim sweeps: expired records, all of them or a hundred none of which expired after one left behind. */
  predicate OldestExpired(table: map<Slot, Record>, now: nat, swept: set<Slot>) {
    && |swept| <= 100
    && (forall k :: k in swept ==> k in table && Expired(table[k], now))
    && forall other :: other in table && other !in swept && Expired(table[other], now) ==>
         |swept| == 100 && forall k :: k in swept ==> table[k].expiresAt <= table[other].expiresAt
  }

  // ---------- what the code changed is a step of the protocol ----------

  lemma ClaimIsStep(s: State, i: nat, swept: set<Slot>, t: State)
    requires i in s.calls && s.calls[i].phase.Start? && OldestExpired(s.table, s.now, swept)
    requires var free := Free(s.table, s.calls[i].req.slot, s.now);
             t == Moved(s.(table := ClaimTable(s, s.calls[i].req, swept)), i, if free then Executing else Missed)
    ensures Enabled(s, Claim(i, swept)) && Apply(s, Claim(i, swept)) == t
  {
  }

  lemma ClaimErrorIsStep(s: State, i: nat, swept: set<Slot>, applied: bool, t: State)
    requires i in s.calls && s.calls[i].phase.Start? && (swept == {} || OldestExpired(s.table, s.now, swept))
    requires t == Moved(if applied then s.(table := ClaimTable(s, s.calls[i].req, swept)) else s, i,
                        Done(Response(500, Message(s.calls[i].req.id, Refusal(ClaimFailed, true)), false, false, false), None))
    ensures Enabled(s, ClaimError(i, swept, applied)) && Apply(s, ClaimError(i, swept, applied)) == t
  {
  }

  lemma ExecuteIsStep(s: State, i: nat, result: OpResult, t: State)
    requires i in s.calls && s.calls[i].phase.Executing?
    requires var req := s.calls[i].req;
             t == Moved(s.(log := s.log + [Run(req.slot, req.hash, req.policy, i, result, s.now)]), i, Executed(|s.log|))
    ensures Enabled(s, Execute(i, result)) && Apply(s, Execute(i, result)) == t
  {
  }

  lemma CompleteIsStep(s: State, i: nat, run: nat, t: State)
    requires i in s.calls && s.calls[i].phase == Executed(run) && run < |s.log| && Completable(s.table, s.calls[i].req)
    requires t == Moved(Recorded(s, s.calls[i].req, run), i, Done(FirstHand(s.log[run].result, s.calls[i].req.id), Some(run)))
    ensures Enabled(s, Complete(i)) && Apply(s, Complete(i)) == t
  {
  }

  function CompletionOf(i: nat, fault: Option<bool>): Event {
    if fault.Some? then CompleteError(i, fault.value) else Complete(i)
  }

  lemma NotRecordedIsStep(s: State, i: nat, run: nat, fault: Option<bool>, t: State)
    requires i in s.calls && s.calls[i].phase == Executed(run) && run < |s.log|
    requires fault.None? ==> !Completable(s.table, s.calls[i].req)
    requires t == Moved(if fault.Some? && fault.value && Completable(s.table, s.calls[i].req) then Recorded(s, s.calls[i].req, run) else s, i,
                        Done(Refused(500, s.calls[i].req.id, NotRecorded, true), None))
    ensures Enabled(s, CompletionOf(i, fault)) && Apply(s, CompletionOf(i, fault)) == t
  {
  }

  lemma ReadErrorIsStep(s: State, i: nat, r: Response, t: State)
    requires i in s.calls && (s.calls[i].phase.Missed? || (s.calls[i].phase.Waiting? && s.calls[i].phase.polls < POLLS))
    requires var id := s.calls[i].req.id;
             r == if s.calls[i].phase.Missed? then Response(500, Message(id, Refusal(ClaimFailed, true)), false, false, false)
                  else Refused(500, id, Unreadable, true)
    requires t == Moved(s, i, Done(r, None))
    ensures Enabled(s, ReadError(i)) && Apply(s, ReadError(i)) == t
  {
  }

  lemma ReadRowIsStep(s: State, i: nat, row: Lookup, t: State)
    requires i in s.calls && s.calls[i].phase.Missed? && row == LookupRow(s.table, s.calls[i].req.slot, s.calls[i].req.hash)
    requires var id := s.calls[i].req.id;
             t == Moved(s, i, match row
                              case Vanished => Done(Response(409, Message(id, Refusal(ClaimVanished, false)), false, false, false), None)
                              case Conflict => Done(Refused(409, id, KeyReused, false), None)
                              case Pending(createdAt) => Waiting(0, createdAt)
                              case Found(status, body, run) => Done(Replay(status, body, id), Some(run)))
    ensures Enabled(s, ReadRow(i)) && Apply(s, ReadRow(i)) == t
  {
  }

  lemma PollIsStep(s: State, i: nat, row: Lookup, t: State)
    requires i in s.calls && s.calls[i].phase.Waiting? && s.calls[i].phase.polls < POLLS
    requires row == LookupRow(s.table, s.calls[i].req.slot, s.calls[i].req.hash)
    requires var id := s.calls[i].req.id;
             t == Moved(s, i, match row
                              case Vanished => Done(Refused(500, id, Unreadable, true), None)
                              case Conflict => Done(Refused(409, id, KeyReused, false), None)
                              case Pending(_) => Waiting(s.calls[i].phase.polls + 1, s.calls[i].phase.createdAt)
                              case Found(status, body, run) => Done(Replay(status, body, id), Some(run)))
    ensures Enabled(s, PollRow(i)) && Apply(s, PollRow(i)) == t
  {
  }

  lemma GiveUpIsStep(s: State, i: nat, r: Response, t: State)
    requires i in s.calls && s.calls[i].phase.Waiting? && s.calls[i].phase.polls == POLLS
    requires r == GiveUpAnswer(s.now, s.calls[i].phase.createdAt, s.calls[i].req.id) && t == Moved(s, i, Done(r, None))
    ensures Enabled(s, GiveUp(i)) && Apply(s, GiveUp(i)) == t
  {
  }

  lemma {:induction false} LogKept(s: State, events: seq<Event>)
    requires Legal(s, events)
    ensures s.log <= After(s, events).log
    decreases |events|
  {
    if events != [] {
      LogKept(Apply(s, events[0]), events[1..]);
    }
  }

  lemma LogGrows(s: State, t: State)
    requires Reaches(s, t)
    ensures s.log <= t.log
  {
    hide Legal, After;
    var events :| Legal(s, events) && After(s, events) == t;
    LogKept(s, events);
  }
}
