/**
 The idempotency protocol of API v1: any number of concurrent calls race on one
 record per (actor, key) through claim, execute, complete, poll and replay, with
 database faults and process crashes at every point.

 The state carries three history variables the service itself does not keep: the
 log of operation runs, the time each run's result was recorded, and the run a
 stored record or an answer came from. No decision of the protocol reads them.
 */
module Idempotency {
  import opened Options

  const RETENTION: nat := 24 * 3600
  const RECENT: nat := 5 * 60
  const POLLS: nat := 10
  const SWEEP_LIMIT: nat := 100

  // ---------- values ----------

  datatype Policy = Replayable | OneTimeSecret

  type Status = s: int | 100 <= s <= 999 witness 200

  datatype OpResult = OpOk(payload: string) | OpErr(status: Status, message: string)

  datatype Notice =
    | KeyReused | StillRunning | Indeterminate | NotRecorded | Unreadable
    | SecretNotReplayable | BadStoredStatus | ClaimVanished | ClaimFailed

  datatype Outcome =
    | Success(payload: string)
    | Failure(message: string, retryable: bool)
    | Refusal(notice: Notice, retryable: bool)

  datatype Message = Message(requestId: string, outcome: Outcome)

  datatype Response = Response(status: int, message: Message, keyEchoed: bool, replayed: bool, retryAfter: bool)

  datatype Slot = Slot(actor: string, key: string)

  datatype Record =
    | InProgress(hash: string, createdAt: nat)
    | Completed(hash: string, status: int, body: Option<Message>, expiresAt: nat, run: nat)

  datatype Request = Request(slot: Slot, hash: string, policy: Policy, id: string)

  datatype Phase =
    | Start                      // validated, about to claim
    | Missed                     // the claim found a live record; it is read next
    | Waiting(polls: nat, createdAt: nat)
    | Executing                  // owns the record, the operation has not run
    | Executed(run: nat)         // the operation ran, its result is not recorded
    | Done(response: Response, source: Option<nat>)
    | Crashed

  datatype Call = Call(req: Request, phase: Phase)

  datatype Run = Run(slot: Slot, hash: string, policy: Policy, caller: nat, result: OpResult, at: nat)

  datatype State = State(
    now: nat,
    table: map<Slot, Record>,
    calls: map<nat, Call>,
    log: seq<Run>,
    recorded: map<nat, nat>)

  const INITIAL := State(0, map[], map[], [], map[])

  // ---------- answers ----------

  function StatusOf(r: OpResult): Status {
    if r.OpOk? then 200 else r.status
  }

  function Retryable(status: int): bool {
    status == 429 || 500 <= status < 600
  }

  function OutcomeOf(r: OpResult): Outcome {
    if r.OpOk? then Success(r.payload) else Failure(r.message, Retryable(r.status))
  }

  function Refused(status: Status, id: string, notice: Notice, retryable: bool): Response {
    Response(status, Message(id, Refusal(notice, retryable)), true, false, false)
  }

  /** What `complete` is asked to store: nothing for a successful one-time secret. */
  function Encoded(policy: Policy, r: OpResult): Option<Message> {
    if policy.OneTimeSecret? && 200 <= StatusOf(r) < 300 then None
    else Some(Message("", OutcomeOf(r)))
  }

  function Replay(status: int, body: Option<Message>, id: string): Response {
    match body
    case None => Refused(409, id, SecretNotReplayable, false)
    case Some(stored) =>
      if 100 <= status <= 999
      then Response(status, stored.(requestId := id), true, true, false)
      else Refused(500, id, BadStoredStatus, true)
  }

  function FirstHand(r: OpResult, id: string): Response {
    Response(StatusOf(r), Message(id, OutcomeOf(r)), true, false, false)
  }

  function GiveUpAnswer(now: nat, createdAt: nat, id: string): Response {
    if now - createdAt <= RECENT
    then Refused(409, id, StillRunning, true).(retryAfter := true)
    else Refused(409, id, Indeterminate, false)
  }

  // ---------- the record table ----------

  predicate Expired(r: Record, now: nat) {
    r.Completed? && r.expiresAt <= now
  }

  predicate Free(table: map<Slot, Record>, slot: Slot, now: nat) {
    slot !in table || Expired(table[slot], now)
  }

  datatype Lookup = Vanished | Conflict | Pending(createdAt: nat) | Found(status: int, body: Option<Message>, run: nat)

  function LookupRow(table: map<Slot, Record>, slot: Slot, hash: string): Lookup {
    if slot !in table then Vanished
    else if table[slot].hash != hash then Conflict
    else match table[slot]
      case InProgress(_, createdAt) => Pending(createdAt)
      case Completed(_, status, body, _, run) => Found(status, body, run)
  }

  // ---------- steps ----------

  datatype Event =
    | Arrive(i: nat, req: Request)
    | Claim(i: nat, swept: set<Slot>)
    | ClaimError(i: nat, swept: set<Slot>, applied: bool)
    | ReadRow(i: nat)            // the lookup right after a missed claim
    | PollRow(i: nat)
    | ReadError(i: nat)
    | GiveUp(i: nat)
    | Execute(i: nat, result: OpResult)
    | Complete(i: nat)
    | CompleteError(i: nat, applied: bool)
    | Crash(i: nat)
    | Tick(seconds: nat)

  predicate Sweepable(s: State, swept: set<Slot>) {
    |swept| <= SWEEP_LIMIT && forall k :: k in swept ==> k in s.table && Expired(s.table[k], s.now)
  }

  predicate Enabled(s: State, e: Event) {
    match e
    case Arrive(i, _) => i !in s.calls
    case Tick(_) => true
    case Claim(i, swept) => i in s.calls && s.calls[i].phase.Start? && Sweepable(s, swept)
    case ClaimError(i, swept, _) => i in s.calls && s.calls[i].phase.Start? && Sweepable(s, swept)
    case ReadRow(i) => i in s.calls && s.calls[i].phase.Missed?
    case PollRow(i) => i in s.calls && s.calls[i].phase.Waiting? && s.calls[i].phase.polls < POLLS
    case ReadError(i) =>
      i in s.calls && (s.calls[i].phase.Missed? || (s.calls[i].phase.Waiting? && s.calls[i].phase.polls < POLLS))
    case GiveUp(i) => i in s.calls && s.calls[i].phase.Waiting? && s.calls[i].phase.polls == POLLS
    case Execute(i, _) => i in s.calls && s.calls[i].phase.Executing?
    case Complete(i) => i in s.calls && s.calls[i].phase.Executed? && s.calls[i].phase.run < |s.log|
    case CompleteError(i, _) => i in s.calls && s.calls[i].phase.Executed? && s.calls[i].phase.run < |s.log|
    case Crash(i) => i in s.calls && !s.calls[i].phase.Done?
  }

  function Moved(s: State, i: nat, phase: Phase): State
    requires i in s.calls
  {
    s.(calls := s.calls[i := s.calls[i].(phase := phase)])
  }

  /** The single claim statement: sweep, then insert, or take over an expired record. */
  function ClaimTable(s: State, req: Request, swept: set<Slot>): map<Slot, Record> {
    if Free(s.table, req.slot, s.now)
    then (s.table - swept)[req.slot := InProgress(req.hash, s.now)]
    else s.table - swept
  }

  /** The record `complete` may update: in progress, with the caller's hash. */
  predicate Completable(table: map<Slot, Record>, req: Request) {
    req.slot in table && table[req.slot].InProgress? && table[req.slot].hash == req.hash
  }

  function Recorded(s: State, req: Request, run: nat): State
    requires run < |s.log|
  {
    var r := s.log[run].result;
    s.(table := s.table[req.slot := Completed(req.hash, StatusOf(r), Encoded(req.policy, r), s.now + RETENTION, run)],
       recorded := s.recorded[run := s.now])
  }

  /** The phase after the lookup that follows a missed claim. */
  function AfterRead(s: State, c: Call): Phase {
    match LookupRow(s.table, c.req.slot, c.req.hash)
    case Vanished =>
      Done(Response(409, Message(c.req.id, Refusal(ClaimVanished, false)), false, false, false), None)
    case Conflict => Done(Refused(409, c.req.id, KeyReused, false), None)
    case Pending(createdAt) => Waiting(0, createdAt)
    case Found(status, body, run) => Done(Replay(status, body, c.req.id), Some(run))
  }

  function AfterPoll(s: State, c: Call): Phase
    requires c.phase.Waiting?
  {
    match LookupRow(s.table, c.req.slot, c.req.hash)
    case Vanished => Done(Refused(500, c.req.id, Unreadable, true), None)
    case Conflict => Done(Refused(409, c.req.id, KeyReused, false), None)
    case Pending(_) => Waiting(c.phase.polls + 1, c.phase.createdAt)
    case Found(status, body, run) => Done(Replay(status, body, c.req.id), Some(run))
  }

  function Apply(s: State, e: Event): State
    requires Enabled(s, e)
  {
    match e
    case Tick(seconds) => s.(now := s.now + seconds)
    case Arrive(i, req) => s.(calls := s.calls[i := Call(req, Start)])
    case Claim(i, swept) =>
      var req := s.calls[i].req;
      Moved(s.(table := ClaimTable(s, req, swept)), i, if Free(s.table, req.slot, s.now) then Executing else Missed)
    case ClaimError(i, swept, applied) =>
      var req := s.calls[i].req;
      Moved(if applied then s.(table := ClaimTable(s, req, swept)) else s, i,
            Done(Response(500, Message(req.id, Refusal(ClaimFailed, true)), false, false, false), None))
    case ReadRow(i) => Moved(s, i, AfterRead(s, s.calls[i]))
    case PollRow(i) => Moved(s, i, AfterPoll(s, s.calls[i]))
    case ReadError(i) =>
      var id := s.calls[i].req.id;
      Moved(s, i, Done(if s.calls[i].phase.Missed?
                       then Response(500, Message(id, Refusal(ClaimFailed, true)), false, false, false)
                       else Refused(500, id, Unreadable, true), None))
    case GiveUp(i) => Moved(s, i, Done(GiveUpAnswer(s.now, s.calls[i].phase.createdAt, s.calls[i].req.id), None))
    case Execute(i, result) =>
      var req := s.calls[i].req;
      Moved(s.(log := s.log + [Run(req.slot, req.hash, req.policy, i, result, s.now)]), i, Executed(|s.log|))
    case Complete(i) =>
      var req, run := s.calls[i].req, s.calls[i].phase.run;
      if Completable(s.table, req)
      then Moved(Recorded(s, req, run), i, Done(FirstHand(s.log[run].result, req.id), Some(run)))
      else Moved(s, i, Done(Refused(500, req.id, NotRecorded, true), None))
    case CompleteError(i, applied) =>
      var req, run := s.calls[i].req, s.calls[i].phase.run;
      Moved(if applied && Completable(s.table, req) then Recorded(s, req, run) else s, i,
            Done(Refused(500, req.id, NotRecorded, true), None))
    case Crash(i) => Moved(s, i, Crashed)
  }

  predicate Legal(s: State, events: seq<Event>)
    decreases |events|
  {
    events == [] || (Enabled(s, events[0]) && Legal(Apply(s, events[0]), events[1..]))
  }

  function After(s: State, events: seq<Event>): State
    requires Legal(s, events)
    decreases |events|
  {
    if events == [] then s else After(Apply(s, events[0]), events[1..])
  }

  // ---------- the invariant ----------

  type Times = map<nat, nat>

  /** Run a's result was recorded and its retention ended by time t. */
  predicate Settled(recorded: Times, a: nat, t: nat) {
    a in recorded && recorded[a] + RETENTION <= t
  }

  predicate Owns(c: Call) {
    c.phase.Executing? || c.phase.Executed?
  }

  /** What the record of a run's slot says about the run. */
  predicate RunCovered(now: nat, table: map<Slot, Record>, log: seq<Run>, recorded: Times, a: nat)
    requires a < |log|
  {
    var slot := log[a].slot;
    if slot !in table then Settled(recorded, a, now)
    else match table[slot]
      case InProgress(hash, createdAt) => Settled(recorded, a, createdAt) || (a !in recorded && log[a].hash == hash)
      case Completed(_, _, _, expiresAt, run) =>
        Settled(recorded, a, expiresAt) && (now < recorded[a] + RETENTION ==> run == a)
  }

  predicate RowSound(now: nat, log: seq<Run>, recorded: Times, slot: Slot, row: Record) {
    match row
    case InProgress(_, createdAt) => createdAt <= now
    case Completed(hash, status, body, expiresAt, run) =>
      && run < |log| && log[run].slot == slot && log[run].hash == hash
      && run in recorded && recorded[run] + RETENTION == expiresAt
      && status == StatusOf(log[run].result)
      && body == Encoded(log[run].policy, log[run].result)
  }

  /** The answer of a finished call comes from a recorded run of the same slot and payload, or from none. */
  predicate AnswerSound(log: seq<Run>, recorded: Times, i: nat, req: Request, resp: Response, source: Option<nat>) {
    && resp.message.requestId == req.id
    && match source
       case None => !resp.replayed && resp.message.outcome.Refusal?
       case Some(a) =>
         && a < |log| && log[a].slot == req.slot && log[a].hash == req.hash && a in recorded
         && if Encoded(log[a].policy, log[a].result).None? && log[a].caller != i
            then resp == Refused(409, req.id, SecretNotReplayable, false)
            else resp == FirstHand(log[a].result, req.id).(replayed := log[a].caller != i)
  }

  predicate CallSound(table: map<Slot, Record>, log: seq<Run>, recorded: Times, i: nat, c: Call) {
    match c.phase
    case Executing =>
      && Completable(table, c.req)
      && forall a :: 0 <= a < |log| && log[a].slot == c.req.slot ==> Settled(recorded, a, table[c.req.slot].createdAt)
    case Executed(run) =>
      && Completable(table, c.req)
      && run < |log| && log[run] == Run(c.req.slot, c.req.hash, c.req.policy, i, log[run].result, log[run].at)
      && run !in recorded
    case Done(resp, source) => AnswerSound(log, recorded, i, c.req, resp, source)
    case _ => true
  }

  /** The call that made a run is past the operation. */
  predicate CallerSound(calls: map<nat, Call>, r: Run, a: nat) {
    && r.caller in calls
    && match calls[r.caller].phase
       case Executed(run) => run == a
       case Done(_, _) => true
       case Crashed => true
       case _ => false
  }

  ghost predicate TimesSound(s: State) {
    && (forall a :: a in s.recorded ==> a < |s.log| && s.log[a].at <= s.recorded[a] <= s.now)
    && (forall a :: 0 <= a < |s.log| ==> s.log[a].at <= s.now)
    && (forall a, b :: 0 <= a < b < |s.log| && s.log[a].slot == s.log[b].slot ==> Settled(s.recorded, a, s.log[b].at))
  }

  ghost predicate OneOwner(calls: map<nat, Call>) {
    forall i, j | i in calls && j in calls && Owns(calls[i]) && Owns(calls[j]) ::
      calls[i].req.slot == calls[j].req.slot ==> i == j
  }

  ghost predicate RunsCovered(s: State) {
    forall a :: 0 <= a < |s.log| ==> RunCovered(s.now, s.table, s.log, s.recorded, a)
  }

  ghost predicate CallersSound(s: State) {
    forall a :: 0 <= a < |s.log| ==> CallerSound(s.calls, s.log[a], a)
  }

  ghost predicate RowsSound(s: State) {
    forall slot :: slot in s.table ==> RowSound(s.now, s.log, s.recorded, slot, s.table[slot])
  }

  ghost predicate CallsSound(s: State) {
    forall i :: i in s.calls ==> CallSound(s.table, s.log, s.recorded, i, s.calls[i])
  }

  ghost predicate Inv(s: State) {
    TimesSound(s) && OneOwner(s.calls) && RunsCovered(s) && CallersSound(s) && RowsSound(s) && CallsSound(s)
  }

  /** Puts the invariant together after one call has moved to a new phase. */
  lemma MovedInv(s: State, i: nat, phase: Phase)
    requires TimesSound(s) && RunsCovered(s) && RowsSound(s) && CallersSound(s) && OneOwner(s.calls)
    requires i in s.calls && !s.calls[i].phase.Done? && !phase.Executed?
    requires Owns(s.calls[i]) || s.calls[i].phase.Crashed? ==> phase.Crashed? || phase.Done?
    requires phase.Executing? ==> forall j :: j in s.calls && Owns(s.calls[j]) ==> s.calls[j].req.slot != s.calls[i].req.slot
    requires forall j :: j in s.calls && j != i ==> CallSound(s.table, s.log, s.recorded, j, s.calls[j])
    requires CallSound(s.table, s.log, s.recorded, i, Call(s.calls[i].req, phase))
    ensures Inv(Moved(s, i, phase))
  {
  }

  /** Steps that touch only the caller's phase, and never hand it the record. */
  lemma PhaseStepKeepsInv(s: State, i: nat, phase: Phase)
    requires Inv(s) && i in s.calls
    requires !s.calls[i].phase.Done? && !phase.Executing? && !phase.Executed?
    requires Owns(s.calls[i]) || s.calls[i].phase.Crashed? ==> phase.Crashed? || phase.Done?
    requires CallSound(s.table, s.log, s.recorded, i, Call(s.calls[i].req, phase))
    ensures Inv(Moved(s, i, phase))
  {
  }

  lemma ArriveKeepsInv(s: State, i: nat, req: Request)
    requires Inv(s) && i !in s.calls
    ensures Inv(Apply(s, Arrive(i, req)))
  {
  }

  lemma TickKeepsInv(s: State, seconds: nat)
    requires Inv(s)
    ensures Inv(Apply(s, Tick(seconds)))
  {
    var s' := Apply(s, Tick(seconds));
    forall a | 0 <= a < |s'.log|
      ensures RunCovered(s'.now, s'.table, s'.log, s'.recorded, a)
    {
      assert RunCovered(s.now, s.table, s.log, s.recorded, a);
    }
  }

  lemma ClaimKeepsRuns(s: State, req: Request, swept: set<Slot>)
    requires Inv(s) && Sweepable(s, swept)
    ensures RunsCovered(s.(table := ClaimTable(s, req, swept)))
  {
    var table := ClaimTable(s, req, swept);
    forall a | 0 <= a < |s.log|
      ensures RunCovered(s.now, table, s.log, s.recorded, a)
    {
      assert RunCovered(s.now, s.table, s.log, s.recorded, a);
    }
  }

  lemma ClaimKeepsCalls(s: State, i: nat, swept: set<Slot>)
    requires Inv(s) && i in s.calls && s.calls[i].phase.Start? && Sweepable(s, swept)
    ensures var table := ClaimTable(s, s.calls[i].req, swept);
            && (forall j :: j in s.calls && j != i ==> CallSound(table, s.log, s.recorded, j, s.calls[j]))
            && (Free(s.table, s.calls[i].req.slot, s.now) ==>
                  CallSound(table, s.log, s.recorded, i, Call(s.calls[i].req, Executing)))
  {
    var req := s.calls[i].req;
    var table := ClaimTable(s, req, swept);
    forall j | j in s.calls && j != i
      ensures CallSound(table, s.log, s.recorded, j, s.calls[j])
    {
      assert CallSound(s.table, s.log, s.recorded, j, s.calls[j]);
    }
    if Free(s.table, req.slot, s.now) {
      forall a | 0 <= a < |s.log| && s.log[a].slot == req.slot
        ensures Settled(s.recorded, a, s.now)
      {
        assert RunCovered(s.now, s.table, s.log, s.recorded, a);
      }
    }
  }

  lemma ClaimKeepsInv(s: State, i: nat, swept: set<Slot>, phase: Phase)
    requires Inv(s) && i in s.calls && s.calls[i].phase.Start? && Sweepable(s, swept)
    requires phase.Executing? ==> Free(s.table, s.calls[i].req.slot, s.now)
    requires phase.Executing? || phase.Missed?
             || (phase.Done? && AnswerSound(s.log, s.recorded, i, s.calls[i].req, phase.response, phase.source))
    ensures Inv(Moved(s.(table := ClaimTable(s, s.calls[i].req, swept)), i, phase))
  {
    var req := s.calls[i].req;
    ClaimKeepsRuns(s, req, swept);
    ClaimKeepsCalls(s, i, swept);
    assert forall j :: j in s.calls && Owns(s.calls[j]) ==> Completable(s.table, s.calls[j].req);
    MovedInv(s.(table := ClaimTable(s, req, swept)), i, phase);
  }

  lemma ExecuteKeepsInv(s: State, i: nat, result: OpResult)
    requires Inv(s) && Enabled(s, Execute(i, result))
    ensures Inv(Apply(s, Execute(i, result)))
  {
    hide CallsSound;
    ExecuteKeepsTimes(s, i, result);
    ExecuteKeepsRuns(s, i, result);
    ExecuteKeepsCalls(s, i, result);
  }

  lemma ExecuteKeepsTimes(s: State, i: nat, result: OpResult)
    requires Inv(s) && Enabled(s, Execute(i, result))
    ensures TimesSound(Apply(s, Execute(i, result))) && OneOwner(Apply(s, Execute(i, result)).calls)
  {
    hide RunsCovered, CallersSound, RowsSound;
    assert CallSound(s.table, s.log, s.recorded, i, s.calls[i]);
    assert RowSound(s.now, s.log, s.recorded, s.calls[i].req.slot, s.table[s.calls[i].req.slot]) by { ExecutingRowSound(s, i); }
  }

  lemma ExecutingRowSound(s: State, i: nat)
    requires RowsSound(s) && CallsSound(s) && i in s.calls && s.calls[i].phase.Executing?
    ensures s.calls[i].req.slot in s.table && RowSound(s.now, s.log, s.recorded, s.calls[i].req.slot, s.table[s.calls[i].req.slot])
  {
    hide RowSound;
    assert CallSound(s.table, s.log, s.recorded, i, s.calls[i]);
  }

  lemma ExecuteKeepsRuns(s: State, i: nat, result: OpResult)
    requires Inv(s) && Enabled(s, Execute(i, result))
    ensures var s' := Apply(s, Execute(i, result)); RunsCovered(s') && CallersSound(s') && RowsSound(s')
  {
    hide OneOwner;
    var s' := Apply(s, Execute(i, result));
    assert CallSound(s.table, s.log, s.recorded, i, s.calls[i]);
    forall a | 0 <= a < |s'.log|
      ensures RunCovered(s'.now, s'.table, s'.log, s'.recorded, a)
    {
      if a < |s.log| { assert RunCovered(s.now, s.table, s.log, s.recorded, a); }
    }
  }

  lemma ExecuteKeepsCalls(s: State, i: nat, result: OpResult)
    requires Inv(s) && Enabled(s, Execute(i, result))
    ensures CallsSound(Apply(s, Execute(i, result)))
  {
    var s' := Apply(s, Execute(i, result));
    assert CallSound(s.table, s.log, s.recorded, i, s.calls[i]);
    forall j | j in s'.calls
      ensures CallSound(s'.table, s'.log, s'.recorded, j, s'.calls[j])
    {
      assert CallSound(s.table, s.log, s.recorded, j, s.calls[j]);
    }
  }

  lemma RecordedKeepsRuns(s: State, i: nat)
    requires Inv(s) && Enabled(s, Complete(i))
    ensures RunsCovered(Recorded(s, s.calls[i].req, s.calls[i].phase.run))
  {
    var run := s.calls[i].phase.run;
    var s' := Recorded(s, s.calls[i].req, run);
    assert CallSound(s.table, s.log, s.recorded, i, s.calls[i]);
    forall a | 0 <= a < |s'.log|
      ensures RunCovered(s'.now, s'.table, s'.log, s'.recorded, a)
    {
      assert RunCovered(s.now, s.table, s.log, s.recorded, a);
      if s.log[a].slot == s.calls[i].req.slot && a != run {
        assert !Settled(s.recorded, run, s.log[a].at);
        assert a < run && Settled(s.recorded, a, s.log[run].at);
      }
    }
  }

  lemma RecordedKeepsCalls(s: State, i: nat)
    requires Inv(s) && Enabled(s, Complete(i))
    ensures var s' := Recorded(s, s.calls[i].req, s.calls[i].phase.run);
            forall j :: j in s.calls && j != i ==> CallSound(s'.table, s'.log, s'.recorded, j, s.calls[j])
  {
    var run := s.calls[i].phase.run;
    var s' := Recorded(s, s.calls[i].req, run);
    assert CallSound(s.table, s.log, s.recorded, i, s.calls[i]);
    forall j | j in s.calls && j != i
      ensures CallSound(s'.table, s'.log, s'.recorded, j, s.calls[j])
    {
      assert CallSound(s.table, s.log, s.recorded, j, s.calls[j]);
    }
  }

  lemma RecordedKeepsTimes(s: State, i: nat)
    requires Inv(s) && Enabled(s, Complete(i))
    ensures TimesSound(Recorded(s, s.calls[i].req, s.calls[i].phase.run))
  {
    assert CallSound(s.table, s.log, s.recorded, i, s.calls[i]);
  }

  lemma RecordedKeepsRows(s: State, i: nat)
    requires Inv(s) && Enabled(s, Complete(i))
    ensures RowsSound(Recorded(s, s.calls[i].req, s.calls[i].phase.run))
  {
    var run := s.calls[i].phase.run;
    var s' := Recorded(s, s.calls[i].req, run);
    assert CallSound(s.table, s.log, s.recorded, i, s.calls[i]);
    forall slot | slot in s'.table
      ensures RowSound(s'.now, s'.log, s'.recorded, slot, s'.table[slot])
    {
      if slot in s.table { assert RowSound(s.now, s.log, s.recorded, slot, s.table[slot]); }
    }
  }

  lemma RecordedKeepsInv(s: State, i: nat, phase: Phase)
    requires Inv(s) && Enabled(s, Complete(i)) && phase.Done?
    requires var s' := Recorded(s, s.calls[i].req, s.calls[i].phase.run);
             AnswerSound(s'.log, s'.recorded, i, s.calls[i].req, phase.response, phase.source)
    ensures Inv(Moved(Recorded(s, s.calls[i].req, s.calls[i].phase.run), i, phase))
  {
    RecordedKeepsRuns(s, i);
    RecordedKeepsCalls(s, i);
    RecordedKeepsRows(s, i);
    RecordedKeepsTimes(s, i);
    MovedInv(Recorded(s, s.calls[i].req, s.calls[i].phase.run), i, phase);
  }

  lemma AnsweredFromRow(s: State, i: nat, status: int, body: Option<Message>, run: nat)
    requires Inv(s) && i in s.calls && (s.calls[i].phase.Missed? || s.calls[i].phase.Waiting?)
    requires LookupRow(s.table, s.calls[i].req.slot, s.calls[i].req.hash) == Found(status, body, run)
    ensures AnswerSound(s.log, s.recorded, i, s.calls[i].req, Replay(status, body, s.calls[i].req.id), Some(run))
  {
    var slot := s.calls[i].req.slot;
    assert RowSound(s.now, s.log, s.recorded, slot, s.table[slot]);
    assert CallerSound(s.calls, s.log[run], run);
  }

  /** Every step of every call keeps the invariant. */
  lemma StepKeepsInv(s: State, e: Event)
    requires Inv(s) && Enabled(s, e)
    ensures Inv(Apply(s, e))
  {
    match e
    case Tick(seconds) => TickKeepsInv(s, seconds);
    case Arrive(i, req) => ArriveKeepsInv(s, i, req);
    case Claim(i, swept) =>
      ClaimKeepsInv(s, i, swept, if Free(s.table, s.calls[i].req.slot, s.now) then Executing else Missed);
    case ClaimError(i, swept, applied) =>
      var phase := Apply(s, e).calls[i].phase;
      if applied { ClaimKeepsInv(s, i, swept, phase); } else { PhaseStepKeepsInv(s, i, phase); }
    case ReadRow(i) => ReadKeepsInv(s, i);
    case PollRow(i) => PollKeepsInv(s, i);
    case Execute(i, result) => ExecuteKeepsInv(s, i, result);
    case Complete(i) => CompleteKeepsInv(s, i);
    case CompleteError(i, applied) => CompleteErrorKeepsInv(s, i, applied);
    case _ => PhaseStepKeepsInv(s, e.i, Apply(s, e).calls[e.i].phase);
  }

  lemma ReadKeepsInv(s: State, i: nat)
    requires Inv(s) && Enabled(s, ReadRow(i))
    ensures Inv(Apply(s, ReadRow(i)))
  {
    var c := s.calls[i];
    match LookupRow(s.table, c.req.slot, c.req.hash) {
      case Found(status, body, run) => AnsweredFromRow(s, i, status, body, run);
      case _ =>
    }
    PhaseStepKeepsInv(s, i, AfterRead(s, c));
  }

  lemma PollKeepsInv(s: State, i: nat)
    requires Inv(s) && Enabled(s, PollRow(i))
    ensures Inv(Apply(s, PollRow(i)))
  {
    var c := s.calls[i];
    match LookupRow(s.table, c.req.slot, c.req.hash) {
      case Found(status, body, run) => AnsweredFromRow(s, i, status, body, run);
      case _ =>
    }
    PhaseStepKeepsInv(s, i, AfterPoll(s, c));
  }

  lemma CompleteKeepsInv(s: State, i: nat)
    requires Inv(s) && Enabled(s, Complete(i))
    ensures Inv(Apply(s, Complete(i)))
  {
    assert CallSound(s.table, s.log, s.recorded, i, s.calls[i]);
    RecordedKeepsInv(s, i, Apply(s, Complete(i)).calls[i].phase);
  }

  lemma CompleteErrorKeepsInv(s: State, i: nat, applied: bool)
    requires Inv(s) && Enabled(s, CompleteError(i, applied))
    ensures Inv(Apply(s, CompleteError(i, applied)))
  {
    assert CallSound(s.table, s.log, s.recorded, i, s.calls[i]);
    var phase := Apply(s, CompleteError(i, applied)).calls[i].phase;
    if applied { RecordedKeepsInv(s, i, phase); } else { PhaseStepKeepsInv(s, i, phase); }
  }

  lemma {:induction false} RunKeepsInv(s: State, events: seq<Event>)
    requires Inv(s) && Legal(s, events)
    ensures Inv(After(s, events))
    decreases |events|
  {
    if events != [] {
      StepKeepsInv(s, events[0]);
      RunKeepsInv(Apply(s, events[0]), events[1..]);
    }
  }

  // ---------- the promises of the API ----------

  /**
   In every interleaving, with crashes and database faults anywhere, a second run for
   one (actor, key) happens only after the first run's result was recorded and kept for
   its whole retention. A run whose recording was lost is the last one for its key.
   */
  lemma RunsAtMostOncePerRetention(events: seq<Event>, a: nat, b: nat)
    requires Legal(INITIAL, events)
    requires a < b < |After(INITIAL, events).log|
    requires After(INITIAL, events).log[a].slot == After(INITIAL, events).log[b].slot
    ensures var s := After(INITIAL, events);
            a in s.recorded && s.log[a].at <= s.recorded[a] && s.recorded[a] + 24 * 60 * 60 <= s.log[b].at
  {
    RunKeepsInv(INITIAL, events);
  }

  /** A claim gets the key exactly when no call holds it and every earlier run of the key was recorded and has outlived its retention. */
  lemma ClaimsExactlyWhenSettled(events: seq<Event>, i: nat, swept: set<Slot>)
    requires Legal(INITIAL, events) && Enabled(After(INITIAL, events), Claim(i, swept))
    ensures var s := After(INITIAL, events);
            var slot := s.calls[i].req.slot;
            Apply(s, Claim(i, swept)).calls[i].phase.Executing? <==>
              && (slot in s.table ==> !s.table[slot].InProgress?)
              && forall a :: 0 <= a < |s.log| && s.log[a].slot == slot ==> Settled(s.recorded, a, s.now)
  {
    hide Legal, After;
    RunKeepsInv(INITIAL, events);
    var s := After(INITIAL, events);
    var slot := s.calls[i].req.slot;
    forall a | 0 <= a < |s.log| && s.log[a].slot == slot
      ensures RunCovered(s.now, s.table, s.log, s.recorded, a)
    {
    }
    if slot in s.table {
      assert RowSound(s.now, s.log, s.recorded, slot, s.table[slot]);
    }
  }

  /** An answer taken from a run repeats that run's status and outcome, and only for the same actor, key and payload. */
  lemma AnswersAreFaithful(events: seq<Event>, i: nat)
    requires Legal(INITIAL, events) && i in After(INITIAL, events).calls
    requires After(INITIAL, events).calls[i].phase.Done?
    ensures var s := After(INITIAL, events);
            var c := s.calls[i];
            AnswerSound(s.log, s.recorded, i, c.req, c.phase.response, c.phase.source)
  {
    RunKeepsInv(INITIAL, events);
  }

  /** Two calls answered from one run asked the same thing, and saw the same status and outcome unless it was a secret. */
  lemma ReplayRepeatsFirstAnswer(events: seq<Event>, i: nat, j: nat)
    requires Legal(INITIAL, events)
    requires var s := After(INITIAL, events);
             && i in s.calls && s.calls[i].phase.Done? && s.calls[i].phase.source.Some?
             && j in s.calls && s.calls[j].phase.Done? && s.calls[j].phase.source == s.calls[i].phase.source
             && i != j
    ensures var s := After(INITIAL, events);
            var (ri, rj, a) := (s.calls[i].phase.response, s.calls[j].phase.response, s.calls[i].phase.source.value);
            && a < |s.log| && s.calls[i].req.slot == s.calls[j].req.slot && s.calls[i].req.hash == s.calls[j].req.hash
            && (ri.replayed || rj.replayed || Encoded(s.log[a].policy, s.log[a].result).None?)
            && ((ri.status == rj.status && ri.message.outcome == rj.message.outcome)
                || (Encoded(s.log[a].policy, s.log[a].result).None? &&
                    (ri.message.outcome == Refusal(SecretNotReplayable, false) || rj.message.outcome == Refusal(SecretNotReplayable, false))))
  {
    AnswersAreFaithful(events, i);
    AnswersAreFaithful(events, j);
  }

  /** No stored body ever belongs to a successful one-time secret; every other recorded body is the run's outcome. */
  lemma SecretsAreNeverStored(events: seq<Event>, slot: Slot)
    requires Legal(INITIAL, events) && slot in After(INITIAL, events).table
    requires After(INITIAL, events).table[slot].Completed?
    ensures var s := After(INITIAL, events);
            var row := s.table[slot];
            && row.run < |s.log| && s.log[row.run].slot == slot
            && (row.body.None? <==> s.log[row.run].policy.OneTimeSecret? && 200 <= row.status < 300)
            && (row.body.Some? ==> row.body.value == Message("", OutcomeOf(s.log[row.run].result)))
            && 100 <= row.status <= 999
  {
    RunKeepsInv(INITIAL, events);
    var s := After(INITIAL, events);
    assert RowSound(s.now, s.log, s.recorded, slot, s.table[slot]);
  }

  /** Within the retention of a recorded run, its record is still in the table, so a retry with the same payload is answered from it. */
  lemma RetryWithinRetentionReplays(events: seq<Event>, a: nat, i: nat)
    requires Legal(INITIAL, events)
    requires var s := After(INITIAL, events);
             && a in s.recorded && s.now < s.recorded[a] + RETENTION && a < |s.log|
             && i in s.calls && (s.calls[i].phase.Missed? || (s.calls[i].phase.Waiting? && s.calls[i].phase.polls < POLLS))
             && s.calls[i].req.slot == s.log[a].slot
    ensures var s := After(INITIAL, events);
            var c := s.calls[i];
            var next := if c.phase.Missed? then AfterRead(s, c) else AfterPoll(s, c);
            && next.Done?
            && (c.req.hash != s.log[a].hash ==> next == Done(Refused(409, c.req.id, KeyReused, false), None))
            && (c.req.hash == s.log[a].hash ==>
                  next == Done(Replay(StatusOf(s.log[a].result), Encoded(s.log[a].policy, s.log[a].result), c.req.id), Some(a)))
  {
    RunKeepsInv(INITIAL, events);
    var s := After(INITIAL, events);
    assert RunCovered(s.now, s.table, s.log, s.recorded, a);
    assert RowSound(s.now, s.log, s.recorded, s.log[a].slot, s.table[s.log[a].slot]);
  }

  // ---------- lost completions ----------

  /** The record is in progress and no live call owns it. */
  ghost predicate Orphaned(s: State, slot: Slot) {
    && slot in s.table && s.table[slot].InProgress?
    && forall i :: i in s.calls && s.calls[i].req.slot == slot ==> !Owns(s.calls[i])
  }

  /** A run whose caller ended without recording it leaves its key orphaned. */
  lemma LostRunOrphansKey(events: seq<Event>, a: nat)
    requires Legal(INITIAL, events)
    requires var s := After(INITIAL, events);
             a < |s.log| && a !in s.recorded && s.log[a].caller in s.calls && !Owns(s.calls[s.log[a].caller])
    ensures Orphaned(After(INITIAL, events), After(INITIAL, events).log[a].slot)
  {
    RunKeepsInv(INITIAL, events);
    var s := After(INITIAL, events);
    assert RunCovered(s.now, s.table, s.log, s.recorded, a);
    forall i | i in s.calls && s.calls[i].req.slot == s.log[a].slot
      ensures !Owns(s.calls[i])
    {
      assert CallSound(s.table, s.log, s.recorded, i, s.calls[i]);
    }
  }

  function RunsOf(log: seq<Run>, slot: Slot): seq<Run> {
    if log == [] then [] else
      RunsOf(log[..|log| - 1], slot) + if log[|log| - 1].slot == slot then [log[|log| - 1]] else []
  }

  /** Event e is a database fault met by call i. */
  predicate FaultOf(e: Event, i: nat) {
    (e.ClaimError? && e.i == i) || (e.ReadError? && e.i == i)
  }

  lemma OrphanKeepsRow(s: State, e: Event, slot: Slot)
    requires Orphaned(s, slot) && Enabled(s, e)
    ensures slot in Apply(s, e).table && Apply(s, e).table[slot] == s.table[slot]
  {
    if (e.Complete? || e.CompleteError?) {
      assert Owns(s.calls[e.i]);
    }
  }

  lemma RunsOfMore(log: seq<Run>, r: Run, slot: Slot)
    ensures RunsOf(log + [r], slot) == RunsOf(log, slot) + if r.slot == slot then [r] else []
  {
    assert (log + [r])[..|log|] == log;
  }

  lemma OrphanKeepsLog(s: State, e: Event, slot: Slot)
    requires Orphaned(s, slot) && Enabled(s, e)
    ensures RunsOf(Apply(s, e).log, slot) == RunsOf(s.log, slot)
  {
    hide RunsOf;
    if e.Execute? {
      assert Owns(s.calls[e.i]);
      RunsOfMore(s.log, Apply(s, e).log[|s.log|], slot);
    }
  }

  lemma OrphanStaysUnowned(s: State, e: Event, slot: Slot)
    requires Orphaned(s, slot) && Enabled(s, e)
    ensures forall i :: i in Apply(s, e).calls && Apply(s, e).calls[i].req.slot == slot ==> !Owns(Apply(s, e).calls[i])
  {
    hide Replay, Encoded, FirstHand, GiveUpAnswer, LookupRow, ClaimTable, Sweepable;
  }

  lemma OrphanStep(s: State, e: Event, slot: Slot)
    requires Orphaned(s, slot) && Enabled(s, e)
    ensures var s' := Apply(s, e);
            && Orphaned(s', slot) && s'.table[slot] == s.table[slot]
            && RunsOf(s'.log, slot) == RunsOf(s.log, slot)
  {
    OrphanKeepsRow(s, e, slot);
    OrphanKeepsLog(s, e, slot);
    OrphanStaysUnowned(s, e, slot);
  }

  /** A key whose result was lost stays locked: whatever happens next, its record never changes and nothing runs again. */
  lemma {:induction false} LostResultLocksForever(s: State, events: seq<Event>, slot: Slot)
    requires Orphaned(s, slot) && Legal(s, events)
    ensures var s' := After(s, events);
            && Orphaned(s', slot) && s'.table[slot] == s.table[slot]
            && RunsOf(s'.log, slot) == RunsOf(s.log, slot)
    decreases |events|
  {
    if events != [] {
      OrphanStep(s, events[0], slot);
      LostResultLocksForever(Apply(s, events[0]), events[1..], slot);
    }
  }

  /** What a call on an orphaned key can be doing. */
  predicate OnlyRefused(c: Call) {
    match c.phase
    case Done(r, source) => r.status == 409 && source.None?
    case Executing => false
    case Executed(_) => false
    case _ => true
  }

  /** Call i is on another key, or on the orphaned key with nothing but refusals so far. */
  predicate Denied(calls: map<nat, Call>, i: nat, slot: Slot) {
    i in calls ==> calls[i].req.slot != slot || OnlyRefused(calls[i])
  }

  lemma OrphanRefusesStep(s: State, e: Event, slot: Slot, i: nat)
    requires Orphaned(s, slot) && Enabled(s, e) && Denied(s.calls, i, slot) && !FaultOf(e, i)
    ensures Denied(Apply(s, e).calls, i, slot)
  {
    hide OnlyRefused;
    if i in s.calls && s.calls[i].req.slot == slot {
      OrphanRefusesCall(s, e, i);
    }
    assert e.Arrive? ==> OnlyRefused(Call(e.req, Start)) by { NothingRefused(); }
  }

  lemma NothingRefused()
    ensures forall req :: OnlyRefused(Call(req, Start))
  {
  }

  lemma OrphanRefusesCall(s: State, e: Event, i: nat)
    requires i in s.calls && Orphaned(s, s.calls[i].req.slot) && OnlyRefused(s.calls[i]) && Enabled(s, e) && !FaultOf(e, i)
    ensures i in Apply(s, e).calls && OnlyRefused(Apply(s, e).calls[i])
  {
    hide Replay, Encoded, FirstHand, ClaimTable, Sweepable;
  }

  lemma {:induction false} OrphanRefusesRetries(s: State, events: seq<Event>, slot: Slot, i: nat)
    requires Orphaned(s, slot) && Legal(s, events)
    requires Denied(s.calls, i, slot)
    requires forall e :: e in events ==> !FaultOf(e, i)
    ensures Denied(After(s, events).calls, i, slot)
    decreases |events|
  {
    if events != [] {
      assert events[0] in events;
      OrphanStep(s, events[0], slot);
      OrphanRefusesStep(s, events[0], slot, i);
      OrphanRefusesRetries(Apply(s, events[0]), events[1..], slot, i);
    }
  }

  /** Every call on such a key that comes later, or has not got past waiting, is answered 409 unless it meets a database fault of its own, and never runs. */
  lemma LostResultRefusesRetries(s: State, events: seq<Event>, slot: Slot, i: nat)
    requires Orphaned(s, slot) && Legal(s, events)
    requires i !in s.calls || s.calls[i].phase.Start? || s.calls[i].phase.Missed? || s.calls[i].phase.Waiting?
    requires forall e :: e in events ==> !(e.ClaimError? && e.i == i) && !(e.ReadError? && e.i == i)
    ensures var calls := After(s, events).calls;
            i in calls && calls[i].req.slot == slot ==>
              && !calls[i].phase.Executing? && !calls[i].phase.Executed?
              && (calls[i].phase.Done? ==> calls[i].phase.response.status == 409 && calls[i].phase.source == None)
  {
    hide Orphaned, Legal, After;
    OrphanRefusesRetries(s, events, slot, i);
  }
}
