/** What callers are told, in status and words, and what is stored for them. */
module IdempotentAnswers {
  import opened Options
  import opened Idempotency

  /** The status and outcome of an operation's result: 200 and the payload of a success, the status and message of an error, to be retried if it is 429 or 500 to 599. */
  ghost predicate Tells(result: OpResult, status: int, outcome: Outcome) {
    match result
    case OpOk(payload) => status == 200 && outcome == Success(payload)
    case OpErr(s, text) => status == s && outcome == Failure(text, s == 429 || 500 <= s < 600)
  }

  /** Nothing is to be stored of this run: a one-time secret was given out. */
  ghost predicate IsSecret(r: Run) {
    r.policy.OneTimeSecret? && (r.result.OpOk? || (r.result.OpErr? && 200 <= r.result.status < 300))
  }

  /** In every run of the protocol a completed record holds the status and outcome of its run's result, for a day, and no body of a successful one-time secret. */
  lemma RecordsTellResults(events: seq<Event>, slot: Slot)
    requires Legal(INITIAL, events) && slot in After(INITIAL, events).table && After(INITIAL, events).table[slot].Completed?
    ensures var s := After(INITIAL, events);
            var row := s.table[slot];
            && row.run < |s.log| && s.log[row.run].slot == slot && s.log[row.run].hash == row.hash
            && row.run in s.recorded && row.expiresAt == s.recorded[row.run] + 24 * 60 * 60
            && (s.log[row.run].policy.OneTimeSecret? && s.log[row.run].result.OpOk? ==> row.body == None)
            && (IsSecret(s.log[row.run]) <==> row.body == None)
            && (row.body.Some? ==> row.body.value.requestId == "" && Tells(s.log[row.run].result, row.status, row.body.value.outcome))
            && (s.log[row.run].result.OpOk? ==> row.status == 200)
            && (s.log[row.run].result.OpErr? ==> row.status == s.log[row.run].result.status)
  {
    hide Legal, After;
    RunKeepsInv(INITIAL, events);
    var s := After(INITIAL, events);
    assert RowSound(s.now, s.log, s.recorded, slot, s.table[slot]);
  }

  /** The answer that a run's own caller gets, and the one a later caller gets. */
  ghost predicate TellsRun(r: Run, own: bool, req: Request, response: Response) {
    if !own && IsSecret(r)
    then response == Response(409, Message(req.id, Refusal(SecretNotReplayable, false)), true, false, false)
    else
      && Tells(r.result, response.status, response.message.outcome) && response.message.requestId == req.id
      && response.keyEchoed && response.replayed == !own && !response.retryAfter
  }

  /** In every run of the protocol an answer taken from a run tells that run's result, first hand or replayed, or that the secret is not given out twice. */
  lemma AnswersTellResults(events: seq<Event>, i: nat)
    requires Legal(INITIAL, events) && i in After(INITIAL, events).calls
    requires After(INITIAL, events).calls[i].phase.Done? && After(INITIAL, events).calls[i].phase.source.Some?
    ensures var s := After(INITIAL, events);
            var a := s.calls[i].phase.source.value;
            && a < |s.log| && s.log[a].slot == s.calls[i].req.slot && s.log[a].hash == s.calls[i].req.hash
            && TellsRun(s.log[a], s.log[a].caller == i, s.calls[i].req, s.calls[i].phase.response)
  {
    hide Legal, After;
    AnswersAreFaithful(events, i);
  }

  /** The caller of an operation that succeeded is told 200 and the payload, if it is told anything of the run. */
  lemma SuccessIsTold(events: seq<Event>, i: nat)
    requires Legal(INITIAL, events) && i in After(INITIAL, events).calls
    requires var s := After(INITIAL, events);
             && s.calls[i].phase.Done? && s.calls[i].phase.source.Some?
             && s.calls[i].phase.source.value < |s.log| && s.log[s.calls[i].phase.source.value].caller == i
             && s.log[s.calls[i].phase.source.value].result.OpOk?
    ensures var s := After(INITIAL, events);
            var r := s.log[s.calls[i].phase.source.value];
            s.calls[i].phase.response == Response(200, Message(s.calls[i].req.id, Success(r.result.payload)), true, false, false)
  {
    hide Legal, After;
    AnswersTellResults(events, i);
  }

  // ---------- refusals ----------

  /** Each refusal with its status, whether to retry, whether the key is echoed and whether to come back in a second. */
  ghost predicate Spelled(response: Response) {
    && response.message.outcome.Refusal? && !response.replayed
    && var retry := response.message.outcome.retryable;
       match response.message.outcome.notice
       case KeyReused => response.status == 409 && !retry && response.keyEchoed && !response.retryAfter
       case StillRunning => response.status == 409 && retry && response.keyEchoed && response.retryAfter
       case Indeterminate => response.status == 409 && !retry && response.keyEchoed && !response.retryAfter
       case NotRecorded => response.status == 500 && retry && response.keyEchoed && !response.retryAfter
       case Unreadable => response.status == 500 && retry && response.keyEchoed && !response.retryAfter
       case ClaimVanished => response.status == 409 && !retry && !response.keyEchoed && !response.retryAfter
       case ClaimFailed => response.status == 500 && retry && !response.keyEchoed && !response.retryAfter
       case _ => false
  }

  ghost predicate AllSpelled(calls: map<nat, Call>) {
    forall i :: i in calls && calls[i].phase.Done? && calls[i].phase.source.None? ==> Spelled(calls[i].phase.response)
  }

  lemma StepSpells(s: State, e: Event)
    requires Enabled(s, e) && AllSpelled(s.calls)
    ensures AllSpelled(Apply(s, e).calls)
  {
    hide Replay, FirstHand, Encoded, ClaimTable, Sweepable;
  }

  lemma {:induction false} RunSpells(s: State, events: seq<Event>)
    requires Legal(s, events) && AllSpelled(s.calls)
    ensures AllSpelled(After(s, events).calls)
    decreases |events|
  {
    hide Enabled, Apply, AllSpelled;
    if events != [] {
      StepSpells(s, events[0]);
      RunSpells(Apply(s, events[0]), events[1..]);
    }
  }

  /** In every run of the protocol an answer that is taken from no run is one of these refusals. */
  lemma RefusalsAreSpelled(events: seq<Event>, i: nat)
    requires Legal(INITIAL, events) && i in After(INITIAL, events).calls
    requires After(INITIAL, events).calls[i].phase.Done? && After(INITIAL, events).calls[i].phase.source.None?
    ensures Spelled(After(INITIAL, events).calls[i].phase.response)
  {
    hide Legal, After, Spelled;
    RunSpells(INITIAL, events);
  }

  /** A call that waited in vain is told to retry if the record is at most five minutes old, and that the outcome is unknown if it is older. */
  lemma GiveUpTellsAge(s: State, i: nat)
    requires Enabled(s, GiveUp(i))
    ensures var c := s.calls[i];
            var told := Apply(s, GiveUp(i)).calls[i].phase;
            && told.Done? && told.source == None && told.response.message.requestId == c.req.id
            && told.response.message.outcome.Refusal?
            && told.response.message.outcome.notice == if s.now <= c.phase.createdAt + 300 then StillRunning else Indeterminate
  {
  }

  /** What a read of the record leads to: another payload under the key is refused as reuse, a record that is gone as vanished or unreadable. */
  lemma ReadsAreTold(s: State, i: nat)
    requires Enabled(s, ReadRow(i))
    ensures var c := s.calls[i];
            var told := Apply(s, ReadRow(i)).calls[i].phase;
            && (c.req.slot !in s.table ==> told.Done? && told.response.message.outcome == Refusal(ClaimVanished, false))
            && (c.req.slot in s.table && s.table[c.req.slot].hash != c.req.hash ==> told.Done? && told.response.message.outcome == Refusal(KeyReused, false))
            && (c.req.slot in s.table && s.table[c.req.slot].hash == c.req.hash && s.table[c.req.slot].InProgress? ==> told == Waiting(0, s.table[c.req.slot].createdAt))
            && (c.req.slot in s.table && s.table[c.req.slot].hash == c.req.hash && s.table[c.req.slot].Completed? ==> told.Done? && told.source == Some(s.table[c.req.slot].run))
  {
  }

  /** A recorded status outside 100 to 999 cannot be replayed; every other one is, with the stored outcome under the asker's own id. */
  lemma ReplaysAre(status: int, stored: Message, id: string)
    ensures 100 <= status < 1000 ==> Replay(status, Some(stored), id) == Response(status, Message(id, stored.outcome), true, true, false)
    ensures status < 100 || 1000 <= status ==> Replay(status, Some(stored), id) == Response(500, Message(id, Refusal(BadStoredStatus, true)), true, false, false)
  {
  }

  /** In every run of the protocol a call polls at most ten times, and gives up exactly after the tenth. */
  lemma PollsAreTen(events: seq<Event>, i: nat)
    requires Legal(INITIAL, events) && i in After(INITIAL, events).calls
    ensures var phase := After(INITIAL, events).calls[i].phase;
            && (phase.Waiting? ==> phase.polls <= 10)
            && (Enabled(After(INITIAL, events), GiveUp(i)) <==> phase.Waiting? && phase.polls == 10)
  {
    hide Legal, After;
    RunPolls(INITIAL, events);
  }

  lemma {:induction false} RunPolls(s: State, events: seq<Event>)
    requires Legal(s, events) && AtMostTen(s)
    ensures AtMostTen(After(s, events))
    decreases |events|
  {
    hide Enabled, Apply, AtMostTen;
    if events != [] {
      StepPolls(s, events[0]);
      RunPolls(Apply(s, events[0]), events[1..]);
    }
  }

  ghost predicate AtMostTen(s: State) {
    forall i :: i in s.calls && s.calls[i].phase.Waiting? ==> s.calls[i].phase.polls <= 10
  }

  lemma StepPolls(s: State, e: Event)
    requires Enabled(s, e) && AtMostTen(s)
    ensures AtMostTen(Apply(s, e))
  {
    hide Replay, FirstHand, Encoded, ClaimTable, Sweepable;
  }
}
