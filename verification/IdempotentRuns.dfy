/** Runs of the idempotency protocol from the start: a retry that is replayed, and the two ways a key goes wrong. */
module IdempotentRuns {
  import opened Options
  import opened Idempotency
  import opened IdempotentCall

  // ---------- a call and its retry ----------

  lemma OneMoreStep(s: State, events: seq<Event>, e: Event)
    requires Legal(s, events) && Enabled(After(s, events), e)
    ensures Legal(s, events + [e]) && After(s, events + [e]) == Apply(After(s, events), e)
  {
    hide Enabled, Apply, Legal, After;
    OneStep(After(s, events), e);
    RunsCompose(s, events, [e]);
  }

  function FirstCall(i: nat, req: Request, result: OpResult): seq<Event> {
    [Arrive(i, req)] + [Claim(i, {})] + [Execute(i, result)] + [Complete(i)]
  }

  lemma FirstCallRuns(i: nat, req: Request, result: OpResult)
    ensures Legal(INITIAL, FirstCall(i, req, result))
    ensures After(INITIAL, FirstCall(i, req, result)) ==
            State(0, map[req.slot := Completed(req.hash, StatusOf(result), Encoded(req.policy, result), RETENTION, 0)],
              map[i := Call(req, Done(FirstHand(result, req.id), Some(0)))],
              [Run(req.slot, req.hash, req.policy, i, result, 0)], map[0 := 0])
  {
    hide Legal, After, Encoded, FirstHand;
    OneStep(INITIAL, Arrive(i, req));
    OneMoreStep(INITIAL, [Arrive(i, req)], Claim(i, {}));
    OneMoreStep(INITIAL, [Arrive(i, req)] + [Claim(i, {})], Execute(i, result));
    OneMoreStep(INITIAL, [Arrive(i, req)] + [Claim(i, {})] + [Execute(i, result)], Complete(i));
  }

  /** A call that goes well and a retry of it within the retention: the operation has run once, and the retry is answered from its record. */
  lemma RetryIsReplayed(i: nat, j: nat, first: Request, retry: Request, result: OpResult, seconds: nat)
    requires i != j && retry.slot == first.slot && retry.hash == first.hash && seconds < RETENTION
    ensures var events := FirstCall(i, first, result) + [Tick(seconds)] + [Arrive(j, retry)] + [Claim(j, {})] + [ReadRow(j)];
            && Legal(INITIAL, events)
            && var s := After(INITIAL, events);
               && |s.log| == 1 && i in s.calls && j in s.calls
               && s.calls[i].phase == Done(FirstHand(result, first.id), Some(0))
               && s.calls[j].phase == Done(Replay(StatusOf(result), Encoded(first.policy, result), retry.id), Some(0))
  {
    hide Legal, After, Encoded, FirstHand, Replay;
    var a := FirstCall(i, first, result);
    FirstCallRuns(i, first, result);
    OneMoreStep(INITIAL, a, Tick(seconds));
    OneMoreStep(INITIAL, a + [Tick(seconds)], Arrive(j, retry));
    OneMoreStep(INITIAL, a + [Tick(seconds)] + [Arrive(j, retry)], Claim(j, {}));
    OneMoreStep(INITIAL, a + [Tick(seconds)] + [Arrive(j, retry)] + [Claim(j, {})], ReadRow(j));
  }

  /** The same retry once the retention is over: the operation runs a second time for the same request. */
  lemma RetryRunsAgain(i: nat, j: nat, first: Request, retry: Request, result: OpResult, again: OpResult, seconds: nat)
    requires i != j && retry.slot == first.slot && retry.hash == first.hash && seconds >= RETENTION
    ensures var events := FirstCall(i, first, result) + [Tick(seconds)] + [Arrive(j, retry)] + [Claim(j, {})] + [Execute(j, again)];
            && Legal(INITIAL, events)
            && After(INITIAL, events).log == [Run(first.slot, first.hash, first.policy, i, result, 0),
                                              Run(first.slot, first.hash, retry.policy, j, again, seconds)]
  {
    hide Legal, After, Encoded, FirstHand;
    var a := FirstCall(i, first, result);
    FirstCallRuns(i, first, result);
    OneMoreStep(INITIAL, a, Tick(seconds));
    OneMoreStep(INITIAL, a + [Tick(seconds)], Arrive(j, retry));
    OneMoreStep(INITIAL, a + [Tick(seconds)] + [Arrive(j, retry)], Claim(j, {}));
    OneMoreStep(INITIAL, a + [Tick(seconds)] + [Arrive(j, retry)] + [Claim(j, {})], Execute(j, again));
  }

  // ---------- a call whose process ends ----------

  /** A call whose process ends after its claim, before or after the operation. */
  function LostCall(i: nat, req: Request, result: Option<OpResult>): seq<Event> {
    [Arrive(i, req)] + [Claim(i, {})] + (if result.Some? then [Execute(i, result.value)] else []) + [Crash(i)]
  }

  lemma LostCallRuns(i: nat, req: Request, result: Option<OpResult>)
    ensures Legal(INITIAL, LostCall(i, req, result))
    ensures After(INITIAL, LostCall(i, req, result)) ==
            State(0, map[req.slot := InProgress(req.hash, 0)], map[i := Call(req, Crashed)],
              if result.Some? then [Run(req.slot, req.hash, req.policy, i, result.value, 0)] else [], map[])
  {
    hide Legal, After;
    OneStep(INITIAL, Arrive(i, req));
    OneMoreStep(INITIAL, [Arrive(i, req)], Claim(i, {}));
    var a := [Arrive(i, req)] + [Claim(i, {})];
    if result.Some? {
      OneMoreStep(INITIAL, a, Execute(i, result.value));
      OneMoreStep(INITIAL, a + [Execute(i, result.value)], Crash(i));
    } else {
      assert a + [] == a;
      OneMoreStep(INITIAL, a, Crash(i));
    }
  }

  /**
   Nobody holds the key then, and still no retry gets it, however late, whether the
   operation ran once or never.
   */
  lemma LostCallLocksKey(i: nat, j: nat, req: Request, retry: Request, result: Option<OpResult>, seconds: nat)
    requires i != j && retry.slot == req.slot
    ensures Legal(INITIAL, LostCall(i, req, result)) && Orphaned(After(INITIAL, LostCall(i, req, result)), req.slot)
    ensures var events := LostCall(i, req, result) + [Tick(seconds)] + [Arrive(j, retry)] + [Claim(j, {})];
            && Legal(INITIAL, events)
            && var s := After(INITIAL, events);
               && Orphaned(s, req.slot) && |s.log| == (if result.Some? then 1 else 0)
               && j in s.calls && s.calls[j].phase == Missed
  {
    hide Legal, After;
    var a := LostCall(i, req, result);
    LostCallRuns(i, req, result);
    OneMoreStep(INITIAL, a, Tick(seconds));
    OneMoreStep(INITIAL, a + [Tick(seconds)], Arrive(j, retry));
    OneMoreStep(INITIAL, a + [Tick(seconds)] + [Arrive(j, retry)], Claim(j, {}));
  }
}
