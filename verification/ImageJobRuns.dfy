/**
 What the enrichment jobs promise and do not promise: when an upload survives, when a late
 mark reopens a job of another worker, and runs in which each goes wrong.
 */
module ImageJobRuns {
  import opened Options
  import opened ImageJobs

  ghost predicate Runs(s: State, events: seq<Event>, t: State) {
    Legal(s, events) && After(s, events) == t
  }

  lemma RunsOne(s: State, e: Event)
    requires Enabled(s, e)
    ensures Runs(s, [e], Apply(s, e))
  {
    hide Enabled, Apply;
    assert [e][1..] == [];
    assert Legal(Apply(s, e), []) && After(Apply(s, e), []) == Apply(s, e);
  }

  lemma RunsMore(s: State, a: seq<Event>, t: State, e: Event)
    requires Runs(s, a, t) && Enabled(t, e)
    ensures Runs(s, a + [e], Apply(t, e))
  {
    hide Enabled, Apply, Legal, After;
    RunsOne(t, e);
    RunParts(s, a, [e]);
  }

  // ---------- uploads ----------

  /** The workers that had looked at the card before it had the upload, and may still store. */
  ghost function Late(s: State, card: int): set<nat> {
    set w | w in s.workers && s.workers[w].card == card && (s.workers[w].phase.Fetching? || s.workers[w].phase.Storing?)
  }

  predicate StoresBy(e: Event, workers: set<nat>) {
    (e.Store? || e.FalseStore?) && e.w in workers
  }

  /** A user replaces the card's images, deletes the card or adds the same file again. */
  predicate UserTouches(e: Event, card: int, file: nat) {
    (e.Replace? || e.Delete? || (e.Upload? && file in e.files)) && e.card == card
  }

  lemma UploadStep(s: State, e: Event, card: int, late: set<nat>, file: nat)
    requires Enabled(s, e) && !UserTouches(e, card, file) && card in s.images
    requires forall w :: w in late ==> w in s.workers && s.workers[w].card == card
    ensures card in Apply(s, e).images
    ensures forall w :: w in late ==> w in Apply(s, e).workers && Apply(s, e).workers[w].card == card
    ensures StoresBy(e, late) ==> Uploaded(file) !in Apply(s, e).images[card]
    ensures Uploaded(file) !in s.images[card] ==> Uploaded(file) !in Apply(s, e).images[card]
    ensures Illustrated(s, card, late) && !StoresBy(e, late) && Uploaded(file) in s.images[card] ==>
              Uploaded(file) in Apply(s, e).images[card] && Illustrated(Apply(s, e), card, late)
  {
    if e.Upload? {
      assert Uploaded(file) in Uploads(e.files) ==> file in e.files;
    }
  }

  lemma {:induction false} UploadInRun(s: State, events: seq<Event>, card: int, late: set<nat>, file: nat)
    requires Legal(s, events) && card in s.images && forall e :: e in events ==> !UserTouches(e, card, file)
    requires forall w :: w in late ==> w in s.workers && s.workers[w].card == card
    ensures card in After(s, events).images
    ensures Uploaded(file) !in s.images[card] ==> Uploaded(file) !in After(s, events).images[card]
    ensures Illustrated(s, card, late) && Uploaded(file) in s.images[card] ==>
              (Uploaded(file) in After(s, events).images[card] <==> forall e :: e in events ==> !StoresBy(e, late))
    decreases |events|
  {
    hide Illustrated, Apply, Enabled, StoresBy, UserTouches;
    if events != [] {
      var e, rest := events[0], events[1..];
      assert forall x :: x in rest ==> x in events;
      assert forall x :: x in events ==> x == e || x in rest;
      UploadStep(s, e, card, late, file);
      UploadInRun(Apply(s, e), rest, card, late, file);
    }
  }

  /**
   A file that a user adds to a card stays on it, in every run in which the user leaves it
   alone, exactly if none of the workers that were past the look at the card's images when
   it was added stores: each of them replaces whatever is there, and no other ever stores.
   */
  lemma UploadSurvivesIff(s: State, card: int, files: seq<nat>, events: seq<Event>, file: nat)
    requires Enabled(s, Upload(card, files)) && file in files && Legal(Apply(s, Upload(card, files)), events)
    requires forall e :: e in events ==> !UserTouches(e, card, file)
    ensures var t := After(Apply(s, Upload(card, files)), events);
            && card in t.images
            && (Uploaded(file) in t.images[card] <==> forall e :: e in events ==> !StoresBy(e, Late(s, card)))
  {
    hide Legal, After, UserTouches, StoresBy;
    var t := Apply(s, Upload(card, files));
    var k :| 0 <= k < |files| && files[k] == file;
    assert t.images[card][|s.images[card]| + k] == Uploads(files)[k] == Uploaded(file);
    UploadInRun(t, events, card, Late(s, card), file);
  }

  // ---------- reclaimed jobs ----------

  /** The event is an act of the worker, or makes it. */
  predicate ActsAs(e: Event, w: nat) {
    match e
    case Claim(v, _) => v == w
    case Check(v) => v == w
    case Find(v, _) => v == w
    case WorkFails(v) => v == w
    case Store(v) => v == w
    case FalseStore(v) => v == w
    case Mark(v) => v == w
    case MarkFails(v, _) => v == w
    case Crash(v) => v == w
    case _ => false
  }

  lemma {:induction false} OthersLeaveWorker(s: State, events: seq<Event>, w: nat)
    requires Legal(s, events) && w in s.workers && forall e :: e in events ==> !ActsAs(e, w)
    ensures w in After(s, events).workers && After(s, events).workers[w] == s.workers[w]
    decreases |events|
  {
    hide Enabled, ActsAs;
    if events != [] {
      assert events[0] in events && forall e :: e in events[1..] ==> e in events;
      OtherLeavesWorker(s, events[0], w);
      OthersLeaveWorker(Apply(s, events[0]), events[1..], w);
    }
  }

  lemma OtherLeavesWorker(s: State, e: Event, w: nat)
    requires Enabled(s, e) && w in s.workers && !ActsAs(e, w)
    ensures w in Apply(s, e).workers && Apply(s, e).workers[w] == s.workers[w]
  {
  }

  /**
   A worker that finds an image on the card changes no image and completes the job as
   attached, whatever others do between its look and its mark.
   */
  lemma SecondClaimCompletes(s: State, w: nat, events: seq<Event>)
    requires Enabled(s, Check(w)) && s.workers[w].card in s.images && s.images[s.workers[w].card] != []
    requires Legal(Apply(s, Check(w)), events) && forall e :: e in events ==> !ActsAs(e, w)
    ensures Apply(s, Check(w)).images == s.images
    ensures var card, t := s.workers[w].card, After(Apply(s, Check(w)), events);
            && Enabled(t, Mark(w)) && Apply(t, Mark(w)).images == t.images
            && Apply(t, Mark(w)).workers[w].phase == Done(Attached)
            && (card in t.jobs ==> Apply(t, Mark(w)).jobs[card].status == Completed)
  {
    OthersLeaveWorker(Apply(s, Check(w)), events, w);
  }

  // ---------- marks by workers that lost their job ----------

  /** A job in work belongs to the worker of its latest claim, which bears the job's number. */
  ghost predicate Held(s: State) {
    forall card :: card in s.jobs ==> if s.jobs[card].status.Processing? then HeldBy(s, card) else s.jobs[card].holder == None
  }

  ghost predicate HeldBy(s: State, card: int)
    requires card in s.jobs
  {
    var job := s.jobs[card];
    && job.holder.Some? && job.holder.value in s.workers
    && s.workers[job.holder.value].card == card && s.workers[job.holder.value].attempts == job.attempts
  }

  lemma HeldStep(s: State, e: Event)
    requires Held(s) && Enabled(s, e)
    ensures Held(Apply(s, e))
  {
  }

  lemma {:induction false} RunKeepsHeld(s: State, events: seq<Event>)
    requires Held(s) && Legal(s, events)
    ensures Held(After(s, events))
    decreases |events|
  {
    hide Held, Apply, Enabled;
    if events != [] {
      HeldStep(s, events[0]);
      RunKeepsHeld(Apply(s, events[0]), events[1..]);
    }
  }

  /** The event starts the numbering of the card's claims anew. */
  predicate Resets(s: State, e: Event, card: int) {
    card in s.jobs && ((e.Enqueue? && e.card == card && !Protected(s.jobs[card], s.now)) || (e.Requeue? && card in e.cards && Rerunnable(s, card)))
  }

  ghost predicate NeverReset(s: State, events: seq<Event>, card: int)
    requires Legal(s, events)
    decreases |events|
  {
    events == [] || (!Resets(s, events[0], card) && NeverReset(Apply(s, events[0]), events[1..], card))
  }

  /** The claims of the card's job bear different numbers, none above the job's. */
  ghost predicate Numbered(s: State, card: int) {
    && (card !in s.jobs && card in s.images ==> forall w :: w in s.workers ==> s.workers[w].card != card)
    && (card in s.jobs ==> card in s.images)
    && (card in s.jobs ==> forall w :: w in s.workers && s.workers[w].card == card ==> s.workers[w].attempts <= s.jobs[card].attempts)
    && (card in s.jobs ==> forall w, v :: w in s.workers && v in s.workers && w != v && s.workers[w].card == card && s.workers[v].card == card ==>
          s.workers[w].attempts != s.workers[v].attempts)
  }

  lemma NumberedStep(s: State, e: Event, card: int)
    requires Numbered(s, card) && Enabled(s, e) && !Resets(s, e, card)
    ensures Numbered(Apply(s, e), card)
  {
    hide Numbered;
    match e
    case Claim(w, c) => NumberedClaim(s, w, c, card);
    case Requeue(cards) => NumberedRequeue(s, cards, card);
    case Mark(w) => NumberedMark(s, w, card);
    case _ => NumberedOther(s, e, card);
  }

  lemma NumberedClaim(s: State, w: nat, c: int, card: int)
    requires Numbered(s, card) && Enabled(s, Claim(w, c))
    ensures Numbered(Apply(s, Claim(w, c)), card)
  {
  }

  lemma NumberedRequeue(s: State, cards: set<int>, card: int)
    requires Numbered(s, card) && !Resets(s, Requeue(cards), card)
    ensures Numbered(Apply(s, Requeue(cards)), card)
  {
  }

  lemma NumberedMark(s: State, w: nat, card: int)
    requires Numbered(s, card) && Enabled(s, Mark(w))
    ensures Numbered(Apply(s, Mark(w)), card)
  {
  }

  lemma NumberedOther(s: State, e: Event, card: int)
    requires Numbered(s, card) && Enabled(s, e) && !Resets(s, e, card) && !e.Claim? && !e.Requeue? && !e.Mark?
    ensures Numbered(Apply(s, e), card)
  {
    hide Numbered;
    var t := Apply(s, e);
    OtherEvents(s, e, card);
    NumberedLike(s, t, card);
  }

  /** Such an event leaves cards, numbers and the owners of the claims as they are, but for a card that comes or goes. */
  lemma OtherEvents(s: State, e: Event, card: int)
    requires Numbered(s, card) && Enabled(s, e) && !Resets(s, e, card) && !e.Claim? && !e.Requeue? && !e.Mark?
    ensures SameClaims(s, Apply(s, e)) && SameNumber(s, Apply(s, e), card)
  {
  }

  ghost predicate SameClaims(s: State, t: State) {
    t.workers.Keys == s.workers.Keys
    && forall w :: w in s.workers ==> t.workers[w].card == s.workers[w].card && t.workers[w].attempts == s.workers[w].attempts
  }

  ghost predicate SameNumber(s: State, t: State, card: int) {
    && (card in t.jobs ==> card in t.images)
    && (card !in t.jobs && card in t.images ==> forall w :: w in s.workers ==> s.workers[w].card != card)
    && (card in t.jobs && card in s.jobs ==> t.jobs[card].attempts == s.jobs[card].attempts)
    && (card in t.jobs && card !in s.jobs ==> forall w :: w in s.workers ==> s.workers[w].card != card)
  }

  lemma NumberedLike(s: State, t: State, card: int)
    requires Numbered(s, card) && SameClaims(s, t) && SameNumber(s, t, card)
    ensures Numbered(t, card)
  {
  }

  lemma {:induction false} RunKeepsNumbered(s: State, events: seq<Event>, card: int)
    requires Numbered(s, card) && Legal(s, events) && NeverReset(s, events, card)
    ensures Numbered(After(s, events), card)
    decreases |events|
  {
    hide Numbered, Apply, Enabled, Resets;
    if events != [] {
      NumberedStep(s, events[0], card);
      RunKeepsNumbered(Apply(s, events[0]), events[1..], card);
    }
  }

  /** The mark makes a job claimable again that another worker holds. */
  predicate ReopensAnothers(s: State, w: nat)
    requires Enabled(s, Mark(w))
  {
    var card := s.workers[w].card;
    && card in s.jobs && s.jobs[card].status.Processing? && s.jobs[card].holder != Some(w)
    && Apply(s, Mark(w)).jobs[card].status.Waiting?
  }

  /** A failure short of the last attempt, marked under another number than the job's. */
  predicate StaleFailure(s: State, w: nat) {
    && w in s.workers && s.workers[w].phase.Failing? && s.workers[w].attempts < MAX_ATTEMPTS
    && s.workers[w].card in s.jobs && s.jobs[s.workers[w].card].status.Processing?
    && s.workers[w].attempts != s.jobs[s.workers[w].card].attempts
  }

  /**
   In every run, a failure marked under another number than the job's reopens a job of
   another worker; and if the job never started over, only such a mark does.
   */
  lemma StaleFailureReopensIff(events: seq<Event>, w: nat)
    requires Legal(INITIAL, events) && Enabled(After(INITIAL, events), Mark(w))
    ensures var s := After(INITIAL, events);
            && (StaleFailure(s, w) ==> ReopensAnothers(s, w))
            && (NeverReset(INITIAL, events, s.workers[w].card) ==> (ReopensAnothers(s, w) <==> StaleFailure(s, w)))
  {
    hide Legal, After;
    var s := After(INITIAL, events);
    var card := s.workers[w].card;
    RunKeepsHeld(INITIAL, events);
    if NeverReset(INITIAL, events, card) {
      RunKeepsNumbered(INITIAL, events, card);
    }
  }

  // ---------- runs ----------

  function FirstClaim(card: int): seq<Event> {
    [NewCard(card), Enqueue(card)] + [Claim(1, card)]
  }

  /** The first worker at some phase of its work, at some time. */
  function First(card: int, now: nat, phase: Phase): State {
    State(now, map[card := []], map[card := Job(Processing, 1, 0, 0, Some(LEASE), Some(1))], map[1 := Worker(card, 1, phase)])
  }

  lemma FirstClaimRun(card: int)
    ensures Runs(INITIAL, FirstClaim(card), First(card, 0, Claimed))
  {
    hide Legal, After;
    TwoSteps(card);
    var s := State(0, map[card := []], map[card := Fresh(0, 0)], map[]);
    RunsMore(INITIAL, [NewCard(card), Enqueue(card)], s, Claim(1, card));
    var t := Apply(s, Claim(1, card));
    assert t.jobs == First(card, 0, Claimed).jobs && t.workers == First(card, 0, Claimed).workers;
  }

  /** A worker outlives its lease. */
  function Overdue(card: int): seq<Event> {
    FirstClaim(card) + [Tick(LEASE)]
  }

  lemma OverdueRun(card: int)
    ensures Runs(INITIAL, Overdue(card), First(card, LEASE, Claimed))
  {
    hide Legal, After;
    FirstClaimRun(card);
    RunsMore(INITIAL, FirstClaim(card), First(card, 0, Claimed), Tick(LEASE));
  }

  /** It does, and a second one claims the job. */
  function TwoClaims(card: int): seq<Event> {
    Overdue(card) + [Claim(2, card)]
  }

  function Second(card: int): State {
    State(LEASE, map[card := []], map[card := Job(Processing, 2, 0, 0, Some(2 * LEASE), Some(2))],
          map[1 := Worker(card, 1, Claimed), 2 := Worker(card, 2, Claimed)])
  }

  lemma TwoClaimsRun(card: int)
    ensures Runs(INITIAL, TwoClaims(card), Second(card))
  {
    hide Legal, After;
    OverdueRun(card);
    var s := First(card, LEASE, Claimed);
    RunsMore(INITIAL, Overdue(card), s, Claim(2, card));
    var t := Apply(s, Claim(2, card));
    assert t.jobs == Second(card).jobs && t.workers == Second(card).workers;
  }

  /** The first worker fails late, and a third one claims the job that the second still holds. */
  lemma StaleFailureRun(card: int)
    ensures var early := TwoClaims(card) + [WorkFails(1)];
            && Legal(INITIAL, early) && Enabled(After(INITIAL, early), Mark(1))
            && StaleFailure(After(INITIAL, early), 1) && ReopensAnothers(After(INITIAL, early), 1)
            && After(INITIAL, early).jobs == map[card := Job(Processing, 2, 0, 0, Some(2 * LEASE), Some(2))]
    ensures var run := TwoClaims(card) + [WorkFails(1)] + [Mark(1)] + [Tick(5)] + [Claim(3, card)];
            && Legal(INITIAL, run) && After(INITIAL, run).now < 2 * LEASE
            && card in After(INITIAL, run).jobs && After(INITIAL, run).jobs[card].holder == Some(3)
            && forall w :: w == 2 || w == 3 ==> w in After(INITIAL, run).workers && After(INITIAL, run).workers[w] == Worker(card, w, Claimed)
  {
    hide Legal, After;
    TwoClaimsRun(card);
    var r := Second(card);
    var s := Apply(r, WorkFails(1));
    RunsMore(INITIAL, TwoClaims(card), r, WorkFails(1));
    var u := Apply(s, Mark(1));
    RunsMore(INITIAL, TwoClaims(card) + [WorkFails(1)], s, Mark(1));
    var v := Apply(u, Tick(5));
    RunsMore(INITIAL, TwoClaims(card) + [WorkFails(1)] + [Mark(1)], u, Tick(5));
    RunsMore(INITIAL, TwoClaims(card) + [WorkFails(1)] + [Mark(1)] + [Tick(5)], v, Claim(3, card));
  }

  /** A job that starts over after a lease ran out repeats its numbers: the late failure bears the number of the new holder's claim. */
  function RestartedJob(card: int): seq<Event> {
    Overdue(card) + [Enqueue(card)] + [Claim(2, card)] + [WorkFails(1)]
  }

  lemma NumbersRepeatAfterRestart(card: int)
    ensures Legal(INITIAL, RestartedJob(card))
    ensures var s := After(INITIAL, RestartedJob(card)); Enabled(s, Mark(1)) && ReopensAnothers(s, 1) && !StaleFailure(s, 1)
  {
    hide Legal, After;
    OverdueRun(card);
    var r := First(card, LEASE, Claimed);
    RunsMore(INITIAL, Overdue(card), r, Enqueue(card));
    var s := Apply(r, Enqueue(card));
    RunsMore(INITIAL, Overdue(card) + [Enqueue(card)], s, Claim(2, card));
    RunsMore(INITIAL, Overdue(card) + [Enqueue(card)] + [Claim(2, card)], Apply(s, Claim(2, card)), WorkFails(1));
  }

  /** A worker has looked at a card without images and found one for it. */
  function ReadyToStore(card: int): seq<Event> {
    FirstClaim(card) + [Check(1)] + [Find(1, true)]
  }

  lemma ReadyToStoreRun(card: int)
    ensures Runs(INITIAL, ReadyToStore(card), First(card, 0, Storing))
  {
    hide Legal, After;
    FirstClaimRun(card);
    RunsMore(INITIAL, FirstClaim(card), First(card, 0, Claimed), Check(1));
    assert Apply(First(card, 0, Claimed), Check(1)).workers == First(card, 0, Fetching).workers;
    RunsMore(INITIAL, FirstClaim(card) + [Check(1)], First(card, 0, Fetching), Find(1, true));
    assert Apply(First(card, 0, Fetching), Find(1, true)).workers == First(card, 0, Storing).workers;
  }

  /** A user's upload is lost to a worker that had looked before it. */
  lemma LateUploadIsLost(card: int, file: nat)
    ensures var run := ReadyToStore(card) + [Upload(card, [file])];
            && Legal(INITIAL, run) && After(INITIAL, run).images == map[card := [Uploaded(file)]]
            && Legal(INITIAL, run + [Store(1)]) && After(INITIAL, run + [Store(1)]).images == map[card := [Automatic(1)]]
  {
    hide Legal, After;
    ReadyToStoreRun(card);
    var s := Apply(First(card, 0, Storing), Upload(card, [file]));
    RunsMore(INITIAL, ReadyToStore(card), First(card, 0, Storing), Upload(card, [file]));
    assert [] + Uploads([file]) == [Uploaded(file)];
    assert s.images == map[card := [Uploaded(file)]];
    RunsMore(INITIAL, ReadyToStore(card) + [Upload(card, [file])], s, Store(1));
    assert Apply(s, Store(1)).images == map[card := [Automatic(1)]];
  }

  /** After a store, the end of its lease, and the look and mark of a second worker. */
  function SecondLook(card: int): seq<Event> {
    [Tick(LEASE), Claim(2, card), Check(2), Mark(2)]
  }

  lemma SecondLookRun(s: State, card: int) returns (t: State)
    requires s.images == map[card := [Automatic(1)]] && s.now == 0 && 2 !in s.workers && card in s.jobs
    requires Due(s.jobs[card], LEASE)
    ensures Runs(s, SecondLook(card), t) && t.images == s.images && card in t.jobs && t.jobs[card].status.Completed?
    ensures t.workers == s.workers[2 := Worker(card, s.jobs[card].attempts + 1, Done(Attached))]
  {
    hide Runs;
    var a, b, c, d := Tick(LEASE), Claim(2, card), Check(2), Mark(2);
    var s1 := Apply(s, a);
    RunsOne(s, a);
    var s2 := Apply(s1, b);
    RunsMore(s, [a], s1, b);
    var s3 := Apply(s2, c);
    RunsMore(s, [a] + [b], s2, c);
    t := Apply(s3, d);
    RunsMore(s, [a] + [b] + [c], s3, d);
    assert SecondLook(card) == [a] + [b] + [c] + [d];
  }

  lemma RunsOn(s: State, a: seq<Event>, t: State, b: seq<Event>, u: State)
    requires Runs(s, a, t) && Runs(t, b, u)
    ensures Runs(s, a + b, u)
  {
    hide Legal, After;
    RunParts(s, a, b);
  }

  /** A worker that crashes between its store and its mark: the next one completes the job and stores nothing. */
  lemma CrashAfterStore(card: int)
    ensures Legal(INITIAL, ReadyToStore(card) + [Store(1)] + [Crash(1)] + SecondLook(card))
    ensures var t := After(INITIAL, ReadyToStore(card) + [Store(1)] + [Crash(1)] + SecondLook(card));
            && t.images == map[card := [Automatic(1)]] && card in t.jobs && t.jobs[card].status.Completed?
            && 2 in t.workers && t.workers[2].phase == Done(Attached)
  {
    hide Legal, After;
    ReadyToStoreRun(card);
    var s := Apply(First(card, 0, Storing), Store(1));
    RunsMore(INITIAL, ReadyToStore(card), First(card, 0, Storing), Store(1));
    var r := Apply(s, Crash(1));
    RunsMore(INITIAL, ReadyToStore(card) + [Store(1)], s, Crash(1));
    var t := SecondLookRun(r, card);
    RunsOn(INITIAL, ReadyToStore(card) + [Store(1)] + [Crash(1)], r, SecondLook(card), t);
  }

  /** A store that takes effect and reports an error: the job is tried again, and the next worker stores nothing. */
  lemma FalseStoreIsTriedAgain(card: int)
    ensures Legal(INITIAL, ReadyToStore(card) + [FalseStore(1)] + [Mark(1)] + SecondLook(card))
    ensures var t := After(INITIAL, ReadyToStore(card) + [FalseStore(1)] + [Mark(1)] + SecondLook(card));
            && t.images == map[card := [Automatic(1)]] && card in t.jobs && t.jobs[card].status.Completed?
            && {1, 2} <= t.workers.Keys && t.workers[1].phase == Done(Retrying) && t.workers[2].phase == Done(Attached)
  {
    hide Legal, After;
    ReadyToStoreRun(card);
    var s := Apply(First(card, 0, Storing), FalseStore(1));
    RunsMore(INITIAL, ReadyToStore(card), First(card, 0, Storing), FalseStore(1));
    var r := Apply(s, Mark(1));
    RunsMore(INITIAL, ReadyToStore(card) + [FalseStore(1)], s, Mark(1));
    var t := SecondLookRun(r, card);
    RunsOn(INITIAL, ReadyToStore(card) + [FalseStore(1)] + [Mark(1)], r, SecondLook(card), t);
  }
}
