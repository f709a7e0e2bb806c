/**
 Automatic image enrichment: leased jobs, any number of workers, crashes, expired leases
 and users who change the images of a card at any time.
 */
module ImageJobs {
  import opened Options

  const MAX_ATTEMPTS: nat := 3
  const LEASE: nat := 300

  datatype Status = Waiting | Processing | Completed | Failed

  /** The holder records which worker's claim a job in work stems from; nothing is decided by it. */
  datatype Job = Job(status: Status, attempts: nat, availableAt: nat, createdAt: nat, lease: Option<nat>, holder: Option<nat>)

  /** Where an image of a card came from. */
  datatype Origin = Automatic(worker: nat) | Uploaded(file: nat)

  datatype Report = Attached | CompletedWithoutImage | Retrying | GaveUp | StoreError

  datatype Phase =
    | Claimed                   // about to look at the card's images
    | Fetching                  // the card had none; an image is being found
    | Storing                   // an image is ready to replace the card's images
    | Succeeding(attached: bool) // about to mark the job completed
    | Failing                   // about to mark the job for retry or as failed
    | Done(report: Report)
    | Crashed

  datatype Worker = Worker(card: int, attempts: nat, phase: Phase)

  type Images = map<int, seq<Origin>>
  type Jobs = map<int, Job>
  type Workers = map<nat, Worker>

  datatype State = State(now: nat, images: Images, jobs: Jobs, workers: Workers)

  const INITIAL := State(0, map[], map[], map[])

  datatype Event =
    | NewCard(card: int)
    | Enqueue(card: int)
    | Requeue(cards: set<int>)              // the user asks to run failed jobs again
    | Claim(w: nat, card: int)
    | Check(w: nat)
    | Find(w: nat, found: bool)             // no image is no error
    | WorkFails(w: nat)                     // any error while checking, finding or storing
    | Store(w: nat)
    | FalseStore(w: nat)                    // the store takes effect and reports an error
    | Mark(w: nat)
    | MarkFails(w: nat, applied: bool)      // the mark reports an error, having taken effect or not
    | Crash(w: nat)
    | Upload(card: int, files: seq<nat>)    // a user adds images
    | Replace(card: int, files: seq<nat>)   // a user replaces all images
    | Delete(card: int)
    | Tick(seconds: nat)

  predicate Due(job: Job, now: nat) {
    || (job.status.Waiting? && job.availableAt <= now)
    || Expired(job, now)
  }

  predicate Expired(job: Job, now: nat) {
    job.status.Processing? && job.lease.Some? && job.lease.value <= now
  }

  predicate Live(w: Worker) {
    !w.phase.Done? && !w.phase.Crashed?
  }

  predicate Enabled(s: State, e: Event) {
    match e
    case NewCard(card) => card !in s.images && card !in s.jobs && forall w :: w in s.workers ==> s.workers[w].card != card
    case Enqueue(card) => card in s.images
    case Requeue(cards) => true
    case Claim(w, card) => w !in s.workers && card in s.jobs && Due(s.jobs[card], s.now)
    case Check(w) => w in s.workers && s.workers[w].phase.Claimed?
    case Find(w, _) => w in s.workers && s.workers[w].phase.Fetching?
    case WorkFails(w) =>
      w in s.workers && (s.workers[w].phase.Claimed? || s.workers[w].phase.Fetching? || s.workers[w].phase.Storing?)
    case Store(w) => w in s.workers && s.workers[w].phase.Storing?
    case FalseStore(w) => w in s.workers && s.workers[w].phase.Storing? && s.workers[w].card in s.images
    case Mark(w) => w in s.workers && (s.workers[w].phase.Succeeding? || s.workers[w].phase.Failing?)
    case MarkFails(w, _) => w in s.workers && (s.workers[w].phase.Succeeding? || s.workers[w].phase.Failing?)
    case Crash(w) => w in s.workers && Live(s.workers[w])
    case Upload(card, _) => card in s.images
    case Replace(card, _) => card in s.images
    case Delete(card) => card in s.images
    case Tick(_) => true
  }

  function Moved(s: State, w: nat, phase: Phase): State
    requires w in s.workers
  {
    s.(workers := s.workers[w := s.workers[w].(phase := phase)])
  }

  function Uploads(files: seq<nat>): (r: seq<Origin>)
    ensures |r| == |files| && forall k :: 0 <= k < |r| ==> r[k] == Uploaded(files[k])
  {
    seq(|files|, k requires 0 <= k < |files| => Uploaded(files[k]))
  }

  function Fresh(now: nat, createdAt: nat): Job {
    Job(Waiting, 0, now, createdAt, None, None)
  }

  predicate Protected(job: Job, now: nat) {
    job.status.Processing? && job.lease.Some? && job.lease.value > now
  }

  /** A job that a live lease protects stays as it is; any other starts over, as old as it was. */
  function Enqueued(jobs: Jobs, card: int, now: nat): Jobs {
    if card in jobs && Protected(jobs[card], now) then jobs
    else jobs[card := Fresh(now, if card in jobs then jobs[card].createdAt else now)]
  }

  predicate Rerunnable(s: State, card: int) {
    && card in s.jobs
    && (s.jobs[card].status.Failed? || (s.jobs[card].status.Completed? && (card !in s.images || s.images[card] == [])))
  }

  function Delay(attempts: nat): nat {
    if attempts <= 1 then 5 else if attempts == 2 then 30 else 120
  }

  function ReportOf(w: Worker): Report
    requires w.phase.Succeeding? || w.phase.Failing?
  {
    match w.phase
    case Succeeding(attached) => if attached then Attached else CompletedWithoutImage
    case _ => if w.attempts >= MAX_ATTEMPTS then GaveUp else Retrying
  }

  /** The completion mark looks only at the card; the failure mark also at the status, but at no lease. */
  function MarkedJobs(s: State, w: Worker): Jobs
    requires w.phase.Succeeding? || w.phase.Failing?
  {
    if w.card !in s.jobs then s.jobs
    else
      var job := s.jobs[w.card];
      if w.phase.Succeeding? then s.jobs[w.card := job.(status := Completed, lease := None, holder := None)]
      else if !job.status.Processing? then s.jobs
      else s.jobs[w.card := job.(status := if w.attempts >= MAX_ATTEMPTS then Failed else Waiting,
                                 availableAt := s.now + Delay(w.attempts), lease := None, holder := None)]
  }

  function Apply(s: State, e: Event): State
    requires Enabled(s, e)
  {
    match e
    case NewCard(card) => s.(images := s.images[card := []])
    case Enqueue(card) => s.(jobs := Enqueued(s.jobs, card, s.now))
    case Requeue(cards) =>
      s.(jobs := map card | card in s.jobs ::
           if card in cards && Rerunnable(s, card) then Fresh(s.now, s.jobs[card].createdAt) else s.jobs[card])
    case Claim(w, card) =>
      var job := s.jobs[card];
      s.(jobs := s.jobs[card := job.(status := Processing, attempts := job.attempts + 1, lease := Some(s.now + LEASE), holder := Some(w))],
         workers := s.workers[w := Worker(card, job.attempts + 1, Claimed)])
    case Check(w) =>
      var card := s.workers[w].card;
      Moved(s, w, if card in s.images && s.images[card] != [] then Succeeding(true)
                  else if card in s.images then Fetching else Failing)
    case Find(w, found) => Moved(s, w, if found then Storing else Succeeding(false))
    case WorkFails(w) => Moved(s, w, Failing)
    case Store(w) =>
      var card := s.workers[w].card;
      if card in s.images then Moved(s.(images := s.images[card := [Automatic(w)]]), w, Succeeding(true))
      else Moved(s, w, Failing)
    case FalseStore(w) => Moved(s.(images := s.images[s.workers[w].card := [Automatic(w)]]), w, Failing)
    case Mark(w) => Moved(s.(jobs := MarkedJobs(s, s.workers[w])), w, Done(ReportOf(s.workers[w])))
    case MarkFails(w, applied) =>
      Moved(if applied then s.(jobs := MarkedJobs(s, s.workers[w])) else s, w, Done(StoreError))
    case Crash(w) => Moved(s, w, Crashed)
    case Upload(card, files) => s.(images := s.images[card := s.images[card] + Uploads(files)])
    case Replace(card, files) => s.(images := s.images[card := Uploads(files)])
    case Delete(card) => s.(images := s.images - {card}, jobs := s.jobs - {card})
    case Tick(seconds) => s.(now := s.now + seconds)
  }

  predicate Legal(s: State, events: seq<Event>)
    decreases |events|
  {
    events == [] || (Enabled(s, events[0]) && Legal(Apply(s, events[0]), events[1..]))
  }

  function After(s: State, events: seq<Event>): State
    requires Legal(s, events)
    decreases |events|
  {
    if events == [] then s else After(Apply(s, events[0]), events[1..])
  }

  // ---------- at most one automatic image ----------

  predicate OneAutomatic(images: Images) {
    forall card :: card in images ==> forall k :: 0 <= k < |images[card]| && images[card][k].Automatic? ==> k == 0
  }

  lemma StepKeepsOneAutomatic(s: State, e: Event)
    requires OneAutomatic(s.images) && Enabled(s, e)
    ensures OneAutomatic(Apply(s, e).images)
  {
    if e.Upload? {
      var all := s.images[e.card] + Uploads(e.files);
      assert forall k :: 0 <= k < |all| && all[k].Automatic? ==> k < |s.images[e.card]| && s.images[e.card][k].Automatic?;
    }
  }

  /** However workers, crashes and expired leases interleave, a card never has two automatic images, and an automatic one comes first. */
  lemma {:induction false} AtMostOneAutomaticImage(s: State, events: seq<Event>)
    requires OneAutomatic(s.images) && Legal(s, events)
    ensures OneAutomatic(After(s, events).images)
    decreases |events|
  {
    hide OneAutomatic, Apply;
    if events != [] {
      StepKeepsOneAutomatic(s, events[0]);
      AtMostOneAutomaticImage(Apply(s, events[0]), events[1..]);
    }
  }

  // ---------- no second store ----------

  /** The card has an image, and no worker but the early ones is past the look at the images towards a store. */
  ghost predicate Illustrated(s: State, card: int, early: set<nat>) {
    && card in s.images && s.images[card] != []
    && forall w :: w in s.workers && w !in early && s.workers[w].card == card ==>
         !s.workers[w].phase.Fetching? && !s.workers[w].phase.Storing?
  }

  /** The event takes images away from the card. */
  predicate Strips(e: Event, card: int) {
    (e.Replace? && e.card == card && e.files == []) || (e.Delete? && e.card == card)
  }

  lemma IllustratedStep(s: State, e: Event, card: int, early: set<nat>)
    requires Illustrated(s, card, early) && Enabled(s, e) && !Strips(e, card) && (forall w :: w in early ==> w in s.workers)
    ensures Illustrated(Apply(s, e), card, early) && forall w :: w in early ==> w in Apply(s, e).workers
    ensures (e.Store? || e.FalseStore?) && s.workers[e.w].card == card ==> e.w in early
  {
  }

  lemma {:induction false} StaysIllustrated(s: State, events: seq<Event>, card: int, early: set<nat>)
    requires Illustrated(s, card, early) && Legal(s, events) && (forall w :: w in early ==> w in s.workers)
    requires forall e :: e in events ==> !Strips(e, card)
    ensures Illustrated(After(s, events), card, early)
    decreases |events|
  {
    hide Illustrated, Apply, Enabled;
    if events != [] {
      assert events[0] in events;
      assert forall e :: e in events[1..] ==> e in events;
      IllustratedStep(s, events[0], card, early);
      StaysIllustrated(Apply(s, events[0]), events[1..], card, early);
    }
  }

  /**
   Once a card has an image, no worker that had not yet looked at the card's images stores
   another one, in any run that leaves the card an image: in particular a job claimed
   again after a crash between storing and marking does not store again.
   */
  lemma NoSecondStore(s: State, events: seq<Event>, card: int, early: set<nat>, w: nat)
    requires Illustrated(s, card, early) && Legal(s, events) && (forall v :: v in early ==> v in s.workers)
    requires forall e :: e in events ==> !Strips(e, card)
    requires w !in early && w in After(s, events).workers && After(s, events).workers[w].card == card
    ensures !Enabled(After(s, events), Store(w)) && card in After(s, events).images && After(s, events).images[card] != []
  {
    StaysIllustrated(s, events, card, early);
  }

  // ---------- attempts and reports ----------

  /** Claims of this job wait for their turn: no lease is overtaken. */
  predicate Patient(s: State, e: Event) {
    match e
    case Claim(_, card) => card in s.jobs && s.jobs[card].status.Waiting?
    case Enqueue(card) => card !in s.jobs || !s.jobs[card].status.Processing?
    case _ => true
  }

  /** Every live worker holds the job it claimed, under the claim's number. */
  ghost predicate OneHolder(jobs: Jobs, workers: Workers) {
    && (forall w :: w in workers && Live(workers[w]) && workers[w].card in jobs ==>
          jobs[workers[w].card].status.Processing? && jobs[workers[w].card].attempts == workers[w].attempts)
    && (forall w, v :: w in workers && v in workers && w != v && Live(workers[w]) && Live(workers[v]) ==>
          workers[w].card != workers[v].card || workers[w].card !in jobs)
  }

  ghost predicate AttemptsBounded(jobs: Jobs) {
    forall card :: card in jobs ==>
      && jobs[card].attempts <= 3
      && (jobs[card].status.Waiting? ==> jobs[card].attempts < 3)
      && (jobs[card].status.Failed? ==> jobs[card].attempts == 3)
  }

  ghost predicate ReportsSound(workers: Workers) {
    forall w :: w in workers ==>
      && 1 <= workers[w].attempts <= 3
      && (workers[w].phase == Done(GaveUp) ==> workers[w].attempts == 3)
      && (workers[w].phase == Done(Retrying) ==> workers[w].attempts < 3)
  }

  ghost predicate CardsKnown(images: Images, jobs: Jobs, workers: Workers) {
    && (forall card :: card in jobs ==> card in images)
    && forall w :: w in workers && workers[w].card in images ==> workers[w].card in jobs
  }

  ghost predicate PatientInv(s: State) {
    OneHolder(s.jobs, s.workers) && AttemptsBounded(s.jobs) && ReportsSound(s.workers) && CardsKnown(s.images, s.jobs, s.workers)
  }

  /** A worker that goes on, stops or crashes, with the jobs as they were. */
  lemma MovedPatient(s: State, w: nat, phase: Phase)
    requires PatientInv(s) && w in s.workers
    requires Live(s.workers[w]) || !Live(s.workers[w].(phase := phase))
    requires phase.Done? ==> phase.report.StoreError?
    ensures PatientInv(Moved(s, w, phase))
  {
  }

  lemma MarkPatient(s: State, w: nat, report: Report)
    requires PatientInv(s) && Enabled(s, Mark(w)) && (report == StoreError || report == ReportOf(s.workers[w]))
    ensures PatientInv(Moved(s.(jobs := MarkedJobs(s, s.workers[w])), w, Done(report)))
  {
    hide OneHolder, AttemptsBounded, ReportsSound, MarkedJobs;
    var jobs := MarkedJobs(s, s.workers[w]);
    MarkedOnly(s, w);
    MarkKeepsHolder(s, w, jobs, report);
    MarkKeepsBounds(s, w);
    MarkKeepsReports(s, w, report);
  }

  lemma MarkedOnly(s: State, w: nat)
    requires Enabled(s, Mark(w))
    ensures var jobs := MarkedJobs(s, s.workers[w]);
            jobs.Keys == s.jobs.Keys && forall card :: card in jobs && card != s.workers[w].card ==> jobs[card] == s.jobs[card]
  {
  }

  lemma MarkKeepsHolder(s: State, w: nat, jobs: Jobs, report: Report)
    requires OneHolder(s.jobs, s.workers) && Enabled(s, Mark(w)) && jobs.Keys == s.jobs.Keys
    requires forall card :: card in jobs && card != s.workers[w].card ==> jobs[card] == s.jobs[card]
    ensures OneHolder(jobs, s.workers[w := s.workers[w].(phase := Done(report))])
  {
  }

  lemma MarkKeepsBounds(s: State, w: nat)
    requires OneHolder(s.jobs, s.workers) && AttemptsBounded(s.jobs) && Enabled(s, Mark(w))
    ensures AttemptsBounded(MarkedJobs(s, s.workers[w]))
  {
  }

  lemma MarkKeepsReports(s: State, w: nat, report: Report)
    requires ReportsSound(s.workers) && Enabled(s, Mark(w)) && (report == StoreError || report == ReportOf(s.workers[w]))
    ensures ReportsSound(s.workers[w := s.workers[w].(phase := Done(report))])
  {
  }

  lemma ClaimPatient(s: State, w: nat, card: int)
    requires PatientInv(s) && Enabled(s, Claim(w, card)) && Patient(s, Claim(w, card))
    ensures PatientInv(Apply(s, Claim(w, card)))
  {
  }

  lemma EnqueuePatient(s: State, card: int)
    requires PatientInv(s) && Enabled(s, Enqueue(card)) && Patient(s, Enqueue(card))
    ensures PatientInv(Apply(s, Enqueue(card)))
  {
  }

  lemma RequeuePatient(s: State, cards: set<int>)
    requires PatientInv(s)
    ensures PatientInv(Apply(s, Requeue(cards)))
  {
  }

  lemma CardsPatient(s: State, e: Event)
    requires PatientInv(s) && Enabled(s, e) && (e.NewCard? || e.Upload? || e.Replace? || e.Delete? || e.Tick?)
    ensures PatientInv(Apply(s, e))
  {
  }

  lemma StorePatient(s: State, w: nat)
    requires PatientInv(s) && Enabled(s, Store(w))
    ensures PatientInv(Apply(s, Store(w)))
  {
    var card := s.workers[w].card;
    if card in s.images {
      MovedPatient(s.(images := s.images[card := [Automatic(w)]]), w, Succeeding(true));
    } else {
      MovedPatient(s, w, Failing);
    }
  }

  lemma FalseStorePatient(s: State, w: nat)
    requires PatientInv(s) && Enabled(s, FalseStore(w))
    ensures PatientInv(Apply(s, FalseStore(w)))
  {
    MovedPatient(s.(images := s.images[s.workers[w].card := [Automatic(w)]]), w, Failing);
  }

  lemma PatientStep(s: State, e: Event)
    requires PatientInv(s) && Enabled(s, e) && Patient(s, e)
    ensures PatientInv(Apply(s, e))
  {
    hide PatientInv;
    match e
    case Claim(w, card) => ClaimPatient(s, w, card);
    case Enqueue(card) => EnqueuePatient(s, card);
    case Requeue(cards) => RequeuePatient(s, cards);
    case Mark(w) => MarkPatient(s, w, ReportOf(s.workers[w]));
    case Store(w) => StorePatient(s, w);
    case FalseStore(w) => FalseStorePatient(s, w);
    case Check(w) => MovedPatient(s, w, Apply(s, e).workers[w].phase);
    case Find(w, _) => MovedPatient(s, w, Apply(s, e).workers[w].phase);
    case WorkFails(w) => MovedPatient(s, w, Failing);
    case MarkFails(w, applied) => if applied { MarkPatient(s, w, StoreError); } else { MovedPatient(s, w, Done(StoreError)); }
    case Crash(w) => MovedPatient(s, w, Crashed);
    case _ => CardsPatient(s, e);
  }

  ghost predicate AllPatient(s: State, events: seq<Event>)
    requires Legal(s, events)
    decreases |events|
  {
    events == [] || (Patient(s, events[0]) && AllPatient(Apply(s, events[0]), events[1..]))
  }

  lemma {:induction false} RunStaysPatient(s: State, events: seq<Event>)
    requires PatientInv(s) && Legal(s, events) && AllPatient(s, events)
    ensures PatientInv(After(s, events))
    decreases |events|
  {
    hide PatientInv, Apply, Patient;
    if events != [] {
      PatientStep(s, events[0]);
      RunStaysPatient(Apply(s, events[0]), events[1..]);
    }
  }

  /**
   As long as no lease runs out on its holder: a job has at most one worker and at most
   three attempts, it is failed after exactly three, and a worker gives up on its third
   attempt and on no other.
   */
  lemma ThreeAttempts(events: seq<Event>)
    requires Legal(INITIAL, events) && AllPatient(INITIAL, events)
    ensures var s := After(INITIAL, events);
            OneHolder(s.jobs, s.workers) && AttemptsBounded(s.jobs) && ReportsSound(s.workers)
  {
    RunStaysPatient(INITIAL, events);
  }

  // ---------- leases that run out ----------

  /** One claim that crashes and whose lease runs out. */
  function LostClaim(w: nat, card: int): seq<Event> {
    [Claim(w, card), Crash(w), Tick(LEASE)]
  }

  function LostClaims(n: nat, card: int): seq<Event> {
    if n == 0 then [NewCard(card), Enqueue(card)] else LostClaims(n - 1, card) + LostClaim(n, card)
  }

  lemma {:induction false} RunParts(s: State, a: seq<Event>, b: seq<Event>)
    requires Legal(s, a) && Legal(After(s, a), b)
    ensures Legal(s, a + b) && After(s, a + b) == After(After(s, a), b)
    decreases |a|
  {
    hide Enabled, Apply;
    if a == [] {
      assert a + b == b;
    } else {
      assert (a + b)[1..] == a[1..] + b;
      RunParts(Apply(s, a[0]), a[1..], b);
    }
  }

  lemma RunThree(s: State, a: Event, b: Event, c: Event)
    requires Enabled(s, a) && Enabled(Apply(s, a), b) && Enabled(Apply(Apply(s, a), b), c)
    ensures Legal(s, [a, b, c]) && After(s, [a, b, c]) == Apply(Apply(Apply(s, a), b), c)
  {
    hide Enabled, Apply;
    assert [a, b, c][1..] == [b, c] && [b, c][1..] == [c] && [c][1..] == [];
    var s' := Apply(Apply(s, a), b);
    assert Legal(Apply(s', c), []) && After(Apply(s', c), []) == Apply(s', c);
    assert Legal(s', [c]) && After(s', [c]) == Apply(s', c);
    assert Legal(Apply(s, a), [b, c]) && After(Apply(s, a), [b, c]) == Apply(s', c);
  }

  lemma LostClaimRuns(s: State, w: nat, card: int)
    requires w !in s.workers && card in s.jobs && Due(s.jobs[card], s.now)
    ensures Legal(s, LostClaim(w, card))
    ensures var t := After(s, LostClaim(w, card));
            && t.images == s.images && t.jobs.Keys == s.jobs.Keys && t.workers.Keys == s.workers.Keys + {w}
            && t.jobs[card].attempts == s.jobs[card].attempts + 1 && Due(t.jobs[card], t.now) && t.jobs[card].status.Processing?
  {
    hide Legal, After;
    RunThree(s, Claim(w, card), Crash(w), Tick(LEASE));
  }

  /** Crashes are not counted against the limit: a job whose workers keep crashing is claimed any number of times and never fails. */
  lemma {:induction false} CrashesAreNotCounted(n: nat, card: int)
    ensures Legal(INITIAL, LostClaims(n, card))
    ensures var s := After(INITIAL, LostClaims(n, card));
            && s.images == map[card := []] && s.jobs.Keys == {card} && (forall w :: w in s.workers ==> w <= n)
            && s.jobs[card].attempts == n && Due(s.jobs[card], s.now) && !s.jobs[card].status.Failed?
  {
    hide Legal, After, LostClaim;
    if n == 0 {
      TwoSteps(card);
    } else {
      CrashesAreNotCounted(n - 1, card);
      LostClaimRuns(After(INITIAL, LostClaims(n - 1, card)), n, card);
      RunParts(INITIAL, LostClaims(n - 1, card), LostClaim(n, card));
    }
  }

  lemma TwoSteps(card: int)
    ensures Legal(INITIAL, [NewCard(card), Enqueue(card)])
    ensures After(INITIAL, [NewCard(card), Enqueue(card)]) == State(0, map[card := []], map[card := Fresh(0, 0)], map[])
  {
    var s1 := Apply(INITIAL, NewCard(card));
    var s2 := Apply(s1, Enqueue(card));
    assert [NewCard(card), Enqueue(card)][1..] == [Enqueue(card)] && [Enqueue(card)][1..] == [];
    assert Legal(s2, []) && After(s2, []) == s2;
    assert Legal(s1, [Enqueue(card)]) && After(s1, [Enqueue(card)]) == s2;
  }

  // ---------- what the statements do to the jobs ----------

  /** A job is due if it waits and its time has come, or is in work under a lease that has run out. */
  lemma DueIs(job: Job, now: nat)
    ensures Due(job, now) <==>
            || (job.status == Waiting && job.availableAt <= now)
            || (job.status == Processing && job.lease.Some? && job.lease.value <= now)
  {
  }

  /** Enqueuing a card leaves alone a job whose lease still runs, and other cards; any other job of the card waits again from now, with no attempts and as old as it was. */
  lemma EnqueueIs(s: State, card: int)
    requires Enabled(s, Enqueue(card))
    ensures var t := Apply(s, Enqueue(card));
            && t.images == s.images && t.workers == s.workers && t.now == s.now
            && card in t.jobs && (forall c :: c != card ==> (c in t.jobs <==> c in s.jobs) && (c in s.jobs ==> t.jobs[c] == s.jobs[c]))
            && ((card in s.jobs && s.jobs[card].status == Processing && s.jobs[card].lease.Some? && s.now < s.jobs[card].lease.value) ==>
                  t.jobs[card] == s.jobs[card])
            && (card !in s.jobs ==> t.jobs[card] == Job(Waiting, 0, s.now, s.now, None, None))
            && ((card in s.jobs && (s.jobs[card].status != Processing || s.jobs[card].lease.None? || s.jobs[card].lease.value <= s.now)) ==>
                  t.jobs[card] == Job(Waiting, 0, s.now, s.jobs[card].createdAt, None, None))
  {
  }

  /** A request to run again takes exactly the failed jobs of its cards, and the completed ones whose card has no image. */
  lemma RequeueIs(s: State, cards: set<int>)
    ensures var t := Apply(s, Requeue(cards));
            && t.jobs.Keys == s.jobs.Keys
            && forall c :: c in s.jobs ==>
                 if c in cards && (s.jobs[c].status == Failed || (s.jobs[c].status == Completed && (c in s.images ==> s.images[c] == [])))
                 then t.jobs[c] == Job(Waiting, 0, s.now, s.jobs[c].createdAt, None, None)
                 else t.jobs[c] == s.jobs[c]
  {
  }

  /** In every run no card ever has two automatic images, and an automatic one is its first. */
  lemma NoTwoAutomatic(events: seq<Event>, card: int, j: nat, k: nat)
    requires Legal(INITIAL, events) && card in After(INITIAL, events).images
    requires j < |After(INITIAL, events).images[card]| && After(INITIAL, events).images[card][j].Automatic?
    requires k < |After(INITIAL, events).images[card]| && After(INITIAL, events).images[card][k].Automatic?
    ensures j == k == 0
  {
    hide Legal, After;
    AtMostOneAutomaticImage(INITIAL, events);
  }
}
