/**
 The code of one enrichment worker and the statements it runs, in a world where other
 workers and users may do anything between its steps: every way through it is a run of
 the job protocol.
 */
module EnrichmentWorker {
  import opened Options
  import opened ImageJobs

  /** What becomes of a store: it may also report an error after it took effect. */
  datatype StoreFate = Stores | Refused | FalseAlarm

  /** Where the worker's process can end in the middle of its pass. */
  datatype Point = AtCheck | AtSearch | AtStore | AtMark

  /** What the worker meets: errors before it has looked, while it searches and stores, what the search finds, an error of the final mark, which may have taken effect, and the end of its process. */
  datatype Fate = Fate(
    checkFails: bool,
    searchFails: bool,
    found: bool,
    store: StoreFate,
    markFault: Option<bool>,
    crash: Option<Point>)

  /** How one pass ends. */
  datatype Pass = Idle | Reported(report: Report) | Died

  /** How the work on a claimed job ends: with an image, without one, with an error, or not. */
  datatype Work = Worked(attached: bool) | Erred | Lost

  datatype ImageJobClaim = ImageJobClaim(card: int, attempts: nat)

  ghost predicate Reaches(s: State, t: State) {
    exists events :: Legal(s, events) && After(s, events) == t
  }

  lemma ReachesSelf(s: State)
    ensures Reaches(s, s)
  {
    assert Legal(s, []) && After(s, []) == s;
  }

  lemma ReachesTwice(s: State, t: State, u: State)
    requires Reaches(s, t) && Reaches(t, u)
    ensures Reaches(s, u)
  {
    hide Legal, After;
    var a :| Legal(s, a) && After(s, a) == t;
    var b :| Legal(t, b) && After(t, b) == u;
    RunParts(s, a, b);
  }

  /** What is reached, and one more event. */
  lemma ReachesStep(s: State, t: State, e: Event)
    requires Reaches(s, t) && Enabled(t, e)
    ensures Reaches(s, Apply(t, e))
  {
    hide Enabled, Apply, Reaches;
    ReachesOne(t, e);
    ReachesTwice(s, t, Apply(t, e));
  }

  lemma ReachesOne(s: State, e: Event)
    requires Enabled(s, e)
    ensures Reaches(s, Apply(s, e))
  {
    hide Enabled, Apply;
    assert [e][1..] == [];
    assert Legal(Apply(s, e), []) && After(Apply(s, e), []) == Apply(s, e);
    assert Legal(s, [e]) && After(s, [e]) == Apply(s, e);
  }

  /** The jobs that are due and not locked by another claim. */
  function Claimable(jobs: Jobs, now: nat, locked: set<int>): set<int> {
    set c | c in jobs && c !in locked && Due(jobs[c], now)
  }

  predicate Sooner(jobs: Jobs, a: int, b: int)
    requires a in jobs && b in jobs
  {
    || jobs[a].availableAt < jobs[b].availableAt
    || (jobs[a].availableAt == jobs[b].availableAt
        && (jobs[a].createdAt < jobs[b].createdAt || (jobs[a].createdAt == jobs[b].createdAt && a < b)))
  }

  predicate Soonest(jobs: Jobs, cards: set<int>, card: int)
    requires cards <= jobs.Keys
  {
    card in cards && forall c :: c in cards ==> !Sooner(jobs, c, card)
  }

  /** The card to claim is due before all others, or enqueued before those due with it, or has the lower number. */
  lemma SoonestIs(jobs: Jobs, cards: set<int>, card: int)
    requires cards <= jobs.Keys
    ensures Soonest(jobs, cards, card) <==>
            card in cards && forall c :: c in cards && c != card ==>
              if jobs[c].availableAt != jobs[card].availableAt then jobs[card].availableAt < jobs[c].availableAt
              else if jobs[c].createdAt != jobs[card].createdAt then jobs[card].createdAt < jobs[c].createdAt
              else card < c
  {
  }

  lemma SoonestExists(jobs: Jobs, cards: set<int>, first: int)
    requires first in cards && cards <= jobs.Keys
    ensures exists c :: Soonest(jobs, cards, c)
    decreases cards
  {
    var rest := cards - {first};
    assert forall c :: c in cards ==> c == first || c in rest;
    if next :| next in rest {
      SoonestExists(jobs, rest, next);
      var other :| Soonest(jobs, rest, other);
      assert Soonest(jobs, cards, if Sooner(jobs, other, first) then other else first);
    } else {
      assert Soonest(jobs, cards, first);
    }
  }

  function PhaseOf(work: Work): Phase {
    match work
    case Worked(attached) => Succeeding(attached)
    case Erred => Failing
    case Lost => Crashed
  }

  class World {
    var now: nat
    var images: Images
    var jobs: Jobs
    /** Where each worker is in its work; a record of the run, which no code reads. */
    ghost var workers: Workers

    ghost function Snapshot(): State
      reads this
    {
      State(now, images, jobs, workers)
    }

    /** Other workers and users act; worker w is left alone. */
    method Elsewhere(w: nat)
      modifies this
      ensures Reaches(old(Snapshot()), Snapshot())
      ensures w in workers <==> w in old(workers)
      ensures w in workers ==> workers[w] == old(workers)[w]
    {
      ReachesSelf(Snapshot());
    }

    // ---------- the statements ----------

    /** Picks the job available longest, of those the oldest, and of those the lowest card, that no other claim has locked, and takes it in the same statement. */
    method ClaimNext(w: nat, locked: set<int>) returns (claim: Option<ImageJobClaim>)
      modifies this`jobs
      ensures match claim
              case None => jobs == old(jobs) && forall c :: c in jobs && c !in locked ==> !Due(jobs[c], now)
              case Some(c) =>
                && Soonest(old(jobs), Claimable(old(jobs), now, locked), c.card) && c.attempts == old(jobs)[c.card].attempts + 1
                && jobs == old(jobs)[c.card := Job(Processing, c.attempts, old(jobs)[c.card].availableAt, old(jobs)[c.card].createdAt, Some(now + 300), Some(w))]
    {
      if forall c :: c in jobs && c !in locked ==> !Due(jobs[c], now) {
        return None;
      }
      ghost var some :| some in jobs && some !in locked && Due(jobs[some], now);
      SoonestExists(jobs, Claimable(jobs, now, locked), some);
      var card :| Soonest(jobs, Claimable(jobs, now, locked), card);
      var attempts := jobs[card].attempts + 1;
      jobs := jobs[card := Job(Processing, attempts, jobs[card].availableAt, jobs[card].createdAt, Some(now + LEASE), Some(w))];
      claim := Some(ImageJobClaim(card, attempts));
    }

    /** The card's images, none for a card that is gone. */
    method ListImages(card: int) returns (found: seq<Origin>)
      ensures found == if card in images then images[card] else []
    {
      found := if card in images then images[card] else [];
    }

    /** Replaces whatever images the card has; a card that is gone is an error. */
    method ReplaceImages(card: int, w: nat, falseAlarm: bool) returns (ok: bool)
      modifies this`images
      ensures images == if card in old(images) then old(images)[card := [Automatic(w)]] else old(images)
      ensures ok <==> card in old(images) && !falseAlarm
    {
      if card !in images {
        return false;
      }
      images := images[card := [Automatic(w)]];
      ok := !falseAlarm;
    }

    /** Looks at nothing but the card. */
    method MarkCompleted(card: int)
      modifies this`jobs
      ensures jobs == if card in old(jobs) then old(jobs)[card := old(jobs)[card].(status := Completed, lease := None, holder := None)] else old(jobs)
    {
      if card in jobs {
        jobs := jobs[card := jobs[card].(status := Completed, lease := None, holder := None)];
      }
    }

    /** Looks at the card and the status, and at no lease. */
    method MarkRetryOrFailed(claim: ImageJobClaim)
      modifies this`jobs
      ensures jobs == if claim.card in old(jobs) && old(jobs)[claim.card].status.Processing?
                      then old(jobs)[claim.card := Job(if claim.attempts >= 3 then Failed else Waiting,
                                                       old(jobs)[claim.card].attempts, now + Delay(claim.attempts), old(jobs)[claim.card].createdAt, None, None)]
                      else old(jobs)
    {
      var failed := claim.attempts >= MAX_ATTEMPTS;
      var delay := if claim.attempts <= 1 then 5 else if claim.attempts == 2 then 30 else 120;
      if claim.card in jobs && jobs[claim.card].status.Processing? {
        jobs := jobs[claim.card := jobs[claim.card].(status := if failed then Failed else Waiting, availableAt := now + delay, lease := None, holder := None)];
      }
    }

    // ---------- the worker ----------

    /** The worker moves on in its work. */
    ghost method Moves(w: nat, phase: Phase)
      requires w in workers
      modifies this`workers
      ensures workers == old(workers)[w := old(workers)[w].(phase := phase)]
    {
      workers := workers[w := workers[w].(phase := phase)];
    }

    /** The process ends in the middle of the pass. */
    ghost method Crashes(w: nat, start: State)
      requires w in workers && Live(workers[w]) && Reaches(start, Snapshot())
      modifies this`workers
      ensures Reaches(start, Snapshot()) && w in workers && workers[w] == old(workers)[w].(phase := Crashed)
    {
      hide Reaches;
      ghost var before := Snapshot();
      Moves(w, Crashed);
      ReachesStep(start, before, Crash(w));
    }

    /** One pass of a worker: nothing is free, one claimed job is taken to its report, or the process ends. */
    method ProcessOne(w: nat, fate: Fate, locked: set<int>) returns (pass: Pass)
      requires w !in workers
      modifies this
      ensures Reaches(old(Snapshot()), Snapshot())
      ensures match pass
              case Idle => w !in workers && forall c :: c in jobs && c !in locked ==> !Due(jobs[c], now)
              case Reported(report) => w in workers && workers[w].phase == Done(report)
              case Died => w in workers && workers[w].phase == Crashed && fate.crash.Some?
      ensures pass.Reported? ==>
        && (pass.report.GaveUp? ==> workers[w].attempts >= 3)
        && (pass.report.Retrying? ==> workers[w].attempts < 3)
        && (pass.report.StoreError? <==> fate.markFault.Some?)
    {
      hide Reaches, Legal, After, Apply, Enabled;
      ghost var start := Snapshot();
      Elsewhere(w);
      ghost var before := Snapshot();
      var claim := ClaimNext(w, locked);
      if claim.None? {
        return Idle;
      }
      var card, attempts := claim.value.card, claim.value.attempts;
      workers := workers[w := Worker(card, attempts, Claimed)];
      ClaimIsStep(before, w, card, Snapshot());
      ReachesStep(start, before, Claim(w, card));
      before := Snapshot();
      var work := EnrichClaimedCard(w, claim.value, fate);
      ReachesTwice(start, before, Snapshot());
      if work.Lost? {
        return Died;
      }
      before := Snapshot();
      Elsewhere(w);
      ReachesTwice(start, before, Snapshot());
      if fate.crash == Some(AtMark) {
        Crashes(w, start);
        return Died;
      }
      before := Snapshot();
      var report := MarkClaim(w, claim.value, work, fate);
      MarkEndsPass(start, before, w, fate.markFault, Snapshot(), report);
      pass := Reported(report);
    }

    /** Marks the job, and reports what the mark reports. */
    method MarkClaim(w: nat, claim: ImageJobClaim, work: Work, fate: Fate) returns (report: Report)
      requires !work.Lost? && w in workers && workers[w] == Worker(claim.card, claim.attempts, PhaseOf(work))
      modifies this`jobs, this`workers
      ensures report == if fate.markFault.Some? then StoreError else ReportOf(old(workers)[w])
      ensures jobs == if fate.markFault == Some(false) then old(jobs) else MarkedJobs(old(Snapshot()), old(workers)[w])
      ensures workers == old(workers)[w := old(workers)[w].(phase := Done(report))]
    {
      if fate.markFault.None? || fate.markFault.value {
        match work {
          case Worked(attached) =>
            MarkCompleted(claim.card);
            report := if attached then Attached else CompletedWithoutImage;
          case Erred =>
            MarkRetryOrFailed(claim);
            report := if claim.attempts >= MAX_ATTEMPTS then GaveUp else Retrying;
        }
      }
      if fate.markFault.Some? {
        report := StoreError;
      }
      Moves(w, Done(report));
    }

    /** Looks at the card, searches and stores: whether an image is attached, an error, or the end of the process. */
    method EnrichClaimedCard(w: nat, claim: ImageJobClaim, fate: Fate) returns (work: Work)
      requires w in workers && workers[w] == Worker(claim.card, claim.attempts, Claimed)
      modifies this
      ensures Reaches(old(Snapshot()), Snapshot()) && w in workers
      ensures workers[w] == Worker(claim.card, claim.attempts, PhaseOf(work)) && (work.Lost? ==> fate.crash.Some?)
    {
      hide Reaches, Legal, After, Apply, Enabled;
      ghost var start := Snapshot();
      Elsewhere(w);
      if fate.crash == Some(AtCheck) {
        Crashes(w, start);
        return Lost;
      }
      ghost var before := Snapshot();
      if fate.checkFails {
        Moves(w, Failing);
        WorkFailsIsStep(before, w, Snapshot());
        ReachesStep(start, before, WorkFails(w));
        return Erred;
      }
      var found := ListImages(claim.card);
      var known := claim.card in images;
      Moves(w, if found != [] then Succeeding(true) else if known then Fetching else Failing);
      CheckIsStep(before, w, Snapshot());
      ReachesStep(start, before, Check(w));
      if found != [] {
        return Worked(true);
      }
      if !known {
        return Erred;
      }
      before := Snapshot();
      Elsewhere(w);
      ReachesTwice(start, before, Snapshot());
      if fate.crash == Some(AtSearch) {
        Crashes(w, start);
        return Lost;
      }
      before := Snapshot();
      if fate.searchFails {
        Moves(w, Failing);
        WorkFailsIsStep(before, w, Snapshot());
        ReachesStep(start, before, WorkFails(w));
        return Erred;
      }
      Moves(w, if fate.found then Storing else Succeeding(false));
      FindIsStep(before, w, fate.found, Snapshot());
      ReachesStep(start, before, Find(w, fate.found));
      if !fate.found {
        return Worked(false);
      }
      before := Snapshot();
      Elsewhere(w);
      ReachesTwice(start, before, Snapshot());
      if fate.crash == Some(AtStore) {
        Crashes(w, start);
        return Lost;
      }
      before := Snapshot();
      if fate.store.Refused? {
        Moves(w, Failing);
        WorkFailsIsStep(before, w, Snapshot());
        ReachesStep(start, before, WorkFails(w));
        return Erred;
      }
      var stored := ReplaceImages(claim.card, w, fate.store.FalseAlarm?);
      Moves(w, if stored then Succeeding(true) else Failing);
      StoreIsStep(before, w, fate.store.FalseAlarm?, Snapshot());
      ReachesStep(start, before, if fate.store.FalseAlarm? && claim.card in before.images then FalseStore(w) else Store(w));
      work := if stored then Worked(true) else Erred;
    }
  }

  // ---------- what the code changed is a step of the protocol ----------

  lemma ClaimIsStep(s: State, w: nat, card: int, t: State)
    requires w !in s.workers && card in s.jobs && Due(s.jobs[card], s.now)
    requires var n := s.jobs[card].attempts + 1;
             t == s.(jobs := s.jobs[card := Job(Processing, n, s.jobs[card].availableAt, s.jobs[card].createdAt, Some(s.now + LEASE), Some(w))],
                     workers := s.workers[w := Worker(card, n, Claimed)])
    ensures Enabled(s, Claim(w, card)) && Apply(s, Claim(w, card)) == t
  {
  }

  lemma CheckIsStep(s: State, w: nat, t: State)
    requires w in s.workers && s.workers[w].phase.Claimed?
    requires var card := s.workers[w].card;
             var found := if card in s.images then s.images[card] else [];
             t == Moved(s, w, if found != [] then Succeeding(true) else if card in s.images then Fetching else Failing)
    ensures Enabled(s, Check(w)) && Apply(s, Check(w)) == t
  {
  }

  lemma WorkFailsIsStep(s: State, w: nat, t: State)
    requires w in s.workers && (s.workers[w].phase.Claimed? || s.workers[w].phase.Fetching? || s.workers[w].phase.Storing?)
    requires t == Moved(s, w, Failing)
    ensures Enabled(s, WorkFails(w)) && Apply(s, WorkFails(w)) == t
  {
  }

  lemma FindIsStep(s: State, w: nat, found: bool, t: State)
    requires w in s.workers && s.workers[w].phase.Fetching? && t == Moved(s, w, if found then Storing else Succeeding(false))
    ensures Enabled(s, Find(w, found)) && Apply(s, Find(w, found)) == t
  {
  }

  lemma StoreIsStep(s: State, w: nat, falseAlarm: bool, t: State)
    requires w in s.workers && s.workers[w].phase.Storing?
    requires var card := s.workers[w].card;
             && t.images == (if card in s.images then s.images[card := [Automatic(w)]] else s.images)
             && t == Moved(s.(images := t.images), w, if card in s.images && !falseAlarm then Succeeding(true) else Failing)
    ensures var e := if falseAlarm && s.workers[w].card in s.images then FalseStore(w) else Store(w);
            Enabled(s, e) && Apply(s, e) == t
  {
  }

  /** Whether the mark reports what it did or an error, its effect or the lack of it is a step. */
  lemma MarkEndsPass(start: State, s: State, w: nat, fault: Option<bool>, t: State, report: Report)
    requires Reaches(start, s) && w in s.workers && (s.workers[w].phase.Succeeding? || s.workers[w].phase.Failing?)
    requires t == Moved(if fault == Some(false) then s else s.(jobs := MarkedJobs(s, s.workers[w])), w, Done(report))
    requires report == if fault.Some? then StoreError else ReportOf(s.workers[w])
    ensures Reaches(start, t)
  {
    hide Reaches;
    ReachesStep(start, s, if fault.Some? then MarkFails(w, fault.value) else Mark(w));
  }
}
