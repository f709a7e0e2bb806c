/**
 The image store: image files on disk and the rows that name them, changed by any
 number of concurrent uploads and deletions in ordered steps with compensation. A
 process may stop between any two steps.
 */
module ImageStore {
  import opened Options

  const MAX_CARD_IMAGES: nat := 4

  type Path = string
  type Bytes = string

  /** What owns rows: a card of a user, or a pool image of a user, which has exactly one row. */
  datatype Owner = Card(user: string, id: int) | Pool(user: string, id: int)

  datatype Row = Row(position: nat, path: Path, size: nat)

  /** The work of one call. An image that cannot be parsed or prepared is none. */
  datatype Job =
    | Replace(card: Owner, images: seq<Option<Bytes>>)
    | Append(card: Owner, images: seq<Option<Bytes>>)
    | DeleteCards(cards: set<Owner>)
    | PoolAdd(user: string, image: Option<Bytes>)
    | PoolDelete(pooled: Owner)

  datatype Phase =
    | Writing(rows: seq<Row>)          // files written so far, not in the tables yet
    | Found(path: Path)                // a pool deletion has read its row
    | Erasing(paths: seq<Path>, ok: bool)
    | Finished(ok: bool)
    | Crashed

  datatype Call = Call(job: Job, phase: Phase)

  type Files = map<Path, Bytes>
  type Rows = map<Owner, seq<Row>>
  type Calls = map<nat, Call>

  /** used remembers every file name ever drawn: names are random and taken to be new. */
  datatype State = State(files: Files, rows: Rows, used: set<Path>, calls: Calls)

  const INITIAL := State(map[], map[], {}, map[])

  datatype Event =
    | NewCard(card: Owner)
    | Begin(i: nat, job: Job)
    | Write(i: nat, path: Path)
    | WriteFails(i: nat, path: Path, left: Option<Bytes>)   // a failed write may leave part of the file
    | Reject(i: nat)                                        // an image cannot be prepared
    | Find(i: nat)
    | Commit(i: nat, id: int)
    | CommitFails(i: nat, id: int, applied: bool)           // the error may arrive although the commit took effect
    | Erase(i: nat, removed: bool)
    | EndErase(i: nat)
    | Crash(i: nat)

  function Images(job: Job): seq<Option<Bytes>> {
    match job
    case Replace(_, images) => images
    case Append(_, images) => images
    case PoolAdd(_, image) => [image]
    case _ => []
  }

  predicate Stores(job: Job) {
    job.Replace? || job.Append? || job.PoolAdd?
  }

  predicate AllPrepared(images: seq<Option<Bytes>>) {
    forall k :: 0 <= k < |images| ==> images[k].Some?
  }

  /** The next image can be written: a replacement prepares one at a time, the others all at first. */
  predicate Ready(job: Job, n: nat) {
    n < |Images(job)| && if job.Replace? then Images(job)[n].Some? else AllPrepared(Images(job))
  }

  predicate Unready(job: Job, n: nat) {
    if job.Replace? then n < |job.images| && job.images[n].None? else n == 0 && !AllPrepared(Images(job))
  }

  predicate WritingCall(s: State, i: nat) {
    i in s.calls && s.calls[i].phase.Writing?
  }

  /** Row ids are never used twice, so a new one is neither in the table nor being deleted from it. */
  predicate NewPool(s: State, o: Owner) {
    o !in s.rows && forall j :: j in s.calls && s.calls[j].job.PoolDelete? ==> s.calls[j].job.pooled != o
  }

  predicate Committable(s: State, i: nat, id: int) {
    && i in s.calls
    && var c := s.calls[i];
       match c.job
       case PoolDelete(_) => c.phase.Found?
       case DeleteCards(_) => c.phase.Writing?
       case PoolAdd(user, _) => c.phase.Writing? && |c.phase.rows| == 1 && NewPool(s, Pool(user, id))
       case _ => c.phase.Writing? && |c.phase.rows| == |Images(c.job)|
  }

  /** What the callers see to: at most four images replace those of a card. */
  predicate JobFits(job: Job) {
    match job
    case Replace(card, images) => card.Card? && |images| <= MAX_CARD_IMAGES
    case Append(card, _) => card.Card?
    case DeleteCards(cards) => forall o :: o in cards ==> o.Card?
    case PoolAdd(_, _) => true
    case PoolDelete(pooled) => pooled.Pool?
  }

  predicate Enabled(s: State, e: Event) {
    match e
    case NewCard(card) => card.Card? && card !in s.rows
    case Begin(i, job) =>
      && i !in s.calls
      && JobFits(job)
    case Write(i, path) => WritingCall(s, i) && Ready(s.calls[i].job, |s.calls[i].phase.rows|) && path !in s.used
    case WriteFails(i, path, _) => WritingCall(s, i) && Ready(s.calls[i].job, |s.calls[i].phase.rows|) && path !in s.used
    case Reject(i) => WritingCall(s, i) && Unready(s.calls[i].job, |s.calls[i].phase.rows|)
    case Find(i) => WritingCall(s, i) && s.calls[i].job.PoolDelete?
    case Commit(i, id) => Committable(s, i, id)
    case CommitFails(i, id, _) => Committable(s, i, id)
    case Erase(i, _) => i in s.calls && s.calls[i].phase.Erasing? && s.calls[i].phase.paths != []
    case EndErase(i) => i in s.calls && s.calls[i].phase.Erasing? && s.calls[i].phase.paths == []
    case Crash(i) => i in s.calls && !s.calls[i].phase.Finished?
  }

  function Moved(s: State, i: nat, phase: Phase): State
    requires i in s.calls
  {
    s.(calls := s.calls[i := s.calls[i].(phase := phase)])
  }

  function Paths(rows: seq<Row>): (r: seq<Path>)
    ensures |r| == |rows| && forall k :: 0 <= k < |rows| ==> r[k] == rows[k].path
  {
    seq(|rows|, k requires 0 <= k < |rows| => rows[k].path)
  }

  /** New rows come after the old ones. */
  function Shifted(rows: seq<Row>, offset: nat): (r: seq<Row>)
    ensures |r| == |rows| && forall k :: 0 <= k < |rows| ==> r[k] == rows[k].(position := rows[k].position + offset)
  {
    seq(|rows|, k requires 0 <= k < |rows| => rows[k].(position := rows[k].position + offset))
  }

  /** What the transaction of a job does to the tables: none if it is refused. */
  function NewRows(rows: Rows, c: Call, id: int): Option<Rows>
    requires Stores(c.job) ==> c.phase.Writing?
  {
    match c.job
    case Replace(card, _) => if card in rows then Some(rows[card := c.phase.rows]) else None
    case Append(card, _) =>
      if card in rows && |rows[card]| + |c.phase.rows| <= MAX_CARD_IMAGES
      then Some(rows[card := rows[card] + Shifted(c.phase.rows, |rows[card]|)])
      else None
    case DeleteCards(cards) => if cards <= rows.Keys then Some(rows - cards) else None
    case PoolAdd(user, _) => Some(rows[Pool(user, id) := c.phase.rows])
    case PoolDelete(image) => Some(rows - {image})
  }

  /** The paths of a set of cards, in the order of some enumeration of it. */
  function PathsOf(rows: Rows, owners: seq<Owner>): (r: seq<Path>)
    ensures forall p :: p in r ==> exists o, k :: o in owners && o in rows && 0 <= k < |rows[o]| && rows[o][k].path == p
    ensures forall o, k :: o in owners && o in rows && 0 <= k < |rows[o]| ==> rows[o][k].path in r
  {
    if owners == [] then []
    else
      var o := owners[0];
      var rest := PathsOf(rows, owners[1..]);
      if o in rows then
        var own := Paths(rows[o]);
        assert forall k :: 0 <= k < |rows[o]| ==> own[k] in own;
        own + rest
      else rest
  }

  /** The files to remove after the transaction took effect. */
  ghost function ToErase(rows: Rows, c: Call): seq<Path> {
    match c.job
    case Replace(card, _) => if card in rows then Paths(rows[card]) else []
    case DeleteCards(cards) => PathsOf(rows, Listing(cards))
    case PoolDelete(_) => if c.phase.Found? then [c.phase.path] else []
    case _ => []
  }

  ghost function Listing(owners: set<Owner>): (r: seq<Owner>)
    ensures forall o :: o in r <==> o in owners
  {
    if owners == {} then []
    else
      var o :| o in owners;
      [o] + Listing(owners - {o})
  }

  ghost function Apply(s: State, e: Event): State
    requires Enabled(s, e)
  {
    match e
    case NewCard(card) => s.(rows := s.rows[card := []])
    case Begin(i, job) => s.(calls := s.calls[i := Call(job, Writing([]))])
    case Write(i, path) =>
      var c := s.calls[i];
      var n := |c.phase.rows|;
      var bytes := Images(c.job)[n].value;
      Moved(s.(files := s.files[path := bytes], used := s.used + {path}), i,
            Writing(c.phase.rows + [Row(n, path, |bytes|)]))
    case WriteFails(i, path, left) =>
      Moved(s.(files := if left.Some? then s.files[path := left.value] else s.files, used := s.used + {path}), i,
            Erasing(Paths(s.calls[i].phase.rows), false))
    case Reject(i) => Moved(s, i, Finished(false))
    case Find(i) =>
      var o := s.calls[i].job.pooled;
      Moved(s, i, if o in s.rows && |s.rows[o]| == 1 then Found(s.rows[o][0].path) else Finished(false))
    case Commit(i, id) =>
      var c := s.calls[i];
      var rows := NewRows(s.rows, c, id);
      if rows.Some? then Moved(s.(rows := rows.value), i, Erasing(ToErase(s.rows, c), true))
      else Moved(s, i, Erasing(if c.phase.Writing? then Paths(c.phase.rows) else [], false))
    case CommitFails(i, id, applied) =>
      var c := s.calls[i];
      var rows := NewRows(s.rows, c, id);
      Moved(if applied && rows.Some? then s.(rows := rows.value) else s, i,
            Erasing(if c.phase.Writing? then Paths(c.phase.rows) else [], false))
    case Erase(i, removed) =>
      var ps := s.calls[i].phase.paths;
      Moved(if removed then s.(files := s.files - {ps[0]}) else s, i, Erasing(ps[1..], s.calls[i].phase.ok))
    case EndErase(i) => Moved(s, i, Finished(s.calls[i].phase.ok))
    case Crash(i) => Moved(s, i, Crashed)
  }

  ghost predicate Legal(s: State, events: seq<Event>)
    decreases |events|
  {
    events == [] || (Enabled(s, events[0]) && Legal(Apply(s, events[0]), events[1..]))
  }

  ghost function After(s: State, events: seq<Event>): State
    requires Legal(s, events)
    decreases |events|
  {
    if events == [] then s else After(Apply(s, events[0]), events[1..])
  }

  // ---------- the invariant ----------

  predicate Backed(files: Files, row: Row) {
    row.path in files && |files[row.path]| == row.size
  }

  /** Every row names an existing, complete file, and rows are numbered from zero. */
  ghost predicate RowsBacked(files: Files, rows: Rows, used: set<Path>) {
    forall o, k :: o in rows && 0 <= k < |rows[o]| ==>
      Backed(files, rows[o][k]) && rows[o][k].path in used && rows[o][k].position == k
  }

  ghost predicate RowsApart(rows: Rows) {
    forall o, k, o', k' :: o in rows && 0 <= k < |rows[o]| && o' in rows && 0 <= k' < |rows[o']| ==>
      rows[o][k].path == rows[o'][k'].path ==> o == o' && k == k'
  }

  ghost predicate FewRows(rows: Rows) {
    forall o :: o in rows ==> |rows[o]| <= MAX_CARD_IMAGES
  }

  ghost predicate Unnamed(rows: Rows, p: Path) {
    forall o, k :: o in rows && 0 <= k < |rows[o]| ==> rows[o][k].path != p
  }

  /** Only the given owner may have a row with this path. */
  ghost predicate NamedBy(rows: Rows, owner: Owner, p: Path) {
    forall o, k :: o in rows && 0 <= k < |rows[o]| && rows[o][k].path == p ==> o == owner
  }

  ghost predicate Pending(files: Files, rows: Rows, used: set<Path>, ws: seq<Row>) {
    && (forall k :: 0 <= k < |ws| ==>
          Backed(files, ws[k]) && ws[k].path in used && ws[k].position == k && Unnamed(rows, ws[k].path))
    && forall k, k' :: 0 <= k < k' < |ws| ==> ws[k].path != ws[k'].path
  }

  ghost predicate OnlyRow(rows: Rows, owner: Owner, p: Path) {
    owner in rows ==> |rows[owner]| == 1 && rows[owner][0].path == p
  }

  /** The files written so far hold the first images. */
  ghost predicate Written(files: Files, images: seq<Option<Bytes>>, ws: seq<Row>) {
    && |ws| <= |images|
    && forall k :: 0 <= k < |ws| ==> ws[k].path in files && images[k] == Some(files[ws[k].path])
  }

  ghost predicate CallSound(files: Files, rows: Rows, used: set<Path>, c: Call) {
    && JobFits(c.job)
    && match c.phase
       case Writing(ws) => Pending(files, rows, used, ws) && Written(files, Images(c.job), ws)
       case Found(p) => c.job.PoolDelete? && p in used && NamedBy(rows, c.job.pooled, p) && OnlyRow(rows, c.job.pooled, p)
       case Erasing(ps, _) => forall k :: 0 <= k < |ps| ==> ps[k] in used && Unnamed(rows, ps[k])
       case _ => true
  }

  ghost predicate CallsSound(files: Files, rows: Rows, used: set<Path>, calls: Calls) {
    forall i :: i in calls ==> CallSound(files, rows, used, calls[i])
  }

  /** The paths a call may store or remove. */
  ghost function Touched(c: Call): (r: set<Path>)
    ensures c.phase.Writing? ==> forall k :: 0 <= k < |c.phase.rows| ==> c.phase.rows[k].path in r
    ensures c.phase.Erasing? ==> forall k :: 0 <= k < |c.phase.paths| ==> c.phase.paths[k] in r
  {
    match c.phase
    case Writing(ws) => set k | 0 <= k < |ws| :: ws[k].path
    case Found(q) => {q}
    case Erasing(ps, _) => set k | 0 <= k < |ps| :: ps[k]
    case _ => {}
  }

  /** No other call touches what a call has written and not stored yet. */
  ghost predicate CallsApart(calls: Calls) {
    forall i, j :: i in calls && j in calls && i != j && calls[i].phase.Writing? ==> Touched(calls[i]) !! Touched(calls[j])
  }

  ghost predicate Inv(s: State) {
    && RowsBacked(s.files, s.rows, s.used) && RowsApart(s.rows) && FewRows(s.rows)
    && CallsSound(s.files, s.rows, s.used, s.calls) && CallsApart(s.calls)
  }

  // ---------- every step keeps the invariant ----------

  /** A new phase for one call that touches nothing new. */
  lemma NarrowPhase(s: State, i: nat, phase: Phase)
    requires Inv(s) && i in s.calls && CallSound(s.files, s.rows, s.used, s.calls[i].(phase := phase))
    requires Touched(s.calls[i].(phase := phase)) <= Touched(s.calls[i])
    requires s.calls[i].phase.Writing? || !phase.Writing?
    ensures Inv(Moved(s, i, phase))
  {
  }

  lemma TouchedAreUsed(s: State, i: nat)
    requires Inv(s) && i in s.calls
    ensures Touched(s.calls[i]) <= s.used
  {
    assert CallSound(s.files, s.rows, s.used, s.calls[i]);
  }

  /** A file under a new name disturbs nothing. */
  lemma NewFile(s: State, path: Path, bytes: Bytes)
    requires Inv(s) && path !in s.used
    ensures Inv(s.(files := s.files[path := bytes], used := s.used + {path}))
    ensures Inv(s.(used := s.used + {path}))
    ensures Unnamed(s.rows, path)
    ensures forall j :: j in s.calls ==> path !in Touched(s.calls[j])
  {
    forall j | j in s.calls
      ensures path !in Touched(s.calls[j])
      ensures CallSound(s.files[path := bytes], s.rows, s.used + {path}, s.calls[j])
      ensures CallSound(s.files, s.rows, s.used + {path}, s.calls[j])
    {
      TouchedAreUsed(s, j);
      assert CallSound(s.files, s.rows, s.used, s.calls[j]);
    }
  }

  /** The file just written joins those written before. */
  lemma WriteSound(s: State, i: nat, path: Path)
    requires Inv(s) && Enabled(s, Write(i, path))
    ensures var t := Apply(s, Write(i, path));
            CallSound(t.files, t.rows, t.used, t.calls[i]) && Touched(t.calls[i]) <= Touched(s.calls[i]) + {path}
  {
    hide RowsBacked, RowsApart, FewRows, CallsApart, JobFits, Unnamed;
    var c := s.calls[i];
    var ws := c.phase.rows;
    var bytes := Images(c.job)[|ws|].value;
    var files, used := s.files[path := bytes], s.used + {path};
    NewFile(s, path, bytes);
    assert CallSound(files, s.rows, used, c);
    assert forall k :: 0 <= k < |ws| ==> ws[k].path in Touched(c);
    OneMore(files, s.rows, used, Images(c.job), ws, Row(|ws|, path, |bytes|));
  }

  lemma OneMore(files: Files, rows: Rows, used: set<Path>, images: seq<Option<Bytes>>, ws: seq<Row>, row: Row)
    requires Pending(files, rows, used, ws) && Written(files, images, ws) && |ws| < |images|
    requires Backed(files, row) && row.path in used && row.position == |ws| && Unnamed(rows, row.path)
    requires images[|ws|] == Some(files[row.path]) && forall k :: 0 <= k < |ws| ==> ws[k].path != row.path
    ensures Pending(files, rows, used, ws + [row]) && Written(files, images, ws + [row])
  {
    hide Unnamed;
  }

  lemma WriteKeepsInv(s: State, i: nat, path: Path)
    requires Inv(s) && Enabled(s, Write(i, path))
    ensures Inv(Apply(s, Write(i, path)))
  {
    hide RowsBacked, RowsApart, FewRows, CallSound, Touched;
    var c := s.calls[i];
    NewFile(s, path, Images(c.job)[|c.phase.rows|].value);
    WriteSound(s, i, path);
  }

  lemma WriteFailsKeepsInv(s: State, i: nat, path: Path, left: Option<Bytes>)
    requires Inv(s) && Enabled(s, WriteFails(i, path, left))
    ensures Inv(Apply(s, WriteFails(i, path, left)))
  {
    NewFile(s, path, if left.Some? then left.value else "");
    var s' := s.(files := if left.Some? then s.files[path := left.value] else s.files, used := s.used + {path});
    EraseOwn(s', i);
  }

  /** Giving up: what a call has written is what it erases. */
  lemma EraseOwn(s: State, i: nat)
    requires Inv(s) && WritingCall(s, i)
    ensures Inv(Moved(s, i, Erasing(Paths(s.calls[i].phase.rows), false)))
  {
    var c := s.calls[i];
    assert CallSound(s.files, s.rows, s.used, c);
    NarrowPhase(s, i, Erasing(Paths(c.phase.rows), false));
  }

  lemma EraseKeepsInv(s: State, i: nat, removed: bool)
    requires Inv(s) && Enabled(s, Erase(i, removed))
    ensures Inv(Apply(s, Erase(i, removed)))
  {
    var c := s.calls[i];
    var p := c.phase.paths[0];
    assert CallSound(s.files, s.rows, s.used, c);
    assert p in Touched(c) && Unnamed(s.rows, p);
    var files := if removed then s.files - {p} else s.files;
    forall j | j in s.calls
      ensures CallSound(files, s.rows, s.used, s.calls[j])
    {
      assert CallSound(s.files, s.rows, s.used, s.calls[j]);
      if s.calls[j].phase.Writing? {
        assert p !in Touched(s.calls[j]);
      }
    }
    NarrowPhase(s.(files := files), i, Erasing(c.phase.paths[1..], c.phase.ok));
  }

  ghost predicate HasPath(rows: seq<Row>, p: Path) {
    exists k :: 0 <= k < |rows| && rows[k].path == p
  }

  /** Every row after a transaction was a row of the same owner or one of the written ones. */
  ghost predicate Derived(rows: Rows, rows': Rows, ws: seq<Row>) {
    forall o, k :: o in rows' && 0 <= k < |rows'[o]| ==>
      (o in rows && HasPath(rows[o], rows'[o][k].path)) || HasPath(ws, rows'[o][k].path)
  }

  lemma DerivedIf(rows: Rows, rows': Rows, ws: seq<Row>)
    requires forall o :: o in rows' ==>
      (o in rows && rows[o] == rows'[o]) || rows'[o] == ws || (o in rows && rows'[o] == rows[o] + Shifted(ws, |rows[o]|))
    ensures Derived(rows, rows', ws)
  {
    forall o, k | o in rows' && 0 <= k < |rows'[o]|
      ensures (o in rows && HasPath(rows[o], rows'[o][k].path)) || HasPath(ws, rows'[o][k].path)
    {
      if o in rows && k < |rows[o]| && rows'[o] != ws {
        assert rows[o][k].path == rows'[o][k].path;
      } else if rows'[o] == ws {
        assert ws[k].path == rows'[o][k].path;
      } else {
        assert ws[k - |rows[o]|].path == rows'[o][k].path;
      }
    }
  }

  /** A transaction leaves the rows of pool images alone, but for new or deleted ones. */
  ghost predicate PoolKept(calls: Calls, rows: Rows, rows': Rows) {
    forall o: Owner :: o.Pool? && o in rows' ==>
      if o in rows then rows'[o] == rows[o]
      else forall j :: j in calls && calls[j].job.PoolDelete? ==> calls[j].job.pooled != o
  }

  ghost predicate RowsSound(files: Files, rows: Rows, used: set<Path>) {
    RowsBacked(files, rows, used) && RowsApart(rows) && FewRows(rows)
  }

  function WrittenRows(c: Call): seq<Row> {
    if c.phase.Writing? then c.phase.rows else []
  }

  lemma DerivedUnnamed(rows: Rows, rows': Rows, ws: seq<Row>, p: Path)
    requires Derived(rows, rows', ws) && forall k :: 0 <= k < |ws| ==> ws[k].path != p
    ensures Unnamed(rows, p) ==> Unnamed(rows', p)
    ensures forall o :: NamedBy(rows, o, p) ==> NamedBy(rows', o, p)
  {
  }

  /** A transaction on the tables leaves all other calls sound. */
  lemma OthersStaySound(s: State, i: nat, rows': Rows)
    requires Inv(s) && i in s.calls && Derived(s.rows, rows', WrittenRows(s.calls[i])) && PoolKept(s.calls, s.rows, rows')
    ensures forall j :: j in s.calls && j != i ==> CallSound(s.files, rows', s.used, s.calls[j])
  {
    var ws := WrittenRows(s.calls[i]);
    forall j | j in s.calls && j != i
      ensures CallSound(s.files, rows', s.used, s.calls[j])
    {
      var c := s.calls[j];
      assert CallSound(s.files, s.rows, s.used, c);
      forall p | p in Touched(c)
        ensures Unnamed(s.rows, p) ==> Unnamed(rows', p)
        ensures forall o :: NamedBy(s.rows, o, p) ==> NamedBy(rows', o, p)
      {
        DerivedUnnamed(s.rows, rows', ws, p);
      }
    }
  }

  /** Written rows with paths of their own: unnamed, and each one different. */
  ghost predicate Strange(rows: Rows, ws: seq<Row>) {
    && (forall k :: 0 <= k < |ws| ==> Unnamed(rows, ws[k].path))
    && forall k, k' :: 0 <= k < k' < |ws| ==> ws[k].path != ws[k'].path
  }

  lemma ReplaceApart(rows: Rows, o: Owner, ws: seq<Row>)
    requires RowsApart(rows) && Strange(rows, ws)
    ensures RowsApart(rows[o := ws])
    ensures o in rows ==> forall k :: 0 <= k < |rows[o]| ==> Unnamed(rows[o := ws], rows[o][k].path)
  {
  }

  lemma ReplaceRows(files: Files, rows: Rows, used: set<Path>, card: Owner, ws: seq<Row>)
    requires RowsSound(files, rows, used) && Pending(files, rows, used, ws) && |ws| <= MAX_CARD_IMAGES
    ensures RowsSound(files, rows[card := ws], used) && Derived(rows, rows[card := ws], ws)
    ensures card in rows ==> forall k :: 0 <= k < |rows[card]| ==> Unnamed(rows[card := ws], rows[card][k].path)
  {
    hide RowsApart, Backed, Unnamed, Derived;
    DerivedIf(rows, rows[card := ws], ws);
    ReplaceApart(rows, card, ws);
  }

  /** A row of the table after an append is an old row or a new one. */
  lemma AppendedRow(files: Files, rows: Rows, used: set<Path>, card: Owner, ws: seq<Row>, o: Owner, k: nat)
    requires RowsSound(files, rows, used) && Pending(files, rows, used, ws) && card in rows
    requires o in rows && k < |if o == card then rows[card] + Shifted(ws, |rows[card]|) else rows[o]|
    ensures var row := (if o == card then rows[card] + Shifted(ws, |rows[card]|) else rows[o])[k];
            && Backed(files, row) && row.path in used && row.position == k
            && if o == card && k >= |rows[card]| then row.path == ws[k - |rows[card]|].path && Unnamed(rows, row.path)
               else row == rows[o][k]
  {
    hide RowsApart, FewRows, Unnamed;
    var n := |rows[card]|;
    if o == card && k >= n {
      assert Shifted(ws, n)[k - n].path == ws[k - n].path;
      assert Backed(files, ws[k - n]);
    } else {
      assert Backed(files, rows[o][k]);
    }
  }

  lemma AppendApart(rows: Rows, card: Owner, ws: seq<Row>)
    requires RowsApart(rows) && Strange(rows, ws) && card in rows
    ensures RowsApart(rows[card := rows[card] + Shifted(ws, |rows[card]|)])
  {
    hide Shifted;
    var n := |rows[card]|;
    var all := rows[card] + Shifted(ws, n);
    assert forall k :: 0 <= k < |all| ==> all[k].path == if k < n then rows[card][k].path else ws[k - n].path;
  }

  lemma AppendRows(files: Files, rows: Rows, used: set<Path>, card: Owner, ws: seq<Row>)
    requires RowsSound(files, rows, used) && Pending(files, rows, used, ws) && card in rows
    requires |rows[card]| + |ws| <= MAX_CARD_IMAGES
    ensures var rows' := rows[card := rows[card] + Shifted(ws, |rows[card]|)];
            RowsSound(files, rows', used) && Derived(rows, rows', ws)
  {
    hide Backed, RowsApart, Unnamed, Derived;
    var n := |rows[card]|;
    var rows' := rows[card := rows[card] + Shifted(ws, n)];
    DerivedIf(rows, rows', ws);
    AppendApart(rows, card, ws);
    forall o, k | o in rows' && 0 <= k < |rows'[o]|
      ensures Backed(files, rows'[o][k]) && rows'[o][k].path in used && rows'[o][k].position == k
    {
      AppendedRow(files, rows, used, card, ws, o, k);
    }
  }

  lemma RemoveRows(files: Files, rows: Rows, used: set<Path>, owners: set<Owner>)
    requires RowsSound(files, rows, used)
    ensures RowsSound(files, rows - owners, used) && Derived(rows, rows - owners, [])
    ensures forall o, k :: o in owners && o in rows && 0 <= k < |rows[o]| ==> Unnamed(rows - owners, rows[o][k].path)
    ensures forall o, p :: o in owners && NamedBy(rows, o, p) ==> Unnamed(rows - owners, p)
  {
    DerivedIf(rows, rows - owners, []);
  }

  /** What a successful transaction leaves: sound tables, and files to remove that no row names. */
  lemma CommittedRows(s: State, i: nat, id: int)
    requires Inv(s) && Committable(s, i, id) && NewRows(s.rows, s.calls[i], id).Some?
    ensures var rows' := NewRows(s.rows, s.calls[i], id).value;
            && RowsSound(s.files, rows', s.used) && Derived(s.rows, rows', WrittenRows(s.calls[i]))
            && PoolKept(s.calls, s.rows, rows')
            && forall k :: 0 <= k < |ToErase(s.rows, s.calls[i])| ==> Unnamed(rows', ToErase(s.rows, s.calls[i])[k])
  {
    hide RowsBacked, RowsApart, FewRows, Derived, Unnamed, NamedBy, CallsApart, Backed;
    var c := s.calls[i];
    assert CallSound(s.files, s.rows, s.used, c);
    match c.job
    case Replace(card, _) => ReplaceRows(s.files, s.rows, s.used, card, c.phase.rows);
    case Append(card, _) => AppendRows(s.files, s.rows, s.used, card, c.phase.rows);
    case PoolAdd(user, _) => ReplaceRows(s.files, s.rows, s.used, Pool(user, id), c.phase.rows);
    case DeleteCards(cards) =>
      RemoveRows(s.files, s.rows, s.used, cards);
      DerivedMore(s.rows, s.rows - cards, WrittenRows(c));
      var ps := ToErase(s.rows, c);
      forall k | 0 <= k < |ps|
        ensures Unnamed(s.rows - cards, ps[k])
      {
        assert ps[k] in ps;
      }
    case PoolDelete(image) => RemoveRows(s.files, s.rows, s.used, {image});
  }

  lemma DerivedMore(rows: Rows, rows': Rows, ws: seq<Row>)
    requires Derived(rows, rows', [])
    ensures Derived(rows, rows', ws)
  {
  }

  /** The files to remove were drawn before and are no other call's writing. */
  lemma ErasedApart(s: State, i: nat)
    requires Inv(s) && i in s.calls
    ensures var ps := ToErase(s.rows, s.calls[i]);
            && (forall k :: 0 <= k < |ps| ==> ps[k] in s.used)
            && forall j, k :: j in s.calls && j != i && s.calls[j].phase.Writing? && 0 <= k < |ps| ==> ps[k] !in Touched(s.calls[j])
  {
    var c := s.calls[i];
    var ps := ToErase(s.rows, c);
    TouchedAreUsed(s, i);
    forall p | p in ps
      ensures p in s.used
      ensures forall j :: j in s.calls && j != i && s.calls[j].phase.Writing? ==> p !in Touched(s.calls[j])
    {
      if c.job.PoolDelete? {
        assert p in Touched(c);
      } else {
        NamedPath(s, c, p);
        forall j | j in s.calls && j != i && s.calls[j].phase.Writing?
          ensures p !in Touched(s.calls[j])
        {
          assert CallSound(s.files, s.rows, s.used, s.calls[j]);
        }
      }
    }
    forall j, k | j in s.calls && j != i && s.calls[j].phase.Writing? && 0 <= k < |ps|
      ensures ps[k] !in Touched(s.calls[j])
    {
      assert ps[k] in ps;
    }
  }

  lemma ErasedIsNamed(rows: Rows, c: Call, p: Path)
    requires p in ToErase(rows, c) && !c.job.PoolDelete?
    ensures !Unnamed(rows, p)
  {
    if c.job.Replace? {
      var k :| 0 <= k < |rows[c.job.card]| && Paths(rows[c.job.card])[k] == p;
      assert rows[c.job.card][k].path == p;
    } else {
      var o, k :| o in rows && 0 <= k < |rows[o]| && rows[o][k].path == p;
      assert rows[o][k].path == p;
    }
  }

  lemma NamedPath(s: State, c: Call, p: Path)
    requires Inv(s) && p in ToErase(s.rows, c) && !c.job.PoolDelete?
    ensures p in s.used && !Unnamed(s.rows, p)
  {
    ErasedIsNamed(s.rows, c, p);
  }

  /** New tables, and a call that goes on to erase what no row names. */
  lemma TablesChange(s: State, i: nat, rows': Rows, paths: seq<Path>, ok: bool)
    requires Inv(s) && i in s.calls && RowsSound(s.files, rows', s.used) && Derived(s.rows, rows', WrittenRows(s.calls[i]))
    requires PoolKept(s.calls, s.rows, rows')
    requires forall k :: 0 <= k < |paths| ==> paths[k] in s.used && Unnamed(rows', paths[k])
    requires forall j, k :: j in s.calls && j != i && s.calls[j].phase.Writing? && 0 <= k < |paths| ==> paths[k] !in Touched(s.calls[j])
    ensures Inv(Moved(s.(rows := rows'), i, Erasing(paths, ok)))
  {
    hide RowsBacked, RowsApart, FewRows, Derived, Unnamed, Backed, PoolKept;
    OthersStaySound(s, i, rows');
    var c' := s.calls[i].(phase := Erasing(paths, ok));
    assert CallSound(s.files, rows', s.used, c');
  }

  /** The commit of this event inserts rows although its caller is told that it failed. */
  ghost predicate FalseAlarm(s: State, e: Event) {
    e.CommitFails? && e.applied && Enabled(s, e) && Stores(s.calls[e.i].job)
  }

  lemma CommitKeepsInv(s: State, e: Event)
    requires Inv(s) && (e.Commit? || e.CommitFails?) && Enabled(s, e) && !FalseAlarm(s, e)
    ensures Inv(Apply(s, e))
  {
    hide RowsBacked, RowsApart, FewRows, Derived, Unnamed, Backed, CallsApart, CallsSound, ToErase, NewRows, PoolKept;
    var c := s.calls[e.i];
    var rows' := NewRows(s.rows, c, e.id);
    var own := Erasing(if c.phase.Writing? then Paths(c.phase.rows) else [], false);
    if rows'.Some? && (e.Commit? || e.applied) {
      CommittedRows(s, e.i, e.id);
      if e.Commit? {
        ErasedApart(s, e.i);
        TablesChange(s, e.i, rows'.value, ToErase(s.rows, c), true);
      } else {
        assert !Stores(c.job);
        NoRowsWritten(s, e.i);
        TablesChange(s, e.i, rows'.value, [], false);
      }
    } else if c.phase.Writing? {
      EraseOwn(s, e.i);
    } else {
      JobStillFits(s, e.i);
      NarrowPhase(s, e.i, own);
    }
  }

  lemma JobStillFits(s: State, i: nat)
    requires Inv(s) && i in s.calls
    ensures JobFits(s.calls[i].job)
  {
    assert CallSound(s.files, s.rows, s.used, s.calls[i]);
  }

  lemma NoRowsWritten(s: State, i: nat)
    requires Inv(s) && i in s.calls && !Stores(s.calls[i].job)
    ensures s.calls[i].phase.Writing? ==> s.calls[i].phase.rows == []
  {
    assert CallSound(s.files, s.rows, s.used, s.calls[i]);
  }

  lemma FindKeepsInv(s: State, i: nat)
    requires Inv(s) && Enabled(s, Find(i))
    ensures Inv(Apply(s, Find(i)))
  {
    var o := s.calls[i].job.pooled;
    if o in s.rows && |s.rows[o]| == 1 {
      var p := s.rows[o][0].path;
      var c' := s.calls[i].(phase := Found(p));
      forall o', k | o' in s.rows && 0 <= k < |s.rows[o']| && s.rows[o'][k].path == p
        ensures o' == o
      {
        assert s.rows[o'][k].path == s.rows[o][0].path;
      }
      assert CallSound(s.files, s.rows, s.used, c');
      forall j | j in s.calls && s.calls[j].phase.Writing?
        ensures p !in Touched(s.calls[j])
      {
        assert CallSound(s.files, s.rows, s.used, s.calls[j]);
        assert s.rows[o][0].path == p;
      }
      forall j, k | j in s.calls && k in s.calls && j != k
        ensures var calls := Apply(s, Find(i)).calls;
                calls[j].phase.Writing? ==> Touched(calls[j]) !! Touched(calls[k])
      {
      }
    } else {
      NarrowPhase(s, i, Finished(false));
    }
  }

  lemma BeginKeepsInv(s: State, i: nat, job: Job)
    requires Inv(s) && Enabled(s, Begin(i, job))
    ensures Inv(Apply(s, Begin(i, job)))
  {
    assert CallSound(s.files, s.rows, s.used, Call(job, Writing([])));
  }

  lemma NewCardKeepsInv(s: State, card: Owner)
    requires Inv(s) && Enabled(s, NewCard(card))
    ensures Inv(Apply(s, NewCard(card)))
  {
    hide RowsBacked, RowsApart, FewRows, Derived, Backed;
    ReplaceRows(s.files, s.rows, s.used, card, []);
    forall j | j in s.calls
      ensures CallSound(s.files, s.rows[card := []], s.used, s.calls[j])
    {
      assert CallSound(s.files, s.rows, s.used, s.calls[j]);
      NewCardNames(s.rows, card);
    }
  }

  lemma NewCardNames(rows: Rows, card: Owner)
    requires card !in rows
    ensures forall p :: Unnamed(rows, p) ==> Unnamed(rows[card := []], p)
    ensures forall o, p :: NamedBy(rows, o, p) ==> NamedBy(rows[card := []], o, p)
  {
  }

  /** Every step keeps every row backed by its file, whatever fails and whoever crashes, short of a commit that takes effect and is reported as failed. */
  lemma StepKeepsInv(s: State, e: Event)
    requires Inv(s) && Enabled(s, e) && !FalseAlarm(s, e)
    ensures Inv(Apply(s, e))
  {
    hide Inv, Touched, NewRows, ToErase, Touched, FalseAlarm;
    match e
    case NewCard(card) => NewCardKeepsInv(s, card);
    case Begin(i, job) => BeginKeepsInv(s, i, job);
    case Write(i, path) => WriteKeepsInv(s, i, path);
    case WriteFails(i, path, left) => WriteFailsKeepsInv(s, i, path, left);
    case Find(i) => FindKeepsInv(s, i);
    case Erase(i, removed) => EraseKeepsInv(s, i, removed);
    case Commit(_, _) => CommitKeepsInv(s, e);
    case CommitFails(_, _, _) => CommitKeepsInv(s, e);
    case Reject(i) => QuietPhase(s, i, Finished(false));
    case EndErase(i) => QuietPhase(s, i, Finished(s.calls[i].phase.ok));
    case Crash(i) => QuietPhase(s, i, Crashed);
  }

  lemma QuietPhase(s: State, i: nat, phase: Phase)
    requires Inv(s) && i in s.calls && (phase.Finished? || phase.Crashed?)
    ensures Inv(Moved(s, i, phase))
  {
    NarrowPhase(s, i, phase);
  }

  /** The run has no false alarm. */
  ghost predicate Faithful(s: State, events: seq<Event>)
    requires Legal(s, events)
    decreases |events|
  {
    events == [] || (!FalseAlarm(s, events[0]) && Faithful(Apply(s, events[0]), events[1..]))
  }

  lemma {:induction false} RunKeepsInv(s: State, events: seq<Event>)
    requires Inv(s) && Legal(s, events) && Faithful(s, events)
    ensures Inv(After(s, events))
    decreases |events|
  {
    hide Inv, Apply, FalseAlarm;
    if events != [] {
      StepKeepsInv(s, events[0]);
      RunKeepsInv(Apply(s, events[0]), events[1..]);
    }
  }

  // ---------- the promises of the store ----------

  /**
   In every interleaving of uploads, deletions, failures and crashes, every row names an
   existing file with its size, no two rows share a file, rows are numbered from zero and
   no card has more than four.
   */
  lemma EveryRowHasItsFile(events: seq<Event>, o: Owner, k: nat)
    requires Legal(INITIAL, events) && Faithful(INITIAL, events)
    requires o in After(INITIAL, events).rows && k < |After(INITIAL, events).rows[o]|
    ensures var s := After(INITIAL, events);
            var row := s.rows[o][k];
            && row.path in s.files && |s.files[row.path]| == row.size && row.position == k
            && |s.rows[o]| <= 4
            && forall o', k' :: o' in s.rows && 0 <= k' < |s.rows[o']| && s.rows[o'][k'].path == row.path ==> o' == o && k' == k
  {
    hide Legal, After, Faithful;
    EmptyInv();
    RunKeepsInv(INITIAL, events);
    var s := After(INITIAL, events);
    assert Backed(s.files, s.rows[o][k]);
  }

  lemma EmptyInv()
    ensures Inv(INITIAL)
  {
  }

  /** A false alarm does break it: the cleanup that follows removes files the tables name. */
  lemma FalseAlarmLosesFiles(s: State, i: nat, id: int)
    requires Inv(s) && Enabled(s, CommitFails(i, id, true)) && Stores(s.calls[i].job)
    requires NewRows(s.rows, s.calls[i], id).Some? && s.calls[i].phase.rows != []
    ensures var t := Apply(s, CommitFails(i, id, true));
            && Enabled(t, Erase(i, true))
            && exists o, k :: o in t.rows && 0 <= k < |t.rows[o]| && t.rows[o][k].path !in Apply(t, Erase(i, true)).files
  {
    var c := s.calls[i];
    var t := Apply(s, CommitFails(i, id, true));
    var ws := c.phase.rows;
    var o: Owner := match c.job case Replace(card, _) => card case Append(card, _) => card case PoolAdd(user, _) => Pool(user, id);
    var k := |t.rows[o]| - |ws|;
    assert t.rows[o][k].path == ws[0].path;
    assert t.calls[i].phase.paths[0] == ws[0].path;
  }

  // ---------- what is stored ----------

  ghost function BytesAt(files: Files, p: Path): Bytes {
    if p in files then files[p] else ""
  }

  ghost function Read(files: Files, rows: seq<Row>): (r: seq<Bytes>)
    ensures |r| == |rows| && forall k :: 0 <= k < |rows| ==> r[k] == BytesAt(files, rows[k].path)
  {
    seq(|rows|, k requires 0 <= k < |rows| => BytesAt(files, rows[k].path))
  }

  /** The images of an owner, as bytes. */
  ghost function Contents(s: State, o: Owner): seq<Bytes> {
    if o in s.rows then Read(s.files, s.rows[o]) else []
  }

  ghost function Bodies(images: seq<Option<Bytes>>): (r: seq<Bytes>)
    ensures |r| == |images| && forall k :: 0 <= k < |images| ==> r[k] == if images[k].Some? then images[k].value else ""
  {
    seq(|images|, k requires 0 <= k < |images| => if images[k].Some? then images[k].value else "")
  }

  /** The owners whose rows an event changes. */
  ghost predicate Concerns(s: State, e: Event, o: Owner)
    requires Enabled(s, e)
  {
    match e
    case NewCard(card) => card == o
    case Commit(i, id) => ConcernsJob(s.calls[i].job, id, o)
    case CommitFails(i, id, applied) => applied && ConcernsJob(s.calls[i].job, id, o)
    case _ => false
  }

  predicate ConcernsJob(job: Job, id: int, o: Owner) {
    match job
    case Replace(card, _) => o == card
    case Append(card, _) => o == card
    case DeleteCards(cards) => o in cards
    case PoolAdd(user, _) => o == Pool(user, id)
    case PoolDelete(pooled) => o == pooled
  }

  lemma SameContents(s: State, t: State, o: Owner)
    requires (o in s.rows <==> o in t.rows) && (o in s.rows ==> s.rows[o] == t.rows[o])
    requires o in s.rows ==> forall k :: 0 <= k < |s.rows[o]| ==>
      s.rows[o][k].path in s.files && s.rows[o][k].path in t.files && s.files[s.rows[o][k].path] == t.files[s.rows[o][k].path]
    ensures Contents(s, o) == Contents(t, o)
  {
  }

  /** No step changes the images of an owner it does not concern, whatever goes wrong in it. */
  lemma OthersImagesStay(s: State, e: Event, o: Owner)
    requires Inv(s) && Enabled(s, e) && !Concerns(s, e, o)
    ensures (o in Apply(s, e).rows <==> o in s.rows) && Contents(Apply(s, e), o) == Contents(s, o)
  {
    hide CallsSound, CallsApart, RowsApart, FewRows, ToErase;
    var t := Apply(s, e);
    assert o in s.rows ==> t.rows[o] == s.rows[o];
    forall k | o in s.rows && 0 <= k < |s.rows[o]|
      ensures s.rows[o][k].path in s.files && s.rows[o][k].path in t.files && s.files[s.rows[o][k].path] == t.files[s.rows[o][k].path]
    {
      assert Backed(s.files, s.rows[o][k]) && s.rows[o][k].path in s.used;
      if e.Erase? {
        ErasedIsUnnamed(s, e.i);
      }
    }
    SameContents(s, t, o);
  }

  lemma ErasedIsUnnamed(s: State, i: nat)
    requires Inv(s) && Enabled(s, Erase(i, true))
    ensures Unnamed(s.rows, s.calls[i].phase.paths[0])
  {
    assert CallSound(s.files, s.rows, s.used, s.calls[i]);
  }

  /** A committed replacement stores exactly its images, in order; a committed append adds them after the others; a deletion leaves none. */
  lemma CommitStoresImages(s: State, i: nat, id: int, o: Owner)
    requires Inv(s) && Enabled(s, Commit(i, id)) && ConcernsJob(s.calls[i].job, id, o)
    requires NewRows(s.rows, s.calls[i], id).Some?
    ensures var c, t := s.calls[i], Apply(s, Commit(i, id));
            match c.job
            case Append(_, images) => Contents(t, o) == Contents(s, o) + Bodies(images)
            case DeleteCards(_) => o !in t.rows && Contents(t, o) == []
            case PoolDelete(_) => o !in t.rows && Contents(t, o) == []
            case _ => Contents(t, o) == Bodies(Images(c.job))
  {
    hide ToErase, RowsApart, FewRows, CallsApart, Pending, Backed, JobFits, Read, Bodies, Shifted, Written;
    var c, t := s.calls[i], Apply(s, Commit(i, id));
    assert CallSound(s.files, s.rows, s.used, c);
    match c.job
    case Append(_, images) =>
      WrittenBodies(s.files, c.phase.rows, images);
      ReadShifted(s.files, c.phase.rows, |s.rows[o]|);
      ReadTogether(s.files, s.rows[o], Shifted(c.phase.rows, |s.rows[o]|));
    case DeleteCards(_) =>
    case PoolDelete(_) =>
    case _ => WrittenBodies(s.files, c.phase.rows, Images(c.job));
  }

  lemma WrittenBodies(files: Files, ws: seq<Row>, images: seq<Option<Bytes>>)
    requires Written(files, images, ws) && |ws| == |images|
    ensures Read(files, ws) == Bodies(images)
  {
    hide Read, Bodies;
  }

  lemma ReadShifted(files: Files, ws: seq<Row>, n: nat)
    ensures Read(files, Shifted(ws, n)) == Read(files, ws)
  {
    hide Read, Shifted, BytesAt;
  }

  lemma ReadTogether(files: Files, a: seq<Row>, b: seq<Row>)
    ensures Read(files, a + b) == Read(files, a) + Read(files, b)
  {
    hide Read, BytesAt;
  }

  // ---------- files nobody names ----------

  /** Some call still has the file in its hands. */
  ghost predicate InHand(calls: Calls, p: Path) {
    exists i :: i in calls && !calls[i].phase.Found? && p in Touched(calls[i])
  }

  ghost predicate Tidy(s: State) {
    forall p :: p in s.files ==> !Unnamed(s.rows, p) || InHand(s.calls, p)
  }

  /** Steps that may leave a file behind. */
  ghost predicate Littering(s: State, e: Event)
    requires Enabled(s, e)
  {
    match e
    case Crash(_) => true
    case WriteFails(_, _, left) => left.Some?
    case Erase(_, removed) => !removed
    case Reject(i) => s.calls[i].phase.rows != []
    case CommitFails(i, _, applied) => applied
    case _ => false
  }

  lemma NamedStays(rows: Rows, rows': Rows, p: Path)
    requires !Unnamed(rows, p) && forall o :: o in rows ==> o in rows' && rows[o] <= rows'[o]
    ensures !Unnamed(rows', p)
  {
    var o, k :| o in rows && 0 <= k < |rows[o]| && rows[o][k].path == p;
    assert rows'[o][k].path == p;
  }

  lemma NowInHand(calls: Calls, i: nat, p: Path)
    requires i in calls && !calls[i].phase.Found? && p in Touched(calls[i])
    ensures InHand(calls, p)
  {
  }

  lemma CommitStaysTidy(s: State, i: nat, id: int, p: Path)
    requires Inv(s) && Enabled(s, Commit(i, id)) && NewRows(s.rows, s.calls[i], id).Some?
    requires !Unnamed(s.rows, p) || p in Touched(s.calls[i])
    ensures var c := s.calls[i];
            !Unnamed(NewRows(s.rows, c, id).value, p) || p in ToErase(s.rows, c)
  {
    hide Inv, NewRows, Unnamed, Touched, ToErase;
    if p in Touched(s.calls[i]) {
      CommitNamesWritten(s, i, id, p);
    } else {
      CommitNamesOrErases(s, i, id, p);
    }
  }

  lemma CommitNamesWritten(s: State, i: nat, id: int, p: Path)
    requires Inv(s) && Enabled(s, Commit(i, id)) && NewRows(s.rows, s.calls[i], id).Some? && p in Touched(s.calls[i])
    ensures !Unnamed(NewRows(s.rows, s.calls[i], id).value, p) || p in ToErase(s.rows, s.calls[i])
  {
    hide RowsBacked, RowsApart, FewRows, CallsApart, Backed, Pending, Written;
    var c := s.calls[i];
    var rows': Rows := NewRows(s.rows, c, id).value;
    assert CallSound(s.files, s.rows, s.used, c);
    if c.phase.Writing? && Stores(c.job) {
      var k :| 0 <= k < |c.phase.rows| && c.phase.rows[k].path == p;
      var o: Owner := match c.job case Replace(card, _) => card case Append(card, _) => card case PoolAdd(user, _) => Pool(user, id);
      var n: nat := |rows'[o]| - |c.phase.rows| + k;
      assert rows'[o][n].path == p;
    } else {
      NoRowsWritten(s, i);
    }
  }

  lemma CommitNamesOrErases(s: State, i: nat, id: int, p: Path)
    requires Inv(s) && Enabled(s, Commit(i, id)) && NewRows(s.rows, s.calls[i], id).Some? && !Unnamed(s.rows, p)
    ensures !Unnamed(NewRows(s.rows, s.calls[i], id).value, p) || p in ToErase(s.rows, s.calls[i])
  {
    hide RowsBacked, RowsApart, FewRows, CallsApart, Backed, Pending, Written;
    var c := s.calls[i];
    var rows': Rows := NewRows(s.rows, c, id).value;
    assert CallSound(s.files, s.rows, s.used, c);
    var o, k :| o in s.rows && 0 <= k < |s.rows[o]| && s.rows[o][k].path == p;
    if c.job.Replace? && o == c.job.card {
      assert Paths(s.rows[o])[k] == p;
    } else if o in rows' {
      assert rows'[o][k].path == p;
    }
  }

  /** A call that keeps the tables and drops from its hands only what is gone or was never a file. */
  lemma PhaseStaysTidy(s: State, i: nat, files: Files, phase: Phase)
    requires Tidy(s) && i in s.calls && !phase.Found? && files.Keys <= s.files.Keys
    requires !s.calls[i].phase.Found? ==> forall p :: p in Touched(s.calls[i]) && p in files ==> p in Touched(s.calls[i].(phase := phase))
    ensures forall used :: Tidy(Moved(s.(files := files, used := used), i, phase))
  {
    hide Touched;
    var c' := s.calls[i].(phase := phase);
    forall p | p in files && Unnamed(s.rows, p)
      ensures InHand(s.calls[i := c'], p)
    {
      HandStays(s.calls, i, c', p);
    }
  }

  lemma HandStays(calls: Calls, i: nat, c: Call, p: Path)
    requires InHand(calls, p) && i in calls && !c.phase.Found?
    requires !calls[i].phase.Found? && p in Touched(calls[i]) ==> p in Touched(c)
    ensures InHand(calls[i := c], p)
  {
    hide Touched;
    var j :| j in calls && !calls[j].phase.Found? && p in Touched(calls[j]);
    assert calls[i := c][j] == if j == i then c else calls[j];
  }

  lemma WriteStaysTidy(s: State, i: nat, path: Path)
    requires Inv(s) && Tidy(s) && Enabled(s, Write(i, path))
    ensures Tidy(Apply(s, Write(i, path)))
  {
    hide Inv;
    var t := Apply(s, Write(i, path));
    var ws := t.calls[i].phase.rows;
    assert ws[|ws| - 1].path == path;
    forall p | p in t.files && Unnamed(t.rows, p)
      ensures InHand(t.calls, p)
    {
      if p == path {
        NowInHand(t.calls, i, p);
      } else {
        if p in Touched(s.calls[i]) {
          var k :| 0 <= k < |ws| - 1 && s.calls[i].phase.rows[k].path == p;
          assert ws[k].path == p;
        }
        HandStays(s.calls, i, t.calls[i], p);
      }
    }
  }

  lemma CommitKeepsTidy(s: State, i: nat, id: int)
    requires Inv(s) && Tidy(s) && Enabled(s, Commit(i, id)) && NewRows(s.rows, s.calls[i], id).Some?
    ensures Tidy(Apply(s, Commit(i, id)))
  {
    hide Inv, Touched, Unnamed, NewRows, ToErase;
    var t := Apply(s, Commit(i, id));
    forall p | p in t.files && Unnamed(t.rows, p)
      ensures InHand(t.calls, p)
    {
      if !Unnamed(s.rows, p) || p in Touched(s.calls[i]) {
        CommitStaysTidy(s, i, id, p);
        ErasingTouches(t.calls[i], p);
        NowInHand(t.calls, i, p);
      } else {
        HandStays(s.calls, i, t.calls[i], p);
      }
    }
  }

  lemma ErasingTouches(c: Call, p: Path)
    requires c.phase.Erasing? && p in c.phase.paths
    ensures p in Touched(c)
  {
    var k :| 0 <= k < |c.phase.paths| && c.phase.paths[k] == p;
  }

  lemma SamePaths(c: Call, ok: bool)
    requires c.phase.Writing?
    ensures Touched(c) == Touched(c.(phase := Erasing(Paths(c.phase.rows), ok)))
  {
    var c' := c.(phase := Erasing(Paths(c.phase.rows), ok));
    forall p | p in Touched(c)
      ensures p in Touched(c')
    {
      var k :| 0 <= k < |c.phase.rows| && c.phase.rows[k].path == p;
      assert Paths(c.phase.rows)[k] == p;
    }
  }

  lemma EraseStaysTidy(s: State, i: nat)
    requires Tidy(s) && Enabled(s, Erase(i, true))
    ensures Tidy(Apply(s, Erase(i, true)))
  {
    var c := s.calls[i];
    var ps := c.phase.paths;
    var c' := c.(phase := Erasing(ps[1..], c.phase.ok));
    forall p | p in Touched(c) && p != ps[0]
      ensures p in Touched(c')
    {
      var k :| 0 <= k < |ps| && ps[k] == p;
      assert ps[1..][k - 1] == p;
    }
    PhaseStaysTidy(s, i, s.files - {ps[0]}, c'.phase);
  }

  lemma OtherStaysTidy(s: State, e: Event)
    requires Inv(s) && Tidy(s) && Enabled(s, e) && (e.NewCard? || e.Begin? || e.Find?)
    ensures Tidy(Apply(s, e))
  {
    hide RowsBacked, RowsApart, FewRows, CallsApart;
    var t := Apply(s, e);
    forall p | p in t.files && Unnamed(t.rows, p)
      ensures InHand(t.calls, p)
    {
      if e.NewCard? && !Unnamed(s.rows, p) {
        NamedStays(s.rows, t.rows, p);
      }
      var j :| j in s.calls && !s.calls[j].phase.Found? && p in Touched(s.calls[j]);
      if e.Find? {
        NoRowsWritten(s, e.i);
      }
      assert t.calls[j] == s.calls[j];
      NowInHand(t.calls, j, p);
    }
  }

  /** A step that meets no crash, no failed removal and no rejected image leaves no file behind. */
  lemma StepStaysTidy(s: State, e: Event)
    requires Inv(s) && Tidy(s) && Enabled(s, e) && !Littering(s, e)
    ensures Tidy(Apply(s, e))
  {
    hide Inv, Tidy, NewRows, ToErase;
    match e
    case NewCard(_) => OtherStaysTidy(s, e);
    case Begin(_, _) => OtherStaysTidy(s, e);
    case Find(_) => OtherStaysTidy(s, e);
    case Write(i, path) => WriteStaysTidy(s, i, path);
    case Erase(i, _) => EraseStaysTidy(s, i);
    case Commit(i, id) =>
      if NewRows(s.rows, s.calls[i], id).Some? {
        CommitKeepsTidy(s, i, id);
      } else {
        GivingUpStaysTidy(s, i, s.used);
      }
    case CommitFails(i, _, _) => GivingUpStaysTidy(s, i, s.used);
    case WriteFails(i, path, _) => GivingUpStaysTidy(s, i, s.used + {path});
    case Reject(i) => PhaseStaysTidy(s, i, s.files, Finished(false));
    case EndErase(i) => PhaseStaysTidy(s, i, s.files, Finished(s.calls[i].phase.ok));
  }

  lemma GivingUpStaysTidy(s: State, i: nat, used: set<Path>)
    requires Tidy(s) && i in s.calls && (s.calls[i].phase.Writing? || s.calls[i].phase.Found?)
    ensures var c := s.calls[i];
            Tidy(Moved(s.(used := used), i, Erasing(if c.phase.Writing? then Paths(c.phase.rows) else [], false)))
  {
    hide Tidy, Touched;
    var c := s.calls[i];
    if c.phase.Writing? {
      SamePaths(c, false);
      PhaseStaysTidy(s, i, s.files, Erasing(Paths(c.phase.rows), false));
    } else {
      PhaseStaysTidy(s, i, s.files, Erasing([], false));
    }
  }

  ghost predicate Careful(s: State, events: seq<Event>)
    requires Legal(s, events)
    decreases |events|
  {
    events == [] || (!Littering(s, events[0]) && Careful(Apply(s, events[0]), events[1..]))
  }

  lemma {:induction false} RunStaysTidy(s: State, events: seq<Event>)
    requires Inv(s) && Tidy(s) && Legal(s, events) && Careful(s, events)
    ensures Inv(After(s, events)) && Tidy(After(s, events))
    decreases |events|
  {
    hide Inv, Tidy, Apply;
    if events != [] {
      StepKeepsInv(s, events[0]);
      StepStaysTidy(s, events[0]);
      RunStaysTidy(Apply(s, events[0]), events[1..]);
    }
  }

  /** Once all calls of such a run are done, the directory holds exactly the files the tables name; a call that failed has left nothing. */
  lemma QuietDiskMatchesTables(events: seq<Event>)
    requires Legal(INITIAL, events) && Careful(INITIAL, events)
    requires forall i :: i in After(INITIAL, events).calls ==> After(INITIAL, events).calls[i].phase.Finished?
    ensures var s := After(INITIAL, events);
            forall p :: p in s.files <==> exists o, k :: o in s.rows && 0 <= k < |s.rows[o]| && s.rows[o][k].path == p
  {
    hide Legal, After, Careful;
    EmptyInv();
    RunStaysTidy(INITIAL, events);
    var s := After(INITIAL, events);
    forall p | p in s.files
      ensures !Unnamed(s.rows, p)
    {
      assert !InHand(s.calls, p);
    }
    forall o, k | o in s.rows && 0 <= k < |s.rows[o]|
      ensures s.rows[o][k].path in s.files
    {
      assert Backed(s.files, s.rows[o][k]);
    }
  }

  // ---------- files left behind for good ----------

  ghost predicate Abandoned(s: State, p: Path) {
    p in s.files && p in s.used && Unnamed(s.rows, p) && forall i :: i in s.calls ==> p !in Touched(s.calls[i])
  }

  /** A replacement whose later image is bad ends at once: every file it had written is abandoned. */
  lemma RejectAbandons(s: State, i: nat, k: nat)
    requires Inv(s) && Enabled(s, Reject(i)) && k < |s.calls[i].phase.rows|
    ensures Abandoned(Apply(s, Reject(i)), s.calls[i].phase.rows[k].path)
  {
    var p := s.calls[i].phase.rows[k].path;
    assert CallSound(s.files, s.rows, s.used, s.calls[i]);
    assert p in Touched(s.calls[i]);
  }

  lemma NewRowsDerived(rows: Rows, c: Call, id: int)
    requires (Stores(c.job) ==> c.phase.Writing?) && NewRows(rows, c, id).Some?
    ensures Derived(rows, NewRows(rows, c, id).value, WrittenRows(c))
  {
    var ws := WrittenRows(c);
    match c.job
    case Append(card, _) =>
      var all := rows[card] + Shifted(c.phase.rows, |rows[card]|);
      forall k | 0 <= k < |all|
        ensures HasPath(rows[card], all[k].path) || HasPath(ws, all[k].path)
      {
        if k < |rows[card]| {
          assert rows[card][k].path == all[k].path;
        } else {
          assert ws[k - |rows[card]|].path == all[k].path;
        }
      }
      HasOwnPaths(rows);
    case _ =>
      HasOwnPaths(rows);
      OwnPaths(ws);
  }

  lemma OwnPaths(ws: seq<Row>)
    ensures forall k :: 0 <= k < |ws| ==> HasPath(ws, ws[k].path)
  {
  }

  lemma HasOwnPaths(rows: Rows)
    ensures forall o, k :: o in rows && 0 <= k < |rows[o]| ==> HasPath(rows[o], rows[o][k].path)
  {
  }

  lemma AbandonedRows(s: State, i: nat, id: int, p: Path)
    requires Abandoned(s, p) && Committable(s, i, id) && NewRows(s.rows, s.calls[i], id).Some?
    ensures Unnamed(NewRows(s.rows, s.calls[i], id).value, p) && p !in ToErase(s.rows, s.calls[i])
  {
    hide RowsBacked, RowsApart, FewRows, CallsSound, CallsApart, NewRows, Unnamed;
    var c := s.calls[i];
    NewRowsDerived(s.rows, c, id);
    assert c.phase.Writing? ==> forall k :: 0 <= k < |c.phase.rows| ==> c.phase.rows[k].path in Touched(c);
    DerivedUnnamed(s.rows, NewRows(s.rows, c, id).value, WrittenRows(c), p);
    if p in ToErase(s.rows, c) {
      if !c.job.PoolDelete? {
        ErasedIsNamed(s.rows, c, p);
      }
    }
  }

  lemma AbandonedStep(s: State, e: Event, p: Path)
    requires Abandoned(s, p) && Enabled(s, e)
    ensures Abandoned(Apply(s, e), p)
  {
    hide RowsBacked, RowsApart, FewRows, CallsSound, CallsApart, NewRows, ToErase;
    match e
    case Commit(i, id) =>
      var c := s.calls[i];
      if NewRows(s.rows, c, id).Some? {
        AbandonedRows(s, i, id, p);
      } else if c.phase.Writing? {
        SamePaths(c, false);
      }
    case CommitFails(i, id, applied) =>
      var c := s.calls[i];
      if NewRows(s.rows, c, id).Some? {
        AbandonedRows(s, i, id, p);
      }
      if c.phase.Writing? {
        SamePaths(c, false);
      }
    case WriteFails(i, _, _) => SamePaths(s.calls[i], false);
    case Erase(i, _) => assert s.calls[i].phase.paths[0] in Touched(s.calls[i]);
    case _ =>
  }

  /** No later step of any call ever removes an abandoned file. */
  lemma {:induction false} AbandonedForever(s: State, events: seq<Event>, p: Path)
    requires Abandoned(s, p) && Legal(s, events)
    ensures Abandoned(After(s, events), p)
    decreases |events|
  {
    hide Abandoned, Apply, Enabled;
    if events != [] {
      AbandonedStep(s, events[0], p);
      AbandonedForever(Apply(s, events[0]), events[1..], p);
    }
  }

  // ---------- runs in which it happens ----------

  lemma {:induction false} RunMore(s: State, events: seq<Event>, e: Event)
    requires Legal(s, events) && Enabled(After(s, events), e)
    ensures Legal(s, events + [e]) && After(s, events + [e]) == Apply(After(s, events), e)
    decreases |events|
  {
    hide Enabled, Apply;
    if events == [] {
      assert [] + [e] == [e] && [e][1..] == [];
      NothingMore(Apply(s, e));
    } else {
      assert (events + [e])[1..] == events[1..] + [e];
      RunMore(Apply(s, events[0]), events[1..], e);
    }
  }

  lemma NothingMore(s: State)
    ensures Legal(s, []) && After(s, []) == s
  {
  }

  /** A new card, a replacement begun, and its first file written. */
  function FirstWrite(card: Owner, images: seq<Option<Bytes>>, path: Path): seq<Event> {
    [] + [NewCard(card)] + [Begin(0, Replace(card, images))] + [Write(0, path)]
  }

  lemma FirstWriteRuns(card: Owner, images: seq<Option<Bytes>>, path: Path)
    requires card.Card? && 0 < |images| <= MAX_CARD_IMAGES && images[0].Some?
    ensures Legal(INITIAL, FirstWrite(card, images, path))
    ensures After(INITIAL, FirstWrite(card, images, path)) ==
            State(map[path := images[0].value], map[card := []], {path},
                  map[0 := Call(Replace(card, images), Writing([Row(0, path, |images[0].value|)]))])
  {
    hide Legal, After;
    var a := [NewCard(card)];
    var job := Replace(card, images);
    NothingMore(INITIAL);
    assert [] + a == a;
    RunMore(INITIAL, [], NewCard(card));
    RunMore(INITIAL, a, Begin(0, job));
    RunMore(INITIAL, a + [Begin(0, job)], Write(0, path));
    assert [] + [Row(0, path, |images[0].value|)] == [Row(0, path, |images[0].value|)];
  }

  /** A run from the start that ends with a row whose file is gone: an upload, a commit that takes effect and is reported as failed, and its cleanup. */
  lemma FalseAlarmRun(card: Owner, path: Path, bytes: Bytes)
    requires card.Card?
    ensures var events := FirstWrite(card, [Some(bytes)], path) + [CommitFails(0, 0, true)] + [Erase(0, true)];
            && Legal(INITIAL, events)
            && var s := After(INITIAL, events);
               s.rows == map[card := [Row(0, path, |bytes|)]] && path !in s.files
  {
    hide Legal, After;
    var images := [Some(bytes)];
    var a := FirstWrite(card, images, path);
    FirstWriteRuns(card, images, path);
    RunMore(INITIAL, a, CommitFails(0, 0, true));
    var ps := Paths([Row(0, path, |bytes|)]);
    assert ps[0] == path;
    RunMore(INITIAL, a + [CommitFails(0, 0, true)], Erase(0, true));
  }

  /** A run from the start that abandons a file: a replacement whose second image is bad. */
  lemma RejectRun(card: Owner, path: Path, bytes: Bytes)
    requires card.Card?
    ensures var events := FirstWrite(card, [Some(bytes), None], path) + [Reject(0)];
            Legal(INITIAL, events) && Abandoned(After(INITIAL, events), path)
  {
    hide Legal, After;
    var images := [Some(bytes), None];
    var a := FirstWrite(card, images, path);
    FirstWriteRuns(card, images, path);
    RunMore(INITIAL, a, Reject(0));
  }

  // ---------- what the steps do ----------

  /** When a call can go on writing and when it stops for an image that cannot be prepared: a replacement gets to its bad image, the others look at all images first. */
  lemma WritesAre(s: State, i: nat, path: Path)
    requires i in s.calls && s.calls[i].phase.Writing?
    ensures var n := |s.calls[i].phase.rows|;
            match s.calls[i].job
            case Replace(_, images) =>
              && (Enabled(s, Write(i, path)) <==> path !in s.used && n < |images| && images[n] != None)
              && (Enabled(s, Reject(i)) <==> n < |images| && images[n] == None)
            case Append(_, images) =>
              && (Enabled(s, Write(i, path)) <==> path !in s.used && n < |images| && None !in images)
              && (Enabled(s, Reject(i)) <==> n == 0 && None in images)
            case PoolAdd(_, image) =>
              && (Enabled(s, Write(i, path)) <==> path !in s.used && n == 0 && image != None)
              && (Enabled(s, Reject(i)) <==> n == 0 && image == None)
            case _ => !Enabled(s, Write(i, path)) && !Enabled(s, Reject(i))
    ensures Enabled(s, WriteFails(i, path, None)) <==> Enabled(s, Write(i, path))
  {
    if s.calls[i].job.PoolAdd? {
      assert Images(s.calls[i].job)[0] == s.calls[i].job.image;
    }
  }

  /** What a commit leaves in the tables: a replacement only its own rows, an append its rows behind the old ones if there are at most four, a deletion of cards none of them if all are there; else the tables stay. */
  lemma CommitsAre(s: State, i: nat, id: int)
    requires Enabled(s, Commit(i, id))
    ensures var after, c := Apply(s, Commit(i, id)).rows, s.calls[i];
            match c.job
            case Replace(card, _) => if card in s.rows then after == s.rows[card := c.phase.rows] else after == s.rows
            case Append(card, images) =>
              if card in s.rows && |s.rows[card]| + |images| <= 4
              then && after == s.rows[card := after[card]] && after[card][..|s.rows[card]|] == s.rows[card]
                   && |after[card]| == |s.rows[card]| + |images|
                   && forall k :: 0 <= k < |images| ==>
                        after[card][|s.rows[card]| + k] == c.phase.rows[k].(position := c.phase.rows[k].position + |s.rows[card]|)
              else after == s.rows
            case DeleteCards(cards) => if cards <= s.rows.Keys then after == s.rows - cards else after == s.rows
            case PoolAdd(user, _) => after == s.rows[Pool(user, id) := c.phase.rows] && Pool(user, id) !in s.rows
            case PoolDelete(image) => after == s.rows - {image}
  {
  }

  /** A failed write leaves a part of its file or nothing; a removal removes its file or leaves it, and goes on; a pooled image to delete is found by its one row, or the call has failed. */
  lemma FilesAre(s: State, i: nat, path: Path, left: Option<Bytes>, removed: bool)
    ensures Enabled(s, WriteFails(i, path, left)) ==>
              && Apply(s, WriteFails(i, path, left)).files == (match left case Some(part) => s.files[path := part] case None => s.files)
              && Apply(s, WriteFails(i, path, left)).rows == s.rows
    ensures Enabled(s, Erase(i, removed)) ==>
              var t, paths := Apply(s, Erase(i, removed)), s.calls[i].phase.paths;
              t.rows == s.rows && t.files == (if removed then s.files - {paths[0]} else s.files) && t.calls[i].phase == Erasing(paths[1..], s.calls[i].phase.ok)
    ensures Enabled(s, Find(i)) ==>
              var phase, o := Apply(s, Find(i)).calls[i].phase, s.calls[i].job.pooled;
              if o in s.rows && |s.rows[o]| == 1 then phase == Found(s.rows[o][0].path) else phase == Finished(false)
  {
  }
}
