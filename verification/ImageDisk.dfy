/** The image store's methods as they run alone, step by step, with the faults they meet as parameters. */
module ImageDisk {
  import opened Options
  import opened ImageStore

  /** What goes wrong: the write at failAt fails and may leave a part of its file; the transaction fails. */
  datatype Faults = Faults(failAt: nat, left: Option<Bytes>, commitFails: bool)

  /** The parts between slashes. */
  function Parts(name: Path): (r: seq<string>)
    ensures r != []
  {
    if name == "" then [""]
    else if name[0] == '/' then [""] + Parts(name[1..])
    else
      var rest := Parts(name[1..]);
      [[name[0]] + rest[0]] + rest[1..]
  }

  /** The parts that are components of a path: empty ones and single dots are skipped. */
  function Kept(parts: seq<string>): seq<string> {
    if parts == [] then []
    else (if parts[0] == "" || parts[0] == "." then [] else [parts[0]]) + Kept(parts[1..])
  }

  /** A stored path has exactly one component and that is an ordinary name, so that it cannot leave the image directory: no root, no leading dot component, no parent. */
  predicate SafeName(name: Path) {
    && name != "" && name[0] != '/' && Parts(name)[0] != "."
    && |Kept(Parts(name))| == 1 && Kept(Parts(name))[0] != ".."
  }

  lemma {:induction false} PartsOfPlain(name: Path)
    requires '/' !in name
    ensures Parts(name) == [name]
  {
    if name != "" {
      assert name[0] in name;
      PartsOfPlain(name[1..]);
      assert [name[0]] + name[1..] == name;
    }
  }

  /** A name without slashes is safe unless it is empty or made of dots as a directory is. */
  lemma PlainNamesAreSafe(name: Path)
    requires '/' !in name
    ensures SafeName(name) <==> name != "" && name != "." && name != ".."
  {
    PartsOfPlain(name);
    assert [name][1..] == [];
    assert Kept([]) == [];
    if name != "" {
      assert name[0] in name;
    }
  }

  // ---------- names with slashes ----------

  /** A component that names an entry of a directory. */
  predicate Ordinary(name: Path) {
    name != "" && name != "." && name != ".."
  }

  /** Nothing but slashes and single dots. */
  predicate StaysPut(rest: Path) {
    && (forall k :: 0 <= k < |rest| ==> rest[k] == '/' || rest[k] == '.')
    && forall k :: 1 <= k < |rest| ==> rest[k] == '/' || rest[k - 1] == '/'
  }

  lemma {:induction false} FirstPart(rest: Path)
    ensures Parts(rest)[0] == "" <==> rest == "" || rest[0] == '/'
  {
  }

  lemma StaysPutTurn(rest: Path)
    requires rest != ""
    ensures var more := rest[1..];
            StaysPut(rest) <==> (rest[0] == '/' || (rest[0] == '.' && (more == "" || more[0] == '/'))) && StaysPut(more)
  {
    var more := rest[1..];
    assert forall k :: 0 <= k < |more| ==> more[k] == rest[k + 1];
    assert forall k :: 1 <= k < |rest| ==> rest[k] == more[k - 1];
    assert more != "" ==> more[0] == rest[1];
  }

  lemma KeptTurn(parts: seq<string>)
    requires parts != []
    ensures Kept(parts) == [] <==> (parts[0] == "" || parts[0] == ".") && Kept(parts[1..]) == []
  {
  }

  lemma {:induction false} KeptOfRest(rest: Path)
    ensures Kept(Parts(rest)) == [] <==> StaysPut(rest)
  {
    hide StaysPut, Kept;
    var parts := Parts(rest);
    KeptTurn(parts);
    NothingKept();
    if rest == "" {
      assert parts[1..] == [];
    } else {
      var more := rest[1..];
      KeptOfRest(more);
      StaysPutTurn(rest);
      KeptTurn(Parts(more));
      FirstPart(more);
      if rest[0] == '/' {
        assert parts[1..] == Parts(more);
      } else {
        assert parts[1..] == Parts(more)[1..];
        assert parts[0] == [rest[0]] + Parts(more)[0];
        assert |parts[0]| == 1 + |Parts(more)[0]| && parts[0][0] == rest[0];
        assert |parts[0]| == 1 ==> parts[0] == [rest[0]];
      }
    }
  }

  lemma NothingKept()
    ensures StaysPut("") && Kept([]) == []
  {
  }

  lemma {:induction false} PartsAround(a: Path, rest: Path)
    requires '/' !in a
    ensures Parts(a + "/" + rest) == [a] + Parts(rest)
  {
    var name := a + "/" + rest;
    if a == "" {
      assert name[1..] == rest;
    } else {
      assert name[0] == a[0] && name[1..] == a[1..] + "/" + rest;
      assert a[0] in a;
      PartsAround(a[1..], rest);
      assert [a[0]] + a[1..] == a;
    }
  }

  /** A name with slashes is safe only if an ordinary name stands before the first one and nothing but slashes and single dots behind it: no root, no second name, no parent. */
  lemma NamesWithSlashes(a: Path, rest: Path)
    requires '/' !in a
    ensures SafeName(a + "/" + rest) <==> Ordinary(a) && StaysPut(rest)
  {
    hide StaysPut;
    var name := a + "/" + rest;
    PartsAround(a, rest);
    KeptOfRest(rest);
    assert ([a] + Parts(rest))[1..] == Parts(rest);
    assert a != "" ==> name[0] == a[0] && a[0] in a;
  }

  function SafeOnes(names: seq<Path>): set<Path> {
    set k | 0 <= k < |names| && SafeName(names[k]) :: names[k]
  }

  predicate FreshNames(names: seq<Path>, files: Files) {
    && (forall k :: 0 <= k < |names| ==> SafeName(names[k]) && names[k] !in files)
    && forall k, k' :: 0 <= k < k' < |names| ==> names[k] != names[k']
  }

  /** The first k files of an upload. */
  function Uploaded(names: seq<Path>, images: seq<Option<Bytes>>, k: nat): Files
    requires k <= |names| && k <= |images|
  {
    if k == 0 then map[]
    else Uploaded(names, images, k - 1)[names[k - 1] := if images[k - 1].Some? then images[k - 1].value else ""]
  }

  lemma {:induction false} UploadedKeys(names: seq<Path>, images: seq<Option<Bytes>>, k: nat)
    requires k <= |names| && k <= |images|
    ensures Uploaded(names, images, k).Keys == set j | 0 <= j < k :: names[j]
  {
    if k > 0 {
      UploadedKeys(names, images, k - 1);
    }
  }

  /** The rows of the first k files. */
  function RowsOf(names: seq<Path>, images: seq<Option<Bytes>>, k: nat): (r: seq<Row>)
    requires k <= |names| && k <= |images|
    ensures |r| == k
    ensures forall j :: 0 <= j < k ==> r[j] == Row(j, names[j], if images[j].Some? then |images[j].value| else 0)
  {
    seq(k, j requires 0 <= j < k => Row(j, names[j], if images[j].Some? then |images[j].value| else 0))
  }

  /** The part of a file a failed write leaves behind. */
  function Leftover(names: seq<Path>, faults: Faults): Files {
    if faults.failAt < |names| && faults.left.Some? then map[names[faults.failAt] := faults.left.value] else map[]
  }

  /** The first image that cannot be prepared. */
  function FirstBad(images: seq<Option<Bytes>>): (r: nat)
    ensures r <= |images| && (r < |images| ==> images[r].None?)
    ensures forall k :: 0 <= k < r ==> images[k].Some?
  {
    if images == [] || images[0].None? then 0 else 1 + FirstBad(images[1..])
  }

  /** The directory after a failed replacement. */
  function FailedReplace(before: Files, names: seq<Path>, images: seq<Option<Bytes>>, faults: Faults): Files
    requires |names| == |images|
  {
    if FirstBad(images) < |images| && FirstBad(images) <= faults.failAt
    then before + Uploaded(names, images, FirstBad(images))
    else before + Leftover(names, faults)
  }

  lemma AllGood(images: seq<Option<Bytes>>)
    ensures AllPrepared(images) <==> FirstBad(images) == |images|
  {
    if FirstBad(images) < |images| {
      assert images[FirstBad(images)].None?;
    }
  }

  lemma OneMoreName(names: seq<Path>, i: nat)
    requires i < |names|
    ensures SafeOnes(names[..i + 1]) == SafeOnes(names[..i]) + if SafeName(names[i]) then {names[i]} else {}
  {
    hide SafeName;
    var a, b := names[..i + 1], names[..i];
    assert forall k :: 0 <= k < i ==> a[k] == b[k] == names[k];
    forall p | p in SafeOnes(b)
      ensures p in SafeOnes(a)
    {
      var k :| 0 <= k < |b| && SafeName(b[k]) && b[k] == p;
      assert a[k] == p;
    }
    assert a[i] == names[i];
  }

  lemma UndoUpload(before: Files, extra: Files, names: seq<Path>, images: seq<Option<Bytes>>, k: nat)
    requires FreshNames(names, before) && k <= |names| == |images|
    requires forall p :: p in extra ==> exists j :: k <= j < |names| && names[j] == p
    ensures (before + Uploaded(names, images, k) + extra) - SafeOnes(names[..k]) == before + extra
  {
    hide Uploaded, SafeOnes, SafeName;
    UploadedKeys(names, images, k);
    FreshAreSafe(names, before, k);
    WithoutMiddle(before, Uploaded(names, images, k), extra);
  }

  lemma FreshAreSafe(names: seq<Path>, files: Files, k: nat)
    requires FreshNames(names, files) && k <= |names|
    ensures SafeOnes(names[..k]) == set j | 0 <= j < k :: names[j]
  {
    hide SafeName;
    assert forall j :: 0 <= j < k ==> names[..k][j] == names[j];
  }

  lemma WithoutMiddle(a: Files, b: Files, c: Files)
    requires a.Keys !! b.Keys && c.Keys !! b.Keys
    ensures (a + b + c) - b.Keys == a + c
  {
  }

  lemma UndoFailedWrite(before: Files, names: seq<Path>, images: seq<Option<Bytes>>, faults: Faults)
    requires FreshNames(names, before) && |names| == |images| && faults.failAt < |names|
    ensures var k := faults.failAt;
            var during := before + Uploaded(names, images, k);
            var after := if faults.left.Some? then during[names[k] := faults.left.value] else during;
            after - SafeOnes(names[..k]) == before + Leftover(names, faults)
  {
    UndoUpload(before, Leftover(names, faults), names, images, faults.failAt);
  }

  lemma OneMoreFile(before: Files, names: seq<Path>, images: seq<Option<Bytes>>, i: nat)
    requires i < |names| == |images| && images[i].Some?
    ensures (before + Uploaded(names, images, i))[names[i] := images[i].value] == before + Uploaded(names, images, i + 1)
  {
  }

  lemma NothingUploaded(names: seq<Path>, images: seq<Option<Bytes>>)
    ensures Uploaded(names, images, 0) == map[]
  {
  }

  lemma NothingLeft(names: seq<Path>, faults: Faults)
    requires faults.failAt >= |names|
    ensures Leftover(names, faults) == map[]
  {
  }

  class Disk {
    var files: Files
    var rows: Rows

    /** Removes stored files; a name that is no plain file name is refused. */
    method RemoveStoredFiles(names: seq<Path>)
      modifies this`files
      ensures files == old(files) - SafeOnes(names)
    {
      for i := 0 to |names|
        invariant files == old(files) - SafeOnes(names[..i])
      {
        assert SafeOnes(names[..i + 1]) == SafeOnes(names[..i]) + if SafeName(names[i]) then {names[i]} else {} by {
          OneMoreName(names, i);
        }
        if !SafeName(names[i]) {
          continue;
        }
        files := files - {names[i]};
      }
      assert names[..|names|] == names;
    }

    /**
     Adds images to a card: all of them or, whatever fails, none. Only a failed write that
     left a part of its file behind changes the directory of a failed append.
     */
    method AppendCardImages(card: Owner, incoming: seq<Option<Bytes>>, names: seq<Path>, faults: Faults) returns (ok: bool)
      requires |names| == |incoming| && FreshNames(names, files)
      modifies this
      ensures ok <==> AllPrepared(incoming) && faults.failAt >= |incoming| && !faults.commitFails
                      && card in old(rows) && |old(rows)[card]| + |incoming| <= MAX_CARD_IMAGES
      ensures ok ==> && rows == old(rows)[card := old(rows)[card] + Shifted(RowsOf(names, incoming, |incoming|), |old(rows)[card]|)]
                     && files == old(files) + Uploaded(names, incoming, |incoming|)
      ensures !ok ==> rows == old(rows)
      ensures !ok ==> files == old(files) + if AllPrepared(incoming) then Leftover(names, faults) else map[]
    {
      hide Shifted, SafeOnes, FreshNames, RowsOf, Uploaded, Leftover;
      NothingUploaded(names, incoming);
      if !AllPrepared(incoming) {
        return false;
      }
      var written: seq<Path> := [];
      ghost var before := files;
      for i := 0 to |incoming|
        invariant rows == old(rows) && written == names[..i] && i <= faults.failAt
        invariant files == before + Uploaded(names, incoming, i)
      {
        if i == faults.failAt {
          UndoFailedWrite(before, names, incoming, faults);
          if faults.left.Some? {
            files := files[names[i] := faults.left.value];
          }
          RemoveStoredFiles(written);
          return false;
        }
        OneMoreFile(before, names, incoming, i);
        files := files[names[i] := incoming[i].value];
        written := written + [names[i]];
      }
      NothingLeft(names, faults);
      if faults.commitFails || card !in rows || |rows[card]| + |incoming| > MAX_CARD_IMAGES {
        UndoUpload(before, map[], names, incoming, |incoming|);
        assert files == before + Uploaded(names, incoming, |incoming|) + map[];
        RemoveStoredFiles(written);
        return false;
      }
      rows := rows[card := rows[card] + Shifted(RowsOf(names, incoming, |incoming|), |rows[card]|)];
      ok := true;
    }

    /**
     Replaces the images of a card. A failure leaves the tables as they were, but an image
     that turns out bad after others were written leaves those others in the directory.
     */
    method ReplaceCardImages(card: Owner, images: seq<Option<Bytes>>, names: seq<Path>, faults: Faults) returns (ok: bool)
      requires |names| == |images| && FreshNames(names, files)
      modifies this
      ensures ok <==> AllPrepared(images) && faults.failAt >= |images| && !faults.commitFails && card in old(rows)
      ensures ok ==> && rows == old(rows)[card := RowsOf(names, images, |images|)]
                     && files == (old(files) + Uploaded(names, images, |images|))
                               - (set k | 0 <= k < |old(rows)[card]| :: old(rows)[card][k].path)
      ensures !ok ==> rows == old(rows)
      ensures !ok ==> files == FailedReplace(old(files), names, images, faults)
    {
      hide SafeOnes, FreshNames, RowsOf, Uploaded, Leftover, FirstBad;
      NothingUploaded(names, images);
      AllGood(images);
      var written: seq<Path> := [];
      ghost var before := files;
      for i := 0 to |images|
        invariant rows == old(rows) && written == names[..i] && i <= faults.failAt && i <= FirstBad(images)
        invariant files == before + Uploaded(names, images, i)
      {
        if images[i].None? {
          return false;
        }
        if i == faults.failAt {
          UndoFailedWrite(before, names, images, faults);
          if faults.left.Some? {
            files := files[names[i] := faults.left.value];
          }
          RemoveStoredFiles(written);
          return false;
        }
        OneMoreFile(before, names, images, i);
        files := files[names[i] := images[i].value];
        written := written + [names[i]];
      }
      NothingLeft(names, faults);
      if faults.commitFails || card !in rows {
        UndoUpload(before, map[], names, images, |images|);
        assert files == before + Uploaded(names, images, |images|) + map[];
        RemoveStoredFiles(written);
        return false;
      }
      var oldImages := rows[card];
      rows := rows[card := RowsOf(names, images, |images|)];
      ghost var stored := files;
      for i := 0 to |oldImages|
        invariant rows == old(rows)[card := RowsOf(names, images, |images|)]
        invariant files == stored - (set k | 0 <= k < i :: oldImages[k].path)
      {
        files := files - {oldImages[i].path};
      }
      ok := true;
    }
  }

  /** A failed replacement leaves the directory as it was exactly when no image was written before a bad one and no failed write left a part; a failed commit always does. */
  lemma FailedReplaceIsClean(before: Files, names: seq<Path>, images: seq<Option<Bytes>>, faults: Faults)
    requires |names| == |images| && FreshNames(names, before)
    ensures FailedReplace(before, names, images, faults) == before <==>
            if FirstBad(images) < |images| && FirstBad(images) <= faults.failAt then FirstBad(images) == 0
            else faults.failAt >= |images| || faults.left.None?
  {
    hide Uploaded, FreshNames;
    var n := FirstBad(images);
    if n < |images| && n <= faults.failAt {
      FreshUpload(before, names, images, n);
      Apart(before, Uploaded(names, images, n));
    } else if faults.failAt < |images| {
      FreshName(before, names, faults.failAt);
      Apart(before, Leftover(names, faults));
    }
  }

  /** Adding entries of other keys changes something unless there are none. */
  lemma Apart(before: Files, more: Files)
    requires forall p :: p in more ==> p !in before
    ensures before + more == before <==> more == map[]
  {
    if before + more == before {
      assert forall p :: p in more ==> p in before + more;
      assert more.Keys == {};
    }
    assert more == map[] ==> before + more == before;
  }

  lemma FreshName(before: Files, names: seq<Path>, k: nat)
    requires FreshNames(names, before) && k < |names|
    ensures names[k] !in before
  {
  }

  lemma FreshUpload(before: Files, names: seq<Path>, images: seq<Option<Bytes>>, n: nat)
    requires FreshNames(names, before) && n <= |names| && n <= |images|
    ensures (forall p :: p in Uploaded(names, images, n) ==> p !in before) && (Uploaded(names, images, n) == map[] <==> n == 0)
  {
    hide Uploaded;
    UploadedKeys(names, images, n);
    if n > 0 {
      assert names[0] in Uploaded(names, images, n).Keys;
    } else {
      assert Uploaded(names, images, 0).Keys == {};
    }
  }
}
