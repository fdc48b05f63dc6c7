/** The row normaliser: flattens each change's current files and all of its
    inline comments into rows, one per (file, comment) pair or one per
    uncommented file, then optionally drops self-comments. */
module Normalizer {
  import opened Seqs
  import opened Records

  /** The comments of all patch sets, patch set by patch set, in order. */
  function AllComments(patchSets: seq<PatchSet>): (r: seq<Comment>)
    ensures |r| == Sum(CommentCount, patchSets)
    ensures |patchSets| == 1 ==> r == patchSets[0].comments
    ensures forall k, j :: 0 <= k < |patchSets| && 0 <= j < |patchSets[k].comments| ==>
              patchSets[k].comments[j] in r
    ensures forall c :: c in r ==> exists k :: 0 <= k < |patchSets| && c in patchSets[k].comments
  {
    if patchSets == [] then []
    else
      var rest := AllComments(patchSets[1..]);
      assert forall k :: 1 <= k < |patchSets| ==> patchSets[k] == patchSets[1..][k - 1];
      assert |patchSets| == 1 ==> rest == [];
      patchSets[0].comments + rest
  }

  function CommentCount(ps: PatchSet): int
  {
    |ps.comments|
  }

  lemma {:induction false} AllCommentsAppend(a: seq<PatchSet>, b: seq<PatchSet>)
    ensures AllComments(a + b) == AllComments(a) + AllComments(b)
  {
    if a == [] {
      assert a + b == b;
    } else {
      assert (a + b)[1..] == a[1..] + b;
      AllCommentsAppend(a[1..], b);
      assert AllComments(a + b) == a[0].comments + AllComments(a[1..] + b);
      Assoc(a[0].comments, AllComments(a[1..]), AllComments(b));
    }
  }

  /** Whether a comment targets the file at `path`. */
  function Targets(path: string): Comment -> bool
  {
    (c: Comment) => c.file == path
  }

  /** The comments that target `path`, in order. */
  function CommentsOn(cs: seq<Comment>, path: string): seq<Comment>
  {
    Filter(Targets(path), cs)
  }

  /** The row of file `f` carrying comment `c`. */
  function CommentRow(id: string, owner: string, f: FileEntry, c: Comment): Row
  {
    Row(id, owner, f.path, Resolve(f.insertions), Resolve(f.deletions), c.reviewer, c.message)
  }

  /** The row of file `f` when no comment targets it. */
  function BlankRow(id: string, owner: string, f: FileEntry): Row
  {
    Row(id, owner, f.path, Resolve(f.insertions), Resolve(f.deletions), "", "")
  }

  /** The inner loop over the change's comments: one copy of the file's row
      for each comment whose file equals the path. */
  function Hits(id: string, owner: string, f: FileEntry, cs: seq<Comment>): seq<Row>
  {
    if cs == [] then []
    else
      var rest := Hits(id, owner, f, cs[1..]);
      if cs[0].file == f.path then [CommentRow(id, owner, f, cs[0])] + rest else rest
  }

  function RowFor(id: string, owner: string, f: FileEntry): Comment -> Row
  {
    (c: Comment) => CommentRow(id, owner, f, c)
  }

  /** The loop builds exactly the file's row for each targeting comment, in
      comment order. */
  lemma {:induction false} HitsMeaning(id: string, owner: string, f: FileEntry, cs: seq<Comment>)
    ensures Hits(id, owner, f, cs) == Map(RowFor(id, owner, f), CommentsOn(cs, f.path))
  {
    if cs != [] {
      HitsMeaning(id, owner, f, cs[1..]);
      var later := CommentsOn(cs[1..], f.path);
      if cs[0].file == f.path {
        assert CommentsOn(cs, f.path) == [cs[0]] + later;
        MapAppend(RowFor(id, owner, f), [cs[0]], later);
      } else {
        assert CommentsOn(cs, f.path) == later;
      }
    }
  }

  /** The rows of one file of the current patch set. */
  function FileRows(id: string, owner: string, f: FileEntry, cs: seq<Comment>): (r: seq<Row>)
    ensures var on := CommentsOn(cs, f.path);
            |r| == if |on| == 0 then 1 else |on|
    ensures forall i :: 0 <= i < |r| ==>
              && r[i].id == id && r[i].owner == owner && r[i].file == f.path
              && r[i].insertions == Resolve(f.insertions)
              && r[i].deletions == Resolve(f.deletions)
    ensures var on := CommentsOn(cs, f.path);
            forall i :: 0 <= i < |on| ==>
              r[i].comment == on[i].message && r[i].reviewer == on[i].reviewer
    ensures |CommentsOn(cs, f.path)| == 0 ==> r[0].reviewer == "" && r[0].comment == ""
  {
    var hits := Hits(id, owner, f, cs);
    HitsMeaning(id, owner, f, cs);
    var hasComment := |hits| > 0;
    if hasComment then hits else [BlankRow(id, owner, f)]
  }

  /** The rows of a list of files of one change, file by file. */
  function FilesRows(id: string, owner: string, files: seq<FileEntry>, cs: seq<Comment>): (r: seq<Row>)
    ensures |r| >= |files|
    ensures forall i :: 0 <= i < |r| ==> r[i].id == id && r[i].owner == owner
  {
    if files == [] then []
    else FileRows(id, owner, files[0], cs) + FilesRows(id, owner, files[1..], cs)
  }

  lemma {:induction false} FilesRowsAppend(id: string, owner: string, a: seq<FileEntry>, b: seq<FileEntry>, cs: seq<Comment>)
    ensures FilesRows(id, owner, a + b, cs) == FilesRows(id, owner, a, cs) + FilesRows(id, owner, b, cs)
  {
    if a == [] {
      assert a + b == b;
    } else {
      assert (a + b)[1..] == a[1..] + b;
      FilesRowsAppend(id, owner, a[1..], b, cs);
      assert FilesRows(id, owner, a + b, cs) == FileRows(id, owner, a[0], cs) + FilesRows(id, owner, a[1..] + b, cs);
      Assoc(FileRows(id, owner, a[0], cs), FilesRows(id, owner, a[1..], cs), FilesRows(id, owner, b, cs));
    }
  }

  /** The rows of one change. */
  function ChangeRows(c: Change): seq<Row>
  {
    FilesRows(c.id, c.owner, c.files, AllComments(c.patchSets))
  }

  /** The identifiers of a batch. */
  function Ids(changes: seq<Change>): set<string>
  {
    Image(ChangeId, changes)
  }

  function ChangeId(c: Change): string
  {
    c.id
  }

  /** The rows of a batch, change by change, before self-comment filtering. */
  function Normalize(changes: seq<Change>): seq<Row>
  {
    if changes == [] then [] else ChangeRows(changes[0]) + Normalize(changes[1..])
  }

  /** Every row of the normalised table belongs to a change of the batch. */
  lemma {:induction false} NormalizeBelongs(changes: seq<Change>)
    ensures forall i :: 0 <= i < |Normalize(changes)| ==> Normalize(changes)[i].id in Ids(changes)
  {
    if changes != [] {
      var first: seq<Row> := ChangeRows(changes[0]);
      var rest: seq<Row> := Normalize(changes[1..]);
      NormalizeBelongs(changes[1..]);
      ImageTail(ChangeId, changes);
      var belongs := (r: Row) => r.id in Ids(changes);
      assert forall i :: 0 <= i < |first| ==> belongs(first[i]);
      assert forall i :: 0 <= i < |rest| ==> belongs(rest[i]);
      ConcatAll(first, rest, belongs);
    }
  }

  lemma {:induction false} NormalizeAppend(a: seq<Change>, b: seq<Change>)
    ensures Normalize(a + b) == Normalize(a) + Normalize(b)
  {
    if a == [] {
      assert a + b == b;
    } else {
      assert (a + b)[1..] == a[1..] + b;
      NormalizeAppend(a[1..], b);
      assert Normalize(a + b) == ChangeRows(a[0]) + Normalize(a[1..] + b);
      Assoc(ChangeRows(a[0]), Normalize(a[1..]), Normalize(b));
    }
  }

  lemma NormalizeCons(c: Change, post: seq<Change>)
    ensures Normalize([c] + post) == ChangeRows(c) + Normalize(post)
  {
    assert ([c] + post)[1..] == post;
  }

  lemma FilesRowsCons(id: string, owner: string, f: FileEntry, post: seq<FileEntry>, cs: seq<Comment>)
    ensures FilesRows(id, owner, [f] + post, cs) == FileRows(id, owner, f, cs) + FilesRows(id, owner, post, cs)
  {
    assert ([f] + post)[1..] == post;
  }

  lemma NormalizeAt(changes: seq<Change>, k: nat)
    requires k < |changes|
    ensures Normalize(changes) ==
              Normalize(changes[..k]) + ChangeRows(changes[k]) + Normalize(changes[k + 1..])
  {
    var c := changes[k];
    var pre, post := changes[..k], changes[k + 1..];
    SplitAt(changes, k);
    NormalizeAppend(pre, [c] + post);
    NormalizeCons(c, post);
    Assoc(Normalize(pre), ChangeRows(c), Normalize(post));
  }

  lemma FilesRowsAt(id: string, owner: string, files: seq<FileEntry>, cs: seq<Comment>, j: nat)
    requires j < |files|
    ensures FilesRows(id, owner, files, cs) ==
              FilesRows(id, owner, files[..j], cs) + FileRows(id, owner, files[j], cs)
              + FilesRows(id, owner, files[j + 1..], cs)
  {
    SplitAt(files, j);
    FilesRowsAppend(id, owner, files[..j], [files[j]] + files[j + 1..], cs);
    FilesRowsCons(id, owner, files[j], files[j + 1..], cs);
  }

  /** No file is dropped and none is reordered: the normalised table is the
      rows of the changes before change `k`, then the rows of its files before
      file `j`, then the fan-out of file `j` itself, then everything after. */
  lemma NormalizeLayout(changes: seq<Change>, k: nat, j: nat)
    requires k < |changes| && j < |changes[k].files|
    ensures var c := changes[k];
            var cs := AllComments(c.patchSets);
            Normalize(changes) ==
              Normalize(changes[..k])
              + FilesRows(c.id, c.owner, c.files[..j], cs)
              + FileRows(c.id, c.owner, c.files[j], cs)
              + FilesRows(c.id, c.owner, c.files[j + 1..], cs)
              + Normalize(changes[k + 1..])
  {
    var c := changes[k];
    var cs := AllComments(c.patchSets);
    NormalizeAt(changes, k);
    FilesRowsAt(c.id, c.owner, c.files, cs, j);
    var before, after := Normalize(changes[..k]), Normalize(changes[k + 1..]);
    var f1, f2, f3 := FilesRows(c.id, c.owner, c.files[..j], cs), FileRows(c.id, c.owner, c.files[j], cs),
                      FilesRows(c.id, c.owner, c.files[j + 1..], cs);
    assert ChangeRows(c) == f1 + f2 + f3;
    assert Normalize(changes) == before + (f1 + f2 + f3) + after;
    ConcatRegroup(before, f1, f2, f3, after);
  }

  /** Whether a row is not the change owner's own comment. */
  function NotSelf(r: Row): bool
  {
    r.owner != r.reviewer
  }

  /** The optional self-comment filter applied to the whole normalised table. */
  function DropSelfComments(rows: seq<Row>, enabled: bool): (r: seq<Row>)
    ensures !enabled ==> r == rows
    ensures enabled ==> forall i :: 0 <= i < |r| ==> r[i] in rows && r[i].owner != r[i].reviewer
    ensures enabled ==> forall i :: 0 <= i < |rows| && rows[i].owner != rows[i].reviewer ==> rows[i] in r
    ensures |r| <= |rows|
  {
    if enabled then Filter(NotSelf, rows) else rows
  }

  /** The filter works row by row: filtering a concatenation is concatenating
      the filtered parts, so order and repeats are kept. */
  lemma DropSelfCommentsAppend(a: seq<Row>, b: seq<Row>, enabled: bool)
    ensures DropSelfComments(a + b, enabled) == DropSelfComments(a, enabled) + DropSelfComments(b, enabled)
  {
    if enabled {
      FilterAppend(NotSelf, a, b);
    }
  }

  /** Rows none of which is a self-comment pass the filter unchanged,
      repeated rows included. */
  lemma DropSelfCommentsKeepsClean(rows: seq<Row>, enabled: bool)
    requires forall i :: 0 <= i < |rows| ==> rows[i].owner != rows[i].reviewer
    ensures DropSelfComments(rows, enabled) == rows
  {
    if enabled {
      assert forall x :: x in rows ==> NotSelf(x);
      FilterKeepsAll(NotSelf, rows);
    }
  }

  /** The normalised table both reports start from. */
  function Rows(changes: seq<Change>, dropSelf: bool): seq<Row>
  {
    DropSelfComments(Normalize(changes), dropSelf)
  }

  /** A file whose only comments are the owner's own contributes no row at all
      once self-comments are dropped. */
  lemma SelfCommentedFileVanishes(id: string, owner: string, f: FileEntry, cs: seq<Comment>)
    requires |CommentsOn(cs, f.path)| > 0
    requires forall c :: c in CommentsOn(cs, f.path) ==> c.reviewer == owner
    ensures DropSelfComments(FileRows(id, owner, f, cs), true) == []
  {
    var rows := FileRows(id, owner, f, cs);
    var on := CommentsOn(cs, f.path);
    forall i | 0 <= i < |rows|
      ensures !NotSelf(rows[i])
    {
      assert on[i] in on;
    }
    FilterNone(NotSelf, rows);
  }

  /** An uncommented file keeps its blank row under the self-comment filter
      exactly when the owner's username is not empty. */
  lemma BlankRowSurvives(id: string, owner: string, f: FileEntry, cs: seq<Comment>)
    requires |CommentsOn(cs, f.path)| == 0
    ensures DropSelfComments(FileRows(id, owner, f, cs), true) == (if owner == "" then [] else FileRows(id, owner, f, cs))
  {
    var rows := FileRows(id, owner, f, cs);
    assert rows == [BlankRow(id, owner, f)];
    assert rows[1..] == [];
    assert Filter(NotSelf, rows) == (if owner == "" then [] else rows) + Filter(NotSelf, rows[1..]);
  }
}
