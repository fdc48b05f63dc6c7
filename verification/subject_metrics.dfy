/** The per-change report: the filtered rows of each change are reduced to
    line totals, a subtotal for tracked (test-automation) files, rendered
    comments and the reviewer set, then merged with the change's metadata. */
module SubjectMetrics {
  import opened Results
  import opened Seqs
  import opened Text
  import opened Records
  import opened Normalizer
  import opened FileFilter

  /** Files whose path contains this tag are test-automation files. */
  const TaFileKey: string := "robot"

  datatype ChangeMetrics = ChangeMetrics(
    files: string,
    filesNum: nat,
    insertions: int,
    deletions: int,
    modificationLines: int,
    comments: string,
    commentsNum: nat,
    reviewers: set<string>,
    reviewersNum: nat,
    taInsertions: int,
    taDeletions: int,
    taModificationLines: int)

  /** One row of the subject report: the change's metadata and its metrics. */
  datatype SubjectRecord = SubjectRecord(
    number: int,
    url: string,
    project: string,
    subject: string,
    owner: string,
    lastUpdated: string,
    changeComments: seq<Message>,
    metrics: ChangeMetrics)

  function RowInsertions(r: Row): int { r.insertions }
  function RowDeletions(r: Row): int { r.deletions }
  function RowReviewer(r: Row): string { r.reviewer }
  function RowFile(r: Row): string { r.file }
  function RowCommented(r: Row): bool { r.comment != "" }
  function Tracked(r: Row): bool { Contains(r.file, TaFileKey) }

  /** How a comment is listed in the report. */
  function Rendered(r: Row): string
  {
    r.reviewer + " : " + r.comment
  }

  /** The accumulators of the source's loop over a change's rows. */
  datatype Tally = Tally(
    insertions: int,
    deletions: int,
    taInsertions: int,
    taDeletions: int,
    comments: seq<string>,
    reviewers: set<string>)

  /** One iteration of that loop. */
  function Step(t: Tally, r: Row): Tally
  {
    var commented := r.comment != "";
    var tracked := Contains(r.file, TaFileKey);
    Tally(
      t.insertions + r.insertions,
      t.deletions + r.deletions,
      if tracked then t.taInsertions + r.insertions else t.taInsertions,
      if tracked then t.taDeletions + r.deletions else t.taDeletions,
      if commented then t.comments + [Rendered(r)] else t.comments,
      if commented then t.reviewers + {r.reviewer} else t.reviewers)
  }

  /** The loop run over `rows` from empty accumulators. */
  function TallyOf(rows: seq<Row>): Tally
  {
    if rows == [] then Tally(0, 0, 0, 0, [], {})
    else Step(TallyOf(rows[..|rows| - 1]), rows[|rows| - 1])
  }

  lemma TallySums(rows: seq<Row>)
    ensures TallyOf(rows).insertions == Sum(RowInsertions, rows)
    ensures TallyOf(rows).deletions == Sum(RowDeletions, rows)
    ensures TallyOf(rows).taInsertions == Sum(RowInsertions, Filter(Tracked, rows))
    ensures TallyOf(rows).taDeletions == Sum(RowDeletions, Filter(Tracked, rows))
  {
    TallyTotals(rows);
    TallyTracked(rows);
  }

  lemma {:induction false} TallyTotals(rows: seq<Row>)
    ensures TallyOf(rows).insertions == Sum(RowInsertions, rows)
    ensures TallyOf(rows).deletions == Sum(RowDeletions, rows)
  {
    if rows != [] {
      var init, last := rows[..|rows| - 1], rows[|rows| - 1];
      assert rows == init + [last];
      TallyTotals(init);
      SumAppend(RowInsertions, init, [last]);
      SumAppend(RowDeletions, init, [last]);
    }
  }

  lemma {:induction false} TallyTracked(rows: seq<Row>)
    ensures TallyOf(rows).taInsertions == Sum(RowInsertions, Filter(Tracked, rows))
    ensures TallyOf(rows).taDeletions == Sum(RowDeletions, Filter(Tracked, rows))
  {
    if rows != [] {
      var init, last := rows[..|rows| - 1], rows[|rows| - 1];
      assert rows == init + [last];
      TallyTracked(init);
      FilterAppend(Tracked, init, [last]);
      var tail := Filter(Tracked, [last]);
      assert tail == if Tracked(last) then [last] else [];
      SumAppend(RowInsertions, Filter(Tracked, init), tail);
      SumAppend(RowDeletions, Filter(Tracked, init), tail);
    }
  }

  lemma TallyComments(rows: seq<Row>)
    ensures TallyOf(rows).comments == Map(Rendered, Filter(RowCommented, rows))
    ensures TallyOf(rows).reviewers == Image(RowReviewer, Filter(RowCommented, rows))
  {
    TallyRendered(rows);
    TallyReviewers(rows);
  }

  lemma {:induction false} TallyRendered(rows: seq<Row>)
    ensures TallyOf(rows).comments == Map(Rendered, Filter(RowCommented, rows))
  {
    if rows != [] {
      var init, last := rows[..|rows| - 1], rows[|rows| - 1];
      assert rows == init + [last];
      TallyRendered(init);
      FilterAppend(RowCommented, init, [last]);
      MapAppend(Rendered, Filter(RowCommented, init), Filter(RowCommented, [last]));
    }
  }

  lemma {:induction false} TallyReviewers(rows: seq<Row>)
    ensures TallyOf(rows).reviewers == Image(RowReviewer, Filter(RowCommented, rows))
  {
    if rows != [] {
      var init, last := rows[..|rows| - 1], rows[|rows| - 1];
      assert rows == init + [last];
      TallyReviewers(init);
      FilterAppend(RowCommented, init, [last]);
      ImageAppend(RowReviewer, Filter(RowCommented, init), Filter(RowCommented, [last]));
    }
  }

  /** The metrics of one change's rows; the file list comes from the rows
      after filtering them once more. */
  function ChangeMetricsOf(rows: seq<Row>, matches: string -> bool): (m: ChangeMetrics)
    ensures m.modificationLines == m.insertions - m.deletions
    ensures m.taModificationLines == m.taInsertions - m.taDeletions
    ensures m.commentsNum == |Filter(RowCommented, rows)| <= |rows|
    ensures m.reviewersNum == |m.reviewers| <= m.commentsNum
    ensures m.filesNum <= |rows|
    ensures (forall i :: 0 <= i < |rows| ==> !matches(rows[i].file)) ==> m.filesNum == |rows|
  {
    var t := TallyOf(rows);
    TallyComments(rows);
    var kept := FilterFiles(rows, matches);
    assert (forall i :: 0 <= i < |rows| ==> !matches(rows[i].file)) ==> kept == rows by {
      if forall i :: 0 <= i < |rows| ==> !matches(rows[i].file) {
        FilterFilesKeepsClean(rows, matches);
      }
    }
    ChangeMetrics(
      Join(Map(RowFile, kept), "\n"), |kept|,
      t.insertions, t.deletions, t.insertions - t.deletions,
      Join(t.comments, "\n"), |t.comments|,
      t.reviewers, |t.reviewers|,
      t.taInsertions, t.taDeletions, t.taInsertions - t.taDeletions)
  }

  /** What the totals, the tracked subtotal, the comments and the reviewers of
      a change are in terms of its rows. */
  lemma ChangeMetricsMeaning(rows: seq<Row>, matches: string -> bool)
    ensures var m := ChangeMetricsOf(rows, matches);
            && m.insertions == Sum(RowInsertions, rows)
            && m.deletions == Sum(RowDeletions, rows)
            && m.taInsertions == Sum(RowInsertions, Filter(Tracked, rows))
            && m.taDeletions == Sum(RowDeletions, Filter(Tracked, rows))
            && m.comments == Join(Map(Rendered, Filter(RowCommented, rows)), "\n")
            && m.reviewers == Image(RowReviewer, Filter(RowCommented, rows))
            && m.files == Join(Map(RowFile, FilterFiles(rows, matches)), "\n")
  {
    TallySums(rows);
    TallyComments(rows);
  }

  /** With non-negative line counts the tracked subtotals lie between zero and
      the change's totals. */
  lemma TrackedWithinTotals(rows: seq<Row>, matches: string -> bool)
    requires forall r :: r in rows ==> r.insertions >= 0 && r.deletions >= 0
    ensures var m := ChangeMetricsOf(rows, matches);
            0 <= m.taInsertions <= m.insertions && 0 <= m.taDeletions <= m.deletions
  {
    ChangeMetricsMeaning(rows, matches);
    SumFilterAtMost(RowInsertions, Tracked, rows);
    SumFilterAtMost(RowDeletions, Tracked, rows);
  }

  /** Whether a row belongs to the change with identifier `id`. */
  function HasId(id: string): Row -> bool
  {
    (r: Row) => r.id == id
  }

  /** Whether a change has at least one row in `rows`. */
  function Survives(rows: seq<Row>): Change -> bool
  {
    (c: Change) => |Filter(HasId(c.id), rows)| > 0
  }

  /** The subject record of change `c`: its metadata and the metrics of its
      rows. */
  function RecordOf(c: Change, rows: seq<Row>, matches: string -> bool, showTime: int -> string): SubjectRecord
  {
    SubjectRecord(c.number, c.url, c.project, c.subject, c.owner, showTime(c.lastUpdated),
                  c.messages, ChangeMetricsOf(Filter(HasId(c.id), rows), matches))
  }

  function RecordFor(rows: seq<Row>, matches: string -> bool, showTime: int -> string): Change -> SubjectRecord
  {
    (c: Change) => RecordOf(c, rows, matches, showTime)
  }

  /** The inner merge of the per-change metrics with the batch's metadata: the
      record of every change whose id has rows, in batch order. */
  function SubjectTable(changes: seq<Change>, rows: seq<Row>, matches: string -> bool, showTime: int -> string)
    : seq<SubjectRecord>
  {
    Map(RecordFor(rows, matches, showTime), Filter(Survives(rows), changes))
  }

  /** A change that keeps rows, none of them excluded, counts at least one
      file. */
  lemma RecordCountsFiles(c: Change, rows: seq<Row>, matches: string -> bool, showTime: int -> string)
    requires Survives(rows)(c)
    requires forall i :: 0 <= i < |rows| ==> !matches(rows[i].file)
    ensures RecordOf(c, rows, matches, showTime).metrics.filesNum >= 1
  {
    var group := Filter(HasId(c.id), rows);
    assert forall i :: 0 <= i < |group| ==> group[i] in rows;
  }

  lemma KeptCountFiles(kept: seq<Change>, rows: seq<Row>, matches: string -> bool, showTime: int -> string)
    requires forall i :: 0 <= i < |kept| ==> Survives(rows)(kept[i])
    requires forall i :: 0 <= i < |rows| ==> !matches(rows[i].file)
    ensures forall i :: 0 <= i < |kept| ==> RecordOf(kept[i], rows, matches, showTime).metrics.filesNum >= 1
  {
    forall i | 0 <= i < |kept|
      ensures RecordOf(kept[i], rows, matches, showTime).metrics.filesNum >= 1
    {
      RecordCountsFiles(kept[i], rows, matches, showTime);
    }
  }

  /** The rows the subject report groups: normalised, with self-comments
      dropped when the report's flag says so and excluded files dropped. */
  function SubjectRows(changes: seq<Change>, config: Config): (rows: seq<Row>)
    ensures forall i :: 0 <= i < |rows| ==> !config.fileToFilter(rows[i].file)
  {
    FilterFiles(Rows(changes, config.subjectColumns.filterOwnerComments), config.fileToFilter)
  }

  /** The subject report of a batch: the record of each change that keeps at
      least one row, in batch order, each counting at least one file. A batch
      without a single normalised row fails, because the source's table then
      has no `file` column to filter on. */
  function SubjectReport(changes: seq<Change>, config: Config, showTime: int -> string)
    : (r: Result<seq<SubjectRecord>>)
    ensures r.Failure? <==> Normalize(changes) == []
    ensures r.Success? ==>
              var rows := SubjectRows(changes, config);
              var kept := Filter(Survives(rows), changes);
              && |r.value| == |kept|
              && forall i :: 0 <= i < |r.value| ==>
                   && r.value[i] == RecordOf(kept[i], rows, config.fileToFilter, showTime)
                   && r.value[i].metrics.filesNum >= 1
  {
    if Normalize(changes) == [] then Failure(NoFileRows)
    else
      var rows := SubjectRows(changes, config);
      KeptCountFiles(Filter(Survives(rows), changes), rows, config.fileToFilter, showTime);
      Success(SubjectTable(changes, rows, config.fileToFilter, showTime))
  }
}
