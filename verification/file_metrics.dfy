/** The per-(project, file) report: normalised rows are joined with their
    change's project and subject, grouped by (project, file), and each group is
    reduced to counts, sums, owners and the configured optional columns. */
module FileMetrics {
  import opened Results
  import opened Seqs
  import opened Text
  import opened Records
  import opened Normalizer
  import opened FileFilter

  /** An optional column's value: a match count for a `_num` column, else the
      newline-joined extracted texts. */
  datatype ColumnValue = Counted(n: int) | Extracted(text: string)

  datatype FileKey = FileKey(project: string, file: string)

  /** One row of the file report. */
  datatype FileRecord = FileRecord(
    project: string,
    file: string,
    owners: set<string>,
    ownersNum: nat,
    modificationTimes: nat,
    modificationLines: int,
    commentsNum: nat,
    comments: string,
    optional: map<string, ColumnValue>)

  // ---- the join with change metadata ----

  /** The first change of the batch with identifier `id`. */
  function Lookup(changes: seq<Change>, id: string): (r: Option<Change>)
    ensures r.Some? <==> id in Ids(changes)
    ensures r.Some? ==> r.value in changes && r.value.id == id
  {
    if changes == [] then None
    else if changes[0].id == id then Some(changes[0])
    else Lookup(changes[1..], id)
  }

  /** A row with its change's project and subject; the owner is the change's. */
  function Attached(r: Row, c: Change): FileRow
  {
    FileRow(c.project, c.subject, r.(owner := c.owner))
  }

  /** The join on the change identifier: each row whose change is in the batch
      becomes one joined row. */
  function Attach(rows: seq<Row>, changes: seq<Change>): (r: seq<FileRow>)
    ensures (forall i :: 0 <= i < |rows| ==> rows[i].id in Ids(changes)) ==>
              && |r| == |rows|
              && forall i :: 0 <= i < |rows| ==> r[i] == Attached(rows[i], Lookup(changes, rows[i].id).value)
  {
    if rows == [] then []
    else
      var rest := Attach(rows[1..], changes);
      match Lookup(changes, rows[0].id)
      case None => rest
      case Some(c) => [Attached(rows[0], c)] + rest
  }

  // ---- grouping ----

  function KeyOf(r: FileRow): FileKey
  {
    FileKey(r.project, r.row.file)
  }

  function HasKey(k: FileKey): FileRow -> bool
  {
    (r: FileRow) => KeyOf(r) == k
  }

  /** The rows of group `k`, in table order. */
  function Group(rows: seq<FileRow>, k: FileKey): seq<FileRow>
  {
    Filter(HasKey(k), rows)
  }

  /** The group keys, in order of first occurrence; every key has a row and
      every row has its key listed. */
  function Keys(rows: seq<FileRow>): (keys: seq<FileKey>)
    ensures forall i, j :: 0 <= i < j < |keys| ==> keys[i] != keys[j]
    ensures forall j :: 0 <= j < |rows| ==> KeyOf(rows[j]) in keys
    ensures forall i :: 0 <= i < |keys| ==> |Group(rows, keys[i])| > 0
  {
    var all := Map(KeyOf, rows);
    assert forall j :: 0 <= j < |rows| ==> all[j] == KeyOf(rows[j]);
    GroupsOfListedKeys(rows, Distinct(all));
    Distinct(all)
  }

  lemma GroupsOfListedKeys(rows: seq<FileRow>, keys: seq<FileKey>)
    requires forall i :: 0 <= i < |keys| ==> keys[i] in Map(KeyOf, rows)
    ensures forall i :: 0 <= i < |keys| ==> |Group(rows, keys[i])| > 0
  {
    var all := Map(KeyOf, rows);
    forall i | 0 <= i < |keys|
      ensures |Group(rows, keys[i])| > 0
    {
      var j :| 0 <= j < |all| && all[j] == keys[i];
      assert rows[j] in Group(rows, keys[i]);
    }
  }

  // ---- optional columns ----

  predicate MissingAny(columns: seq<string>, patterns: map<string, Regex>)
  {
    exists i :: 0 <= i < |columns| && columns[i] !in patterns
  }

  lemma MissingAnySnoc(init: seq<string>, column: string, patterns: map<string, Regex>)
    ensures MissingAny(init + [column], patterns) <==> MissingAny(init, patterns) || column !in patterns
  {
    var columns := init + [column];
    if column !in patterns {
      assert columns[|columns| - 1] !in patterns;
    }
    if MissingAny(init, patterns) {
      var i :| 0 <= i < |init| && init[i] !in patterns;
      assert columns[i] == init[i];
    }
    if MissingAny(columns, patterns) && column in patterns {
      var i :| 0 <= i < |columns| && columns[i] !in patterns;
      assert init[i] == columns[i];
    }
  }

  function SubjectMatches(p: Regex): FileRow -> bool
  {
    (r: FileRow) => p.matches(r.subject)
  }

  /** The per-row 0/1 value of a counting column. */
  function Indicator(p: Regex): FileRow -> int
  {
    (r: FileRow) => if p.matches(r.subject) then 1 else 0
  }

  function NotColon(ch: char): bool
  {
    ch != ':'
  }

  /** The per-row text of an extracting column: the group's text without
      colons on a match, the empty string otherwise. */
  function ExtractedText(p: Regex): FileRow -> string
  {
    (r: FileRow) =>
      match p.extract(r.subject)
      case Some(g) => Filter(NotColon, g)
      case None => ""
  }

  /** The value of one optional column over a group. A column without a
      pattern fails as soon as a row is evaluated. */
  function ColumnFor(rows: seq<FileRow>, column: string, patterns: map<string, Regex>): (r: Result<ColumnValue>)
    ensures r.Failure? <==> |rows| > 0 && column !in patterns
    ensures column in patterns && Contains(column, "_num") ==>
              r == Success(Counted(|Filter(SubjectMatches(patterns[column]), rows)|))
    ensures r.Success? && Contains(column, "_num") ==> r.value.Counted? && 0 <= r.value.n <= |rows|
    ensures r.Success? && !Contains(column, "_num") ==> r.value.Extracted? && ':' !in r.value.text
  {
    if column !in patterns then
      if |rows| > 0 then Failure(MissingPattern(column))
      else if Contains(column, "_num") then Success(Counted(0))
      else Success(Extracted(""))
    else
      var p := patterns[column];
      if Contains(column, "_num") then
        SumIndicator(Indicator(p), SubjectMatches(p), rows);
        Success(Counted(Sum(Indicator(p), rows)))
      else
        var texts := Map(ExtractedText(p), rows);
        ExtractedTextsHaveNoColon(p, rows);
        JoinAvoids(texts, "\n", ':');
        Success(Extracted(Join(texts, "\n")))
  }

  lemma ExtractedTextsHaveNoColon(p: Regex, rows: seq<FileRow>)
    ensures forall i :: 0 <= i < |rows| ==> ':' !in Map(ExtractedText(p), rows)[i]
  {
    var texts := Map(ExtractedText(p), rows);
    forall i | 0 <= i < |texts|
      ensures ':' !in texts[i]
    {
      match p.extract(rows[i].subject)
      case Some(g) =>
        var t := Filter(NotColon, g);
        assert texts[i] == t;
        assert forall k :: 0 <= k < |t| ==> t[k] != ':';
      case None =>
    }
  }

  /** An extracting column holds one line per row of the group, in row
      order: the group's text with its colons removed, or an empty line where
      the subject does not match. */
  lemma ExtractedColumnLines(rows: seq<FileRow>, column: string, patterns: map<string, Regex>)
    requires column in patterns && !Contains(column, "_num") && |rows| > 0
    requires forall i :: 0 <= i < |rows| && patterns[column].extract(rows[i].subject).Some? ==>
               '\n' !in patterns[column].extract(rows[i].subject).value
    ensures var lines := Split(ColumnFor(rows, column, patterns).value.text, '\n');
            && |lines| == |rows|
            && forall i :: 0 <= i < |rows| ==>
                 lines[i] == (match patterns[column].extract(rows[i].subject)
                              case Some(g) => Filter(NotColon, g)
                              case None => "")
  {
    var p := patterns[column];
    var texts := Map(ExtractedText(p), rows);
    forall i | 0 <= i < |texts|
      ensures '\n' !in texts[i]
    {
      match p.extract(rows[i].subject)
      case Some(g) =>
        var t := Filter(NotColon, g);
        assert texts[i] == t;
        assert forall k :: 0 <= k < |t| ==> t[k] in g;
      case None =>
    }
    SplitJoin(texts, '\n');
  }

  /** The optional columns of a group, evaluated in configured order as the
      source's dictionary updates are. */
  function OptionalColumns(rows: seq<FileRow>, columns: seq<string>, patterns: map<string, Regex>)
    : (r: Result<map<string, ColumnValue>>)
    ensures r.Failure? <==> |rows| > 0 && MissingAny(columns, patterns)
    ensures r.Success? ==> forall c :: c in r.value <==> c in columns
    ensures r.Success? ==> forall c :: c in r.value ==> ColumnFor(rows, c, patterns) == Success(r.value[c])
  {
    if columns == [] then Success(map[])
    else
      var init := columns[..|columns| - 1];
      var column := columns[|columns| - 1];
      assert columns == init + [column];
      MissingAnySnoc(init, column, patterns);
      var rest :- OptionalColumns(rows, init, patterns);
      var value :- ColumnFor(rows, column, patterns);
      Success(rest[column := value])
  }

  // ---- the group reduction ----

  function Insertions(r: FileRow): int { r.row.insertions }
  function Deletions(r: FileRow): int { r.row.deletions }
  function NetLines(r: FileRow): int { r.row.insertions - r.row.deletions }
  function OwnerOf(r: FileRow): string { r.row.owner }
  function CommentOf(r: FileRow): string { r.row.comment }
  function Commented(r: FileRow): bool { r.row.comment != "" }

  /** The non-empty comments of a group, in order. */
  function GroupComments(rows: seq<FileRow>): seq<string>
  {
    Map(CommentOf, Filter(Commented, rows))
  }

  /** The running values of the source's loops over a group (the owner set,
      the non-empty comments) and the group's net line delta. */
  datatype GroupTotals = GroupTotals(owners: set<string>, comments: seq<string>, lines: int)

  function Totals(rows: seq<FileRow>): GroupTotals
  {
    if rows == [] then GroupTotals({}, [], 0)
    else
      var t := Totals(rows[..|rows| - 1]);
      var r := rows[|rows| - 1];
      GroupTotals(t.owners + {r.row.owner},
                  if r.row.comment != "" then t.comments + [r.row.comment] else t.comments,
                  t.lines + (r.row.insertions - r.row.deletions))
  }

  lemma {:induction false} TotalsOwners(rows: seq<FileRow>)
    ensures Totals(rows).owners == Image(OwnerOf, rows)
  {
    if rows != [] {
      var init, last := rows[..|rows| - 1], rows[|rows| - 1];
      assert rows == init + [last];
      TotalsOwners(init);
      ImageAppend(OwnerOf, init, [last]);
    }
  }

  lemma {:induction false} TotalsComments(rows: seq<FileRow>)
    ensures Totals(rows).comments == GroupComments(rows)
  {
    if rows != [] {
      var init, last := rows[..|rows| - 1], rows[|rows| - 1];
      assert rows == init + [last];
      TotalsComments(init);
      FilterAppend(Commented, init, [last]);
      MapAppend(CommentOf, Filter(Commented, init), Filter(Commented, [last]));
    }
  }

  lemma {:induction false} TotalsLines(rows: seq<FileRow>)
    ensures Totals(rows).lines == Sum(Insertions, rows) - Sum(Deletions, rows)
  {
    if rows != [] {
      var init, last := rows[..|rows| - 1], rows[|rows| - 1];
      assert rows == init + [last];
      TotalsLines(init);
      SumAppend(Insertions, init, [last]);
      SumAppend(Deletions, init, [last]);
    }
  }

  /** One file report row from the rows of its group. */
  function FileRecordOf(rows: seq<FileRow>, key: FileKey, columns: seq<string>, patterns: map<string, Regex>)
    : (r: Result<FileRecord>)
    ensures r.Failure? <==> |rows| > 0 && MissingAny(columns, patterns)
    ensures r.Success? ==> r.value.project == key.project && r.value.file == key.file
    ensures r.Success? ==> r.value.modificationTimes == |rows|
    ensures r.Success? ==> r.value.commentsNum <= r.value.modificationTimes
    ensures r.Success? ==> r.value.ownersNum == |r.value.owners| <= r.value.modificationTimes
    ensures r.Success? && |rows| > 0 ==> r.value.ownersNum >= 1
    ensures r.Success? ==> forall c :: c in r.value.optional <==> c in columns
    ensures r.Success? ==> forall c :: c in r.value.optional ==> ColumnFor(rows, c, patterns) == Success(r.value.optional[c])
  {
    var t := Totals(rows);
    TotalsOwners(rows);
    TotalsComments(rows);
    var optional :- OptionalColumns(rows, columns, patterns);
    assert |rows| > 0 ==> OwnerOf(rows[0]) in t.owners;
    Success(FileRecord(key.project, key.file, t.owners, |t.owners|, |rows|, t.lines,
                       |t.comments|, Join(t.comments, "\n"), optional))
  }

  /** What the mandatory columns of a file record are: the owner set, the
      comment count and text, and the net line delta of its group. */
  lemma FileRecordMeaning(rows: seq<FileRow>, key: FileKey, columns: seq<string>, patterns: map<string, Regex>)
    requires FileRecordOf(rows, key, columns, patterns).Success?
    ensures var m := FileRecordOf(rows, key, columns, patterns).value;
            && m.owners == Image(OwnerOf, rows)
            && m.commentsNum == |Filter(Commented, rows)|
            && m.comments == Join(GroupComments(rows), "\n")
            && m.modificationLines == Sum(Insertions, rows) - Sum(Deletions, rows)
  {
    TotalsOwners(rows);
    TotalsComments(rows);
    TotalsLines(rows);
  }


  /** A group's comment text splits back into its comments when none of them
      spans several lines. */
  lemma CommentsSplitBack(rows: seq<FileRow>)
    requires |Filter(Commented, rows)| > 0
    requires forall r :: r in rows ==> '\n' !in r.row.comment
    ensures Split(Join(GroupComments(rows), "\n"), '\n') == GroupComments(rows)
  {
    var comments := GroupComments(rows);
    forall i | 0 <= i < |comments|
      ensures '\n' !in comments[i]
    {
      assert Filter(Commented, rows)[i] in rows;
    }
    SplitJoin(comments, '\n');
  }

  /** The records of the listed groups, in key order. */
  function Tabulate(keys: seq<FileKey>, rows: seq<FileRow>, columns: seq<string>, patterns: map<string, Regex>)
    : (r: Result<seq<FileRecord>>)
    requires forall i :: 0 <= i < |keys| ==> |Group(rows, keys[i])| > 0
    ensures r.Failure? <==> |keys| > 0 && MissingAny(columns, patterns)
    ensures r.Success? ==>
              && |r.value| == |keys|
              && forall i :: 0 <= i < |keys| ==>
                   && r.value[i].project == keys[i].project && r.value[i].file == keys[i].file
                   && r.value[i].modificationTimes == |Group(rows, keys[i])|
                   && Reduces(rows, columns, patterns, r.value[i])
  {
    if keys == [] then Success([])
    else
      assert forall i :: 1 <= i < |keys| ==> keys[i] == keys[1..][i - 1];
      var first := FileRecordOf(Group(rows, keys[0]), keys[0], columns, patterns);
      if first.Failure? then Failure(first.error)
      else
        match Tabulate(keys[1..], rows, columns, patterns)
        case Failure(e) => Failure(e)
        case Success(rest) =>
          var t := [first.value] + rest;
          assert forall i :: 1 <= i < |t| ==> t[i] == rest[i - 1];
          Success(t)
  }

  /** A record is the reduction of the group of its own (project, file) key. */
  ghost predicate Reduces(rows: seq<FileRow>, columns: seq<string>, patterns: map<string, Regex>, rec: FileRecord)
  {
    var k := FileKey(rec.project, rec.file);
    var g := FileRecordOf(Group(rows, k), k, columns, patterns);
    g.Success? && g.value == rec
  }

  /** The reduction of the joined, filtered table: one record per (project,
      file) group, each the reduction of that group, failing exactly when
      there is a row and an optional column without a pattern. */
  function FileTable(rows: seq<FileRow>, columns: seq<string>, patterns: map<string, Regex>)
    : (r: Result<seq<FileRecord>>)
    ensures r.Failure? <==> |rows| > 0 && MissingAny(columns, patterns)
    ensures r.Success? ==> OneRecordPerGroup(rows, r.value)
    ensures r.Success? ==> forall i :: 0 <= i < |r.value| ==> Reduces(rows, columns, patterns, r.value[i])
  {
    KeyedTableFacts(Keys(rows), rows, columns, patterns);
    Tabulate(Keys(rows), rows, columns, patterns)
  }

  /** One record per (project, file) group: no two records share a key, every
      row's group has a record, every record comes from some row's group, and
      no record comes from an empty group. */
  ghost predicate OneRecordPerGroup(rows: seq<FileRow>, t: seq<FileRecord>)
  {
    && DistinctRecords(t)
    && (forall j :: 0 <= j < |rows| ==> HasRecordFor(t, rows[j].project, rows[j].row.file))
    && (forall i :: 0 <= i < |t| ==> HasRowFor(rows, t[i]))
    && (forall i :: 0 <= i < |t| ==> t[i].modificationTimes >= 1)
  }

  ghost predicate DistinctRecords(t: seq<FileRecord>)
  {
    forall i, j :: 0 <= i < j < |t| ==> FileKey(t[i].project, t[i].file) != FileKey(t[j].project, t[j].file)
  }

  /** Some record has the (project, file) key. */
  ghost predicate HasRecordFor(t: seq<FileRecord>, project: string, file: string)
  {
    exists i :: 0 <= i < |t| && t[i].project == project && t[i].file == file
  }

  ghost predicate HasRowFor(rows: seq<FileRow>, rec: FileRecord)
  {
    exists j :: 0 <= j < |rows| && rec.project == rows[j].project && rec.file == rows[j].row.file
  }

  lemma KeyedTableFacts(keys: seq<FileKey>, rows: seq<FileRow>, columns: seq<string>, patterns: map<string, Regex>)
    requires forall i, j :: 0 <= i < j < |keys| ==> keys[i] != keys[j]
    requires forall j :: 0 <= j < |rows| ==> KeyOf(rows[j]) in keys
    requires forall i :: 0 <= i < |keys| ==> |Group(rows, keys[i])| > 0
    ensures var r := Tabulate(keys, rows, columns, patterns);
            && (r.Failure? <==> |rows| > 0 && MissingAny(columns, patterns))
            && (r.Success? ==> OneRecordPerGroup(rows, r.value))
  {
    assert |rows| > 0 ==> KeyOf(rows[0]) in keys;
    var r := Tabulate(keys, rows, columns, patterns);
    if r.Success? {
      KeyedTableCovers(keys, rows, r.value);
      KeyedTableSourced(keys, rows, r.value);
      KeyedTableDistinct(keys, r.value);
    }
  }

  lemma KeyedTableCovers(keys: seq<FileKey>, rows: seq<FileRow>, t: seq<FileRecord>)
    requires forall j :: 0 <= j < |rows| ==> KeyOf(rows[j]) in keys
    requires |t| == |keys|
    requires forall i :: 0 <= i < |keys| ==> t[i].project == keys[i].project && t[i].file == keys[i].file
    ensures forall j :: 0 <= j < |rows| ==> HasRecordFor(t, rows[j].project, rows[j].row.file)
  {
    forall j | 0 <= j < |rows|
      ensures HasRecordFor(t, rows[j].project, rows[j].row.file)
    {
      var i :| 0 <= i < |keys| && keys[i] == KeyOf(rows[j]);
      assert t[i].project == rows[j].project && t[i].file == rows[j].row.file;
    }
  }

  lemma KeyedTableSourced(keys: seq<FileKey>, rows: seq<FileRow>, t: seq<FileRecord>)
    requires forall i :: 0 <= i < |keys| ==> |Group(rows, keys[i])| > 0
    requires |t| == |keys|
    requires forall i :: 0 <= i < |keys| ==> t[i].project == keys[i].project && t[i].file == keys[i].file
    ensures forall i :: 0 <= i < |t| ==> HasRowFor(rows, t[i])
  {
    forall i | 0 <= i < |t|
      ensures HasRowFor(rows, t[i])
    {
      RecordHasRow(keys[i], rows, t[i]);
    }
  }

  lemma KeyedTableDistinct(keys: seq<FileKey>, t: seq<FileRecord>)
    requires forall i, j :: 0 <= i < j < |keys| ==> keys[i] != keys[j]
    requires |t| == |keys|
    requires forall i :: 0 <= i < |keys| ==> t[i].project == keys[i].project && t[i].file == keys[i].file
    ensures DistinctRecords(t)
  {
    forall i, j | 0 <= i < j < |t|
      ensures FileKey(t[i].project, t[i].file) != FileKey(t[j].project, t[j].file)
    {
      assert keys[i] != keys[j];
    }
  }

  lemma RecordHasRow(k: FileKey, rows: seq<FileRow>, rec: FileRecord)
    requires |Group(rows, k)| > 0
    requires rec.project == k.project && rec.file == k.file
    ensures HasRowFor(rows, rec)
  {
    var g := Group(rows, k);
    assert g[0] in rows && HasKey(k)(g[0]);
    var j :| 0 <= j < |rows| && rows[j] == g[0];
    assert KeyOf(rows[j]) == k;
  }

  /** The rows the file report reduces, before the join: normalised, with
      self-comments dropped when the report's flag says so and excluded files
      dropped. */
  function Reported(changes: seq<Change>, config: Config): (rows: seq<Row>)
    ensures forall i :: 0 <= i < |rows| ==> rows[i].id in Ids(changes) && !config.fileToFilter(rows[i].file)
  {
    var all := Rows(changes, config.fileColumns.filterOwnerComments);
    NormalizeBelongs(changes);
    assert forall x :: x in all ==> x in Normalize(changes);
    FilterFiles(all, config.fileToFilter)
  }

  /** The project of the change a row's id names, as the join attaches it. */
  function ProjectOf(changes: seq<Change>, id: string): string
  {
    match Lookup(changes, id)
    case Some(c) => c.project
    case None => ""
  }

  /** The table the file report groups: the reported rows joined with their
      changes' metadata. */
  function Joined(changes: seq<Change>, config: Config): seq<FileRow>
  {
    Attach(Reported(changes, config), changes)
  }

  /** What the file report promises about its records' keys: no excluded file
      has one, every reported row's (project, file) pair has one, every record's
      pair is some reported row's, and no two records share a pair. */
  ghost predicate ReportShape(kept: seq<Row>, changes: seq<Change>, matches: string -> bool, t: seq<FileRecord>)
  {
    && (forall i :: 0 <= i < |t| ==> !matches(t[i].file))
    && (forall j :: 0 <= j < |kept| ==> HasRecordFor(t, ProjectOf(changes, kept[j].id), kept[j].file))
    && (forall i :: 0 <= i < |t| ==> HasReportedRow(kept, changes, t[i]))
    && DistinctRecords(t)
  }

  /** Some reported row has the record's (project, file) key. */
  ghost predicate HasReportedRow(kept: seq<Row>, changes: seq<Change>, rec: FileRecord)
  {
    exists j :: 0 <= j < |kept| && rec.project == ProjectOf(changes, kept[j].id) && rec.file == kept[j].file
  }

  /** The file report of a batch: join, group and reduce the reported rows.
      A batch without a single normalised row fails, because the source's
      table then has no columns to read; otherwise the report fails only for
      a missing optional-column pattern when some row is reported, and each
      record is the reduction of its (project, file) group of the joined
      table. */
  function FileReport(changes: seq<Change>, config: Config): (r: Result<seq<FileRecord>>)
    ensures r.Failure? <==>
              || Normalize(changes) == []
              || (|Reported(changes, config)| > 0 && MissingAny(config.fileColumns.optional, config.subjectPatterns))
    ensures r.Success? ==> ReportShape(Reported(changes, config), changes, config.fileToFilter, r.value)
    ensures r.Success? ==> forall i :: 0 <= i < |r.value| ==>
              Reduces(Joined(changes, config), config.fileColumns.optional, config.subjectPatterns, r.value[i])
  {
    if Normalize(changes) == [] then Failure(NoFileRows)
    else
      var kept := Reported(changes, config);
      JoinedTableFacts(kept, changes, config.fileColumns.optional, config.subjectPatterns, config.fileToFilter);
      FileTable(Attach(kept, changes), config.fileColumns.optional, config.subjectPatterns)
  }

  lemma JoinedTableFacts(kept: seq<Row>, changes: seq<Change>, columns: seq<string>,
                         patterns: map<string, Regex>, matches: string -> bool)
    requires forall i :: 0 <= i < |kept| ==> kept[i].id in Ids(changes) && !matches(kept[i].file)
    ensures var r := FileTable(Attach(kept, changes), columns, patterns);
            && (r.Failure? <==> |kept| > 0 && MissingAny(columns, patterns))
            && (r.Success? ==> ReportShape(kept, changes, matches, r.value))
  {
    var joined := Attach(kept, changes);
    AttachedProjects(kept, changes);
    var r := FileTable(joined, columns, patterns);
    if r.Success? {
      AttachedProjects(kept, changes);
      JoinedShape(kept, changes, joined, matches, r.value);
    }
  }

  /** The join gives every row its own change's project. */
  lemma AttachedProjects(kept: seq<Row>, changes: seq<Change>)
    requires forall i :: 0 <= i < |kept| ==> kept[i].id in Ids(changes)
    ensures |Attach(kept, changes)| == |kept|
    ensures forall j :: 0 <= j < |kept| ==>
              && Attach(kept, changes)[j].project == ProjectOf(changes, kept[j].id)
              && Attach(kept, changes)[j].row.file == kept[j].file
  {
  }

  lemma JoinedShape(kept: seq<Row>, changes: seq<Change>, joined: seq<FileRow>, matches: string -> bool, t: seq<FileRecord>)
    requires |joined| == |kept|
    requires forall j :: 0 <= j < |kept| ==> joined[j].row.file == kept[j].file && !matches(kept[j].file)
    requires forall j :: 0 <= j < |kept| ==> joined[j].project == ProjectOf(changes, kept[j].id)
    requires OneRecordPerGroup(joined, t)
    ensures ReportShape(kept, changes, matches, t)
  {
    forall i | 0 <= i < |t|
      ensures !matches(t[i].file) && HasReportedRow(kept, changes, t[i])
    {
      assert HasRowFor(joined, t[i]);
      var j :| 0 <= j < |joined| && t[i].project == joined[j].project && t[i].file == joined[j].row.file;
      assert t[i].project == ProjectOf(changes, kept[j].id) && t[i].file == kept[j].file;
    }
    forall j | 0 <= j < |kept|
      ensures HasRecordFor(t, ProjectOf(changes, kept[j].id), kept[j].file)
    {
      assert HasRecordFor(t, joined[j].project, joined[j].row.file);
    }
  }
}
