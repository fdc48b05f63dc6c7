/** The file filter: drops the rows whose path matches the configured
    `file_to_filter` pattern (an uninterpreted `re.match` predicate here). */
module FileFilter {
  import opened Seqs
  import opened Records

  /** Whether a row's file escapes the exclusion pattern. */
  function Kept(matches: string -> bool): Row -> bool
  {
    (r: Row) => !matches(r.file)
  }

  function FilterFiles(rows: seq<Row>, matches: string -> bool): (r: seq<Row>)
    ensures |r| <= |rows|
    ensures forall i :: 0 <= i < |r| ==> r[i] in rows && !matches(r[i].file)
    ensures forall i :: 0 <= i < |rows| && !matches(rows[i].file) ==> rows[i] in r
  {
    Filter(Kept(matches), rows)
  }

  /** Filtering already-filtered rows changes nothing. */
  lemma FilterFilesIdempotent(rows: seq<Row>, matches: string -> bool)
    ensures FilterFiles(FilterFiles(rows, matches), matches) == FilterFiles(rows, matches)
  {
    FilterIdempotent(Kept(matches), rows);
  }

  /** Rows none of which matches the pattern pass through unchanged. */
  lemma FilterFilesKeepsClean(rows: seq<Row>, matches: string -> bool)
    requires forall i :: 0 <= i < |rows| ==> !matches(rows[i].file)
    ensures FilterFiles(rows, matches) == rows
  {
    FilterKeepsAll(Kept(matches), rows);
  }

  /** Filtering distributes over concatenation, so filtering the whole table
      equals filtering every change's rows separately. */
  lemma FilterFilesAppend(a: seq<Row>, b: seq<Row>, matches: string -> bool)
    ensures FilterFiles(a + b, matches) == FilterFiles(a, matches) + FilterFiles(b, matches)
  {
    FilterAppend(Kept(matches), a, b);
  }
}
