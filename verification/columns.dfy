/** Reading one metric section's column lists and self-comment switch. */
module Columns {
  import opened Results
  import opened Seqs
  import opened Text
  import opened Records

  function NotSpace(c: char): bool { c != ' ' }

  /** No ASCII capital anywhere in `s`. */
  predicate NoCapitals(s: string)
  {
    forall k :: 0 <= k < |s| ==> !('A' <= s[k] <= 'Z')
  }

  /** A well-formed column name as the reducers see it. */
  predicate Normalized(name: string)
  {
    NoCapitals(name) && ',' !in name && ' ' !in name
  }

  /** A comma-separated column list: lower-cased, spaces removed, split at
      commas. An empty list still yields one (empty) name. */
  function ParseColumns(raw: string): (cols: seq<string>)
    ensures |cols| >= 1
    ensures forall i :: 0 <= i < |cols| ==> Normalized(cols[i])
  {
    var lowered := Lower(raw);
    var squeezed := Filter(NotSpace, lowered);
    assert forall k :: 0 <= k < |squeezed| ==> squeezed[k] in lowered && squeezed[k] != ' ';
    Split(squeezed, ',')
  }

  /** Re-joining the names with commas gives the lower-cased list with its
      spaces removed: no character is lost or reordered. */
  lemma ColumnsRejoin(raw: string)
    ensures Join(ParseColumns(raw), ",") == Filter(NotSpace, Lower(raw))
  {
    JoinSplit(Filter(NotSpace, Lower(raw)), ',');
  }

  lemma {:induction false} LowerKeeps(s: string)
    requires NoCapitals(s)
    ensures Lower(s) == s
  {
    if s != [] {
      assert NoCapitals(s[1..]);
      LowerKeeps(s[1..]);
    }
  }

  lemma {:induction false} JoinNormalized(cols: seq<string>)
    requires forall i :: 0 <= i < |cols| ==> Normalized(cols[i])
    ensures NoCapitals(Join(cols, ","))
    ensures ' ' !in Join(cols, ",")
  {
    if |cols| > 1 {
      JoinNormalized(cols[1..]);
      var tail := Join(cols[1..], ",");
      assert Join(cols, ",") == cols[0] + "," + tail;
    }
  }

  /** A list of normalized names written comma-separated parses back to
      exactly those names. */
  lemma ColumnsRoundTrip(cols: seq<string>)
    requires |cols| >= 1
    requires forall i :: 0 <= i < |cols| ==> Normalized(cols[i])
    ensures ParseColumns(Join(cols, ",")) == cols
  {
    var text := Join(cols, ",");
    JoinNormalized(cols);
    LowerKeeps(text);
    FilterKeepsAll(NotSpace, text);
    SplitJoin(cols, ',');
  }

  /** The words a configuration file may use for a boolean, compared
      case-insensitively. */
  function ParseBool(raw: string): (r: Option<bool>)
    ensures r == Some(true) <==> Lower(raw) in {"1", "yes", "true", "on"}
    ensures r == Some(false) <==> Lower(raw) in {"0", "no", "false", "off"}
  {
    var word := Lower(raw);
    if word in {"1", "yes", "true", "on"} then Some(true)
    else if word in {"0", "no", "false", "off"} then Some(false)
    else None
  }

  /** A section's columns: the mandatory names, the optional names, both in
      order, and whether a file owner's own comments are dropped. */
  function InitColumns(mandatoryRaw: string, optionalRaw: string, flagRaw: string): (r: Result<ColumnConfig>)
    ensures r.Failure? <==> ParseBool(flagRaw).None?
    ensures r.Failure? ==> r.error == NotABoolean(flagRaw)
    ensures r.Success? ==>
              && Join(r.value.mandatory, ",") == Filter(NotSpace, Lower(mandatoryRaw))
              && Join(r.value.optional, ",") == Filter(NotSpace, Lower(optionalRaw))
              && r.value.columns == r.value.mandatory + r.value.optional
              && |r.value.columns| >= 2
              && (forall i :: 0 <= i < |r.value.columns| ==> Normalized(r.value.columns[i]))
              && Some(r.value.filterOwnerComments) == ParseBool(flagRaw)
  {
    ColumnsRejoin(mandatoryRaw);
    ColumnsRejoin(optionalRaw);
    match ParseBool(flagRaw)
    case None => Failure(NotABoolean(flagRaw))
    case Some(flag) =>
      var mandatory := ParseColumns(mandatoryRaw);
      var optional := ParseColumns(optionalRaw);
      Success(ColumnConfig(mandatory, optional, mandatory + optional, flag))
  }
}
