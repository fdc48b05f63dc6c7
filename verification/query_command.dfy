/** The query-command builder: the fixed `gerrit query` prefix followed by the
    configured search operators, rendered in configured order. */
module QueryCommand {
  import opened Results
  import opened Seqs
  import opened Text

  const Prefix: string := "query --format=JSON --patch-sets --current-patch-set --files --comments"

  /** Python's `datetime` range as proleptic Gregorian day ordinals
      (`date.toordinal()`): 1 January of year 1 to 31 December 9999. */
  const MinOrdinal: int := 1
  const MaxOrdinal: int := 3652059

  /** The largest number of days a `timedelta` may hold. */
  const MaxDeltaDays: int := 999999999

  /** Whether `timedelta(days=n)` exists and today's midnight minus it is
      still a `datetime`. */
  predicate WindowInRange(today: int, n: int)
  {
    -MaxDeltaDays <= n <= MaxDeltaDays && MinOrdinal <= today - n <= MaxOrdinal
  }

  /** One `name = value` line of the search-operator section. */
  datatype Operator = Operator(name: string, value: string)

  predicate IsDateName(name: string)
  {
    name == "before" || name == "until" || name == "after" || name == "since"
  }

  function IsDateOp(op: Operator): bool { IsDateName(op.name) }
  function IsLastDays(op: Operator): bool { op.name == "lastdays" }
  function NotLastDays(op: Operator): bool { op.name != "lastdays" }

  /** Whether any explicit date operator is configured. */
  predicate HasDate(items: seq<Operator>)
  {
    exists i :: 0 <= i < |items| && IsDateName(items[i].name)
  }

  /** A date operator: `name:'"value"'`. */
  function Quoted(name: string, value: string): string
  {
    name + ":'\"" + value + "\"'"
  }

  /** Any other operator: `name:value`. */
  function Plain(name: string, value: string): string
  {
    name + ":" + value
  }

  /** How an operator other than `lastdays` is written. */
  function Fixed(op: Operator): string
  {
    if IsDateName(op.name) then Quoted(op.name, op.value) else Plain(op.name, op.value)
  }

  /** The parts one operator contributes. `today` is the day ordinal of the
      current UTC midnight; `showMidnight` renders a day ordinal's midnight. */
  function RenderOne(op: Operator, hasDate: bool, today: int, showMidnight: int -> string): Result<seq<string>>
  {
    if IsDateName(op.name) then Success([Quoted(op.name, op.value)])
    else if op.name == "lastdays" then
      if hasDate then Success([])
      else
        match ParseInt(op.value)
        case None => Failure(NotAnInteger(op.value))
        case Some(n) =>
          if !WindowInRange(today, n) then Failure(DateOutOfRange(op.value))
          else Success([Quoted("after", showMidnight(today - n)), Quoted("before", showMidnight(today))])
    else Success([Plain(op.name, op.value)])
  }

  /** A `lastdays` value that is not an integer, or whose window leaves the
      datetime range. */
  predicate Unusable(value: string, today: int)
  {
    ParseInt(value).None? || !WindowInRange(today, ParseInt(value).value)
  }

  /** A `lastdays` value the builder would have to read but cannot use. */
  predicate BadLastDays(items: seq<Operator>, today: int)
  {
    exists i :: 0 <= i < |items| && items[i].name == "lastdays" && Unusable(items[i].value, today)
  }

  /** The parts of all operators, in configured order. */
  function RenderAll(items: seq<Operator>, hasDate: bool, today: int, showMidnight: int -> string)
    : (r: Result<seq<string>>)
    ensures r.Failure? ==> !hasDate
  {
    if items == [] then Success([])
    else
      match RenderOne(items[0], hasDate, today, showMidnight)
      case Failure(e) => Failure(e)
      case Success(first) =>
        match RenderAll(items[1..], hasDate, today, showMidnight)
        case Failure(e) => Failure(e)
        case Success(rest) => Success(first + rest)
  }

  /** Rendering fails exactly when a `lastdays` value must be read and is not
      an integer or reaches outside the datetime range; otherwise each `lastdays` adds one part (two in place of
      itself) or removes one (dropped), and every other operator is one part. */
  lemma {:induction false} RenderAllOutcome(items: seq<Operator>, hasDate: bool, today: int, showMidnight: int -> string)
    ensures RenderAll(items, hasDate, today, showMidnight).Failure? <==> !hasDate && BadLastDays(items, today)
    ensures RenderAll(items, hasDate, today, showMidnight).Success? ==>
              |RenderAll(items, hasDate, today, showMidnight).value|
                == |items| + (if hasDate then -1 else 1) * |Filter(IsLastDays, items)|
  {
    RenderAllFails(items, hasDate, today, showMidnight);
    RenderAllCount(items, hasDate, today, showMidnight);
  }

  /** One operator fails exactly when it is a `lastdays` that must be read
      and is not an integer or reaches outside the datetime range; otherwise it
      yields two, none or one part. */
  lemma RenderOneOutcome(op: Operator, hasDate: bool, today: int, showMidnight: int -> string)
    ensures RenderOne(op, hasDate, today, showMidnight).Failure? <==>
              !hasDate && op.name == "lastdays" && Unusable(op.value, today)
    ensures RenderOne(op, hasDate, today, showMidnight).Success? ==>
              |RenderOne(op, hasDate, today, showMidnight).value|
                == if IsLastDays(op) then (if hasDate then 0 else 2) else 1
  {
  }

  lemma BadLastDaysCons(items: seq<Operator>, today: int)
    requires items != []
    ensures BadLastDays(items, today) <==>
              (items[0].name == "lastdays" && Unusable(items[0].value, today)) || BadLastDays(items[1..], today)
  {
    if BadLastDays(items[1..], today) {
      var i :| 0 <= i < |items[1..]| && items[1..][i].name == "lastdays" && Unusable(items[1..][i].value, today);
      assert items[i + 1] == items[1..][i];
    }
    if BadLastDays(items, today) {
      var i :| 0 <= i < |items| && items[i].name == "lastdays" && Unusable(items[i].value, today);
      if i > 0 {
        assert items[1..][i - 1] == items[i];
      }
    }
  }

  lemma {:induction false} RenderAllFails(items: seq<Operator>, hasDate: bool, today: int, showMidnight: int -> string)
    ensures RenderAll(items, hasDate, today, showMidnight).Failure? <==> !hasDate && BadLastDays(items, today)
  {
    if items != [] {
      RenderAllFails(items[1..], hasDate, today, showMidnight);
      RenderAllStep(items, hasDate, today, showMidnight);
      RenderOneOutcome(items[0], hasDate, today, showMidnight);
      BadLastDaysCons(items, today);
    }
  }

  lemma {:induction false} RenderAllCount(items: seq<Operator>, hasDate: bool, today: int, showMidnight: int -> string)
    ensures RenderAll(items, hasDate, today, showMidnight).Success? ==>
              |RenderAll(items, hasDate, today, showMidnight).value|
                == |items| + (if hasDate then -1 else 1) * |Filter(IsLastDays, items)|
  {
    if items != [] {
      RenderAllCount(items[1..], hasDate, today, showMidnight);
      RenderAllStep(items, hasDate, today, showMidnight);
      RenderOneOutcome(items[0], hasDate, today, showMidnight);
      assert |Filter(IsLastDays, items)| == (if IsLastDays(items[0]) then 1 else 0) + |Filter(IsLastDays, items[1..])|;
    }
  }

  /** The full command. */
  function Query(items: seq<Operator>, today: int, showMidnight: int -> string): (r: Result<string>)
    ensures r.Failure? <==> !HasDate(items) && BadLastDays(items, today)
    ensures r.Success? <==> RenderAll(items, HasDate(items), today, showMidnight).Success?
    ensures r.Success? ==> r.value == Prefix + " " + Join(RenderAll(items, HasDate(items), today, showMidnight).value, " ")
  {
    RenderAllOutcome(items, HasDate(items), today, showMidnight);
    match RenderAll(items, HasDate(items), today, showMidnight)
    case Failure(e) => Failure(e)
    case Success(parts) => Success(Prefix + " " + Join(parts, " "))
  }

  /** With a date operator configured, the command is the prefix followed by
      every operator other than `lastdays`, written in place and separated by
      spaces; it never fails. */
  lemma QueryWithDate(items: seq<Operator>, today: int, showMidnight: int -> string)
    requires HasDate(items)
    ensures Query(items, today, showMidnight)
              == Success(Prefix + " " + Join(Map(Fixed, Filter(NotLastDays, items)), " "))
  {
    RenderWithDate(items, today, showMidnight);
  }

  /** One step of the rendering loop. */
  lemma RenderAllStep(items: seq<Operator>, hasDate: bool, today: int, showMidnight: int -> string)
    requires items != []
    ensures RenderAll(items, hasDate, today, showMidnight).Success? <==>
              (RenderOne(items[0], hasDate, today, showMidnight).Success?
               && RenderAll(items[1..], hasDate, today, showMidnight).Success?)
    ensures RenderAll(items, hasDate, today, showMidnight).Success? ==>
              RenderAll(items, hasDate, today, showMidnight).value
                == RenderOne(items[0], hasDate, today, showMidnight).value
                   + RenderAll(items[1..], hasDate, today, showMidnight).value
  {
  }

  /** Rendering distributes over concatenation of the operator list. */
  lemma {:induction false} RenderAllAppend(a: seq<Operator>, b: seq<Operator>, hasDate: bool, today: int, showMidnight: int -> string)
    requires RenderAll(a, hasDate, today, showMidnight).Success?
    requires RenderAll(b, hasDate, today, showMidnight).Success?
    ensures RenderAll(a + b, hasDate, today, showMidnight).Success?
    ensures RenderAll(a + b, hasDate, today, showMidnight).value
              == RenderAll(a, hasDate, today, showMidnight).value + RenderAll(b, hasDate, today, showMidnight).value
  {
    if a == [] {
      assert a + b == b;
    } else {
      assert (a + b)[0] == a[0];
      assert (a + b)[1..] == a[1..] + b;
      RenderAllStep(a, hasDate, today, showMidnight);
      RenderAllAppend(a[1..], b, hasDate, today, showMidnight);
      RenderAllStep(a + b, hasDate, today, showMidnight);
      var first := RenderOne(a[0], hasDate, today, showMidnight).value;
      var restA := RenderAll(a[1..], hasDate, today, showMidnight).value;
      var restB := RenderAll(b, hasDate, today, showMidnight).value;
      Assoc(first, restA, restB);
    }
  }

  /** With an explicit date operator configured, every `lastdays` is dropped
      and every other operator is written in place, one part each. */
  lemma {:induction false} RenderWithDate(items: seq<Operator>, today: int, showMidnight: int -> string)
    ensures RenderAll(items, true, today, showMidnight) == Success(Map(Fixed, Filter(NotLastDays, items)))
  {
    if items != [] {
      RenderWithDate(items[1..], today, showMidnight);
      assert RenderOne(items[0], true, today, showMidnight)
               == Success(if NotLastDays(items[0]) then [Fixed(items[0])] else []);
      var head := if NotLastDays(items[0]) then [items[0]] else [];
      assert Filter(NotLastDays, items) == head + Filter(NotLastDays, items[1..]);
      MapAppend(Fixed, head, Filter(NotLastDays, items[1..]));
    }
  }

  /** Without a date operator and without `lastdays`, every operator is
      written in place. */
  lemma {:induction false} RenderWithoutLastDays(items: seq<Operator>, hasDate: bool, today: int, showMidnight: int -> string)
    requires forall i :: 0 <= i < |items| ==> items[i].name != "lastdays"
    ensures RenderAll(items, hasDate, today, showMidnight) == Success(Map(Fixed, items))
  {
    if items != [] {
      assert forall i :: 1 <= i < |items| ==> items[i] == items[1..][i - 1];
      RenderWithoutLastDays(items[1..], hasDate, today, showMidnight);
    }
  }

  /** Without a date operator, a `lastdays` value that reads as `n` becomes
      the window from n days before today's midnight to today's midnight, in
      that place. */
  lemma LastDaysExpands(before: seq<Operator>, value: string, n: int, after: seq<Operator>,
                        today: int, showMidnight: int -> string)
    requires ParseInt(value) == Some(n) && WindowInRange(today, n)
    requires RenderAll(before, false, today, showMidnight).Success?
    requires RenderAll(after, false, today, showMidnight).Success?
    ensures RenderAll(before + [Operator("lastdays", value)] + after, false, today, showMidnight).Success?
    ensures RenderAll(before + [Operator("lastdays", value)] + after, false, today, showMidnight).value
              == RenderAll(before, false, today, showMidnight).value
                 + [Quoted("after", showMidnight(today - n)), Quoted("before", showMidnight(today))]
                 + RenderAll(after, false, today, showMidnight).value
  {
    var op := Operator("lastdays", value);
    var window := [Quoted("after", showMidnight(today - n)), Quoted("before", showMidnight(today))];
    assert RenderOne(op, false, today, showMidnight) == Success(window);
    assert [op][1..] == [];
    RenderAllStep([op], false, today, showMidnight);
    assert RenderAll([op], false, today, showMidnight).value == window + [];
    RenderAllAppend(before, [op], false, today, showMidnight);
    RenderAllAppend(before + [op], after, false, today, showMidnight);
  }
}
