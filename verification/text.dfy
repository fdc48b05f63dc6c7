/** String operations of Python's `str` that the engine uses: substring test
    (`key in s`), `sep.join`, `split`, ASCII `lower`, and `int()` on a decimal
    string. Strings are sequences of characters. */
module Text {
  import opened Results
  import opened Seqs

  /** Python's `key in s` for strings: `key` occurs somewhere in `s`. */
  predicate Contains(s: string, key: string)
    decreases |s|
  {
    key <= s || (s != [] && Contains(s[1..], key))
  }

  /** `key` sits at offset `i` of `s`. */
  predicate OccursAt(s: string, key: string, i: int)
  {
    0 <= i <= |s| - |key| && key <= s[i..]
  }

  /** `Contains` holds exactly when `key` sits at some offset of `s`. */
  lemma {:induction false} ContainsAt(s: string, key: string)
    ensures Contains(s, key) <==> exists i :: OccursAt(s, key, i)
  {
    if s == [] {
      if Contains(s, key) {
        assert OccursAt(s, key, 0);
      }
    } else {
      ContainsAt(s[1..], key);
      if key <= s {
        assert OccursAt(s, key, 0);
      } else if Contains(s[1..], key) {
        var i :| OccursAt(s[1..], key, i);
        assert s[1..][i..] == s[i + 1..];
        assert OccursAt(s, key, i + 1);
      }
      if exists i :: OccursAt(s, key, i) {
        var i :| OccursAt(s, key, i);
        if i > 0 {
          assert s[1..][i - 1..] == s[i..];
          assert OccursAt(s[1..], key, i - 1);
        }
      }
    }
  }

  /** Python's `sep.join(parts)`. */
  function Join(parts: seq<string>, sep: string): string
  {
    if |parts| == 0 then ""
    else if |parts| == 1 then parts[0]
    else parts[0] + sep + Join(parts[1..], sep)
  }

  /** A character found in no piece and not in the separator is not in the join. */
  lemma {:induction false} JoinAvoids(parts: seq<string>, sep: string, c: char)
    requires c !in sep
    requires forall i :: 0 <= i < |parts| ==> c !in parts[i]
    ensures c !in Join(parts, sep)
  {
    if |parts| > 1 {
      JoinAvoids(parts[1..], sep, c);
    }
  }

  /** Python's `s.split(sep)` for a one-character separator: never empty, and
      no piece contains the separator. */
  function Split(s: string, sep: char): (parts: seq<string>)
    ensures |parts| >= 1
    ensures forall i :: 0 <= i < |parts| ==> sep !in parts[i]
    ensures forall i, k :: 0 <= i < |parts| && 0 <= k < |parts[i]| ==> parts[i][k] in s
  {
    if s == [] then [""]
    else
      var rest := Split(s[1..], sep);
      if s[0] == sep then [""] + rest
      else [[s[0]] + rest[0]] + rest[1..]
  }

  /** Joining the pieces of a split with the separator gives back the string. */
  lemma {:induction false} JoinSplit(s: string, sep: char)
    ensures Join(Split(s, sep), [sep]) == s
  {
    if s != [] {
      var rest := Split(s[1..], sep);
      JoinSplit(s[1..], sep);
      if s[0] == sep {
        assert Split(s, sep) == [""] + rest;
        assert ([""] + rest)[1..] == rest;
      } else {
        var parts := [[s[0]] + rest[0]] + rest[1..];
        assert Split(s, sep) == parts;
        if |rest| == 1 {
          assert Join(parts, [sep]) == [s[0]] + rest[0];
        } else {
          assert parts[1..] == rest[1..];
          assert Join(rest, [sep]) == rest[0] + [sep] + Join(rest[1..], [sep]);
        }
      }
    }
  }

  /** Splitting a join of separator-free pieces gives back the pieces. */
  lemma {:induction false} SplitJoin(parts: seq<string>, sep: char)
    requires |parts| >= 1
    requires forall i :: 0 <= i < |parts| ==> sep !in parts[i]
    ensures Split(Join(parts, [sep]), sep) == parts
  {
    if |parts| == 1 {
      SplitPiece(parts[0], sep, "", [""]);
      assert parts[0] + "" == parts[0];
    } else {
      SplitJoin(parts[1..], sep);
      var tail := Join(parts[1..], [sep]);
      assert Join(parts, [sep]) == parts[0] + ([sep] + tail);
      SplitSeparator(tail, sep);
      var pieces := [""] + parts[1..];
      SplitPiece(parts[0], sep, [sep] + tail, pieces);
      assert pieces[0] == "" && pieces[1..] == parts[1..];
      assert parts[0] + "" == parts[0];
      assert [parts[0]] + parts[1..] == parts;
    }
  }

  lemma SplitSeparator(tail: string, sep: char)
    ensures Split([sep] + tail, sep) == [""] + Split(tail, sep)
  {
    assert ([sep] + tail)[1..] == tail;
  }

  /** A separator-free prefix glues onto the first piece of what follows it. */
  lemma {:induction false} SplitPiece(piece: string, sep: char, tail: string, pieces: seq<string>)
    requires sep !in piece
    requires Split(tail, sep) == pieces
    ensures Split(piece + tail, sep) == [piece + pieces[0]] + pieces[1..]
  {
    if piece == [] {
      assert piece + tail == tail;
      assert piece + pieces[0] == pieces[0];
      assert [pieces[0]] + pieces[1..] == pieces;
    } else {
      assert (piece + tail)[1..] == piece[1..] + tail;
      SplitPiece(piece[1..], sep, tail, pieces);
      assert [piece[0]] + (piece[1..] + pieces[0]) == piece + pieces[0];
    }
  }

  /** Python 2 `str.lower()` on one character: only ASCII capitals change. */
  function LowerChar(c: char): (d: char)
    ensures !('A' <= d <= 'Z')
    ensures 'a' <= c <= 'z' ==> d == c
  {
    if 'A' <= c <= 'Z' then (c as int - 'A' as int + 'a' as int) as char else c
  }

  function Lower(s: string): string
  {
    Map(LowerChar, s)
  }

  predicate IsDigit(c: char)
  {
    '0' <= c <= '9'
  }

  predicate AllDigits(s: string)
  {
    forall i :: 0 <= i < |s| ==> IsDigit(s[i])
  }

  /** The value of a non-empty string of decimal digits, most significant first. */
  function DigitsValue(s: string): nat
    requires AllDigits(s)
  {
    if s == [] then 0
    else DigitsValue(s[..|s| - 1]) * 10 + (s[|s| - 1] as int - '0' as int)
  }

  /** Python's `int(s)` in base 10: an optional sign and at least one digit;
      anything else is rejected. */
  function ParseInt(s: string): (r: Option<int>)
    ensures r.Some? ==> |s| >= 1 && IsDigit(s[|s| - 1])
    ensures AllDigits(s) && s != [] ==> r == Some(DigitsValue(s))
  {
    if |s| >= 2 && (s[0] == '-' || s[0] == '+') && AllDigits(s[1..]) then
      var magnitude: int := DigitsValue(s[1..]);
      Some(if s[0] == '-' then -magnitude else magnitude)
    else if |s| >= 1 && AllDigits(s) then Some(DigitsValue(s))
    else None
  }

  /** The decimal rendering of a natural number, used as the inverse of `ParseInt`. */
  function ShowNat(n: nat): (s: string)
    ensures |s| >= 1 && AllDigits(s)
    decreases n
  {
    var d := [('0' as int + n % 10) as char];
    if n < 10 then d else ShowNat(n / 10) + d
  }

  function ShowInt(n: int): string
  {
    if n < 0 then "-" + ShowNat(-n) else ShowNat(n)
  }

  lemma {:induction false} DigitsOfShowNat(n: nat)
    ensures DigitsValue(ShowNat(n)) == n
    decreases n
  {
    var s := ShowNat(n);
    if n >= 10 {
      DigitsOfShowNat(n / 10);
      assert s[..|s| - 1] == ShowNat(n / 10);
    }
  }

  /** `int()` reads back every integer's decimal rendering. */
  lemma ParseShowInt(n: int)
    ensures ParseInt(ShowInt(n)) == Some(n)
  {
    if n < 0 {
      var s := ShowInt(n);
      assert s[1..] == ShowNat(-n);
      DigitsOfShowNat(-n);
    } else {
      DigitsOfShowNat(n);
    }
  }
}
