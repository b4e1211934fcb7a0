/** The JavaScript string built-ins the portal relies on: `String(n)` on a
    whole number, `Number(s)` on a plain decimal numeral, `toLowerCase`
    (ASCII letters only), `includes`, and `join`/`split` on one character. */
module Strings {
  import opened Wrappers

  predicate IsDigit(c: char) {
    '0' <= c <= '9'
  }

  predicate AllDigits(s: string) {
    forall i :: 0 <= i < |s| ==> IsDigit(s[i])
  }

  function DigitChar(d: nat): (c: char)
    requires d < 10
    ensures IsDigit(c) && c as int - '0' as int == d
  {
    ('0' as int + d) as char
  }

  /** `String(n)` for a natural number: its decimal digits, no leading zero. */
  function NatToString(n: nat): (s: string)
    ensures |s| >= 1 && AllDigits(s)
    ensures (s[0] == '0') <==> (n == 0)
    decreases n
  {
    if n < 10 then [DigitChar(n)] else NatToString(n / 10) + [DigitChar(n % 10)]
  }

  /** `String(i)` for any whole number. */
  function IntToString(i: int): (s: string)
    ensures |s| >= 1
    ensures i >= 0 ==> AllDigits(s)
    ensures i < 0 ==> s[0] == '-'
  {
    if i < 0 then "-" + NatToString(-i) else NatToString(i)
  }

  /** The value of a string of decimal digits (leading zeros allowed). */
  function DigitsValue(s: string): nat
    requires AllDigits(s)
  {
    if s == [] then 0 else DigitsValue(s[..|s| - 1]) * 10 + (s[|s| - 1] as int - '0' as int)
  }

  /** `Number(s)` on a non-empty string: a plain decimal numeral gives its
      value; anything else gives `NaN`, here `None`. */
  function ParseDecimal(s: string): (r: Option<nat>)
    ensures r.Some? <==> |s| >= 1 && AllDigits(s)
  {
    if |s| >= 1 && AllDigits(s) then Some(DigitsValue(s)) else None
  }

  lemma {:induction false} DigitsValueOfNatToString(n: nat)
    ensures DigitsValue(NatToString(n)) == n
    decreases n
  {
    var s := NatToString(n);
    if n >= 10 {
      DigitsValueOfNatToString(n / 10);
      assert s[..|s| - 1] == NatToString(n / 10);
    }
  }

  /** `Number(String(n)) === n` for every natural number. */
  lemma ParseNatToString(n: nat)
    ensures ParseDecimal(NatToString(n)) == Some(n)
  {
    DigitsValueOfNatToString(n);
  }

  /** `String(n)` is one-to-one on natural numbers. */
  lemma NatToStringInjective(m: nat, n: nat)
    ensures NatToString(m) == NatToString(n) <==> m == n
  {
    if NatToString(m) == NatToString(n) {
      ParseNatToString(m);
      ParseNatToString(n);
    }
  }

  function LowerChar(c: char): (d: char)
    ensures !('A' <= d <= 'Z')
    ensures !('A' <= c <= 'Z') ==> d == c
  {
    if 'A' <= c <= 'Z' then (c as int - 'A' as int + 'a' as int) as char else c
  }

  /** `s.toLowerCase()`, restricted to the ASCII letters. */
  function Lower(s: string): (r: string)
    ensures |r| == |s|
    ensures forall i :: 0 <= i < |s| ==> r[i] == LowerChar(s[i])
  {
    seq(|s|, i requires 0 <= i < |s| => LowerChar(s[i]))
  }

  /** `needle` occurs in `hay` starting at index `i`. */
  predicate OccursAt(hay: string, needle: string, i: nat) {
    i + |needle| <= |hay| && hay[i..i + |needle|] == needle
  }

  /** `hay.includes(needle)`. */
  predicate Contains(hay: string, needle: string): (b: bool)
    ensures b ==> |needle| <= |hay|
    ensures |needle| == |hay| ==> (b <==> needle == hay)
  {
    assert needle == hay ==> OccursAt(hay, needle, 0);
    exists i: nat :: i <= |hay| && OccursAt(hay, needle, i)
  }

  lemma ContainsEmpty(hay: string)
    ensures Contains(hay, "")
  {
    assert OccursAt(hay, "", 0);
  }

  /** `cells.join([sep])`. */
  function Join(cells: seq<string>, sep: char): (s: string)
    ensures |cells| == 0 ==> s == ""
    ensures |cells| == 1 ==> s == cells[0]
    ensures |cells| >= 1 ==> cells[0] <= s
  {
    if |cells| == 0 then ""
    else if |cells| == 1 then cells[0]
    else cells[0] + [sep] + Join(cells[1..], sep)
  }

  /** `s.split(sep)` for a one-character separator: never empty; the empty
      string splits into one empty piece. */
  function Split(s: string, sep: char): (pieces: seq<string>)
    ensures |pieces| >= 1
    ensures forall i :: 0 <= i < |pieces| ==> sep !in pieces[i]
  {
    if |s| == 0 then [""]
    else if s[0] == sep then [""] + Split(s[1..], sep)
    else
      var rest := Split(s[1..], sep);
      [[s[0]] + rest[0]] + rest[1..]
  }

  lemma {:induction false} SplitFree(s: string, sep: char)
    requires sep !in s
    ensures Split(s, sep) == [s]
    decreases |s|
  {
    if |s| > 0 {
      SplitFree(s[1..], sep);
      assert [s[0]] + s[1..] == s;
    }
  }

  /** A separator splits the text in two, and each half splits on its own. */
  lemma {:induction false} SplitAround(a: string, sep: char, b: string)
    ensures Split(a + [sep] + b, sep) == Split(a, sep) + Split(b, sep)
    decreases |a|
  {
    var s := a + [sep] + b;
    if |a| == 0 {
      assert s[1..] == b;
    } else {
      assert s[0] == a[0] && s[1..] == a[1..] + [sep] + b;
      SplitAround(a[1..], sep, b);
      if a[0] != sep {
        var left := Split(a[1..], sep);
        var rest := Split(s[1..], sep);
        assert rest == left + Split(b, sep);
        assert rest[0] == left[0] && rest[1..] == left[1..] + Split(b, sep);
      }
    }
  }

  /** Splitting a join yields the pieces of every cell, one after another. */
  function SplitEach(cells: seq<string>, sep: char): seq<string> {
    if |cells| == 0 then [] else Split(cells[0], sep) + SplitEach(cells[1..], sep)
  }

  lemma {:induction false} SplitJoinPieces(cells: seq<string>, sep: char)
    requires |cells| >= 1
    ensures Split(Join(cells, sep), sep) == SplitEach(cells, sep)
    decreases |cells|
  {
    if |cells| == 1 {
      assert SplitEach(cells[1..], sep) == [];
    } else {
      SplitJoinPieces(cells[1..], sep);
      SplitAround(cells[0], sep, Join(cells[1..], sep));
    }
  }

  lemma {:induction false} SplitEachFree(cells: seq<string>, sep: char)
    requires forall i :: 0 <= i < |cells| ==> sep !in cells[i]
    ensures SplitEach(cells, sep) == cells
    decreases |cells|
  {
    if |cells| > 0 {
      SplitFree(cells[0], sep);
      SplitEachFree(cells[1..], sep);
      assert [cells[0]] + cells[1..] == cells;
    }
  }

  /** Join and split are inverse when no cell holds the separator. */
  lemma SplitJoin(cells: seq<string>, sep: char)
    requires |cells| >= 1
    requires forall i :: 0 <= i < |cells| ==> sep !in cells[i]
    ensures Split(Join(cells, sep), sep) == cells
  {
    SplitJoinPieces(cells, sep);
    SplitEachFree(cells, sep);
  }

  lemma {:induction false} SplitHoldingSeparator(s: string, sep: char)
    requires sep in s
    ensures |Split(s, sep)| >= 2
    decreases |s|
  {
    if s[0] != sep {
      SplitHoldingSeparator(s[1..], sep);
    }
  }

  lemma {:induction false} SplitEachLength(cells: seq<string>, sep: char)
    ensures |SplitEach(cells, sep)| >= |cells|
    ensures (exists i :: 0 <= i < |cells| && sep in cells[i]) ==> |SplitEach(cells, sep)| > |cells|
    decreases |cells|
  {
    if |cells| > 0 {
      SplitEachLength(cells[1..], sep);
      if sep in cells[0] {
        SplitHoldingSeparator(cells[0], sep);
      } else if exists i :: 0 <= i < |cells| && sep in cells[i] {
        var i :| 0 <= i < |cells| && sep in cells[i];
        assert cells[1..][i - 1] == cells[i];
      }
    }
  }

  /** As soon as one cell holds the separator, splitting the join no longer
      gives back the cells: it gives more pieces than there were cells. */
  lemma SplitJoinBreaks(cells: seq<string>, sep: char, i: nat)
    requires i < |cells| && sep in cells[i]
    ensures |Split(Join(cells, sep), sep)| > |cells|
    ensures Split(Join(cells, sep), sep) != cells
  {
    SplitJoinPieces(cells, sep);
    SplitEachLength(cells, sep);
  }
}
