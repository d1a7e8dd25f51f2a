/** The JavaScript string operations the handlers rely on: `split` on a
    one-character separator, `padStart` and ASCII `toLowerCase`; and the
    code-point order in which the database compares strings. */
module Strings {

  /** `s.split(sep)` for a one-character separator. */
  function Split(s: string, sep: char): (parts: seq<string>)
    ensures |parts| >= 1
    ensures forall i :: 0 <= i < |parts| ==> sep !in parts[i]
    decreases |s|
  {
    if s == [] then [""]
    else
      var rest := Split(s[1..], sep);
      if s[0] == sep then [""] + rest
      else [[s[0]] + rest[0]] + rest[1..]
  }

  /** `parts.join(sep)`, the inverse of `Split`. */
  function Join(parts: seq<string>, sep: char): string
    requires |parts| >= 1
  {
    if |parts| == 1 then parts[0] else parts[0] + [sep] + Join(parts[1..], sep)
  }

  lemma JoinConsHead(c: char, parts: seq<string>, sep: char)
    requires |parts| >= 1
    ensures Join([[c] + parts[0]] + parts[1..], sep) == [c] + Join(parts, sep)
  {
    var ps := [[c] + parts[0]] + parts[1..];
    assert ps[1..] == parts[1..];
  }

  /** Joining the pieces of a split gives back the original string. */
  lemma {:induction false} JoinSplit(s: string, sep: char)
    ensures Join(Split(s, sep), sep) == s
    decreases |s|
  {
    if s != [] {
      var rest := Split(s[1..], sep);
      JoinSplit(s[1..], sep);
      if s[0] == sep {
        assert ([""] + rest)[1..] == rest;
        assert s == [sep] + s[1..];
      } else {
        JoinConsHead(s[0], rest, sep);
        assert s == [s[0]] + s[1..];
      }
    }
  }

  lemma {:induction false} SplitNoSep(w: string, t: string, sep: char)
    requires sep !in w
    ensures Split(w + t, sep) == [w + Split(t, sep)[0]] + Split(t, sep)[1..]
    decreases |w|
  {
    if w == [] {
      var parts := Split(t, sep);
      assert w + t == t && w + parts[0] == parts[0];
      assert parts == [parts[0]] + parts[1..];
    } else {
      var wt := w + t;
      assert wt[0] == w[0] && wt[1..] == w[1..] + t;
      SplitNoSep(w[1..], t, sep);
      assert [w[0]] + (w[1..] + Split(t, sep)[0]) == w + Split(t, sep)[0];
    }
  }

  /** Splitting pieces that do not contain the separator, once joined,
      gives back exactly those pieces. */
  lemma {:induction false} SplitJoin(parts: seq<string>, sep: char)
    requires |parts| >= 1
    requires forall i :: 0 <= i < |parts| ==> sep !in parts[i]
    ensures Split(Join(parts, sep), sep) == parts
  {
    if |parts| == 1 {
      SplitNoSep(parts[0], "", sep);
      assert parts[0] + "" == parts[0];
      assert parts == [parts[0]];
    } else {
      var tail := Join(parts[1..], sep);
      SplitJoin(parts[1..], sep);
      var t := [sep] + tail;
      assert Split(t, sep) == [""] + Split(tail, sep) by {
        assert t[0] == sep && t[1..] == tail;
      }
      SplitNoSep(parts[0], t, sep);
      assert parts[0] + [sep] + tail == parts[0] + t;
      assert parts[0] + "" == parts[0];
      assert parts == [parts[0]] + parts[1..];
    }
  }

  /** A string without the separator splits into itself. */
  lemma SplitWhole(s: string, sep: char)
    requires sep !in s
    ensures Split(s, sep) == [s]
  {
    SplitJoin([s], sep);
  }

  /** A string splits into two or more pieces exactly when it contains the
      separator. */
  lemma SplitSize(s: string, sep: char)
    ensures |Split(s, sep)| >= 2 <==> sep in s
  {
    if sep !in s {
      SplitWhole(s, sep);
    } else if |Split(s, sep)| == 1 {
      JoinSplit(s, sep);
    }
  }

  /** Splitting at the first separator: the piece before it, then the split
      of the rest. */
  lemma SplitAtSep(w: string, t: string, sep: char)
    requires sep !in w
    ensures Split(w + [sep] + t, sep) == [w] + Split(t, sep)
  {
    var st := [sep] + t;
    assert st[0] == sep && st[1..] == t;
    assert Split(st, sep) == [""] + Split(t, sep);
    SplitNoSep(w, st, sep);
    assert w + [sep] + t == w + st;
    assert w + "" == w;
  }

  /** A join of pieces whose last piece is non-empty ends with that
      piece's last character. */
  lemma {:induction false} JoinLast(parts: seq<string>, sep: char)
    requires |parts| >= 1 && parts[|parts| - 1] != ""
    ensures var j := Join(parts, sep); |j| > 0 && j[|j| - 1] == parts[|parts| - 1][|parts[|parts| - 1]| - 1]
  {
    if |parts| > 1 {
      JoinLast(parts[1..], sep);
    }
  }

  /** `s.padStart(n, c)`: `s` preceded by enough copies of `c` to reach
      length `n`; unchanged when `s` is already that long. */
  function PadStart(s: string, n: nat, c: char): (r: string)
    ensures |r| == if |s| >= n then |s| else n
    ensures r[|r| - |s|..] == s
    ensures forall i :: 0 <= i < |r| - |s| ==> r[i] == c
    decreases n
  {
    if |s| >= n then s else [c] + PadStart(s, n - 1, c)
  }

  /** ASCII `toLowerCase` of one character. */
  function LowerChar(c: char): char {
    if 'A' <= c <= 'Z' then (c as int + 32) as char else c
  }

  /** `s.toLowerCase()`, restricted to ASCII letters: each upper-case ASCII
      letter becomes its lower-case letter, none is left, and every other
      character stays where it is. */
  function LowerAscii(s: string): (r: string)
    ensures |r| == |s|
    ensures forall i :: 0 <= i < |r| ==> !('A' <= r[i] <= 'Z')
    ensures forall i :: 0 <= i < |s| && !('A' <= s[i] <= 'Z') ==> r[i] == s[i]
    ensures forall i :: 0 <= i < |s| && 'A' <= s[i] <= 'Z' ==> r[i] as int == s[i] as int + 32
  {
    seq(|s|, i requires 0 <= i < |s| => LowerChar(s[i]))
  }

  /** Strict lexicographic order on code points: the order of the
      database's binary comparison of UTF-8 strings. A proper prefix comes
      first. */
  predicate Lt(a: string, b: string)
    decreases |a|
  {
    if b == [] then false
    else if a == [] then true
    else a[0] < b[0] || (a[0] == b[0] && Lt(a[1..], b[1..]))
  }

  predicate Le(a: string, b: string) {
    a == b || Lt(a, b)
  }

  lemma {:induction false} LtIrreflexive(a: string)
    ensures !Lt(a, a)
    decreases |a|
  {
    if a != [] {
      LtIrreflexive(a[1..]);
    }
  }

  lemma {:induction false} LtTransitive(a: string, b: string, c: string)
    requires Lt(a, b) && Lt(b, c)
    ensures Lt(a, c)
    decreases |a|
  {
    if a != [] && a[0] == b[0] && b[0] == c[0] {
      LtTransitive(a[1..], b[1..], c[1..]);
    }
  }

  lemma {:induction false} LtTotal(a: string, b: string)
    ensures a == b || Lt(a, b) || Lt(b, a)
    decreases |a|
  {
    if a != [] && b != [] && a[0] == b[0] {
      LtTotal(a[1..], b[1..]);
      if a[1..] == b[1..] {
        assert a == [a[0]] + a[1..] && b == [b[0]] + b[1..];
      }
    }
  }

  lemma LtAsymmetric(a: string, b: string)
    requires Lt(a, b)
    ensures !Lt(b, a) && a != b
  {
    LtIrreflexive(a);
    if Lt(b, a) {
      LtTransitive(a, b, a);
    }
  }

  /** Comparing two concatenations whose first parts have the same length
      compares the first parts, and the second parts only on a tie. */
  lemma {:induction false} LtConcat(x1: string, y1: string, x2: string, y2: string)
    requires |x1| == |x2|
    ensures Lt(x1 + y1, x2 + y2) <==> Lt(x1, x2) || (x1 == x2 && Lt(y1, y2))
    decreases |x1|
  {
    if x1 == [] {
      assert x1 + y1 == y1 && x2 + y2 == y2;
    } else {
      var a, b := x1 + y1, x2 + y2;
      assert a[0] == x1[0] && a[1..] == x1[1..] + y1;
      assert b[0] == x2[0] && b[1..] == x2[1..] + y2;
      LtConcat(x1[1..], y1, x2[1..], y2);
      assert x1 == x2 <==> x1[0] == x2[0] && x1[1..] == x2[1..] by {
        assert x1 == [x1[0]] + x1[1..] && x2 == [x2[0]] + x2[1..];
      }
      LtIrreflexive(x1[1..]);
    }
  }

  predicate IsDigit(c: char) {
    '0' <= c <= '9'
  }

  predicate AllDigits(s: string) {
    forall i :: 0 <= i < |s| ==> IsDigit(s[i])
  }

  function DigitValue(c: char): nat
    requires IsDigit(c)
  {
    c as int - '0' as int
  }

  /** The number a string of decimal digits denotes. */
  function Value(s: string): nat
    requires AllDigits(s)
  {
    if s == [] then 0 else Value(s[..|s| - 1]) * 10 + DigitValue(s[|s| - 1])
  }

  /** On digit strings of equal length the lexicographic order is the
      numeric order. */
  lemma {:induction false} LtDigits(a: string, b: string)
    requires |a| == |b| && AllDigits(a) && AllDigits(b)
    ensures Lt(a, b) <==> Value(a) < Value(b)
    decreases |a|
  {
    if a != [] {
      var n := |a|;
      var ia, ib := a[..n - 1], b[..n - 1];
      assert a == ia + [a[n - 1]] && b == ib + [b[n - 1]];
      LtConcat(ia, [a[n - 1]], ib, [b[n - 1]]);
      LtDigits(ia, ib);
      LtDigits(ib, ia);
      LtTotal(ia, ib);
      assert Lt([a[n - 1]], [b[n - 1]]) <==> a[n - 1] < b[n - 1];
    }
  }

  /** Equal-length digit strings with the same value are equal. */
  lemma DigitsInjective(a: string, b: string)
    requires |a| == |b| && AllDigits(a) && AllDigits(b)
    requires Value(a) == Value(b)
    ensures a == b
  {
    LtTotal(a, b);
    LtDigits(a, b);
    LtDigits(b, a);
  }

  /** Strings made of a digit field, a separator and a tail, with fields of
      equal length, compare by the field's value first and the tail second. */
  lemma LtField(x1: string, y1: string, x2: string, y2: string, c: char)
    requires |x1| == |x2| && AllDigits(x1) && AllDigits(x2)
    ensures Lt(x1 + [c] + y1, x2 + [c] + y2) <==>
              Value(x1) < Value(x2) || (Value(x1) == Value(x2) && Lt(y1, y2))
    ensures x1 + [c] + y1 == x2 + [c] + y2 <==> Value(x1) == Value(x2) && y1 == y2
  {
    assert x1 + [c] + y1 == x1 + ([c] + y1);
    assert x2 + [c] + y2 == x2 + ([c] + y2);
    LtConcat(x1, [c] + y1, x2, [c] + y2);
    LtConcat([c], y1, [c], y2);
    LtIrreflexive([c]);
    LtDigits(x1, x2);
    LtDigits(x2, x1);
    LtTotal(x1, x2);
    if x1 + [c] + y1 == x2 + [c] + y2 {
      assert (x1 + [c] + y1)[..|x1|] == x1;
      assert (x1 + [c] + y1)[|x1| + 1..] == y1;
    }
  }
}
