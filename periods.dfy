/** The two `normalizeYYYYMM` helpers, which turn a `YYYY-M` query value
    into the canonical `YYYY-MM` stored in `PERIOD_ISO`. The one in
    api/stockhistory.js defaults a missing month to `01`; the one nested in
    api/stockview.js dereferences the missing month and throws. */
module Periods {
  import opened Wrappers
  import opened Strings
  import opened Http

  /** `normalizeYYYYMM` of api/stockhistory.js: `null` for a falsy input,
      otherwise the first `-`-separated piece, a `-`, and the second piece
      padded to two digits with `0`, or `01` when that piece is missing or
      empty. Pieces after the second are ignored. */
  function NormalizeHistory(str: Option<string>): (r: Option<string>)
    ensures r.None? <==> !Truthy(str)
  {
    if !Truthy(str) then None
    else
      var parts := Split(str.value, '-');
      var mm := if |parts| >= 2 && parts[1] != "" then PadStart(parts[1], 2, '0') else "01";
      Some(parts[0] + "-" + mm)
  }

  /** `normalizeYYYYMM` of api/stockview.js: `null` for a falsy input, a
      thrown `TypeError` when there is no second piece (`undefined.padStart`),
      otherwise the first piece, a `-`, and the second piece padded to two
      digits. */
  function NormalizeView(str: Option<string>): (r: Result<Option<string>, Exception>)
    ensures r == Success(None) <==> !Truthy(str)
    ensures r.Failure? <==> Truthy(str) && '-' !in str.value
  {
    if !Truthy(str) then Success(None)
    else
      var parts := Split(str.value, '-');
      SplitSize(str.value, '-');
      if |parts| < 2 then Failure(TypeError)
      else Success(Some(parts[0] + "-" + PadStart(parts[1], 2, '0')))
  }

  lemma SplitPeriod(year: string, month: string)
    requires '-' !in year && '-' !in month
    ensures Split(year + "-" + month, '-') == [year, month]
  {
    SplitAtSep(year, month, '-');
    SplitWhole(month, '-');
  }

  /** A month of one digit gets a leading `0`; a longer month is kept. */
  lemma {:induction false} HistoryPadsMonth(year: string, month: string)
    requires '-' !in year && '-' !in month && month != ""
    ensures |month| == 1 ==> NormalizeHistory(Some(year + "-" + month)) == Some(year + "-0" + month)
    ensures |month| >= 2 ==> NormalizeHistory(Some(year + "-" + month)) == Some(year + "-" + month)
  {
    SplitPeriod(year, month);
    var mm := PadStart(month, 2, '0');
    if |month| == 1 {
      assert mm == "0" + month;
      assert year + "-" + mm == year + "-0" + month;
    }
  }

  /** `"2022-7"` and `"2022-07"` both normalise to `"2022-07"`. */
  lemma HistoryExamples()
    ensures NormalizeHistory(Some("2022-7")) == Some("2022-07")
    ensures NormalizeHistory(Some("2022-07")) == Some("2022-07")
  {
    HistoryPadsMonth("2022", "7");
    HistoryPadsMonth("2022", "07");
    assert "2022-7" == "2022" + "-" + "7";
    assert "2022-07" == "2022" + "-" + "07" == "2022" + "-0" + "7";
  }

  /** Without a month, or with an empty one, the month defaults to `01`. */
  lemma {:induction false} HistoryDefaultsMonth(year: string)
    requires '-' !in year && year != ""
    ensures NormalizeHistory(Some(year)) == Some(year + "-01")
    ensures NormalizeHistory(Some(year + "-")) == Some(year + "-01")
  {
    SplitWhole(year, '-');
    SplitPeriod(year, "");
    assert year + "-" + "" == year + "-";
    assert year + "-" + "01" == year + "-01";
  }

  /** Only the first two pieces count: `"2022-7-15"` normalises like `"2022-7"`. */
  lemma {:induction false} HistoryIgnoresExtraPieces(year: string, month: string, rest: string)
    requires '-' !in year && '-' !in month
    ensures NormalizeHistory(Some(year + "-" + month + "-" + rest)) == NormalizeHistory(Some(year + "-" + month))
  {
    var long := year + "-" + month + "-" + rest;
    assert Split(long, '-')[..2] == [year, month] by {
      assert long == year + ['-'] + (month + ['-'] + rest);
      SplitAtSep(year, month + ['-'] + rest, '-');
      SplitAtSep(month, rest, '-');
    }
    assert Split(year + "-" + month, '-') == [year, month] by {
      SplitPeriod(year, month);
    }
  }

  /** The padded month never contains a `-` and has at least two characters. */
  lemma PadMonthShape(month: string)
    requires '-' !in month
    ensures '-' !in PadStart(month, 2, '0') && |PadStart(month, 2, '0')| >= 2
  {
    var mm := PadStart(month, 2, '0');
    var k := |mm| - |month|;
    forall i | 0 <= i < |mm|
      ensures mm[i] != '-'
    {
      if i >= k {
        assert mm[i] == mm[k..][i - k];
      }
    }
  }

  /** Normalising a normalised period changes nothing. */
  lemma {:induction false} HistoryIdempotent(str: Option<string>)
    ensures NormalizeHistory(NormalizeHistory(str)) == NormalizeHistory(str)
  {
    if Truthy(str) {
      var parts := Split(str.value, '-');
      var year := parts[0];
      var mm := if |parts| >= 2 && parts[1] != "" then PadStart(parts[1], 2, '0') else "01";
      if |parts| >= 2 && parts[1] != "" {
        PadMonthShape(parts[1]);
      }
      HistoryPadsMonth(year, mm);
    }
  }

  /** The two helpers compared on every input: both give `null` for a falsy
      value; without a `-` the stock-view helper throws where the
      stock-history one defaults the month to `01`; with an empty month
      piece they give `00` and `01`; otherwise they agree. */
  lemma {:induction false} ViewVersusHistory(str: Option<string>)
    ensures !Truthy(str) ==> NormalizeView(str) == Success(None) && NormalizeHistory(str) == None
    ensures Truthy(str) && '-' !in str.value ==>
              NormalizeView(str) == Failure(TypeError) && NormalizeHistory(str) == Some(str.value + "-01")
    ensures Truthy(str) && '-' in str.value ==>
              var parts := Split(str.value, '-');
              |parts| >= 2 &&
              (parts[1] != "" ==> NormalizeView(str) == Success(NormalizeHistory(str))) &&
              (parts[1] == "" ==> NormalizeView(str) == Success(Some(parts[0] + "-00"))
                                  && NormalizeHistory(str) == Some(parts[0] + "-01"))
  {
    if Truthy(str) {
      SplitSize(str.value, '-');
      if '-' !in str.value {
        HistoryDefaultsMonth(str.value);
      } else {
        var parts := Split(str.value, '-');
        if parts[1] == "" {
          assert PadStart(parts[1], 2, '0') == "00";
          assert parts[0] + "-" + "00" == parts[0] + "-00";
          assert parts[0] + "-" + "01" == parts[0] + "-01";
        }
      }
    }
  }

  /** `"2022-7"` normalises to `"2022-07"`; `"2022"` throws. */
  lemma ViewExamples()
    ensures NormalizeView(Some("2022-7")) == Success(Some("2022-07"))
    ensures NormalizeView(Some("2022")) == Failure(TypeError)
  {
    SplitPeriod("2022", "7");
    assert "2022-7" == "2022" + "-" + "7";
    assert PadStart("7", 2, '0') == "07";
    assert "2022" + "-" + "07" == "2022-07";
    assert '-' !in "2022";
  }

  /** Normalising what the stock-view helper returned changes nothing. */
  lemma {:induction false} ViewIdempotent(str: Option<string>)
    requires Truthy(str) && '-' in str.value
    ensures NormalizeView(str).Success? && NormalizeView(NormalizeView(str).value) == NormalizeView(str)
  {
    var parts := Split(str.value, '-');
    SplitSize(str.value, '-');
    var year, mm := parts[0], PadStart(parts[1], 2, '0');
    PadMonthShape(parts[1]);
    SplitPeriod(year, mm);
  }

  /** A canonical period: four year digits, `-`, two month digits. */
  predicate IsCanonical(p: string) {
    |p| == 7 && AllDigits(p[..4]) && p[4] == '-' && AllDigits(p[5..])
  }

  /** A well-formed query period: four year digits, `-`, one or two month digits. */
  predicate IsYearMonth(s: string) {
    |s| >= 6 && AllDigits(s[..4]) && s[4] == '-' && 1 <= |s[5..]| <= 2 && AllDigits(s[5..])
  }

  /** Every well-formed query period normalises to a canonical one with
      the same year and month. */
  lemma HistoryCanonical(s: string)
    requires IsYearMonth(s)
    ensures NormalizeHistory(Some(s)).Some?
    ensures IsCanonical(NormalizeHistory(Some(s)).value)
    ensures MonthIndex(NormalizeHistory(Some(s)).value) == QueryMonth(s)
  {
    var year, month := s[..4], s[5..];
    assert s == year + "-" + month;
    assert '-' !in year && '-' !in month by {
      assert forall i :: 0 <= i < |year| ==> IsDigit(year[i]);
      assert forall i :: 0 <= i < |month| ==> IsDigit(month[i]);
    }
    HistoryPadsMonth(year, month);
    var p := NormalizeHistory(Some(s)).value;
    if |month| == 1 {
      assert p == year + "-0" + month;
      PadOneDigit(year, month);
    } else {
      assert p == s;
    }
  }

  lemma PadOneDigit(year: string, month: string)
    requires |year| == 4 && AllDigits(year) && |month| == 1 && AllDigits(month)
    ensures var p := year + "-0" + month;
      IsCanonical(p) && p[..4] == year && Value(p[5..]) == Value(month)
  {
    var p := year + "-0" + month;
    assert p[..4] == year;
    var m := p[5..];
    assert m == "0" + month;
    assert m[..1] == "0" && m[..1][..0] == [];
    assert month[..0] == [];
  }

  /** The month a canonical period denotes, counted as year * 100 + month. */
  function MonthIndex(p: string): nat
    requires IsCanonical(p)
  {
    Value(p[..4]) * 100 + Value(p[5..])
  }

  /** The month a well-formed query period denotes. */
  function QueryMonth(s: string): nat
    requires IsYearMonth(s)
  {
    Value(s[..4]) * 100 + Value(s[5..])
  }

  /** Canonical periods sort as strings exactly as they sort in time, which
      is what makes the `$gte`/`$lte` string range a range of months. */
  lemma PeriodOrderIsChronological(a: string, b: string)
    requires IsCanonical(a) && IsCanonical(b)
    ensures Le(a, b) <==> MonthIndex(a) <= MonthIndex(b)
  {
    assert a == a[..4] + ['-'] + a[5..];
    assert b == b[..4] + ['-'] + b[5..];
    LtField(a[..4], a[5..], b[..4], b[5..], '-');
    LtDigits(a[5..], b[5..]);
    TwoDigitBound(a[5..]);
    TwoDigitBound(b[5..]);
  }

  lemma TwoDigitBound(m: string)
    requires |m| == 2 && AllDigits(m)
    ensures Value(m) < 100
  {
    var first := m[..1];
    assert AllDigits(first) && first[..0] == [];
    assert Value(first) == DigitValue(m[0]);
  }

  /** Two canonical periods are equal exactly when they denote the same
      month. */
  lemma SameMonthIsSamePeriod(a: string, b: string)
    requires IsCanonical(a) && IsCanonical(b)
    ensures a == b <==> MonthIndex(a) == MonthIndex(b)
  {
    PeriodOrderIsChronological(a, b);
    PeriodOrderIsChronological(b, a);
    if Lt(a, b) {
      LtAsymmetric(a, b);
    }
  }
}
