/** Reference numbers such as UZM-INV-2026-000123 (src/common/utils/reference-number.util.ts). */
module References {
  import opened Prelude
  import opened Decimal

  datatype Prefix = INV | PAY | ORD | BKG | BKG_PAY | QUO | FLT

  function PrefixText(p: Prefix): string {
    match p
    case INV => "UZM-INV"
    case PAY => "UZM-PAY"
    case ORD => "UZM-ORD"
    case BKG => "UZM-BKG"
    case BKG_PAY => "UZM-BKG-PAY"
    case QUO => "UZM-QUO"
    case FLT => "UZM-FLT"
  }

  function Base(p: Prefix, year: nat): string {
    PrefixText(p) + "-" + Digits(year) + "-"
  }

  function Reference(base: string, n: int): string {
    base + PadStart(IntText(n), 6)
  }

  /** findFirst where the column starts with base, ordered by the column, descending. */
  function Latest(rows: seq<string>, base: string): Option<string> {
    if rows == [] then None
    else
      var before, row := Latest(rows[..|rows| - 1], base), rows[|rows| - 1];
      if base <= row && (before.None? || LexLess(before.value, row)) then Some(row) else before
  }

  lemma {:induction false} LatestIsARow(rows: seq<string>, base: string)
    ensures var m := Latest(rows, base); m.Some? ==> m.value in rows && base <= m.value
  {
    if rows != [] {
      LatestIsARow(rows[..|rows| - 1], base);
    }
  }

  /** The next reference of a base, given the rows of the prefix's own column. */
  function Next(rows: seq<string>, base: string): string {
    LatestIsARow(rows, base);
    var lastSeq := match Latest(rows, base)
      case None => Some(0)
      case Some(value) => ParseInt(value[|base|..]);
    Reference(base, lastSeq.GetOr(0) + 1)
  }

  /** generateReferenceNumber. */
  function Generate(rows: seq<string>, p: Prefix, year: nat): string {
    Next(rows, Base(p, year))
  }

  // ----- while the numbers have six digits -----

  const LIMIT: nat := 1_000_000

  ghost predicate CarriesNumber(row: string, base: string, top: nat) {
    exists n :: 1 <= n <= top && row == Reference(base, n)
  }

  /** Every row of this prefix and year carries a number from 1 to top; other rows are free. */
  ghost predicate NumberedUpTo(rows: seq<string>, base: string, top: nat) {
    forall row :: row in rows && base <= row ==> CarriesNumber(row, base, top)
  }

  /** The largest number in use is m; m == 0 means none is. */
  ghost predicate Largest(rows: seq<string>, base: string, m: nat) {
    && NumberedUpTo(rows, base, m)
    && (m > 0 ==> Reference(base, m) in rows)
  }

  lemma {:induction false} ReferenceInjective(base: string, a: nat, b: nat)
    requires Reference(base, a) == Reference(base, b)
    ensures a == b
  {
    assert Reference(base, a)[|base|..] == PadStart(Digits(a), 6);
    assert Reference(base, b)[|base|..] == PadStart(Digits(b), 6);
    ParseUndoesPadding(a);
    ParseUndoesPadding(b);
  }

  lemma {:induction false} SixDigitsBelowLimit()
    ensures Pow10(6) == LIMIT
  {
    assert Pow10(1) == 10 && Pow10(2) == 100 && Pow10(3) == 1000;
    assert Pow10(4) == 10_000 && Pow10(5) == 100_000;
  }

  /** Up to 999999, text order on references is numeric order. */
  lemma {:induction false} ReferenceOrder(base: string, a: nat, b: nat)
    requires a < LIMIT && b < LIMIT
    ensures LexLess(Reference(base, a), Reference(base, b)) <==> a < b
  {
    SixDigitsBelowLimit();
    PaddedIsFixed(a, 6);
    PaddedIsFixed(b, 6);
    LexAfterPrefix(base, Fixed(a, 6), Fixed(b, 6));
    if a < b {
      FixedOrder(a, b, 6);
    } else if b < a {
      FixedOrder(b, a, 6);
      LexAsymmetric(Fixed(b, 6), Fixed(a, 6));
    } else if LexLess(Fixed(a, 6), Fixed(b, 6)) {
      LexAsymmetric(Fixed(a, 6), Fixed(b, 6));
    }
  }

  /** A row that sorts above all others of its base is the latest. */
  lemma {:induction false} GreatestIsLatest(rows: seq<string>, base: string, x: string)
    requires x in rows && base <= x
    requires forall r :: r in rows && base <= r && r != x ==> LexLess(r, x)
    ensures Latest(rows, base) == Some(x)
  {
    var init, row := rows[..|rows| - 1], rows[|rows| - 1];
    assert rows == init + [row];
    LatestIsARow(init, base);
    if x in init {
      GreatestIsLatest(init, base, x);
      if base <= row && LexLess(x, row) {
        LexAsymmetric(x, row);
        LexAsymmetric(row, x);
      }
    }
  }

  lemma {:induction false} NoLatest(rows: seq<string>, base: string)
    requires NumberedUpTo(rows, base, 0)
    ensures Latest(rows, base) == None
  {
    if rows != [] {
      var init := rows[..|rows| - 1];
      assert forall r :: r in init ==> r in rows;
      assert rows[|rows| - 1] in rows;
      NoLatest(init, base);
    }
  }

  /** The text-descending first row carries the numeric maximum. */
  lemma {:induction false} LatestIsNumericMaximum(rows: seq<string>, base: string, m: nat)
    requires m < LIMIT && Largest(rows, base, m)
    ensures Latest(rows, base) == if m == 0 then None else Some(Reference(base, m))
  {
    if m == 0 {
      NoLatest(rows, base);
    } else {
      var x := Reference(base, m);
      forall r | r in rows && base <= r && r != x ensures LexLess(r, x) {
        var n :| 1 <= n <= m && r == Reference(base, n);
        ReferenceOrder(base, n, m);
      }
      GreatestIsLatest(rows, base, x);
    }
  }

  /** A column with numbers up to top has a largest one. */
  lemma {:induction false} LargestExists(rows: seq<string>, base: string, top: nat) returns (m: nat)
    requires NumberedUpTo(rows, base, top)
    ensures m <= top && Largest(rows, base, m)
  {
    if top == 0 || Reference(base, top) in rows {
      m := top;
    } else {
      forall row | row in rows && base <= row ensures CarriesNumber(row, base, top - 1) {
        assert CarriesNumber(row, base, top);
      }
      m := LargestExists(rows, base, top - 1);
    }
  }

  /** A reference of one year never starts with the base of another. */
  lemma {:induction false} YearsApart(p: Prefix, year: nat, other: nat, n: nat)
    requires Base(p, year) <= Reference(Base(p, other), n)
    ensures year == other
  {
    var text, a, b := PrefixText(p) + "-", Digits(year), Digits(other);
    var row := Reference(Base(p, other), n);
    assert Base(p, year) == text + a + "-" && row == text + b + "-" + PadStart(Digits(n), 6);
    ValueOfDigits(year);
    ValueOfDigits(other);
    DashAt(text, a, b, PadStart(Digits(n), 6));
    DigitsInjective(year, other);
  }

  lemma {:induction false} DashAt(text: string, a: string, b: string, rest: string)
    requires AllDigits(a) && AllDigits(b) && text + a + "-" <= text + b + "-" + rest
    ensures a == b
  {
    var left, right := text + a + "-", text + b + "-" + rest;
    assert forall i :: 0 <= i < |a| ==> left[|text| + i] == a[i];
    assert forall i :: 0 <= i < |b| ==> right[|text| + i] == b[i];
    assert left[|text| + |a|] == '-' && right[|text| + |b|] == '-';
    assert forall i :: 0 <= i < |left| ==> left[i] == right[i];
    assert |a| == |b|;
    forall i | 0 <= i < |a| ensures a[i] == b[i] {
      assert left[|text| + i] == right[|text| + i];
    }
  }

  lemma {:induction false} ParsedSuffix(base: string, n: nat)
    ensures base <= Reference(base, n) && ParseInt(Reference(base, n)[|base|..]) == Some(n)
  {
    assert Reference(base, n)[|base|..] == PadStart(Digits(n), 6);
    ParseUndoesPadding(n);
  }

  /** The issued reference carries the next number, which no row of the column has yet. */
  lemma {:induction false} IssuedIsNext(rows: seq<string>, base: string, m: nat)
    requires m < LIMIT && Largest(rows, base, m)
    ensures Next(rows, base) == Reference(base, m + 1)
    ensures Next(rows, base) !in rows
  {
    LatestIsNumericMaximum(rows, base, m);
    ParsedSuffix(base, m);
    ParsedSuffix(base, m + 1);
    if Reference(base, m + 1) in rows {
      var n :| 1 <= n <= m && Reference(base, m + 1) == Reference(base, n);
      ReferenceInjective(base, m + 1, n);
    }
  }

  // ----- a run of issues -----

  /** A column after k references were issued, each stored before the next is asked for. */
  function Issue(rows: seq<string>, next: seq<string> -> string, k: nat): seq<string>
    decreases k
  {
    if k == 0 then rows else Issue(rows + [next(rows)], next, k - 1)
  }

  function Generator(base: string): seq<string> -> string {
    rows => Next(rows, base)
  }

  /** The issuing function hands out the number after the largest, up to the limit. */
  ghost predicate Counts(next: seq<string> -> string, base: string) {
    forall rows, n: nat :: n < LIMIT && Largest(rows, base, n) ==>
      next(rows) == Reference(base, n + 1) && next(rows) !in rows
  }

  lemma {:induction false} GeneratorCounts(base: string)
    ensures Counts(Generator(base), base)
  {
    forall rows, n: nat | n < LIMIT && Largest(rows, base, n)
      ensures Generator(base)(rows) == Reference(base, n + 1) && Generator(base)(rows) !in rows
    {
      IssuedIsNext(rows, base, n);
    }
  }

  lemma {:induction false} StoreNext(before: seq<string>, base: string, n: nat)
    requires Largest(before, base, n)
    ensures Largest(before + [Reference(base, n + 1)], base, n + 1)
  {
    var g := Reference(base, n + 1);
    forall row | row in before + [g] && base <= row ensures CarriesNumber(row, base, n + 1) {
      if row != g {
        assert CarriesNumber(row, base, n);
      }
    }
  }

  /** m + k is the largest number after k issues. */
  lemma {:induction false} RunBelowLimit(rows: seq<string>, next: seq<string> -> string, base: string, m: nat, k: nat)
    requires Counts(next, base) && Largest(rows, base, m) && m + k <= LIMIT
    ensures Largest(Issue(rows, next, k), base, m + k)
    decreases k
  {
    if k > 0 {
      CountsAt(next, base, rows, m);
      StoreNext(rows, base, m);
      RunBelowLimit(rows + [next(rows)], next, base, m + 1, k - 1);
    }
  }

  lemma {:induction false} IssueSnoc(rows: seq<string>, next: seq<string> -> string, k: nat)
    ensures Issue(rows, next, k + 1) == Issue(rows, next, k) + [next(Issue(rows, next, k))]
    decreases k
  {
    if k > 0 {
      IssueSnoc(rows + [next(rows)], next, k - 1);
    }
  }

  lemma {:induction false} SevenDigitText()
    ensures Digits(1_000_000) == "1000000"
  {
    assert Digits(1) == "1" && Digits(10) == "10" && Digits(100) == "100" && Digits(1000) == "1000";
    assert Digits(10_000) == "10000" && Digits(100_000) == "100000";
  }

  lemma {:induction false} SixDigitText()
    ensures Digits(999_999) == "999999"
  {
    assert Digits(9) == "9" && Digits(99) == "99" && Digits(999) == "999" && Digits(9999) == "9999";
    assert Digits(99_999) == "99999";
  }

  lemma {:induction false} OneSortsBelowNine(base: string, low: string, high: string)
    requires low != "" && high != "" && low[0] < high[0]
    ensures LexLess(base + low, base + high)
  {
    LexAfterPrefix(base, low, high);
  }

  /** Seven digits sort below 999999, so past the limit the same reference comes again. */
  lemma {:induction false} SevenDigitsSortLow(base: string)
    ensures LexLess(Reference(base, LIMIT), Reference(base, LIMIT - 1))
  {
    SevenDigitText();
    SixDigitText();
    OneSortsBelowNine(base, "1000000", "999999");
  }

  /** The numbers up to last + 1 are in use, the top two among them. */
  ghost predicate Exhausted(rows: seq<string>, base: string, last: nat) {
    && NumberedUpTo(rows, base, last + 1)
    && Reference(base, last + 1) in rows && Reference(base, last) in rows
  }

  lemma {:induction false} LastSortsHighest(rows: seq<string>, base: string, last: nat, r: string)
    requires last < LIMIT && LexLess(Reference(base, last + 1), Reference(base, last))
    requires NumberedUpTo(rows, base, last + 1)
    requires r in rows && base <= r && r != Reference(base, last)
    ensures LexLess(r, Reference(base, last))
  {
    var n :| 1 <= n <= last + 1 && r == Reference(base, n);
    if n <= last {
      ReferenceOrder(base, n, last);
    }
  }

  lemma {:induction false} Stuck(rows: seq<string>, base: string, last: nat)
    requires last < LIMIT && LexLess(Reference(base, last + 1), Reference(base, last))
    requires Exhausted(rows, base, last)
    ensures Next(rows, base) == Reference(base, last + 1)
  {
    forall r | r in rows && base <= r && r != Reference(base, last) ensures LexLess(r, Reference(base, last)) {
      LastSortsHighest(rows, base, last, r);
    }
    ParsedSuffix(base, last);
    GreatestIsLatest(rows, base, Reference(base, last));
  }

  /** None of the k issues returns a reference that the column already holds. */
  ghost predicate NeverRepeats(rows: seq<string>, next: seq<string> -> string, k: nat) {
    forall j: nat :: j < k ==> next(Issue(rows, next, j)) !in Issue(rows, next, j)
  }

  lemma {:induction false} StepToLimit(before: seq<string>, g: string, base: string, n: nat)
    requires 0 < n && Largest(before, base, n) && g == Reference(base, n + 1)
    ensures Exhausted(before + [g], base, n)
  {
    StoreNext(before, base, n);
    assert Reference(base, n) in before;
  }

  lemma {:induction false} CountsAt(next: seq<string> -> string, base: string, rows: seq<string>, n: nat)
    requires Counts(next, base) && n < LIMIT && Largest(rows, base, n)
    ensures next(rows) == Reference(base, n + 1) && next(rows) !in rows
  {
  }

  lemma {:induction false} RunReachesLimit(
    rows: seq<string>, next: seq<string> -> string, base: string, m: nat, k: nat, n: nat)
    requires Counts(next, base) && Largest(rows, base, m) && 0 < n == m + k < LIMIT
    ensures Exhausted(Issue(rows, next, k + 1), base, n)
  {
    var before := Issue(rows, next, k);
    RunBelowLimit(rows, next, base, m, k);
    CountsAt(next, base, before, n);
    StepToLimit(before, next(before), base, n);
    IssueSnoc(rows, next, k);
  }

  lemma {:induction false} FreshUpToLimit(
    rows: seq<string>, next: seq<string> -> string, base: string, m: nat, k: nat)
    requires Counts(next, base) && Largest(rows, base, m) && m + k <= LIMIT
    ensures NeverRepeats(rows, next, k)
  {
    forall j: nat | j < k ensures next(Issue(rows, next, j)) !in Issue(rows, next, j) {
      RunBelowLimit(rows, next, base, m, j);
    }
  }

  lemma {:induction false} RepeatsPastLimit(rows: seq<string>, base: string, m: nat, k: nat)
    requires m < LIMIT && Largest(rows, base, m) && m + k > LIMIT
    ensures !NeverRepeats(rows, Generator(base), k)
  {
    GeneratorCounts(base);
    RunReachesLimit(rows, Generator(base), base, m, LIMIT - 1 - m, LIMIT - 1);
    StuckGenerator(Issue(rows, Generator(base), LIMIT - m), base);
  }

  lemma {:induction false} StuckGenerator(rows: seq<string>, base: string)
    requires Exhausted(rows, base, LIMIT - 1)
    ensures Generator(base)(rows) in rows
  {
    SevenDigitsSortLow(base);
    Stuck(rows, base, LIMIT - 1);
  }

  /** A sequential run of k issues never repeats a reference exactly while its last number
      stays within 1000000. */
  lemma {:induction false} NeverRepeatsIff(rows: seq<string>, base: string, m: nat, k: nat)
    requires m < LIMIT && Largest(rows, base, m)
    ensures NeverRepeats(rows, Generator(base), k) <==> m + k <= LIMIT
  {
    if m + k <= LIMIT {
      GeneratorCounts(base);
      FreshUpToLimit(rows, Generator(base), base, m, k);
    } else {
      RepeatsPastLimit(rows, base, m, k);
    }
  }

  // ----- one column, several years -----

  ghost predicate IsIssued(row: string, p: Prefix, top: nat) {
    exists year: nat, n: nat :: 1 <= n <= top && row == Reference(Base(p, year), n)
  }

  /** The rows are references of the prefix, of any years, with numbers up to top. */
  ghost predicate ColumnOf(rows: seq<string>, p: Prefix, top: nat) {
    forall row :: row in rows ==> IsIssued(row, p, top)
  }

  lemma {:induction false} YearIsNumbered(rows: seq<string>, p: Prefix, year: nat, top: nat)
    requires ColumnOf(rows, p, top)
    ensures NumberedUpTo(rows, Base(p, year), top)
  {
    forall row | row in rows && Base(p, year) <= row ensures CarriesNumber(row, Base(p, year), top) {
      assert IsIssued(row, p, top);
      var other: nat, n: nat :| 1 <= n <= top && row == Reference(Base(p, other), n);
      YearsApart(p, year, other, n);
    }
  }

  /** While no number is above 999999, the reference generated for a year carries the year's
      largest number plus one, and the column, of whatever years, does not hold it yet. */
  lemma {:induction false} GeneratedIsNextOfYear(rows: seq<string>, p: Prefix, year: nat, top: nat) returns (m: nat)
    requires ColumnOf(rows, p, top) && top < LIMIT
    ensures m <= top && Largest(rows, Base(p, year), m)
    ensures Generate(rows, p, year) == Reference(Base(p, year), m + 1)
    ensures Generate(rows, p, year) !in rows
  {
    YearIsNumbered(rows, p, year, top);
    m := LargestExists(rows, Base(p, year), top);
    IssuedIsNext(rows, Base(p, year), m);
  }

  /** The column after a reference was generated and stored for each of the years in turn. */
  function IssueFor(p: Prefix, years: seq<nat>): seq<string> {
    if years == [] then []
    else
      var rows := IssueFor(p, years[..|years| - 1]);
      rows + [Generate(rows, p, years[|years| - 1])]
  }

  /** c references of the year were issued, numbered from 1. */
  ghost predicate Numbered(rows: seq<string>, base: string, c: nat) {
    Largest(rows, base, c) && (c >= 2 ==> Reference(base, c - 1) in rows)
  }

  /** How many of the issues were for the year. */
  function IssuesOf(years: seq<nat>, year: nat): nat {
    if years == [] then 0
    else IssuesOf(years[..|years| - 1], year) + if years[|years| - 1] == year then 1 else 0
  }

  lemma {:induction false} IssuesOneMore(before: seq<nat>, year: nat, other: nat)
    ensures IssuesOf(before + [year], other) == IssuesOf(before, other) + if year == other then 1 else 0
  {
    assert (before + [year])[..|before|] == before;
  }

  ghost predicate NumberedByYear(rows: seq<string>, p: Prefix, years: seq<nat>) {
    forall year: nat :: Numbered(rows, Base(p, year), IssuesOf(years, year))
  }

  lemma {:induction false} OneMoreOfYear(rows: seq<string>, p: Prefix, year: nat, c: nat)
    requires Numbered(rows, Base(p, year), c) && c < LIMIT
    ensures Generate(rows, p, year) == Reference(Base(p, year), c + 1)
    ensures Generate(rows, p, year) !in rows
    ensures Numbered(rows + [Generate(rows, p, year)], Base(p, year), c + 1)
  {
    IssuedIsNext(rows, Base(p, year), c);
    StoreNext(rows, Base(p, year), c);
  }

  lemma {:induction false} OtherYearUntouched(rows: seq<string>, p: Prefix, year: nat, n: nat, other: nat, c: nat)
    requires other != year && Numbered(rows, Base(p, other), c)
    ensures Numbered(rows + [Reference(Base(p, year), n)], Base(p, other), c)
  {
    var g := Reference(Base(p, year), n);
    if Base(p, other) <= g {
      YearsApart(p, other, year, n);
    }
    forall row | row in rows + [g] && Base(p, other) <= row ensures CarriesNumber(row, Base(p, other), c) {
      assert row in rows;
    }
  }

  lemma {:induction false} OneMoreYear(rows: seq<string>, p: Prefix, before: seq<nat>, year: nat)
    requires NumberedByYear(rows, p, before) && IssuesOf(before, year) < LIMIT
    ensures Generate(rows, p, year) !in rows
    ensures NumberedByYear(rows + [Generate(rows, p, year)], p, before + [year])
  {
    var c := IssuesOf(before, year);
    OneMoreOfYear(rows, p, year, c);
    forall other: nat
      ensures Numbered(rows + [Generate(rows, p, year)], Base(p, other), IssuesOf(before + [year], other))
    {
      IssuesOneMore(before, year, other);
      if other != year {
        OtherYearUntouched(rows, p, year, c + 1, other, IssuesOf(before, other));
      }
    }
  }

  lemma {:induction false} YearExhausted(rows: seq<string>, p: Prefix, year: nat)
    requires Numbered(rows, Base(p, year), LIMIT)
    ensures Generate(rows, p, year) in rows
  {
    SevenDigitsSortLow(Base(p, year));
    Stuck(rows, Base(p, year), LIMIT - 1);
  }

  predicate AllDifferent(rows: seq<string>) {
    forall i, j :: 0 <= i < j < |rows| ==> rows[i] != rows[j]
  }

  ghost predicate YearsFit(years: seq<nat>) {
    forall year: nat :: IssuesOf(years, year) <= LIMIT
  }

  lemma {:induction false} FitsOneMore(before: seq<nat>, year: nat)
    ensures YearsFit(before + [year]) <==> YearsFit(before) && IssuesOf(before, year) < LIMIT
  {
    forall other: nat
      ensures IssuesOf(before + [year], other) == IssuesOf(before, other) + if year == other then 1 else 0
    {
      IssuesOneMore(before, year, other);
    }
    if YearsFit(before + [year]) {
      forall other: nat ensures IssuesOf(before, other) <= LIMIT {
        assert IssuesOf(before + [year], other) <= LIMIT;
      }
      assert IssuesOf(before + [year], year) <= LIMIT;
    }
  }

  lemma {:induction false} DifferentOneMore(rows: seq<string>, g: string)
    ensures AllDifferent(rows + [g]) <==> AllDifferent(rows) && g !in rows
  {
    var after := rows + [g];
    assert forall i :: 0 <= i < |rows| ==> after[i] == rows[i];
    if g in rows {
      var i :| 0 <= i < |rows| && rows[i] == g;
      assert after[i] == after[|rows|];
    }
  }

  lemma {:induction false} IssuedWhileFitting(rows: seq<string>, p: Prefix, before: seq<nat>, year: nat)
    requires NumberedByYear(rows, p, before) && YearsFit(before)
    ensures var g := Generate(rows, p, year);
      && (g !in rows <==> IssuesOf(before, year) < LIMIT)
      && (IssuesOf(before, year) < LIMIT ==> NumberedByYear(rows + [g], p, before + [year]))
  {
    if IssuesOf(before, year) < LIMIT {
      OneMoreYear(rows, p, before, year);
    } else {
      YearExhausted(rows, p, year);
    }
  }

  ghost predicate DifferentIffFit(rows: seq<string>, p: Prefix, years: seq<nat>) {
    && (AllDifferent(rows) <==> YearsFit(years))
    && (YearsFit(years) ==> NumberedByYear(rows, p, years))
  }

  lemma {:induction false} OneMoreIssue(rows: seq<string>, p: Prefix, before: seq<nat>, year: nat)
    requires DifferentIffFit(rows, p, before)
    ensures DifferentIffFit(rows + [Generate(rows, p, year)], p, before + [year])
  {
    FitsOneMore(before, year);
    DifferentOneMore(rows, Generate(rows, p, year));
    if YearsFit(before) {
      IssuedWhileFitting(rows, p, before, year);
    }
  }

  lemma {:induction false} EveryIssue(p: Prefix, years: seq<nat>)
    ensures DifferentIffFit(IssueFor(p, years), p, years)
  {
    if years == [] {
      forall year: nat ensures Numbered([], Base(p, year), 0) && IssuesOf([], year) == 0 {
      }
    } else {
      var before, year := years[..|years| - 1], years[|years| - 1];
      EveryIssue(p, before);
      OneMoreIssue(IssueFor(p, before), p, before, year);
      assert before + [year] == years;
    }
  }

  /** The references of a prefix, issued one after the other in whatever years, are all different
      if and only if no year issues more than a million of them. */
  lemma {:induction false} AllDifferentIff(p: Prefix, years: seq<nat>)
    ensures AllDifferent(IssueFor(p, years)) <==> YearsFit(years)
  {
    EveryIssue(p, years);
  }

  // ----- the prefixes -----

  /** The three letters of a prefix. */
  function Code(p: Prefix): string {
    match p
    case INV => "INV"
    case PAY => "PAY"
    case ORD => "ORD"
    case BKG => "BKG"
    case BKG_PAY => "BKG"
    case QUO => "QUO"
    case FLT => "FLT"
  }

  lemma {:induction false} PrefixIsCode(p: Prefix)
    ensures PrefixText(p) == "UZM-" + Code(p) + if p.BKG_PAY? then "-PAY" else ""
    ensures |Code(p)| == 3
  {
    match p {
      case BKG_PAY => assert "UZM-BKG" + "-PAY" == "UZM-BKG-PAY";
      case _ => assert "UZM-" + Code(p) + "" == PrefixText(p);
    }
  }

  lemma {:induction false} CodesDiffer(p: Prefix, q: Prefix)
    requires Code(p) == Code(q)
    ensures p == q || (p.BKG? && q.BKG_PAY?) || (p.BKG_PAY? && q.BKG?)
  {
    assert Code(p)[0] == Code(q)[0] && Code(p)[1] == Code(q)[1];
  }

  /** What follows the letters: of all texts here only that of BKG-PAY goes on with a letter. */
  lemma {:induction false} AfterCode(p: Prefix, year: nat)
    ensures |Base(p, year)| > 9
    ensures Base(p, year)[4..7] == Code(p) && Base(p, year)[7] == '-'
    ensures Base(p, year)[8] == 'P' <==> p.BKG_PAY?
  {
    PrefixIsCode(p);
    ValueOfDigits(year);
    var base := Base(p, year);
    if p.BKG_PAY? {
      assert base == "UZM-BKG-PAY" + ("-" + Digits(year) + "-");
    } else {
      var d := Digits(year);
      assert base == "UZM-" + Code(p) + ("-" + d + "-");
      assert base[8] == d[0];
    }
  }

  /** A reference of one prefix never starts with the base of another, BKG and BKG-PAY included. */
  lemma {:induction false} PrefixesApart(p: Prefix, year: nat, q: Prefix, other: nat, n: int)
    requires Base(p, year) <= Reference(Base(q, other), n)
    ensures p == q
  {
    var row := Reference(Base(q, other), n);
    AfterCode(p, year);
    AfterCode(q, other);
    assert Base(p, year)[4..7] == row[4..7] == Base(q, other)[4..7];
    assert Base(p, year)[8] == row[8] == Base(q, other)[8];
    CodesDiffer(p, q);
  }
}
