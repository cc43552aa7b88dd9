/** A month's completed orders, those invoiced in it and those that move to the next month's first day. */
module MonthOrders {

  /** An amount is kept in cents: the two decimals it is written with. */
  datatype Row = Row(order: string, completed: string, invoiced: string, cents: nat)

  const COUNT: nat := 219
  const EARLY: nat := 212

  /** A number in as many digits, padded with zeros. */
  function Digits(n: nat, width: nat): (r: string)
    ensures |r| == width
    decreases width, n
  {
    if width == 0 then "" else Digits(n / 10, width - 1) + ['0' + (n % 10) as char]
  }

  function MonthText(y: nat, m: nat): (r: string)
    ensures |r| == 7
  {
    Digits(y, 4) + "-" + Digits(m, 2)
  }

  function DateText(y: nat, m: nat, d: nat): string {
    MonthText(y, m) + "-" + Digits(d, 2)
  }

  /** The months the catalogue's schema lets through. */
  predicate Valid(y: nat, m: nat) {
    2000 <= y <= 2099 && 1 <= m <= 12
  }

  /** The Gregorian calendar's month lengths. */
  function LastDay(y: nat, m: nat): (d: nat)
    requires 1 <= m <= 12
    ensures 28 <= d <= 31
  {
    if m == 2 then (if y % 4 == 0 && (y % 100 != 0 || y % 400 == 0) then 29 else 28)
    else if m == 4 || m == 6 || m == 9 || m == 11 then 30
    else 31
  }

  // ----- The rows -----

  function Day(last: nat, i: nat): (d: nat)
    requires last >= 28
    ensures i < EARLY ==> 1 <= d < last
    ensures i >= EARLY ==> d == last
  {
    if i < EARLY then 1 + i % (last - 1) else last
  }

  function Cents(i: nat): nat {
    800 + (i * 37) % 4200
  }

  /** The first day of the month after. */
  function NextFirst(y: nat, m: nat): string {
    DateText(if m == 12 then y + 1 else y, m % 12 + 1, 1)
  }

  /** The row one pass of the loop pushes, in a month of this many days. */
  function MakeRow(y: nat, m: nat, last: nat, i: nat): Row
    requires last >= 28
  {
    var day := Day(last, i);
    var completed := DateText(y, m, day);
    Row("ORD-" + Digits(y, 4) + Digits(m, 2) + "-" + Digits(i + 1, 4), completed,
        if day == last then NextFirst(y, m) else completed, Cents(i))
  }

  function RowAt(y: nat, m: nat, i: nat): Row
    requires 1 <= m <= 12
  {
    MakeRow(y, m, LastDay(y, m), i)
  }

  function Rows(y: nat, m: nat, n: nat): (r: seq<Row>)
    requires 1 <= m <= 12
    ensures |r| == n && forall i | 0 <= i < n :: r[i] == RowAt(y, m, i)
    decreases n
  {
    if n == 0 then [] else Rows(y, m, n - 1) + [RowAt(y, m, n - 1)]
  }

  /** `monthOrders`: the loop that pushes the rows. */
  method CollectOrders(y: nat, m: nat) returns (rows: seq<Row>)
    requires Valid(y, m)
    ensures rows == Rows(y, m, COUNT)
  {
    hide MakeRow, LastDay;
    var last := LastDay(y, m);
    rows := [];
    for i := 0 to COUNT
      invariant rows == Rows(y, m, i)
    {
      rows := rows + [MakeRow(y, m, last, i)];
    }
  }

  // ----- The two exports -----

  /** The rows of `invoices.export`: invoiced in the month asked for. */
  function Exported(month: string, rows: seq<Row>): seq<Row>
    decreases |rows|
  {
    if rows == [] then []
    else
      var n := |rows| - 1;
      Exported(month, rows[..n]) + (if month <= rows[n].invoiced then [rows[n]] else [])
  }

  /** The rows `orders.completed` sets apart: invoiced in another month. */
  function Moved(month: string, rows: seq<Row>): seq<Row>
    decreases |rows|
  {
    if rows == [] then []
    else
      var n := |rows| - 1;
      Moved(month, rows[..n]) + (if month <= rows[n].invoiced then [] else [rows[n]])
  }

  function Total(rows: seq<Row>): nat
    decreases |rows|
  {
    if rows == [] then 0 else Total(rows[..|rows| - 1]) + rows[|rows| - 1].cents
  }

  lemma TotalExtends(rows: seq<Row>, r: Row)
    ensures Total(rows + [r]) == Total(rows) + r.cents
  {
    assert (rows + [r])[..|rows|] == rows;
  }

  /** Whatever the rows, the two sets share out their number and their cents. */
  lemma {:induction false} SharedOut(month: string, rows: seq<Row>)
    ensures |Exported(month, rows)| + |Moved(month, rows)| == |rows|
    ensures Total(Exported(month, rows)) + Total(Moved(month, rows)) == Total(rows)
    decreases |rows|
  {
    if rows != [] {
      var n := |rows| - 1;
      SharedOut(month, rows[..n]);
      TotalExtends(Exported(month, rows[..n]), rows[n]);
      TotalExtends(Moved(month, rows[..n]), rows[n]);
      assert Exported(month, rows[..n]) + [] == Exported(month, rows[..n]);
      assert Moved(month, rows[..n]) + [] == Moved(month, rows[..n]);
    }
  }

  // ----- Which rows move -----

  lemma TwoDigitsDiffer(m: nat, m': nat)
    requires m < 100 && m' < 100 && m != m'
    ensures Digits(m, 2) != Digits(m', 2)
  {
    assert Digits(m, 2)[1] == '0' + (m % 10) as char && Digits(m', 2)[1] == '0' + (m' % 10) as char;
    assert Digits(m, 2)[0] == '0' + (m / 10 % 10) as char && Digits(m', 2)[0] == '0' + (m' / 10 % 10) as char;
  }

  /** A date is invoiced in its own month and in no other. */
  lemma StartsWithMonth(y: nat, m: nat, y': nat, m': nat, d: nat)
    requires m < 100 && m' < 100
    ensures y == y' && m == m' ==> MonthText(y, m) <= DateText(y', m', d)
    ensures m != m' ==> !(MonthText(y, m) <= DateText(y', m', d))
  {
    hide Digits;
    if m != m' {
      TwoDigitsDiffer(m, m');
      assert MonthText(y, m)[5..] == Digits(m, 2) && DateText(y', m', d)[5..7] == Digits(m', 2);
    }
  }

  lemma MovesIff(y: nat, m: nat, i: nat)
    requires Valid(y, m)
    ensures MonthText(y, m) <= RowAt(y, m, i).invoiced <==> i < EARLY
    ensures RowAt(y, m, i).invoiced == if i < EARLY then RowAt(y, m, i).completed else NextFirst(y, m)
    ensures MonthText(y, m) <= RowAt(y, m, i).completed
  {
    hide MonthText, DateText, Digits;
    StartsWithMonth(y, m, y, m, Day(LastDay(y, m), i));
    StartsWithMonth(y, m, if m == 12 then y + 1 else y, m % 12 + 1, 1);
  }

  lemma PartsExtend(month: string, rows: seq<Row>, r: Row)
    ensures Exported(month, rows + [r]) == Exported(month, rows) + (if month <= r.invoiced then [r] else [])
    ensures Moved(month, rows + [r]) == Moved(month, rows) + (if month <= r.invoiced then [] else [r])
  {
    assert (rows + [r])[..|rows|] == rows;
  }

  lemma RowsExtend(y: nat, m: nat, n: nat)
    requires 1 <= m <= 12 && n > 0
    ensures Rows(y, m, n) == Rows(y, m, n - 1) + [RowAt(y, m, n - 1)]
  {
    hide RowAt;
  }

  lemma NoRows(y: nat, m: nat, month: string)
    requires 1 <= m <= 12
    ensures Rows(y, m, 0) == [] && Exported(month, []) == [] && Moved(month, []) == []
  {
    hide RowAt;
  }

  lemma {:induction false} SplitAt(y: nat, m: nat, n: nat)
    requires Valid(y, m)
    ensures var rows, month := Rows(y, m, n), MonthText(y, m);
            && Exported(month, rows) == rows[..if n < EARLY then n else EARLY]
            && Moved(month, rows) == rows[if n < EARLY then n else EARLY..]
    decreases n
  {
    hide RowAt, MonthText, Exported, Moved, Rows, NextFirst;
    if n == 0 {
      NoRows(y, m, MonthText(y, m));
    } else {
      SplitAt(y, m, n - 1);
      MovesIff(y, m, n - 1);
      RowsExtend(y, m, n);
      PartsExtend(MonthText(y, m), Rows(y, m, n - 1), RowAt(y, m, n - 1));
    }
  }

  lemma OfLastDay(y: nat, m: nat, i: nat)
    requires Valid(y, m)
    ensures RowAt(y, m, i).completed == DateText(y, m, LastDay(y, m)) <==> i >= EARLY
  {
    hide MonthText, Digits;
    var last, d := LastDay(y, m), Day(LastDay(y, m), i);
    if d != last {
      TwoDigitsDiffer(d, last);
      assert DateText(y, m, d)[8..] == Digits(d, 2) && DateText(y, m, last)[8..] == Digits(last, 2);
    }
  }

  lemma MovedAreLastDays(y: nat, m: nat, i: nat)
    requires Valid(y, m) && i < COUNT
    ensures var rows := Rows(y, m, COUNT);
            rows[i] in rows[EARLY..] <==> rows[i].completed == DateText(y, m, LastDay(y, m))
  {
    hide RowAt, DateText, LastDay, Day;
    var rows := Rows(y, m, COUNT);
    OfLastDay(y, m, i);
    if i >= EARLY {
      assert rows[EARLY..][i - EARLY] == rows[i];
    } else if rows[i] in rows[EARLY..] {
      var j :| 0 <= j < COUNT - EARLY && rows[EARLY..][j] == rows[i];
      OfLastDay(y, m, EARLY + j);
    }
  }

  lemma MovedAreNextFirst(y: nat, m: nat, r: Row)
    requires Valid(y, m) && r in Rows(y, m, COUNT)[EARLY..]
    ensures r.invoiced == NextFirst(y, m)
  {
    hide RowAt, NextFirst;
    var rows := Rows(y, m, COUNT);
    var j :| 0 <= j < COUNT - EARLY && rows[EARLY..][j] == r;
    MovesIff(y, m, EARLY + j);
  }

  /** Month conservation: of each month's 219 orders exactly the last seven, those of its last day, are invoiced on the
      first of the next month, and the two exports share out the orders in number and in cents. */
  lemma MonthConserved(y: nat, m: nat)
    requires Valid(y, m)
    ensures var rows, month := Rows(y, m, COUNT), MonthText(y, m);
            && Exported(month, rows) == rows[..212] && Moved(month, rows) == rows[212..] && |Moved(month, rows)| == 7
            && Total(Exported(month, rows)) + Total(Moved(month, rows)) == Total(rows)
            && (forall i | 0 <= i < 219 ::
                  rows[i] in Moved(month, rows) <==> rows[i].completed == DateText(y, m, LastDay(y, m)))
            && (forall r | r in Moved(month, rows) :: r.invoiced == NextFirst(y, m))
  {
    hide RowAt, MonthText, Exported, Moved, Total, Day, DateText, NextFirst, LastDay, Rows;
    var rows, month := Rows(y, m, COUNT), MonthText(y, m);
    SplitAt(y, m, COUNT);
    SharedOut(month, rows);
    forall i | 0 <= i < 219
      ensures rows[i] in rows[212..] <==> rows[i].completed == DateText(y, m, LastDay(y, m))
    {
      MovedAreLastDays(y, m, i);
    }
    forall r | r in rows[212..] ensures r.invoiced == NextFirst(y, m) {
      MovedAreNextFirst(y, m, r);
    }
  }

  /** An order that moves is in no month's invoice export, not even that of the month it is invoiced in: an export looks
      only at the orders completed in its own month. */
  lemma MovedNeverExported(y: nat, m: nat, y': nat, m': nat, r: Row)
    requires Valid(y, m) && Valid(y', m') && r in Moved(MonthText(y, m), Rows(y, m, COUNT))
    ensures r !in Exported(MonthText(y', m'), Rows(y', m', COUNT))
  {
    hide RowAt, MonthText, Exported, Moved, DateText, NextFirst, Rows;
    SplitAt(y, m, COUNT);
    SplitAt(y', m', COUNT);
    var i :| 0 <= i < COUNT - EARLY && Rows(y, m, COUNT)[EARLY..][i] == r;
    MovesIff(y, m, EARLY + i);
    if r in Rows(y', m', COUNT)[..EARLY] {
      var j :| 0 <= j < EARLY && Rows(y', m', COUNT)[..EARLY][j] == r;
      MovesIff(y', m', j);
    }
  }

  // ----- Known months, dates and amounts -----

  lemma NextDigit(n: nat, width: nat)
    requires width > 0
    ensures Digits(n, width) == Digits(n / 10, width - 1) + ['0' + (n % 10) as char]
  {}

  lemma NoDigit(n: nat)
    ensures Digits(n, 0) == ""
  {}

  lemma TwoDigits(n: nat)
    ensures Digits(n, 2) == ['0' + (n / 10 % 10) as char, '0' + (n % 10) as char]
  {
    hide Digits;
    NextDigit(n, 2);
    NextDigit(n / 10, 1);
    NoDigit(n / 10 / 10);
  }

  lemma FourDigits(n: nat)
    ensures Digits(n, 4)
         == ['0' + (n / 1000 % 10) as char, '0' + (n / 100 % 10) as char, '0' + (n / 10 % 10) as char,
             '0' + (n % 10) as char]
  {
    hide Digits;
    NextDigit(n, 4);
    NextDigit(n / 10, 3);
    TwoDigits(n / 100);
    assert n / 10 / 10 == n / 100 && n / 100 / 10 == n / 1000;
  }

  /** The length of every month, and of February in each kind of year the schema lets through. */
  lemma MonthLengths(y: nat)
    ensures LastDay(y, 1) == 31 && LastDay(y, 3) == 31 && LastDay(y, 4) == 30 && LastDay(y, 5) == 31
    ensures LastDay(y, 6) == 30 && LastDay(y, 7) == 31 && LastDay(y, 8) == 31 && LastDay(y, 9) == 30
    ensures LastDay(y, 10) == 31 && LastDay(y, 11) == 30 && LastDay(y, 12) == 31
    ensures LastDay(2000, 2) == 29 && LastDay(2023, 2) == 28 && LastDay(2024, 2) == 29
    ensures 2000 <= y <= 2099 ==> LastDay(y, 2) == if y % 4 == 0 then 29 else 28
  {}

  /** The first order of a leap February, and the last one of a December, whose invoice is dated in the next year. */
  lemma KnownRows()
    ensures RowAt(2024, 2, 0) == Row("ORD-202402-0001", "2024-02-01", "2024-02-01", 800)
    ensures RowAt(2024, 12, 218) == Row("ORD-202412-0219", "2024-12-31", "2025-01-01", 4666)
  {
    hide RowAt;
    LeapRow();
    DecemberRow();
  }

  lemma LeapRow()
    ensures RowAt(2024, 2, 0) == Row("ORD-202402-0001", "2024-02-01", "2024-02-01", 800)
  {
    hide Digits, Day, LastDay;
    FourDigits(2024);
    FourDigits(1);
    TwoDigits(1);
    TwoDigits(2);
    KnownDays();
  }

  lemma DecemberRow()
    ensures RowAt(2024, 12, 218) == Row("ORD-202412-0219", "2024-12-31", "2025-01-01", 4666)
  {
    hide Digits, Day, LastDay, DateText;
    FourDigits(2024);
    FourDigits(219);
    TwoDigits(12);
    KnownDays();
    KnownDates();
  }

  lemma KnownDates()
    ensures DateText(2024, 12, 31) == "2024-12-31" && DateText(2025, 1, 1) == "2025-01-01"
  {
    hide Digits;
    FourDigits(2024);
    FourDigits(2025);
    TwoDigits(1);
    TwoDigits(12);
    TwoDigits(31);
  }

  lemma KnownDays()
    ensures Day(LastDay(2024, 2), 0) == 1 && Day(LastDay(2024, 12), 218) == 31
    ensures LastDay(2024, 2) == 29 && LastDay(2024, 12) == 31
  {}

  /** What the first n orders come to, in cents, for as many as there are in a month. */
  function Sum(n: nat): int {
    800 * n + 37 * (n * (n - 1) / 2) - (if n > 114 then 4200 * (n - 114) else 0)
  }

  lemma Triangle(n: nat)
    requires n > 0
    ensures n * (n - 1) / 2 == (n - 1) * (n - 2) / 2 + (n - 1)
  {
    assert n * (n - 1) == (n - 1) * (n - 2) + 2 * (n - 1);
  }

  lemma {:induction false} TotalIs(y: nat, m: nat, n: nat)
    requires 1 <= m <= 12 && n <= 219
    ensures Total(Rows(y, m, n)) == Sum(n)
    decreases n
  {
    hide RowAt, Total, Rows;
    if n == 0 {
      NoTotal(y, m);
    } else {
      TotalIs(y, m, n - 1);
      RowsExtend(y, m, n);
      TotalExtends(Rows(y, m, n - 1), RowAt(y, m, n - 1));
      AmountOf(y, m, n - 1);
      Triangle(n);
    }
  }

  lemma NoTotal(y: nat, m: nat)
    requires 1 <= m <= 12
    ensures Total(Rows(y, m, 0)) == 0
  {
    hide RowAt;
  }

  lemma AmountOf(y: nat, m: nat, i: nat)
    requires 1 <= m <= 12 && i < 219
    ensures RowAt(y, m, i).cents == 800 + 37 * i - (if i >= 114 then 4200 else 0)
  {
    hide DateText, Digits, NextFirst;
  }

  /** Every month's orders come to 6174.27, of which 5855.42 is exported and 318.85 moves. */
  lemma MonthTotals(y: nat, m: nat)
    requires Valid(y, m)
    ensures var rows, month := Rows(y, m, 219), MonthText(y, m);
            Total(rows) == 617427 && Total(Exported(month, rows)) == 585542 && Total(Moved(month, rows)) == 31885
  {
    hide RowAt, Total, Exported, Moved, MonthText, Rows, DateText, NextFirst;
    SplitAt(y, m, COUNT);
    SharedOut(MonthText(y, m), Rows(y, m, COUNT));
    TotalIs(y, m, COUNT);
    TotalIs(y, m, EARLY);
    RowsPrefix(y, m, COUNT, EARLY);
  }

  lemma RowsPrefix(y: nat, m: nat, n: nat, k: nat)
    requires 1 <= m <= 12 && k <= n
    ensures Rows(y, m, n)[..k] == Rows(y, m, k)
  {
    hide RowAt;
  }
}
