/** The summary report and the CSV text of the transactions.  The file
    download around them is not modelled; `formatDate` stands for
    `toLocaleDateString()`. */
module ExportReport {
  import opened Common
  import opened Domain
  import opened Text
  import opened Lists

  datatype Summary = Summary(totalSaved: int, totalGoals: int, completedGoals: int,
                             activeGoals: int, totalTransactions: int,
                             avgTransaction: int, achievements: int)

  /** One goal line of the report; `progress` is the paid share of the bits,
      as a percentage. */
  datatype GoalLine = GoalLine(name: string, target: int, saved: int, progress: real)

  datatype Report = Report(summary: Summary, goals: seq<GoalLine>, recentTransactions: seq<Transaction>)

  /** A goal whose paid bits add up to its target. */
  predicate GoalCompleted(g: Goal)
  {
    PaidTotal(g.savingsPlan) >= g.targetAmount
  }

  /** `x || 1` for a count. */
  function OrOne(n: int): int
  {
    if n == 0 then 1 else n
  }

  function GoalLineOf(g: Goal): GoalLine
  {
    GoalLine(g.name, g.targetAmount, PaidTotal(g.savingsPlan),
             PaidCount(g.savingsPlan) as real / OrOne(|g.savingsPlan|) as real * 100.0)
  }

  /** The `summary` part of the report. */
  function SummaryOf(goals: seq<Goal>, txs: seq<Transaction>, achievements: int): Summary
  {
    var totalSaved := TotalAmount(txs);
    var completed := |Filter(goals, GoalCompleted)|;
    Summary(totalSaved, |goals|, completed, |goals| - completed, |txs|,
            Round(totalSaved as real / OrOne(|txs|) as real), achievements)
  }

  function GoalLines(goals: seq<Goal>): (r: seq<GoalLine>)
    ensures |r| == |goals| && forall i :: 0 <= i < |goals| ==> r[i] == GoalLineOf(goals[i])
    ensures forall i :: 0 <= i < |goals| ==>
      r[i].name == goals[i].name && r[i].target == goals[i].targetAmount
      && r[i].saved == PaidTotal(goals[i].savingsPlan)
  {
    seq(|goals|, i requires 0 <= i < |goals| => GoalLineOf(goals[i]))
  }

  /** `transactions.slice(0, 10)`. */
  function Recent(txs: seq<Transaction>): seq<Transaction>
  {
    txs[..if |txs| < 10 then |txs| else 10]
  }

  /** `generateSummaryReport(goals, transactions, achievements)`. */
  function SummaryReport(goals: seq<Goal>, txs: seq<Transaction>, achievements: int): Report
  {
    Report(SummaryOf(goals, txs, achievements), GoalLines(goals), Recent(txs))
  }

  /** A goal still short of its target. */
  predicate GoalActive(g: Goal)
  {
    !GoalCompleted(g)
  }

  /** The completed goals and the active ones split the goals between them:
      `activeGoals` counts exactly the goals not yet completed. */
  lemma SummaryGoalCounts(goals: seq<Goal>, txs: seq<Transaction>, achievements: int)
    ensures var s := SummaryOf(goals, txs, achievements);
      0 <= s.completedGoals <= s.totalGoals
      && s.activeGoals == |Filter(goals, GoalActive)|
  {
    FilterComplement(goals, GoalCompleted, GoalActive);
  }

  lemma {:induction false} FilterComplement(s: seq<Goal>, f: Goal -> bool, g: Goal -> bool)
    requires forall x :: g(x) == !f(x)
    ensures |Filter(s, f)| + |Filter(s, g)| == |s|
  {
    if s != [] {
      FilterComplement(s[..|s| - 1], f, g);
    }
  }

  lemma AboveShare(total: int, n: int, a: int)
    requires n > 0 && total as real / n as real - 0.5 < a as real
    ensures 2 * total < 2 * a * n + n
  {
    RatioCompare(total as real, n as real, a as real + 0.5);
    assert (a * n) as real == a as real * n as real;
  }

  lemma BelowShare(total: int, n: int, a: int)
    requires n > 0 && a as real <= total as real / n as real + 0.5
    ensures 2 * a * n - n <= 2 * total
  {
    RatioCompare(total as real, n as real, a as real - 0.5);
    assert (a * n) as real == a as real * n as real;
  }

  /** `Math.round(total / n)` for a positive count, stated without reals. */
  lemma RoundedShare(total: int, n: int)
    requires n > 0
    ensures var a := Round(total as real / n as real);
      2 * a * n - n <= 2 * total < 2 * a * n + n
  {
    var a := Round(total as real / n as real);
    AboveShare(total, n, a);
    BelowShare(total, n, a);
  }

  /** The average is 0 without transactions, and otherwise the total per
      transaction rounded half up. */
  lemma SummaryAverage(goals: seq<Goal>, txs: seq<Transaction>, achievements: int)
    ensures var s := SummaryOf(goals, txs, achievements);
      s.totalSaved == TotalAmount(txs) && s.totalTransactions == |txs|
      && (txs == [] ==> s.avgTransaction == 0)
      && (txs != [] ==> 2 * s.avgTransaction * |txs| - |txs| <= 2 * TotalAmount(txs) < 2 * s.avgTransaction * |txs| + |txs|)
  {
    if txs != [] {
      RoundedShare(TotalAmount(txs), |txs|);
    } else {
      assert TotalAmount(txs) as real / OrOne(|txs|) as real == 0.0;
      assert Round(0.0) == 0;
    }
  }

  /** Goal progress counts paid bits, not amounts: it is a percentage in
      [0, 100], 0 for an empty plan, and 100 exactly when every bit is paid. */
  lemma GoalLineProgress(g: Goal)
    ensures var p := GoalLineOf(g).progress;
      0.0 <= p <= 100.0
      && (g.savingsPlan == [] ==> p == 0.0)
      && (g.savingsPlan != [] ==> (p == 100.0 <==> PaidCount(g.savingsPlan) == |g.savingsPlan|))
  {
    if g.savingsPlan != [] {
      var q := PaidCount(g.savingsPlan) as real / |g.savingsPlan| as real;
      ShareBounds(PaidCount(g.savingsPlan), |g.savingsPlan|);
      assert GoalLineOf(g).progress == q * 100.0;
    }
  }

  /** The recent transactions are the first ten (or all, if fewer), in
      order. */
  lemma RecentAreFirstTen(txs: seq<Transaction>)
    ensures var r := Recent(txs);
      |r| == (if |txs| < 10 then |txs| else 10) && r == txs[..|r|]
  {
  }

  const CsvHeader: string := "Date,Goal,Amount,Type,Note,Mood"

  /** `value || '-'`: a missing or empty text becomes a dash. */
  function OrDash(o: Option<string>): (r: string)
    ensures r != []
  {
    if o.None? || o.value == [] then "-" else o.value
  }

  function CsvFields(tx: Transaction, formatDate: int -> string): seq<string>
  {
    [formatDate(tx.date), OrDash(tx.goalName), IntToString(tx.amount), tx.kind,
     OrDash(tx.note), OrDash(tx.mood)]
  }

  /** `row.join(',')`: no quoting. */
  function CsvRow(tx: Transaction, formatDate: int -> string): string
  {
    Join(CsvFields(tx, formatDate), ",")
  }

  function CsvRows(txs: seq<Transaction>, formatDate: int -> string): (r: seq<string>)
    ensures |r| == |txs| && forall i :: 0 <= i < |txs| ==> r[i] == CsvRow(txs[i], formatDate)
  {
    seq(|txs|, i requires 0 <= i < |txs| => CsvRow(txs[i], formatDate))
  }

  /** The text `exportToCSV(transactions)` writes. */
  function CsvText(txs: seq<Transaction>, formatDate: int -> string): string
  {
    Join([CsvHeader] + CsvRows(txs, formatDate), "\n")
  }

  /** No line break inside any field. */
  predicate NoLineBreaks(tx: Transaction, formatDate: int -> string)
  {
    forall k :: 0 <= k < 6 ==> CountChar(CsvFields(tx, formatDate)[k], '\n') == 0
  }

  /** No comma inside any field. */
  predicate NoCommas(tx: Transaction, formatDate: int -> string)
  {
    forall k :: 0 <= k < 6 ==> CountChar(CsvFields(tx, formatDate)[k], ',') == 0
  }


  lemma RowWithoutBreaks(tx: Transaction, formatDate: int -> string)
    requires NoLineBreaks(tx, formatDate)
    ensures CountChar(CsvRow(tx, formatDate), '\n') == 0
  {
    JoinWithout(CsvFields(tx, formatDate), ',', '\n');
  }

  /** No line of the text holds a line break of its own. */
  lemma LinesWithoutBreaks(txs: seq<Transaction>, formatDate: int -> string)
    requires forall i :: 0 <= i < |txs| ==> NoLineBreaks(txs[i], formatDate)
    ensures var parts := [CsvHeader] + CsvRows(txs, formatDate);
      forall i :: 0 <= i < |parts| ==> CountChar(parts[i], '\n') == 0
  {
    RowsWithoutBreaks(txs, formatDate);
    PrependWithout(CsvHeader, CsvRows(txs, formatDate), '\n');
  }

  lemma RowsWithoutBreaks(txs: seq<Transaction>, formatDate: int -> string)
    requires forall i :: 0 <= i < |txs| ==> NoLineBreaks(txs[i], formatDate)
    ensures var rows := CsvRows(txs, formatDate);
      forall i :: 0 <= i < |rows| ==> CountChar(rows[i], '\n') == 0
  {
    var rows := CsvRows(txs, formatDate);
    forall i | 0 <= i < |rows| ensures CountChar(rows[i], '\n') == 0 {
      RowWithoutBreaks(txs[i], formatDate);
    }
  }

  lemma PrependWithout(head: string, rows: seq<string>, c: char)
    requires forall i :: 0 <= i < |head| ==> head[i] != c
    requires forall i :: 0 <= i < |rows| ==> CountChar(rows[i], c) == 0
    ensures forall i :: 0 <= i < |rows| + 1 ==> CountChar(([head] + rows)[i], c) == 0
  {
    DigitsWithout(head, c);
    forall i | 0 <= i < |rows| + 1 ensures CountChar(([head] + rows)[i], c) == 0 {
      if i > 0 {
        assert ([head] + rows)[i] == rows[i - 1];
      }
    }
  }

  /** Read back line by line, the CSV text is the header followed by exactly
      one row per transaction, in order, provided no field holds a line
      break. */
  lemma CsvLines(txs: seq<Transaction>, formatDate: int -> string)
    requires forall i :: 0 <= i < |txs| ==> NoLineBreaks(txs[i], formatDate)
    ensures var lines := Split(CsvText(txs, formatDate), '\n');
      |lines| == |txs| + 1 && lines[0] == CsvHeader
      && forall i :: 0 <= i < |txs| ==> lines[i + 1] == CsvRow(txs[i], formatDate)
  {
    var parts := [CsvHeader] + CsvRows(txs, formatDate);
    var rows := CsvRows(txs, formatDate);
    var lines := Split(CsvText(txs, formatDate), '\n');
    assert lines == parts by {
      LinesWithoutBreaks(txs, formatDate);
      SplitJoin(parts, '\n');
    }
    assert lines[0] == CsvHeader;
    forall i | 0 <= i < |txs| ensures lines[i + 1] == CsvRow(txs[i], formatDate) {
      assert parts[i + 1] == rows[i];
    }
  }

  /** Read back field by field, a row holds the six columns, with a dash for
      a missing or empty goal, note or mood and the text itself otherwise,
      provided no field holds a comma (commas are not quoted). */
  lemma CsvColumns(tx: Transaction, formatDate: int -> string)
    requires NoCommas(tx, formatDate)
    ensures var cols := Split(CsvRow(tx, formatDate), ',');
      |cols| == 6 && cols[0] == formatDate(tx.date) && cols[2] == IntToString(tx.amount)
      && cols[3] == tx.kind
      && (tx.goalName.None? || tx.goalName == Some("") ==> cols[1] == "-")
      && (tx.goalName.Some? && tx.goalName.value != "" ==> cols[1] == tx.goalName.value)
      && (tx.note.None? || tx.note == Some("") ==> cols[4] == "-")
      && (tx.note.Some? && tx.note.value != "" ==> cols[4] == tx.note.value)
      && (tx.mood.None? || tx.mood == Some("") ==> cols[5] == "-")
      && (tx.mood.Some? && tx.mood.value != "" ==> cols[5] == tx.mood.value)
  {
    SplitJoin(CsvFields(tx, formatDate), ',');
  }
}
