/** The history page: every transaction enriched with the goal its
    description names and the account that paid it, then searched, filtered
    by goal and sorted by the chosen order; and the totals shown above the
    list. */
module History {
  import opened Common
  import opened Domain
  import opened Text
  import opened Lists
  import opened Sorting
  import opened Store

  /** The characters a regular expression's `.` does not match. */
  predicate LineTerminator(c: char)
  {
    c == '\n' || c == '\r' || c == '\U{2028}' || c == '\U{2029}'
  }

  /** `/for (.+)$/` matches at `i`: "for " there, followed by at least one
      character and no line terminator up to the end. */
  predicate CaptureAt(s: string, i: int)
  {
    0 <= i && i + 4 < |s| && s[i..i + 4] == "for "
    && forall k :: i + 4 <= k < |s| ==> !LineTerminator(s[k])
  }

  /** The leftmost position from `i` on where the pattern matches. */
  function FirstCapture(s: string, i: nat): (r: Option<nat>)
    requires i <= |s|
    ensures r.Some? ==> i <= r.value && CaptureAt(s, r.value)
                        && forall j :: i <= j < r.value ==> !CaptureAt(s, j)
    ensures r.None? ==> forall j :: i <= j ==> !CaptureAt(s, j)
    decreases |s| - i
  {
    if i + 4 >= |s| then None
    else if CaptureAt(s, i) then Some(i)
    else FirstCapture(s, i + 1)
  }

  /** `tx.description?.match(/for (.+)$/)?.[1] || 'Unknown Goal'`: the text
      after the leftmost matching "for ", which is never empty. */
  function GoalNameOf(description: Option<string>): (name: string)
    ensures name != ""
  {
    match description
    case None => "Unknown Goal"
    case Some(s) =>
      match FirstCapture(s, 0)
      case Some(i) => s[i + 4..]
      case None => "Unknown Goal"
  }

  /** `x || fallback` for a text. */
  function OrElse(s: string, fallback: string): string
  {
    if s == "" then fallback else s
  }

  /** `accounts.find(a => a.id === tx.accountId)`: a manual payment or a
      missing account id matches no account. */
  function AccountOf(accounts: seq<Account>, payer: Option<Payer>): Option<Account>
  {
    match payer
    case Some(FromAccount(id)) => Find(accounts, (a: Account) => a.id == id)
    case _ => None
  }

  /** A transaction with the names the page shows beside it. */
  datatype Entry = Entry(tx: Transaction, goalName: string, goalCategory: string,
                         accountName: string, accountUpi: string)

  /** One element of `enrichedTransactions`. */
  function Enrich(tx: Transaction, goals: seq<Goal>, accounts: seq<Account>): Entry
  {
    var goalName := GoalNameOf(tx.description);
    var goal := Find(goals, (g: Goal) => g.name == goalName);
    var account := AccountOf(accounts, tx.accountId);
    Entry(tx, goalName,
          OrElse(if goal.Some? then goal.value.category else "", "other"),
          OrElse(if account.Some? then account.value.name else "", "Manual"),
          OrElse(if account.Some? then account.value.upiId else "", "N/A"))
  }

  /** `enrichedTransactions`: one entry per transaction, in order. */
  function EnrichAll(txs: seq<Transaction>, goals: seq<Goal>, accounts: seq<Account>): (r: seq<Entry>)
    ensures |r| == |txs|
    ensures forall i :: 0 <= i < |txs| ==> r[i] == Enrich(txs[i], goals, accounts)
  {
    seq(|txs|, i requires 0 <= i < |txs| => Enrich(txs[i], goals, accounts))
  }

  /** The names fall back as the page promises: no readable goal gives
      "Unknown Goal", an unknown goal the category "other", and a payment
      without a matching account "Manual" with no UPI id ("N/A"). */
  lemma EnrichFallbacks(tx: Transaction, goals: seq<Goal>, accounts: seq<Account>)
    ensures var e := Enrich(tx, goals, accounts);
      e.tx == tx && e.goalName != "" && e.goalCategory != ""
      && (tx.description.None? ==> e.goalName == "Unknown Goal")
      && ((forall g :: g in goals ==> g.name != e.goalName) ==> e.goalCategory == "other")
      && (AccountOf(accounts, tx.accountId).None? ==> e.accountName == "Manual" && e.accountUpi == "N/A")
      && (tx.accountId == Some(Manual) ==> e.accountName == "Manual")
  {
    var e := Enrich(tx, goals, accounts);
    var goal := Find(goals, (g: Goal) => g.name == e.goalName);
    if goal.Some? {
      var i :| 0 <= i < |goals| && goals[i] == goal.value && goals[i].name == e.goalName;
    }
  }

  /** The description the store writes for a payment: the goal name follows
      the first "for ". */
  lemma PaymentGoalName(bit: Bit, payer: Payer, goalName: string, now: int)
    requires goalName != ""
    requires forall k :: 0 <= k < |goalName| ==> !LineTerminator(goalName[k])
    ensures GoalNameOf(PaymentRecord(bit, payer, goalName, now).description) == goalName
  {
    var digits := IntToString(bit.amount);
    var prefix := "Saved \U{20B9}" + digits + " ";
    var s := prefix + ("for " + goalName);
    assert "Saved \U{20B9}" + digits + " for " + goalName == s;
    NoLetterInNumber(bit.amount, 'f');
    forall j | 0 <= j < |prefix|
      ensures !CaptureAt(s, j)
    {
      assert s[j] == prefix[j];
      assert prefix[j] != 'f';
    }
    assert s[|prefix|..|prefix| + 4] == "for ";
    assert s[|prefix| + 4..] == goalName;
    assert CaptureAt(s, |prefix|);
    var r := FirstCapture(s, 0);
    assert r == Some(|prefix|);
  }

  /** The search: the goal or account name contains the query in any case,
      or the amount's digits contain it as typed. */
  predicate MatchesQuery(e: Entry, query: string)
  {
    Includes(ToLower(e.goalName), ToLower(query))
    || Includes(ToLower(e.accountName), ToLower(query))
    || Includes(IntToString(e.tx.amount), query)
  }

  datatype SortMode = Recent | Oldest | AmountHigh | AmountLow | OtherMode

  /** The comparator of each order, as the key it sorts ascending by. */
  function SortKey(mode: SortMode): Entry -> int
  {
    match mode
    case Recent => (e: Entry) => -e.tx.date
    case Oldest => (e: Entry) => e.tx.date
    case AmountHigh => (e: Entry) => -e.tx.amount
    case _ => (e: Entry) => e.tx.amount
  }

  /** The entries the search box and the goal filter let through, in their
      order. */
  function Kept(entries: seq<Entry>, query: string, filterGoal: string): seq<Entry>
  {
    var searched := if query != "" then Filter(entries, (e: Entry) => MatchesQuery(e, query)) else entries;
    if filterGoal != "all" then Filter(searched, (e: Entry) => e.goalName == filterGoal) else searched
  }

  /** `filteredTransactions`. */
  function Filtered(entries: seq<Entry>, query: string, filterGoal: string, mode: SortMode): seq<Entry>
  {
    var kept := Kept(entries, query, filterGoal);
    if mode == OtherMode then kept else SortBy(kept, SortKey(mode))
  }

  /** An entry is kept exactly when it passes the search (or the search is
      empty) and the goal filter (or that is "all"); with neither the list is
      left as it is. */
  lemma KeptSpec(entries: seq<Entry>, query: string, filterGoal: string)
    ensures forall e :: e in Kept(entries, query, filterGoal) <==>
      (e in entries && (query == "" || MatchesQuery(e, query))
       && (filterGoal == "all" || e.goalName == filterGoal))
    ensures SubsequenceOf(Kept(entries, query, filterGoal), entries)
    ensures query == "" && filterGoal == "all" ==> Kept(entries, query, filterGoal) == entries
  {
    var searched := if query != "" then Filter(entries, (e: Entry) => MatchesQuery(e, query)) else entries;
    if query != "" {
      FilterMembers(entries, (e: Entry) => MatchesQuery(e, query));
    } else {
      SubsequenceOfSelf(entries);
    }
    if filterGoal != "all" {
      FilterMembers(searched, (e: Entry) => e.goalName == filterGoal);
      SubsequenceTrans(Kept(entries, query, filterGoal), searched, entries);
    }
  }

  lemma {:induction false} SubsequenceOfSelf<T>(s: seq<T>)
    ensures SubsequenceOf(s, s)
    decreases |s|
  {
    if s != [] {
      SubsequenceOfSelf(s[..|s| - 1]);
    }
  }

  lemma {:induction false} SubsequenceTrans<T>(r: seq<T>, s: seq<T>, t: seq<T>)
    requires SubsequenceOf(r, s) && SubsequenceOf(s, t)
    ensures SubsequenceOf(r, t)
    decreases |t|
  {
    if r != [] {
      var s', t' := s[..|s| - 1], t[..|t| - 1];
      if s[|s| - 1] == t[|t| - 1] && SubsequenceOf(s', t') {
        if r[|r| - 1] == s[|s| - 1] && SubsequenceOf(r[..|r| - 1], s') {
          SubsequenceTrans(r[..|r| - 1], s', t');
        } else {
          SubsequenceTrans(r, s', t');
        }
      } else {
        SubsequenceTrans(r, s, t');
      }
    }
  }

  /** The page's list holds the kept entries, each as often as it was kept,
      in the chosen order; entries tied under that order keep their order
      in the list before sorting; an unknown order leaves it unsorted. */
  lemma FilteredSpec(entries: seq<Entry>, query: string, filterGoal: string, mode: SortMode)
    ensures var r := Filtered(entries, query, filterGoal, mode);
      var kept := Kept(entries, query, filterGoal);
      multiset(r) == multiset(kept)
      && (mode == Recent ==> forall i, j :: 0 <= i < j < |r| ==> r[i].tx.date >= r[j].tx.date)
      && (mode == Oldest ==> forall i, j :: 0 <= i < j < |r| ==> r[i].tx.date <= r[j].tx.date)
      && (mode == AmountHigh ==> forall i, j :: 0 <= i < j < |r| ==> r[i].tx.amount >= r[j].tx.amount)
      && (mode == AmountLow ==> forall i, j :: 0 <= i < j < |r| ==> r[i].tx.amount <= r[j].tx.amount)
      && (mode == OtherMode ==> r == kept)
      && (forall k :: KeyFilter(r, SortKey(mode), k) == KeyFilter(kept, SortKey(mode), k))
  {
    var kept := Kept(entries, query, filterGoal);
    var key := SortKey(mode);
    if mode != OtherMode {
      SortByIsSorted(kept, key);
      SortByPermutes(kept, key);
      forall k {
        SortByStable(kept, key, k);
      }
      var r := SortBy(kept, key);
      forall i, j | 0 <= i < j < |r|
        ensures key(r[i]) <= key(r[j])
      {
      }
    }
  }

  /** `totalSaved` over all transactions, whatever the filters. */
  function TotalSaved(txs: seq<Transaction>): int
  {
    TotalAmount(txs)
  }

  /** `avgTransaction`: 0 for an empty history. */
  function AverageTransaction(txs: seq<Transaction>): real
  {
    if |txs| > 0 then TotalSaved(txs) as real / |txs| as real else 0.0
  }

  /** The average times the count is the total, and an empty history
      averages 0. */
  lemma AverageSpec(txs: seq<Transaction>)
    ensures AverageTransaction(txs) * |txs| as real == TotalSaved(txs) as real
    ensures txs == [] ==> AverageTransaction(txs) == 0.0
  {
  }
}
