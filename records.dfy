/**
 * The two kinds of stored entries of backend/db.js (expense records, idempotency
 * ledger entries), the record shown to clients, and the two orders `getExpenses` sorts by.
 */
module Records {
  import opened Text
  import opened Seqs
  import Money

  /** A stored expense; `amount` is in minor units, `date` is `YYYY-MM-DD`, `createdAt` an ISO-8601 instant. */
  datatype Expense = Expense(
    id: string,
    amount: int,
    category: string,
    description: string,
    date: string,
    createdAt: string)

  /** An expense as returned to clients: the same fields, `amount` in major units. */
  datatype ExpenseView = ExpenseView(
    id: string,
    amount: real,
    category: string,
    description: string,
    date: string,
    createdAt: string)

  /** An idempotency ledger entry: the key a request carried and the record it produced. */
  datatype Entry = Entry(key: string, expenseId: string, createdAt: string)

  /** `{...expense, amount: expense.amount / 100}`: the stored minor units can be recovered from it. */
  function Display(e: Expense): (v: ExpenseView)
    ensures Money.ToMinor(v.amount) == e.amount
  {
    Money.MinorRoundTrip(e.amount);
    ExpenseView(e.id, Money.ToMajor(e.amount), e.category, e.description, e.date, e.createdAt)
  }

  /** No two stored records are shown alike. */
  lemma DisplayInjective(a: Expense, b: Expense)
    requires Display(a) == Display(b)
    ensures a == b
  {
    assert a.amount == Money.ToMinor(Display(a).amount);
  }

  /** `expenses.map(...)` with `Display`. */
  function DisplayAll(s: seq<Expense>): seq<ExpenseView>
  {
    seq(|s|, i requires 0 <= i < |s| => Display(s[i]))
  }

  /** The two orders of `getExpenses`: newest `created_at` first (default), or `"date_desc"`. */
  datatype SortOrder = NewestCreated | NewestDate

  /** The comparator of `getExpenses` puts `a` strictly before `b`. */
  predicate Precedes(o: SortOrder, a: Expense, b: Expense)
  {
    match o
    case NewestCreated => Less(b.createdAt, a.createdAt)
    case NewestDate => Less(b.date, a.date) || (a.date == b.date && Less(b.createdAt, a.createdAt))
  }

  /** The comparator returns 0 for `a` and `b`. */
  predicate SameKey(o: SortOrder, a: Expense, b: Expense)
  {
    match o
    case NewestCreated => a.createdAt == b.createdAt
    case NewestDate => a.date == b.date && a.createdAt == b.createdAt
  }

  /** No record comes after one that the comparator would put after it. */
  predicate Sorted(o: SortOrder, s: seq<Expense>)
  {
    forall i, j :: 0 <= i < j < |s| ==> !Precedes(o, s[j], s[i])
  }

  lemma PrecedesAsymmetric(o: SortOrder, a: Expense, b: Expense)
    requires Precedes(o, a, b)
    ensures !Precedes(o, b, a) && !SameKey(o, a, b)
  {
    match o
    case NewestCreated =>
      LessAsymmetric(b.createdAt, a.createdAt);
      LessIrreflexive(a.createdAt);
    case NewestDate =>
      LessIrreflexive(a.date);
      LessIrreflexive(a.createdAt);
      if Less(b.date, a.date) {
        LessAsymmetric(b.date, a.date);
      } else {
        LessAsymmetric(b.createdAt, a.createdAt);
      }
  }

  /** Records the comparator cannot tell apart are placed alike. */
  lemma SameKeyPrecedes(o: SortOrder, a: Expense, a': Expense, b: Expense)
    requires SameKey(o, a, a')
    ensures Precedes(o, a, b) == Precedes(o, a', b)
  {
  }

  /** "Not after" is transitive: the comparator is a total preorder. */
  lemma NotPrecedesTransitive(o: SortOrder, a: Expense, b: Expense, c: Expense)
    requires !Precedes(o, a, b) && !Precedes(o, b, c)
    ensures !Precedes(o, a, c)
  {
    match o
    case NewestCreated =>
      AtLeastTransitive(c.createdAt, b.createdAt, a.createdAt);
    case NewestDate =>
      AtLeastTransitive(c.date, b.date, a.date);
      if a.date == c.date {
        AtLeastAntisymmetric(b.date, c.date);
        AtLeastTransitive(c.createdAt, b.createdAt, a.createdAt);
      }
  }

  /** `x` inserted before the first record of `t` that does not strictly precede it. */
  function Insert(o: SortOrder, x: Expense, t: seq<Expense>): (r: seq<Expense>)
    ensures multiset(r) == multiset(t) + multiset{x}
  {
    if t == [] || !Precedes(o, t[0], x) then [x] + t
    else
      assert t == [t[0]] + t[1..];
      [t[0]] + Insert(o, x, t[1..])
  }

  /**
   * `expenses.sort(comparator)`; the sort of JavaScript is stable, and so is this one:
   * insertion from the back, each record in front of the records it ties with.
   */
  function Sort(o: SortOrder, s: seq<Expense>): (r: seq<Expense>)
    ensures multiset(r) == multiset(s)
  {
    if s == [] then []
    else
      assert s == [s[0]] + s[1..];
      Insert(o, s[0], Sort(o, s[1..]))
  }

  lemma {:induction false} InsertSorted(o: SortOrder, x: Expense, t: seq<Expense>)
    requires Sorted(o, t)
    ensures Sorted(o, Insert(o, x, t))
  {
    if t == [] || !Precedes(o, t[0], x) {
      var r := [x] + t;
      forall i, j | 0 <= i < j < |r| ensures !Precedes(o, r[j], r[i]) {
        if i == 0 && j > 1 {
          NotPrecedesTransitive(o, r[j], t[0], x);
        }
      }
    } else {
      InsertSorted(o, x, t[1..]);
      var rest := Insert(o, x, t[1..]);
      forall y | y in rest ensures !Precedes(o, y, t[0]) {
        assert y in multiset(rest);
        if y == x {
          PrecedesAsymmetric(o, t[0], x);
        } else {
          assert y in t[1..];
        }
      }
      var r := [t[0]] + rest;
      forall i, j | 0 <= i < j < |r| ensures !Precedes(o, r[j], r[i]) {
        if i == 0 {
          assert r[j] in rest;
        } else {
          assert r[j] == rest[j - 1] && r[i] == rest[i - 1];
        }
      }
    }
  }

  /** The records come out in the comparator's order. */
  lemma {:induction false} SortSorted(o: SortOrder, s: seq<Expense>)
    ensures Sorted(o, Sort(o, s))
  {
    if s != [] {
      SortSorted(o, s[1..]);
      InsertSorted(o, s[0], Sort(o, s[1..]));
    }
  }

  /** The records of `s` the comparator ties with `k`, in their order in `s`. */
  function Ties(o: SortOrder, s: seq<Expense>, k: Expense): seq<Expense>
  {
    Filter(s, e => SameKey(o, e, k))
  }

  lemma {:induction false} InsertStable(o: SortOrder, x: Expense, t: seq<Expense>, k: Expense)
    ensures Ties(o, Insert(o, x, t), k) == (if SameKey(o, x, k) then [x] else []) + Ties(o, t, k)
  {
    var p := e => SameKey(o, e, k);
    if t == [] || !Precedes(o, t[0], x) {
      assert ([x] + t)[1..] == t;
    } else {
      InsertStable(o, x, t[1..], k);
      assert ([t[0]] + Insert(o, x, t[1..]))[1..] == Insert(o, x, t[1..]);
      if SameKey(o, x, k) && SameKey(o, t[0], k) {
        PrecedesAsymmetric(o, t[0], x);
      }
    }
  }

  /**
   * Stability: the records the comparator ties with `k` come out in the order they
   * were stored. Together with sortedness and the permutation this fixes the result
   * of any stable sort with this comparator.
   */
  lemma {:induction false} SortStable(o: SortOrder, s: seq<Expense>, k: Expense)
    ensures Ties(o, Sort(o, s), k) == Ties(o, s, k)
  {
    if s != [] {
      SortStable(o, s[1..], k);
      InsertStable(o, s[0], Sort(o, s[1..]), k);
    }
  }

  /** Default order: `created_at` never increases, and strictly decreases between distinct instants. */
  lemma NewestCreatedOrder(s: seq<Expense>, i: nat, j: nat)
    requires Sorted(NewestCreated, s) && i < j < |s|
    ensures AtLeast(s[i].createdAt, s[j].createdAt)
    ensures s[i].createdAt != s[j].createdAt ==> Less(s[j].createdAt, s[i].createdAt)
  {
    if s[i].createdAt != s[j].createdAt {
      LessTotal(s[i].createdAt, s[j].createdAt);
    }
  }

  /** `"date_desc"` order: `date` never increases, and among equal dates `created_at` never increases. */
  lemma NewestDateOrder(s: seq<Expense>, i: nat, j: nat)
    requires Sorted(NewestDate, s) && i < j < |s|
    ensures AtLeast(s[i].date, s[j].date)
    ensures s[i].date == s[j].date ==> AtLeast(s[i].createdAt, s[j].createdAt)
  {
    assert !Precedes(NewestDate, s[j], s[i]);
  }

  /** The sum of the stored minor units. */
  function SumMinor(s: seq<Expense>): int
  {
    if s == [] then 0 else s[0].amount + SumMinor(s[1..])
  }

  /** `expenses.reduce((sum, e) => sum + e.amount, 0)` over shown records. */
  function Total(vs: seq<ExpenseView>): real
  {
    if vs == [] then 0.0 else vs[0].amount + Total(vs[1..])
  }

  lemma {:induction false} InsertSum(o: SortOrder, x: Expense, t: seq<Expense>)
    ensures SumMinor(Insert(o, x, t)) == x.amount + SumMinor(t)
  {
    if t != [] && Precedes(o, t[0], x) {
      InsertSum(o, x, t[1..]);
      assert ([t[0]] + Insert(o, x, t[1..]))[1..] == Insert(o, x, t[1..]);
    } else {
      assert ([x] + t)[1..] == t;
    }
  }

  /** Sorting does not change the sum. */
  lemma {:induction false} SortSum(o: SortOrder, s: seq<Expense>)
    ensures SumMinor(Sort(o, s)) == SumMinor(s)
  {
    if s != [] {
      SortSum(o, s[1..]);
      InsertSum(o, s[0], Sort(o, s[1..]));
    }
  }

  /** The total of the shown amounts is the stored minor units' sum, in major units. */
  lemma {:induction false} TotalDisplayAll(s: seq<Expense>)
    ensures Total(DisplayAll(s)) == Money.ToMajor(SumMinor(s))
  {
    if s != [] {
      assert DisplayAll(s)[1..] == DisplayAll(s[1..]);
      TotalDisplayAll(s[1..]);
    }
  }
}
