/**
 * backend/db.js: the expense record store and the idempotency ledger, each kept as
 * one JSON document rewritten in full through `writeData`.
 */
module Db {
  import opened Wrappers
  import opened Text
  import opened Seqs
  import opened FileSystem
  import opened Records

  const ExpensesFile: string := "data/expenses.json"
  const IdempotencyFile: string := "data/idempotency.json"

  /** How long a ledger entry is kept: 24 hours, in milliseconds. */
  const RetentionMs: int := 24 * 60 * 60 * 1000

  /** The `options` object of `getExpenses`; `None` is an absent property. */
  datatype Options = Options(category: Option<string>, sort: Option<string>)

  // Record store, over a snapshot of the disk

  /** The disk after `createExpense(e)`: the stored records with `e` appended, or untouched on failure. */
  function AfterCreate(fs: Files<Expense>, e: Expense, fault: Fault): (r: Files<Expense>)
    ensures fault == NoFault ==> Read(r, ExpensesFile) == Read(fs, ExpensesFile) + [e]
    ensures fault != NoFault ==> At(r, ExpensesFile) == At(fs, ExpensesFile)
  {
    var records := Read(fs, ExpensesFile) + [e];
    ReadAfterWrite(fs, ExpensesFile, records);
    Written(fs, ExpensesFile, records, fault)
  }

  /**
   * The lenient read has a cost: creating a record while the stored document is
   * unreadable replaces every stored record with the new one.
   */
  lemma CreateOverCorrupt(fs: Files<Expense>, e: Expense)
    requires At(fs, ExpensesFile) == Some(Corrupt)
    ensures Read(AfterCreate(fs, e, NoFault), ExpensesFile) == [e]
  {
  }

  /** `options.category` is set (truthy). */
  predicate HasCategory(o: Options)
  {
    o.category.Some? && o.category.value != ""
  }

  /** The record passes the category filter of `o`. */
  predicate Matches(o: Options, e: Expense)
  {
    !HasCategory(o) || e.category == o.category.value
  }

  /** `options.sort === "date_desc"` selects the date order, anything else the default. */
  function OrderOf(o: Options): SortOrder
  {
    if o.sort == Some("date_desc") then NewestDate else NewestCreated
  }

  /** The records left by the category filter, in stored order. */
  function Matching(records: seq<Expense>, o: Options): seq<Expense>
  {
    if HasCategory(o) then Filter(records, (e: Expense) => e.category == o.category.value) else records
  }

  /** Exactly the records passing the filter, each as often as stored; all of them when no category is set. */
  lemma MatchingExactly(records: seq<Expense>, o: Options)
    ensures forall e :: multiset(Matching(records, o))[e] == if Matches(o, e) then multiset(records)[e] else 0
    ensures forall e :: e in Matching(records, o) <==> e in records && Matches(o, e)
    ensures !HasCategory(o) ==> Matching(records, o) == records
  {
    if HasCategory(o) {
      FilterMultiset(records, (e: Expense) => e.category == o.category.value);
    }
  }

  /**
   * The stored records `getExpenses(o)` returns before converting amounts: a
   * permutation of the matching records, sorted, ties kept in stored order.
   */
  function Selected(records: seq<Expense>, o: Options): (r: seq<Expense>)
    ensures multiset(r) == multiset(Matching(records, o))
    ensures forall e :: e in r <==> e in records && Matches(o, e)
    ensures Sorted(OrderOf(o), r)
    ensures forall k :: Ties(OrderOf(o), r, k) == Ties(OrderOf(o), Matching(records, o), k)
  {
    var m := Matching(records, o);
    MatchingExactly(records, o);
    SortSorted(OrderOf(o), m);
    forall k ensures Ties(OrderOf(o), Sort(OrderOf(o), m), k) == Ties(OrderOf(o), m, k) {
      SortStable(OrderOf(o), m, k);
    }
    assert forall e :: e in Sort(OrderOf(o), m) <==> e in multiset(m);
    Sort(OrderOf(o), m)
  }

  /** The result of `getExpenses(o)` over the stored records. */
  function Listing(records: seq<Expense>, o: Options): seq<ExpenseView>
  {
    DisplayAll(Selected(records, o))
  }

  /** The result holds one shown record per matching record, and its total is theirs. */
  lemma ListingTotals(records: seq<Expense>, o: Options)
    ensures |Listing(records, o)| == |Matching(records, o)|
    ensures Total(Listing(records, o)) == Money.ToMajor(SumMinor(Matching(records, o)))
  {
    var m := Matching(records, o);
    assert |Selected(records, o)| == |multiset(m)|;
    TotalDisplayAll(Selected(records, o));
    SortSum(OrderOf(o), m);
  }

  /** `expenses.find(e => e.id === id)`. */
  function FindById(records: seq<Expense>, id: string): (r: Option<Expense>)
    ensures r.Some? <==> exists i :: 0 <= i < |records| && records[i].id == id
    ensures r.Some? ==> exists i :: && 0 <= i < |records| && records[i] == r.value && records[i].id == id
                                    && forall j :: 0 <= j < i ==> records[j].id != id
  {
    Find(records, (e: Expense) => e.id == id)
  }

  /** `getExpenseById(id)` over the stored records: `null` when no record has that id. */
  function ById(records: seq<Expense>, id: string): Option<ExpenseView>
  {
    match FindById(records, id)
    case None => None
    case Some(e) => Some(Display(e))
  }

  // Idempotency ledger, over a snapshot of the disk

  /** `checkIdempotencyKey(key)` over the entries: the record id of the first entry with that key. */
  function Lookup(entries: seq<Entry>, key: string): (r: Option<string>)
    ensures r.None? <==> forall i :: 0 <= i < |entries| ==> entries[i].key != key
    ensures r.Some? ==> exists i :: && 0 <= i < |entries| && entries[i].key == key
                                    && entries[i].expenseId == r.value
                                    && forall j :: 0 <= j < i ==> entries[j].key != key
  {
    match Find(entries, (e: Entry) => e.key == key)
    case None => None
    case Some(e) => Some(e.expenseId)
  }

  /** Appending an entry never changes what a key already resolves to: the first writer wins. */
  lemma {:induction false} LookupAppend(entries: seq<Entry>, x: Entry, key: string)
    ensures Lookup(entries + [x], key)
         == if Lookup(entries, key).Some? then Lookup(entries, key)
            else if x.key == key then Some(x.expenseId) else None
  {
    FindAppend(entries, x, (e: Entry) => e.key == key);
  }

  /** Every entry names a record id that is truthy, as every id from `uuidv4()` is. */
  predicate IdsPresent(entries: seq<Entry>)
  {
    forall i :: 0 <= i < |entries| ==> entries[i].expenseId != ""
  }

  /** The disk after `storeIdempotencyKey(key, id)` at instant `now`. */
  function AfterStore(fs: Files<Entry>, key: string, expenseId: string, now: string, fault: Fault): (r: Files<Entry>)
    ensures fault == NoFault ==> Read(r, IdempotencyFile) == Read(fs, IdempotencyFile) + [Entry(key, expenseId, now)]
    ensures fault != NoFault ==> At(r, IdempotencyFile) == At(fs, IdempotencyFile)
  {
    var entries := Read(fs, IdempotencyFile) + [Entry(key, expenseId, now)];
    ReadAfterWrite(fs, IdempotencyFile, entries);
    Written(fs, IdempotencyFile, entries, fault)
  }

  /** The cutoff of `cleanupIdempotencyKeys`: the ISO string of 24 hours before `nowMs`. */
  function Cutoff(nowMs: int, iso: int -> string): string
  {
    iso(nowMs - RetentionMs)
  }

  /** `keys.filter(item => item.created_at >= cutoff)`. */
  function Retained(entries: seq<Entry>, cutoff: string): seq<Entry>
  {
    Filter(entries, (e: Entry) => AtLeast(e.createdAt, cutoff))
  }

  /** What a sweep did: how many entries it removed, the disk after it, and whether it threw. */
  datatype Sweep = Sweep(removed: nat, files: Files<Entry>, outcome: Outcome<IoError>)

  /** `cleanupIdempotencyKeys()` with `cutoff`: the ledger is rewritten only when something was removed. */
  function AfterCleanup(fs: Files<Entry>, cutoff: string, fault: Fault): (r: Sweep)
    ensures r.removed == |Read(fs, IdempotencyFile)| - |Retained(Read(fs, IdempotencyFile), cutoff)|
    ensures r.removed == 0 ==> r.files == fs && r.outcome == Pass
    ensures r.removed > 0 && fault == NoFault ==>
              r.outcome == Pass && Read(r.files, IdempotencyFile) == Retained(Read(fs, IdempotencyFile), cutoff)
    ensures r.removed > 0 && fault != NoFault ==>
              r.outcome.Fail? && At(r.files, IdempotencyFile) == At(fs, IdempotencyFile)
  {
    var keys := Read(fs, IdempotencyFile);
    var kept := Retained(keys, cutoff);
    var removed := |keys| - |kept|;
    if removed > 0 then
      ReadAfterWrite(fs, IdempotencyFile, kept);
      Sweep(removed, Written(fs, IdempotencyFile, kept, fault),
            if fault == NoFault then Pass else Fail(WriteError(IdempotencyFile, fault)))
    else Sweep(0, fs, Pass)
  }

  /**
   * A sweep keeps exactly the entries stamped at or after the cutoff, in their
   * order, and removes as many entries as are stamped before it.
   */
  lemma SweepKeepsExactly(entries: seq<Entry>, cutoff: string)
    ensures forall e :: e in Retained(entries, cutoff) <==> e in entries && AtLeast(e.createdAt, cutoff)
    ensures forall e :: multiset(Retained(entries, cutoff))[e]
                     == if AtLeast(e.createdAt, cutoff) then multiset(entries)[e] else 0
    ensures forall a, b :: Retained(a + b, cutoff) == Retained(a, cutoff) + Retained(b, cutoff)
    ensures |entries| - |Retained(entries, cutoff)| == |Filter(entries, (e: Entry) => Less(e.createdAt, cutoff))|
  {
    var p := (e: Entry) => AtLeast(e.createdAt, cutoff);
    FilterMultiset(entries, p);
    forall a, b ensures Retained(a + b, cutoff) == Retained(a, cutoff) + Retained(b, cutoff) {
      FilterConcat(a, b, p);
    }
    FilterSplit(entries, p, (e: Entry) => Less(e.createdAt, cutoff));
  }

  /**
   * The eviction boundary: an entry stamped exactly 24 hours before `nowMs` is kept;
   * one stamped a second earlier is removed whenever the ISO strings of the two
   * instants are in order.
   */
  lemma SweepBoundary(entries: seq<Entry>, nowMs: int, iso: int -> string, e: Entry)
    requires e in entries
    ensures e.createdAt == iso(nowMs - RetentionMs) ==> e in Retained(entries, Cutoff(nowMs, iso))
    ensures (e.createdAt == iso(nowMs - RetentionMs - 1000) && Less(iso(nowMs - RetentionMs - 1000), iso(nowMs - RetentionMs)))
              ==> e !in Retained(entries, Cutoff(nowMs, iso))
  {
    LessIrreflexive(e.createdAt);
  }

  /** A second sweep with the same cutoff removes nothing and writes nothing. */
  lemma SweepIdempotent(fs: Files<Entry>, cutoff: string)
    ensures AfterCleanup(AfterCleanup(fs, cutoff, NoFault).files, cutoff, NoFault).removed == 0
  {
    var s := AfterCleanup(fs, cutoff, NoFault);
    var keys := Read(fs, IdempotencyFile);
    FilterIdempotent(keys, (e: Entry) => AtLeast(e.createdAt, cutoff));
    if s.removed == 0 {
      assert s.files == fs;
    }
  }

  /** A sweep, failed or not, keeps every remaining entry's record id truthy. */
  lemma SweepKeepsIdsPresent(fs: Files<Entry>, cutoff: string, fault: Fault)
    requires IdsPresent(Read(fs, IdempotencyFile))
    ensures IdsPresent(Read(AfterCleanup(fs, cutoff, fault).files, IdempotencyFile))
  {
    var keys := Read(fs, IdempotencyFile);
    var r := AfterCleanup(fs, cutoff, fault);
    if r.removed > 0 && fault == NoFault {
      var kept := Retained(keys, cutoff);
      forall i | 0 <= i < |kept| ensures kept[i].expenseId != "" {
        assert kept[i] in keys;
      }
    } else if r.removed > 0 {
      assert At(r.files, IdempotencyFile) == At(fs, IdempotencyFile);
    }
  }

  /** The store: its two documents, each behind its own disk. */
  class Store {
    const expenses: Disk<Expense>
    const ledger: Disk<Entry>

    constructor (expenses: Disk<Expense>, ledger: Disk<Entry>)
      ensures this.expenses == expenses && this.ledger == ledger
    {
      this.expenses := expenses;
      this.ledger := ledger;
    }

    /** `createExpense(expense)`: read, push, rewrite; returns the record it was given. */
    method CreateExpense(expense: Expense, fault: Fault) returns (r: Result<Expense, IoError>)
      modifies expenses
      ensures expenses.files == AfterCreate(old(expenses.files), expense, fault)
      ensures r == if fault == NoFault then Success(expense) else Failure(WriteError(ExpensesFile, fault))
    {
      var records := expenses.ReadData(ExpensesFile);
      records := records + [expense];
      var written := expenses.WriteData(ExpensesFile, records, fault);
      if written.Fail? {
        return Failure(written.error);
      }
      return Success(expense);
    }

    /** `getExpenses(options)`: reads only. */
    function GetExpenses(options: Options): (r: seq<ExpenseView>)
      reads expenses
      ensures var records := expenses.ReadData(ExpensesFile);
        && |r| == |Matching(records, options)|
        && Total(r) == Money.ToMajor(SumMinor(Matching(records, options)))
        && forall i :: 0 <= i < |r| ==> exists e :: e in records && Matches(options, e) && r[i] == Display(e)
    {
      var records := expenses.ReadData(ExpensesFile);
      var selected := Selected(records, options);
      ListingTotals(records, options);
      assert forall i :: 0 <= i < |selected| ==> selected[i] in selected;
      Listing(records, options)
    }

    /** `storeIdempotencyKey(key, expenseId)`, stamped with the clock reading `now`. */
    method StoreIdempotencyKey(key: string, expenseId: string, now: string, fault: Fault) returns (r: Outcome<IoError>)
      modifies ledger
      ensures ledger.files == AfterStore(old(ledger.files), key, expenseId, now, fault)
      ensures r == if fault == NoFault then Pass else Fail(WriteError(IdempotencyFile, fault))
    {
      var keys := ledger.ReadData(IdempotencyFile);
      keys := keys + [Entry(key, expenseId, now)];
      r := ledger.WriteData(IdempotencyFile, keys, fault);
    }

    /** `checkIdempotencyKey(key)`: reads only. */
    function CheckIdempotencyKey(key: string): (r: Option<string>)
      reads ledger
      ensures var entries := ledger.ReadData(IdempotencyFile);
        && (r.None? <==> forall i :: 0 <= i < |entries| ==> entries[i].key != key)
        && (r.Some? ==> exists i :: && 0 <= i < |entries| && entries[i].key == key
                                    && entries[i].expenseId == r.value
                                    && forall j :: 0 <= j < i ==> entries[j].key != key)
    {
      Lookup(ledger.ReadData(IdempotencyFile), key)
    }

    /** `getExpenseById(id)`: reads only. */
    function GetExpenseById(id: string): (r: Option<ExpenseView>)
      reads expenses
      ensures var records := expenses.ReadData(ExpensesFile);
        && (r.None? <==> forall i :: 0 <= i < |records| ==> records[i].id != id)
        && (r.Some? ==> exists i :: && 0 <= i < |records| && records[i].id == id
                                    && r.value == Display(records[i])
                                    && forall j :: 0 <= j < i ==> records[j].id != id)
    {
      ById(expenses.ReadData(ExpensesFile), id)
    }

    /** `cleanupIdempotencyKeys()` with clock reading `nowMs` and `toISOString` as `iso`. */
    method CleanupIdempotencyKeys(nowMs: int, iso: int -> string, fault: Fault) returns (removed: nat, r: Outcome<IoError>)
      modifies ledger
      ensures Sweep(removed, ledger.files, r) == AfterCleanup(old(ledger.files), Cutoff(nowMs, iso), fault)
    {
      var cutoff := iso(nowMs - RetentionMs);
      var keys := ledger.ReadData(IdempotencyFile);
      var filtered := Filter(keys, (e: Entry) => AtLeast(e.createdAt, cutoff));
      removed := |keys| - |filtered|;
      r := Pass;
      if removed > 0 {
        r := ledger.WriteData(IdempotencyFile, filtered, fault);
      }
    }
  }
}
