/**
 * backend/routes/expenses.js: the POST handler (validation, idempotency hit or
 * miss, create-then-register) and the GET handler (options, total, count).
 */
module Routes {
  import opened Wrappers
  import opened Text
  import opened Seqs
  import opened FileSystem
  import opened Records
  import opened Db
  import Money

  /** `req.body.amount`: whether it is truthy, and what `parseFloat` makes of it (`None` for NaN). */
  datatype AmountField = AmountField(truthy: bool, parsed: Option<real>)

  /**
   * A POST request as the handler sees it. A string field that is absent and one
   * that is empty are both `""`, since the handler only tests them for truthiness.
   * `parsedDate` is `new Date(date).toISOString().split("T")[0]`, `None` for an
   * invalid date; `idempotencyKey` is the raw `Idempotency-Key` header.
   */
  datatype PostRequest = PostRequest(
    amount: AmountField,
    category: string,
    description: string,
    date: string,
    parsedDate: Option<string>,
    idempotencyKey: string)

  /**
   * What the runtime supplies to one request: the `uuidv4()` id, the two
   * `new Date().toISOString()` readings (record, ledger entry), and how each write fares.
   */
  datatype Env = Env(freshId: string, recordTime: string, ledgerTime: string, expenseFault: Fault, ledgerFault: Fault)

  /** The handler's responses, by status. */
  datatype Response =
    | BadRequest(error: string)
    | Replayed(existing: Option<ExpenseView>)
    | Created(expense: ExpenseView)
    | ServerError(cause: IoError)

  function Status(r: Response): int
  {
    match r
    case BadRequest(_) => 400
    case Replayed(_) => 200
    case Created(_) => 201
    case ServerError(_) => 500
  }

  const MissingFields: string := "Missing required fields"
  const NotPositive: string := "Amount must be a positive number"
  const InvalidDate: string := "Invalid date format. Use ISO 8601 format (YYYY-MM-DD)"

  /** `!amount || !category || !description || !date` fails. */
  predicate HasRequiredFields(req: PostRequest)
  {
    req.amount.truthy && req.category != "" && req.description != "" && req.date != ""
  }

  /** `isNaN(amountNum) || amountNum <= 0` fails. */
  predicate PositiveAmount(a: AmountField)
  {
    a.parsed.Some? && a.parsed.value > 0.0
  }

  /** The 400 error the handler answers with, checked in the handler's order, if any. */
  function Rejection(req: PostRequest): Option<string>
  {
    if !HasRequiredFields(req) then Some(MissingFields)
    else if !PositiveAmount(req.amount) then Some(NotPositive)
    else if req.parsedDate.None? then Some(InvalidDate)
    else None
  }

  predicate Valid(req: PostRequest)
  {
    Rejection(req).None?
  }

  /** The record the handler builds for a valid request. */
  function NewExpense(req: PostRequest, env: Env): Expense
    requires Valid(req)
  {
    Expense(env.freshId, Money.ToMinor(req.amount.parsed.value), Trim(req.category),
            Trim(req.description), req.parsedDate.value, env.recordTime)
  }

  /** The stored record: fresh id, amount in minor units, trimmed text, normalised date, creation instant. */
  lemma NewExpenseFields(req: PostRequest, env: Env)
    requires Valid(req)
    ensures var e := NewExpense(req, env);
      && e.id == env.freshId && e.createdAt == env.recordTime && e.date == req.parsedDate.value
      && e.amount == Money.ToMinor(req.amount.parsed.value) && e.amount >= 0
      && (exists i, j :: 0 <= i <= j <= |req.category| && e.category == req.category[i..j])
      && (e.category == [] <==> forall k :: 0 <= k < |req.category| ==> IsSpace(req.category[k]))
      && (e.description == [] <==> forall k :: 0 <= k < |req.description| ==> IsSpace(req.description[k]))
  {
    Money.PositiveAmountStored(req.amount.parsed.value);
    TrimEmpty(req.category);
    TrimEmpty(req.description);
  }

  /** The two documents the handlers touch. */
  datatype World = World(expenses: Files<Expense>, ledger: Files<Entry>)

  /** A response and the documents it leaves behind. */
  datatype Handled = Handled(response: Response, world: World)

  /** The record id the ledger resolves the request's key to, when the key is truthy and so is the id. */
  function Hit(w: World, key: string): Option<string>
  {
    if key == "" then None
    else match Lookup(Read(w.ledger, IdempotencyFile), key)
      case Some(id) => if id != "" then Some(id) else None
      case None => None
  }

  /** The POST `/` handler over the documents. */
  function HandlePost(w: World, req: PostRequest, env: Env): Handled
  {
    match Rejection(req)
    case Some(error) => Handled(BadRequest(error), w)
    case None =>
      match Hit(w, req.idempotencyKey)
      case Some(id) => Handled(Replayed(ById(Read(w.expenses, ExpensesFile), id)), w)
      case None =>
        var e := NewExpense(req, env);
        var expenses := AfterCreate(w.expenses, e, env.expenseFault);
        if env.expenseFault != NoFault then
          Handled(ServerError(WriteError(ExpensesFile, env.expenseFault)), World(expenses, w.ledger))
        else if req.idempotencyKey == "" then
          Handled(Created(Display(e)), World(expenses, w.ledger))
        else
          var ledger := AfterStore(w.ledger, req.idempotencyKey, e.id, env.ledgerTime, env.ledgerFault);
          if env.ledgerFault != NoFault then
            Handled(ServerError(WriteError(IdempotencyFile, env.ledgerFault)), World(expenses, ledger))
          else Handled(Created(Display(e)), World(expenses, ledger))
  }

  /** The POST `/` handler: validate, look the key up, replay on a hit, else create and then register. */
  method Post(db: Store, req: PostRequest, env: Env) returns (resp: Response)
    modifies db.expenses, db.ledger
    ensures Handled(resp, World(db.expenses.files, db.ledger.files))
         == HandlePost(old(World(db.expenses.files, db.ledger.files)), req, env)
  {
    if !HasRequiredFields(req) {
      return BadRequest(MissingFields);
    }
    if !PositiveAmount(req.amount) {
      return BadRequest(NotPositive);
    }
    if req.parsedDate.None? {
      return BadRequest(InvalidDate);
    }
    var key := req.idempotencyKey;
    if key != "" {
      var existingId := db.CheckIdempotencyKey(key);
      if existingId.Some? && existingId.value != "" {
        var existing := db.GetExpenseById(existingId.value);
        return Replayed(existing);
      }
    }
    var expense := NewExpense(req, env);
    var created := db.CreateExpense(expense, env.expenseFault);
    if created.Failure? {
      return ServerError(created.error);
    }
    if key != "" {
      var stored := db.StoreIdempotencyKey(key, expense.id, env.ledgerTime, env.ledgerFault);
      if stored.Fail? {
        return ServerError(stored.error);
      }
    }
    return Created(Display(expense));
  }

  /** A request is answered 400 exactly when it fails validation, and then neither document changes. */
  lemma RejectionChangesNothing(w: World, req: PostRequest, env: Env)
    ensures HandlePost(w, req, env).response.BadRequest? <==> !Valid(req)
    ensures !Valid(req) ==> HandlePost(w, req, env) == Handled(BadRequest(Rejection(req).value), w)
    ensures !HasRequiredFields(req) ==> HandlePost(w, req, env).response == BadRequest(MissingFields)
    ensures (HasRequiredFields(req) && !PositiveAmount(req.amount))
              ==> HandlePost(w, req, env).response == BadRequest(NotPositive)
    ensures (HasRequiredFields(req) && PositiveAmount(req.amount) && req.parsedDate.None?)
              ==> HandlePost(w, req, env).response == BadRequest(InvalidDate)
  {
  }

  /** On a hit the stored record (or `null` for a dangling id) is answered with 200 and nothing is written. */
  lemma HitChangesNothing(w: World, req: PostRequest, env: Env, id: string)
    requires Valid(req) && req.idempotencyKey != ""
    requires Lookup(Read(w.ledger, IdempotencyFile), req.idempotencyKey) == Some(id) && id != ""
    ensures HandlePost(w, req, env) == Handled(Replayed(ById(Read(w.expenses, ExpensesFile), id)), w)
  {
  }

  /** When creating the record fails the answer is 500, the ledger is not written and the records stay as they were. */
  lemma CreateFailureSkipsLedger(w: World, req: PostRequest, env: Env)
    requires Valid(req) && Hit(w, req.idempotencyKey).None? && env.expenseFault != NoFault
    ensures var h := HandlePost(w, req, env);
      && h.response == ServerError(WriteError(ExpensesFile, env.expenseFault))
      && h.world.ledger == w.ledger
      && At(h.world.expenses, ExpensesFile) == At(w.expenses, ExpensesFile)
  {
  }

  /** On a miss the record is appended, and only then the key registered for its id. */
  lemma MissCreatesThenRegisters(w: World, req: PostRequest, env: Env)
    requires Valid(req) && Hit(w, req.idempotencyKey).None? && env.expenseFault == NoFault
    ensures var h := HandlePost(w, req, env);
      && Read(h.world.expenses, ExpensesFile) == Read(w.expenses, ExpensesFile) + [NewExpense(req, env)]
      && (req.idempotencyKey != "" && env.ledgerFault == NoFault ==>
            Read(h.world.ledger, IdempotencyFile)
              == Read(w.ledger, IdempotencyFile) + [Entry(req.idempotencyKey, env.freshId, env.ledgerTime)])
      && (h.response.Created? <==> req.idempotencyKey == "" || env.ledgerFault == NoFault)
      && (h.response.Created? ==> h.response.expense == Display(NewExpense(req, env)))
  {
  }

  /**
   * Registering the key can fail after the record was stored: the answer is 500,
   * the record stays and the key stays unregistered, so a retry creates a second record.
   */
  lemma RegisterFailureLeavesRecord(w: World, req: PostRequest, env: Env)
    requires Valid(req) && req.idempotencyKey != ""
    requires Lookup(Read(w.ledger, IdempotencyFile), req.idempotencyKey).None?
    requires env.expenseFault == NoFault && env.ledgerFault != NoFault
    ensures var h := HandlePost(w, req, env);
      && h.response == ServerError(WriteError(IdempotencyFile, env.ledgerFault))
      && Read(h.world.expenses, ExpensesFile) == Read(w.expenses, ExpensesFile) + [NewExpense(req, env)]
      && Lookup(Read(h.world.ledger, IdempotencyFile), req.idempotencyKey).None?
  {
    var h := HandlePost(w, req, env);
    ReadAfterFailedWrite(w.ledger, IdempotencyFile,
      Read(w.ledger, IdempotencyFile) + [Entry(req.idempotencyKey, env.freshId, env.ledgerTime)], env.ledgerFault);
  }

  /** Without a key the ledger is neither read nor written: the outcome is the same whatever it holds. */
  lemma NoKeyIgnoresLedger(expenses: Files<Expense>, l1: Files<Entry>, l2: Files<Entry>, req: PostRequest, env: Env)
    requires req.idempotencyKey == ""
    ensures var h1 := HandlePost(World(expenses, l1), req, env);
            var h2 := HandlePost(World(expenses, l2), req, env);
      && h1.response == h2.response && h1.world.expenses == h2.world.expenses
      && h1.world.ledger == l1 && h2.world.ledger == l2
  {
  }

  /** The ledger a request leaves: as it was, or with the one entry for the request's key appended. */
  lemma LedgerAfterPost(w: World, req: PostRequest, env: Env)
    ensures var before := Read(w.ledger, IdempotencyFile);
            var after := Read(HandlePost(w, req, env).world.ledger, IdempotencyFile);
      || after == before
      || after == before + [Entry(req.idempotencyKey, env.freshId, env.ledgerTime)]
  {
    var h := HandlePost(w, req, env);
    var key := req.idempotencyKey;
    if !Valid(req) || Hit(w, key).Some? || env.expenseFault != NoFault || key == "" {
      assert h.world.ledger == w.ledger;
    } else if env.ledgerFault != NoFault {
      var e := NewExpense(req, env);
      assert h.world.ledger == AfterStore(w.ledger, key, e.id, env.ledgerTime, env.ledgerFault);
      ReadAfterFailedWrite(w.ledger, IdempotencyFile,
        Read(w.ledger, IdempotencyFile) + [Entry(key, env.freshId, env.ledgerTime)], env.ledgerFault);
    }
  }

  /** Handling a request keeps every ledger entry's record id truthy, given a truthy fresh id. */
  lemma PostKeepsIdsPresent(w: World, req: PostRequest, env: Env)
    requires IdsPresent(Read(w.ledger, IdempotencyFile)) && env.freshId != ""
    ensures IdsPresent(Read(HandlePost(w, req, env).world.ledger, IdempotencyFile))
  {
    LedgerAfterPost(w, req, env);
  }

  /** What a 201 answer implies about the request and the documents it leaves. */
  lemma CreatedShape(w: World, req: PostRequest, env: Env)
    requires HandlePost(w, req, env).response.Created?
    ensures Valid(req) && Hit(w, req.idempotencyKey).None? && env.expenseFault == NoFault
    ensures var h := HandlePost(w, req, env);
      && h.response.expense == Display(NewExpense(req, env))
      && Read(h.world.expenses, ExpensesFile) == Read(w.expenses, ExpensesFile) + [NewExpense(req, env)]
      && (req.idempotencyKey != "" ==>
            Read(h.world.ledger, IdempotencyFile)
              == Read(w.ledger, IdempotencyFile) + [Entry(req.idempotencyKey, env.freshId, env.ledgerTime)])
  {
  }

  /** What a 200 answer implies: the key was a hit and nothing was written. */
  lemma ReplayedShape(w: World, req: PostRequest, env: Env)
    requires HandlePost(w, req, env).response.Replayed?
    ensures Valid(req) && Hit(w, req.idempotencyKey).Some?
    ensures HandlePost(w, req, env)
         == Handled(Replayed(ById(Read(w.expenses, ExpensesFile), Hit(w, req.idempotencyKey).value)), w)
  {
    if Valid(req) && Hit(w, req.idempotencyKey).None? {
      MissAnswer(w, req, env);
    }
  }

  /** A valid request whose key is not a hit is answered 201 or 500. */
  lemma MissAnswer(w: World, req: PostRequest, env: Env)
    requires Valid(req) && Hit(w, req.idempotencyKey).None?
    ensures HandlePost(w, req, env).response.Created? || HandlePost(w, req, env).response.ServerError?
  {
  }

  /** With every ledger id truthy, a key is a hit exactly when some entry carries it. */
  lemma HitIsLookup(w: World, key: string)
    requires key != "" && IdsPresent(Read(w.ledger, IdempotencyFile))
    ensures Hit(w, key) == Lookup(Read(w.ledger, IdempotencyFile), key)
  {
    var entries := Read(w.ledger, IdempotencyFile);
    if Lookup(entries, key).Some? {
      var i :| 0 <= i < |entries| && entries[i].key == key && entries[i].expenseId == Lookup(entries, key).value;
    }
  }

  /** A record with a fresh id, appended, is the one record found by that id. */
  lemma FreshRecordFound(records: seq<Expense>, e: Expense)
    requires forall x :: x in records ==> x.id != e.id
    ensures ById(records + [e], e.id) == Some(Display(e))
    ensures |Filter(records + [e], (x: Expense) => x.id == e.id)| == 1
  {
    var p := (x: Expense) => x.id == e.id;
    FindAppend(records, e, p);
    FilterConcat(records, [e], p);
    FilterNone(records, p);
  }

  /**
   * Idempotent create: after a POST with key `k` was answered 201 or 200, a retry
   * with `k` and any valid payload writes nothing and answers 200 with the same
   * record, and the store holds exactly one record with that id.
   */
  lemma RetryReturnsSameRecord(w: World, req1: PostRequest, env1: Env, req2: PostRequest, env2: Env)
    requires Valid(req2)
    requires req1.idempotencyKey != "" && req2.idempotencyKey == req1.idempotencyKey
    requires IdsPresent(Read(w.ledger, IdempotencyFile))
    requires env1.freshId != "" && forall e :: e in Read(w.expenses, ExpensesFile) ==> e.id != env1.freshId
    requires HandlePost(w, req1, env1).response.Created? || HandlePost(w, req1, env1).response.Replayed?
    ensures var first := HandlePost(w, req1, env1);
            var second := HandlePost(first.world, req2, env2);
      && second.world == first.world
      && second.response == (if first.response.Created? then Replayed(Some(first.response.expense)) else first.response)
    ensures var first := HandlePost(w, req1, env1);
      first.response.Created? ==>
        |Filter(Read(first.world.expenses, ExpensesFile), (e: Expense) => e.id == env1.freshId)| == 1
  {
    var key := req1.idempotencyKey;
    var first := HandlePost(w, req1, env1);
    if first.response.Created? {
      CreatedShape(w, req1, env1);
      var entries := Read(w.ledger, IdempotencyFile);
      var e := NewExpense(req1, env1);
      HitIsLookup(w, key);
      LookupAppend(entries, Entry(key, env1.freshId, env1.ledgerTime), key);
      assert Hit(first.world, key) == Some(env1.freshId);
      HitChangesNothing(first.world, req2, env2, env1.freshId);
      FreshRecordFound(Read(w.expenses, ExpensesFile), e);
    } else {
      ReplayedShape(w, req1, env1);
      var id := Hit(w, key).value;
      HitChangesNothing(w, req2, env2, id);
    }
  }

  /** GET `/` query parameters; `""` stands for an absent or empty one. */
  datatype Query = Query(category: string, sort: string)

  /** The options object: a parameter is forwarded only when it is non-empty. */
  function Forward(q: Query): Options
  {
    Options(if q.category != "" then Some(q.category) else None, if q.sort != "" then Some(q.sort) else None)
  }

  /** The category filter applies exactly when the parameter is non-empty; only `"date_desc"` selects the date order. */
  lemma ForwardOnlyNonEmpty(q: Query)
    ensures HasCategory(Forward(q)) <==> q.category != ""
    ensures HasCategory(Forward(q)) ==> Forward(q).category.value == q.category
    ensures OrderOf(Forward(q)) == NewestDate <==> q.sort == "date_desc"
  {
  }

  /** The GET response body. */
  datatype Listed = Listed(expenses: seq<ExpenseView>, total: real, count: nat)

  /**
   * The GET `/` handler: `count` is the number of listed records, `total` the sum
   * of their amounts, which is the matching stored minor units' sum in major units,
   * and under a category parameter every listed record has that category.
   */
  function Get(db: Store, q: Query): (r: Listed)
    reads db.expenses
    ensures r.count == |r.expenses|
    ensures var matching := Matching(db.expenses.ReadData(ExpensesFile), Forward(q));
      && r.count == |matching|
      && r.total == Money.ToMajor(SumMinor(matching))
    ensures q.category != "" ==> forall i :: 0 <= i < |r.expenses| ==> r.expenses[i].category == q.category
  {
    var records := db.expenses.ReadData(ExpensesFile);
    var expenses := db.GetExpenses(Forward(q));
    ListingTotals(records, Forward(q));
    Money.MinorRoundTrip(SumMinor(Matching(records, Forward(q))));
    var selected := Selected(records, Forward(q));
    assert forall i :: 0 <= i < |expenses| ==> expenses[i].category == selected[i].category && selected[i] in selected;
    Listed(expenses, Money.RoundToMinor(Total(expenses)), |expenses|)
  }
}
