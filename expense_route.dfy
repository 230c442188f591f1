/**
 * The expense handlers (fast_backend/app/routes/expense_route.py). Each one
 * receives the acting user's id, the value the access guard took from the
 * token's `sub` claim, and a store handle, just as the source receives
 * `user_id` and `db`. Every lookup is filtered by that id.
 */
module ExpenseRoute {
  import opened Wrappers
  import opened Utils
  import opened UserModel

  /** The request body of `create_expense`. */
  datatype CreateExpenseRequest = CreateExpenseRequest(category: string, amount: real, description: Option<string>)

  /** The request body of `update_expense`: None means "not supplied". */
  datatype UpdateExpenseRequest = UpdateExpenseRequest(expenseId: int, category: Option<string>,
                                         amount: Option<real>, description: Option<string>)

  /** One error for "no such id" and for "someone else's id". */
  const ExpenseNotFound := HttpError(404, "Expense doesn't exist")

  predicate Matches(e: Expense, id: int, userId: int) {
    e.id == id && e.userId == userId
  }

  /**
   * `query(Expense).filter(id == expense_id & user_id == user_id).first()`:
   * the position of the first matching row, if any.
   */
  function FindOwned(expenses: seq<Expense>, id: int, userId: int): (r: Option<nat>)
    ensures r.Some? ==> r.value < |expenses| && Matches(expenses[r.value], id, userId)
    ensures r.Some? ==> forall k :: 0 <= k < r.value ==> !Matches(expenses[k], id, userId)
    ensures r.None? <==> forall k :: 0 <= k < |expenses| ==> !Matches(expenses[k], id, userId)
  {
    if expenses == [] then None
    else if Matches(expenses[0], id, userId) then Some(0)
    else
      match FindOwned(expenses[1..], id, userId)
      case None => None
      case Some(k) => Some(k + 1)
  }

  /** A row that exists but belongs to another user is found exactly as often as a missing one: never. */
  lemma {:induction false} ForeignRowHidden(expenses: seq<Expense>, k: nat, userId: int)
    requires UniqueExpenseIds(expenses)
    requires k < |expenses| && expenses[k].userId != userId
    ensures FindOwned(expenses, expenses[k].id, userId) == None
  {
    var id := expenses[k].id;
    forall j | 0 <= j < |expenses| ensures !Matches(expenses[j], id, userId) {
      if j != k {
        assert expenses[j].id != id by {
          if j < k { assert expenses[j].id != expenses[k].id; }
          else { assert expenses[k].id != expenses[j].id; }
        }
      }
    }
  }

  /**
   * The field assignments of `update_expense`: each supplied field is
   * written, each absent one kept. Key, owner and stamps are untouched.
   */
  function Patch(e: Expense, req: UpdateExpenseRequest): (r: Expense)
    ensures r.id == e.id && r.userId == e.userId && r.stamps == e.stamps
    ensures req.amount.None? ==> r.amount == e.amount
    ensures req.amount.Some? ==> r.amount == req.amount.value
    ensures req.category.None? ==> r.category == e.category
    ensures req.category.Some? ==> r.category == req.category.value
    ensures req.description.None? ==> r.description == e.description
    ensures req.description.Some? ==> r.description == req.description
    ensures e.description.Some? ==> r.description.Some?
  {
    var e1 := if req.amount.Some? then e.(amount := req.amount.value) else e;
    var e2 := if req.category.Some? then e1.(category := req.category.value) else e1;
    if req.description.Some? then e2.(description := req.description) else e2
  }

  /** The columns a request can change. */
  predicate SameData(a: Expense, b: Expense) {
    a.category == b.category && a.amount == b.amount && a.description == b.description
  }

  /**
   * The row after `commit()` at server time `now`: the patch, and the
   * `onupdate` refresh of `updated_at`, which happens only when an UPDATE is
   * emitted, that is when some column value actually changed.
   */
  function Updated(e: Expense, req: UpdateExpenseRequest, now: int): (r: Expense)
    ensures SameData(r, Patch(e, req)) && r.id == e.id && r.userId == e.userId
    ensures r.stamps.createdAt == e.stamps.createdAt
    ensures SameData(e, r) ==> r.stamps == e.stamps
    ensures !SameData(e, r) ==> r.stamps.updatedAt == now
  {
    var p := Patch(e, req);
    if SameData(p, e) then p else p.(stamps := p.stamps.(updatedAt := now))
  }

  /**
   * Sending the same update twice leaves the row as the first one did,
   * timestamps included: the second one changes no column.
   */
  lemma UpdateIdempotent(e: Expense, req: UpdateExpenseRequest, first: int, second: int)
    ensures Updated(Updated(e, req, first), req, second) == Updated(e, req, first)
  {
  }

  /** The f-string rendering of an optional column: `None` when absent. */
  function OptionalText(d: Option<string>): string {
    match d
    case None => "None"
    case Some(s) => s
  }

  const DeletedPrefix := "Expense deleted successfully - Category: '"
  const DescriptionInfix := "', Description: '"

  /** The confirmation of `delete_expense`: it names the row's category, then its description. */
  function DeletedMessage(e: Expense): (m: string)
    ensures DeletedPrefix + e.category + DescriptionInfix <= m
    ensures m[|DeletedPrefix + e.category + DescriptionInfix|..] == OptionalText(e.description) + "'"
  {
    DeletedPrefix + e.category + DescriptionInfix + OptionalText(e.description) + "'"
  }

  /** `get_user_expenses`: the acting user's rows, in table order, and nobody else's. */
  method GetUserExpenses(db: Database, userId: int) returns (expenses: seq<Expense>)
    ensures expenses == OwnedBy(db.expenses, userId)
    ensures forall e :: e in expenses ==> e in db.expenses && e.userId == userId
    ensures forall e :: e in db.expenses && e.userId == userId ==> e in expenses
  {
    expenses := OwnedBy(db.expenses, userId);
  }

  /**
   * `create_expense`: insert one row owned by the acting user with the next
   * key and both stamps at the server time. An owner id that names no user
   * violates the foreign key and nothing is stored.
   */
  method CreateExpense(db: Database, userId: int, req: CreateExpenseRequest) returns (r: Result<Expense, HttpError>)
    requires db.Valid()
    modifies db
    ensures db.Valid()
    ensures db.users == old(db.users) && db.clock == old(db.clock) && db.nextUserId == old(db.nextUserId)
    ensures !HasUser(old(db.users), userId) ==>
              r == Err(IntegrityError) && db.expenses == old(db.expenses) && db.nextExpenseId == old(db.nextExpenseId)
    ensures HasUser(old(db.users), userId) ==>
              && r == Ok(Expense(old(db.nextExpenseId), req.category, req.amount, req.description, userId,
                                 Timestamps(old(db.clock), old(db.clock))))
              && db.expenses == old(db.expenses) + [r.value]
              && db.nextExpenseId == old(db.nextExpenseId) + 1
    ensures r.Ok? ==> OwnedBy(db.expenses, userId) == OwnedBy(old(db.expenses), userId) + [r.value]
    ensures forall other :: other != userId ==> OwnedBy(db.expenses, other) == OwnedBy(old(db.expenses), other)
  {
    if !HasUser(db.users, userId) {
      return Err(IntegrityError);
    }
    var e := Expense(db.nextExpenseId, req.category, req.amount, req.description, userId,
                     Timestamps(db.clock, db.clock));
    ConsistentAppendExpense(db.users, db.expenses, db.clock, db.nextUserId, db.nextExpenseId, e);
    forall id ensures OwnedBy(db.expenses + [e], id) == OwnedBy(db.expenses, id) + OwnedBy([e], id) {
      OwnedByAppend(db.expenses, [e], id);
    }
    assert forall id :: OwnedBy([e], id) == OwnedBy([], id) + (if e.userId == id then [e] else []);
    db.expenses := db.expenses + [e];
    db.nextExpenseId := db.nextExpenseId + 1;
    r := Ok(e);
  }

  /**
   * `update_expense`: a missing id and another user's id both fail with
   * `ExpenseNotFound` and change nothing; otherwise the matched row is
   * patched and every other row is left as it was.
   */
  method UpdateExpense(db: Database, userId: int, req: UpdateExpenseRequest) returns (r: Result<Expense, HttpError>)
    requires db.Valid()
    modifies db
    ensures db.Valid()
    ensures db.users == old(db.users) && db.clock == old(db.clock)
    ensures db.nextUserId == old(db.nextUserId) && db.nextExpenseId == old(db.nextExpenseId)
    ensures var found := FindOwned(old(db.expenses), req.expenseId, userId);
            found.None? ==> r == Err(ExpenseNotFound) && db.expenses == old(db.expenses)
    ensures var found := FindOwned(old(db.expenses), req.expenseId, userId);
            found.Some? ==> && r == Ok(Updated(old(db.expenses)[found.value], req, old(db.clock)))
                            && db.expenses == old(db.expenses)[found.value := r.value]
    ensures r.Err? ==> r.error == ExpenseNotFound
  {
    var found := FindOwned(db.expenses, req.expenseId, userId);
    if found.None? {
      return Err(ExpenseNotFound);
    }
    var k := found.value;
    var e := Updated(db.expenses[k], req, db.clock);
    assert db.expenses[k] in db.expenses;
    ConsistentReplaceExpense(db.users, db.expenses, db.clock, db.nextUserId, db.nextExpenseId, k, e);
    db.expenses := db.expenses[k := e];
    r := Ok(e);
  }

  /**
   * `delete_expense`: the same `ExpenseNotFound` for a missing or foreign
   * id; otherwise exactly the matched row is removed and the confirmation
   * names it.
   */
  method DeleteExpense(db: Database, userId: int, expenseId: int) returns (r: Result<string, HttpError>)
    requires db.Valid()
    modifies db
    ensures db.Valid()
    ensures db.users == old(db.users) && db.clock == old(db.clock)
    ensures db.nextUserId == old(db.nextUserId) && db.nextExpenseId == old(db.nextExpenseId)
    ensures var found := FindOwned(old(db.expenses), expenseId, userId);
            found.None? ==> r == Err(ExpenseNotFound) && db.expenses == old(db.expenses)
    ensures var found := FindOwned(old(db.expenses), expenseId, userId);
            found.Some? ==> && r == Ok(DeletedMessage(old(db.expenses)[found.value]))
                            && db.expenses == old(db.expenses)[..found.value] + old(db.expenses)[found.value + 1..]
    ensures r.Ok? ==> forall e :: e in OwnedBy(db.expenses, userId) ==> e.id != expenseId
    ensures forall other :: other != userId ==> OwnedBy(db.expenses, other) == OwnedBy(old(db.expenses), other)
  {
    var found := FindOwned(db.expenses, expenseId, userId);
    if found.None? {
      return Err(ExpenseNotFound);
    }
    var k := found.value;
    var gone := db.expenses[k];
    var rest := db.expenses[..k] + db.expenses[k + 1..];
    ConsistentRemoveExpense(db.users, db.expenses, db.clock, db.nextUserId, db.nextExpenseId, k);
    forall id ensures OwnedBy(rest, id) == OwnedBy(db.expenses, id) || id == userId {
      OwnedByRemove(db.expenses, k, id);
    }
    RemovedIdGone(db.expenses, k);
    db.expenses := rest;
    r := Ok(DeletedMessage(gone));
  }

  /** With unique keys, no row left after removing row `k` carries its key. */
  lemma RemovedIdGone(expenses: seq<Expense>, k: nat)
    requires UniqueExpenseIds(expenses) && k < |expenses|
    ensures forall e :: e in expenses[..k] + expenses[k + 1..] ==> e.id != expenses[k].id
  {
    var rest := expenses[..k] + expenses[k + 1..];
    forall e | e in rest ensures e.id != expenses[k].id {
      var j :| 0 <= j < |rest| && rest[j] == e;
      if j < k {
        assert rest[j] == expenses[j];
      } else {
        assert rest[j] == expenses[j + 1];
      }
    }
  }
}
