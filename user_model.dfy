/**
 * The two tables (fast_backend/app/models/user_model.py): users and their
 * expenses, the constraints the declarations impose, and the server clock
 * that fills the timestamp columns.
 */
module UserModel {
  import opened Wrappers
  import Utils

  /** `TimestampMixin`, held by composition. Instants are whole seconds. */
  datatype Timestamps = Timestamps(createdAt: int, updatedAt: int)

  datatype User = User(id: int, username: string, email: string,
                       hashedPassword: Utils.PasswordHash, stamps: Timestamps)

  /** `amount` is a Float column; `real` stands for it without rounding. */
  datatype Expense = Expense(id: int, category: string, amount: real,
                             description: Option<string>, userId: int, stamps: Timestamps)

  /** Primary key, `username` and `email` are each unique. */
  predicate UniqueUsers(users: seq<User>) {
    forall i, j :: 0 <= i < j < |users| ==>
      && users[i].id != users[j].id
      && users[i].username != users[j].username
      && users[i].email != users[j].email
  }

  predicate UniqueExpenseIds(expenses: seq<Expense>) {
    forall i, j :: 0 <= i < j < |expenses| ==> expenses[i].id != expenses[j].id
  }

  predicate HasUser(users: seq<User>, id: int) {
    exists i :: 0 <= i < |users| && users[i].id == id
  }

  /** Every expense's required `user_id` names an existing user. */
  predicate ForeignKeys(users: seq<User>, expenses: seq<Expense>) {
    forall e :: e in expenses ==> HasUser(users, e.userId)
  }

  predicate StampsValid(t: Timestamps, clock: int) {
    t.createdAt <= t.updatedAt <= clock
  }

  /**
   * `User.expenses`: the rows whose `user_id` is `id`, in table order. It is
   * also the listing query of the expense routes.
   */
  function OwnedBy(expenses: seq<Expense>, id: int): (r: seq<Expense>)
    ensures forall e {:trigger e in r} :: e in r <==> e in expenses && e.userId == id
    ensures |r| <= |expenses|
  {
    if expenses == [] then []
    else
      var last := expenses[|expenses| - 1];
      OwnedBy(expenses[..|expenses| - 1], id) + (if last.userId == id then [last] else [])
  }

  /** Filtering by owner keeps table order: it distributes over concatenation. */
  lemma {:induction false} OwnedByAppend(xs: seq<Expense>, ys: seq<Expense>, id: int)
    ensures OwnedBy(xs + ys, id) == OwnedBy(xs, id) + OwnedBy(ys, id)
  {
    if ys != [] {
      var zs := xs + ys;
      assert zs[..|zs| - 1] == xs + ys[..|ys| - 1];
      OwnedByAppend(xs, ys[..|ys| - 1], id);
    } else {
      assert xs + ys == xs;
    }
  }

  /** The rows the cascade keeps when user `id` is removed. */
  function NotOwnedBy(expenses: seq<Expense>, id: int): (r: seq<Expense>)
    ensures forall e {:trigger e in r} :: e in r <==> e in expenses && e.userId != id
    ensures |r| <= |expenses|
  {
    if expenses == [] then []
    else
      var last := expenses[|expenses| - 1];
      NotOwnedBy(expenses[..|expenses| - 1], id) + (if last.userId != id then [last] else [])
  }

  /** Removing rows keeps the others, so uniqueness survives. */
  lemma {:induction false} NotOwnedByKeepsUnique(expenses: seq<Expense>, id: int)
    requires UniqueExpenseIds(expenses)
    ensures UniqueExpenseIds(NotOwnedBy(expenses, id))
  {
    if expenses != [] {
      var init, last := expenses[..|expenses| - 1], expenses[|expenses| - 1];
      var kept := NotOwnedBy(init, id);
      NotOwnedByKeepsUnique(init, id);
      if last.userId != id {
        var r := kept + [last];
        assert NotOwnedBy(expenses, id) == r;
        forall i | 0 <= i < |kept| ensures r[i].id != last.id {
          assert kept[i] in kept;
          var k :| 0 <= k < |init| && init[k] == kept[i];
        }
      }
    }
  }

  function UsersExcept(users: seq<User>, id: int): (r: seq<User>)
    ensures forall u {:trigger u in r} :: u in r <==> u in users && u.id != id
    ensures |r| <= |users|
  {
    if users == [] then []
    else
      var last := users[|users| - 1];
      UsersExcept(users[..|users| - 1], id) + (if last.id != id then [last] else [])
  }

  lemma {:induction false} UsersExceptKeepsUnique(users: seq<User>, id: int)
    requires UniqueUsers(users)
    ensures UniqueUsers(UsersExcept(users, id))
  {
    if users != [] {
      var init, last := users[..|users| - 1], users[|users| - 1];
      var kept := UsersExcept(init, id);
      UsersExceptKeepsUnique(init, id);
      if last.id != id {
        var r := kept + [last];
        assert UsersExcept(users, id) == r;
        forall i | 0 <= i < |kept|
          ensures r[i].id != last.id && r[i].username != last.username && r[i].email != last.email
        {
          assert kept[i] in kept;
          var k :| 0 <= k < |init| && init[k] == kept[i];
        }
      }
    }
  }

  /** The declared constraints, plus: keys already used are below the counters. */
  predicate Consistent(users: seq<User>, expenses: seq<Expense>, clock: int, nextUserId: int, nextExpenseId: int)
    ensures Consistent(users, expenses, clock, nextUserId, nextExpenseId) ==>
              forall e :: e in expenses ==> 0 < e.userId < nextUserId
  {
    && 0 < nextUserId && 0 < nextExpenseId
    && UniqueUsers(users)
    && UniqueExpenseIds(expenses)
    && ForeignKeys(users, expenses)
    && (forall u :: u in users ==> 0 < u.id < nextUserId && StampsValid(u.stamps, clock) && u.hashedPassword.Bcrypt?)
    && (forall e :: e in expenses ==> 0 < e.id < nextExpenseId && StampsValid(e.stamps, clock))
  }

  /** An IntegrityError raised by `commit()`, which no route catches: a server error. */
  const IntegrityError := Utils.HttpError(500, "Internal Server Error")

  /** Inserting an expense with the next key, an existing owner and fresh stamps keeps the constraints. */
  lemma ConsistentAppendExpense(users: seq<User>, expenses: seq<Expense>, clock: int,
                                nextUserId: int, nextExpenseId: int, e: Expense)
    requires Consistent(users, expenses, clock, nextUserId, nextExpenseId)
    requires e.id == nextExpenseId && HasUser(users, e.userId) && StampsValid(e.stamps, clock)
    ensures Consistent(users, expenses + [e], clock, nextUserId, nextExpenseId + 1)
  {
    forall i | 0 <= i < |expenses| ensures expenses[i].id != e.id {
      assert expenses[i] in expenses;
    }
  }

  /** Rewriting a row in place, with its key and owner kept, keeps the constraints. */
  lemma ConsistentReplaceExpense(users: seq<User>, expenses: seq<Expense>, clock: int,
                                 nextUserId: int, nextExpenseId: int, k: nat, e: Expense)
    requires Consistent(users, expenses, clock, nextUserId, nextExpenseId)
    requires k < |expenses| && e.id == expenses[k].id && e.userId == expenses[k].userId
    requires StampsValid(e.stamps, clock)
    ensures Consistent(users, expenses[k := e], clock, nextUserId, nextExpenseId)
  {
    assert expenses[k] in expenses;
    var updated := expenses[k := e];
    forall x | x in updated ensures x in expenses || x == e {
      var j :| 0 <= j < |updated| && updated[j] == x;
      if j != k {
        assert expenses[j] in expenses;
      }
    }
  }

  /** Deleting one row keeps the constraints. */
  lemma ConsistentRemoveExpense(users: seq<User>, expenses: seq<Expense>, clock: int,
                                nextUserId: int, nextExpenseId: int, k: nat)
    requires Consistent(users, expenses, clock, nextUserId, nextExpenseId)
    requires k < |expenses|
    ensures Consistent(users, expenses[..k] + expenses[k + 1..], clock, nextUserId, nextExpenseId)
  {
    var rest := expenses[..k] + expenses[k + 1..];
    forall i | 0 <= i < |rest| ensures rest[i] == expenses[if i < k then i else i + 1] {
    }
    forall x | x in rest ensures x in expenses {
      var j :| 0 <= j < |rest| && rest[j] == x;
      assert expenses[if j < k then j else j + 1] in expenses;
    }
  }

  /** Inserting a user with the next key, an unused username and email keeps the constraints. */
  lemma ConsistentAppendUser(users: seq<User>, expenses: seq<Expense>, clock: int,
                             nextUserId: int, nextExpenseId: int, u: User)
    requires Consistent(users, expenses, clock, nextUserId, nextExpenseId)
    requires u.id == nextUserId && StampsValid(u.stamps, clock) && u.hashedPassword.Bcrypt?
    requires forall v :: v in users ==> v.username != u.username && v.email != u.email
    ensures Consistent(users + [u], expenses, clock, nextUserId + 1, nextExpenseId)
  {
    var grown := users + [u];
    forall i | 0 <= i < |users| ensures users[i].id != u.id {
      assert users[i] in users;
    }
    forall e | e in expenses ensures HasUser(grown, e.userId) {
      var k :| 0 <= k < |users| && users[k].id == e.userId;
      assert grown[k] == users[k];
    }
  }

  /** Removing row `k` takes it out of its owner's list and out of no other list. */
  lemma OwnedByRemove(expenses: seq<Expense>, k: nat, id: int)
    requires k < |expenses|
    ensures OwnedBy(expenses, id)
         == OwnedBy(expenses[..k], id) + (if expenses[k].userId == id then [expenses[k]] else [])
          + OwnedBy(expenses[k + 1..], id)
    ensures OwnedBy(expenses[..k] + expenses[k + 1..], id) == OwnedBy(expenses[..k], id) + OwnedBy(expenses[k + 1..], id)
  {
    assert expenses == expenses[..k] + [expenses[k]] + expenses[k + 1..];
    OwnedByAppend(expenses[..k] + [expenses[k]], expenses[k + 1..], id);
    OwnedByAppend(expenses[..k], [expenses[k]], id);
    OwnedByAppend(expenses[..k], expenses[k + 1..], id);
    assert OwnedBy([expenses[k]], id) == OwnedBy([], id) + (if expenses[k].userId == id then [expenses[k]] else []);
  }

  /**
   * The two tables as one store, with the server clock (`func.now()`) and
   * the next values of the two auto-incremented keys.
   */
  class Database {
    var users: seq<User>
    var expenses: seq<Expense>
    var clock: int
    var nextUserId: int
    var nextExpenseId: int

    ghost predicate Valid()
      reads this
    {
      Consistent(users, expenses, clock, nextUserId, nextExpenseId)
    }

    /** Empty tables whose clock reads `start`. */
    constructor (start: int)
      ensures Valid()
      ensures users == [] && expenses == [] && clock == start
      ensures nextUserId == 1 && nextExpenseId == 1
    {
      users, expenses := [], [];
      clock := start;
      nextUserId, nextExpenseId := 1, 1;
    }

    /** Time passes: the server clock moves forward by `seconds`. */
    method Tick(seconds: nat)
      requires Valid()
      modifies this
      ensures Valid()
      ensures clock == old(clock) + seconds
      ensures users == old(users) && expenses == old(expenses)
      ensures nextUserId == old(nextUserId) && nextExpenseId == old(nextExpenseId)
    {
      clock := clock + seconds;
    }

    /**
     * Remove user `id`. The `delete-orphan` cascade and `ondelete='CASCADE'`
     * remove that user's expenses with it and no other row.
     */
    method DeleteUser(id: int) returns (found: bool)
      requires Valid()
      modifies this
      ensures Valid()
      ensures found == HasUser(old(users), id)
      ensures users == UsersExcept(old(users), id)
      ensures expenses == NotOwnedBy(old(expenses), id)
      ensures OwnedBy(expenses, id) == []
      ensures forall other :: other != id ==> OwnedBy(expenses, other) == OwnedBy(old(expenses), other)
      ensures clock == old(clock) && nextUserId == old(nextUserId) && nextExpenseId == old(nextExpenseId)
    {
      found := HasUser(users, id);
      CascadeKeepsConstraints(users, expenses, clock, nextUserId, nextExpenseId, id);
      forall other | other != id
        ensures OwnedBy(NotOwnedBy(expenses, id), other) == OwnedBy(expenses, other)
      {
        OwnedByNotOwnedBy(expenses, id, other);
      }
      users := UsersExcept(users, id);
      expenses := NotOwnedBy(expenses, id);
    }
  }

  /** Removing a user and that user's expenses keeps every declared constraint. */
  lemma CascadeKeepsConstraints(users: seq<User>, expenses: seq<Expense>, clock: int,
                                nextUserId: int, nextExpenseId: int, id: int)
    requires Consistent(users, expenses, clock, nextUserId, nextExpenseId)
    ensures Consistent(UsersExcept(users, id), NotOwnedBy(expenses, id), clock, nextUserId, nextExpenseId)
    ensures OwnedBy(NotOwnedBy(expenses, id), id) == []
  {
    var remaining, kept := UsersExcept(users, id), NotOwnedBy(expenses, id);
    UsersExceptKeepsUnique(users, id);
    NotOwnedByKeepsUnique(expenses, id);
    CascadeKeepsForeignKeys(users, expenses, id);
    assert forall u :: u in remaining ==> u in users;
    assert forall e :: e in kept ==> e in expenses;
    NoneLeft(expenses, id);
  }

  lemma CascadeKeepsForeignKeys(users: seq<User>, expenses: seq<Expense>, id: int)
    requires ForeignKeys(users, expenses)
    ensures ForeignKeys(UsersExcept(users, id), NotOwnedBy(expenses, id))
  {
    var remaining := UsersExcept(users, id);
    forall e | e in NotOwnedBy(expenses, id) ensures HasUser(remaining, e.userId) {
      assert e in expenses;
      var k :| 0 <= k < |users| && users[k].id == e.userId;
      assert users[k] in remaining;
      var j :| 0 <= j < |remaining| && remaining[j] == users[k];
    }
  }

  lemma {:induction false} NoneLeft(expenses: seq<Expense>, id: int)
    ensures OwnedBy(NotOwnedBy(expenses, id), id) == []
  {
    if expenses != [] {
      var init, last := expenses[..|expenses| - 1], expenses[|expenses| - 1];
      var kept := NotOwnedBy(init, id);
      NoneLeft(init, id);
      if last.userId != id {
        assert NotOwnedBy(expenses, id) == kept + [last];
        assert (kept + [last])[..|kept + [last]| - 1] == kept;
      } else {
        assert NotOwnedBy(expenses, id) == kept;
      }
    }
  }

  /** The cascade leaves every other user's list exactly as it was. */
  lemma {:induction false} OwnedByNotOwnedBy(expenses: seq<Expense>, removed: int, other: int)
    requires removed != other
    ensures OwnedBy(NotOwnedBy(expenses, removed), other) == OwnedBy(expenses, other)
  {
    if expenses != [] {
      var init := expenses[..|expenses| - 1];
      var last := expenses[|expenses| - 1];
      var kept := NotOwnedBy(init, removed);
      OwnedByNotOwnedBy(init, removed, other);
      if last.userId != removed {
        assert NotOwnedBy(expenses, removed) == kept + [last];
        assert (kept + [last])[..|kept + [last]| - 1] == kept;
        assert OwnedBy(kept + [last], other) == OwnedBy(kept, other) + (if last.userId == other then [last] else []);
      } else {
        assert NotOwnedBy(expenses, removed) == kept;
        assert OwnedBy(expenses, other) == OwnedBy(init, other);
      }
    }
  }
}
