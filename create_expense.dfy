/**
 * The new-expense form (frontend/src/components/CreateExpense.tsx): the
 * category choices offered, the validation of a submission and the four
 * state fields it resets.
 */
module CreateExpense {
  import opened Wrappers

  /** An expense row as the component receives it from the listing. */
  datatype ExpenseRow = ExpenseRow(id: int, category: string, amount: real, description: string,
                                   createdAt: string, updatedAt: string)

  /** `expenses.map(exp => exp.category)`. */
  function CategoryList(rows: seq<ExpenseRow>): (r: seq<string>)
    ensures |r| == |rows|
    ensures forall i :: 0 <= i < |rows| ==> r[i] == rows[i].category
  {
    if rows == [] then [] else CategoryList(rows[..|rows| - 1]) + [rows[|rows| - 1].category]
  }

  /** The position of the first occurrence of `x` in `s`. */
  function FirstIndex(s: seq<string>, x: string): (i: nat)
    requires x in s
    ensures i < |s| && s[i] == x
    ensures forall j :: 0 <= j < i ==> s[j] != x
  {
    if x in s[..|s| - 1] then FirstIndex(s[..|s| - 1], x) else |s| - 1
  }

  predicate NoDuplicates(s: seq<string>) {
    forall i, j :: 0 <= i < j < |s| ==> s[i] != s[j]
  }

  /**
   * `Array.from(new Set(s))`: each distinct element once, in the order of
   * its first occurrence (a Set iterates in insertion order).
   */
  function Distinct(s: seq<string>): (r: seq<string>)
    ensures NoDuplicates(r)
    ensures forall x :: x in r <==> x in s
  {
    if s == [] then []
    else
      var init, last := s[..|s| - 1], s[|s| - 1];
      var d := Distinct(init);
      if last in d then d else d + [last]
  }

  /** `Distinct` keeps the elements in the order of their first occurrence. */
  lemma {:induction false} DistinctFirstSeenOrder(s: seq<string>)
    ensures forall i, j :: 0 <= i < j < |Distinct(s)| ==> FirstIndex(s, Distinct(s)[i]) < FirstIndex(s, Distinct(s)[j])
  {
    if s != [] {
      var init, last := s[..|s| - 1], s[|s| - 1];
      DistinctFirstSeenOrder(init);
      var d := Distinct(init);
      var r := Distinct(s);
      assert r == if last in d then d else d + [last];
      forall i, j | 0 <= i < j < |r|
        ensures FirstIndex(s, r[i]) < FirstIndex(s, r[j])
      {
        assert r[i] == d[i] && d[i] in init;
        assert FirstIndex(s, r[i]) == FirstIndex(init, r[i]);
        if j < |d| {
          assert r[j] == d[j] && d[j] in init;
          assert FirstIndex(s, r[j]) == FirstIndex(init, r[j]);
          assert FirstIndex(init, d[i]) < FirstIndex(init, d[j]);
        } else {
          assert r[j] == last;
          assert FirstIndex(s, last) == |s| - 1;
          assert FirstIndex(init, d[i]) < |init|;
        }
      }
    }
  }

  /** The dropdown's categories: each category of the listed expenses once, in first-seen order. */
  function Categories(rows: seq<ExpenseRow>): (cs: seq<string>)
    ensures NoDuplicates(cs)
    ensures forall c :: c in cs <==> c in CategoryList(rows)
  {
    Distinct(CategoryList(rows))
  }

  /** The amount input: a number, the empty string, or NaN from `parseFloat`. */
  datatype AmountField = Blank | Number(value: real) | NotANumber

  /** The dropdown entry that switches to the free-text input. */
  const CustomOption := "Custom"

  /** The body posted to `create_expense`. */
  datatype ExpensePayload = ExpensePayload(amount: real, category: string, description: string)

  /** `isCustom ? customValue : selected`. */
  function ChosenCategory(selected: string, customValue: string): (c: string)
    ensures selected == CustomOption ==> c == customValue
    ensures selected != CustomOption ==> c == selected
  {
    if selected == CustomOption then customValue else selected
  }

  /** `!!amount`: false for '', 0 and NaN. */
  predicate AmountTruthy(amount: AmountField)
    ensures amount.Blank? || amount.NotANumber? || amount == Number(0.0) ==> !AmountTruthy(amount)
    ensures amount.Number? && amount.value != 0.0 ==> AmountTruthy(amount)
    ensures AmountTruthy(amount) ==> amount.Number? && amount.value != 0.0
  {
    amount.Number? && amount.value != 0.0
  }

  /**
   * The check of `handleSubmit`: nothing is sent when the category, the
   * amount or the description is falsy; otherwise exactly the three fields
   * are sent, the amount as a number.
   */
  function Submission(selected: string, customValue: string, amount: AmountField, description: string)
    : (r: Option<ExpensePayload>)
    ensures r.Some? <==> ChosenCategory(selected, customValue) != "" && AmountTruthy(amount) && description != ""
    ensures r.Some? ==> r.value.category == (if selected == CustomOption then customValue else selected)
    ensures r.Some? ==> r.value.amount == amount.value && r.value.amount != 0.0
    ensures r.Some? ==> r.value.description == description
  {
    var category := ChosenCategory(selected, customValue);
    if category == "" || !AmountTruthy(amount) || description == "" then None
    else Some(ExpensePayload(amount.value, category, description))
  }

  /** The component's four state fields. */
  class ExpenseForm {
    var selected: string
    var customValue: string
    var amount: AmountField
    var description: string

    predicate IsCleared()
      reads this
    {
      selected == "" && customValue == "" && amount == Number(0.0) && description == ""
    }

    /** The initial `useState` values. */
    constructor ()
      ensures IsCleared()
    {
      selected, customValue, amount, description := "", "", Number(0.0), "";
    }

    /** `clearFields`. */
    method ClearFields()
      modifies this
      ensures IsCleared()
    {
      selected, customValue, amount, description := "", "", Number(0.0), "";
    }

    /**
     * `handleSubmit`: validate, post, and clear the fields only when the
     * post succeeded. `postSucceeded` is the outcome of the request.
     */
    method HandleSubmit(postSucceeded: bool) returns (sent: Option<ExpensePayload>)
      modifies this
      ensures sent == Submission(old(selected), old(customValue), old(amount), old(description))
      ensures sent.Some? && postSucceeded ==> IsCleared()
      ensures sent.None? || !postSucceeded ==>
                selected == old(selected) && customValue == old(customValue)
                && amount == old(amount) && description == old(description)
    {
      sent := Submission(selected, customValue, amount, description);
      if sent.Some? && postSucceeded {
        ClearFields();
      }
    }
  }
}
