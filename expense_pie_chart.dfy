/**
 * The per-category totals behind the pie chart and its table
 * (frontend/src/components/ExpensePieChart.tsx).
 */
module ExpensePieChart {
  import CreateExpense

  type ExpenseRow = CreateExpense.ExpenseRow

  /** One slice: a category and the total of its amounts. */
  datatype Group = Group(category: string, amount: real)

  /** The sum of the amounts of the rows in category `c`. */
  function CategoryTotal(rows: seq<ExpenseRow>, c: string): real {
    if rows == [] then 0.0
    else
      var last := rows[|rows| - 1];
      CategoryTotal(rows[..|rows| - 1], c) + (if last.category == c then last.amount else 0.0)
  }

  /** The sum of all amounts. */
  function Total(rows: seq<ExpenseRow>): real {
    if rows == [] then 0.0 else Total(rows[..|rows| - 1]) + rows[|rows| - 1].amount
  }

  /** One group per key, in key order, each with its category's total. */
  function GroupsOf(keys: seq<string>, rows: seq<ExpenseRow>): (gs: seq<Group>)
    ensures |gs| == |keys|
    ensures forall i :: 0 <= i < |keys| ==> gs[i] == Group(keys[i], CategoryTotal(rows, keys[i]))
  {
    if keys == [] then [] else [Group(keys[0], CategoryTotal(rows, keys[0]))] + GroupsOf(keys[1..], rows)
  }

  /**
   * What the chart shows: one group per category, in the order in which
   * categories first appear (the same order as the form's dropdown).
   */
  function Grouped(rows: seq<ExpenseRow>): (gs: seq<Group>)
    ensures forall i :: 0 <= i < |gs| ==> gs[i].amount == CategoryTotal(rows, gs[i].category)
  {
    GroupsOf(CreateExpense.Categories(rows), rows)
  }

  function SumGroups(gs: seq<Group>): real {
    if gs == [] then 0.0 else gs[0].amount + SumGroups(gs[1..])
  }

  /** The categories of the groups, in order. */
  function GroupCategories(gs: seq<Group>): (cs: seq<string>)
    ensures |cs| == |gs| && forall i :: 0 <= i < |gs| ==> cs[i] == gs[i].category
  {
    if gs == [] then [] else [gs[0].category] + GroupCategories(gs[1..])
  }

  /** A category no row carries totals zero. */
  lemma {:induction false} AbsentCategoryTotal(rows: seq<ExpenseRow>, c: string)
    requires c !in CreateExpense.CategoryList(rows)
    ensures CategoryTotal(rows, c) == 0.0
  {
    if rows != [] {
      var init := rows[..|rows| - 1];
      var cats := CreateExpense.CategoryList(rows);
      assert cats[..|cats| - 1] == CreateExpense.CategoryList(init);
      assert cats[|cats| - 1] == rows[|rows| - 1].category;
      AbsentCategoryTotal(init, c);
    }
  }

  /** One more row: its category joins the key list if it is new. */
  lemma CategoriesSnoc(seen: seq<ExpenseRow>, e: ExpenseRow)
    ensures CreateExpense.Categories(seen + [e])
         == var keys := CreateExpense.Categories(seen);
            if e.category in keys then keys else keys + [e.category]
  {
    var cats := CreateExpense.CategoryList(seen + [e]);
    assert (seen + [e])[..|seen|] == seen;
    assert cats[..|cats| - 1] == CreateExpense.CategoryList(seen);
  }

  /** One more row: its amount joins its category's total. */
  lemma TotalSnoc(seen: seq<ExpenseRow>, e: ExpenseRow, c: string)
    ensures CategoryTotal(seen + [e], c) == CategoryTotal(seen, c) + (if e.category == c then e.amount else 0.0)
  {
    assert (seen + [e])[..|seen|] == seen;
  }

  /**
   * The accumulator after the rows `seen`: its keys, in insertion order,
   * are the categories seen so far, each mapped to its running total.
   */
  ghost predicate Accumulated(seen: seq<ExpenseRow>, acc: map<string, real>, order: seq<string>) {
    && order == CreateExpense.Categories(seen)
    && (forall k :: k in acc <==> k in order)
    && (forall k :: k in acc ==> acc[k] == CategoryTotal(seen, k))
  }

  /** One iteration of the `reduce` callback keeps the accumulator exact. */
  lemma AccumulateStep(seen: seq<ExpenseRow>, e: ExpenseRow, acc: map<string, real>, order: seq<string>,
                       acc': map<string, real>, order': seq<string>)
    requires Accumulated(seen, acc, order)
    requires order' == if e.category in acc then order else order + [e.category]
    requires acc' == acc[e.category := (if e.category in acc then acc[e.category] else 0.0) + e.amount]
    ensures Accumulated(seen + [e], acc', order')
  {
    var c := e.category;
    CategoriesSnoc(seen, e);
    forall k | k in acc'
      ensures acc'[k] == CategoryTotal(seen + [e], k)
    {
      TotalSnoc(seen, e, k);
      if k == c && c !in acc {
        assert c !in CreateExpense.CategoryList(seen);
        AbsentCategoryTotal(seen, c);
      }
    }
  }

  /** `Object.values` of the final accumulator lists the groups in key order. */
  lemma AccumulatedValues(rows: seq<ExpenseRow>, acc: map<string, real>, order: seq<string>)
    requires Accumulated(rows, acc, order)
    ensures seq(|order|, j requires 0 <= j < |order| => Group(order[j], acc[order[j]])) == Grouped(rows)
  {
  }

  /**
   * The `reduce` into a dictionary keyed by category, then
   * `Object.values`. The accumulator is `acc` plus `order`, the insertion
   * order of its keys.
   */
  method GroupByCategory(rows: seq<ExpenseRow>) returns (data: seq<Group>)
    ensures data == Grouped(rows)
  {
    var acc: map<string, real> := map[];
    var order: seq<string> := [];
    for i := 0 to |rows|
      invariant Accumulated(rows[..i], acc, order)
    {
      var e := rows[i];
      ghost var acc0, order0 := acc, order;
      if e.category !in acc {
        acc := acc[e.category := 0.0];
        order := order + [e.category];
      }
      acc := acc[e.category := acc[e.category] + e.amount];
      assert rows[..i + 1] == rows[..i] + [e];
      AccumulateStep(rows[..i], e, acc0, order0, acc, order);
    }
    assert rows[..|rows|] == rows;
    AccumulatedValues(rows, acc, order);
    data := seq(|order|, j requires 0 <= j < |order| => Group(order[j], acc[order[j]]));
  }

  /** Each category appears in exactly one group, and the groups' categories are exactly the input's. */
  lemma GroupedCategories(rows: seq<ExpenseRow>)
    ensures CreateExpense.NoDuplicates(GroupCategories(Grouped(rows)))
    ensures forall c :: c in GroupCategories(Grouped(rows)) <==> c in CreateExpense.CategoryList(rows)
  {
    assert GroupCategories(Grouped(rows)) == CreateExpense.Categories(rows);
  }

  /** No expenses, no slices. */
  lemma GroupedEmpty()
    ensures Grouped([]) == []
  {
  }

  /** Adding a row adds its amount to the one group of its category. */
  lemma {:induction false} SumGroupsSnoc(keys: seq<string>, rows: seq<ExpenseRow>, e: ExpenseRow)
    requires CreateExpense.NoDuplicates(keys)
    ensures SumGroups(GroupsOf(keys, rows + [e]))
         == SumGroups(GroupsOf(keys, rows)) + (if e.category in keys then e.amount else 0.0)
  {
    var rows' := rows + [e];
    assert rows'[..|rows'| - 1] == rows;
    if keys != [] {
      assert CreateExpense.NoDuplicates(keys[1..]) by {
        forall i, j | 0 <= i < j < |keys[1..]| ensures keys[1..][i] != keys[1..][j] {
          assert keys[1..][i] == keys[i + 1] && keys[1..][j] == keys[j + 1];
        }
      }
      SumGroupsSnoc(keys[1..], rows, e);
      if keys[0] == e.category {
        assert e.category !in keys[1..] by {
          forall j | 0 <= j < |keys[1..]| ensures keys[1..][j] != keys[0] {
            assert keys[1..][j] == keys[j + 1];
          }
        }
      }
      assert e.category in keys <==> e.category == keys[0] || e.category in keys[1..] by {
        assert keys == [keys[0]] + keys[1..];
      }
    }
  }

  /**
   * Summing the groups over any duplicate-free list of keys that covers
   * every category gives the sum of all amounts.
   */
  lemma {:induction false} SumGroupsTotal(keys: seq<string>, rows: seq<ExpenseRow>)
    requires CreateExpense.NoDuplicates(keys)
    requires forall k :: 0 <= k < |rows| ==> rows[k].category in keys
    ensures SumGroups(GroupsOf(keys, rows)) == Total(rows)
  {
    if rows == [] {
      ZeroGroups(keys);
    } else {
      var init, last := rows[..|rows| - 1], rows[|rows| - 1];
      assert forall k :: 0 <= k < |init| ==> init[k] == rows[k];
      SumGroupsTotal(keys, init);
      assert rows == init + [last];
      SumGroupsSnoc(keys, init, last);
    }
  }

  lemma {:induction false} ZeroGroups(keys: seq<string>)
    ensures SumGroups(GroupsOf(keys, [])) == 0.0
  {
    if keys != [] {
      ZeroGroups(keys[1..]);
    }
  }

  /** The slices add up to the sum of all amounts. */
  lemma GroupedTotal(rows: seq<ExpenseRow>)
    ensures SumGroups(Grouped(rows)) == Total(rows)
  {
    var cats := CreateExpense.CategoryList(rows);
    forall k | 0 <= k < |rows| ensures rows[k].category in CreateExpense.Categories(rows) {
      assert cats[k] == rows[k].category;
    }
    SumGroupsTotal(CreateExpense.Categories(rows), rows);
  }

  /**
   * The properties every plain object `{}` inherits from `Object.prototype`
   * (section 20.1.3 of ECMA-262 and its Annex B.2.2): `acc[name]` on such a
   * name finds an inherited function or object, which is truthy.
   */
  const InheritedNames: set<string> := {
    "constructor", "hasOwnProperty", "isPrototypeOf", "propertyIsEnumerable",
    "toLocaleString", "toString", "valueOf", "__proto__",
    "__defineGetter__", "__defineSetter__", "__lookupGetter__", "__lookupSetter__"
  }

  /** The own keys of the accumulator object, in insertion order, with their totals. */
  datatype Accumulator = Accumulator(totals: map<string, real>, order: seq<string>)

  /**
   * The `reduce` exactly as written: `!acc[category]` is false for an
   * inherited name, so no own key is created for it, and the `+=` lands on
   * the inherited value instead.
   */
  function ReduceAsWritten(rows: seq<ExpenseRow>): (a: Accumulator)
    ensures forall k :: k in a.totals <==> k in a.order
    ensures forall k :: k in a.order ==> k !in InheritedNames
  {
    if rows == [] then Accumulator(map[], [])
    else
      var prev := ReduceAsWritten(rows[..|rows| - 1]);
      var e := rows[|rows| - 1];
      if e.category in InheritedNames then prev
      else if e.category in prev.totals then
        Accumulator(prev.totals[e.category := prev.totals[e.category] + e.amount], prev.order)
      else
        Accumulator(prev.totals[e.category := 0.0 + e.amount], prev.order + [e.category])
  }

  /**
   * `Object.values` of the accumulator as written: a category named like an
   * inherited property is missing. Keys are listed in insertion order; the
   * engine's integer-like-keys-first ordering is not modelled.
   */
  function GroupedAsWritten(rows: seq<ExpenseRow>): (gs: seq<Group>)
    ensures forall g :: g in gs ==> g.category !in InheritedNames
  {
    var a := ReduceAsWritten(rows);
    seq(|a.order|, j requires 0 <= j < |a.order| => Group(a.order[j], a.totals[a.order[j]]))
  }

  /** A single expense in category "toString" vanishes from the chart and the table. */
  lemma InheritedCategoryDropped()
    ensures var rows := [CreateExpense.ExpenseRow(1, "toString", 5.0, "", "", "")];
            GroupedAsWritten(rows) == [] && Grouped(rows) == [Group("toString", 5.0)]
  {
    var rows := [CreateExpense.ExpenseRow(1, "toString", 5.0, "", "", "")];
    assert rows[..0] == [];
    assert CreateExpense.CategoryList(rows) == ["toString"];
    assert CreateExpense.Categories(rows) == ["toString"];
  }

  /** The accumulator as written after one more row outside the inherited names. */
  lemma ReduceAsWrittenSnoc(init: seq<ExpenseRow>, e: ExpenseRow)
    requires e.category !in InheritedNames
    ensures ReduceAsWritten(init + [e])
         == (var prev, c := ReduceAsWritten(init), e.category;
             Accumulator(prev.totals[c := (if c in prev.totals then prev.totals[c] else 0.0) + e.amount],
                         if c in prev.totals then prev.order else prev.order + [c]))
  {
    assert (init + [e])[..|init|] == init;
  }

  lemma {:induction false} AsWrittenAccumulates(rows: seq<ExpenseRow>)
    requires forall k :: 0 <= k < |rows| ==> rows[k].category !in InheritedNames
    ensures Accumulated(rows, ReduceAsWritten(rows).totals, ReduceAsWritten(rows).order)
  {
    if rows != [] {
      var init, e := rows[..|rows| - 1], rows[|rows| - 1];
      assert rows == init + [e];
      AsWrittenAccumulates(init);
      ReduceAsWrittenSnoc(init, e);
      var prev := ReduceAsWritten(init);
      var next := ReduceAsWritten(init + [e]);
      AccumulateStep(init, e, prev.totals, prev.order, next.totals, next.order);
    }
  }

  /** Away from the inherited names, the accumulator as written holds exactly the groups of `Grouped`, in first-seen order. */
  lemma AsWrittenAgrees(rows: seq<ExpenseRow>)
    requires forall k :: 0 <= k < |rows| ==> rows[k].category !in InheritedNames
    ensures GroupedAsWritten(rows) == Grouped(rows)
  {
    AsWrittenAccumulates(rows);
    AccumulatedValues(rows, ReduceAsWritten(rows).totals, ReduceAsWritten(rows).order);
  }

  const Colors: seq<string> := ["#0088FE", "#00C49F", "#FFBB28", "#FF8042", "#A28EFF"]

  /** `COLORS[index % COLORS.length]`: always a palette entry, cycling every five slices. */
  function SliceColor(index: nat): (c: string)
    ensures c in Colors
    ensures index < |Colors| ==> c == Colors[index]
  {
    Colors[index % |Colors|]
  }
}
