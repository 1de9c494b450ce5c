/**
 * The dashboard's budget side: the fetched budgets of the selected month, the
 * text inputs the budget form edits (a plain object from category to text),
 * and the budget-versus-actual rows of the bar chart.
 */
module Budgets {
  import opened Wrappers
  import opened AssocList
  import opened Ledger
  import opened Numbers
  import Grouping

  /** The budget inputs object; an object's own keys are distinct. */
  type BudgetInputs = m: Assoc<string> | NoDup(Keys(m)) witness []

  /** `getBudgetForCategory`: the amount of the first budget of the category, or 0 when there is none. */
  function BudgetFor(budgets: seq<Budget>, category: string): (r: int)
    ensures category !in Categories(budgets) ==> r == 0
    ensures category in Categories(budgets) ==> r == budgets[FirstIndex(Categories(budgets), category)].amount
  {
    if budgets == [] then 0
    else if budgets[0].category == category then budgets[0].amount
    else
      var cs := Categories(budgets);
      assert cs[1..] == Categories(budgets[1..]);
      assert category in cs ==> FirstIndex(cs, category) == 1 + FirstIndex(cs[1..], category);
      BudgetFor(budgets[1..], category)
  }

  /** The category of every budget, in order. */
  function Categories(budgets: seq<Budget>): (cs: seq<string>)
    ensures |cs| == |budgets|
    ensures forall i :: 0 <= i < |budgets| ==> cs[i] == budgets[i].category
  {
    seq(|budgets|, i requires 0 <= i < |budgets| => budgets[i].category)
  }

  /** The amount of the last budget of the category (0 when there is none): later entries overwrite earlier ones. */
  function LastAmount(budgets: seq<Budget>, category: string): (r: int)
    ensures category !in Categories(budgets) ==> r == 0
    ensures category in Categories(budgets) ==>
      exists i :: 0 <= i < |budgets| && budgets[i].category == category && r == budgets[i].amount &&
        forall j :: i < j < |budgets| ==> budgets[j].category != category
  {
    if budgets == [] then 0
    else if budgets[|budgets| - 1].category == category then budgets[|budgets| - 1].amount
    else LastAmount(budgets[..|budgets| - 1], category)
  }

  /** The inputs object as filled from `budgets`: one key per category in first-seen order, holding the text of its last amount. */
  ghost predicate FilledFrom(inputs: Assoc<string>, budgets: seq<Budget>) {
    Keys(inputs) == FirstSeen(Categories(budgets)) &&
    forall j :: 0 <= j < |inputs| ==> inputs[j].1 == Show(LastAmount(budgets, inputs[j].0))
  }

  lemma FillStep(inputs: Assoc<string>, budgets: seq<Budget>, i: nat)
    requires i < |budgets| && FilledFrom(inputs, budgets[..i])
    ensures FilledFrom(Put(inputs, budgets[i].category, Show(budgets[i].amount)), budgets[..i + 1])
  {
    var b := budgets[i];
    assert budgets[..i + 1] == budgets[..i] + [b];
    FillStepValues(inputs, budgets[..i], b);
    FillStepKeys(inputs, budgets[..i], b);
  }

  lemma FillStepKeys(inputs: Assoc<string>, p: seq<Budget>, b: Budget)
    requires Keys(inputs) == FirstSeen(Categories(p))
    ensures Keys(Put(inputs, b.category, Show(b.amount))) == FirstSeen(Categories(p + [b]))
  {
    assert Categories(p + [b]) == Categories(p) + [b.category];
    FirstSeenSnoc(Categories(p), b.category);
    PutKeys(inputs, b.category, Show(b.amount));
  }

  lemma FillStepValues(inputs: Assoc<string>, p: seq<Budget>, b: Budget)
    requires FilledFrom(inputs, p)
    ensures var inputs' := Put(inputs, b.category, Show(b.amount));
      forall j :: 0 <= j < |inputs'| ==> inputs'[j].1 == Show(LastAmount(p + [b], inputs'[j].0))
  {
    var inputs' := Put(inputs, b.category, Show(b.amount));
    assert NoDup(Keys(inputs));
    forall j | 0 <= j < |inputs'|
      ensures inputs'[j].1 == Show(LastAmount(p + [b], inputs'[j].0))
    {
      FillStepEntry(inputs, p, b, inputs', j);
    }
  }

  /** The entry at `j` after one assignment holds the text of its category's last amount so far. */
  lemma FillStepEntry(inputs: Assoc<string>, p: seq<Budget>, b: Budget, inputs': Assoc<string>, j: nat)
    requires NoDup(Keys(inputs))
    requires forall i :: 0 <= i < |inputs| ==> inputs[i].1 == Show(LastAmount(p, inputs[i].0))
    requires inputs' == Put(inputs, b.category, Show(b.amount)) && j < |inputs'|
    ensures inputs'[j].1 == Show(LastAmount(p + [b], inputs'[j].0))
  {
    LastAmountSnoc(p, b, inputs'[j].0);
    if j < |inputs| {
      PutAt(inputs, b.category, Show(b.amount), j);
      assert inputs'[j] == if inputs[j].0 == b.category then (b.category, Show(b.amount)) else inputs[j];
    } else {
      assert b.category !in Keys(inputs) && j == |inputs|;
    }
  }

  lemma LastAmountSnoc(p: seq<Budget>, b: Budget, category: string)
    ensures LastAmount(p + [b], category) == if b.category == category then b.amount else LastAmount(p, category)
  {
    assert (p + [b])[..|p|] == p;
  }

  /**
   * Filling the inputs object from the fetched budgets:
   * `inputObj[b.category] = b.amount.toString()` for each budget in turn.
   */
  method BuildInputs(budgets: seq<Budget>) returns (inputs: BudgetInputs)
    ensures Keys(inputs) == FirstSeen(Categories(budgets))
    ensures forall j :: 0 <= j < |inputs| ==> inputs[j].1 == Show(LastAmount(budgets, inputs[j].0))
  {
    inputs := [];
    var i := 0;
    assert budgets[..0] == [];
    while i < |budgets|
      invariant 0 <= i <= |budgets|
      invariant FilledFrom(inputs, budgets[..i])
    {
      FillStep(inputs, budgets, i);
      PutNoDup(inputs, budgets[i].category, Show(budgets[i].amount));
      inputs := Put(inputs, budgets[i].category, Show(budgets[i].amount));
      i := i + 1;
    }
    assert budgets[..i] == budgets;
  }

  /** `handleBudgetChange`: the edited category reads the new text; every other key keeps its text and its place. */
  function ChangeInput(inputs: BudgetInputs, category: string, value: string): (r: BudgetInputs)
    ensures Get(r, category) == Some(value)
    ensures forall c :: c != category ==> Get(r, c) == Get(inputs, c)
    ensures Keys(r) == if category in Keys(inputs) then Keys(inputs) else Keys(inputs) + [category]
  {
    PutNoDup(inputs, category, value);
    PutKeys(inputs, category, value);
    forall c ensures Get(Put(inputs, category, value), c) == if c == category then Some(value) else Get(inputs, c) {
      PutGet(inputs, category, value, c);
    }
    Put(inputs, category, value)
  }

  /*** Budget versus actual ***/

  datatype BudgetRow = BudgetRow(category: string, budget: int, actual: int)

  /**
   * The chart rows: `Object.keys(budgetInputs).map(...)`, or nothing when there
   * are no keys.  `budget` is `Number(text) || 0` and `actual` the
   * `filter(...).reduce(...)` of the category's transactions.
   */
  function BudgetRows(inputs: BudgetInputs, txs: seq<Transaction>): (rows: seq<BudgetRow>)
    ensures |rows| == |inputs|
    ensures forall j :: 0 <= j < |rows| ==> rows[j].category == inputs[j].0
  {
    var keys := Keys(inputs);
    if |keys| > 0 then
      seq(|keys|, j requires 0 <= j < |keys| =>
        BudgetRow(keys[j], NumberOrZero(Get(inputs, keys[j]).GetOr("")), Total(Matching(txs, ByCategory, keys[j]))))
    else []
  }

  /** Each row holds the parsed budget text (0 when it is not a number) and the sum of its category's amounts. */
  lemma BudgetRowAt(inputs: BudgetInputs, txs: seq<Transaction>, j: nat)
    requires j < |inputs|
    ensures BudgetRows(inputs, txs)[j].budget == match Parse(inputs[j].1) case None => 0 case Some(v) => v
    ensures BudgetRows(inputs, txs)[j].actual == KeyTotal(txs, ByCategory, inputs[j].0)
  {
    GetAt(inputs, j);
    KeyTotalIsFilteredTotal(txs, ByCategory, inputs[j].0);
  }

  /** A category no transaction carries has an actual of 0. */
  lemma UnmatchedActualIsZero(inputs: BudgetInputs, txs: seq<Transaction>, j: nat)
    requires j < |inputs|
    requires forall t :: t in txs ==> t.category != inputs[j].0
    ensures BudgetRows(inputs, txs)[j].actual == 0
  {
    BudgetRowAt(inputs, txs, j);
    assert forall i :: 0 <= i < |txs| ==> KeysOf(txs, ByCategory)[i] != inputs[j].0 by {
      assert forall i :: 0 <= i < |txs| ==> txs[i] in txs;
    }
    KeyTotalAbsent(txs, ByCategory, inputs[j].0);
  }

  /** The actual of a row is the unrounded sum the category grouping holds for the same category. */
  lemma ActualMatchesGrouping(inputs: BudgetInputs, txs: seq<Transaction>, j: nat)
    requires j < |inputs| && inputs[j].0 in FirstSeen(KeysOf(txs, ByCategory))
    ensures (inputs[j].0, BudgetRows(inputs, txs)[j].actual) in Grouping.Grouped(txs, ByCategory)
  {
    BudgetRowAt(inputs, txs, j);
    var ks := FirstSeen(KeysOf(txs, ByCategory));
    var i :| 0 <= i < |ks| && ks[i] == inputs[j].0;
    assert Grouping.Grouped(txs, ByCategory)[i] == (inputs[j].0, KeyTotal(txs, ByCategory, inputs[j].0));
  }

  /** Rows read back from inputs filled from budgets hold the last fetched amount of each category. */
  lemma FilledRowsHoldLastAmount(inputs: BudgetInputs, budgets: seq<Budget>, txs: seq<Transaction>, j: nat)
    requires FilledFrom(inputs, budgets) && j < |inputs|
    ensures BudgetRows(inputs, txs)[j].budget == LastAmount(budgets, inputs[j].0)
  {
    BudgetRowAt(inputs, txs, j);
    ParseShow(LastAmount(budgets, inputs[j].0));
  }

  /**
   * The inputs keep the last budget of a category while `getBudgetForCategory`
   * finds the first; they agree whenever the fetched categories are distinct,
   * as the upsert by (category, month) keeps them for one month.
   */
  lemma {:induction false} LastIsFirstWhenDistinct(budgets: seq<Budget>, category: string)
    requires NoDup(Categories(budgets))
    ensures LastAmount(budgets, category) == BudgetFor(budgets, category)
  {
    if budgets != [] {
      var init, last := budgets[..|budgets| - 1], budgets[|budgets| - 1];
      assert NoDup(Categories(init)) by {
        assert forall i :: 0 <= i < |init| ==> Categories(init)[i] == Categories(budgets)[i];
      }
      LastIsFirstWhenDistinct(init, category);
      if last.category == category {
        var cs := Categories(budgets);
        assert cs[|cs| - 1] == category;
        assert FirstIndex(cs, category) == |cs| - 1 by {
          var i := FirstIndex(cs, category);
          assert cs[i] == cs[|cs| - 1];
        }
      } else {
        BudgetForPrefix(budgets, category);
      }
    }
  }

  /** Finding the first budget of a category ignores a last entry of another category. */
  lemma BudgetForPrefix(budgets: seq<Budget>, category: string)
    requires budgets != [] && budgets[|budgets| - 1].category != category
    ensures BudgetFor(budgets, category) == BudgetFor(budgets[..|budgets| - 1], category)
  {
    var n := |budgets| - 1;
    var cs, ci := Categories(budgets), Categories(budgets[..n]);
    assert cs == ci + [budgets[n].category];
    assert cs[..n] == ci;
    if category in ci {
      FirstIndexPrefix(cs, n, category);
    }
  }

  /** One input and one transaction of its category give one row: the parsed text against the amount. */
  lemma SingleInputRow(category: string, text: string, t: Transaction)
    requires t.category == category
    ensures BudgetRows([(category, text)], [t]) == [BudgetRow(category, NumberOrZero(text), t.amount)]
  {
    var inputs: BudgetInputs := [(category, text)];
    var rows := BudgetRows(inputs, [t]);
    Grouping.OneTransactionGrouped(t);
    BudgetRowAt(inputs, [t], 0);
    assert rows == [rows[0]];
  }

  /** A budget of 800 typed for "Food & Dining" and one 650 spent there give the row (800, 650). */
  lemma FoodAndDiningExample(t: Transaction)
    requires t.category == "Food & Dining" && t.amount == 65000
    ensures BudgetRows([("Food & Dining", "800")], [t]) == [BudgetRow("Food & Dining", 80000, 65000)]
  {
    SingleInputRow("Food & Dining", "800", t);
    ParseWholeAndFraction();
  }

  /** Exact matching: a transaction stored with the form value "food" adds nothing to the "Food & Dining" row. */
  lemma FormValueDoesNotMatch(t: Transaction)
    requires t.category == "food"
    ensures BudgetRows([("Food & Dining", "800")], [t])[0].actual == 0
  {
    UnmatchedActualIsZero([("Food & Dining", "800")], [t], 0);
  }

  /** No inputs, no rows. */
  lemma NoInputsNoRows(txs: seq<Transaction>)
    ensures BudgetRows([], txs) == []
  {
  }
}
