/** The dashboard's derived values (src/App.js): the filtered view, the income
    and expense totals, savings and progress toward the savings goal, the
    "Shopping" budget alert, the per-category grouping of expenses and the
    chart list built from it; and the form draft reset after a submit.
    Every value is a total function of the full transaction list. */
module Dashboard {
  import opened Sequences
  import opened JsValues
  import opened PropertyOrder

  const SavingsGoal: real := 1000.0
  const ShoppingLimit: real := 300.0

  /** A transaction as the dashboard receives it. `kind` is the record's
      `type` field; amounts are exact reals. */
  datatype Transaction = Transaction(id: int, kind: string, category: string, amount: real, date: string)

  /** One element of `chartData`: `{name, value}`. */
  datatype ChartEntry = ChartEntry(name: string, value: real)

  predicate IsExpense(t: Transaction) {
    t.kind == "Expense"
  }

  predicate IsIncome(t: Transaction) {
    t.kind == "Income"
  }

  /** The test `t => t.type === kind`. */
  function OfKind(kind: string): Transaction -> bool {
    (t: Transaction) => t.kind == kind
  }

  /** The test `t => t.category === c`. */
  function InCategory(c: string): Transaction -> bool {
    (t: Transaction) => t.category == c
  }

  /** `reduce((s, t) => s + t.amount, 0)`, a left fold. */
  function Sum(ts: seq<Transaction>): real {
    if ts == [] then 0.0 else Sum(ts[..|ts| - 1]) + ts[|ts| - 1].amount
  }

  // ---------------------------------------------------------------- filtered

  /** `filtered`: with filter "All" the list itself, otherwise the records
      whose type equals the filter, in their original order. */
  function Filtered(ts: seq<Transaction>, filter: string): (r: seq<Transaction>)
    ensures filter == "All" ==> r == ts
    ensures filter != "All" ==> forall t :: t in r <==> t in ts && t.kind == filter
    ensures filter != "All" ==>
      forall t :: multiset(r)[t] == if t.kind == filter then multiset(ts)[t] else 0
  {
    if filter == "All" then ts
    else
      FilterMultiplicity(ts, OfKind(filter));
      Filter(ts, OfKind(filter))
  }

  /** The filtered view is order-preserving: filtering a concatenation is
      concatenating the filtered parts. */
  lemma FilteredConcat(a: seq<Transaction>, b: seq<Transaction>, filter: string)
    ensures Filtered(a + b, filter) == Filtered(a, filter) + Filtered(b, filter)
  {
    if filter != "All" {
      FilterConcat(a, b, OfKind(filter));
    }
  }

  /** Applying the same filter to the filtered view changes nothing. */
  lemma FilteredIdempotent(ts: seq<Transaction>, filter: string)
    ensures Filtered(Filtered(ts, filter), filter) == Filtered(ts, filter)
  {
    if filter != "All" {
      FilterIdempotent(ts, OfKind(filter));
    }
  }

  // ------------------------------------------------------------------ totals

  function Expenses(ts: seq<Transaction>): seq<Transaction> {
    Filter(ts, IsExpense)
  }

  function Incomes(ts: seq<Transaction>): seq<Transaction> {
    Filter(ts, IsIncome)
  }

  function TotalIncome(ts: seq<Transaction>): real {
    Sum(Incomes(ts))
  }

  function TotalExpense(ts: seq<Transaction>): real {
    Sum(Expenses(ts))
  }

  function Savings(ts: seq<Transaction>): real {
    TotalIncome(ts) - TotalExpense(ts)
  }

  /** A left fold over a concatenation is the sum of the two folds. */
  lemma {:induction false} SumConcat(a: seq<Transaction>, b: seq<Transaction>)
    ensures Sum(a + b) == Sum(a) + Sum(b)
  {
    if b == [] {
      assert a + b == a;
    } else {
      var b' := b[..|b| - 1];
      assert (a + b)[..|a + b| - 1] == a + b';
      SumConcat(a, b');
    }
  }

  /** One more record moves the income total by its amount exactly when its
      type is "Income", and the expense total exactly when it is "Expense". */
  lemma TotalsOfAppend(ts: seq<Transaction>, t: Transaction)
    ensures TotalIncome(ts + [t]) == TotalIncome(ts) + (if IsIncome(t) then t.amount else 0.0)
    ensures TotalExpense(ts + [t]) == TotalExpense(ts) + (if IsExpense(t) then t.amount else 0.0)
  {
    FilterConcat(ts, [t], IsIncome);
    FilterConcat(ts, [t], IsExpense);
    assert [t][..0] == [];
    SumConcat(Incomes(ts), Filter([t], IsIncome));
    SumConcat(Expenses(ts), Filter([t], IsExpense));
  }

  /** A record that is not an expense is invisible to every expense-derived
      value: the expense list, hence the expense total, the shopping alert,
      the grouping and the chart. */
  lemma NonExpenseIgnored(a: seq<Transaction>, t: Transaction, b: seq<Transaction>)
    requires !IsExpense(t)
    ensures Expenses(a + [t] + b) == Expenses(a + b)
    ensures TotalExpense(a + [t] + b) == TotalExpense(a + b)
    ensures ShoppingAlert(a + [t] + b) == ShoppingAlert(a + b)
    ensures GroupedExpenses(a + [t] + b) == GroupedExpenses(a + b)
    ensures ChartData(a + [t] + b) == ChartData(a + b)
  {
    FilterConcat(a + [t], b, IsExpense);
    FilterConcat(a, [t], IsExpense);
    FilterConcat(a, b, IsExpense);
    assert [t][..0] == [];
  }

  /** A record that is not an income is invisible to the income total. */
  lemma NonIncomeIgnored(a: seq<Transaction>, t: Transaction, b: seq<Transaction>)
    requires !IsIncome(t)
    ensures TotalIncome(a + [t] + b) == TotalIncome(a + b)
  {
    FilterConcat(a + [t], b, IsIncome);
    FilterConcat(a, [t], IsIncome);
    FilterConcat(a, b, IsIncome);
    assert [t][..0] == [];
  }

  /** A record whose type is neither "Expense" nor "Income" (such as the
      "Wydatek" and "Przychód" labels of the sample data) changes no total,
      no savings and no progress. */
  lemma OtherKindCountsForNothing(a: seq<Transaction>, t: Transaction, b: seq<Transaction>)
    requires !IsExpense(t) && !IsIncome(t)
    ensures TotalIncome(a + [t] + b) == TotalIncome(a + b)
    ensures TotalExpense(a + [t] + b) == TotalExpense(a + b)
    ensures Savings(a + [t] + b) == Savings(a + b)
    ensures Progress(Savings(a + [t] + b)) == Progress(Savings(a + b))
  {
    NonExpenseIgnored(a, t, b);
    NonIncomeIgnored(a, t, b);
  }

  /** A list made only of "Wydatek"/"Przychód" records (the labels of the
      sample data) has no income, no expense, zero progress, no alert and an
      empty chart. */
  lemma SampleLabelsCountForNothing(ts: seq<Transaction>)
    requires forall t :: t in ts ==> t.kind == "Wydatek" || t.kind == "Przychód"
    ensures TotalIncome(ts) == 0.0 && TotalExpense(ts) == 0.0
    ensures Progress(Savings(ts)) == 0.0
    ensures !ShoppingAlert(ts)
    ensures GroupedExpenses(ts) == map[]
    ensures ChartData(ts) == []
  {
    FilterKeepsNone(ts, IsExpense);
    FilterKeepsNone(ts, IsIncome);
    assert Filter([], IsShoppingCategory) == [];
  }

  // ---------------------------------------------------------------- progress

  /** `Math.min((savings / SAVINGS_GOAL) * 100, 100)`: never above 100, not
      floored at 0, negative exactly when savings are negative, 100 exactly
      from the goal on, and proportional to savings below the goal. */
  function Progress(savings: real): (p: real)
    ensures p <= 100.0
    ensures p < 0.0 <==> savings < 0.0
    ensures p == 100.0 <==> savings >= SavingsGoal
    ensures savings <= SavingsGoal ==> p * SavingsGoal == savings * 100.0
  {
    var scaled := savings / SavingsGoal * 100.0;
    if scaled < 100.0 then scaled else 100.0
  }

  // ---------------------------------------------------------- shopping alert

  /** `t.category.toLowerCase() === 'shopping'`. */
  predicate IsShoppingName(c: string) {
    Lower(c) == "shopping"
  }

  predicate IsShoppingCategory(t: Transaction) {
    IsShoppingName(t.category)
  }

  /** The amount spent on expenses whose category is "shopping" in any case. */
  function ShoppingSpend(ts: seq<Transaction>): real {
    Sum(Filter(Expenses(ts), IsShoppingCategory))
  }

  /** `shoppingAlert`: the shopping spend strictly exceeds the limit. */
  predicate ShoppingAlert(ts: seq<Transaction>) {
    ShoppingSpend(ts) > ShoppingLimit
  }

  /** A record is an expense in a category spelled "shopping" in any case. */
  predicate IsShoppingExpense(t: Transaction) {
    IsExpense(t) && IsShoppingName(t.category)
  }

  /** The alert in one pass over the list: it fires exactly when the expense
      records whose category lowers to "shopping" add up to more than 300. */
  lemma ShoppingAlertIff(ts: seq<Transaction>)
    ensures ShoppingAlert(ts) <==> Sum(Filter(ts, IsShoppingExpense)) > ShoppingLimit
  {
    FilterFilter(ts, IsExpense, IsShoppingCategory, IsShoppingExpense);
  }

  /** A category counts as shopping exactly when it spells "shopping" with
      each letter in either case ("Shopping", "SHOPPING", "sHoPpInG", ...). */
  lemma ShoppingNameIff(c: string)
    ensures IsShoppingName(c) <==>
      |c| == 8 && forall i :: 0 <= i < 8 ==> c[i] == "shopping"[i] || c[i] == "SHOPPING"[i]
  {
    LowerEqualsIff(c, "shopping");
  }

  // --------------------------------------------------------------- grouping

  /** The categories occurring in `es`. */
  function Categories(es: seq<Transaction>): set<string> {
    if es == [] then {} else Categories(es[..|es| - 1]) + {es[|es| - 1].category}
  }

  /** A category occurs exactly when some record carries it. */
  lemma {:induction false} CategoriesMembers(es: seq<Transaction>)
    ensures forall c :: c in Categories(es) <==> exists i :: 0 <= i < |es| && es[i].category == c
  {
    if es != [] {
      var init := es[..|es| - 1];
      CategoriesMembers(init);
      forall c | c in Categories(es) ensures exists i :: 0 <= i < |es| && es[i].category == c {
        if c in Categories(init) {
          var i :| 0 <= i < |init| && init[i].category == c;
          assert es[i] == init[i];
        } else {
          assert es[|es| - 1].category == c;
        }
      }
      forall c, i | 0 <= i < |es| && es[i].category == c ensures c in Categories(es) {
        if i < |init| {
          assert init[i].category == c;
        }
      }
    }
  }

  /** `acc[c] || 0`: the bucket's running value, 0 when absent (or 0). */
  function Bucket(acc: map<string, real>, c: string): real {
    if c in acc && acc[c] != 0.0 then acc[c] else 0.0
  }

  /** One step of the `reduce` callback: `acc[t.category] = (acc[t.category]
      || 0) + t.amount`. */
  function AddToBucket(acc: map<string, real>, t: Transaction): map<string, real> {
    acc[t.category := Bucket(acc, t.category) + t.amount]
  }

  /** The fold of `groupedExpenses` over `es`: each record adds its amount to
      the bucket of its category, creating the bucket at its first record. */
  function Group(es: seq<Transaction>): (m: map<string, real>)
    ensures m.Keys == Categories(es)
  {
    if es == [] then map[] else AddToBucket(Group(es[..|es| - 1]), es[|es| - 1])
  }

  /** `groupedExpenses`: the fold over the expense records only. */
  function GroupedExpenses(ts: seq<Transaction>): map<string, real> {
    Group(Expenses(ts))
  }

  /** The buckets are exactly the categories of the expense records. */
  lemma GroupedExpensesKeys(ts: seq<Transaction>)
    ensures forall c :: c in GroupedExpenses(ts) <==> exists t :: t in ts && IsExpense(t) && t.category == c
  {
    var es := Expenses(ts);
    CategoriesMembers(es);
    forall c | c in GroupedExpenses(ts) ensures exists t :: t in ts && IsExpense(t) && t.category == c {
      var i :| 0 <= i < |es| && es[i].category == c;
      assert es[i] in es;
    }
    forall c | exists t :: t in ts && IsExpense(t) && t.category == c ensures c in GroupedExpenses(ts) {
      var t :| t in ts && IsExpense(t) && t.category == c;
      assert t in es;
      var i :| 0 <= i < |es| && es[i] == t;
    }
  }

  /** Each bucket holds the sum of the amounts of the records of its category. */
  lemma {:induction false} GroupValue(es: seq<Transaction>, c: string)
    requires c in Group(es)
    ensures Group(es)[c] == Sum(Filter(es, InCategory(c)))
  {
    var init := es[..|es| - 1];
    var t := es[|es| - 1];
    var m0 := Group(init);
    assert Filter(es, InCategory(c)) ==
      Filter(init, InCategory(c)) + (if t.category == c then [t] else []);
    SumConcat(Filter(init, InCategory(c)), if t.category == c then [t] else []);
    assert [t][..0] == [];
    if t.category == c {
      if c in m0 {
        GroupValue(init, c);
      } else {
        CategoriesMembers(init);
        FilterKeepsNone(init, InCategory(c));
      }
    } else {
      GroupValue(init, c);
    }
  }

  /** Each value of `groupedExpenses` is the sum of the amounts of the expense
      records in that category. */
  lemma GroupedExpensesValue(ts: seq<Transaction>, c: string)
    requires c in GroupedExpenses(ts)
    ensures GroupedExpenses(ts)[c] == Sum(Filter(Expenses(ts), InCategory(c)))
  {
    GroupValue(Expenses(ts), c);
  }

  // ----------------------------------------------- first-seen category order

  /** The position of the first record of category `c`. */
  function FirstIndex(es: seq<Transaction>, c: string): (i: nat)
    requires c in Categories(es)
    ensures i < |es| && es[i].category == c
    ensures forall j :: 0 <= j < i ==> es[j].category != c
  {
    var init := es[..|es| - 1];
    if c in Categories(init) then
      FirstIndex(init, c)
    else
      CategoriesMembers(init);
      assert forall j :: 0 <= j < |init| ==> es[j] == init[j];
      |es| - 1
  }

  /** Category `a` is first seen before category `b`. */
  predicate SeenBefore(es: seq<Transaction>, a: string, b: string) {
    a in Categories(es) && b in Categories(es) && FirstIndex(es, a) < FirstIndex(es, b)
  }

  /** The categories of `es`, each once, in the order they first occur: the
      order in which `groupedExpenses` creates its keys. */
  function FirstSeen(es: seq<Transaction>): (r: seq<string>)
    ensures Distinct(r)
    ensures forall c :: c in r <==> c in Categories(es)
  {
    if es == [] then []
    else if es[|es| - 1].category in Categories(es[..|es| - 1]) then FirstSeen(es[..|es| - 1])
    else FirstSeen(es[..|es| - 1]) + [es[|es| - 1].category]
  }

  /** Every name of `names` is a category of `es` first seen before the
      names that follow it. */
  predicate InFirstSeenOrder(es: seq<Transaction>, names: seq<string>) {
    forall i, j :: 0 <= i < j < |names| ==> SeenBefore(es, names[i], names[j])
  }

  /** `FirstSeen` lists the categories by the position of their first record. */
  lemma {:induction false} FirstSeenOrder(es: seq<Transaction>)
    ensures InFirstSeenOrder(es, FirstSeen(es))
  {
    if es != [] {
      var init := es[..|es| - 1];
      var c := es[|es| - 1].category;
      var r0 := FirstSeen(init);
      var r := FirstSeen(es);
      FirstSeenOrder(init);
      assert forall k :: k in Categories(init) ==> FirstIndex(es, k) == FirstIndex(init, k);
      forall i, j | 0 <= i < j < |r| ensures SeenBefore(es, r[i], r[j]) {
        assert r0[i] in Categories(init);
        if j < |r0| {
          assert r[i] == r0[i] && r[j] == r0[j];
          assert SeenBefore(init, r0[i], r0[j]);
          assert r0[j] in Categories(init);
        } else {
          assert r == r0 + [c] && r[j] == c && c !in Categories(init);
          assert FirstIndex(es, c) == |es| - 1;
          assert r[i] == r0[i] && FirstIndex(es, r0[i]) == FirstIndex(init, r0[i]) < |init|;
        }
      }
    }
  }

  // ------------------------------------------------------- sums over buckets

  /** Every key of `keys` names a bucket of `m`. */
  predicate Covers(keys: seq<string>, m: map<string, real>) {
    forall k :: k in keys ==> k in m
  }

  /** The sum of the buckets named by `keys`, in that order. */
  function SumOver(keys: seq<string>, m: map<string, real>): real
    requires forall k :: k in keys ==> k in m
  {
    if keys == [] then 0.0 else SumOver(keys[..|keys| - 1], m) + m[keys[|keys| - 1]]
  }

  lemma {:induction false} SumOverConcat(a: seq<string>, b: seq<string>, m: map<string, real>)
    requires forall k :: k in a + b ==> k in m
    ensures SumOver(a + b, m) == SumOver(a, m) + SumOver(b, m)
  {
    if b == [] {
      assert a + b == a;
    } else {
      var b' := b[..|b| - 1];
      assert (a + b)[..|a + b| - 1] == a + b';
      SumOverConcat(a, b', m);
    }
  }

  /** The sum only reads the buckets it names. */
  lemma {:induction false} SumOverFrame(keys: seq<string>, m: map<string, real>, m': map<string, real>)
    requires forall k :: k in keys ==> k in m && k in m' && m[k] == m'[k]
    ensures SumOver(keys, m) == SumOver(keys, m')
  {
    if keys != [] {
      SumOverFrame(keys[..|keys| - 1], m, m');
    }
  }

  /** Raising one bucket named once raises the sum by as much. */
  lemma {:induction false} SumOverBump(keys: seq<string>, m: map<string, real>, m': map<string, real>, c: string, a: real)
    requires Distinct(keys) && c in keys
    requires forall k :: k in keys ==> k in m && k in m'
    requires forall k :: k in keys ==> m'[k] == if k == c then m[k] + a else m[k]
    ensures SumOver(keys, m') == SumOver(keys, m) + a
  {
    var init := keys[..|keys| - 1];
    if keys[|keys| - 1] == c {
      assert c !in init;
      SumOverFrame(init, m, m');
    } else {
      SumOverBump(init, m, m', c, a);
    }
  }

  /** Taking one key out of the sum takes out its bucket. */
  lemma SumOverRemove(b: seq<string>, i: nat, m: map<string, real>)
    requires i < |b|
    requires forall k :: k in b ==> k in m
    ensures forall k :: k in b[..i] + b[i + 1..] ==> k in m
    ensures SumOver(b, m) == SumOver(b[..i] + b[i + 1..], m) + m[b[i]]
  {
    var x := b[i];
    var pre, post := b[..i], b[i + 1..];
    assert b == pre + ([x] + post);
    SumOverConcat(pre, [x] + post, m);
    SumOverConcat([x], post, m);
    SumOverConcat(pre, post, m);
    assert SumOver([x], m) == m[x] by { assert [x][..0] == []; }
  }

  /** Removing one occurrence of `b[i]` from `b` removes one from its multiset. */
  lemma MultisetRemove(b: seq<string>, i: nat)
    requires i < |b|
    ensures multiset(b[..i] + b[i + 1..]) == multiset(b) - multiset{b[i]}
  {
    assert b == b[..i] + [b[i]] + b[i + 1..];
  }

  /** Two sequences with the same multiset have the same members. */
  lemma SameMembers(a: seq<string>, b: seq<string>)
    requires multiset(a) == multiset(b)
    ensures forall k :: k in b <==> k in a
  {
    forall k ensures k in b <==> k in a {
      assert k in b <==> k in multiset(b);
      assert k in a <==> k in multiset(a);
    }
  }

  /** Where the last key of `a` sits in its permutation `b`, and what is left
      on both sides once it is taken out. */
  lemma MatchLast(a: seq<string>, b: seq<string>) returns (i: nat)
    requires a != [] && multiset(a) == multiset(b)
    ensures i < |b| && b[i] == a[|a| - 1]
    ensures multiset(a[..|a| - 1]) == multiset(b[..i] + b[i + 1..])
  {
    MultisetRemove(a, |a| - 1);
    assert a[..|a| - 1] + a[|a|..] == a[..|a| - 1];
    assert a[|a| - 1] in multiset(b);
    i :| 0 <= i < |b| && b[i] == a[|a| - 1];
    MultisetRemove(b, i);
  }

  /** The sum does not depend on the order of the keys. */
  lemma {:induction false} SumOverPermutation(a: seq<string>, b: seq<string>, m: map<string, real>)
    requires multiset(a) == multiset(b)
    requires forall k :: k in a ==> k in m
    ensures forall k :: k in b ==> k in m
    ensures SumOver(a, m) == SumOver(b, m)
    decreases |a|
  {
    SameMembers(a, b);
    if a != [] {
      var i := MatchLast(a, b);
      SumOverPermutation(a[..|a| - 1], b[..i] + b[i + 1..], m);
      SumOverRemove(b, i, m);
    }
  }

  /** A left fold over one more record adds its amount. */
  lemma SumSnoc(ts: seq<Transaction>, t: Transaction)
    ensures Sum(ts + [t]) == Sum(ts) + t.amount
  {
    assert (ts + [t])[..|ts|] == ts;
  }

  /** One more record of a category already seen: no new name, no new
      bucket, and that bucket grows by the record's amount. */
  lemma SeenCategoryStep(es: seq<Transaction>)
    requires es != [] && es[|es| - 1].category in Categories(es[..|es| - 1])
    ensures FirstSeen(es) == FirstSeen(es[..|es| - 1])
    ensures forall k :: k in Group(es) <==> k in Group(es[..|es| - 1])
    ensures forall k :: k in Group(es) ==>
      Group(es)[k] == Group(es[..|es| - 1])[k] + (if k == es[|es| - 1].category then es[|es| - 1].amount else 0.0)
  {
    assert Group(es) == AddToBucket(Group(es[..|es| - 1]), es[|es| - 1]);
  }

  /** The first record of a category: its name comes last, and a new bucket
      holds its amount while the others stay as they were. */
  lemma NewCategoryStep(es: seq<Transaction>)
    requires es != [] && es[|es| - 1].category !in Categories(es[..|es| - 1])
    ensures FirstSeen(es) == FirstSeen(es[..|es| - 1]) + [es[|es| - 1].category]
    ensures forall k :: k in Group(es) <==> k in Group(es[..|es| - 1]) || k == es[|es| - 1].category
    ensures Group(es)[es[|es| - 1].category] == es[|es| - 1].amount
    ensures forall k :: k in Group(es[..|es| - 1]) ==> Group(es)[k] == Group(es[..|es| - 1])[k]
  {
    assert Group(es) == AddToBucket(Group(es[..|es| - 1]), es[|es| - 1]);
  }

  /** Raising bucket `c` by `a` raises the sum of the buckets selected by `p`
      by `a` when `c` is selected, and leaves it alone otherwise. */
  lemma SelectedSumBump(keys: seq<string>, m: map<string, real>, m': map<string, real>, c: string, a: real, p: string -> bool)
    requires Distinct(keys) && c in keys
    requires forall k :: k in keys ==> k in m && k in m'
    requires forall k :: k in keys ==> m'[k] == if k == c then m[k] + a else m[k]
    ensures forall k :: k in Filter(keys, p) ==> k in m && k in m'
    ensures SumOver(Filter(keys, p), m') == SumOver(Filter(keys, p), m) + (if p(c) then a else 0.0)
  {
    var f := Filter(keys, p);
    if p(c) {
      FilterDistinct(keys, p);
      SumOverBump(f, m, m', c, a);
    } else {
      SumOverFrame(f, m, m');
    }
  }

  /** Adding bucket `c`, not selected so far, adds its value to the selected
      sum when `p` selects it. */
  lemma SelectedSumAdd(keys: seq<string>, m: map<string, real>, m': map<string, real>, c: string, p: string -> bool)
    requires c !in keys && c in m'
    requires forall k :: k in keys ==> k in m && k in m' && m'[k] == m[k]
    ensures forall k :: k in Filter(keys + [c], p) ==> k in m'
    ensures SumOver(Filter(keys + [c], p), m') == SumOver(Filter(keys, p), m) + (if p(c) then m'[c] else 0.0)
  {
    var f := Filter(keys, p);
    FilterSnoc(keys, c, p);
    SumOverFrame(f, m, m');
    SumOverConcat(f, if p(c) then [c] else [], m');
    assert [c][..0] == [];
  }

  /** The sum of the selected buckets after one more record of a category
      already seen: that bucket, if selected, grows by the record's amount. */
  lemma SelectedBucketsGrow(es: seq<Transaction>, p: string -> bool)
    requires es != [] && es[|es| - 1].category in Categories(es[..|es| - 1])
    ensures Covers(Filter(FirstSeen(es[..|es| - 1]), p), Group(es[..|es| - 1]))
    ensures forall k :: k in Filter(FirstSeen(es), p) ==> k in Group(es)
    ensures SumOver(Filter(FirstSeen(es), p), Group(es)) ==
      SumOver(Filter(FirstSeen(es[..|es| - 1]), p), Group(es[..|es| - 1]))
      + (if p(es[|es| - 1].category) then es[|es| - 1].amount else 0.0)
  {
    SeenCategoryStep(es);
    SelectedSumBump(FirstSeen(es[..|es| - 1]), Group(es[..|es| - 1]), Group(es),
      es[|es| - 1].category, es[|es| - 1].amount, p);
  }

  /** The sum of the selected buckets after the first record of a category:
      a new bucket holding its amount, counted if selected. */
  lemma SelectedBucketsAdd(es: seq<Transaction>, p: string -> bool)
    requires es != [] && es[|es| - 1].category !in Categories(es[..|es| - 1])
    ensures Covers(Filter(FirstSeen(es[..|es| - 1]), p), Group(es[..|es| - 1]))
    ensures forall k :: k in Filter(FirstSeen(es), p) ==> k in Group(es)
    ensures SumOver(Filter(FirstSeen(es), p), Group(es)) ==
      SumOver(Filter(FirstSeen(es[..|es| - 1]), p), Group(es[..|es| - 1]))
      + (if p(es[|es| - 1].category) then es[|es| - 1].amount else 0.0)
  {
    NewCategoryStep(es);
    SelectedSumAdd(FirstSeen(es[..|es| - 1]), Group(es[..|es| - 1]), Group(es), es[|es| - 1].category, p);
  }

  /** The buckets whose names pass `p`, taken in first-seen order, add up to
      the amounts of the records whose category passes `p`. */
  lemma {:induction false} GroupSumsSelected(es: seq<Transaction>, p: string -> bool, keep: Transaction -> bool)
    requires forall t :: keep(t) == p(t.category)
    ensures forall k :: k in Filter(FirstSeen(es), p) ==> k in Group(es)
    ensures SumOver(Filter(FirstSeen(es), p), Group(es)) == Sum(Filter(es, keep))
  {
    if es != [] {
      var init := es[..|es| - 1];
      var t := es[|es| - 1];
      GroupSumsSelected(init, p, keep);
      assert Filter(es, keep) == Filter(init, keep) + (if keep(t) then [t] else []);
      if keep(t) {
        SumSnoc(Filter(init, keep), t);
      }
      if t.category in Categories(init) {
        SelectedBucketsGrow(es, p);
      } else {
        SelectedBucketsAdd(es, p);
      }
    }
  }

  /** The values of `groupedExpenses`, over all its keys, add up to
      `totalExpense`. */
  lemma GroupedExpensesTotal(ts: seq<Transaction>)
    ensures forall k :: k in FirstSeen(Expenses(ts)) ==> k in GroupedExpenses(ts)
    ensures SumOver(FirstSeen(Expenses(ts)), GroupedExpenses(ts)) == TotalExpense(ts)
  {
    var es := Expenses(ts);
    var any := (k: string) => true;
    var all := (t: Transaction) => true;
    GroupSumsSelected(es, any, all);
    FilterKeepsAll(FirstSeen(es), any);
    FilterKeepsAll(es, all);
  }

  /** The alert fires exactly when the buckets spelled "shopping" in any case
      add up to more than the limit. */
  lemma ShoppingAlertFromBuckets(ts: seq<Transaction>)
    ensures forall k :: k in Filter(FirstSeen(Expenses(ts)), IsShoppingName) ==> k in GroupedExpenses(ts)
    ensures ShoppingAlert(ts) <==>
      SumOver(Filter(FirstSeen(Expenses(ts)), IsShoppingName), GroupedExpenses(ts)) > ShoppingLimit
  {
    GroupSumsSelected(Expenses(ts), IsShoppingName, IsShoppingCategory);
  }

  // -------------------------------------------------------------- chart data

  /** `{name, value}` for each name, its value read from `m`. */
  function Entries(names: seq<string>, m: map<string, real>): (r: seq<ChartEntry>)
    requires forall k :: k in names ==> k in m
    ensures |r| == |names|
    ensures forall i :: 0 <= i < |r| ==> r[i] == ChartEntry(names[i], m[names[i]])
  {
    if names == [] then []
    else Entries(names[..|names| - 1], m) + [ChartEntry(names[|names| - 1], m[names[|names| - 1]])]
  }

  /** The keys of `groupedExpenses` in `Object.entries` order. */
  function ChartNames(ts: seq<Transaction>): (names: seq<string>)
    ensures forall k :: k in names <==> k in GroupedExpenses(ts)
    ensures Distinct(names)
  {
    assert forall k :: k in OwnKeyOrder(FirstSeen(Expenses(ts))) <==> k in FirstSeen(Expenses(ts)) by {
      SameMembers(FirstSeen(Expenses(ts)), OwnKeyOrder(FirstSeen(Expenses(ts))));
    }
    OwnKeyOrder(FirstSeen(Expenses(ts)))
  }

  /** `chartData`: `Object.entries(groupedExpenses)` as `{name, value}`. */
  function ChartData(ts: seq<Transaction>): seq<ChartEntry> {
    Entries(ChartNames(ts), GroupedExpenses(ts))
  }

  /** The sum of the chart's values. */
  function ChartTotal(entries: seq<ChartEntry>): real {
    if entries == [] then 0.0 else ChartTotal(entries[..|entries| - 1]) + entries[|entries| - 1].value
  }

  /** `chart` lists every key of `m` exactly once, each with its value. */
  predicate Tabulates(chart: seq<ChartEntry>, m: map<string, real>) {
    && |chart| == |m|
    && (forall i :: 0 <= i < |chart| ==> chart[i].name in m && chart[i].value == m[chart[i].name])
    && (forall k :: k in m ==> exists i :: 0 <= i < |chart| && chart[i].name == k)
    && (forall i, j :: 0 <= i < j < |chart| ==> chart[i].name != chart[j].name)
  }

  /** Entries over each key of `m` once tabulate `m`. */
  lemma EntriesTabulate(names: seq<string>, m: map<string, real>)
    requires Distinct(names)
    requires forall k :: k in names <==> k in m
    ensures Tabulates(Entries(names, m), m)
  {
    var chart := Entries(names, m);
    DistinctCardinality(names);
    assert (set k | k in names) == m.Keys;
    forall k | k in m ensures exists i :: 0 <= i < |chart| && chart[i].name == k {
      var i :| 0 <= i < |names| && names[i] == k;
      assert chart[i].name == k;
    }
  }

  /** `chartData` has exactly one `{name, value}` per bucket of
      `groupedExpenses`, carrying that bucket's value. */
  lemma ChartMatchesGrouped(ts: seq<Transaction>)
    ensures Tabulates(ChartData(ts), GroupedExpenses(ts))
  {
    EntriesTabulate(ChartNames(ts), GroupedExpenses(ts));
  }

  /** `chartData` lists the array-index-like categories first, in ascending
      numeric order, and every other category after them. */
  lemma ChartIndexNamesFirst(ts: seq<Transaction>)
    ensures |Filter(FirstSeen(Expenses(ts)), IsArrayIndex)| <= |ChartData(ts)|
    ensures forall i :: 0 <= i < |ChartData(ts)| ==>
      (IsArrayIndex(ChartData(ts)[i].name) <==> i < |Filter(FirstSeen(Expenses(ts)), IsArrayIndex)|)
    ensures forall i, j :: 0 <= i < j < |Filter(FirstSeen(Expenses(ts)), IsArrayIndex)| ==>
      IndexValue(ChartData(ts)[i].name) <= IndexValue(ChartData(ts)[j].name)
  {
    OwnKeyOrderSplit(FirstSeen(Expenses(ts)));
  }

  /** After the array-index-like categories, `chartData` follows the order in
      which each category's first expense record appears. */
  lemma ChartNamedInFirstSeenOrder(ts: seq<Transaction>)
    ensures forall i, j :: |Filter(FirstSeen(Expenses(ts)), IsArrayIndex)| <= i < j < |ChartData(ts)| ==>
      SeenBefore(Expenses(ts), ChartData(ts)[i].name, ChartData(ts)[j].name)
  {
    var es := Expenses(ts);
    FirstSeenOrder(es);
    OwnKeyOrderKeepsNamedOrder(FirstSeen(es), (a, b) => SeenBefore(es, a, b));
  }

  /** With no array-index-like category, the chart follows first-seen order. */
  lemma ChartFirstSeenOrder(ts: seq<Transaction>)
    requires forall t :: t in ts && IsExpense(t) ==> !IsArrayIndex(t.category)
    ensures |ChartData(ts)| == |FirstSeen(Expenses(ts))|
    ensures forall i :: 0 <= i < |ChartData(ts)| ==> ChartData(ts)[i].name == FirstSeen(Expenses(ts))[i]
  {
    var es := Expenses(ts);
    var keys := FirstSeen(es);
    CategoriesMembers(es);
    forall k | k in keys ensures !IsArrayIndex(k) {
      var i :| 0 <= i < |es| && es[i].category == k;
      assert es[i] in es;
    }
    NoIndexKeysKeepCreationOrder(keys);
  }

  lemma {:induction false} ChartTotalOfEntries(names: seq<string>, m: map<string, real>)
    requires forall k :: k in names ==> k in m
    ensures ChartTotal(Entries(names, m)) == SumOver(names, m)
  {
    if names != [] {
      var init := names[..|names| - 1];
      ChartTotalOfEntries(init, m);
      assert Entries(names, m)[..|names| - 1] == Entries(init, m);
    }
  }

  /** The chart's values add up to `totalExpense`. */
  lemma ChartTotalIsTotalExpense(ts: seq<Transaction>)
    ensures ChartTotal(ChartData(ts)) == TotalExpense(ts)
  {
    var keys := FirstSeen(Expenses(ts));
    var m := GroupedExpenses(ts);
    GroupedExpensesTotal(ts);
    ChartTotalOfEntries(ChartNames(ts), m);
    SumOverPermutation(keys, OwnKeyOrder(keys), m);
  }

  // --------------------------------------------------------------- scenarios

  /** An 80 food expense and a 4500 salary: savings 4420, progress capped. */
  lemma SalaryAndFoodScenario()
    ensures var ts := [Transaction(1, "Expense", "Food", 80.0, "2025-05-01"),
                       Transaction(2, "Income", "Salary", 4500.0, "2025-05-01")];
      && TotalIncome(ts) == 4500.0 && TotalExpense(ts) == 80.0
      && Savings(ts) == 4420.0 && Progress(Savings(ts)) == 100.0
  {
    var food := Transaction(1, "Expense", "Food", 80.0, "2025-05-01");
    var salary := Transaction(2, "Income", "Salary", 4500.0, "2025-05-01");
    TotalsOfTwo(food, salary);
  }

  /** The totals of a two-record list, one record at a time. */
  lemma TotalsOfTwo(a: Transaction, b: Transaction)
    ensures TotalIncome([a, b]) == (if IsIncome(a) then a.amount else 0.0) + (if IsIncome(b) then b.amount else 0.0)
    ensures TotalExpense([a, b]) == (if IsExpense(a) then a.amount else 0.0) + (if IsExpense(b) then b.amount else 0.0)
  {
    assert [] + [a] == [a] && [a] + [b] == [a, b];
    TotalsOfAppend([], a);
    TotalsOfAppend([a], b);
  }

  /** When every record is a shopping expense, the shopping spend is the
      sum of all amounts. */
  lemma AllShoppingSpend(ts: seq<Transaction>)
    requires forall t :: t in ts ==> IsExpense(t) && IsShoppingCategory(t)
    ensures ShoppingSpend(ts) == Sum(ts)
  {
    FilterKeepsAll(ts, IsExpense);
    FilterKeepsAll(ts, IsShoppingCategory);
  }

  /** The sum of three records, one at a time. */
  lemma SumOfThree(a: Transaction, b: Transaction, c: Transaction)
    ensures Sum([a, b, c]) == a.amount + b.amount + c.amount
  {
    assert [] + [a] == [a] && [a] + [b] == [a, b] && [a, b] + [c] == [a, b, c];
    SumSnoc([], a);
    SumSnoc([a], b);
    SumSnoc([a, b], c);
  }

  /** Shopping expenses of 100, 150 and 100 exceed the limit of 300. */
  lemma ShoppingOverLimitScenario()
    ensures ShoppingAlert([Transaction(1, "Expense", "Shopping", 100.0, "2025-05-01"),
                           Transaction(2, "Expense", "shopping", 150.0, "2025-05-02"),
                           Transaction(3, "Expense", "SHOPPING", 100.0, "2025-05-03")])
  {
    var a := Transaction(1, "Expense", "Shopping", 100.0, "2025-05-01");
    var b := Transaction(2, "Expense", "shopping", 150.0, "2025-05-02");
    var c := Transaction(3, "Expense", "SHOPPING", 100.0, "2025-05-03");
    ShoppingNameIff("Shopping");
    ShoppingNameIff("shopping");
    ShoppingNameIff("SHOPPING");
    AllShoppingSpend([a, b, c]);
    SumOfThree(a, b, c);
  }

  /** One more record adds its amount to the shopping spend exactly when it
      is a shopping expense. */
  lemma ShoppingSpendSnoc(ts: seq<Transaction>, t: Transaction)
    ensures ShoppingSpend(ts + [t]) ==
      ShoppingSpend(ts) + (if IsExpense(t) && IsShoppingCategory(t) then t.amount else 0.0)
  {
    FilterSnoc(ts, t, IsExpense);
    if IsExpense(t) {
      FilterSnoc(Expenses(ts), t, IsShoppingCategory);
      if IsShoppingCategory(t) {
        SumSnoc(Filter(Expenses(ts), IsShoppingCategory), t);
      }
    }
  }

  /** Shopping expenses of exactly 300, next to a larger expense of another
      category, do not raise the alert. */
  lemma ShoppingAtLimitScenario()
    ensures !ShoppingAlert([Transaction(1, "Expense", "Shopping", 200.0, "2025-05-01"),
                            Transaction(2, "Expense", "shopping", 100.0, "2025-05-02"),
                            Transaction(3, "Expense", "Food", 500.0, "2025-05-02")])
  {
    var a := Transaction(1, "Expense", "Shopping", 200.0, "2025-05-01");
    var b := Transaction(2, "Expense", "shopping", 100.0, "2025-05-02");
    var c := Transaction(3, "Expense", "Food", 500.0, "2025-05-02");
    ShoppingNameIff("Shopping");
    ShoppingNameIff("shopping");
    ShoppingNameIff("Food");
    ShoppingSpendOfThree(a, b, c);
  }

  /** The shopping spend of three records, one at a time. */
  lemma ShoppingSpendOfThree(a: Transaction, b: Transaction, c: Transaction)
    ensures ShoppingSpend([a, b, c]) ==
      (if IsExpense(a) && IsShoppingCategory(a) then a.amount else 0.0)
      + (if IsExpense(b) && IsShoppingCategory(b) then b.amount else 0.0)
      + (if IsExpense(c) && IsShoppingCategory(c) then c.amount else 0.0)
  {
    assert [] + [a] == [a] && [a] + [b] == [a, b] && [a, b] + [c] == [a, b, c];
    assert ShoppingSpend([]) == 0.0;
    ShoppingSpendSnoc([], a);
    ShoppingSpendSnoc([a], b);
    ShoppingSpendSnoc([a, b], c);
  }

  // ------------------------------------------------------------- form draft

  /** The new-transaction form: amount is the text typed in. */
  datatype Draft = Draft(kind: string, category: string, amount: string, date: string)

  const BlankDraft: Draft := Draft("Expense", "", "", "")

  /** The component's state: the fetched list, the active filter, the draft. */
  datatype ViewState = ViewState(transactions: seq<Transaction>, filter: string, draft: Draft)

  function InitialView(): ViewState {
    ViewState([], "All", BlankDraft)
  }

  /** Once the response to a submit parses as JSON, the draft is reset to the
      form's initial value; the list and the filter are not touched by the
      reset. */
  function AfterSubmit(v: ViewState): (v': ViewState)
    ensures v'.draft == InitialView().draft
    ensures v'.transactions == v.transactions && v'.filter == v.filter
  {
    v.(draft := BlankDraft)
  }
}
