/** The shopping list of `download_shopping_cart` (backend/recipes/views.py).

    The handler's query takes the ingredient rows of the recipes in the user's
    cart, groups them by (ingredient name, measurement unit), sums the amounts
    and orders the groups by name; a loop then renders one line per group and
    the lines are joined with newlines.

    The database decides the order of groups with equal names, so the result is
    specified by the predicate IsShoppingList, which admits every such order.
    Aggregate is one function meeting it; every list meeting it has the same
    entries and the same grand total. */
module ShoppingList {
  import opened Common

  /** A `RecipeIngredient` row of a cart recipe, joined with its ingredient. */
  datatype IngredientLine = IngredientLine(name: string, unit: string, amount: nat)

  /** The grouping key, `('ingredient__name', 'ingredient__measurement_unit')`. */
  datatype Key = Key(name: string, unit: string)

  /** One row of the grouped query: name, unit and `total=Sum('amount')`. */
  datatype Entry = Entry(name: string, unit: string, total: nat)

  function KeyOf(l: IngredientLine): Key { Key(l.name, l.unit) }
  function EntryKey(e: Entry): Key { Key(e.name, e.unit) }

  /** The keys that occur among the lines. */
  function Keys(lines: seq<IngredientLine>): set<Key> {
    if lines == [] then {} else {KeyOf(lines[0])} + Keys(lines[1..])
  }

  /** The keys of the entries. */
  function KeySet(es: seq<Entry>): set<Key> {
    if es == [] then {} else {EntryKey(es[0])} + KeySet(es[1..])
  }

  lemma {:induction false} KeySetMember(es: seq<Entry>, k: Key)
    ensures k in KeySet(es) <==> exists i :: 0 <= i < |es| && EntryKey(es[i]) == k
  {
    if es != [] {
      KeySetMember(es[1..], k);
      if exists i :: 0 <= i < |es| && EntryKey(es[i]) == k {
        var i :| 0 <= i < |es| && EntryKey(es[i]) == k;
        if i > 0 { assert EntryKey(es[1..][i - 1]) == k; }
      }
      if exists i :: 0 <= i < |es| - 1 && EntryKey(es[1..][i]) == k {
        var i :| 0 <= i < |es| - 1 && EntryKey(es[1..][i]) == k;
        assert EntryKey(es[i + 1]) == k;
      }
    }
  }

  /** Sequences with the same elements have the same keys. */
  lemma KeySetSameElements(a: seq<Entry>, b: seq<Entry>)
    requires forall x :: x in a <==> x in b
    ensures KeySet(a) == KeySet(b)
  {
    forall k ensures k in KeySet(a) ==> k in KeySet(b) {
      KeySetMember(a, k);
      KeySetMember(b, k);
      if k in KeySet(a) {
        var i :| 0 <= i < |a| && EntryKey(a[i]) == k;
        assert a[i] in b;
      }
    }
    forall k ensures k in KeySet(b) ==> k in KeySet(a) {
      KeySetMember(a, k);
      KeySetMember(b, k);
      if k in KeySet(b) {
        var i :| 0 <= i < |b| && EntryKey(b[i]) == k;
        assert b[i] in a;
      }
    }
  }

  /** The sum of the amounts of the lines with key `k`. */
  function TotalFor(lines: seq<IngredientLine>, k: Key): nat {
    if lines == [] then 0
    else (if KeyOf(lines[0]) == k then lines[0].amount else 0) + TotalFor(lines[1..], k)
  }

  function SumAmounts(lines: seq<IngredientLine>): nat {
    if lines == [] then 0 else lines[0].amount + SumAmounts(lines[1..])
  }

  function SumTotals(es: seq<Entry>): nat {
    if es == [] then 0 else es[0].total + SumTotals(es[1..])
  }

  /** No two entries share a key. */
  predicate DistinctKeys(es: seq<Entry>) {
    forall i, j :: 0 <= i < j < |es| ==> EntryKey(es[i]) != EntryKey(es[j])
  }

  // ---------------------------------------------------------------------------
  // Name order

  /** Lexicographic order on names, character by character (code point order). */
  predicate NameLe(a: string, b: string) {
    a == [] || (b != [] && (a[0] < b[0] || (a[0] == b[0] && NameLe(a[1..], b[1..]))))
  }

  lemma NameLeTotal(a: string, b: string)
    ensures NameLe(a, b) || NameLe(b, a)
  {
  }

  lemma NameLeTransitive(a: string, b: string, c: string)
    requires NameLe(a, b) && NameLe(b, c)
    ensures NameLe(a, c)
  {
  }

  predicate SortedByName(es: seq<Entry>) {
    forall i, j :: 0 <= i < j < |es| ==> NameLe(es[i].name, es[j].name)
  }

  // ---------------------------------------------------------------------------
  // Specification of the grouped, ordered query

  /** `es` is a possible result of the query over `lines`: one entry per
      distinct key, carrying the sum of that key's amounts, ordered by name
      (entries with equal names in any order). */
  predicate IsShoppingList(lines: seq<IngredientLine>, es: seq<Entry>)
    ensures IsShoppingList(lines, es) ==> (es == [] <==> lines == [])
  {
    && SortedByName(es)
    && DistinctKeys(es)
    && KeySet(es) == Keys(lines)
    && forall i :: 0 <= i < |es| ==> es[i].total == TotalFor(lines, EntryKey(es[i]))
  }

  // ---------------------------------------------------------------------------
  // One implementation: group, then sort

  /** Adds one line to the running groups. */
  function AddLine(es: seq<Entry>, l: IngredientLine): seq<Entry> {
    if es == [] then [Entry(l.name, l.unit, l.amount)]
    else if EntryKey(es[0]) == KeyOf(l) then [es[0].(total := es[0].total + l.amount)] + es[1..]
    else [es[0]] + AddLine(es[1..], l)
  }

  /** `.values(name, unit).annotate(total=Sum('amount'))`. */
  function Group(lines: seq<IngredientLine>): seq<Entry> {
    if lines == [] then [] else AddLine(Group(lines[1..]), lines[0])
  }

  /** Inserts `e` before the first entry whose name is not smaller. */
  function Insert(e: Entry, s: seq<Entry>): seq<Entry> {
    if s == [] then [e]
    else if NameLe(e.name, s[0].name) then [e] + s
    else [s[0]] + Insert(e, s[1..])
  }

  /** `.order_by('ingredient__name')`. */
  function SortByName(es: seq<Entry>): seq<Entry> {
    if es == [] then [] else Insert(es[0], SortByName(es[1..]))
  }

  /** Group the lines by key, then order the groups by name. */
  function Aggregate(lines: seq<IngredientLine>): (r: seq<Entry>)
    ensures IsShoppingList(lines, r)
    ensures SumTotals(r) == SumAmounts(lines)
  {
    GroupThenSortIsShoppingList(lines);
    SortByName(Group(lines))
  }

  /** The total recorded for key `k`, 0 when there is no entry for it. */
  function Lookup(es: seq<Entry>, k: Key): nat {
    if es == [] then 0
    else if EntryKey(es[0]) == k then es[0].total
    else Lookup(es[1..], k)
  }

  lemma {:induction false} LookupAt(es: seq<Entry>, i: nat)
    requires DistinctKeys(es) && i < |es|
    ensures Lookup(es, EntryKey(es[i])) == es[i].total
  {
    if i > 0 {
      assert EntryKey(es[0]) != EntryKey(es[i]);
      LookupAt(es[1..], i - 1);
    }
  }

  lemma {:induction false} AddLineKeys(es: seq<Entry>, l: IngredientLine)
    ensures KeySet(AddLine(es, l)) == KeySet(es) + {KeyOf(l)}
  {
    var r := AddLine(es, l);
    if es != [] {
      var t := es[1..];
      if EntryKey(es[0]) == KeyOf(l) {
        assert r[1..] == t;
      } else {
        AddLineKeys(t, l);
        assert r[1..] == AddLine(t, l);
      }
    }
  }

  lemma {:induction false} AddLineDistinct(es: seq<Entry>, l: IngredientLine)
    requires DistinctKeys(es)
    ensures DistinctKeys(AddLine(es, l))
  {
    var r := AddLine(es, l);
    if es == [] {
    } else if EntryKey(es[0]) == KeyOf(l) {
      forall i, j | 0 <= i < j < |r| ensures EntryKey(r[i]) != EntryKey(r[j]) {
        assert EntryKey(r[i]) == EntryKey(es[i]) && EntryKey(r[j]) == EntryKey(es[j]);
      }
    } else {
      var t := es[1..];
      AddLineDistinct(t, l);
      AddLineKeys(t, l);
      assert r == [es[0]] + AddLine(t, l);
      forall j | 0 < j < |r| ensures EntryKey(r[0]) != EntryKey(r[j]) {
        var k := EntryKey(r[j]);
        KeySetMember(AddLine(t, l), k);
        assert AddLine(t, l)[j - 1] == r[j];
        KeySetMember(t, k);
        if k in KeySet(t) {
          var m :| 0 <= m < |t| && EntryKey(t[m]) == k;
          assert es[m + 1] == t[m];
        }
      }
    }
  }

  lemma {:induction false} AddLineLookup(es: seq<Entry>, l: IngredientLine, k: Key)
    ensures Lookup(AddLine(es, l), k) == Lookup(es, k) + (if k == KeyOf(l) then l.amount else 0)
  {
    if es != [] && EntryKey(es[0]) != KeyOf(l) {
      AddLineLookup(es[1..], l, k);
    }
  }

  lemma {:induction false} AddLineSum(es: seq<Entry>, l: IngredientLine)
    ensures SumTotals(AddLine(es, l)) == SumTotals(es) + l.amount
  {
    if es != [] && EntryKey(es[0]) != KeyOf(l) {
      AddLineSum(es[1..], l);
    }
  }

  /** The grouping loses and double-counts nothing. */
  lemma {:induction false} GroupCorrect(lines: seq<IngredientLine>)
    ensures DistinctKeys(Group(lines))
    ensures KeySet(Group(lines)) == Keys(lines)
    ensures forall k :: Lookup(Group(lines), k) == TotalFor(lines, k)
    ensures SumTotals(Group(lines)) == SumAmounts(lines)
  {
    if lines != [] {
      var t := lines[1..];
      GroupCorrect(t);
      AddLineDistinct(Group(t), lines[0]);
      AddLineKeys(Group(t), lines[0]);
      AddLineSum(Group(t), lines[0]);
      forall k ensures Lookup(Group(lines), k) == TotalFor(lines, k) {
        AddLineLookup(Group(t), lines[0], k);
      }
    }
  }

  lemma {:induction false} InsertPermutes(e: Entry, s: seq<Entry>)
    ensures multiset(Insert(e, s)) == multiset(s) + multiset{e}
    ensures SumTotals(Insert(e, s)) == e.total + SumTotals(s)
  {
    if s != [] && !NameLe(e.name, s[0].name) {
      InsertPermutes(e, s[1..]);
      assert s == [s[0]] + s[1..];
    }
  }

  lemma {:induction false} InsertSorted(e: Entry, s: seq<Entry>)
    requires SortedByName(s)
    ensures SortedByName(Insert(e, s))
  {
    var r := Insert(e, s);
    if s == [] {
    } else if NameLe(e.name, s[0].name) {
      forall i, j | 0 <= i < j < |r| ensures NameLe(r[i].name, r[j].name) {
        if i == 0 && j > 1 {
          NameLeTransitive(e.name, s[0].name, s[j - 1].name);
        }
      }
    } else {
      var t := s[1..];
      InsertSorted(e, t);
      InsertPermutes(e, t);
      assert r == [s[0]] + Insert(e, t);
      forall j | 0 < j < |r| ensures NameLe(r[0].name, r[j].name) {
        assert r[j] in multiset(Insert(e, t));
        if r[j] == e {
          NameLeTotal(e.name, s[0].name);
        } else {
          assert r[j] in t;
          var m :| 0 <= m < |t| && t[m] == r[j];
          assert s[m + 1] == r[j];
        }
      }
    }
  }

  lemma {:induction false} SortByNameCorrect(es: seq<Entry>)
    ensures multiset(SortByName(es)) == multiset(es)
    ensures SumTotals(SortByName(es)) == SumTotals(es)
    ensures SortedByName(SortByName(es))
  {
    if es != [] {
      SortByNameCorrect(es[1..]);
      InsertPermutes(es[0], SortByName(es[1..]));
      InsertSorted(es[0], SortByName(es[1..]));
      assert es == [es[0]] + es[1..];
    }
  }

  /** Entries with distinct keys are distinct entries. */
  lemma DistinctKeysNoDuplicates(es: seq<Entry>)
    requires DistinctKeys(es)
    ensures NoDuplicates(es)
  {
    forall i, j | 0 <= i < j < |es| ensures es[i] != es[j] {
      assert EntryKey(es[i]) != EntryKey(es[j]);
    }
  }

  lemma {:induction false} SumTotalsAppend(a: seq<Entry>, b: seq<Entry>)
    ensures SumTotals(a + b) == SumTotals(a) + SumTotals(b)
  {
    if a != [] {
      assert (a + b)[1..] == a[1..] + b;
      SumTotalsAppend(a[1..], b);
    } else {
      assert a + b == b;
    }
  }

  lemma SumTotalsRemove(b: seq<Entry>, k: nat)
    requires k < |b|
    ensures SumTotals(b) == b[k].total + SumTotals(b[..k] + b[k + 1..])
  {
    SplitAt(b, k);
    SumTotalsSplit(b[..k], b[k], b[k + 1..]);
  }

  lemma SumTotalsSplit(front: seq<Entry>, x: Entry, back: seq<Entry>)
    ensures SumTotals(front + ([x] + back)) == x.total + SumTotals(front + back)
  {
    SumTotalsAppend(front, [x] + back);
    SumTotalsAppend(front, back);
    assert ([x] + back)[1..] == back;
  }

  /** The grand total does not depend on the order of the entries. */
  lemma {:induction false} SumTotalsPermutation(a: seq<Entry>, b: seq<Entry>)
    requires multiset(a) == multiset(b)
    ensures SumTotals(a) == SumTotals(b)
  {
    if a == [] {
      assert |b| == |multiset(b)| == 0;
    } else {
      var x := a[0];
      assert x in multiset(b);
      var k :| 0 <= k < |b| && b[k] == x;
      var b' := RemoveAt(b, k);
      assert b' == b[..k] + b[k + 1..];
      assert a[1..] == RemoveAt(a, 0);
      SumTotalsRemove(b, k);
      SumTotalsPermutation(a[1..], b');
    }
  }

  // ---------------------------------------------------------------------------
  // Properties

  /** Aggregate is a possible result of the grouped query. */
  lemma GroupThenSortIsShoppingList(lines: seq<IngredientLine>)
    ensures IsShoppingList(lines, SortByName(Group(lines)))
    ensures SumTotals(SortByName(Group(lines))) == SumAmounts(lines)
  {
    var g := Group(lines);
    var es := SortByName(g);
    GroupCorrect(lines);
    SortByNameCorrect(g);
    assert forall e :: e in es <==> e in g by {
      forall e ensures e in es <==> e in g {
        assert e in es <==> e in multiset(es);
        assert e in g <==> e in multiset(g);
      }
    }
    KeySetSameElements(es, g);
    forall i | 0 <= i < |es| ensures es[i].total == TotalFor(lines, EntryKey(es[i])) {
      assert es[i] in g;
      var j :| 0 <= j < |g| && g[j] == es[i];
      LookupAt(g, j);
    }
    DistinctKeysNoDuplicates(g);
    PermutationNoDuplicates(g, es);
    assert DistinctKeys(es) by {
      forall i, j | 0 <= i < j < |es| ensures EntryKey(es[i]) != EntryKey(es[j]) {
        assert es[i] != es[j];
        assert es[i] in g && es[j] in g;
        var i' :| 0 <= i' < |g| && g[i'] == es[i];
        var j' :| 0 <= j' < |g| && g[j'] == es[j];
      }
    }
  }

  /** Every possible result of the query has the same entries: the database's
      choice among equal names only permutes them. */
  lemma ShoppingListsAgree(lines: seq<IngredientLine>, a: seq<Entry>, b: seq<Entry>)
    requires IsShoppingList(lines, a) && IsShoppingList(lines, b)
    ensures multiset(a) == multiset(b)
  {
    forall x ensures x in a ==> x in b {
      if x in a {
        var i :| 0 <= i < |a| && a[i] == x;
        KeySetMember(a, EntryKey(x));
        KeySetMember(b, EntryKey(x));
        var j :| 0 <= j < |b| && EntryKey(b[j]) == EntryKey(x);
      }
    }
    forall x ensures x in b ==> x in a {
      if x in b {
        var i :| 0 <= i < |b| && b[i] == x;
        KeySetMember(a, EntryKey(x));
        KeySetMember(b, EntryKey(x));
        var j :| 0 <= j < |a| && EntryKey(a[j]) == EntryKey(x);
      }
    }
    DistinctKeysNoDuplicates(a);
    DistinctKeysNoDuplicates(b);
    SameElementsPermutation(a, b);
  }

  /** Totals are conserved: whatever the tie order, the entry totals add up
      to the sum of all the amounts. */
  lemma ShoppingListConservesTotals(lines: seq<IngredientLine>, es: seq<Entry>)
    requires IsShoppingList(lines, es)
    ensures SumTotals(es) == SumAmounts(lines)
  {
    ShoppingListsAgree(lines, es, Aggregate(lines));
    SumTotalsPermutation(es, Aggregate(lines));
  }

  // ---------------------------------------------------------------------------
  // Rendering

  /** `f"{name} ({unit}) — {total}"`: a newline-free name and unit give a
      newline-free line, since the total renders as digits only. */
  function Line(e: Entry): (r: string)
    ensures NewlineFree(e.name) && NewlineFree(e.unit) ==> NewlineFree(r)
  {
    var d := NatToDecimal(e.total);
    assert '\n' !in d;
    e.name + " (" + e.unit + ") — " + d
  }

  function RenderedLines(es: seq<Entry>): (r: seq<string>)
    ensures |r| == |es| && forall i :: 0 <= i < |es| ==> r[i] == Line(es[i])
  {
    seq(|es|, i requires 0 <= i < |es| => Line(es[i]))
  }

  /** `'\n'.join(lines)`: newline-free lines are separated by exactly one
      newline each, with none before the first or after the last. */
  function Join(lines: seq<string>): (r: string)
    ensures lines == [] ==> r == ""
    ensures lines != [] && (forall i :: 0 <= i < |lines| ==> NewlineFree(lines[i]))
            ==> multiset(r)['\n'] == |lines| - 1
  {
    if lines == [] then ""
    else if |lines| == 1 then lines[0]
    else lines[0] + "\n" + Join(lines[1..])
  }

  /** `str.split('\n')`: the pieces between newlines. */
  function Split(s: string): seq<string>
    decreases |s|
  {
    match IndexOf(s, '\n')
    case None => [s]
    case Some(i) => [s[..i]] + Split(s[i + 1..])
  }

  predicate NewlineFree(s: string) { '\n' !in s }

  /** Splitting the joined lines gives the lines back. */
  lemma {:induction false} SplitJoin(lines: seq<string>)
    requires lines != []
    requires forall i :: 0 <= i < |lines| ==> NewlineFree(lines[i])
    ensures Split(Join(lines)) == lines
  {
    if |lines| > 1 {
      var tail := lines[1..];
      var rest := Join(tail);
      assert Join(lines) == lines[0] + "\n" + rest;
      assert forall i :: 0 <= i < |tail| ==> NewlineFree(tail[i]) by {
        forall i | 0 <= i < |tail| ensures NewlineFree(tail[i]) {
          assert tail[i] == lines[i + 1];
        }
      }
      SplitCons(lines[0], rest);
      SplitJoin(tail);
      assert lines == [lines[0]] + tail;
    } else {
      SplitSingle(lines[0]);
    }
  }

  /** A newline-free string splits into itself alone. */
  lemma SplitSingle(a: string)
    requires NewlineFree(a)
    ensures Split(a) == [a]
  {
  }

  /** A newline-free piece followed by a newline splits off first. */
  lemma SplitCons(a: string, rest: string)
    requires NewlineFree(a)
    ensures Split(a + "\n" + rest) == [a] + Split(rest)
  {
    var s := a + "\n" + rest;
    assert s[|a|] == '\n';
    assert forall j :: 0 <= j < |a| ==> s[j] == a[j];
    assert IndexOf(s, '\n') == Some(|a|);
    assert s[..|a|] == a;
    assert s[|a| + 1..] == rest;
  }

  /** The loop of `download_shopping_cart` that renders the file's content. */
  method RenderShoppingList(entries: seq<Entry>) returns (content: string)
    ensures content == Join(RenderedLines(entries))
    ensures entries == [] ==> content == ""
    ensures entries != [] && (forall i :: 0 <= i < |entries| ==>
              NewlineFree(entries[i].name) && NewlineFree(entries[i].unit))
            ==> Split(content) == RenderedLines(entries)
  {
    var lines: seq<string> := [];
    for i := 0 to |entries|
      invariant |lines| == i
      invariant forall k :: 0 <= k < i ==> lines[k] == Line(entries[k])
    {
      lines := lines + [Line(entries[i])];
    }
    assert lines == RenderedLines(entries);
    content := Join(lines);
    if entries != [] && forall i :: 0 <= i < |entries| ==>
         NewlineFree(entries[i].name) && NewlineFree(entries[i].unit) {
      assert forall i :: 0 <= i < |lines| ==> NewlineFree(lines[i]);
      SplitJoin(lines);
    }
  }
}
