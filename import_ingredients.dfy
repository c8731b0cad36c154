/** The `import_ingredients` management command
    (backend/recipes/management/commands/import_ingredients.py): every CSV row
    with exactly two fields is stripped of surrounding whitespace and
    `get_or_create`d in the ingredient table; other rows are skipped. The
    file's presence and its rows are parameters; the messages written to the
    console are reduced to the outcome they report. */
module ImportIngredients {
  import opened Common
  import opened RecipeModels

  // ---------------------------------------------------------------------------
  // str.strip()

  /** The characters Python's `str.isspace` accepts. */
  predicate IsWhitespace(c: char) {
    ('\t' <= c <= '\r') || ('\U{1C}' <= c <= ' ') || c == '\U{85}' || c == '\U{A0}'
    || c == '\U{1680}' || ('\U{2000}' <= c <= '\U{200A}') || c == '\U{2028}' || c == '\U{2029}'
    || c == '\U{202F}' || c == '\U{205F}' || c == '\U{3000}'
  }

  /** The number of whitespace characters `s` starts with. */
  function LeadingWhitespace(s: string): (n: nat)
    ensures n <= |s|
    ensures forall i :: 0 <= i < n ==> IsWhitespace(s[i])
    ensures n == |s| || !IsWhitespace(s[n])
  {
    if s != [] && IsWhitespace(s[0]) then 1 + LeadingWhitespace(s[1..]) else 0
  }

  /** The number of whitespace characters `s` ends with. */
  function TrailingWhitespace(s: string): (n: nat)
    ensures n <= |s|
    ensures forall i :: |s| - n <= i < |s| ==> IsWhitespace(s[i])
    ensures n == |s| || !IsWhitespace(s[|s| - n - 1])
  {
    if s != [] && IsWhitespace(s[|s| - 1]) then 1 + TrailingWhitespace(s[..|s| - 1]) else 0
  }

  /** `str.strip()`: the leading whitespace is cut, then the trailing
      whitespace of what is left. The result is the slice of `s` after its
      leading whitespace; only whitespace is cut on either side, and the
      result neither starts nor ends with whitespace. */
  function Strip(s: string): (r: string)
    ensures var a := LeadingWhitespace(s);
            a + |r| <= |s| && r == s[a..a + |r|]
              && (forall i :: a + |r| <= i < |s| ==> IsWhitespace(s[i]))
              && (r == [] || (!IsWhitespace(r[0]) && !IsWhitespace(r[|r| - 1])))
  {
    var a := LeadingWhitespace(s);
    var t := TrailingWhitespace(s[a..]);
    s[a..|s| - t]
  }

  /** Stripping twice is stripping once. */
  lemma StripIdempotent(s: string)
    ensures Strip(Strip(s)) == Strip(s)
  {
    var r := Strip(s);
    assert LeadingWhitespace(r) == 0;
    assert r[0..] == r;
    assert TrailingWhitespace(r) == 0;
    assert r[..|r|] == r;
  }

  // ---------------------------------------------------------------------------
  // The ingredient table

  /** `get_or_create` on a table: the row is added when it is not there. */
  function GetOrCreateRows(t: seq<Ingredient>, i: Ingredient): (r: seq<Ingredient>)
    ensures i in r && IsPrefix(t, r)
    ensures ToSet(r) == ToSet(t) + {i}
    ensures UniqueNameUnit(t) ==> UniqueNameUnit(r)
  {
    if i in t then t else t + [i]
  }

  class IngredientTable {
    var rows: seq<Ingredient>

    /** `unique_name_unit`. */
    ghost predicate Valid()
      reads this
    {
      UniqueNameUnit(rows)
    }

    constructor (rows: seq<Ingredient>)
      requires UniqueNameUnit(rows)
      ensures Valid() && this.rows == rows
    {
      this.rows := rows;
    }

    /** `Ingredient.objects.get_or_create(name=..., measurement_unit=...)`. */
    method GetOrCreate(name: string, unit: string) returns (created: bool)
      requires Valid()
      modifies this
      ensures Valid()
      ensures rows == GetOrCreateRows(old(rows), Ingredient(name, unit))
      ensures created <==> Ingredient(name, unit) !in old(rows)
    {
      created := Ingredient(name, unit) !in rows;
      if created {
        rows := rows + [Ingredient(name, unit)];
      }
    }
  }

  // ---------------------------------------------------------------------------
  // The rows of the file

  /** The ingredient a two-field row stands for. */
  function RowIngredient(row: seq<string>): Ingredient
    requires |row| == 2
  {
    Ingredient(Strip(row[0]), Strip(row[1]))
  }

  /** The table after one row. */
  function ImportRow(t: seq<Ingredient>, row: seq<string>): seq<Ingredient> {
    if |row| != 2 then t else GetOrCreateRows(t, RowIngredient(row))
  }

  /** The table after the rows, in order. */
  function ImportAll(t: seq<Ingredient>, rows: seq<seq<string>>): (r: seq<Ingredient>)
    ensures UniqueNameUnit(t) ==> UniqueNameUnit(r)
    ensures ToSet(r) == ToSet(t) + ImportedIngredients(rows)
    decreases |rows|
  {
    if rows == [] then t else ImportAll(ImportRow(t, rows[0]), rows[1..])
  }

  /** The number of rows with exactly two fields. */
  function PairRows(rows: seq<seq<string>>): nat {
    if rows == [] then 0
    else PairRows(rows[..|rows| - 1]) + (if |rows[|rows| - 1]| == 2 then 1 else 0)
  }

  /** The ingredients the two-field rows stand for. */
  function ImportedIngredients(rows: seq<seq<string>>): set<Ingredient> {
    if rows == [] then {}
    else (if |rows[0]| == 2 then {RowIngredient(rows[0])} else {})
         + ImportedIngredients(rows[1..])
  }

  /** Ingredients are only added: the old table is a prefix of the new one. */
  lemma {:induction false} ImportOnlyAdds(t: seq<Ingredient>, rows: seq<seq<string>>)
    ensures IsPrefix(t, ImportAll(t, rows))
    decreases |rows|
  {
    if rows != [] {
      var t' := ImportRow(t, rows[0]);
      ImportOnlyAdds(t', rows[1..]);
      var r := ImportAll(t, rows);
      assert r[..|t|] == r[..|t'|][..|t|];
    }
  }

  /** Rows whose ingredients are all present change nothing. */
  lemma {:induction false} ImportPresentNoop(t: seq<Ingredient>, rows: seq<seq<string>>)
    requires ImportedIngredients(rows) <= ToSet(t)
    ensures ImportAll(t, rows) == t
    decreases |rows|
  {
    if rows != [] {
      if |rows[0]| == 2 {
        assert RowIngredient(rows[0]) in ToSet(t);
      }
      ImportPresentNoop(t, rows[1..]);
    }
  }

  /** Importing the same file twice gives the table of importing it once. */
  lemma ImportIdempotent(t: seq<Ingredient>, rows: seq<seq<string>>)
    ensures ImportAll(ImportAll(t, rows), rows) == ImportAll(t, rows)
  {
    ImportPresentNoop(ImportAll(t, rows), rows);
  }

  /** What the command reports. */
  datatype ImportReport = FileNotFound | Imported(count: nat)

  /** `Command.handle`: a missing file ends the command at once; otherwise
      each two-field row is stripped, `get_or_create`d and counted, whether
      or not its ingredient already existed. */
  method Handle(table: IngredientTable, fileExists: bool, csvRows: seq<seq<string>>)
    returns (report: ImportReport)
    requires table.Valid()
    modifies table
    ensures table.Valid()
    ensures !fileExists ==> report == FileNotFound && table.rows == old(table.rows)
    ensures fileExists ==> report == Imported(PairRows(csvRows))
                           && table.rows == ImportAll(old(table.rows), csvRows)
  {
    if !fileExists {
      return FileNotFound;
    }
    var count := 0;
    for i := 0 to |csvRows|
      invariant table.Valid()
      invariant ImportAll(table.rows, csvRows[i..]) == ImportAll(old(table.rows), csvRows)
      invariant count == PairRows(csvRows[..i])
    {
      assert csvRows[..i + 1][..i] == csvRows[..i];
      assert csvRows[i..][1..] == csvRows[i + 1..];
      var row := csvRows[i];
      if |row| != 2 {
        continue;
      }
      var _ := table.GetOrCreate(Strip(row[0]), Strip(row[1]));
      count := count + 1;
    }
    assert csvRows[..|csvRows|] == csvRows;
    report := Imported(count);
  }
}
