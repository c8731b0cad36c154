/** The query-string filters (backend/recipes/filters.py): `is_favorited`,
    `is_in_shopping_cart` and `author` on recipes, and the case-insensitive
    name prefix on ingredients. A queryset is a sequence of rows; filtering
    keeps the rows that pass, in order. */
module RecipeFilters {
  import opened Common
  import opened RecipeModels
  import RecipeSerializers

  /** A recipe row of the queryset: its primary key and its fields. */
  datatype RecipeRow = RecipeRow(id: RecipeId, recipe: Recipe)

  /** The rows whose recipe `user` has a row for in the relation. */
  function RelatedTo(qs: seq<RecipeRow>, rows: seq<UserRecipe>, user: UserId)
    : (r: seq<RecipeRow>)
    ensures |r| <= |qs|
    ensures forall x :: x in r <==> x in qs && UserRecipe(user, x.id) in rows
  {
    if qs == [] then []
    else if UserRecipe(user, qs[0].id) in rows then [qs[0]] + RelatedTo(qs[1..], rows, user)
    else RelatedTo(qs[1..], rows, user)
  }

  /** The rows whose recipe `user` has no row for in the relation. */
  function NotRelatedTo(qs: seq<RecipeRow>, rows: seq<UserRecipe>, user: UserId)
    : (r: seq<RecipeRow>)
    ensures |r| <= |qs|
    ensures forall x :: x in r <==> x in qs && UserRecipe(user, x.id) !in rows
  {
    if qs == [] then []
    else if UserRecipe(user, qs[0].id) !in rows then [qs[0]] + NotRelatedTo(qs[1..], rows, user)
    else NotRelatedTo(qs[1..], rows, user)
  }

  /** Every row lands in exactly one of the two results: together they are a
      rearrangement of the queryset. */
  lemma {:induction false} RelatedPartition(qs: seq<RecipeRow>, rows: seq<UserRecipe>, user: UserId)
    ensures multiset(RelatedTo(qs, rows, user)) + multiset(NotRelatedTo(qs, rows, user))
            == multiset(qs)
  {
    if qs != [] {
      RelatedPartition(qs[1..], rows, user);
      assert qs == [qs[0]] + qs[1..];
    }
  }

  /** The common body of `filter_is_favorited` and
      `filter_is_in_shopping_cart`, over the relation the lookup is meant to
      reach. */
  function FilterByRelation(qs: seq<RecipeRow>, rows: seq<UserRecipe>, requester: Requester,
                            value: bool): (r: seq<RecipeRow>)
    ensures requester.Anonymous? && value ==> r == []
    ensures requester.Anonymous? && !value ==> r == qs
    ensures requester.User? && value ==>
              forall x :: x in r <==> x in qs && UserRecipe(requester.id, x.id) in rows
    ensures requester.User? && !value ==>
              forall x :: x in r <==> x in qs && UserRecipe(requester.id, x.id) !in rows
  {
    if requester.Anonymous? then (if value then [] else qs)
    else if value then RelatedTo(qs, rows, requester.id)
    else NotRelatedTo(qs, rows, requester.id)
  }

  /** For an authenticated requester, `true` and `false` split the queryset. */
  lemma FilterSplitsQueryset(qs: seq<RecipeRow>, rows: seq<UserRecipe>, user: UserId)
    ensures multiset(FilterByRelation(qs, rows, User(user), true))
            + multiset(FilterByRelation(qs, rows, User(user), false)) == multiset(qs)
  {
    RelatedPartition(qs, rows, user);
  }

  /** `filter_is_favorited`: a row is kept exactly when its `is_favorited`
      flag, as the read serializer shows it, equals the requested value. */
  function FilterIsFavorited(qs: seq<RecipeRow>, favorites: seq<UserRecipe>, requester: Requester,
                             value: bool): (r: seq<RecipeRow>)
    ensures forall x :: x in r <==>
              x in qs && RecipeSerializers.IsFavorited(requester, favorites, x.id) == value
  {
    FilterByRelation(qs, favorites, requester, value)
  }

  /** `filter_is_in_shopping_cart`: a row is kept exactly when its intended
      `is_in_shopping_cart` flag equals the requested value. */
  function FilterIsInShoppingCart(qs: seq<RecipeRow>, carts: seq<UserRecipe>, requester: Requester,
                                  value: bool): (r: seq<RecipeRow>)
    ensures forall x :: x in r <==>
              x in qs && RecipeSerializers.IsInShoppingCart(requester, [], carts, x.id) == value
  {
    FilterByRelation(qs, carts, requester, value)
  }

  /** `author = NumberFilter(field_name='author__id')`: the rows whose
      author's primary key equals the number. */
  function FilterByAuthor(qs: seq<RecipeRow>, author: int): (r: seq<RecipeRow>)
    ensures |r| <= |qs|
    ensures forall x :: x in r <==> x in qs && x.recipe.author == author
  {
    if qs == [] then []
    else if qs[0].recipe.author == author then [qs[0]] + FilterByAuthor(qs[1..], author)
    else FilterByAuthor(qs[1..], author)
  }

  /** The author filter keeps every row of that author as often as it
      occurs in the queryset, and no other row. */
  lemma {:induction false} FilterByAuthorCounts(qs: seq<RecipeRow>, author: int, x: RecipeRow)
    ensures multiset(FilterByAuthor(qs, author))[x]
            == if x.recipe.author == author then multiset(qs)[x] else 0
  {
    if qs != [] {
      FilterByAuthorCounts(qs[1..], author, x);
      assert qs == [qs[0]] + qs[1..];
    }
  }

  // ---------------------------------------------------------------------------
  // Ingredient name prefix (`istartswith`)

  /** The database's `UPPER` on the letters an ingredient name uses: Latin
      a-z, Cyrillic а-я and ё; every other character is kept. */
  function UpperChar(c: char): (u: char)
    ensures ('a' <= c <= 'z') ==> 'A' <= u <= 'Z' && u as int - 'A' as int == c as int - 'a' as int
    ensures ('а' <= c <= 'я') ==> 'А' <= u <= 'Я' && u as int - 'А' as int == c as int - 'а' as int
    ensures c == 'ё' ==> u == 'Ё'
    ensures !(('a' <= c <= 'z') || ('а' <= c <= 'я') || c == 'ё') ==> u == c
  {
    if 'a' <= c <= 'z' then (c as int - 32) as char
    else if 'а' <= c <= 'я' then (c as int - 32) as char
    else if c == 'ё' then 'Ё'
    else c
  }

  /** `a` and `b` are the same letter, perhaps one in lower case and the
      other in upper case. */
  predicate SameUpToCase(a: char, b: char) {
    || a == b
    || (('a' <= a <= 'z' || 'а' <= a <= 'я') && b as int == a as int - 32)
    || (('a' <= b <= 'z' || 'а' <= b <= 'я') && a as int == b as int - 32)
    || (a == 'ё' && b == 'Ё')
    || (a == 'Ё' && b == 'ё')
  }

  /** Letters that differ only in case upper-case alike. */
  lemma UpperCharSameUpToCase(a: char, b: char)
    requires SameUpToCase(a, b)
    ensures UpperChar(a) == UpperChar(b)
  {
  }

  /** Upper-casing an upper-cased character changes nothing. */
  lemma UpperCharIdempotent(c: char)
    ensures UpperChar(UpperChar(c)) == UpperChar(c)
  {
  }

  function Upper(s: string): (u: string)
    ensures |u| == |s|
    ensures forall i :: 0 <= i < |s| ==> u[i] == UpperChar(s[i])
  {
    seq(|s|, i requires 0 <= i < |s| => UpperChar(s[i]))
  }

  /** `name` starts with `query`, letter case ignored:
      `UPPER(name) LIKE UPPER(query) || '%'` with the query's wildcards
      escaped. */
  predicate StartsWithIgnoringCase(name: string, query: string) {
    IsPrefix(Upper(query), Upper(name))
  }

  /** `IngredientFilter.name`: the ingredients whose name starts with the
      query, in order; an empty query leaves the list as it is. */
  function FilterIngredientsByName(ingredients: seq<Ingredient>, query: string)
    : (r: seq<Ingredient>)
    ensures |r| <= |ingredients|
    ensures forall i :: i in r <==> i in ingredients && StartsWithIgnoringCase(i.name, query)
  {
    if ingredients == [] then []
    else if StartsWithIgnoringCase(ingredients[0].name, query)
    then [ingredients[0]] + FilterIngredientsByName(ingredients[1..], query)
    else FilterIngredientsByName(ingredients[1..], query)
  }

  /** Queries that differ only in letter case select the same ingredients. */
  lemma {:induction false} NameFilterIgnoresQueryCase(ingredients: seq<Ingredient>, q1: string,
                                                      q2: string)
    requires Upper(q1) == Upper(q2)
    ensures FilterIngredientsByName(ingredients, q1) == FilterIngredientsByName(ingredients, q2)
  {
    if ingredients != [] {
      NameFilterIgnoresQueryCase(ingredients[1..], q1, q2);
    }
  }

  /** Queries that spell the same letters, each in either case, select the
      same ingredients: `?name=мук` and `?name=МУК` agree. */
  lemma CaseVariantQueriesAgree(ingredients: seq<Ingredient>, q1: string, q2: string)
    requires |q1| == |q2|
    requires forall k :: 0 <= k < |q1| ==> SameUpToCase(q1[k], q2[k])
    ensures FilterIngredientsByName(ingredients, q1) == FilterIngredientsByName(ingredients, q2)
  {
    forall k | 0 <= k < |q1| ensures Upper(q1)[k] == Upper(q2)[k] {
      UpperCharSameUpToCase(q1[k], q2[k]);
    }
    assert Upper(q1) == Upper(q2);
    NameFilterIgnoresQueryCase(ingredients, q1, q2);
  }

  /** Upper-casing the query first changes nothing. */
  lemma NameFilterUpperQuery(ingredients: seq<Ingredient>, query: string)
    ensures FilterIngredientsByName(ingredients, Upper(query))
            == FilterIngredientsByName(ingredients, query)
  {
    forall i | 0 <= i < |query| ensures Upper(Upper(query))[i] == Upper(query)[i] {
      UpperCharIdempotent(query[i]);
    }
    assert Upper(Upper(query)) == Upper(query);
    NameFilterIgnoresQueryCase(ingredients, Upper(query), query);
  }

  /** The empty query keeps every ingredient. */
  lemma {:induction false} NameFilterEmptyQuery(ingredients: seq<Ingredient>)
    ensures FilterIngredientsByName(ingredients, "") == ingredients
  {
    if ingredients != [] {
      NameFilterEmptyQuery(ingredients[1..]);
    }
  }

  /** An ingredient whose name begins with the query as typed is kept. */
  lemma ExactPrefixKept(ingredients: seq<Ingredient>, query: string, i: Ingredient)
    requires i in ingredients && IsPrefix(query, i.name)
    ensures i in FilterIngredientsByName(ingredients, query)
  {
    assert Upper(i.name)[..|query|] == Upper(query) by {
      forall k | 0 <= k < |query| ensures Upper(i.name)[k] == Upper(query)[k] {
        assert i.name[k] == query[k];
      }
    }
  }

  /** An ingredient is kept when its name begins with the query up to the
      case of each letter: a lower-case query finds a capitalised name. */
  lemma CaseVariantPrefixKept(ingredients: seq<Ingredient>, query: string, i: Ingredient)
    requires i in ingredients && |query| <= |i.name|
    requires forall k :: 0 <= k < |query| ==> SameUpToCase(query[k], i.name[k])
    ensures i in FilterIngredientsByName(ingredients, query)
  {
    assert Upper(i.name)[..|query|] == Upper(query) by {
      forall k | 0 <= k < |query| ensures Upper(i.name)[k] == Upper(query)[k] {
        UpperCharSameUpToCase(query[k], i.name[k]);
      }
    }
  }

  /** `?name=сах` finds "Сахар". */
  lemma LowerQueryFindsCapitalisedName()
    ensures FilterIngredientsByName([Ingredient("Сахар", "г")], "сах") == [Ingredient("Сахар", "г")]
  {
    CaseVariantPrefixKept([Ingredient("Сахар", "г")], "сах", Ingredient("Сахар", "г"));
  }
}
