/** The recipe view handlers (backend/recipes/views.py): adding and removing
    favourites and cart entries, the short link and its redirect, and the
    shopping-list download. HTTP answers are reduced to a status, a redirect
    target or the body text. */
module RecipeViews {
  import opened Common
  import opened RecipeModels
  import Shortener
  import opened ShoppingList

  /** The `Favorite` or the `ShoppingCart` table. */
  class UserRecipeTable {
    var rows: seq<UserRecipe>

    /** The table's unique (user, recipe) constraint. */
    ghost predicate Valid()
      reads this
    {
      UniqueUserRecipe(rows)
    }

    /** The (user, recipe) pairs the table holds. */
    ghost function Pairs(): set<UserRecipe>
      reads this
    {
      ToSet(rows)
    }

    constructor ()
      ensures Valid() && rows == []
    {
      rows := [];
    }

    /** `Model.objects.filter(user=user, recipe=recipe).exists()`. */
    function Exists(user: UserId, recipe: RecipeId): (b: bool)
      reads this
      ensures b <==> UserRecipe(user, recipe) in Pairs()
    {
      UserRecipe(user, recipe) in rows
    }

    /** `Model.objects.create(user=user, recipe=recipe)`; the unique
        constraint admits it only for a pair that is not there yet. */
    method Create(user: UserId, recipe: RecipeId)
      requires Valid() && !Exists(user, recipe)
      modifies this
      ensures Valid()
      ensures rows == old(rows) + [UserRecipe(user, recipe)]
      ensures Pairs() == old(Pairs()) + {UserRecipe(user, recipe)}
    {
      rows := rows + [UserRecipe(user, recipe)];
    }

    /** `Model.objects.filter(user=user, recipe=recipe).delete()`. */
    method DeleteMatching(user: UserId, recipe: RecipeId)
      requires Valid()
      modifies this
      ensures Valid()
      ensures rows == Without(old(rows), UserRecipe(user, recipe))
      ensures Pairs() == old(Pairs()) - {UserRecipe(user, recipe)}
    {
      WithoutNoDuplicates(rows, UserRecipe(user, recipe));
      rows := Without(rows, UserRecipe(user, recipe));
    }
  }

  /** The state `RecipeViewSet`'s actions read and change: the primary keys of
      the existing recipes and the two relation tables. */
  class RecipeViewSet {
    var recipes: set<RecipeId>
    const favorites: UserRecipeTable
    const shoppingCarts: UserRecipeTable

    ghost predicate Valid()
      reads this, favorites, shoppingCarts
    {
      favorites != shoppingCarts && favorites.Valid() && shoppingCarts.Valid()
    }

    constructor (recipes: set<RecipeId>)
      ensures Valid() && fresh(favorites) && fresh(shoppingCarts)
      ensures this.recipes == recipes && favorites.rows == [] && shoppingCarts.rows == []
    {
      this.recipes := recipes;
      favorites := new UserRecipeTable();
      shoppingCarts := new UserRecipeTable();
    }

    /** The common body of `favorite` and `shopping_cart`: 404 for an unknown
        recipe; POST adds the pair unless it is there (400); DELETE removes it
        if it is there (204), else 400. */
    method Toggle(table: UserRecipeTable, m: HttpMethod, user: UserId, pk: RecipeId)
      returns (status: Status)
      requires Valid() && (table == favorites || table == shoppingCarts)
      requires m == Post || m == Delete
      modifies table
      ensures Valid()
      ensures pk !in recipes ==> status == NotFound404 && table.rows == old(table.rows)
      ensures pk in recipes && m == Post ==>
        if UserRecipe(user, pk) in old(table.Pairs())
        then status == BadRequest400 && table.rows == old(table.rows)
        else status == Created201 && table.rows == old(table.rows) + [UserRecipe(user, pk)]
      ensures pk in recipes && m == Delete ==>
        if UserRecipe(user, pk) in old(table.Pairs())
        then status == NoContent204 && table.Pairs() == old(table.Pairs()) - {UserRecipe(user, pk)}
        else status == BadRequest400 && table.rows == old(table.rows)
    {
      if pk !in recipes {
        return NotFound404;
      }
      if m == Post {
        if table.Exists(user, pk) {
          return BadRequest400;
        }
        table.Create(user, pk);
        return Created201;
      }
      if table.Exists(user, pk) {
        table.DeleteMatching(user, pk);
        return NoContent204;
      }
      return BadRequest400;
    }

    /** `favorite`: POST / DELETE on the user's favourites. */
    method Favorite(m: HttpMethod, user: UserId, pk: RecipeId) returns (status: Status)
      requires Valid() && (m == Post || m == Delete)
      modifies favorites
      ensures Valid() && unchanged(shoppingCarts)
      ensures pk !in recipes ==> status == NotFound404 && favorites.rows == old(favorites.rows)
      ensures pk in recipes && m == Post ==>
        if UserRecipe(user, pk) in old(favorites.Pairs())
        then status == BadRequest400 && favorites.rows == old(favorites.rows)
        else status == Created201 && favorites.rows == old(favorites.rows) + [UserRecipe(user, pk)]
      ensures pk in recipes && m == Delete ==>
        if UserRecipe(user, pk) in old(favorites.Pairs())
        then status == NoContent204 && favorites.Pairs() == old(favorites.Pairs()) - {UserRecipe(user, pk)}
        else status == BadRequest400 && favorites.rows == old(favorites.rows)
    {
      status := Toggle(favorites, m, user, pk);
    }

    /** `shopping_cart`: POST / DELETE on the user's cart. */
    method ShoppingCart(m: HttpMethod, user: UserId, pk: RecipeId) returns (status: Status)
      requires Valid() && (m == Post || m == Delete)
      modifies shoppingCarts
      ensures Valid() && unchanged(favorites)
      ensures pk !in recipes ==> status == NotFound404 && shoppingCarts.rows == old(shoppingCarts.rows)
      ensures pk in recipes && m == Post ==>
        if UserRecipe(user, pk) in old(shoppingCarts.Pairs())
        then status == BadRequest400 && shoppingCarts.rows == old(shoppingCarts.rows)
        else status == Created201 && shoppingCarts.rows == old(shoppingCarts.rows) + [UserRecipe(user, pk)]
      ensures pk in recipes && m == Delete ==>
        if UserRecipe(user, pk) in old(shoppingCarts.Pairs())
        then status == NoContent204 &&
             shoppingCarts.Pairs() == old(shoppingCarts.Pairs()) - {UserRecipe(user, pk)}
        else status == BadRequest400 && shoppingCarts.rows == old(shoppingCarts.rows)
    {
      status := Toggle(shoppingCarts, m, user, pk);
    }

    /** `download_shopping_cart`: the text of `shopping_list.txt` for `user`,
        given the ingredient rows of all recipes. The grouped query's order
        among equal names is the database's, so the contract names no order
        among them. */
    method DownloadShoppingCart(rows: seq<IngredientRow>, user: UserId) returns (content: string)
      ensures exists es :: IsShoppingList(CartLines(rows, shoppingCarts.rows, user), es)
                           && content == Join(RenderedLines(es))
    {
      var lines := CartLines(rows, shoppingCarts.rows, user);
      var entries := Aggregate(lines);
      content := RenderShoppingList(entries);
    }
  }

  // ---------------------------------------------------------------------------
  // Shopping list query input

  /** A `RecipeIngredient` row joined with its ingredient's name and unit. */
  datatype IngredientRow = IngredientRow(recipe: RecipeId, name: string, unit: string, amount: nat)

  /** The line a row contributes: its ingredient's name and unit, and its
      amount. */
  function LineOf(row: IngredientRow): IngredientLine {
    IngredientLine(row.name, row.unit, row.amount)
  }

  /** `RecipeIngredient.objects.filter(recipe__shopping_carts__user=user)`:
      the rows of the recipes in `user`'s cart, in table order. */
  function CartLines(rows: seq<IngredientRow>, carts: seq<UserRecipe>, user: UserId)
    : (r: seq<IngredientLine>)
    ensures |r| <= |rows|
    ensures forall row :: row in rows && UserRecipe(user, row.recipe) in carts ==> LineOf(row) in r
    ensures forall l :: l in r ==>
              exists row :: row in rows && UserRecipe(user, row.recipe) in carts && LineOf(row) == l
    ensures forall k :: TotalFor(r, k) == CartAmountFor(rows, carts, user, k)
  {
    if rows == [] then []
    else
      var rest := CartLines(rows[1..], carts, user);
      if UserRecipe(user, rows[0].recipe) in carts
      then
        assert ([LineOf(rows[0])] + rest)[1..] == rest;
        [LineOf(rows[0])] + rest
      else rest
  }

  /** The summed amounts of the user's cart rows for the ingredient `k`. */
  function CartAmountFor(rows: seq<IngredientRow>, carts: seq<UserRecipe>, user: UserId, k: Key)
    : nat
  {
    if rows == [] then 0
    else (if UserRecipe(user, rows[0].recipe) in carts && Key(rows[0].name, rows[0].unit) == k
          then rows[0].amount else 0)
         + CartAmountFor(rows[1..], carts, user, k)
  }

  /** Each entry of the downloaded list totals the amounts of the user's
      cart rows for its ingredient, whichever order the database gave equal
      names. */
  lemma DownloadEntryTotals(rows: seq<IngredientRow>, carts: seq<UserRecipe>, user: UserId,
                            es: seq<Entry>)
    requires IsShoppingList(CartLines(rows, carts, user), es)
    ensures forall i :: 0 <= i < |es| ==>
              es[i].total == CartAmountFor(rows, carts, user, EntryKey(es[i]))
  {
  }

  /** Only the requesting user's cart matters: two cart tables that agree on
      this user's pairs give the same lines. */
  lemma {:induction false} CartLinesOnlyOwnCart(rows: seq<IngredientRow>, c1: seq<UserRecipe>,
                                                c2: seq<UserRecipe>, user: UserId)
    requires forall r :: UserRecipe(user, r) in c1 <==> UserRecipe(user, r) in c2
    ensures CartLines(rows, c1, user) == CartLines(rows, c2, user)
  {
    if rows != [] {
      CartLinesOnlyOwnCart(rows[1..], c1, c2, user);
    }
  }

  /** A row contributes exactly when its recipe is in the user's cart: the
      list's grand total is the sum of those rows' amounts. */
  lemma {:induction false} CartLinesTotal(rows: seq<IngredientRow>, carts: seq<UserRecipe>,
                                          user: UserId)
    ensures SumAmounts(CartLines(rows, carts, user)) == CartAmount(rows, carts, user)
  {
    if rows != [] {
      CartLinesTotal(rows[1..], carts, user);
    }
  }

  /** The summed amounts of the rows whose recipe is in `user`'s cart. */
  function CartAmount(rows: seq<IngredientRow>, carts: seq<UserRecipe>, user: UserId): nat {
    if rows == [] then 0
    else (if UserRecipe(user, rows[0].recipe) in carts then rows[0].amount else 0)
         + CartAmount(rows[1..], carts, user)
  }

  /** The downloaded list's totals add up to the amounts of the user's cart
      rows, whichever order the database gave equal names. */
  lemma DownloadConservesTotals(rows: seq<IngredientRow>, carts: seq<UserRecipe>, user: UserId,
                                es: seq<Entry>)
    requires IsShoppingList(CartLines(rows, carts, user), es)
    ensures SumTotals(es) == CartAmount(rows, carts, user)
  {
    ShoppingListConservesTotals(CartLines(rows, carts, user), es);
    CartLinesTotal(rows, carts, user);
  }

  // ---------------------------------------------------------------------------
  // Short links

  /** `get_short_link`'s relative URL: `/api/recipes/s/{encode_base62(pk)}/`.
      The code sits between the fixed prefix and the closing slash, holds no
      slash (so the `<str:code>` segment of `recipes/s/<str:code>/` holds all
      of it, when no earlier route matches the path first) and decodes to the
      primary key. */
  function ShortLinkPath(pk: RecipeId): (p: string)
    ensures |p| >= 16 && IsPrefix("/api/recipes/s/", p) && p[|p| - 1] == '/'
    ensures '/' !in p[15..|p| - 1]
    ensures Shortener.Decode(p[15..|p| - 1]) == Some(pk)
  {
    var code := Shortener.Encode(pk);
    var p := "/api/recipes/s/" + code + "/";
    assert p[15..|p| - 1] == code;
    Shortener.RoundTrip(pk);
    Shortener.DecodeFailsIff(code);
    Shortener.AlphabetLayout();
    p
  }

  datatype RedirectOutcome = NotFound | Redirect(location: string)

  /** `ShortLinkRedirectView.get`: a code that does not decode is "not
      found"; otherwise the recipe must exist (404) and the answer redirects
      to its detail URL. */
  function ShortLinkRedirect(code: string, recipes: set<RecipeId>): (r: RedirectOutcome)
    ensures r.Redirect? <==> Shortener.Decode(code).Some? && Shortener.Decode(code).value in recipes
    ensures r.Redirect? ==>
              |r.location| >= 15 && IsPrefix("/api/recipes/", r.location)
              && r.location[|r.location| - 1] == '/'
              && (forall i :: 13 <= i < |r.location| - 1 ==> IsDecimalDigit(r.location[i]))
              && DecimalToNat(r.location[13..|r.location| - 1]) == Shortener.Decode(code).value
  {
    match Shortener.Decode(code)
    case None => NotFound
    case Some(id) =>
      if id in recipes then
        var d := NatToDecimal(id);
        var loc := "/api/recipes/" + d + "/";
        assert loc[13..|loc| - 1] == d;
        DecimalRoundTrip(id);
        Redirect(loc)
      else NotFound
  }

  /** Following the short link of an existing recipe leads to that recipe. */
  lemma ShortLinkReachesRecipe(pk: RecipeId, recipes: set<RecipeId>)
    requires pk in recipes
    ensures ShortLinkRedirect(Shortener.Encode(pk), recipes)
            == Redirect("/api/recipes/" + NatToDecimal(pk) + "/")
  {
    Shortener.RoundTrip(pk);
  }

  /** A code with a character outside the alphabet is "not found", never a
      server error. */
  lemma MalformedCodeNotFound(code: string, recipes: set<RecipeId>)
    requires !Shortener.InAlphabet(code)
    ensures ShortLinkRedirect(code, recipes) == NotFound
  {
    Shortener.DecodeFailsIff(code);
  }
}
