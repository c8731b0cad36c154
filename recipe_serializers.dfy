/** The recipe serializers (backend/recipes/serializers.py): the write
    serializer's ingredient-list validation, creating a recipe with its
    ingredient links, replacing the links and overwriting scalar fields on
    update; and the read serializer's two per-user flags.

    The recipe table is a map from primary key to row, the `RecipeIngredient`
    table a sequence of links. */
module RecipeSerializers {
  import opened Common
  import opened RecipeModels

  // ---------------------------------------------------------------------------
  // Write-side input

  /** One item of the `ingredients` list: an ingredient's primary key and an
      amount. */
  datatype IngredientAmount = IngredientAmount(id: IngredientId, amount: nat)

  /** One entry of `validated_data` other than `ingredients`: a scalar field of
      `Recipe` and its new value. */
  datatype Field = Name(name: string) | Text(text: string) | Image(image: string)
                 | CookingTime(minutes: nat)

  /** The serializer's `validated_data`: the ingredient list if it was sent,
      and the scalar fields that were sent (all four on create, any subset on
      a partial update), in the dictionary's order. */
  datatype WriteData = WriteData(ingredients: Option<seq<IngredientAmount>>, fields: seq<Field>)

  datatype ValidationError = IngredientsRequired | IngredientsEmpty | IngredientsRepeated

  datatype Validated = Accepted(data: WriteData) | Rejected(error: ValidationError)

  /** `[item['id'] for item in ingredients]`. */
  function Ids(items: seq<IngredientAmount>): (ids: seq<IngredientId>)
    ensures |ids| == |items|
    ensures forall i :: 0 <= i < |items| ==> ids[i] == items[i].id
  {
    seq(|items|, i requires 0 <= i < |items| => items[i].id)
  }

  /** `RecipeWriteSerializer.validate`: the list must be present, non-empty
      and free of repeated ingredient ids; accepted data is passed on as it
      came. The repetition test compares the list's length with the size of
      its set of ids. */
  function Validate(data: WriteData): (r: Validated)
    ensures r.Accepted? <==> data.ingredients.Some? && |data.ingredients.value| > 0
                             && NoDuplicates(Ids(data.ingredients.value))
    ensures r.Accepted? ==> r.data == data
    ensures data.ingredients.None? ==> r == Rejected(IngredientsRequired)
    ensures data.ingredients == Some([]) ==> r == Rejected(IngredientsEmpty)
  {
    match data.ingredients
    case None => Rejected(IngredientsRequired)
    case Some(items) =>
      if items == [] then Rejected(IngredientsEmpty)
      else
        var ids := Ids(items);
        DistinctIffSetSize(ids);
        if |ids| != |ToSet(ids)| then Rejected(IngredientsRepeated) else Accepted(data)
  }

  /** A list that repeats an ingredient is refused with the repetition error,
      whatever else the data holds. */
  lemma ValidateRejectsRepeats(data: WriteData, i: nat, j: nat)
    requires data.ingredients.Some? && i < j < |data.ingredients.value|
    requires data.ingredients.value[i].id == data.ingredients.value[j].id
    ensures Validate(data) == Rejected(IngredientsRepeated)
  {
    var ids := Ids(data.ingredients.value);
    assert ids[i] == ids[j];
    DistinctIffSetSize(ids);
  }

  // ---------------------------------------------------------------------------
  // setattr on the scalar fields

  /** Two entries name the same attribute. */
  predicate SameAttribute(f: Field, g: Field) {
    (f.Name? && g.Name?) || (f.Text? && g.Text?) || (f.Image? && g.Image?)
    || (f.CookingTime? && g.CookingTime?)
  }

  /** `validated_data` is a dictionary: each attribute occurs at most once. */
  predicate DistinctFields(fields: seq<Field>) {
    forall i, j :: 0 <= i < j < |fields| ==> !SameAttribute(fields[i], fields[j])
  }

  /** The recipe's attribute named by `f` has `f`'s value. */
  predicate Holds(r: Recipe, f: Field) {
    match f
    case Name(v) => r.name == v
    case Text(v) => r.text == v
    case Image(v) => r.image == v
    case CookingTime(v) => r.cookingTime == v
  }

  /** `setattr(instance, attr, value)`. */
  function SetAttribute(r: Recipe, f: Field): (r': Recipe)
    ensures Holds(r', f) && r'.author == r.author
    ensures forall g :: !SameAttribute(f, g) ==> (Holds(r', g) <==> Holds(r, g))
  {
    match f
    case Name(v) => r.(name := v)
    case Text(v) => r.(text := v)
    case Image(v) => r.(image := v)
    case CookingTime(v) => r.(cookingTime := v)
  }

  /** The recipe after setting each field in turn. */
  function ApplyFields(r: Recipe, fields: seq<Field>): Recipe
    decreases |fields|
  {
    if fields == [] then r else ApplyFields(SetAttribute(r, fields[0]), fields[1..])
  }

  /** The author is not a writable field. */
  lemma {:induction false} ApplyKeepsAuthor(r: Recipe, fields: seq<Field>)
    ensures ApplyFields(r, fields).author == r.author
    decreases |fields|
  {
    if fields != [] {
      ApplyKeepsAuthor(SetAttribute(r, fields[0]), fields[1..]);
    }
  }

  /** An attribute no field names keeps its value. */
  lemma {:induction false} ApplyKeepsOthers(r: Recipe, fields: seq<Field>, g: Field)
    requires forall i :: 0 <= i < |fields| ==> !SameAttribute(fields[i], g)
    ensures Holds(ApplyFields(r, fields), g) <==> Holds(r, g)
    decreases |fields|
  {
    if fields != [] {
      ApplyKeepsOthers(SetAttribute(r, fields[0]), fields[1..], g);
    }
  }

  /** Every field sent is set to its value. */
  lemma {:induction false} ApplySetsProvided(r: Recipe, fields: seq<Field>, k: nat)
    requires DistinctFields(fields) && k < |fields|
    ensures Holds(ApplyFields(r, fields), fields[k])
    decreases |fields|
  {
    var rest := fields[1..];
    assert DistinctFields(rest) by {
      forall i, j | 0 <= i < j < |rest| ensures !SameAttribute(rest[i], rest[j]) {
        assert rest[i] == fields[i + 1] && rest[j] == fields[j + 1];
      }
    }
    if k == 0 {
      forall i | 0 <= i < |rest| ensures !SameAttribute(rest[i], fields[0]) {
        assert rest[i] == fields[i + 1];
      }
      ApplyKeepsOthers(SetAttribute(r, fields[0]), rest, fields[0]);
    } else {
      ApplySetsProvided(SetAttribute(r, fields[0]), rest, k - 1);
    }
  }

  /** All four attributes are among the fields (the create case). */
  predicate Complete(fields: seq<Field>) {
    (exists i :: 0 <= i < |fields| && fields[i].Name?)
    && (exists i :: 0 <= i < |fields| && fields[i].Text?)
    && (exists i :: 0 <= i < |fields| && fields[i].Image?)
    && (exists i :: 0 <= i < |fields| && fields[i].CookingTime?)
  }

  /** A complete set of fields determines the recipe: two recipes by the same
      author agree after they are applied. */
  lemma CompleteDetermines(a: Recipe, b: Recipe, fields: seq<Field>)
    requires a.author == b.author && DistinctFields(fields) && Complete(fields)
    ensures ApplyFields(a, fields) == ApplyFields(b, fields)
  {
    var ra, rb := ApplyFields(a, fields), ApplyFields(b, fields);
    ApplyKeepsAuthor(a, fields);
    ApplyKeepsAuthor(b, fields);
    var i1 :| 0 <= i1 < |fields| && fields[i1].Name?;
    var i2 :| 0 <= i2 < |fields| && fields[i2].Text?;
    var i3 :| 0 <= i3 < |fields| && fields[i3].Image?;
    var i4 :| 0 <= i4 < |fields| && fields[i4].CookingTime?;
    ApplySetsProvided(a, fields, i1);
    ApplySetsProvided(b, fields, i1);
    ApplySetsProvided(a, fields, i2);
    ApplySetsProvided(b, fields, i2);
    ApplySetsProvided(a, fields, i3);
    ApplySetsProvided(b, fields, i3);
    ApplySetsProvided(a, fields, i4);
    ApplySetsProvided(b, fields, i4);
  }

  // ---------------------------------------------------------------------------
  // Ingredient links

  /** The `RecipeIngredient` objects `bulk_create` receives: one per item, in
      order. */
  function LinksFor(recipe: RecipeId, items: seq<IngredientAmount>): (r: seq<RecipeIngredient>)
    ensures |r| == |items|
    ensures forall i :: 0 <= i < |items| ==>
              r[i] == RecipeIngredient(recipe, items[i].id, items[i].amount)
  {
    seq(|items|, i requires 0 <= i < |items| => RecipeIngredient(recipe, items[i].id, items[i].amount))
  }

  /** `recipe.recipe_ingredients.all()`: the links of one recipe, in table
      order. */
  function LinksOf(links: seq<RecipeIngredient>, recipe: RecipeId): (r: seq<RecipeIngredient>)
    ensures forall l :: l in r <==> l in links && l.recipe == recipe
  {
    if links == [] then []
    else if links[0].recipe == recipe then [links[0]] + LinksOf(links[1..], recipe)
    else LinksOf(links[1..], recipe)
  }

  /** The links of every other recipe, in table order. */
  function OtherLinks(links: seq<RecipeIngredient>, recipe: RecipeId): (r: seq<RecipeIngredient>)
    ensures forall l :: l in r <==> l in links && l.recipe != recipe
  {
    if links == [] then []
    else if links[0].recipe != recipe then [links[0]] + OtherLinks(links[1..], recipe)
    else OtherLinks(links[1..], recipe)
  }

  lemma {:induction false} FiltersAppend(a: seq<RecipeIngredient>, b: seq<RecipeIngredient>,
                                         recipe: RecipeId)
    ensures LinksOf(a + b, recipe) == LinksOf(a, recipe) + LinksOf(b, recipe)
    ensures OtherLinks(a + b, recipe) == OtherLinks(a, recipe) + OtherLinks(b, recipe)
  {
    if a != [] {
      assert (a + b)[1..] == a[1..] + b;
      FiltersAppend(a[1..], b, recipe);
    } else {
      assert a + b == b;
    }
  }

  /** Filtering a sequence that has only links of `recipe`. */
  lemma {:induction false} FiltersOfOwnLinks(s: seq<RecipeIngredient>, recipe: RecipeId)
    requires forall i :: 0 <= i < |s| ==> s[i].recipe == recipe
    ensures LinksOf(s, recipe) == s && OtherLinks(s, recipe) == []
  {
    if s != [] {
      FiltersOfOwnLinks(s[1..], recipe);
    }
  }

  /** Filtering a sequence that has no link of `recipe`. */
  lemma {:induction false} FiltersOfForeignLinks(s: seq<RecipeIngredient>, recipe: RecipeId)
    requires forall i :: 0 <= i < |s| ==> s[i].recipe != recipe
    ensures LinksOf(s, recipe) == [] && OtherLinks(s, recipe) == s
  {
    if s != [] {
      FiltersOfForeignLinks(s[1..], recipe);
    }
  }

  /** Dropping links keeps the unique (recipe, ingredient) constraint. */
  lemma {:induction false} OtherLinksUnique(s: seq<RecipeIngredient>, recipe: RecipeId)
    requires UniqueRecipeIngredient(s)
    ensures UniqueRecipeIngredient(OtherLinks(s, recipe))
  {
    if s != [] {
      var t := s[1..];
      UniqueTail(s);
      OtherLinksUnique(t, recipe);
      if s[0].recipe != recipe {
        var rt := OtherLinks(t, recipe);
        forall y | y in rt ensures s[0].recipe != y.recipe || s[0].ingredient != y.ingredient {
          UniqueHeadAgainstTail(s, y);
        }
        UniqueCons(s[0], rt);
      }
    }
  }

  /** The constraint holds of the rows after the first. */
  lemma UniqueTail(s: seq<RecipeIngredient>)
    requires s != [] && UniqueRecipeIngredient(s)
    ensures UniqueRecipeIngredient(s[1..])
  {
    var t := s[1..];
    forall i, j | 0 <= i < j < |t|
      ensures t[i].recipe != t[j].recipe || t[i].ingredient != t[j].ingredient
    {
      assert t[i] == s[i + 1] && t[j] == s[j + 1];
    }
  }

  /** The first row clashes with no later row. */
  lemma UniqueHeadAgainstTail(s: seq<RecipeIngredient>, y: RecipeIngredient)
    requires s != [] && UniqueRecipeIngredient(s) && y in s[1..]
    ensures s[0].recipe != y.recipe || s[0].ingredient != y.ingredient
  {
    var m :| 0 <= m < |s[1..]| && s[1..][m] == y;
    assert s[m + 1] == y;
  }

  /** A row that clashes with none of a constrained table can go in front. */
  lemma UniqueCons(x: RecipeIngredient, rt: seq<RecipeIngredient>)
    requires UniqueRecipeIngredient(rt)
    requires forall y :: y in rt ==> x.recipe != y.recipe || x.ingredient != y.ingredient
    ensures UniqueRecipeIngredient([x] + rt)
  {
    var r := [x] + rt;
    forall i, j | 0 <= i < j < |r| ensures r[i].recipe != r[j].recipe || r[i].ingredient != r[j].ingredient {
      assert r[j] == rt[j - 1];
      if i > 0 {
        assert r[i] == rt[i - 1];
      } else {
        assert rt[j - 1] in rt;
      }
    }
  }

  /** The links built for one recipe from a repetition-free item list satisfy
      the constraint. */
  lemma LinksForUnique(recipe: RecipeId, items: seq<IngredientAmount>)
    requires NoDuplicates(Ids(items))
    ensures UniqueRecipeIngredient(LinksFor(recipe, items))
  {
    var l := LinksFor(recipe, items);
    forall i, j | 0 <= i < j < |l| ensures l[i].ingredient != l[j].ingredient {
      assert Ids(items)[i] != Ids(items)[j];
    }
  }

  /** Appending the links of a recipe that has none yet keeps the constraint. */
  lemma AppendUnique(a: seq<RecipeIngredient>, recipe: RecipeId, items: seq<IngredientAmount>)
    requires UniqueRecipeIngredient(a) && NoDuplicates(Ids(items))
    requires forall i :: 0 <= i < |a| ==> a[i].recipe != recipe
    ensures UniqueRecipeIngredient(a + LinksFor(recipe, items))
  {
    LinksForUnique(recipe, items);
    var s := a + LinksFor(recipe, items);
    forall i, j | 0 <= i < j < |s| ensures s[i].recipe != s[j].recipe || s[i].ingredient != s[j].ingredient {
      if j >= |a| && i < |a| {
        assert s[j].recipe == recipe;
      }
    }
  }

  // ---------------------------------------------------------------------------
  // The store the write serializer changes

  class RecipeStore {
    var recipes: map<RecipeId, Recipe>
    var links: seq<RecipeIngredient>
    /** The primary key the next created recipe receives. */
    var nextId: RecipeId

    /** The links satisfy `unique_recipe_ingredient` and point at existing
        recipes; every key was handed out before `nextId`. */
    ghost predicate Valid()
      reads this
    {
      UniqueRecipeIngredient(links)
      && (forall i :: 0 <= i < |links| ==> links[i].recipe in recipes)
      && (forall id :: id in recipes ==> id < nextId)
    }

    constructor ()
      ensures Valid() && recipes == map[] && links == [] && nextId == 0
    {
      recipes := map[];
      links := [];
      nextId := 0;
    }

    /** `create_ingredients`: one bulk insert of the item list's links. */
    method CreateIngredients(items: seq<IngredientAmount>, recipe: RecipeId)
      requires Valid() && recipe in recipes && NoDuplicates(Ids(items))
      requires forall i :: 0 <= i < |links| ==> links[i].recipe != recipe
      modifies this
      ensures Valid()
      ensures links == old(links) + LinksFor(recipe, items)
      ensures LinksOf(links, recipe) == LinksFor(recipe, items)
      ensures OtherLinks(links, recipe) == OtherLinks(old(links), recipe)
      ensures recipes == old(recipes) && nextId == old(nextId)
    {
      AppendUnique(links, recipe, items);
      FiltersAppend(links, LinksFor(recipe, items), recipe);
      FiltersOfForeignLinks(links, recipe);
      FiltersOfOwnLinks(LinksFor(recipe, items), recipe);
      links := links + LinksFor(recipe, items);
    }

    /** `create`: a new recipe authored by the requester, holding the sent
        fields, linked to exactly the sent ingredients with their amounts. */
    method Create(author: UserId, items: seq<IngredientAmount>, fields: seq<Field>)
      returns (id: RecipeId)
      requires Valid() && NoDuplicates(Ids(items))
      requires DistinctFields(fields) && Complete(fields)
      modifies this
      ensures Valid()
      ensures id !in old(recipes) && recipes.Keys == old(recipes).Keys + {id}
      ensures forall k :: k in old(recipes) ==> recipes[k] == old(recipes)[k]
      ensures recipes[id].author == author
      ensures forall k :: 0 <= k < |fields| ==> Holds(recipes[id], fields[k])
      ensures LinksOf(links, id) == LinksFor(id, items)
      ensures links == old(links) + LinksFor(id, items)
    {
      id := nextId;
      var r := ApplyFields(Recipe(author, "", "", "", 0), fields);
      ApplyKeepsAuthor(Recipe(author, "", "", "", 0), fields);
      forall k | 0 <= k < |fields| ensures Holds(r, fields[k]) {
        ApplySetsProvided(Recipe(author, "", "", "", 0), fields, k);
      }
      recipes := recipes[id := r];
      nextId := nextId + 1;
      CreateIngredients(items, id);
    }

    /** `update_ingredients`: delete the recipe's links, then insert the new
        list; other recipes' links stay as they were. */
    method UpdateIngredients(recipe: RecipeId, items: seq<IngredientAmount>)
      requires Valid() && recipe in recipes && NoDuplicates(Ids(items))
      modifies this
      ensures Valid()
      ensures LinksOf(links, recipe) == LinksFor(recipe, items)
      ensures OtherLinks(links, recipe) == OtherLinks(old(links), recipe)
      ensures recipes == old(recipes) && nextId == old(nextId)
    {
      var kept := OtherLinks(links, recipe);
      OtherLinksUnique(links, recipe);
      FiltersOfForeignLinks(kept, recipe);
      links := kept;
      CreateIngredients(items, recipe);
    }

    /** `update`: set each sent field on the instance in turn, save it, then
        replace its ingredient links. */
    method Update(id: RecipeId, items: seq<IngredientAmount>, fields: seq<Field>)
      requires Valid() && id in recipes && NoDuplicates(Ids(items)) && DistinctFields(fields)
      modifies this
      ensures Valid()
      ensures recipes == old(recipes)[id := ApplyFields(old(recipes)[id], fields)]
      ensures recipes[id].author == old(recipes)[id].author
      ensures forall k :: 0 <= k < |fields| ==> Holds(recipes[id], fields[k])
      ensures forall g :: (forall k :: 0 <= k < |fields| ==> !SameAttribute(fields[k], g)) ==>
                (Holds(recipes[id], g) <==> Holds(old(recipes)[id], g))
      ensures LinksOf(links, id) == LinksFor(id, items)
      ensures OtherLinks(links, id) == OtherLinks(old(links), id)
      ensures nextId == old(nextId)
    {
      var instance := recipes[id];
      for i := 0 to |fields|
        invariant ApplyFields(instance, fields[i..]) == ApplyFields(recipes[id], fields)
      {
        assert fields[i..][1..] == fields[i + 1..];
        instance := SetAttribute(instance, fields[i]);
      }
      assert fields[|fields|..] == [];
      var before := recipes[id];
      ApplyKeepsAuthor(before, fields);
      forall k | 0 <= k < |fields| ensures Holds(instance, fields[k]) {
        ApplySetsProvided(before, fields, k);
      }
      forall g | forall k :: 0 <= k < |fields| ==> !SameAttribute(fields[k], g)
        ensures Holds(instance, g) <==> Holds(before, g)
      {
        ApplyKeepsOthers(before, fields, g);
      }
      recipes := recipes[id := instance];
      UpdateIngredients(id, items);
    }
  }

  // ---------------------------------------------------------------------------
  // Read-side flags

  /** `_check_user_relation`: the requester is authenticated and has a row for
      this recipe in the given relation. */
  function CheckUserRelation(requester: Requester, rows: seq<UserRecipe>, recipe: RecipeId)
    : (b: bool)
    ensures b ==> requester.IsAuthenticated()
    ensures requester.IsAuthenticated() ==> (b <==> UserRecipe(requester.id, recipe) in ToSet(rows))
  {
    requester.User? && UserRecipe(requester.id, recipe) in rows
  }

  /** `get_is_favorited`: true exactly for an authenticated requester who has
      the recipe among the favourites. */
  function IsFavorited(requester: Requester, favorites: seq<UserRecipe>, recipe: RecipeId): (b: bool)
    ensures b <==> requester.User? && UserRecipe(requester.id, recipe) in favorites
  {
    CheckUserRelation(requester, favorites, recipe)
  }

  /** `get_is_in_shopping_cart` as written: it consults the favourites, so it
      is true exactly when the recipe is favourited, whatever the cart holds. */
  function IsInShoppingCartAsWritten(requester: Requester, favorites: seq<UserRecipe>,
                                     carts: seq<UserRecipe>, recipe: RecipeId): (b: bool)
    ensures b <==> requester.User? && UserRecipe(requester.id, recipe) in favorites
  {
    CheckUserRelation(requester, favorites, recipe)
  }

  /** `get_is_in_shopping_cart` as intended: it sees the same relations as
      the code as written, but consults the cart, so it is true exactly for an
      authenticated requester who has the recipe in the cart, whatever the
      favourites hold. */
  function IsInShoppingCart(requester: Requester, favorites: seq<UserRecipe>,
                            carts: seq<UserRecipe>, recipe: RecipeId): (b: bool)
    ensures b <==> requester.User? && UserRecipe(requester.id, recipe) in carts
  {
    CheckUserRelation(requester, carts, recipe)
  }

  /** A user with recipe 7 in the cart but not among the favourites is told
      the recipe is not in the cart. */
  lemma CartFlagAsWrittenMissesCart()
    ensures !IsInShoppingCartAsWritten(User(1), [], [UserRecipe(1, 7)], 7)
    ensures IsInShoppingCart(User(1), [], [UserRecipe(1, 7)], 7)
  {
    assert UserRecipe(1, 7) in [UserRecipe(1, 7)];
  }
}
