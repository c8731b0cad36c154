# Foodgram backend core in Dafny

A Dafny model of the behavioural core of the Foodgram recipe-sharing backend
(Django and Django REST framework). Users write recipes made of ingredients
with amounts. Other users favourite recipes, put them in a shopping cart,
subscribe to authors and download a shopping list for their cart.

The model covers these parts:

- **Short links** (`shortener.dfy`). This is the base62 codec that turns a
  recipe's primary key into a short code and back.
  - `encode_base62` and `decode_base62` keep their loops as methods, each
    proved against a specification function.
  - The short-link path and the redirect view are pure functions over the
    codec.
- **Favourites and shopping cart** (`recipe_views.dfy`).
  - The two relation tables are classes with a sequence of
    `(user, recipe)` rows. The views' add and remove rules are methods on
    them.
  - `download_shopping_cart` is a method. Its grouped and ordered query is
    specified by the predicate `IsShoppingList` (`shopping_list.dfy`), which
    admits every order the database may give to entries with equal names.
  - The rendering loop is a method proved against `Join(RenderedLines(..))`.
- **Recipe serializers** (`recipe_serializers.dfy`).
  - Ingredient-list validation is a function.
  - The recipe and `RecipeIngredient` tables form a class whose `Create`,
    `UpdateIngredients` and `Update` methods keep the unique
    (recipe, ingredient) constraint. `Update` keeps the `setattr` loop.
  - The read serializer's `is_favorited` and `is_in_shopping_cart` flags are
    modelled both as written and as intended (see Findings).
- **Filters** (`recipe_filters.dfy`): the boolean relation filters, the
  author filter and the case-insensitive ingredient-name prefix.
- **Object permission** (`permissions.dfy`): `IsAuthorOrReadOnly` and the
  view-level `IsAuthenticatedOrReadOnly` rule it is paired with.
- **Ingredient import command** (`import_ingredients.dfy`): a loop over CSV
  rows, `str.strip`, `get_or_create` on an ingredient table class, and
  counting.
- **Users** (`user_models.dfy`, `user_views.dfy`): the account and
  subscription constraints, plus the subscribe, subscriptions and
  set-password views on a store class.
- Shared vocabulary lives in `common.dfy`: `Option`, the requester, HTTP
  methods and statuses, decimal rendering and sequence facts.

Behaviour of the code worth noting:

- The base62 alphabet is `string.digits + string.ascii_letters`
  (backend/core/shortener.py:3): digits, then lower-case, then upper-case.
  Index 10 is `'a'` and index 36 is `'A'`.
- `decode_base62("")` returns 0, because the loop does not run. It does not
  fail.
- `encode_base62` of a negative number returns `""`, because the loop does
  not run. It does not fail.
- The shopping list's order among equal names is not stable input order. The
  query leaves it to the database, so the model leaves it open.

## Model

| member | source | states |
|---|---|---|
| Shortener.AlphabetLayout | backend/core/shortener.py:3 | the alphabet has 62 symbols: digits at 0-9, lower-case at 10-35, upper-case at 36-61 (index 10 is 'a', index 36 is 'A') |
| Shortener.AlphabetDistinct | backend/core/shortener.py:3 | no symbol occurs twice in the alphabet |
| Shortener.IndexOfSymbol | backend/core/shortener.py:19 | looking up the k-th symbol with `.index` gives k |
| Shortener.EncodeBase62 | backend/core/shortener.py:6-13 | the division loop computes `Encode(num)`; 0 gives "0"; a negative number gives ""; for num >= 0 the code decodes back to num |
| Shortener.DecodeBase62 | backend/core/shortener.py:16-20 | the accumulation loop computes `Decode(code)`; "" gives 0; it fails exactly when some character is outside the alphabet |
| Shortener.DecodeSnoc | backend/core/shortener.py:18-19 | decoding one more character is one more step of the loop: the value so far times 62 plus the character's index, or failure |
| Shortener.DigitsRoundTrip | backend/core/shortener.py:9-13 | the base-62 digits of n decode to n |
| Shortener.RoundTrip | backend/core/shortener.py:6-20 | decode(encode(n)) == n for every n >= 0 |
| Shortener.EncodeInjective | backend/core/shortener.py:6-13 | different primary keys get different codes |
| Shortener.EncodeShape | backend/core/shortener.py:9-13 | for n > 0 the code is non-empty, over the alphabet, and does not start with '0' |
| Shortener.EncodeLengthMonotone | backend/core/shortener.py:9-13 | a larger number never gets a shorter code |
| Shortener.DecodeFailsIff | backend/core/shortener.py:19 | decoding fails exactly when a character is outside the alphabet |
| Shortener.DecodeLeadingZero | backend/core/shortener.py:16-20 | a leading '0' does not change the decoded value |
| Shortener.DecodePositive | backend/core/shortener.py:16-20 | a non-empty code over the alphabet without a leading '0' decodes to a positive number |
| Shortener.EncodeDecode | backend/core/shortener.py:6-20 | encode(decode(s)) == s for every non-empty code over the alphabet without a leading '0' |
| Common.IndexOf | backend/core/shortener.py:19 | `.index` gives the first position holding the character, and fails exactly when the character is absent |
| Common.NatToDecimal | backend/recipes/views.py:146 | `f"{total}"`: non-empty, decimal digits only, no leading zero for n > 0 |
| Common.DecimalRoundTrip | backend/recipes/views.py:166 | the decimal rendering of a primary key reads back as that key |
| Common.DecimalInjective | backend/recipes/views.py:166 | different keys render as different decimal strings |
| Common.DistinctIffSetSize | backend/recipes/serializers.py:170 | `len(ids) != len(set(ids))` holds exactly when some id repeats |
| RecipeViews.UserRecipeTable.Exists | backend/recipes/views.py:80 | `exists()` is true exactly when the (user, recipe) pair is in the table |
| RecipeViews.UserRecipeTable.Create | backend/recipes/views.py:85 | appends exactly the pair and keeps the table's unique constraint |
| RecipeViews.UserRecipeTable.DeleteMatching | backend/recipes/views.py:91 | removes exactly the pair; all other rows stay; the constraint is kept |
| RecipeViews.RecipeViewSet.Toggle | backend/recipes/views.py:74-122 | unknown recipe: 404 and no change; POST of a present pair: 400 and no change; POST of an absent pair: 201 and that pair appended; DELETE of a present pair: 204 and only that pair removed; DELETE of an absent pair: 400 and no change |
| RecipeViews.RecipeViewSet.Favorite | backend/recipes/views.py:74-97 | the add and remove rules on the favourites; the cart table is unchanged |
| RecipeViews.RecipeViewSet.ShoppingCart | backend/recipes/views.py:99-122 | the add and remove rules on the cart; the favourites table is unchanged |
| RecipeViews.RecipeViewSet.DownloadShoppingCart | backend/recipes/views.py:129-155 | the content is the newline join of the rendered lines of some shopping list of the user's cart rows |
| RecipeViews.CartLines | backend/recipes/views.py:133-135 | every ingredient row of a recipe in the user's cart contributes its line, and every line comes from such a row; for each (name, unit) the lines' amounts add up to the amounts of exactly the cart rows with that name and unit |
| RecipeViews.CartLinesOnlyOwnCart | backend/recipes/views.py:133-135 | only the requester's cart rows matter: cart tables that agree on this user give the same lines |
| RecipeViews.CartLinesTotal | backend/recipes/views.py:133-137 | the selected lines' amounts add up to the amounts of the rows whose recipe is in the user's cart |
| RecipeViews.DownloadConservesTotals | backend/recipes/views.py:132-139 | the list's totals add up to the amounts of the user's cart rows |
| RecipeViews.DownloadEntryTotals | backend/recipes/views.py:132-139 | in every list the download may produce, each entry's total is the sum of the amounts of the user's cart rows with that name and unit |
| RecipeViews.ShortLinkPath | backend/recipes/views.py:66-72 | the path is `/api/recipes/s/` + code + `/`; the code holds no '/' and decodes to the primary key |
| RecipeViews.ShortLinkRedirect | backend/recipes/views.py:158-166 | it redirects exactly when the code decodes to an existing recipe, and then to `/api/recipes/<digits>/` whose digits read back as the decoded key; otherwise "not found" |
| RecipeViews.ShortLinkReachesRecipe | backend/recipes/views.py:158-166 | the short link of an existing recipe redirects to `/api/recipes/{pk}/` |
| RecipeViews.MalformedCodeNotFound | backend/recipes/views.py:160-163 | a code with a character outside the alphabet gives "not found" |
| ShoppingList.IsShoppingList | backend/recipes/views.py:132-139 | a possible result of the grouped query: ordered by name, one entry per distinct (name, unit) of the lines, each carrying that key's summed amount; such a list is empty exactly when there are no lines |
| ShoppingList.Aggregate | backend/recipes/views.py:132-139 | grouping then sorting by name gives a possible result of the query, and its totals add up to the sum of all amounts |
| ShoppingList.ShoppingListsAgree | backend/recipes/views.py:138 | any two results of the query have the same entries; ties are only permuted |
| ShoppingList.ShoppingListConservesTotals | backend/recipes/views.py:137 | in every result, the entry totals add up to the sum of all amounts |
| ShoppingList.GroupCorrect | backend/recipes/views.py:136-137 | grouping gives distinct keys, exactly the keys of the rows, and each key's total |
| ShoppingList.SortByNameCorrect | backend/recipes/views.py:138 | sorting by name gives a sorted permutation |
| ShoppingList.NameLeTotal | backend/recipes/views.py:138 | any two names are comparable |
| ShoppingList.NameLeTransitive | backend/recipes/views.py:138 | the name order is transitive |
| ShoppingList.Line | backend/recipes/views.py:143-147 | `name (unit) — total`; a line holds no newline when the name and the unit hold none |
| ShoppingList.Join | backend/recipes/views.py:150 | no lines give ""; newline-free lines are joined with exactly one newline between neighbours |
| ShoppingList.RenderedLines | backend/recipes/views.py:141-148 | one line `name (unit) — total` per entry, in order |
| ShoppingList.SplitJoin | backend/recipes/views.py:150 | splitting the newline join of newline-free lines gives the lines back (no trailing newline) |
| ShoppingList.RenderShoppingList | backend/recipes/views.py:141-150 | the loop's content is the newline join of the rendered lines; no entries give ""; newline-free lines can be split back |
| RecipeModels.IngredientStr | backend/recipes/models.py:29-30 | `__str__` starts with the name and " (", and ends with the unit and ")" |
| RecipeModels.IngredientStrInjectiveForUnit | backend/recipes/models.py:29-30 | two ingredients with the same unit render the same only if they are equal |
| RecipeSerializers.Ids | backend/recipes/serializers.py:169 | the ids of the items, one per item, in order |
| RecipeSerializers.Validate | backend/recipes/serializers.py:158-174 | accepted exactly when the list is present, non-empty and has no repeated id; accepted data is unchanged; a missing list and an empty list have their own errors |
| RecipeSerializers.ValidateRejectsRepeats | backend/recipes/serializers.py:169-173 | a list that repeats an id is refused with the repetition error |
| RecipeSerializers.SetAttribute | backend/recipes/serializers.py:220 | `setattr` sets the named attribute and leaves the others and the author unchanged |
| RecipeSerializers.ApplyKeepsAuthor | backend/recipes/serializers.py:219-220 | the author is never overwritten |
| RecipeSerializers.ApplyKeepsOthers | backend/recipes/serializers.py:219-220 | an attribute no sent field names keeps its value |
| RecipeSerializers.ApplySetsProvided | backend/recipes/serializers.py:219-220 | every sent field ends up with its value |
| RecipeSerializers.CompleteDetermines | backend/recipes/serializers.py:196-199 | on create, where all four fields are sent, the fields and the author determine the recipe |
| RecipeSerializers.LinksFor | backend/recipes/serializers.py:184-191 | one link per item, carrying the item's ingredient and amount |
| RecipeSerializers.LinksOf | backend/recipes/serializers.py:205 | `recipe.recipe_ingredients`: exactly the links of the recipe |
| RecipeSerializers.OtherLinks | backend/recipes/serializers.py:205 | exactly the links of the other recipes |
| RecipeSerializers.FiltersAppend | backend/recipes/serializers.py:205-213 | filtering a concatenation filters each part |
| RecipeSerializers.OtherLinksUnique | backend/recipes/serializers.py:205 | deleting a recipe's links keeps `unique_recipe_ingredient` |
| RecipeSerializers.LinksForUnique | backend/recipes/serializers.py:184-191 | links built from a list without repeated ids meet `unique_recipe_ingredient` |
| RecipeSerializers.AppendUnique | backend/recipes/serializers.py:184-191 | appending them for a recipe that has no links keeps the constraint |
| RecipeSerializers.RecipeStore.CreateIngredients | backend/recipes/serializers.py:182-191 | appends exactly the links for the items; the recipe's links become exactly those; the other links are unchanged |
| RecipeSerializers.RecipeStore.Create | backend/recipes/serializers.py:193-201 | a fresh recipe authored by the requester, holding every sent field, linked to exactly one link per item with its amount; existing recipes are unchanged |
| RecipeSerializers.RecipeStore.UpdateIngredients | backend/recipes/serializers.py:203-213 | afterwards the recipe's links are exactly the new list; other recipes' links are unchanged |
| RecipeSerializers.RecipeStore.Update | backend/recipes/serializers.py:215-226 | the `setattr` loop: sent fields take their values, other attributes and the author keep theirs, no other recipe changes, and the links are replaced |
| RecipeSerializers.CheckUserRelation | backend/recipes/serializers.py:112-116 | true only for an authenticated requester, and then exactly when the (user, recipe) row exists |
| RecipeSerializers.IsFavorited | backend/recipes/serializers.py:118-120 | true exactly for an authenticated requester with the recipe among the favourites |
| RecipeSerializers.IsInShoppingCartAsWritten | backend/recipes/serializers.py:122-124 | as written: true exactly for an authenticated requester with the recipe among the favourites, whatever the cart holds |
| RecipeSerializers.IsInShoppingCart | backend/recipes/serializers.py:122-124 | as intended: true exactly for an authenticated requester with the recipe in the cart |
| RecipeSerializers.CartFlagAsWrittenMissesCart | backend/recipes/serializers.py:122-124 | a recipe in the cart but not in the favourites is reported as not in the cart |
| RecipeFilters.RelatedTo | backend/recipes/filters.py:29-30 | keeps exactly the rows related to the user |
| RecipeFilters.NotRelatedTo | backend/recipes/filters.py:31 | keeps exactly the rows not related to the user |
| RecipeFilters.RelatedPartition | backend/recipes/filters.py:29-31 | the related and unrelated results together are a rearrangement of the queryset |
| RecipeFilters.FilterByRelation | backend/recipes/filters.py:25-39 | anonymous and true: empty; anonymous and false: the queryset unchanged; authenticated: exactly the related rows (true) or the unrelated rows (false) |
| RecipeFilters.FilterSplitsQueryset | backend/recipes/filters.py:29-31 | for an authenticated user, true and false partition the queryset |
| RecipeFilters.FilterIsFavorited | backend/recipes/filters.py:25-31 | a row is kept exactly when its `is_favorited` flag equals the requested value |
| RecipeFilters.FilterIsInShoppingCart | backend/recipes/filters.py:33-39 | a row is kept exactly when its `is_in_shopping_cart` flag (as intended) equals the requested value |
| RecipeFilters.FilterByAuthor | backend/recipes/filters.py:19 | keeps exactly the rows whose author id equals the given integer id |
| RecipeFilters.FilterByAuthorCounts | backend/recipes/filters.py:19 | each row of that author is kept as often as it occurs in the queryset; no other row is kept |
| RecipeFilters.UpperChar | backend/recipes/filters.py:7 | a Latin or Cyrillic lower-case letter becomes the capital at the same place in its alphabet, ё becomes Ё, and every other character, capitals included, stays as it is |
| RecipeFilters.UpperCharSameUpToCase | backend/recipes/filters.py:7 | a letter and its capital upper-case alike |
| RecipeFilters.UpperCharIdempotent | backend/recipes/filters.py:7 | upper-casing twice is upper-casing once |
| RecipeFilters.FilterIngredientsByName | backend/recipes/filters.py:7 | keeps exactly the ingredients whose name starts with the query, ignoring letter case |
| RecipeFilters.NameFilterIgnoresQueryCase | backend/recipes/filters.py:7 | queries with the same upper-case form select the same ingredients |
| RecipeFilters.CaseVariantQueriesAgree | backend/recipes/filters.py:7 | queries that spell the same letters, each in either case, select the same ingredients |
| RecipeFilters.NameFilterUpperQuery | backend/recipes/filters.py:7 | upper-casing the query changes nothing |
| RecipeFilters.NameFilterEmptyQuery | backend/recipes/filters.py:7 | the empty query keeps every ingredient |
| RecipeFilters.ExactPrefixKept | backend/recipes/filters.py:7 | a name that begins with the query as typed is kept |
| RecipeFilters.CaseVariantPrefixKept | backend/recipes/filters.py:7 | a name that begins with the query up to the case of each letter is kept |
| RecipeFilters.LowerQueryFindsCapitalisedName | backend/recipes/filters.py:7 | the lower-case query "сах" finds the ingredient "Сахар" |
| Permissions.HasObjectPermission | backend/core/permissions.py:11-16 | safe methods are always allowed; any other method is allowed exactly for the authenticated author |
| Permissions.RecipeObjectAccess | backend/recipes/views.py:28-31 | on a recipe, both checks together allow reads for everyone and writes exactly for the author |
| ImportIngredients.LeadingWhitespace | backend/recipes/management/commands/import_ingredients.py:29 | the count of whitespace characters at the start: all of them are whitespace and the next one is not |
| ImportIngredients.TrailingWhitespace | backend/recipes/management/commands/import_ingredients.py:29 | the count of whitespace characters at the end: all of them are whitespace and the one before is not |
| ImportIngredients.Strip | backend/recipes/management/commands/import_ingredients.py:29 | `strip()` gives the slice of the input after its leading whitespace; only whitespace is cut after it; the result neither starts nor ends with whitespace |
| ImportIngredients.StripIdempotent | backend/recipes/management/commands/import_ingredients.py:29 | stripping twice is stripping once |
| ImportIngredients.GetOrCreateRows | backend/recipes/management/commands/import_ingredients.py:28-30 | the ingredient is present afterwards; the old table is a prefix; no duplicate is added |
| ImportIngredients.IngredientTable.GetOrCreate | backend/recipes/management/commands/import_ingredients.py:28-30 | adds the ingredient only when absent, reports whether it did, and keeps `unique_name_unit` |
| ImportIngredients.ImportAll | backend/recipes/management/commands/import_ingredients.py:21-30 | the table after all rows keeps `unique_name_unit` and holds the old ingredients plus the stripped pair of every two-field row, and nothing else |
| ImportIngredients.ImportOnlyAdds | backend/recipes/management/commands/import_ingredients.py:28-30 | existing ingredients are never changed or removed |
| ImportIngredients.ImportPresentNoop | backend/recipes/management/commands/import_ingredients.py:28-30 | rows whose ingredients all exist change nothing |
| ImportIngredients.ImportIdempotent | backend/recipes/management/commands/import_ingredients.py:28-30 | importing the same rows twice gives the same table as once |
| ImportIngredients.Handle | backend/recipes/management/commands/import_ingredients.py:12-35 | a missing file reports "not found" and changes nothing; otherwise the table becomes the import of the rows, and the count is the number of two-field rows |
| UserModels.SubscriptionStr | backend/users/models.py:65-66 | for a subscriber e-mail without spaces, the first space of `__str__` ends that e-mail |
| UserModels.SubscriptionStrInjective | backend/users/models.py:65-66 | for e-mails without spaces, `__str__` determines both users |
| UserViews.SubscriptionsOf | backend/users/views.py:83-84 | exactly the subscriptions whose user is the requester |
| UserViews.UserStore.IsSubscribed | backend/users/views.py:126 | `exists()` is true exactly when the pair is in the table |
| UserViews.UserStore.Subscribe | backend/users/views.py:116-149 | unknown author: 404; POST to oneself or to an existing subscription: 400 and no change; otherwise 201 and the pair appended; DELETE of an absent pair: 400 and no change; otherwise 204 and only that pair removed; accounts unchanged; the constraints are kept |
| UserViews.UserStore.Subscriptions | backend/users/views.py:82-84 | the list holds only the requester's subscriptions |
| UserViews.UserStore.SetPassword | backend/users/views.py:64-75 | a wrong current password: 400 and nothing changes; otherwise 204 and only the requester's password changes |
| UserViews.SubscribeListed | backend/users/views.py:131-133 | a new subscription appears in the subscriber's list and in no other user's |
| UserViews.SubscriptionsOfAppend | backend/users/views.py:84 | the subscription query distributes over appended rows |
| UserViews.UnsubscribeRemoves | backend/users/views.py:140-148 | after unsubscribing the pair is gone from the list; other users' lists keep their members |

## Left out

- HTTP plumbing is reduced to a status, a redirect target or the body text. This covers response bodies, `build_absolute_uri`, the `Content-Disposition` header, routing, pagination and the `recipes_limit` slicing of the subscription serializer. Route order is not modelled either: the router's detail routes such as `recipes/<pk>/favorite/` are tried before `recipes/s/<str:code>/`, so a short code that equals an action name, such as `favorite`, reaches that action and not the redirect.
- The ORM is reduced to sequences and maps of rows. The race between an `exists()` check and the following `create`, and transactions, are not modelled.
- The filters' lookup names `favorited_by` and `in_shopping_carts` do not match the related names `favorites` and `shopping_carts`. The model filters on the relation those lookups are meant to reach, and does not model name resolution.
- The order in which the database returns rows, and the default `ordering` of `Ingredient` and `Recipe` by name, are not modelled.
- Names are compared in code-point order, not in the database's collation.
- RecipeFilters.FilterByAuthor: its argument is the integer the ORM compares. `NumberFilter` parses `?author=` as a decimal number, and the id field's `int()` truncates it toward zero, so `?author=2.7` selects author 2. Parsing the query text and that truncation are not modelled.
- RecipeFilters.UpperChar: it maps Latin a-z, Cyrillic а-я and ё to upper case and leaves every other character alone. The database's full Unicode upper-casing is not modelled.
- ImportIngredients.IsWhitespace: it lists the characters Python's `str.isspace` accepts. CSV tokenising and file opening are not modelled; the rows arrive as given sequences of strings.
- core/constants.py is not part of this model. So the field validators `min_value=MIN_INGREDIENT_AMOUNT` and `min_value=MIN_COOKING_TIME`, and the `max_length` limits of names, are not modelled.
- The 32767 cap of `PositiveSmallIntegerField` on an ingredient amount is not modelled.
- The ingredient `id` of an item must name an existing ingredient (`PrimaryKeyRelatedField`). This check is not modelled.
- Image fields are reduced to their stored file name. Base64 decoding and the random file name are not modelled.
- UserViews.UserStore.SetPassword: the 400 that `validate_password` gives a new password the password validators refuse (backend/users/serializers.py:20-22) is not modelled, so "otherwise 204" holds only for a new password those validators accept. Password hashing is reduced to comparing the stored credential.
- The username regex is not modelled; only the 150-character bound and uniqueness are kept.
- The `interactions` app is not modelled: it duplicates the favourite and cart tables and is not installed.
- Serializer field mappings are not modelled, nor the avatar and `me` endpoints.

## Findings

| source | as written | input that shows it | evidently intended | confidence | as-written member | corrected member |
|---|---|---|---|---|---|---|
| backend/recipes/serializers.py:122-124 | `get_is_in_shopping_cart` checks `obj.favorites`, so it always equals `is_favorited` | user 1 has recipe 7 in the cart and no favourites: the flag is false | check `obj.shopping_carts`, so the flag is true exactly when the recipe is in the requester's cart | high (not executed) | RecipeSerializers.IsInShoppingCartAsWritten | RecipeSerializers.IsInShoppingCart |
