# Foodgram recipe backend — verified model

Foodgram is a recipe-sharing service. Users publish recipes. A recipe has tags
and a list of ingredient amounts. Users mark recipes as favorites, put them in a
shopping cart and download a combined shopping list. They also follow other
authors.

This project models the core of the backend in Dafny:

- the database rows and their unique, check and foreign-key constraints (`Models`);
- the recipe and subscription validation, the per-viewer flags, and recipe
  create and update (`Serializers`);
- the favorite, shopping-cart, download, subscribe and subscriptions actions (`Views`);
- the username validator (`Validators`);
- the two shopping-list text renderers (`ShoppingList`, `ShoppingCartMessage`).

The database is a value of type `Models.Tables`. Each table is a map or a
sequence of rows in database order, and the unique constraints of the pair tables (follows, favorites, cart) are
`NoDuplicates` predicates. The unique fields of users, ingredients and tags are
predicates over the catalog maps. `Models.Database` is the mutable store that the
actions change. Its invariant `Valid()` is the conjunction of every constraint
the schema declares, and each action is proved to keep it.

Supporting modules:

- `Outcomes` holds the Option, Result and Outcome types.
- `Seqs` holds duplicate-freedom and filtering of rows.
- `Text` holds Python-style `join` and `split`, and writing and parsing decimal integers.

## Model

| member | source | states |
|---|---|---|
| Models.AddFollowConsistent | backend/recipes/models.py:46-71 | Adding a follow row keeps the store consistent exactly when the pair is new, is not a self-follow, and both users exist. |
| Models.AddMembershipConsistent | backend/recipes/models.py:180-238 | Adding a favorite or cart row keeps the store consistent exactly when the (user, recipe) pair is new and both ends exist. |
| Models.AddIngredientConsistent | backend/recipes/models.py:79-98 | Adding an ingredient keeps the store consistent exactly when no ingredient has the same (name, unit) pair. |
| Models.AddTagConsistent | backend/recipes/models.py:104-127 | Adding a tag keeps the store consistent exactly when its name, color and slug are all unused. |
| Models.AddLinesConsistent | backend/recipes/models.py:244-264 | Ingredient lines have no unique constraint. Appending lines keeps the store consistent exactly when each line's recipe and ingredient exist. |
| Models.DeleteRecipe | backend/recipes/models.py:180-255 | Deleting a recipe cascades. No line, favorite or cart row refers to it afterwards. Every row of another recipe keeps its number of copies, so no row is lost, duplicated or added. The other tables are unchanged, and consistency holds. |
| Models.Database.constructor | backend/recipes/models.py:14-36 | A store built from unique users, ingredients and tags, with no recipes or rows yet, is valid. |
| Serializers.ValidateUniqueItems | backend/api/serializers.py:179-186 | Passes exactly when no item repeats. On failure, the non-empty error lists exactly the items that occur more than once. |
| Serializers.RepeatedNoneIffSingleCounts | backend/api/serializers.py:181-184 | The repeated-items list is empty exactly when every item occurs once. |
| Serializers.Validate | backend/api/serializers.py:188-211 | Each error is reported exactly when its condition holds and every earlier check passed. The order is: no ingredients, non-positive amount, repeated entry, no tags, repeated tag. Success returns the data unchanged. |
| Serializers.ValidateWrite | backend/api/serializers.py:172-211 | A cooking time below the minimum is refused with an error naming the minimum, before any object-level check. Otherwise the result is that of the object-level checks. |
| Serializers.SameIngredientTwicePasses | backend/api/serializers.py:196-203 | Two entries for one ingredient with different amounts are not rejected as duplicates, because whole entries are compared. |
| Serializers.ValidateSubscribe | backend/api/serializers.py:49-62 | A subscription passes exactly when the author exists, is not already followed, and is not the user. An already-existing follow is reported before a self-follow. |
| Serializers.SelfSubscriptionRejected | backend/api/serializers.py:59-61 | In a consistent store, following oneself is always refused as a self-subscription. |
| Serializers.GetRecipes | backend/api/serializers.py:67-72 | The author's recipes are cut to a prefix of length `min(limit, count)`, with a default limit when none is given. A negative limit is an error. |
| Serializers.FreshRecipeLines | backend/api/serializers.py:218-226 | For a recipe with no lines yet, its lines after the bulk insert are exactly one per entry, in entry order. |
| Serializers.CreateIngredients | backend/api/serializers.py:218-226 | Appends one line per entry and nothing else, and keeps the store valid. |
| Serializers.Create | backend/api/serializers.py:228-234 | Inserts a new recipe with a fresh id, the given fields and the set of the given tags. Its lines are exactly one per entry. Nothing else changes, and the store stays valid. |
| Serializers.MergeCompleted | backend/api/serializers.py:248-262 | After a successful ingredient loop, each existing line carries the last amount given for its ingredient. Entries for ingredients the recipe did not list are appended as new lines, in entry order. |
| Serializers.MergeKeepsCounts | backend/api/serializers.py:248-262 | The loop never adds a line for an ingredient the recipe already listed. |
| Serializers.MergeFailsIff | backend/api/serializers.py:248-262 | The loop fails exactly when some entry names an ingredient the recipe already lists on two or more lines. |
| Serializers.RepeatedIngredientBlocksUpdate | backend/api/serializers.py:218-257 | A recipe created with two entries for one ingredient gets two lines for it. Every later update naming that ingredient then fails its single-row lookup. |
| Serializers.MergeStaysFailed | backend/api/serializers.py:248-262 | Once the loop has failed, later entries change nothing. |
| Serializers.UpdateIngredients | backend/api/serializers.py:248-262 | The ingredient loop passes exactly when the merge does not fail. The new lines are the merge of the old lines, and the store stays valid. |
| Serializers.Update | backend/api/serializers.py:236-264 | Replaces the tag set when tags are given, then runs the ingredient loop. The plain fields are written only if the loop passed. The resulting store is stated in full and stays valid. |
| Views.AddTo | backend/api/views.py:75-87 | A missing recipe or an existing pair is refused with 400 and changes nothing. Otherwise exactly one row is appended and 201 returns the short recipe form. |
| Views.DeleteFrom | backend/api/views.py:89-97 | A missing recipe gives 404 and an absent pair 400, and neither changes anything. Otherwise exactly that row is removed (one row fewer) and 204 is returned. |
| Views.Favorite | backend/api/views.py:99-107 | POST behaves exactly as the add action on the favorites, and DELETE exactly as the delete action. This covers all three outcomes of each and the new favorites. The cart and every other table are unchanged. |
| Views.ShoppingCart | backend/api/views.py:109-117 | POST behaves exactly as the add action on the cart, and DELETE exactly as the delete action. This covers all three outcomes of each and the new cart. The favorites and every other table are unchanged. |
| Views.CartRecipeNames | backend/api/views.py:131-133 | The recipe list has one name per cart row of the user. |
| Views.DownloadShoppingCart | backend/api/views.py:119-136 | Answers 400 exactly when the user's cart is empty. It returns the file exactly when the cart is not empty. The file holds the rendered list, and its filename argument is the username plus `_shopping_list.txt`. |
| Views.Subscribe | backend/api/views.py:151-171 | A missing author gives 404. POST adds the follow row only after validation passes and shows the author as subscribed. DELETE gives 404 for an absent follow, and otherwise removes exactly that row. |
| Views.Subscriptions | backend/api/views.py:173-183 | Returns exactly the authors the user follows. These are exactly the users shown to them as subscribed. |
| Views.AddToFlags | backend/api/serializers.py:135-145 | After an add, the favorite and cart flags change only for the added (user, recipe) pair, in the table it was added to. |
| Views.DeleteFromFlags | backend/api/serializers.py:135-145 | After a delete, the favorite and cart flags change only for the deleted pair, which becomes clear. |
| Views.FollowFlags | backend/api/serializers.py:34-38 | Adding or deleting a follow row sets or clears the subscription flag for exactly that pair. |
| Views.NotSubscribedToSelf | backend/api/serializers.py:34-38 | In a consistent store nobody is shown as subscribed to themselves. The anonymous viewer is subscribed to nobody. |
| Validators.InvalidCharacters | backend/recipes/validators.py:9 | The set of the pattern matches holds exactly the distinct characters of the username outside word characters and `.@+-`. |
| Validators.FindInvalidOccurrences | backend/recipes/validators.py:9 | The matches hold every occurrence of each disallowed character and nothing else. |
| Validators.NoInvalidIffAllowed | backend/recipes/validators.py:9-10 | The invalid set is empty exactly when every character is allowed. |
| Validators.ValidateUsername | backend/recipes/validators.py:8-18 | Passes exactly when every character is allowed, so the empty username passes. Otherwise the error is the message listing every distinct invalid character once, in some iteration order of the set. |
| Validators.ListCharacters | backend/recipes/validators.py:11-17 | The message loop lists the elements of the set, each exactly once, after the fixed header. |
| Validators.EntriesSnoc | backend/recipes/validators.py:13-17 | Each loop step appends the entry carrying the next number. |
| Validators.EnumerationSize | backend/recipes/validators.py:9-13 | The listing has exactly one entry per distinct invalid character. |
| Validators.EntriesLayout | backend/recipes/validators.py:13-17 | Read line by line, the entries are numbered consecutively from 1 in listing order. A space is shown as "(пробел)". |
| ShoppingList.ShoppingListLayout | backend/api/utils.py:4-16 | Read line by line, the list has `|totals| + |recipes| + 3` lines. In order: the date, the ingredients heading, one numbered line per total in input order, the recipes heading, and "- " plus each recipe name in input order. |
| ShoppingList.ItemNumber | backend/api/utils.py:10-14 | The number in front of an ingredient line reads back as its position. |
| ShoppingCartMessage.SendMessage | backend/api/shoppingcartmessage.py:4-15 | The message starts with the date header and a blank line. It is exactly that header when there are no totals. |
| ShoppingCartMessage.MessageLayout | backend/api/shoppingcartmessage.py:4-15 | Read line by line, it is the date, an empty line, then exactly one line per total in input order, with no trailing newline. |

## Left out

- The date. The current date is a parameter, because reading the clock is I/O.
- Unicode semantics. The meaning of a word character (`\w`) and of `str.capitalize` are supplied as function parameters; their Unicode definitions are not modelled.
- The cart's ingredient rows. The download action calls `get_ingredients_for_user_shopping_cart` on `IngredientRecipe` (backend/api/views.py:130), but backend/recipes/models.py defines no such method, so the call as written raises for every non-empty cart before the list is rendered. The model takes the method's result as an unconstrained input and assumes the call returns. Their grouping or summing is not modelled.
- The minimum cooking time. It lives in the project settings, which are not part of this model, so it is a parameter.
- Framework plumbing. Routing, permissions, pagination, filtering, response serialisation, image upload and Base64 decoding are reduced to the outcome kinds (created, no content, 400, 404, file). The image validator is not modelled.
- Serializers.GetRecipes: the `recipes_limit` query string is taken as an already-parsed optional integer. String parsing and the error for a non-numeric value are not modelled.
- Models.DeleteRecipe: its contract does not state that surviving rows keep their relative order. The definition keeps it, because filtering preserves order.
- Serializers.Validate: the request data always carries both `ingredients` and `tags`. The object-level check reads both keys directly (backend/api/serializers.py:190, 204), so a partial update that omits either raises a missing-key error before `update` runs. The model does not express that error. `Serializers.Update`'s branches for absent tags or ingredients are therefore reachable only when it is called directly, not after validation.
- Serializers.Update: no transaction is modelled. A failed line lookup keeps the writes made before it.
- Field ranges. The widths and ranges of the small-integer fields (amount, cooking time) are not modelled; amounts and times are unbounded integers.
- `get_recipes_count` and the dead `get_ingredients` read helper. They only count or re-read rows.
- The debug output line at the start of `update`.
- The Tag color pattern. As written it is not a meaningful validator.
- The admin site and the JSON import management commands.
- The duplicate `backend/backend/` scaffold tree, which cannot be imported.
- Deleting users, ingredients and tags, and the cascades this triggers. Only recipe deletion is modelled.
- Concurrency. Races between the existence checks and the inserts are out of scope; the model is sequential.
- Views.Subscriptions: the result is a set. The ordering and pagination of the listed authors are not modelled.
- Validators.ValidateUsername: Python's set iteration order is not modelled. The message is proved for some listing of the set, not for a particular one.
- Validators.EntriesLayout and the renderers' layout lemmas require that no field contains a newline, because such a field would itself split a line.
