/** The write path and read-side flags of the recipe API: validation of a recipe
    write request, creation and in-place update of a recipe, subscription
    validation, the recipe-list limit of an author's profile, and the per-viewer
    favorite / cart / subscription flags. */
module Serializers {
  import opened Outcomes
  import opened Seqs
  import opened Models

  /** One requested ingredient line. Entries compare as whole values: the same
      ingredient with two different amounts gives two different entries. */
  datatype IngredientEntry = IngredientEntry(id: IngredientId, amount: int)

  /** The validated fields of a recipe write request. */
  datatype RecipeData = RecipeData(
    name: string,
    image: string,
    text: string,
    cookingTime: int,
    tags: seq<TagId>,
    ingredients: seq<IngredientEntry>)

  datatype RecipeError =
    | CookingTimeTooShort(minimum: int)
    | NoIngredients
    | NonPositiveAmount
    | DuplicateIngredients(repeatedEntries: seq<IngredientEntry>)
    | NoTags
    | DuplicateTags(repeatedTags: seq<TagId>)

  // ---------------------------------------------------------------------------
  // Field and object validation

  /** The cooking-time field check against the configured minimum. */
  function ValidateCookingTime(cookingTime: int, minCookingTime: int): Result<int, RecipeError>
  {
    if cookingTime < minCookingTime then Failure(CookingTimeTooShort(minCookingTime))
    else Success(cookingTime)
  }

  /** The elements of `xs` that occur more than once in `whole`, in order and with
      their repetitions (`[item for item in items if items.count(item) > 1]`). */
  function Repeated<T(==,!new)>(xs: seq<T>, whole: seq<T>): (r: seq<T>)
    ensures forall x :: x in r <==> x in xs && multiset(whole)[x] > 1
  {
    if xs == [] then []
    else (if multiset(whole)[xs[0]] > 1 then [xs[0]] else []) + Repeated(xs[1..], whole)
  }

  /** A sequence has no repeated element exactly when each of its elements occurs once. */
  lemma {:induction false} NoDuplicatesIffSingleCounts<T(!new)>(s: seq<T>)
    ensures NoDuplicates(s) <==> forall x :: x in s ==> multiset(s)[x] == 1
  {
    if s != [] {
      var a, rest := s[0], s[1..];
      assert s == [a] + rest;
      assert multiset(s) == multiset{a} + multiset(rest);
      NoDuplicatesCons(a, rest);
      NoDuplicatesIffSingleCounts(rest);
      if NoDuplicates(s) {
        forall x | x in s ensures multiset(s)[x] == 1 {
          if x == a {
            assert multiset(rest)[a] == 0;
          } else {
            assert x in rest;
          }
        }
      }
      if forall x :: x in s ==> multiset(s)[x] == 1 {
        assert multiset(s)[a] == 1;
        assert a !in rest;
        forall x | x in rest ensures multiset(rest)[x] == 1 {
          assert x in s && x != a;
        }
      }
    }
  }

  lemma RepeatedNoneIffSingleCounts<T(!new)>(items: seq<T>)
    ensures Repeated(items, items) == [] <==> forall x :: x in items ==> multiset(items)[x] == 1
  {
    var duplicates := Repeated(items, items);
    if duplicates != [] {
      assert duplicates[0] in duplicates;
    } else {
      forall x | x in items ensures multiset(items)[x] == 1 {
        assert x !in duplicates;
      }
    }
  }

  /** `validate_unique_items`: rejects a list in which some element occurs twice,
      reporting every occurrence of every repeated element; otherwise returns the
      list unchanged. */
  function ValidateUniqueItems<T(==,!new)>(items: seq<T>): (r: Result<seq<T>, seq<T>>)
    ensures r.Success? <==> NoDuplicates(items)
    ensures r.Success? ==> r.value == items
    ensures r.Failure? ==> r.error != [] && forall x :: x in r.error <==> x in items && multiset(items)[x] > 1
  {
    NoDuplicatesIffSingleCounts(items);
    RepeatedNoneIffSingleCounts(items);
    var duplicates := Repeated(items, items);
    if duplicates != [] then Failure(duplicates) else Success(items)
  }

  ghost predicate AllAmountsPositive(ingredients: seq<IngredientEntry>) {
    forall k :: 0 <= k < |ingredients| ==> ingredients[k].amount > 0
  }

  /** The object-level check of a recipe write, which reports the first failing
      condition in this order: no ingredients, a non-positive amount, a repeated
      ingredient entry, no tags, a repeated tag. */
  function Validate(data: RecipeData): (r: Result<RecipeData, RecipeError>)
    ensures r.Success? <==>
      && data.ingredients != []
      && AllAmountsPositive(data.ingredients)
      && NoDuplicates(data.ingredients)
      && data.tags != []
      && NoDuplicates(data.tags)
    ensures r.Success? ==> r.value == data
    ensures r == Failure(NoIngredients) <==> data.ingredients == []
    ensures r == Failure(NonPositiveAmount) <==>
      data.ingredients != [] && !AllAmountsPositive(data.ingredients)
    ensures (r.Failure? && r.error.DuplicateIngredients?) <==>
      data.ingredients != [] && AllAmountsPositive(data.ingredients) && !NoDuplicates(data.ingredients)
    ensures r == Failure(NoTags) <==>
      data.ingredients != [] && AllAmountsPositive(data.ingredients) && NoDuplicates(data.ingredients)
      && data.tags == []
    ensures (r.Failure? && r.error.DuplicateTags?) <==>
      data.ingredients != [] && AllAmountsPositive(data.ingredients) && NoDuplicates(data.ingredients)
      && data.tags != [] && !NoDuplicates(data.tags)
  {
    if data.ingredients == [] then Failure(NoIngredients)
    else if exists k :: 0 <= k < |data.ingredients| && data.ingredients[k].amount <= 0 then
      Failure(NonPositiveAmount)
    else match ValidateUniqueItems(data.ingredients)
      case Failure(repeated) => Failure(DuplicateIngredients(repeated))
      case Success(_) =>
        if data.tags == [] then Failure(NoTags)
        else match ValidateUniqueItems(data.tags)
          case Failure(repeated) => Failure(DuplicateTags(repeated))
          case Success(_) => Success(data)
  }

  /** A whole recipe write: the cooking-time field check runs before the
      object-level checks. */
  function ValidateWrite(data: RecipeData, minCookingTime: int): (r: Result<RecipeData, RecipeError>)
    ensures data.cookingTime < minCookingTime ==> r == Failure(CookingTimeTooShort(minCookingTime))
    ensures data.cookingTime >= minCookingTime ==> r == Validate(data)
    ensures r.Success? ==> r.value == data && data.cookingTime >= minCookingTime
  {
    match ValidateCookingTime(data.cookingTime, minCookingTime)
    case Failure(e) => Failure(e)
    case Success(_) => Validate(data)
  }

  /** Duplicate detection compares whole entries: two lines for one ingredient with
      different amounts pass validation. */
  lemma SameIngredientTwicePasses(data: RecipeData, id: IngredientId, a: int, b: int)
    requires a > 0 && b > 0 && a != b
    requires data.ingredients == [IngredientEntry(id, a), IngredientEntry(id, b)]
    requires data.tags != [] && NoDuplicates(data.tags)
    ensures Validate(data) == Success(data)
  {
    assert data.ingredients[0] != data.ingredients[1];
  }

  // ---------------------------------------------------------------------------
  // Subscription validation and the author profile's recipe list

  datatype SubscribeError = AuthorNotFound | AlreadySubscribed | SelfSubscription

  /** Subscription validation: the author must exist, then the subscription must be
      new, then it must not be a self-subscription. */
  function ValidateSubscribe(t: Tables, user: UserId, authorId: UserId): (r: Outcome<SubscribeError>)
    ensures r.Pass? <==> authorId in t.users && Follow(user, authorId) !in t.follows && user != authorId
    ensures authorId !in t.users ==> r == Fail(AuthorNotFound)
    ensures authorId in t.users && Follow(user, authorId) in t.follows ==> r == Fail(AlreadySubscribed)
    ensures r == Fail(SelfSubscription) ==> user == authorId
    ensures authorId in t.users && Follow(user, authorId) !in t.follows && user == authorId ==>
      r == Fail(SelfSubscription)
  {
    if authorId !in t.users then Fail(AuthorNotFound)
    else if Follow(user, authorId) in t.follows then Fail(AlreadySubscribed)
    else if user == authorId then Fail(SelfSubscription)
    else Pass
  }

  /** In a consistent database nobody already follows themselves, so a
      self-subscription always ends in the self-subscription error. */
  lemma SelfSubscriptionRejected(t: Tables, user: UserId)
    requires Consistent(t) && user in t.users
    ensures ValidateSubscribe(t, user, user) == Fail(SelfSubscription)
  {
    forall k | 0 <= k < |t.follows| ensures t.follows[k] != Follow(user, user) {
      assert t.follows[k].user != t.follows[k].author;
    }
  }

  /** The limit used when the request gives no `recipes_limit`. */
  const DEFAULT_RECIPES_LIMIT: int := 10_000_000_000

  datatype LimitError = NegativeLimit

  /** The first `recipes_limit` recipes of an author, in the order given; a
      negative limit is refused, as query-set slicing refuses negative bounds. */
  function GetRecipes<T>(recipes: seq<T>, limit: Option<int>): (r: Result<seq<T>, LimitError>)
    ensures r.Success? <==> limit.GetOr(DEFAULT_RECIPES_LIMIT) >= 0
    ensures r.Success? ==> |r.value| <= |recipes| && r.value == recipes[..|r.value|]
    ensures r.Success? ==> |r.value| <= limit.GetOr(DEFAULT_RECIPES_LIMIT)
    ensures r.Success? && |r.value| < |recipes| ==> |r.value| == limit.GetOr(DEFAULT_RECIPES_LIMIT)
  {
    var n := limit.GetOr(DEFAULT_RECIPES_LIMIT);
    if n < 0 then Failure(NegativeLimit)
    else Success(recipes[..if n < |recipes| then n else |recipes|])
  }

  // ---------------------------------------------------------------------------
  // Per-viewer flags; `None` is the anonymous requester

  function IsSubscribed(t: Tables, requester: Option<UserId>, shown: UserId): bool
  {
    requester.Some? && Follow(requester.value, shown) in t.follows
  }

  function IsFavorited(t: Tables, requester: Option<UserId>, recipe: RecipeId): bool
  {
    requester.Some? && Membership(requester.value, recipe) in t.favorites
  }

  function IsInShoppingCart(t: Tables, requester: Option<UserId>, recipe: RecipeId): bool
  {
    requester.Some? && Membership(requester.value, recipe) in t.cart
  }

  // ---------------------------------------------------------------------------
  // Creating a recipe

  /** The ingredient lines a recipe gets for the requested entries, one per entry, in order. */
  function LinesFor(recipe: RecipeId, entries: seq<IngredientEntry>): (r: seq<IngredientLine>)
    ensures |r| == |entries|
  {
    seq(|entries|, k requires 0 <= k < |entries| => IngredientLine(recipe, entries[k].id, entries[k].amount))
  }

  function OfRecipe(recipe: RecipeId): IngredientLine -> bool {
    (l: IngredientLine) => l.recipe == recipe
  }

  /** The ingredient lines of one recipe, in table order. */
  function RecipeLines(t: Tables, recipe: RecipeId): seq<IngredientLine> {
    Filter(t.lines, OfRecipe(recipe))
  }

  /** After lines are inserted for a recipe that had none, the recipe's lines are
      exactly the inserted ones: one per requested entry, in request order. */
  lemma FreshRecipeLines(lines: seq<IngredientLine>, recipe: RecipeId, entries: seq<IngredientEntry>)
    requires forall k :: 0 <= k < |lines| ==> lines[k].recipe != recipe
    ensures Filter(lines + LinesFor(recipe, entries), OfRecipe(recipe)) == LinesFor(recipe, entries)
  {
    FilterAppend(lines, LinesFor(recipe, entries), OfRecipe(recipe));
    FilterNone(lines, OfRecipe(recipe));
    FilterAll(LinesFor(recipe, entries), OfRecipe(recipe));
  }

  /** `create_ingredients`: inserts one line per entry for `recipe`. */
  method CreateIngredients(db: Database, recipe: RecipeId, entries: seq<IngredientEntry>)
    requires db.Valid() && recipe in db.tables.recipes
    requires forall k :: 0 <= k < |entries| ==> entries[k].id in db.tables.ingredients
    modifies db
    ensures db.Valid()
    ensures db.tables == old(db.tables).(lines := old(db.tables.lines) + LinesFor(recipe, entries))
  {
    for i := 0 to |entries|
      invariant db.tables == old(db.tables).(lines := old(db.tables.lines) + LinesFor(recipe, entries[..i]))
      invariant db.Valid()
    {
      var line := IngredientLine(recipe, entries[i].id, entries[i].amount);
      assert LinesFor(recipe, entries[..i + 1]) == LinesFor(recipe, entries[..i]) + [line];
      AddLinesConsistent(db.tables, [line]);
      db.tables := db.tables.(lines := db.tables.lines + [line]);
    }
    assert entries[..|entries|] == entries;
  }

  /** A recipe row stored under the next primary key keeps the database consistent
      when its author and tags exist, and no ingredient line refers to it yet. */
  lemma InsertRecipeConsistent(t: Tables, recipe: Recipe)
    requires Consistent(t) && recipe.author in t.users && recipe.tags <= t.tags.Keys
    ensures t.nextRecipeId !in t.recipes
    ensures forall k :: 0 <= k < |t.lines| ==> t.lines[k].recipe != t.nextRecipeId
    ensures Consistent(t.(recipes := t.recipes[t.nextRecipeId := recipe], nextRecipeId := t.nextRecipeId + 1))
  {
    assert forall k :: 0 <= k < |t.lines| ==> t.lines[k].recipe in t.recipes;
  }

  /** `create`: a new recipe row under the next primary key, with exactly the
      requested tag set and one ingredient line per requested entry. */
  method Create(db: Database, author: UserId, data: RecipeData) returns (id: RecipeId)
    requires db.Valid() && author in db.tables.users
    requires forall k :: 0 <= k < |data.tags| ==> data.tags[k] in db.tables.tags
    requires forall k :: 0 <= k < |data.ingredients| ==> data.ingredients[k].id in db.tables.ingredients
    modifies db
    ensures db.Valid()
    ensures id == old(db.tables.nextRecipeId) && id !in old(db.tables.recipes)
    ensures db.tables == old(db.tables).(
      recipes := old(db.tables.recipes)[id := Recipe(author, data.name, data.image, data.text,
                                                     data.cookingTime, set t | t in data.tags)],
      nextRecipeId := old(db.tables.nextRecipeId) + 1,
      lines := old(db.tables.lines) + LinesFor(id, data.ingredients))
    ensures RecipeLines(db.tables, id) == LinesFor(id, data.ingredients)
  {
    id := db.tables.nextRecipeId;
    var tags := set t | t in data.tags;
    var recipe := Recipe(author, data.name, data.image, data.text, data.cookingTime, tags);
    InsertRecipeConsistent(db.tables, recipe);
    db.tables := db.tables.(recipes := db.tables.recipes[id := recipe], nextRecipeId := id + 1);
    ghost var before := db.tables;
    CreateIngredients(db, id, data.ingredients);
    FreshRecipeLines(before.lines, id, data.ingredients);
  }

  // ---------------------------------------------------------------------------
  // Updating a recipe in place

  /** The fields a recipe update may carry; `None` marks a field absent from the request. */
  datatype RecipeChanges = RecipeChanges(
    name: Option<string>,
    image: Option<string>,
    text: Option<string>,
    cookingTime: Option<int>,
    tags: Option<seq<TagId>>,
    ingredients: Option<seq<IngredientEntry>>)

  /** The plain fields written by the generic model update, each only when present. */
  function ApplyFields(recipe: Recipe, changes: RecipeChanges): Recipe {
    recipe.(name := changes.name.GetOr(recipe.name),
            image := changes.image.GetOr(recipe.image),
            text := changes.text.GetOr(recipe.text),
            cookingTime := changes.cookingTime.GetOr(recipe.cookingTime))
  }

  /** The ingredient ids a recipe lists before the update starts. */
  function ExistingIngredients(lines: seq<IngredientLine>, recipe: RecipeId): set<IngredientId> {
    set k | 0 <= k < |lines| && lines[k].recipe == recipe :: lines[k].ingredient
  }

  /** The number of lines of `recipe` for `ingredient`: the rows a single-row lookup sees. */
  function CountLines(lines: seq<IngredientLine>, recipe: RecipeId, ingredient: IngredientId): nat {
    if lines == [] then 0
    else
      var last := lines[|lines| - 1];
      CountLines(lines[..|lines| - 1], recipe, ingredient)
        + (if last.recipe == recipe && last.ingredient == ingredient then 1 else 0)
  }

  /** Gives the lines of `recipe` for `ingredient` the new amount; keeps every other line. */
  function SetAmount(lines: seq<IngredientLine>, recipe: RecipeId, ingredient: IngredientId, amount: int)
    : (r: seq<IngredientLine>)
    ensures |r| == |lines|
    ensures forall k :: 0 <= k < |r| ==> r[k].recipe == lines[k].recipe && r[k].ingredient == lines[k].ingredient
  {
    seq(|lines|, k requires 0 <= k < |lines| =>
      if lines[k].recipe == recipe && lines[k].ingredient == ingredient then lines[k].(amount := amount)
      else lines[k])
  }

  /** The join table after an update's ingredient loop, and whether the loop stopped
      on a failed single-row lookup. */
  datatype Merge = Merge(lines: seq<IngredientLine>, failed: bool)

  /** One iteration: an ingredient the recipe already listed gets the new amount on
      its (single) line; any other ingredient gets a new line. */
  function MergeStep(lines: seq<IngredientLine>, recipe: RecipeId, existing: set<IngredientId>, e: IngredientEntry)
    : Merge
  {
    if e.id in existing then
      if CountLines(lines, recipe, e.id) == 1 then Merge(SetAmount(lines, recipe, e.id, e.amount), false)
      else Merge(lines, true)
    else Merge(lines + [IngredientLine(recipe, e.id, e.amount)], false)
  }

  /** The whole ingredient loop of an update, entry by entry, stopping at the first failure. */
  function MergeIngredients(lines: seq<IngredientLine>, recipe: RecipeId, existing: set<IngredientId>,
                            entries: seq<IngredientEntry>): Merge
    decreases |entries|
  {
    if entries == [] then Merge(lines, false)
    else
      var prev := MergeIngredients(lines, recipe, existing, entries[..|entries| - 1]);
      if prev.failed then prev else MergeStep(prev.lines, recipe, existing, entries[|entries| - 1])
  }

  /** The amount of the last entry for `ingredient`, or `default` when no entry names it. */
  function LastAmount(entries: seq<IngredientEntry>, ingredient: IngredientId, default: int): int {
    if entries == [] then default
    else if entries[|entries| - 1].id == ingredient then entries[|entries| - 1].amount
    else LastAmount(entries[..|entries| - 1], ingredient, default)
  }

  function NotListed(existing: set<IngredientId>): IngredientEntry -> bool {
    (e: IngredientEntry) => e.id !in existing
  }

  /** One loop iteration keeps every line already there in place, with its recipe and
      ingredient, and leaves lines of other recipes or of unlisted ingredients alone. */
  lemma StepKeepsLines(lines: seq<IngredientLine>, recipe: RecipeId, existing: set<IngredientId>, e: IngredientEntry)
    ensures var s := MergeStep(lines, recipe, existing, e);
      && |s.lines| >= |lines|
      && (forall k :: 0 <= k < |lines| ==>
            s.lines[k].recipe == lines[k].recipe && s.lines[k].ingredient == lines[k].ingredient)
      && (forall k :: 0 <= k < |lines| && (lines[k].recipe != recipe || lines[k].ingredient !in existing) ==>
            s.lines[k] == lines[k])
  {
  }

  /** The ingredient loop keeps every line that was there in place, with its recipe
      and ingredient, and changes no line of another recipe and no line of an
      ingredient the recipe did not list before the update. */
  lemma {:induction false} MergeKeepsLines(lines: seq<IngredientLine>, recipe: RecipeId, existing: set<IngredientId>,
                                           entries: seq<IngredientEntry>)
    ensures var m := MergeIngredients(lines, recipe, existing, entries);
      && |m.lines| >= |lines|
      && (forall k :: 0 <= k < |lines| ==>
            m.lines[k].recipe == lines[k].recipe && m.lines[k].ingredient == lines[k].ingredient)
      && (forall k :: 0 <= k < |lines| && (lines[k].recipe != recipe || lines[k].ingredient !in existing) ==>
            m.lines[k] == lines[k])
    decreases |entries|
  {
    if entries != [] {
      var init, e := entries[..|entries| - 1], entries[|entries| - 1];
      MergeKeepsLines(lines, recipe, existing, init);
      var prev := MergeIngredients(lines, recipe, existing, init);
      if !prev.failed {
        StepKeepsLines(prev.lines, recipe, existing, e);
      }
    }
  }

  /** The shape a completed loop leaves: the old lines, then one new line per entry
      of an ingredient the recipe did not list, in request order. */
  ghost predicate AppendedNew(lines: seq<IngredientLine>, merged: seq<IngredientLine>, recipe: RecipeId,
                              existing: set<IngredientId>, entries: seq<IngredientEntry>)
  {
    |merged| >= |lines| && merged[|lines|..] == LinesFor(recipe, Filter(entries, NotListed(existing)))
  }

  /** The amounts a completed loop leaves on the old lines of the recipe's listed
      ingredients: the last requested amount, or the old one when not requested. */
  ghost predicate AmountsMerged(lines: seq<IngredientLine>, merged: seq<IngredientLine>, recipe: RecipeId,
                                existing: set<IngredientId>, entries: seq<IngredientEntry>)
    requires |merged| >= |lines|
  {
    forall k :: 0 <= k < |lines| && lines[k].recipe == recipe && lines[k].ingredient in existing ==>
      merged[k].amount == LastAmount(entries, lines[k].ingredient, lines[k].amount)
  }

  /** When the ingredient loop completes, the lines of ingredients the recipe already
      listed carry the amount of the last entry naming them (their old amount when no
      entry does), and new lines follow the old ones, one per entry of an unlisted
      ingredient, in request order. */
  lemma {:induction false} MergeCompleted(lines: seq<IngredientLine>, recipe: RecipeId, existing: set<IngredientId>,
                                          entries: seq<IngredientEntry>)
    requires !MergeIngredients(lines, recipe, existing, entries).failed
    ensures AppendedNew(lines, MergeIngredients(lines, recipe, existing, entries).lines, recipe, existing, entries)
    ensures AmountsMerged(lines, MergeIngredients(lines, recipe, existing, entries).lines, recipe, existing, entries)
    decreases |entries|
  {
    if entries != [] {
      var init, e := entries[..|entries| - 1], entries[|entries| - 1];
      assert entries == init + [e];
      var prev := MergeIngredients(lines, recipe, existing, init);
      assert !prev.failed;
      MergeCompleted(lines, recipe, existing, init);
      MergeKeepsLines(lines, recipe, existing, init);
      var m := MergeIngredients(lines, recipe, existing, entries);
      var added := Filter(init, NotListed(existing));
      FilterAppend(init, [e], NotListed(existing));
      if e.id in existing {
        CompletedListedStep(lines, prev.lines, recipe, existing, init, e);
      } else {
        CompletedNewStep(lines, prev.lines, recipe, existing, init, e);
      }
    }
  }

  lemma CompletedListedStep(lines: seq<IngredientLine>, prev: seq<IngredientLine>, recipe: RecipeId,
                            existing: set<IngredientId>, init: seq<IngredientEntry>, e: IngredientEntry)
    requires e.id in existing
    requires AppendedNew(lines, prev, recipe, existing, init)
    requires AmountsMerged(lines, prev, recipe, existing, init)
    requires forall k :: 0 <= k < |lines| ==> prev[k].recipe == lines[k].recipe && prev[k].ingredient == lines[k].ingredient
    requires Filter(init + [e], NotListed(existing)) == Filter(init, NotListed(existing)) + Filter([e], NotListed(existing))
    ensures AppendedNew(lines, SetAmount(prev, recipe, e.id, e.amount), recipe, existing, init + [e])
    ensures AmountsMerged(lines, SetAmount(prev, recipe, e.id, e.amount), recipe, existing, init + [e])
  {
    ListedStepAppended(lines, prev, recipe, existing, init, e);
    ListedStepAmounts(lines, prev, recipe, existing, init, e);
  }

  lemma ListedStepAppended(lines: seq<IngredientLine>, prev: seq<IngredientLine>, recipe: RecipeId,
                           existing: set<IngredientId>, init: seq<IngredientEntry>, e: IngredientEntry)
    requires e.id in existing
    requires AppendedNew(lines, prev, recipe, existing, init)
    requires Filter(init + [e], NotListed(existing)) == Filter(init, NotListed(existing)) + Filter([e], NotListed(existing))
    ensures AppendedNew(lines, SetAmount(prev, recipe, e.id, e.amount), recipe, existing, init + [e])
  {
    var added := Filter(init, NotListed(existing));
    var next := SetAmount(prev, recipe, e.id, e.amount);
    assert Filter([e], NotListed(existing)) == [];
    assert Filter(init + [e], NotListed(existing)) == added;
    var tail := LinesFor(recipe, added);
    assert prev[|lines|..] == tail;
    forall k | |lines| <= k < |next| ensures next[k] == prev[k] {
      var j := k - |lines|;
      assert prev[k] == tail[j];
      assert tail[j].ingredient == added[j].id;
      assert added[j] in added;
    }
    assert next[|lines|..] == prev[|lines|..];
  }

  lemma ListedStepAmounts(lines: seq<IngredientLine>, prev: seq<IngredientLine>, recipe: RecipeId,
                          existing: set<IngredientId>, init: seq<IngredientEntry>, e: IngredientEntry)
    requires |prev| >= |lines|
    requires AmountsMerged(lines, prev, recipe, existing, init)
    requires forall k :: 0 <= k < |lines| ==> prev[k].recipe == lines[k].recipe && prev[k].ingredient == lines[k].ingredient
    ensures AmountsMerged(lines, SetAmount(prev, recipe, e.id, e.amount), recipe, existing, init + [e])
  {
    var next := SetAmount(prev, recipe, e.id, e.amount);
    var entries := init + [e];
    assert entries[..|entries| - 1] == init && entries[|entries| - 1] == e;
    forall k | 0 <= k < |lines| && lines[k].recipe == recipe && lines[k].ingredient in existing
      ensures next[k].amount == LastAmount(entries, lines[k].ingredient, lines[k].amount)
    {
      if lines[k].ingredient != e.id {
        assert next[k] == prev[k];
      }
    }
  }

  lemma CompletedNewStep(lines: seq<IngredientLine>, prev: seq<IngredientLine>, recipe: RecipeId,
                         existing: set<IngredientId>, init: seq<IngredientEntry>, e: IngredientEntry)
    requires e.id !in existing
    requires AppendedNew(lines, prev, recipe, existing, init)
    requires AmountsMerged(lines, prev, recipe, existing, init)
    requires Filter(init + [e], NotListed(existing)) == Filter(init, NotListed(existing)) + Filter([e], NotListed(existing))
    ensures AppendedNew(lines, prev + [IngredientLine(recipe, e.id, e.amount)], recipe, existing, init + [e])
    ensures AmountsMerged(lines, prev + [IngredientLine(recipe, e.id, e.amount)], recipe, existing, init + [e])
  {
    var added := Filter(init, NotListed(existing));
    var line := IngredientLine(recipe, e.id, e.amount);
    assert Filter([e], NotListed(existing)) == [e];
    assert LinesFor(recipe, added + [e]) == LinesFor(recipe, added) + [line];
    assert (prev + [line])[|lines|..] == prev[|lines|..] + [line];
    assert (init + [e])[..|init|] == init;
  }

  lemma {:induction false} CountLinesSameKeys(a: seq<IngredientLine>, b: seq<IngredientLine>,
                                              recipe: RecipeId, ingredient: IngredientId)
    requires |a| == |b|
    requires forall k :: 0 <= k < |a| ==> a[k].recipe == b[k].recipe && a[k].ingredient == b[k].ingredient
    ensures CountLines(a, recipe, ingredient) == CountLines(b, recipe, ingredient)
  {
    if a != [] {
      CountLinesSameKeys(a[..|a| - 1], b[..|b| - 1], recipe, ingredient);
    }
  }

  lemma {:induction false} CountLinesPositive(lines: seq<IngredientLine>, recipe: RecipeId, ingredient: IngredientId)
    requires ingredient in ExistingIngredients(lines, recipe)
    ensures CountLines(lines, recipe, ingredient) >= 1
  {
    var k :| 0 <= k < |lines| && lines[k].recipe == recipe && lines[k].ingredient == ingredient;
    if k < |lines| - 1 {
      assert lines[..|lines| - 1][k] == lines[k];
      CountLinesPositive(lines[..|lines| - 1], recipe, ingredient);
    }
  }

  /** While the loop runs, the number of lines per already-listed ingredient does not change. */
  lemma {:induction false} MergeKeepsCounts(lines: seq<IngredientLine>, recipe: RecipeId, existing: set<IngredientId>,
                                            entries: seq<IngredientEntry>, ingredient: IngredientId)
    requires ingredient in existing
    ensures CountLines(MergeIngredients(lines, recipe, existing, entries).lines, recipe, ingredient)
         == CountLines(lines, recipe, ingredient)
    decreases |entries|
  {
    if entries != [] {
      var init, e := entries[..|entries| - 1], entries[|entries| - 1];
      MergeKeepsCounts(lines, recipe, existing, init, ingredient);
      var prev := MergeIngredients(lines, recipe, existing, init);
      if !prev.failed {
        if e.id in existing {
          if CountLines(prev.lines, recipe, e.id) == 1 {
            CountLinesSameKeys(SetAmount(prev.lines, recipe, e.id, e.amount), prev.lines, recipe, ingredient);
          }
        } else {
          assert (prev.lines + [IngredientLine(recipe, e.id, e.amount)])[..|prev.lines|] == prev.lines;
        }
      }
    }
  }

  /** The loop fails exactly when some entry names an ingredient the recipe already
      lists on two or more lines (the single-row lookup finds several rows). */
  lemma {:induction false} MergeFailsIff(lines: seq<IngredientLine>, recipe: RecipeId, entries: seq<IngredientEntry>)
    ensures var existing := ExistingIngredients(lines, recipe);
      MergeIngredients(lines, recipe, existing, entries).failed <==>
        exists j :: 0 <= j < |entries| && entries[j].id in existing && CountLines(lines, recipe, entries[j].id) >= 2
    decreases |entries|
  {
    var existing := ExistingIngredients(lines, recipe);
    if entries != [] {
      var init, e := entries[..|entries| - 1], entries[|entries| - 1];
      MergeFailsIff(lines, recipe, init);
      var prev := MergeIngredients(lines, recipe, existing, init);
      if e.id in existing {
        CountLinesPositive(lines, recipe, e.id);
        MergeKeepsCounts(lines, recipe, existing, init, e.id);
      }
      if exists j :: 0 <= j < |init| && init[j].id in existing && CountLines(lines, recipe, init[j].id) >= 2 {
        var j :| 0 <= j < |init| && init[j].id in existing && CountLines(lines, recipe, init[j].id) >= 2;
        assert entries[j] == init[j];
      }
      if exists j :: 0 <= j < |entries| && entries[j].id in existing && CountLines(lines, recipe, entries[j].id) >= 2 {
        var j :| 0 <= j < |entries| && entries[j].id in existing && CountLines(lines, recipe, entries[j].id) >= 2;
        if j < |init| {
          assert init[j] == entries[j];
        }
      }
    }
  }

  /** Once the loop has failed, later entries change nothing. */
  lemma {:induction false} MergeStaysFailed(lines: seq<IngredientLine>, recipe: RecipeId, existing: set<IngredientId>,
                                            entries: seq<IngredientEntry>, i: nat)
    requires i <= |entries| && MergeIngredients(lines, recipe, existing, entries[..i]).failed
    ensures MergeIngredients(lines, recipe, existing, entries) == MergeIngredients(lines, recipe, existing, entries[..i])
    decreases |entries|
  {
    if i == |entries| {
      assert entries[..i] == entries;
    } else {
      var init := entries[..|entries| - 1];
      assert init[..i] == entries[..i];
      MergeStaysFailed(lines, recipe, existing, init, i);
    }
  }

  datatype UpdateError = LineLookupFailed(ingredient: IngredientId)

  /** A recipe saved with two entries for one ingredient, which validation lets
      through when the amounts differ, gets two lines for it; every later update
      whose ingredients name that ingredient then fails its single-row lookup. */
  lemma RepeatedIngredientBlocksUpdate(recipe: RecipeId, ingredient: IngredientId, a: int, b: int,
                                       later: seq<IngredientEntry>, j: nat)
    requires j < |later| && later[j].id == ingredient
    ensures var lines := LinesFor(recipe, [IngredientEntry(ingredient, a), IngredientEntry(ingredient, b)]);
      MergeIngredients(lines, recipe, ExistingIngredients(lines, recipe), later).failed
  {
    var lines := LinesFor(recipe, [IngredientEntry(ingredient, a), IngredientEntry(ingredient, b)]);
    assert lines == [IngredientLine(recipe, ingredient, a), IngredientLine(recipe, ingredient, b)];
    assert lines[0].recipe == recipe && lines[0].ingredient == ingredient;
    assert lines[0].ingredient in ExistingIngredients(lines, recipe);
    assert lines[..1] == [lines[0]] && lines[..1][..0] == [];
    assert CountLines(lines[..1], recipe, ingredient) == 1;
    assert CountLines(lines, recipe, ingredient) == 2;
    MergeFailsIff(lines, recipe, later);
  }

  /** The ingredient loop of `update`: for each entry, an ingredient the recipe
      already listed (before the loop) has its single line's amount overwritten, any
      other ingredient gets a new line. A lookup that does not find exactly one line
      stops the loop with an error; the writes made before it stay. */
  method UpdateIngredients(db: Database, id: RecipeId, entries: seq<IngredientEntry>) returns (r: Outcome<UpdateError>)
    requires db.Valid() && id in db.tables.recipes
    requires forall k :: 0 <= k < |entries| ==> entries[k].id in db.tables.ingredients
    modifies db
    ensures db.Valid()
    ensures var merge := MergeIngredients(old(db.tables.lines), id, ExistingIngredients(old(db.tables.lines), id), entries);
      && (r.Pass? <==> !merge.failed)
      && db.tables == old(db.tables).(lines := merge.lines)
  {
    var existing := ExistingIngredients(db.tables.lines, id);
    ghost var start := db.tables;
    for i := 0 to |entries|
      invariant db.tables == start.(lines := MergeIngredients(start.lines, id, existing, entries[..i]).lines)
      invariant !MergeIngredients(start.lines, id, existing, entries[..i]).failed
      invariant LineKeys(start, db.tables.lines)
    {
      var e := entries[i];
      assert entries[..i + 1][..i] == entries[..i];
      if e.id in existing {
        if CountLines(db.tables.lines, id, e.id) != 1 {
          MergeStaysFailed(start.lines, id, existing, entries, i + 1);
          ReplaceLinesConsistent(start, db.tables.lines);
          return Fail(LineLookupFailed(e.id));
        }
        db.tables := db.tables.(lines := SetAmount(db.tables.lines, id, e.id, e.amount));
      } else {
        db.tables := db.tables.(lines := db.tables.lines + [IngredientLine(id, e.id, e.amount)]);
      }
    }
    assert entries[..|entries|] == entries;
    ReplaceLinesConsistent(start, db.tables.lines);
    r := Pass;
  }

  /** `update`: replaces the tag set when tags are given, runs the ingredient loop
      when ingredients are given, then writes the plain fields. A failed line lookup
      stops the update; the writes made before it stay. */
  method Update(db: Database, id: RecipeId, changes: RecipeChanges) returns (r: Outcome<UpdateError>)
    requires db.Valid() && id in db.tables.recipes
    requires changes.tags.Some? ==>
      forall k :: 0 <= k < |changes.tags.value| ==> changes.tags.value[k] in db.tables.tags
    requires changes.ingredients.Some? ==>
      forall k :: 0 <= k < |changes.ingredients.value| ==> changes.ingredients.value[k].id in db.tables.ingredients
    modifies db
    ensures db.Valid()
    ensures var lines := old(db.tables.lines);
      var merge := MergeIngredients(lines, id, ExistingIngredients(lines, id), changes.ingredients.GetOr([]));
      var recipe := old(db.tables.recipes[id]);
      var tagged := if changes.tags.Some? then recipe.(tags := set t | t in changes.tags.value) else recipe;
      && (r.Pass? <==> !merge.failed)
      && db.tables == old(db.tables).(
           recipes := old(db.tables.recipes)[id := if r.Pass? then ApplyFields(tagged, changes) else tagged],
           lines := merge.lines)
  {
    if changes.tags.Some? {
      var recipe := db.tables.recipes[id];
      db.tables := db.tables.(recipes := db.tables.recipes[id := recipe.(tags := set t | t in changes.tags.value)]);
    }
    if changes.ingredients.Some? {
      r := UpdateIngredients(db, id, changes.ingredients.value);
      if r.Fail? {
        return;
      }
    }
    var recipe := db.tables.recipes[id];
    db.tables := db.tables.(recipes := db.tables.recipes[id := ApplyFields(recipe, changes)]);
    r := Pass;
  }
}
