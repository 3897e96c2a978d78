/** The stored entities of the recipe application and the constraints the database
    declares over them: unique pairs, the no-self-follow check, unique catalog keys,
    foreign keys and cascading deletes. The database itself is one `Tables` value,
    held by the `Database` object that the views and serializers update. */
module Models {
  import opened Seqs

  type UserId = int
  type RecipeId = int
  type IngredientId = int
  type TagId = int

  datatype User = User(username: string, email: string, firstName: string, lastName: string)

  datatype Ingredient = Ingredient(name: string, measurementUnit: string)

  datatype Tag = Tag(name: string, color: string, slug: string)

  /** A recipe row together with its many-to-many tag set. */
  datatype Recipe = Recipe(
    author: UserId,
    name: string,
    image: string,
    text: string,
    cookingTime: int,
    tags: set<TagId>)

  /** One row of the recipe/ingredient join table, carrying the amount. */
  datatype IngredientLine = IngredientLine(recipe: RecipeId, ingredient: IngredientId, amount: int)

  /** A row of the favorites table or of the shopping-cart table. */
  datatype Membership = Membership(user: UserId, recipe: RecipeId)

  /** A row of the follow table: `user` subscribes to `author`. */
  datatype Follow = Follow(user: UserId, author: UserId)

  /** The two tables of (user, recipe) pairs that share one add/remove operation. */
  datatype MembershipTable = FavoriteTable | ShoppingCartTable

  /** All tables. Rows of the join and pair tables are kept in insertion order;
      `nextRecipeId` is the next value of the recipe primary-key sequence. */
  datatype Tables = Tables(
    users: map<UserId, User>,
    ingredients: map<IngredientId, Ingredient>,
    tags: map<TagId, Tag>,
    recipes: map<RecipeId, Recipe>,
    nextRecipeId: nat,
    lines: seq<IngredientLine>,
    favorites: seq<Membership>,
    cart: seq<Membership>,
    follows: seq<Follow>)

  function Rows(t: Tables, table: MembershipTable): seq<Membership> {
    match table
    case FavoriteTable => t.favorites
    case ShoppingCartTable => t.cart
  }

  function WithRows(t: Tables, table: MembershipTable, rows: seq<Membership>): (r: Tables)
    ensures Rows(r, table) == rows
  {
    match table
    case FavoriteTable => t.(favorites := rows)
    case ShoppingCartTable => t.(cart := rows)
  }

  /** Email and username are each unique among users. */
  ghost predicate UniqueUsers(users: map<UserId, User>) {
    forall a, b :: a in users && b in users && a != b ==>
      users[a].email != users[b].email && users[a].username != users[b].username
  }

  /** No two ingredients share both name and measurement unit. */
  ghost predicate UniqueIngredients(ingredients: map<IngredientId, Ingredient>) {
    forall a, b :: a in ingredients && b in ingredients && a != b ==>
      ingredients[a].name != ingredients[b].name ||
      ingredients[a].measurementUnit != ingredients[b].measurementUnit
  }

  /** Tag name, color and slug are each unique among tags. */
  ghost predicate UniqueTags(tags: map<TagId, Tag>) {
    forall a, b :: a in tags && b in tags && a != b ==>
      tags[a].name != tags[b].name && tags[a].color != tags[b].color && tags[a].slug != tags[b].slug
  }

  /** The check constraint on follows: nobody follows themselves. */
  ghost predicate NoSelfFollow(follows: seq<Follow>) {
    forall k :: 0 <= k < |follows| ==> follows[k].user != follows[k].author
  }

  ghost predicate FollowKeys(t: Tables) {
    forall k :: 0 <= k < |t.follows| ==> t.follows[k].user in t.users && t.follows[k].author in t.users
  }

  ghost predicate MembershipKeys(t: Tables, rows: seq<Membership>) {
    forall k :: 0 <= k < |rows| ==> rows[k].user in t.users && rows[k].recipe in t.recipes
  }

  ghost predicate RecipeKeys(t: Tables) {
    forall id :: id in t.recipes ==>
      id < t.nextRecipeId && t.recipes[id].author in t.users && t.recipes[id].tags <= t.tags.Keys
  }

  ghost predicate LineKeys(t: Tables, lines: seq<IngredientLine>) {
    forall k :: 0 <= k < |lines| ==> lines[k].recipe in t.recipes && lines[k].ingredient in t.ingredients
  }

  /** Every constraint the schema declares. The ingredient lines carry no unique
      constraint: only their foreign keys are checked. */
  ghost predicate Consistent(t: Tables) {
    && UniqueUsers(t.users)
    && UniqueIngredients(t.ingredients)
    && UniqueTags(t.tags)
    && NoDuplicates(t.follows)
    && NoSelfFollow(t.follows)
    && FollowKeys(t)
    && NoDuplicates(t.favorites)
    && MembershipKeys(t, t.favorites)
    && NoDuplicates(t.cart)
    && MembershipKeys(t, t.cart)
    && RecipeKeys(t)
    && LineKeys(t, t.lines)
  }

  /** Inserting a follow row is accepted by the schema exactly when the pair is new,
      is not a self-follow, and both users exist. */
  lemma AddFollowConsistent(t: Tables, f: Follow)
    requires Consistent(t)
    ensures Consistent(t.(follows := t.follows + [f])) <==>
      f !in t.follows && f.user != f.author && f.user in t.users && f.author in t.users
  {
    NoDuplicatesSnoc(t.follows, f);
    var t' := t.(follows := t.follows + [f]);
    if Consistent(t') {
      assert t'.follows[|t.follows|] == f;
    }
  }

  /** Inserting a favorite or cart row is accepted by the schema exactly when the
      pair is new and both the user and the recipe exist. */
  lemma AddMembershipConsistent(t: Tables, table: MembershipTable, m: Membership)
    requires Consistent(t)
    ensures Consistent(WithRows(t, table, Rows(t, table) + [m])) <==>
      m !in Rows(t, table) && m.user in t.users && m.recipe in t.recipes
  {
    var rows := Rows(t, table);
    NoDuplicatesSnoc(rows, m);
    var t' := WithRows(t, table, rows + [m]);
    if Consistent(t') {
      assert Rows(t', table)[|rows|] == m;
    }
  }

  /** Adding an ingredient to the catalog is accepted exactly when no other
      ingredient has the same name and measurement unit. */
  lemma AddIngredientConsistent(t: Tables, id: IngredientId, ing: Ingredient)
    requires Consistent(t) && id !in t.ingredients
    ensures Consistent(t.(ingredients := t.ingredients[id := ing])) <==>
      forall j :: j in t.ingredients ==>
        t.ingredients[j].name != ing.name || t.ingredients[j].measurementUnit != ing.measurementUnit
  {
    var t' := t.(ingredients := t.ingredients[id := ing]);
    if Consistent(t') {
      forall j | j in t.ingredients
        ensures t.ingredients[j].name != ing.name || t.ingredients[j].measurementUnit != ing.measurementUnit
      {
        assert t'.ingredients[j] == t.ingredients[j] && t'.ingredients[id] == ing;
      }
    }
  }

  /** Adding a tag is accepted exactly when its name, its color and its slug are all unused. */
  lemma AddTagConsistent(t: Tables, id: TagId, tag: Tag)
    requires Consistent(t) && id !in t.tags
    ensures Consistent(t.(tags := t.tags[id := tag])) <==>
      forall j :: j in t.tags ==>
        t.tags[j].name != tag.name && t.tags[j].color != tag.color && t.tags[j].slug != tag.slug
  {
    var t' := t.(tags := t.tags[id := tag]);
    if Consistent(t') {
      forall j | j in t.tags
        ensures t.tags[j].name != tag.name && t.tags[j].color != tag.color && t.tags[j].slug != tag.slug
      {
        assert t'.tags[j] == t.tags[j] && t'.tags[id] == tag;
      }
    }
  }

  /** The schema accepts any ingredient lines whose keys exist, repeated
      (recipe, ingredient) pairs included: nothing in storage stops a recipe from
      listing one ingredient twice. */
  lemma AddLinesConsistent(t: Tables, extra: seq<IngredientLine>)
    requires Consistent(t)
    ensures Consistent(t.(lines := t.lines + extra)) <==> LineKeys(t, extra)
  {
    var t' := t.(lines := t.lines + extra);
    if LineKeys(t, extra) {
      forall k | 0 <= k < |t'.lines|
        ensures t'.lines[k].recipe in t.recipes && t'.lines[k].ingredient in t.ingredients
      {
        if k >= |t.lines| {
          assert t'.lines[k] == extra[k - |t.lines|];
        }
      }
    }
    if Consistent(t') {
      forall k | 0 <= k < |extra|
        ensures extra[k].recipe in t.recipes && extra[k].ingredient in t.ingredients
      {
        assert t'.lines[|t.lines| + k] == extra[k];
      }
    }
  }

  /** Replacing the ingredient lines keeps the database consistent when the new
      lines' keys exist. */
  lemma ReplaceLinesConsistent(t: Tables, lines: seq<IngredientLine>)
    requires Consistent(t) && LineKeys(t, lines)
    ensures Consistent(t.(lines := lines))
  {
  }

  function LineNotOf(id: RecipeId): IngredientLine -> bool {
    (l: IngredientLine) => l.recipe != id
  }

  function RowNotOf(id: RecipeId): Membership -> bool {
    (m: Membership) => m.recipe != id
  }

  /** The tables after removing recipe `id` and the rows that refer to it. */
  function Cascade(t: Tables, id: RecipeId): Tables {
    t.(recipes := t.recipes - {id},
       lines := Filter(t.lines, LineNotOf(id)),
       favorites := Filter(t.favorites, RowNotOf(id)),
       cart := Filter(t.cart, RowNotOf(id)))
  }

  lemma CascadeConsistent(t: Tables, id: RecipeId)
    requires Consistent(t) && id in t.recipes
    ensures Consistent(Cascade(t, id))
  {
    var r := Cascade(t, id);
    FilterNoDuplicates(t.favorites, RowNotOf(id));
    FilterNoDuplicates(t.cart, RowNotOf(id));
    assert LineKeys(r, r.lines) by {
      forall k | 0 <= k < |r.lines| ensures r.lines[k].recipe in r.recipes && r.lines[k].ingredient in r.ingredients {
        assert r.lines[k] in t.lines;
      }
    }
    assert MembershipKeys(r, r.favorites) by {
      forall k | 0 <= k < |r.favorites| ensures r.favorites[k].user in r.users && r.favorites[k].recipe in r.recipes {
        assert r.favorites[k] in t.favorites;
      }
    }
    assert MembershipKeys(r, r.cart) by {
      forall k | 0 <= k < |r.cart| ensures r.cart[k].user in r.users && r.cart[k].recipe in r.recipes {
        assert r.cart[k] in t.cart;
      }
    }
  }

  lemma CascadeCounts(t: Tables, id: RecipeId)
    ensures forall l: IngredientLine :: l.recipe != id ==> multiset(Cascade(t, id).lines)[l] == multiset(t.lines)[l]
    ensures forall m: Membership :: m.recipe != id ==> multiset(Cascade(t, id).favorites)[m] == multiset(t.favorites)[m]
    ensures forall m: Membership :: m.recipe != id ==> multiset(Cascade(t, id).cart)[m] == multiset(t.cart)[m]
  {
    FilterCounts(t.lines, LineNotOf(id));
    FilterCounts(t.favorites, RowNotOf(id));
    FilterCounts(t.cart, RowNotOf(id));
  }

  /** Deleting a recipe cascades to its ingredient lines, favorites and cart rows;
      every row of another recipe stays, as many times as it occurred, and no row
      is added. */
  function DeleteRecipe(t: Tables, id: RecipeId): (r: Tables)
    requires Consistent(t) && id in t.recipes
    ensures Consistent(r)
    ensures r.recipes == t.recipes - {id}
    ensures forall k :: 0 <= k < |r.lines| ==> r.lines[k].recipe != id
    ensures forall k :: 0 <= k < |r.favorites| ==> r.favorites[k].recipe != id
    ensures forall k :: 0 <= k < |r.cart| ==> r.cart[k].recipe != id
    ensures forall l: IngredientLine :: l.recipe != id ==> multiset(r.lines)[l] == multiset(t.lines)[l]
    ensures forall m: Membership :: m.recipe != id ==> multiset(r.favorites)[m] == multiset(t.favorites)[m]
    ensures forall m: Membership :: m.recipe != id ==> multiset(r.cart)[m] == multiset(t.cart)[m]
    ensures r.users == t.users && r.ingredients == t.ingredients && r.tags == t.tags
    ensures r.follows == t.follows && r.nextRecipeId == t.nextRecipeId
  {
    CascadeConsistent(t, id);
    CascadeCounts(t, id);
    Cascade(t, id)
  }

  /** The database: a mutable holder of all tables. */
  class Database {
    var tables: Tables

    ghost predicate Valid()
      reads this
    {
      Consistent(tables)
    }

    /** An empty database whose catalogs (users, ingredients, tags) are loaded. */
    constructor (users: map<UserId, User>, ingredients: map<IngredientId, Ingredient>, tags: map<TagId, Tag>)
      requires UniqueUsers(users) && UniqueIngredients(ingredients) && UniqueTags(tags)
      ensures Valid()
      ensures tables == Tables(users, ingredients, tags, map[], 0, [], [], [], [])
    {
      tables := Tables(users, ingredients, tags, map[], 0, [], [], [], []);
    }
  }
}
