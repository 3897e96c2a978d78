/** The API actions that change or read membership state: adding a recipe to and
    removing it from the favorites or the shopping cart, downloading the shopping
    list, subscribing to and unsubscribing from an author, and listing the authors
    a user follows. Each works on the shared `Database`; framework plumbing
    (routing, permissions, serializers' output shapes) is reduced to the response
    kind and the few fields the actions decide. */
module Views {
  import opened Outcomes
  import opened Seqs
  import opened Models
  import opened Serializers
  import ShoppingList

  datatype HttpMethod = Post | Delete

  /** Why a request was refused with status 400. */
  datatype Reason =
    | RecipeDoesNotExist
    | AlreadyAdded
    | NotInList
    | AlreadyFollowing
    | FollowingSelf
    | EmptyCart

  /** The short recipe form returned after an add. */
  datatype RecipeShort = RecipeShort(id: RecipeId, name: string, image: string, cookingTime: int)

  datatype Body =
    | ShortRecipe(recipe: RecipeShort)
    | SubscribedAuthor(author: UserId, username: string, isSubscribed: bool)

  datatype Response =
    | Created(body: Body)
    | NoContent
    | BadRequest(reason: Reason)
    | NotFound
    | Attachment(text: string, filename: string)
  {
    function Status(): int {
      match this
      case Created(_) => 201
      case NoContent => 204
      case BadRequest(_) => 400
      case NotFound => 404
      case Attachment(_, _) => 200
    }
  }

  function Short(id: RecipeId, recipe: Recipe): RecipeShort {
    RecipeShort(id, recipe.name, recipe.image, recipe.cookingTime)
  }

  /** What `add_to` does to `table`, between the tables before and after and the
      response: a missing recipe or an existing pair is refused with 400 and
      changes nothing; otherwise exactly the pair is appended and 201 carries the
      short recipe form. */
  ghost predicate AddedTo(before: Tables, after: Tables, table: MembershipTable, user: UserId, pk: RecipeId,
                          r: Response)
  {
    && (pk !in before.recipes ==> r == BadRequest(RecipeDoesNotExist) && after == before)
    && (pk in before.recipes && Membership(user, pk) in Rows(before, table) ==>
          r == BadRequest(AlreadyAdded) && after == before)
    && (pk in before.recipes && Membership(user, pk) !in Rows(before, table) ==>
          && r == Created(ShortRecipe(Short(pk, before.recipes[pk])))
          && after == WithRows(before, table, Rows(before, table) + [Membership(user, pk)]))
  }

  /** What `delete_from` does to `table`: a missing recipe is 404 and an absent
      pair 400, both changing nothing; otherwise exactly the pair is deleted and
      204 is returned. */
  ghost predicate DeletedFrom(before: Tables, after: Tables, table: MembershipTable, user: UserId, pk: RecipeId,
                              r: Response)
  {
    && (pk !in before.recipes ==> r == NotFound && after == before)
    && (pk in before.recipes && Membership(user, pk) !in Rows(before, table) ==>
          r == BadRequest(NotInList) && after == before)
    && (pk in before.recipes && Membership(user, pk) in Rows(before, table) ==>
          && r == NoContent
          && after == WithRows(before, table, Without(Rows(before, table), Membership(user, pk))))
  }

  /** `add_to`: adds the pair (user, recipe) to the favorites or the cart. A missing
      recipe and an existing pair are refused with 400 and change nothing; otherwise
      exactly that row is appended and the short recipe form is returned with 201. */
  method AddTo(db: Database, table: MembershipTable, user: UserId, pk: RecipeId) returns (r: Response)
    requires db.Valid() && user in db.tables.users
    modifies db
    ensures db.Valid()
    ensures AddedTo(old(db.tables), db.tables, table, user, pk, r)
    ensures r.Created? ==> |Rows(db.tables, table)| == |old(Rows(db.tables, table))| + 1
    ensures r.Status() in {201, 400}
  {
    if pk !in db.tables.recipes {
      return BadRequest(RecipeDoesNotExist);
    }
    var rows := Rows(db.tables, table);
    var row := Membership(user, pk);
    if row in rows {
      return BadRequest(AlreadyAdded);
    }
    var recipe := db.tables.recipes[pk];
    AddMembershipConsistent(db.tables, table, row);
    db.tables := WithRows(db.tables, table, rows + [row]);
    r := Created(ShortRecipe(Short(pk, recipe)));
  }

  /** `delete_from`: removes the pair (user, recipe) from the favorites or the cart.
      A missing recipe is 404 and an absent pair is refused with 400, both changing
      nothing; otherwise exactly that one row is deleted and 204 is returned. */
  method DeleteFrom(db: Database, table: MembershipTable, user: UserId, pk: RecipeId) returns (r: Response)
    requires db.Valid()
    modifies db
    ensures db.Valid()
    ensures DeletedFrom(old(db.tables), db.tables, table, user, pk, r)
    ensures r.NoContent? ==> |Rows(db.tables, table)| == |old(Rows(db.tables, table))| - 1
    ensures r.Status() in {204, 400, 404}
  {
    if pk !in db.tables.recipes {
      return NotFound;
    }
    var rows := Rows(db.tables, table);
    var row := Membership(user, pk);
    if row !in rows {
      return BadRequest(NotInList);
    }
    var rest := Without(rows, row);
    WithoutRemovesOne(rows, row);
    WithoutNoDuplicates(rows, row);
    assert MembershipKeys(db.tables, rest) by {
      forall k | 0 <= k < |rest| ensures rest[k].user in db.tables.users && rest[k].recipe in db.tables.recipes {
        assert rest[k] in rows;
      }
    }
    db.tables := WithRows(db.tables, table, rest);
    r := NoContent;
  }

  /** The `favorite` action: POST adds, DELETE removes; the shopping cart is never touched. */
  method Favorite(db: Database, verb: HttpMethod, user: UserId, pk: RecipeId) returns (r: Response)
    requires db.Valid() && user in db.tables.users
    modifies db
    ensures db.Valid()
    ensures db.tables == old(db.tables).(favorites := db.tables.favorites)
    ensures verb == Post ==> AddedTo(old(db.tables), db.tables, FavoriteTable, user, pk, r)
    ensures verb == Delete ==> DeletedFrom(old(db.tables), db.tables, FavoriteTable, user, pk, r)
    ensures r.Created? ==> verb == Post && IsFavorited(db.tables, Some(user), pk)
    ensures r.NoContent? ==> verb == Delete && !IsFavorited(db.tables, Some(user), pk)
  {
    if verb == Post {
      r := AddTo(db, FavoriteTable, user, pk);
    } else {
      r := DeleteFrom(db, FavoriteTable, user, pk);
    }
  }

  /** The `shopping_cart` action: POST adds, DELETE removes; the favorites are never touched. */
  method ShoppingCart(db: Database, verb: HttpMethod, user: UserId, pk: RecipeId) returns (r: Response)
    requires db.Valid() && user in db.tables.users
    modifies db
    ensures db.Valid()
    ensures db.tables == old(db.tables).(cart := db.tables.cart)
    ensures verb == Post ==> AddedTo(old(db.tables), db.tables, ShoppingCartTable, user, pk, r)
    ensures verb == Delete ==> DeletedFrom(old(db.tables), db.tables, ShoppingCartTable, user, pk, r)
    ensures r.Created? ==> verb == Post && IsInShoppingCart(db.tables, Some(user), pk)
    ensures r.NoContent? ==> verb == Delete && !IsInShoppingCart(db.tables, Some(user), pk)
  {
    if verb == Post {
      r := AddTo(db, ShoppingCartTable, user, pk);
    } else {
      r := DeleteFrom(db, ShoppingCartTable, user, pk);
    }
  }

  function OfUser(user: UserId): Membership -> bool {
    (m: Membership) => m.user == user
  }

  /** The names of the recipes in the user's cart, one per cart row, in row order. */
  function CartRecipeNames(t: Tables, user: UserId): (r: seq<string>)
    requires MembershipKeys(t, t.cart)
    ensures |r| == |Filter(t.cart, OfUser(user))|
  {
    var rows := Filter(t.cart, OfUser(user));
    seq(|rows|, k requires 0 <= k < |rows| => assert rows[k] in t.cart; t.recipes[rows[k].recipe].name)
  }

  /** `download_shopping_cart`: an empty cart is refused with 400; otherwise the
      shopping list of the given ingredient rows and of the cart's recipes is
      returned as an attachment whose filename argument is built from the username. */
  method DownloadShoppingCart(db: Database, user: UserId, totals: seq<ShoppingList.IngredientTotal>,
                              date: string, capitalize: string -> string) returns (r: Response)
    requires db.Valid() && user in db.tables.users
    ensures r == BadRequest(EmptyCart) <==> Filter(db.tables.cart, OfUser(user)) == []
    ensures r.Attachment? <==> Filter(db.tables.cart, OfUser(user)) != []
    ensures r.Attachment? ==>
      && r.filename == db.tables.users[user].username + "_shopping_list.txt"
      && r.text == ShoppingList.MakeShoppingList(totals, CartRecipeNames(db.tables, user), date, capitalize)
    ensures r.Status() in {200, 400}
  {
    var rows := Filter(db.tables.cart, OfUser(user));
    if rows == [] {
      return BadRequest(EmptyCart);
    }
    var names := CartRecipeNames(db.tables, user);
    r := Attachment(ShoppingList.MakeShoppingList(totals, names, date, capitalize),
                    db.tables.users[user].username + "_shopping_list.txt");
  }

  /** `subscribe`: a missing author is 404. POST runs the subscription validation
      (already following, then following oneself, both 400) and only then adds the
      follow row, answering 201 with the author shown as subscribed. DELETE answers
      404 when the user does not follow the author and otherwise deletes exactly that
      row, answering 204. */
  method Subscribe(db: Database, verb: HttpMethod, user: UserId, authorId: UserId) returns (r: Response)
    requires db.Valid() && user in db.tables.users
    modifies db
    ensures db.Valid()
    ensures authorId !in old(db.tables.users) ==> r == NotFound && db.tables == old(db.tables)
    ensures verb == Post && authorId in old(db.tables.users) ==>
      var check := ValidateSubscribe(old(db.tables), user, authorId);
      && (check == Fail(AlreadySubscribed) ==> r == BadRequest(AlreadyFollowing) && db.tables == old(db.tables))
      && (check == Fail(SelfSubscription) ==> r == BadRequest(FollowingSelf) && db.tables == old(db.tables))
      && (check == Pass ==>
            && db.tables == old(db.tables).(follows := old(db.tables.follows) + [Follow(user, authorId)])
            && r == Created(SubscribedAuthor(authorId, old(db.tables.users[authorId].username),
                                             IsSubscribed(db.tables, Some(user), authorId)))
            && r.body.isSubscribed)
    ensures verb == Delete && authorId in old(db.tables.users) ==>
      && (Follow(user, authorId) !in old(db.tables.follows) ==> r == NotFound && db.tables == old(db.tables))
      && (Follow(user, authorId) in old(db.tables.follows) ==>
            && r == NoContent
            && db.tables == old(db.tables).(follows := Without(old(db.tables.follows), Follow(user, authorId)))
            && |db.tables.follows| == |old(db.tables.follows)| - 1)
  {
    if authorId !in db.tables.users {
      return NotFound;
    }
    var edge := Follow(user, authorId);
    if verb == Post {
      var check := ValidateSubscribe(db.tables, user, authorId);
      if check.Fail? {
        return if check.error == AlreadySubscribed then BadRequest(AlreadyFollowing) else BadRequest(FollowingSelf);
      }
      AddFollowConsistent(db.tables, edge);
      db.tables := db.tables.(follows := db.tables.follows + [edge]);
      r := Created(SubscribedAuthor(authorId, db.tables.users[authorId].username,
                                    IsSubscribed(db.tables, Some(user), authorId)));
    } else {
      if edge !in db.tables.follows {
        return NotFound;
      }
      var rest := Without(db.tables.follows, edge);
      WithoutRemovesOne(db.tables.follows, edge);
      WithoutNoDuplicates(db.tables.follows, edge);
      assert FollowKeys(db.tables.(follows := rest)) && NoSelfFollow(rest) by {
        forall k | 0 <= k < |rest|
          ensures rest[k].user in db.tables.users && rest[k].author in db.tables.users
          ensures rest[k].user != rest[k].author
        {
          assert rest[k] in db.tables.follows;
        }
      }
      db.tables := db.tables.(follows := rest);
      r := NoContent;
    }
  }

  /** `subscriptions`: exactly the authors the user follows. */
  method Subscriptions(db: Database, user: UserId) returns (authors: set<UserId>)
    requires db.Valid()
    ensures forall a :: a in authors <==> Follow(user, a) in db.tables.follows
    ensures forall a :: a in authors <==> IsSubscribed(db.tables, Some(user), a)
    ensures authors <= db.tables.users.Keys
  {
    var follows := db.tables.follows;
    authors := set k | 0 <= k < |follows| && follows[k].user == user :: follows[k].author;
  }

  // ---------------------------------------------------------------------------
  // How the actions move the per-viewer flags

  /** After `add_to`, the favorite and cart flags differ only for the added pair,
      which becomes set in the table it was added to. */
  lemma AddToFlags(before: Tables, after: Tables, table: MembershipTable, user: UserId, pk: RecipeId,
                   r: Response, viewer: UserId, recipe: RecipeId)
    requires AddedTo(before, after, table, user, pk, r)
    ensures IsFavorited(after, Some(viewer), recipe) <==>
      IsFavorited(before, Some(viewer), recipe)
      || (r.Created? && table == FavoriteTable && viewer == user && recipe == pk)
    ensures IsInShoppingCart(after, Some(viewer), recipe) <==>
      IsInShoppingCart(before, Some(viewer), recipe)
      || (r.Created? && table == ShoppingCartTable && viewer == user && recipe == pk)
  {
  }

  /** After `delete_from`, the favorite and cart flags differ only for the deleted
      pair, which becomes clear in the table it was deleted from. */
  lemma DeleteFromFlags(before: Tables, after: Tables, table: MembershipTable, user: UserId, pk: RecipeId,
                        r: Response, viewer: UserId, recipe: RecipeId)
    requires DeletedFrom(before, after, table, user, pk, r)
    ensures IsFavorited(after, Some(viewer), recipe) <==>
      IsFavorited(before, Some(viewer), recipe)
      && !(r.NoContent? && table == FavoriteTable && viewer == user && recipe == pk)
    ensures IsInShoppingCart(after, Some(viewer), recipe) <==>
      IsInShoppingCart(before, Some(viewer), recipe)
      && !(r.NoContent? && table == ShoppingCartTable && viewer == user && recipe == pk)
  {
  }

  /** Adding a follow row sets the subscription flag for exactly that pair;
      deleting it clears the flag for exactly that pair. */
  lemma FollowFlags(t: Tables, f: Follow, viewer: UserId, shown: UserId)
    ensures IsSubscribed(t.(follows := t.follows + [f]), Some(viewer), shown) <==>
      IsSubscribed(t, Some(viewer), shown) || f == Follow(viewer, shown)
    ensures IsSubscribed(t.(follows := Without(t.follows, f)), Some(viewer), shown) <==>
      IsSubscribed(t, Some(viewer), shown) && f != Follow(viewer, shown)
  {
  }

  /** In a consistent store nobody is shown as subscribed to themselves, and the
      anonymous viewer is subscribed to nobody. */
  lemma NotSubscribedToSelf(t: Tables, u: UserId, shown: UserId)
    requires Consistent(t)
    ensures !IsSubscribed(t, Some(u), u)
    ensures !IsSubscribed(t, None, shown)
  {
    forall k | 0 <= k < |t.follows| ensures t.follows[k] != Follow(u, u) {
      assert t.follows[k].user != t.follows[k].author;
    }
  }
}
