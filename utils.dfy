/** The downloadable shopping list: a date header, the numbered ingredient totals
    and the names of the recipes in the cart, one per line. The date and the
    capitalisation of ingredient names are supplied by the caller. */
module ShoppingList {
  import opened Text

  /** One ingredient row given for the user's cart: name, unit and amount, taken as supplied. */
  datatype IngredientTotal = IngredientTotal(name: string, measurementUnit: string, amount: int)

  const DATE_PREFIX := "Дата: "
  const INGREDIENTS_HEADING := "Список покупок:"
  const RECIPES_HEADING := "Список рецептов:"

  /** The ingredient line numbered `position`: number, dot, capitalised name,
      unit in parentheses, then " -" and the amount. */
  function ItemLine(position: nat, total: IngredientTotal, capitalize: string -> string): string {
    NatToString(position) + "." + capitalize(total.name) + "(" + total.measurementUnit + ") -"
      + IntToString(total.amount)
  }

  /** The lines of the list, in order. */
  function Lines(totals: seq<IngredientTotal>, recipes: seq<string>, date: string,
                 capitalize: string -> string): seq<string>
  {
    [DATE_PREFIX + date, INGREDIENTS_HEADING]
      + seq(|totals|, k requires 0 <= k < |totals| => ItemLine(k + 1, totals[k], capitalize))
      + [RECIPES_HEADING]
      + seq(|recipes|, k requires 0 <= k < |recipes| => "- " + recipes[k])
  }

  /** `make_shopping_list`: the lines joined by newlines. */
  function MakeShoppingList(totals: seq<IngredientTotal>, recipes: seq<string>, date: string,
                            capitalize: string -> string): string
  {
    Join(Lines(totals, recipes, date, capitalize), "\n")
  }

  /** No field of the list can break a line. */
  predicate SingleLineFields(totals: seq<IngredientTotal>, recipes: seq<string>, date: string,
                             capitalize: string -> string)
  {
    && '\n' !in date
    && (forall k :: 0 <= k < |totals| ==> '\n' !in capitalize(totals[k].name) && '\n' !in totals[k].measurementUnit)
    && (forall k :: 0 <= k < |recipes| ==> '\n' !in recipes[k])
  }

  lemma ItemLineSingle(position: nat, total: IngredientTotal, capitalize: string -> string)
    requires '\n' !in capitalize(total.name) && '\n' !in total.measurementUnit
    ensures '\n' !in ItemLine(position, total, capitalize)
  {
    IntToStringSingleLine(total.amount);
  }

  /** Reading the list back line by line gives: the date, the ingredient heading,
      exactly one line per ingredient total in input order numbered from 1, the
      recipe heading, and exactly one line per recipe in input order, so the list
      has `|totals| + |recipes| + 3` lines. */
  lemma {:induction false} ShoppingListLayout(totals: seq<IngredientTotal>, recipes: seq<string>, date: string,
                                              capitalize: string -> string)
    requires SingleLineFields(totals, recipes, date, capitalize)
    ensures var lines := Split(MakeShoppingList(totals, recipes, date, capitalize), '\n');
      && |lines| == |totals| + |recipes| + 3
      && lines[0] == DATE_PREFIX + date
      && lines[1] == INGREDIENTS_HEADING
      && (forall k :: 0 <= k < |totals| ==> lines[k + 2] == ItemLine(k + 1, totals[k], capitalize))
      && lines[|totals| + 2] == RECIPES_HEADING
      && (forall k :: 0 <= k < |recipes| ==> lines[|totals| + 3 + k] == "- " + recipes[k])
  {
    var lines := Lines(totals, recipes, date, capitalize);
    forall i | 0 <= i < |lines| ensures '\n' !in lines[i] {
      if 2 <= i < |totals| + 2 {
        ItemLineSingle(i - 1, totals[i - 2], capitalize);
      }
    }
    SplitJoin(lines, '\n');
  }

  /** The number in front of each ingredient line reads back as its position. */
  lemma ItemNumber(position: nat, total: IngredientTotal, capitalize: string -> string)
    ensures Split(ItemLine(position, total, capitalize), '.')[0] == NatToString(position)
    ensures ParseNat(Split(ItemLine(position, total, capitalize), '.')[0]) == position
  {
    var digits := NatToString(position);
    var rest := capitalize(total.name) + "(" + total.measurementUnit + ") -" + IntToString(total.amount);
    assert ItemLine(position, total, capitalize) == digits + ['.'] + rest;
    assert '.' !in digits by {
      forall k | 0 <= k < |digits| ensures digits[k] != '.' {
        assert IsDigit(digits[k]);
      }
    }
    SplitAtSeparator(digits, rest, '.');
    ParseNatToString(position);
  }
}
