/** The plain-text cart message: a date header followed by a blank line and one
    line per ingredient total. */
module ShoppingCartMessage {
  import opened Text
  import opened ShoppingList

  /** One ingredient of the message: dash, capitalised name, unit in parentheses,
      then " - " and the amount. */
  function MessageLine(total: IngredientTotal, capitalize: string -> string): string {
    "- " + capitalize(total.name) + " (" + total.measurementUnit + ") - " + IntToString(total.amount)
  }

  function MessageLines(totals: seq<IngredientTotal>, capitalize: string -> string): seq<string> {
    seq(|totals|, k requires 0 <= k < |totals| => MessageLine(totals[k], capitalize))
  }

  /** `send_message`: the header, a blank line, then the ingredient lines joined by
      newlines with no trailing newline. */
  function SendMessage(totals: seq<IngredientTotal>, date: string, capitalize: string -> string): (r: string)
    ensures |r| >= |DATE_PREFIX + date + "\n\n"|
    ensures r[..|DATE_PREFIX + date + "\n\n"|] == DATE_PREFIX + date + "\n\n"
    ensures totals == [] <==> r == DATE_PREFIX + date + "\n\n"
  {
    var header := DATE_PREFIX + date + "\n\n";
    var body := Join(MessageLines(totals, capitalize), "\n");
    assert totals != [] ==> |body| > 0 by {
      if totals != [] {
        assert |MessageLine(totals[0], capitalize)| > 0;
        JoinStartsWithFirst(MessageLines(totals, capitalize), "\n");
      }
    }
    assert (header + body)[..|header|] == header;
    header + body
  }

  /** A join starts with its first part. */
  lemma {:induction false} JoinStartsWithFirst(parts: seq<string>, sep: string)
    requires |parts| >= 1
    ensures |Join(parts, sep)| >= |parts[0]|
    ensures Join(parts, sep)[..|parts[0]|] == parts[0]
  {
    if |parts| > 1 {
      assert Join(parts, sep) == parts[0] + (sep + Join(parts[1..], sep));
    }
  }

  /** The header's two newlines split off the date and an empty line. */
  lemma HeaderLines(date: string, body: string)
    requires '\n' !in date
    ensures Split(DATE_PREFIX + date + "\n\n" + body, '\n') == [DATE_PREFIX + date, ""] + Split(body, '\n')
  {
    assert DATE_PREFIX + date + "\n\n" + body == (DATE_PREFIX + date) + ['\n'] + ("" + ['\n'] + body);
    SplitAtSeparator(DATE_PREFIX + date, "" + ['\n'] + body, '\n');
    SplitAtSeparator("", body, '\n');
  }

  /** Read back line by line, the message is the date, an empty line, and then
      exactly one line per ingredient total in input order (a single empty line
      when there are none). */
  lemma MessageLayout(totals: seq<IngredientTotal>, date: string, capitalize: string -> string)
    requires '\n' !in date
    requires forall k :: 0 <= k < |totals| ==>
      '\n' !in capitalize(totals[k].name) && '\n' !in totals[k].measurementUnit
    ensures Split(SendMessage(totals, date, capitalize), '\n')
      == [DATE_PREFIX + date, ""] + (if totals == [] then [""] else MessageLines(totals, capitalize))
  {
    var items := MessageLines(totals, capitalize);
    var body := Join(items, "\n");
    assert SendMessage(totals, date, capitalize) == DATE_PREFIX + date + "\n\n" + body;
    HeaderLines(date, body);
    if totals != [] {
      forall k | 0 <= k < |items| ensures '\n' !in items[k] {
        IntToStringSingleLine(totals[k].amount);
      }
      SplitJoin(items, '\n');
    }
  }
}
