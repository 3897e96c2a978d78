/** The username validator: a username may hold only word characters and the
    marks `.`, `@`, `+`, `-`; otherwise the error message lists every distinct
    offending character, numbered from 1. The Unicode meaning of a word character
    is supplied by the caller as `isWord`. */
module Validators {
  import opened Outcomes
  import opened Seqs
  import opened Text

  /** The first line of the error message; the text runs on from "_" into the second sentence. */
  const HEADER_LINE := "Введите корректный логин. Он может содержать только буквы, цифры и следущие знаки: @/./+/-/_Текущий логин содержит недопустимые символы:"
  const SPACE_SHOWN := "(пробел)"

  predicate Allowed(c: char, isWord: char -> bool) {
    isWord(c) || c in ".@+-"
  }

  function Disallowed(isWord: char -> bool): char -> bool {
    c => !Allowed(c, isWord)
  }

  /** `re.findall` with the complement of the allowed class: every disallowed
      character of `username`, in order and with its repetitions. */
  function FindInvalid(username: string, isWord: char -> bool): seq<char> {
    Filter(username, Disallowed(isWord))
  }

  /** The set of the matches: the distinct characters of `username` outside the
      allowed class. */
  function InvalidCharacters(username: string, isWord: char -> bool): (r: set<char>)
    ensures forall c :: c in r <==> c in username && !Allowed(c, isWord)
  {
    set c | c in FindInvalid(username, isWord)
  }

  /** The matches hold every occurrence of each disallowed character of the
      username, and nothing else. */
  lemma FindInvalidOccurrences(username: string, isWord: char -> bool)
    ensures forall c :: multiset(FindInvalid(username, isWord))[c]
                        == if Allowed(c, isWord) then 0 else multiset(username)[c]
  {
    FilterCounts(username, Disallowed(isWord));
  }

  /** How a character is shown in the message: a space is spelled out. */
  function Shown(c: char): string {
    if c == ' ' then SPACE_SHOWN else [c]
  }

  /** The text of entry number `index` (without its newline). */
  function Line(index: nat, c: char): string {
    NatToString(index) + ". " + Shown(c)
  }

  /** The entries for `order`, numbered from `first`, each ended by a newline. */
  function Entries(order: seq<char>, first: nat): string {
    if order == [] then "" else Line(first, order[0]) + "\n" + Entries(order[1..], first + 1)
  }

  /** The full error message for the invalid characters listed in `order`. */
  function Message(order: seq<char>): string {
    HEADER_LINE + "\n" + Entries(order, 1)
  }

  /** `order` lists each element of `s` exactly once. */
  ghost predicate Enumerates(order: seq<char>, s: set<char>) {
    NoDuplicates(order) && forall c :: c in order <==> c in s
  }

  /** `validate_username`: passes exactly when every character is allowed (so the
      empty username passes); otherwise fails with the message that lists the
      distinct invalid characters, each once, in some iteration order of the set. */
  method ValidateUsername(username: string, isWord: char -> bool) returns (r: Outcome<string>)
    ensures r.Pass? <==> forall k :: 0 <= k < |username| ==> Allowed(username[k], isWord)
    ensures r.Fail? ==> exists order :: Enumerates(order, InvalidCharacters(username, isWord)) && r.error == Message(order)
  {
    var invalid := InvalidCharacters(username, isWord);
    NoInvalidIffAllowed(username, isWord);
    if invalid == {} {
      return Pass;
    }
    var message := ListCharacters(invalid);
    return Fail(message);
  }

  /** The invalid set is empty exactly when every character is allowed. */
  lemma NoInvalidIffAllowed(username: string, isWord: char -> bool)
    ensures InvalidCharacters(username, isWord) == {}
        <==> forall k :: 0 <= k < |username| ==> Allowed(username[k], isWord)
  {
    var invalid := InvalidCharacters(username, isWord);
    if invalid != {} {
      var c :| c in invalid;
      var k :| 0 <= k < |username| && username[k] == c;
      assert !Allowed(username[k], isWord);
    } else {
      forall k | 0 <= k < |username| ensures Allowed(username[k], isWord) {
        assert username[k] !in invalid;
      }
    }
  }

  /** The loop that builds the message, taking the characters of `invalid` in
      whatever order the set yields them and numbering them from 1. */
  method ListCharacters(invalid: set<char>) returns (message: string)
    ensures exists order :: Enumerates(order, invalid) && message == Message(order)
  {
    var entries := "";
    var remaining := invalid;
    var index := 1;
    ghost var order: seq<char> := [];
    while remaining != {}
      invariant remaining <= invalid
      invariant NoDuplicates(order)
      invariant forall c :: c in order <==> c in invalid && c !in remaining
      invariant index == |order| + 1
      invariant entries == Entries(order, 1)
      decreases |remaining|
    {
      var c :| c in remaining;
      EntriesSnoc(order, c, 1);
      NoDuplicatesSnoc(order, c);
      entries := entries + Line(index, c) + "\n";
      order := order + [c];
      remaining := remaining - {c};
      index := index + 1;
    }
    assert Enumerates(order, invalid);
    message := HEADER_LINE + "\n" + entries;
  }

  /** Appending a character adds the next-numbered entry at the end. */
  lemma {:induction false} EntriesSnoc(order: seq<char>, c: char, first: nat)
    ensures Entries(order + [c], first) == Entries(order, first) + Line(first + |order|, c) + "\n"
  {
    if order != [] {
      assert (order + [c])[1..] == order[1..] + [c];
      EntriesSnoc(order[1..], c, first + 1);
    }
  }

  /** A listing of a set has exactly one entry per element. */
  lemma {:induction false} EnumerationSize(order: seq<char>, s: set<char>)
    requires Enumerates(order, s)
    ensures |order| == |s|
  {
    if order != [] {
      var rest := order[1..];
      NoDuplicatesCons(order[0], rest);
      assert [order[0]] + rest == order;
      assert Enumerates(rest, s - {order[0]});
      EnumerationSize(rest, s - {order[0]});
    }
  }

  lemma LineSingle(index: nat, c: char)
    requires c != '\n'
    ensures '\n' !in Line(index, c)
  {
    var digits := NatToString(index);
    forall k | 0 <= k < |digits| ensures digits[k] != '\n' {
      assert IsDigit(digits[k]);
    }
  }

  /** The entry lines numbered from `first`, without their newlines. */
  function EntryLines(order: seq<char>, first: nat): (r: seq<string>)
    ensures |r| == |order|
  {
    seq(|order|, k requires 0 <= k < |order| => Line(first + k, order[k]))
  }

  lemma EntryLinesCons(order: seq<char>, first: nat)
    requires order != []
    ensures EntryLines(order, first) == [Line(first, order[0])] + EntryLines(order[1..], first + 1)
  {
  }

  /** Read back line by line, the entries are numbered consecutively from `first`
      in the listing order, followed by the empty piece after the last newline. */
  lemma {:induction false} EntriesLayout(order: seq<char>, first: nat)
    requires '\n' !in order
    ensures Split(Entries(order, first), '\n') == EntryLines(order, first) + [""]
  {
    if order != [] {
      var head, rest := Line(first, order[0]), Entries(order[1..], first + 1);
      LineSingle(first, order[0]);
      assert '\n' !in order[1..];
      EntriesLayout(order[1..], first + 1);
      assert Entries(order, first) == head + ['\n'] + rest;
      SplitAtSeparator(head, rest, '\n');
      EntryLinesCons(order, first);
    }
  }
}
