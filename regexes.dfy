/**
 The quote-extraction pipeline of src/util/regexes.py: an ordered table of
 (pattern, group handler) rules, `addRegex`, which appends to that table, and
 `extractQuote`, which runs the first rule that matches anywhere in the text,
 keeps that rule's last match, prepends the text before it and wraps the
 quote in literal double quotes.

 The regular-expression engine is abstract: `finditer(pattern, text)` is the
 list of matches `re.finditer` yields, each reduced to where it starts and its
 first two groups.
 */
module Regexes {
  import opened Wrappers
  import opened Text

  /** One match object: `match.start()`, `match.group(1)` and `match.group(2)`. */
  datatype Match = Match(start: nat, group1: string, group2: string)

  /** Which capture group a rule's handler returns as the quote. */
  datatype GroupOrder =
    | QuoteFirst   // lambda match: (match.group(1), match.group(2))
    | AuthorFirst  // lambda match: (match.group(2), match.group(1))

  datatype Rule = Rule(pattern: string, order: GroupOrder)

  /** `re.finditer(pattern, text)`, as a list. */
  type Matcher = (string, string) -> seq<Match>

  /** The matches come in the order `re.finditer` gives them: left to right. */
  predicate LeftToRight(ms: seq<Match>)
  {
    forall k | 0 < k < |ms| :: ms[k - 1].start < ms[k].start
  }

  /** The handler: the (quote, author) pair of a match. */
  function Handle(order: GroupOrder, m: Match): (r: (string, string))
    ensures multiset{r.0, r.1} == multiset{m.group1, m.group2}
    ensures order == QuoteFirst ==> r.0 == m.group1
    ensures order == AuthorFirst ==> r == (m.group2, m.group1)
  {
    match order
    case QuoteFirst => (m.group1, m.group2)
    case AuthorFirst => (m.group2, m.group1)
  }

  const QuoteThenAuthor: string := "\"(.+)\"\\s(.+)"
  const AuthorColonQuote: string := "(.+):\\s\"?(.+)\"?"
  const QuoteDashAuthor: string := "\"(.+?)\"\\s-\\s(.+)"

  /** The built-in table, in priority order. */
  const Builtins: seq<Rule> := [
    Rule(QuoteThenAuthor, QuoteFirst),
    Rule(AuthorColonQuote, AuthorFirst),
    Rule(QuoteDashAuthor, QuoteFirst)
  ]

  /** The rule `extractQuote` registers for a custom pattern. */
  function CustomRule(pattern: string, reverse: bool): (r: Rule)
    ensures r.pattern == pattern
    ensures reverse <==> r.order == AuthorFirst
  {
    Rule(pattern, if reverse then AuthorFirst else QuoteFirst)
  }

  /** Python truthiness of `customRegex`: present and not the empty string. */
  predicate Truthy(custom: Option<string>)
  {
    custom.Some? && custom.value != ""
  }

  /** The rules a call appends before it searches. */
  function Registered(custom: Option<string>, reverse: bool): (r: seq<Rule>)
    ensures |r| <= 1
    ensures |r| == 1 <==> Truthy(custom)
  {
    if Truthy(custom) then [CustomRule(custom.value, reverse)] else []
  }

  /** The index of the first rule that matches somewhere in the text. */
  function FirstMatch(rules: seq<Rule>, text: string, finditer: Matcher): (r: Option<nat>)
    ensures r.None? <==> forall j | 0 <= j < |rules| :: finditer(rules[j].pattern, text) == []
    ensures r.Some? ==> r.value < |rules| && finditer(rules[r.value].pattern, text) != []
    ensures r.Some? ==> forall j | 0 <= j < r.value :: finditer(rules[j].pattern, text) == []
  {
    if rules == [] then None
    else if finditer(rules[0].pattern, text) != [] then Some(0)
    else
      match FirstMatch(rules[1..], text, finditer)
      case None => None
      case Some(i) => Some(i + 1)
  }

  /** The first rule with a match is the one every earlier rule lacks. */
  lemma FirstMatchAt(rules: seq<Rule>, text: string, finditer: Matcher, i: nat)
    requires i < |rules| && finditer(rules[i].pattern, text) != []
    requires forall j | 0 <= j < i :: finditer(rules[j].pattern, text) == []
    ensures FirstMatch(rules, text, finditer) == Some(i)
  {
  }

  /** `message[:start]`; a Python slice clamps the bound to the length. */
  function Preceding(text: string, start: nat): (r: string)
    ensures |r| <= |text| && r == text[..|r|]
    ensures start <= |text| ==> |r| == start
  {
    text[..Min(start, |text|)]
  }

  /** The quote as returned: the stripped preceding text, if any, then the quote in double quotes. */
  function Wrap(preceding: string, quote: string): (r: string)
    ensures r != ""
  {
    var p := Strip(preceding);
    if p != "" then p + "\n\"" + quote + "\"" else "\"" + quote + "\""
  }

  /** What a rule that matched returns: its last match's fields, the quote wrapped, or None when a field is empty. */
  function FromRule(rule: Rule, text: string, finditer: Matcher): (r: Option<(string, string)>)
    requires finditer(rule.pattern, text) != []
    ensures r.Some? ==> r.value.0 != "" && r.value.1 != ""
  {
    var ms := finditer(rule.pattern, text);
    var m := ms[|ms| - 1];
    var (q, a) := Handle(rule.order, m);
    var quote := Wrap(Preceding(text, m.start), q);
    if quote != "" && a != "" then Some((quote, a)) else None
  }

  /** `extractQuote` over a given table: the result `(quote, author)`, or None. */
  function Extract(rules: seq<Rule>, text: string, finditer: Matcher): (r: Option<(string, string)>)
    ensures r.Some? ==> FirstMatch(rules, text, finditer).Some?
    ensures r.Some? ==> r.value.0 != "" && r.value.1 != ""
  {
    match FirstMatch(rules, text, finditer)
    case None => None
    case Some(i) => FromRule(rules[i], text, finditer)
  }

  /** The match of rule `i` that supplies the fields: the last one it found. */
  function LastMatch(rules: seq<Rule>, i: nat, text: string, finditer: Matcher): Match
    requires i < |rules| && finditer(rules[i].pattern, text) != []
  {
    var ms := finditer(rules[i].pattern, text);
    ms[|ms| - 1]
  }

  // ---------------------------------------------------------------------------
  // Properties of the pipeline

  /** The result is missing exactly when no rule matched or the winning match's author is empty. */
  lemma ExtractNoneIff(rules: seq<Rule>, text: string, finditer: Matcher)
    ensures Extract(rules, text, finditer).None? <==>
      || FirstMatch(rules, text, finditer).None?
      || Handle(rules[FirstMatch(rules, text, finditer).value].order,
                LastMatch(rules, FirstMatch(rules, text, finditer).value, text, finditer)).1 == ""
  {
  }

  /**
   On success the fields come from the last match of the first matching rule:
   the author is the handler's author, and the quote is the handler's quote in
   double quotes, preceded by the stripped text before the match when that is
   not empty.
   */
  lemma ExtractFields(rules: seq<Rule>, text: string, finditer: Matcher)
    requires FirstMatch(rules, text, finditer).Some?
    ensures var i := FirstMatch(rules, text, finditer).value;
      var m := LastMatch(rules, i, text, finditer);
      var (q, a) := Handle(rules[i].order, m);
      var p := Strip(Preceding(text, m.start));
      && (a != "" ==> Extract(rules, text, finditer) == Some((Wrap(Preceding(text, m.start), q), a)))
      && (p != "" ==> Wrap(Preceding(text, m.start), q) == p + "\n\"" + q + "\"")
      && (p == "" ==> Wrap(Preceding(text, m.start), q) == "\"" + q + "\"")
  {
    var i := FirstMatch(rules, text, finditer).value;
    var m := LastMatch(rules, i, text, finditer);
    var (q, a) := Handle(rules[i].order, m);
    var w := Wrap(Preceding(text, m.start), q);
    assert FromRule(rules[i], text, finditer) == if a != "" then Some((w, a)) else None;
  }

  /** A wrapped quote ends with the quote in double quotes. */
  lemma WrapEndsWithQuoted(preceding: string, q: string)
    ensures var w := Wrap(preceding, q);
      |w| >= |q| + 2 && w[|w| - |q| - 2..] == "\"" + q + "\""
  {
    var p := Strip(preceding);
    var tail := "\"" + q + "\"";
    if p != "" {
      assert p + "\n\"" + q + "\"" == (p + "\n") + tail;
    } else {
      assert "\"" + q + "\"" == tail;
    }
  }

  /** The quote always ends with the selected quote in double quotes. */
  lemma ExtractEndsWithQuoted(rules: seq<Rule>, text: string, finditer: Matcher)
    requires Extract(rules, text, finditer).Some?
    ensures var i := FirstMatch(rules, text, finditer).value;
      var q := Handle(rules[i].order, LastMatch(rules, i, text, finditer)).0;
      var quote := Extract(rules, text, finditer).value.0;
      |quote| >= |q| + 2 && quote[|quote| - |q| - 2..] == "\"" + q + "\""
  {
    var i := FirstMatch(rules, text, finditer).value;
    var m := LastMatch(rules, i, text, finditer);
    WrapEndsWithQuoted(Preceding(text, m.start), Handle(rules[i].order, m).0);
  }

  /** With matches in text order, the last one is the right-most: no match starts after it. */
  lemma {:induction false} LastIsRightmost(ms: seq<Match>)
    requires ms != [] && LeftToRight(ms)
    ensures forall k | 0 <= k < |ms| :: ms[k].start <= ms[|ms| - 1].start
  {
    if |ms| > 1 {
      var init := ms[..|ms| - 1];
      assert LeftToRight(init) by {
        forall k | 0 < k < |init| ensures init[k - 1].start < init[k].start {
          assert init[k - 1] == ms[k - 1] && init[k] == ms[k];
        }
      }
      LastIsRightmost(init);
      forall k | 0 <= k < |ms| ensures ms[k].start <= ms[|ms| - 1].start {
        if k < |ms| - 1 {
          assert ms[k] == init[k];
        }
      }
    }
  }

  /** Rules after the first matching one are never consulted. */
  lemma {:induction false} FirstMatchOfExtended(rules: seq<Rule>, more: seq<Rule>, text: string, finditer: Matcher)
    ensures FirstMatch(rules, text, finditer).Some? ==>
      FirstMatch(rules + more, text, finditer) == FirstMatch(rules, text, finditer)
    ensures FirstMatch(rules, text, finditer).None? ==>
      FirstMatch(rules + more, text, finditer) ==
        match FirstMatch(more, text, finditer)
        case None => None
        case Some(i) => Some(|rules| + i)
  {
    if rules != [] {
      assert (rules + more)[0] == rules[0];
      assert (rules + more)[1..] == rules[1..] + more;
      FirstMatchOfExtended(rules[1..], more, text, finditer);
    } else {
      assert rules + more == more;
    }
  }

  /** Once a rule of the table matches, appending rules changes nothing. */
  lemma ExtractIgnoresAppended(rules: seq<Rule>, more: seq<Rule>, text: string, finditer: Matcher)
    requires FirstMatch(rules, text, finditer).Some?
    ensures Extract(rules + more, text, finditer) == Extract(rules, text, finditer)
  {
    FirstMatchOfExtended(rules, more, text, finditer);
    var i := FirstMatch(rules, text, finditer).value;
    assert (rules + more)[i] == rules[i];
  }

  /** When no rule of the table matches, the result is that of the appended rules alone. */
  lemma ExtractFallsThrough(rules: seq<Rule>, more: seq<Rule>, text: string, finditer: Matcher)
    requires FirstMatch(rules, text, finditer).None?
    ensures Extract(rules + more, text, finditer) == Extract(more, text, finditer)
  {
    FirstMatchOfExtended(rules, more, text, finditer);
    match FirstMatch(more, text, finditer)
    case None =>
    case Some(i) =>
      assert (rules + more)[|rules| + i] == more[i];
  }

  /** A custom rule is appended, so it decides the result only when no earlier rule matches. */
  lemma CustomRuleHasLowestPriority(rules: seq<Rule>, custom: Rule, text: string, finditer: Matcher)
    ensures FirstMatch(rules, text, finditer).Some? ==>
      Extract(rules + [custom], text, finditer) == Extract(rules, text, finditer)
    ensures FirstMatch(rules, text, finditer).None? ==>
      Extract(rules + [custom], text, finditer) == Extract([custom], text, finditer)
  {
    if FirstMatch(rules, text, finditer).Some? {
      ExtractIgnoresAppended(rules, [custom], text, finditer);
    } else {
      ExtractFallsThrough(rules, [custom], text, finditer);
    }
  }

  /** Every call with a custom pattern appends it again; the repeated entry does not change the result. */
  lemma ReRegisteredRuleChangesNothing(rules: seq<Rule>, custom: Rule, text: string, finditer: Matcher)
    ensures Extract(rules + [custom] + [custom], text, finditer) == Extract(rules + [custom], text, finditer)
  {
    var once := rules + [custom];
    if FirstMatch(once, text, finditer).Some? {
      ExtractIgnoresAppended(once, [custom], text, finditer);
    } else {
      ExtractFallsThrough(once, [custom], text, finditer);
      FirstMatchOfExtended(rules, [custom], text, finditer);
      assert once[|rules|] == custom;
    }
  }

  /**
   The built-in table holds three rules, `"q" a`, `a: q` and `"q" - a` in
   that order; rules 1 and 3 return group 1 as the quote, rule 2 returns
   group 2 as the quote and group 1 as the author.
   */
  lemma BuiltinGroupMapping(m: Match)
    ensures |Builtins| == 3
    ensures Builtins[0].pattern == QuoteThenAuthor && Builtins[1].pattern == AuthorColonQuote
    ensures Builtins[2].pattern == QuoteDashAuthor
    ensures Handle(Builtins[0].order, m) == (m.group1, m.group2)
    ensures Handle(Builtins[1].order, m) == (m.group2, m.group1)
    ensures Handle(Builtins[2].order, m) == (m.group1, m.group2)
  {
  }

  /** A custom rule maps (group 2, group 1) to (quote, author) when reversed, and (group 1, group 2) otherwise. */
  lemma CustomGroupMapping(pattern: string, reverse: bool, m: Match)
    ensures Handle(CustomRule(pattern, reverse).order, m) ==
      if reverse then (m.group2, m.group1) else (m.group1, m.group2)
  {
  }

  /**
   `"q" - a` is taken by rule 1, not rule 3: its groups are `q` and `- a`, so
   the dash stays in the author.
   */
  lemma DashLineTakenByRuleOne(q: string, a: string, finditer: Matcher)
    requires a != ""
    requires finditer(QuoteThenAuthor, "\"" + q + "\" - " + a) == [Match(0, q, "- " + a)]
    ensures Extract(Builtins, "\"" + q + "\" - " + a, finditer) == Some(("\"" + q + "\"", "- " + a))
  {
    assert Preceding("\"" + q + "\" - " + a, 0) == "";
  }

  /**
   A line `author: quote`: rule 1 does not match, rule 2 does, with the
   author before the colon; the quote comes back wrapped in double quotes.
   */
  lemma ColonLineSwapsGroups(text: string, author: string, quote: string, finditer: Matcher)
    requires finditer(QuoteThenAuthor, text) == []
    requires finditer(AuthorColonQuote, text) == [Match(0, author, quote)]
    requires author != ""
    ensures Extract(Builtins, text, finditer) == Some(("\"" + quote + "\"", author))
  {
    assert Builtins[0].pattern == QuoteThenAuthor && Builtins[1].pattern == AuthorColonQuote;
    assert FirstMatch(Builtins, text, finditer) == Some(1);
    assert Preceding(text, 0) == "";
  }

  // ---------------------------------------------------------------------------
  // The global table

  /** The module-level `regexes` list, which `addRegex` appends to. */
  class RuleTable {
    var rules: seq<Rule>

    /** The table as the module defines it at import time. */
    constructor ()
      ensures rules == Builtins
    {
      rules := Builtins;
    }

    /** `addRegex`: one rule at the end, every earlier rule kept in place. */
    method AddRegex(pattern: string, order: GroupOrder)
      modifies this
      ensures rules == old(rules) + [Rule(pattern, order)]
    {
      rules := rules + [Rule(pattern, order)];
    }

    /** The search loop of `extractQuote` over the current table. */
    method Select(message: string, finditer: Matcher) returns (r: Option<(string, string)>)
      ensures r == Extract(rules, message, finditer)
    {
      var lastQuote: Option<string> := None;
      var lastAuthor: Option<string> := None;
      var i := 0;
      while i < |rules|
        invariant 0 <= i <= |rules|
        invariant forall j | 0 <= j < i :: finditer(rules[j].pattern, message) == []
        invariant lastQuote.None? && lastAuthor.None?
      {
        var matches := finditer(rules[i].pattern, message);
        if matches != [] {
          FirstMatchAt(rules, message, finditer, i);
          var lastMatch := matches[|matches| - 1];
          var (quote, author) := Handle(rules[i].order, lastMatch);
          lastQuote, lastAuthor := Some(Wrap(Preceding(message, lastMatch.start), quote)), Some(author);
          break;
        }
        i := i + 1;
      }
      if lastQuote.Some? && lastQuote.value != "" && lastAuthor.Some? && lastAuthor.value != "" {
        r := Some((lastQuote.value, lastAuthor.value));
      } else {
        r := None;
      }
    }

    /**
     `extractQuote(message, customRegex, customReverse)`: a truthy custom
     pattern is first appended to the shared table, for this call and every
     later one, then the table is searched.
     */
    method ExtractQuote(message: string, customRegex: Option<string>, customReverse: bool, finditer: Matcher)
      returns (r: Option<(string, string)>)
      modifies this
      ensures rules == old(rules) + Registered(customRegex, customReverse)
      ensures r == Extract(rules, message, finditer)
    {
      if Truthy(customRegex) {
        if customReverse {
          AddRegex(customRegex.value, AuthorFirst);
        } else {
          AddRegex(customRegex.value, QuoteFirst);
        }
      }
      r := Select(message, finditer);
    }
  }

  /**
   The table is shared: after a call with a custom pattern, a later call
   without one still uses it when no earlier rule matches.
   */
  lemma RegisteredRuleOutlivesItsCall(rules: seq<Rule>, pattern: string, reverse: bool, text: string, finditer: Matcher)
    requires pattern != ""
    requires FirstMatch(rules, text, finditer).None?
    requires finditer(pattern, text) != []
    requires Handle(CustomRule(pattern, reverse).order, finditer(pattern, text)[|finditer(pattern, text)| - 1]).1 != ""
    ensures Extract(rules, text, finditer).None?
    ensures Extract(rules + Registered(Some(pattern), reverse), text, finditer).Some?
  {
    ExtractFallsThrough(rules, [CustomRule(pattern, reverse)], text, finditer);
  }
}
