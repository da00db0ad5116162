/**
  `extract_balances_from_text`: the opening and closing balances a statement
  announces in its text, found by case-insensitive regular-expression search.
  Each pattern is a label, a run of colons and whitespace, an optional dollar
  sign and the captured number `[\d,]+\.?\d*`.
*/
module Balances {
  import opened Wrappers
  import opened Text
  import opened Decimals
  import WordPatterns

  /**
    The label part of a pattern:
    `(?:w1|w2|...)\s*balance` for `Labelled`, and
    `balance\s*(?:forward|brought\s*forward)` for `Forward`.
  */
  datatype BalancePattern = Labelled(words: seq<string>) | Forward

  const OpeningPatterns: seq<BalancePattern> :=
    [Labelled(["opening", "beginning", "starting", "previous"]), Forward]

  const ClosingPatterns: seq<BalancePattern> :=
    [Labelled(["closing", "ending", "new", "current"])]

  /**
    The end of the first alternative of `words` that occurs at `i`.  No two
    alternatives of either label occur at the same index, so a regex engine
    that backtracks into later alternatives finds nothing more.
  */
  function KeywordEnd(t: string, i: nat, words: seq<string>): (r: Option<nat>)
    ensures r.Some? ==> i <= r.value <= |t|
  {
    if words == [] then None
    else if LitAt(t, i, words[0]) then Some(i + |words[0]|)
    else KeywordEnd(t, i, words[1..])
  }

  /**
    The end of the label of `p` when it occurs at `i`.  A greedy `\s*` before
    a literal loses nothing: the literal never starts with whitespace.
  */
  function LabelEnd(t: string, i: nat, p: BalancePattern): (r: Option<nat>)
    ensures r.Some? ==> i <= r.value <= |t|
  {
    match p
    case Labelled(words) =>
      var k := KeywordEnd(t, i, words);
      if k.None? then None
      else
        var b := RunEnd(t, k.value, IsSpace);
        if LitAt(t, b, "balance") then Some(b + 7) else None
    case Forward =>
      if !LitAt(t, i, "balance") then None
      else
        var b := RunEnd(t, i + 7, IsSpace);
        if LitAt(t, b, "forward") then Some(b + 7)
        else if LitAt(t, b, "brought") then
          var c := RunEnd(t, b + 7, IsSpace);
          if LitAt(t, c, "forward") then Some(c + 7) else None
        else None
  }

  predicate IsColonOrSpace(c: char) {
    c == ':' || IsSpace(c)
  }

  predicate IsDigitOrComma(c: char) {
    IsDigit(c) || c == ','
  }

  /** The characters the captured number is made of. */
  predicate IsNumberChar(c: char) {
    IsDigitOrComma(c) || c == '.'
  }

  /**
    The bounds of the captured group of `[:\s]*\$?\s*([\d,]+\.?\d*)` starting
    at `e`, every quantifier greedy.  Backtracking finds no other match: a
    shorter `[:\s]*` leaves a colon or a space where the `$` or the first
    digit or comma would have to be.
  */
  function NumberGroup(t: string, e: nat): (r: Option<(nat, nat)>)
    requires e <= |t|
    ensures r.Some? ==> e <= r.value.0 < r.value.1 <= |t|
  {
    var a := RunEnd(t, e, IsColonOrSpace);
    var b := WordPatterns.SkipOpt(t, a, '$');
    var c := RunEnd(t, b, IsSpace);
    var d := RunEnd(t, c, IsDigitOrComma);
    if d == c then None
    else
      var f := WordPatterns.SkipOpt(t, d, '.');
      Some((c, RunEnd(t, f, IsDigit)))
  }

  /** The captured group's bounds when pattern `p` matches at index `i`. */
  function GroupAt(t: string, p: BalancePattern, i: nat): (r: Option<(nat, nat)>)
    ensures r.Some? ==> i <= r.value.0 < r.value.1 <= |t|
  {
    var e := LabelEnd(t, i, p);
    if e.None? then None else NumberGroup(t, e.value)
  }

  /** Every match ends inside the text and its group is a slice of it. */
  ghost predicate GroupsWithin(t: string, groupAt: nat -> Option<(nat, nat)>) {
    forall i: nat :: groupAt(i).Some? ==> groupAt(i).value.0 <= groupAt(i).value.1 <= |t|
  }

  /** `re.search` for a pattern whose group at each index is `groupAt`: the group of the leftmost match at `from` or later. */
  function SearchBy(t: string, from: nat, groupAt: nat -> Option<(nat, nat)>): Option<string>
    requires GroupsWithin(t, groupAt)
    decreases |t| - from
  {
    if from >= |t| then None
    else
      var g := groupAt(from);
      if g.Some? then Some(t[g.value.0..g.value.1]) else SearchBy(t, from + 1, groupAt)
  }

  function Search(t: string, p: BalancePattern, from: nat): Option<string> {
    SearchBy(t, from, (i: nat) => GroupAt(t, p, i))
  }

  /** `float(match.group(1).replace(',', ''))` for the match of `p`, if both succeed. */
  function ValueOf(t: string, p: BalancePattern): Option<real> {
    var m := Search(t, p, 0);
    if m.None? then None else ParseFloat(RemoveAll(m.value, ","))
  }

  /** The loop over a pattern list: the first value `valueOf` yields, in list order. */
  function FirstValueBy(ps: seq<BalancePattern>, valueOf: BalancePattern -> Option<real>): Option<real> {
    if ps == [] then None
    else if valueOf(ps[0]).Some? then valueOf(ps[0])
    else FirstValueBy(ps[1..], valueOf)
  }

  /** The value of the first pattern that matches and converts. */
  function FirstValue(t: string, ps: seq<BalancePattern>): Option<real> {
    FirstValueBy(ps, p => ValueOf(t, p))
  }

  /** The pair `(opening_balance, closing_balance)`; matching ignores case, which the digits of a group do not see. */
  function BalancesOf(text: string): (Option<real>, Option<real>) {
    var t := LowerStr(text);
    (FirstValue(t, OpeningPatterns), FirstValue(t, ClosingPatterns))
  }

  method ExtractBalancesFromText(text: string) returns (opening: Option<real>, closing: Option<real>)
    ensures (opening, closing) == BalancesOf(text)
  {
    var t := LowerStr(text);
    opening := FirstMatching(t, OpeningPatterns);
    closing := FirstMatching(t, ClosingPatterns);
  }

  /** One of the two loops: try each pattern in turn and stop at the first value that converts. */
  method FirstMatching(t: string, patterns: seq<BalancePattern>) returns (value: Option<real>)
    ensures value == FirstValue(t, patterns)
  {
    value := None;
    for k := 0 to |patterns|
      invariant FirstValue(t, patterns) == FirstValue(t, patterns[k..])
    {
      assert patterns[k..][1..] == patterns[k + 1..];
      var m := Search(t, patterns[k], 0);
      if m.Some? {
        var x := ParseFloat(RemoveAll(m.value, ","));
        if x.Some? {
          value := x;
          return;
        }
      }
    }
  }

  /** `re.search` reports the leftmost match, and nothing only when no index matches. */
  lemma {:induction false} SearchIsLeftmost(t: string, from: nat, groupAt: nat -> Option<(nat, nat)>)
    requires GroupsWithin(t, groupAt)
    ensures SearchBy(t, from, groupAt).None? <==> forall i: nat | from <= i < |t| :: groupAt(i).None?
    ensures SearchBy(t, from, groupAt).Some? ==>
              exists i: nat | from <= i < |t| ::
                && groupAt(i).Some?
                && SearchBy(t, from, groupAt).value == t[groupAt(i).value.0..groupAt(i).value.1]
                && forall j: nat | from <= j < i :: groupAt(j).None?
    decreases |t| - from
  {
    if from < |t| && groupAt(from).None? {
      SearchIsLeftmost(t, from + 1, groupAt);
    }
  }

  /** Every group `groupAt` yields is made of number characters. */
  ghost predicate NumberGroups(t: string, groupAt: nat -> Option<(nat, nat)>)
    requires GroupsWithin(t, groupAt)
  {
    forall i: nat | groupAt(i).Some? :: forall k | groupAt(i).value.0 <= k < groupAt(i).value.1 :: IsNumberChar(t[k])
  }

  lemma {:induction false} SearchByNumber(t: string, from: nat, groupAt: nat -> Option<(nat, nat)>)
    requires GroupsWithin(t, groupAt) && NumberGroups(t, groupAt)
    ensures SearchBy(t, from, groupAt).Some? ==> forall c | c in SearchBy(t, from, groupAt).value :: IsNumberChar(c)
    decreases |t| - from
  {
    if from < |t| && groupAt(from).None? {
      SearchByNumber(t, from + 1, groupAt);
    }
  }

  /** The loop settles on the first pattern whose match converts, and finds nothing only when none does. */
  lemma {:induction false} FirstValueIsFirst(ps: seq<BalancePattern>, valueOf: BalancePattern -> Option<real>)
    ensures FirstValueBy(ps, valueOf).None? <==> forall k | 0 <= k < |ps| :: valueOf(ps[k]).None?
    ensures FirstValueBy(ps, valueOf).Some? ==>
              exists k | 0 <= k < |ps| ::
                && FirstValueBy(ps, valueOf) == valueOf(ps[k])
                && forall j | 0 <= j < k :: valueOf(ps[j]).None?
  {
    if ps != [] {
      FirstValueIsFirst(ps[1..], valueOf);
      if valueOf(ps[0]).None? && FirstValueBy(ps[1..], valueOf).Some? {
        var k :| 0 <= k < |ps[1..]| && FirstValueBy(ps[1..], valueOf) == valueOf(ps[1..][k])
          && forall j | 0 <= j < k :: valueOf(ps[1..][j]).None?;
        assert FirstValueBy(ps, valueOf) == valueOf(ps[k + 1]);
      }
    }
  }

  /** The captured group holds only digits, commas and at most the one dot. */
  lemma GroupChars(t: string, e: nat)
    requires e <= |t| && NumberGroup(t, e).Some?
    ensures forall k | NumberGroup(t, e).value.0 <= k < NumberGroup(t, e).value.1 :: IsNumberChar(t[k])
  {
    var a := RunEnd(t, e, IsColonOrSpace);
    var b := WordPatterns.SkipOpt(t, a, '$');
    var c := RunEnd(t, b, IsSpace);
    var d := RunEnd(t, c, IsDigitOrComma);
    var f := WordPatterns.SkipOpt(t, d, '.');
    var g := RunEnd(t, f, IsDigit);
    assert NumberGroup(t, e).value == (c, g);
    forall k | c <= k < g ensures IsNumberChar(t[k]) {
      if k >= d && k < f {
        assert t[k] == '.';
      }
    }
  }

  lemma GroupsOfPattern(t: string, p: BalancePattern)
    ensures GroupsWithin(t, (i: nat) => GroupAt(t, p, i))
    ensures NumberGroups(t, (i: nat) => GroupAt(t, p, i))
  {
    forall i: nat | GroupAt(t, p, i).Some?
      ensures forall k | GroupAt(t, p, i).value.0 <= k < GroupAt(t, p, i).value.1 :: IsNumberChar(t[k])
    {
      GroupChars(t, LabelEnd(t, i, p).value);
    }
  }

  /** Balances are never negative: the captured number has no sign. */
  lemma ValueNonNegative(t: string, p: BalancePattern)
    ensures ValueOf(t, p).Some? ==> ValueOf(t, p).value >= 0.0
  {
    var m := Search(t, p, 0);
    if m.Some? {
      GroupsOfPattern(t, p);
      SearchByNumber(t, 0, (i: nat) => GroupAt(t, p, i));
      RemoveAllKeeps(m.value, ",");
      ParseFloatUnsigned(RemoveAll(m.value, ","));
    }
  }

  /**
    What `extract_balances_from_text` returns: each balance is the value of
    the first pattern of its list whose leftmost match converts, is never
    negative, and is missing only when no pattern of the list yields one.
  */
  lemma BalancesFound(text: string)
    ensures var t := LowerStr(text);
      && (BalancesOf(text).0.None? <==> forall k | 0 <= k < |OpeningPatterns| :: ValueOf(t, OpeningPatterns[k]).None?)
      && (BalancesOf(text).1.None? <==> ValueOf(t, ClosingPatterns[0]).None?)
      && (BalancesOf(text).0.Some? ==> BalancesOf(text).0.value >= 0.0)
      && (BalancesOf(text).1.Some? ==> BalancesOf(text).1.value >= 0.0)
      && (ValueOf(t, OpeningPatterns[0]).Some? ==> BalancesOf(text).0 == ValueOf(t, OpeningPatterns[0]))
      && (ValueOf(t, OpeningPatterns[0]).None? ==> BalancesOf(text).0 == ValueOf(t, OpeningPatterns[1]))
  {
    var t := LowerStr(text);
    FirstValueIsFirst(OpeningPatterns, p => ValueOf(t, p));
    FirstValueIsFirst(ClosingPatterns, p => ValueOf(t, p));
    ValueNonNegative(t, OpeningPatterns[0]);
    ValueNonNegative(t, OpeningPatterns[1]);
    ValueNonNegative(t, ClosingPatterns[0]);
  }
}
