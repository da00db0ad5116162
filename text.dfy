/**
  Character classes and the few `str` operations of Python that the parsing
  helpers use: `lower()`, `strip()`, `in`, `' '.join`, `replace(p, '')`,
  `split()` and slicing `[:n]`.  Characters are modelled over ASCII: Python's
  Unicode whitespace, digits and case folding beyond ASCII are not modelled.
*/
module Text {

  /** `str.isspace()` and the regex class `\s` on ASCII: \t \n \v \f \r, \x1c-\x1f and ' '. */
  predicate IsSpace(c: char) {
    (9 <= c as int <= 13) || (28 <= c as int <= 32)
  }

  /** The regex class `\d` on ASCII. */
  predicate IsDigit(c: char) {
    '0' <= c <= '9'
  }

  /** The regex class `\w` on ASCII: letters, digits and underscore. */
  predicate IsWordChar(c: char) {
    ('a' <= c <= 'z') || ('A' <= c <= 'Z') || IsDigit(c) || c == '_'
  }

  predicate IsNonSpace(c: char) {
    !IsSpace(c)
  }

  function Lower(c: char): (r: char)
    ensures 'A' <= c <= 'Z' ==> 'a' <= r <= 'z'
    ensures !('A' <= c <= 'Z') ==> r == c
  {
    if 'A' <= c <= 'Z' then (c as int + 32) as char else c
  }

  /** `s.lower()`, which is also how the model reads `re.IGNORECASE`. */
  function LowerStr(s: string): (r: string)
    ensures |r| == |s|
    ensures forall i | 0 <= i < |s| :: r[i] == Lower(s[i])
  {
    seq(|s|, i requires 0 <= i < |s| => Lower(s[i]))
  }

  /** The first index at or after `i` whose character is not in class `cls`. */
  function RunEnd(s: string, i: nat, cls: char -> bool): (r: nat)
    requires i <= |s|
    ensures i <= r <= |s|
    ensures forall k | i <= k < r :: cls(s[k])
    ensures r == |s| || !cls(s[r])
    decreases |s| - i
  {
    if i < |s| && cls(s[i]) then RunEnd(s, i + 1, cls) else i
  }

  /** The run of `cls` from `i` ends at `j` when the characters before `j` are in the class and `s[j]` is not. */
  lemma {:induction false} RunEndAt(s: string, i: nat, j: nat, cls: char -> bool)
    requires i <= j <= |s|
    requires forall k | i <= k < j :: cls(s[k])
    requires j == |s| || !cls(s[j])
    ensures RunEnd(s, i, cls) == j
    decreases j - i
  {
    if i < j {
      RunEndAt(s, i + 1, j, cls);
    }
  }

  /** `lit` occurs in `s` starting at index `i`. */
  predicate LitAt(s: string, i: int, lit: string) {
    0 <= i && i + |lit| <= |s| && s[i..i + |lit|] == lit
  }

  /** Python's `sub in s`: some occurrence starts at index `from` or later. */
  predicate ContainsFrom(s: string, sub: string, from: nat)
    decreases |s| - from
  {
    from + |sub| <= |s| && (LitAt(s, from, sub) || ContainsFrom(s, sub, from + 1))
  }

  /** Python's `sub in s`. */
  predicate Contains(s: string, sub: string) {
    ContainsFrom(s, sub, 0)
  }

  /** `Contains` holds exactly when `sub` occurs at some index. */
  lemma {:induction false} ContainsFromAt(s: string, sub: string, from: nat)
    ensures ContainsFrom(s, sub, from) <==> exists i | from <= i :: LitAt(s, i, sub)
    decreases |s| - from
  {
    if from + |sub| <= |s| {
      ContainsFromAt(s, sub, from + 1);
    } else {
      assert forall i | from <= i :: !LitAt(s, i, sub);
    }
  }

  /** A string lacking one of `lit`'s characters cannot contain `lit`. */
  lemma {:induction false} NotContainsByChar(s: string, lit: string, k: nat)
    requires k < |lit| && lit[k] !in s
    ensures !Contains(s, lit)
  {
    forall i | 0 <= i ensures !LitAt(s, i, lit) {
      if i + |lit| <= |s| {
        assert s[i..i + |lit|][k] == s[i + k];
        assert s[i + k] in s;
      }
    }
    ContainsFromAt(s, lit, 0);
  }

  function TrimStart(s: string): (r: string)
    ensures |r| <= |s|
  {
    if |s| > 0 && IsSpace(s[0]) then TrimStart(s[1..]) else s
  }

  function TrimEnd(s: string): (r: string)
    ensures |r| <= |s|
  {
    if |s| > 0 && IsSpace(s[|s| - 1]) then TrimEnd(s[..|s| - 1]) else s
  }

  /** `s.strip()`. */
  function Strip(s: string): string {
    TrimEnd(TrimStart(s))
  }

  lemma {:induction false} TrimStartShape(s: string)
    ensures TrimStart(s) == s[|s| - |TrimStart(s)|..]
    ensures TrimStart(s) == [] || !IsSpace(TrimStart(s)[0])
    ensures forall i | 0 <= i < |s| - |TrimStart(s)| :: IsSpace(s[i])
  {
    if |s| > 0 && IsSpace(s[0]) {
      TrimStartShape(s[1..]);
    }
  }

  lemma {:induction false} TrimEndShape(s: string)
    ensures TrimEnd(s) == s[..|TrimEnd(s)|]
    ensures TrimEnd(s) == [] || !IsSpace(TrimEnd(s)[|TrimEnd(s)| - 1])
    ensures forall i | |TrimEnd(s)| <= i < |s| :: IsSpace(s[i])
  {
    if |s| > 0 && IsSpace(s[|s| - 1]) {
      TrimEndShape(s[..|s| - 1]);
    }
  }

  /** `strip()` keeps a slice of `s` that neither starts nor ends with whitespace. */
  lemma StripShape(s: string)
    ensures |Strip(s)| <= |s|
    ensures Strip(s) == [] || (!IsSpace(Strip(s)[0]) && !IsSpace(Strip(s)[|Strip(s)| - 1]))
    ensures forall c | c in Strip(s) :: c in s
  {
    var t := TrimStart(s);
    TrimStartShape(s);
    TrimEndShape(t);
    var a := |s| - |t|;
    var m := |TrimEnd(t)|;
    assert Strip(s) == s[a..a + m];
    SliceMembers(s, a, a + m);
  }

  lemma SliceMembers(s: string, a: nat, b: nat)
    requires a <= b <= |s|
    ensures forall c | c in s[a..b] :: c in s
  {
    forall c | c in s[a..b] ensures c in s {
      var k :| 0 <= k < b - a && s[a..b][k] == c;
      assert s[a + k] == c;
    }
  }

  /** `' '.join(parts)`. */
  function Join(parts: seq<string>): (r: string)
  {
    if |parts| == 0 then ""
    else if |parts| == 1 then parts[0]
    else Join(parts[..|parts| - 1]) + " " + parts[|parts| - 1]
  }

  /** `s.replace(p, '')`: occurrences of `p` removed in one left-to-right pass. */
  function RemoveAll(s: string, p: string): (r: string)
    ensures |r| <= |s|
    decreases |s|
  {
    if |p| == 0 || |s| < |p| then s
    else if s[..|p|] == p then RemoveAll(s[|p|..], p)
    else [s[0]] + RemoveAll(s[1..], p)
  }

  /** `s.replace(p, '')` only removes characters: what is left was in `s`. */
  lemma {:induction false} RemoveAllKeeps(s: string, p: string)
    ensures forall c | c in RemoveAll(s, p) :: c in s
    decreases |s|
  {
    if |p| == 0 || |s| < |p| {
    } else if s[..|p|] == p {
      RemoveAllKeeps(s[|p|..], p);
      assert forall c | c in s[|p|..] :: c in s;
    } else {
      RemoveAllKeeps(s[1..], p);
      assert forall c | c in s[1..] :: c in s;
    }
  }

  /** Removing a character that does not occur leaves the string as it is. */
  lemma {:induction false} RemoveAbsent(s: string, c: char)
    requires c !in s
    ensures RemoveAll(s, [c]) == s
    decreases |s|
  {
    if |s| >= 1 {
      RemoveAbsent(s[1..], c);
      assert s == [s[0]] + s[1..];
    }
  }

  /** Removing one character works part by part. */
  lemma {:induction false} RemoveCharConcat(a: string, b: string, c: char)
    ensures RemoveAll(a + b, [c]) == RemoveAll(a, [c]) + RemoveAll(b, [c])
    decreases |a|
  {
    if a == [] {
      assert a + b == b;
    } else {
      assert (a + b)[..1] == a[..1] && (a + b)[1..] == a[1..] + b;
      RemoveCharConcat(a[1..], b, c);
    }
  }

  /** Removing `c` from two runs without it joined by one `c` joins the runs. */
  lemma RemoveBetween(a: string, b: string, c: char)
    requires c !in a && c !in b
    ensures RemoveAll(a + [c] + b, [c]) == a + b
  {
    RemoveCharConcat(a, [c] + b, c);
    RemoveCharConcat([c], b, c);
    RemoveAbsent(a, c);
    RemoveAbsent(b, c);
    assert a + [c] + b == a + ([c] + b);
  }

  /** `strip()` leaves a string that neither starts nor ends with whitespace as it is. */
  lemma StripUnchanged(s: string)
    requires s != [] && !IsSpace(s[0]) && !IsSpace(s[|s| - 1])
    ensures Strip(s) == s
  {
  }

  /** `s.replace(a, b)` for single characters `a` and `b`. */
  function ReplaceChar(s: string, a: char, b: char): (r: string)
    ensures |r| == |s|
    ensures forall i | 0 <= i < |s| :: r[i] == if s[i] == a then b else s[i]
  {
    seq(|s|, i requires 0 <= i < |s| => if s[i] == a then b else s[i])
  }

  /** After `s.replace(c, '')` no `c` is left. */
  lemma {:induction false} RemoveAllDrops(s: string, c: char)
    ensures c !in RemoveAll(s, [c])
    decreases |s|
  {
    if |s| >= 1 {
      RemoveAllDrops(s[1..], c);
    }
  }

  /** The characters of `s` outside `cs`, in order: `re.sub('[...]', '', s)` for a character class. */
  function DropChars(s: string, cs: set<char>): (r: string)
    ensures |r| <= |s|
  {
    if s == [] then [] else if s[0] in cs then DropChars(s[1..], cs) else [s[0]] + DropChars(s[1..], cs)
  }

  /** `' '.join` adds only spaces: a set of characters without ' ' that no part uses is absent from the result. */
  lemma {:induction false} JoinAvoids(parts: seq<string>, bad: set<char>)
    requires ' ' !in bad
    requires forall k, i | 0 <= k < |parts| && 0 <= i < |parts[k]| :: parts[k][i] !in bad
    ensures forall i | 0 <= i < |Join(parts)| :: Join(parts)[i] !in bad
  {
    if |parts| > 1 {
      var init := parts[..|parts| - 1];
      JoinAvoids(init, bad);
      assert forall k | 0 <= k < |init| :: init[k] == parts[k];
      var last := parts[|parts| - 1];
      assert Join(parts) == Join(init) + " " + last;
      assert forall i | 0 <= i < |last| :: last[i] !in bad;
    }
  }

  /** `s.split()`: the maximal runs of non-whitespace characters, in order. */
  function SplitWs(s: string): (r: seq<string>)
    ensures forall k | 0 <= k < |r| :: r[k] != [] && forall i | 0 <= i < |r[k]| :: !IsSpace(r[k][i])
    decreases |s|
  {
    var a := RunEnd(s, 0, IsSpace);
    if a == |s| then []
    else
      var b := RunEnd(s, a, IsNonSpace);
      [s[a..b]] + SplitWs(s[b..])
  }

  /** `' '.join(s.split())`. */
  function CollapseWs(s: string): string {
    Join(SplitWs(s))
  }

  /** `s[:n]` for a non-negative `n`. */
  function Take(s: string, n: nat): (r: string)
    ensures |r| <= n && |r| <= |s| && r == s[..|r|]
    ensures |s| <= n ==> r == s
  {
    if |s| <= n then s else s[..n]
  }
}
