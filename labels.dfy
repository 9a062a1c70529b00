/**
 * The three label expressions of a table row: fitness goal, experience level
 * and preferred time. Each is an optional-chaining expression on an optional
 * string, joined with `||` to the placeholder "Not specified". Upper-casing is
 * modelled on ASCII letters only.
 */
module Labels {
  import opened Wrappers

  const NotSpecified: string := "Not specified"

  /** The JavaScript values these expressions can produce. */
  datatype JsValue = Undefined | NaN | Str(s: string)

  /** ToBoolean: `undefined`, `NaN` and the empty string are falsy. */
  predicate Truthy(v: JsValue) {
    v.Str? && v.s != ""
  }

  /** ToString of a primitive value. */
  function Text(v: JsValue): string {
    match v
    case Undefined => "undefined"
    case NaN => "NaN"
    case Str(s) => s
  }

  /** The `+` operator: concatenation when either side is a string, numeric addition otherwise. */
  function Plus(a: JsValue, b: JsValue): (r: JsValue)
    ensures r.Str? <==> a.Str? || b.Str?
    ensures r.Str? ==> r.s == Text(a) + Text(b)
    ensures a.Str? && b.Str? ==> r == Str(a.s + b.s)
    ensures !a.Str? && !b.Str? ==> r == NaN
  {
    if a.Str? || b.Str? then Str(Text(a) + Text(b)) else NaN
  }

  /** `v || fallback`, as the text the cell then shows. */
  function OrElse(v: JsValue, fallback: string): (r: string)
    ensures Truthy(v) ==> r == v.s
    ensures !Truthy(v) ==> r == fallback
    ensures r == "" ==> fallback == ""
  {
    if Truthy(v) then v.s else fallback
  }

  /** `String.prototype.indexOf` for a one-character search string: -1 when absent. */
  function IndexOf(s: string, c: char): (i: int)
    ensures -1 <= i < |s|
    ensures i == -1 <==> c !in s
    ensures 0 <= i ==> s[i] == c && c !in s[..i]
  {
    if s == [] then -1
    else if s[0] == c then 0
    else
      var j := IndexOf(s[1..], c);
      if j == -1 then -1
      else
        assert s[..j + 1] == [s[0]] + s[1..][..j];
        j + 1
  }

  /**
   * `s.replace(pattern, replacement)` with one-character strings: only the
   * first occurrence is replaced, as the string-pattern form of `replace` does.
   */
  function ReplaceFirst(s: string, pattern: char, replacement: char): (r: string)
    ensures |r| == |s|
    ensures IndexOf(s, pattern) == -1 ==> r == s
    ensures 0 <= IndexOf(s, pattern) ==>
      r == s[..IndexOf(s, pattern)] + [replacement] + s[IndexOf(s, pattern) + 1..]
  {
    if s == [] then []
    else if s[0] == pattern then [replacement] + s[1..]
    else [s[0]] + ReplaceFirst(s[1..], pattern, replacement)
  }

  predicate IsLower(c: char) {
    'a' <= c <= 'z'
  }

  /** Upper-casing of one character, on ASCII letters only. */
  function UpperChar(c: char): (u: char)
    ensures !IsLower(u)
    ensures IsLower(c) ==> u as int == c as int - 32
    ensures !IsLower(c) ==> u == c
  {
    if IsLower(c) then (c as int - 32) as char else c
  }

  /** `String.prototype.toUpperCase`, on ASCII letters only: each character on its own. */
  function ToUpper(s: string): (r: string)
    ensures |r| == |s|
  {
    seq(|s|, i requires 0 <= i < |s| => UpperChar(s[i]))
  }

  /** An upper-cased text never reads "Not specified", whose second letter is lower-case. */
  lemma UpperIsNotPlaceholder(s: string)
    ensures ToUpper(s) != NotSpecified
  {
    if |s| == |NotSpecified| {
      assert ToUpper(s)[1] != NotSpecified[1];
    }
  }

  /** `s.charAt(k)`: the one-character string at `k`, or "" past the end. */
  function CharAt(s: string, k: nat): (r: string)
    ensures |r| == 1 <==> k < |s|
    ensures k < |s| ==> r[0] == s[k]
    ensures k >= |s| ==> r == ""
  {
    if k < |s| then [s[k]] else ""
  }

  /** `s.slice(k)` for a non-negative start. */
  function Slice(s: string, k: nat): (r: string)
    ensures k <= |s| ==> |r| == |s| - k && s == s[..k] + r
    ensures k > |s| ==> r == ""
  {
    if k <= |s| then s[k..] else ""
  }

  /** `x?.f(...)`: `undefined` when `x` is missing, the call's string otherwise. */
  function Chain(x: Option<string>, text: string): (r: JsValue)
    ensures r.Undefined? <==> x.None?
    ensures x.Some? ==> r == Str(text)
  {
    if x.None? then Undefined else Str(text)
  }

  /** The fitness-goal badge: the goal with its first dash spaced, upper-cased, or the placeholder. */
  function FitnessGoalLabel(goal: Option<string>): (r: string)
    ensures r == NotSpecified <==> goal == None || goal == Some("")
    ensures goal.Some? && goal.value != "" ==> |r| == |goal.value|
  {
    var g := goal.GetOr("");
    var shown := ToUpper(ReplaceFirst(g, '-', ' '));
    UpperIsNotPlaceholder(ReplaceFirst(g, '-', ' '));
    OrElse(Chain(goal, shown), NotSpecified)
  }

  /**
   * The shape shared by the experience and preferred-time cells: on a present
   * value `x` whose (possibly rewritten) text is `u`, the first character of
   * `u` upper-cased plus the rest of `u`; `undefined + undefined` when `x` is
   * missing; either way joined with `||` to the placeholder.
   */
  function CapitalisedOr(x: Option<string>, u: string): (r: string)
    ensures x.None? || u == "" ==> r == NotSpecified
    ensures x.Some? && u != "" ==> r == [UpperChar(u[0])] + u[1..]
  {
    assert u != "" ==> CharAt(u, 0) == [u[0]] && ToUpper([u[0]]) == [UpperChar(u[0])];
    OrElse(Plus(Chain(x, ToUpper(CharAt(u, 0))), Chain(x, Slice(u, 1))), NotSpecified)
  }

  /** The experience cell: first character upper-cased plus the rest, or the placeholder. */
  function ExperienceLabel(level: Option<string>): (r: string)
    ensures level == None || level == Some("") ==> r == NotSpecified
    ensures level.Some? && level.value != "" ==>
      r == [UpperChar(level.value[0])] + level.value[1..]
  {
    CapitalisedOr(level, level.GetOr(""))
  }

  /** The preferred-time cell: the time with its first dash spaced, then capitalised, or the placeholder. */
  function PreferredTimeLabel(time: Option<string>): (r: string)
    ensures time == None || time == Some("") ==> r == NotSpecified
    ensures time.Some? && time.value != "" ==> |r| == |time.value|
  {
    CapitalisedOr(time, ReplaceFirst(time.GetOr(""), '-', ' '))
  }

  /**
   * A shown goal is the goal with its first dash (if any) turned into a space
   * and every letter upper-cased, character by character.
   */
  lemma FitnessGoalChars(g: string)
    requires g != ""
    ensures var r := FitnessGoalLabel(Some(g));
      |r| == |g| &&
      forall i :: 0 <= i < |r| ==> r[i] == UpperChar(if i == IndexOf(g, '-') then ' ' else g[i])
  {
    FitnessGoalPresent(g);
    ReplaceFirstAt(g, '-', ' ');
  }

  /**
   * A shown time is the time with its first dash (if any) turned into a space
   * and only its first character upper-cased.
   */
  lemma PreferredTimeChars(t: string)
    requires t != ""
    ensures var r := PreferredTimeLabel(Some(t));
      |r| == |t| &&
      r[0] == UpperChar(if IndexOf(t, '-') == 0 then ' ' else t[0]) &&
      forall i :: 0 < i < |r| ==> r[i] == (if i == IndexOf(t, '-') then ' ' else t[i])
  {
    PreferredTimePresent(t);
    ReplaceFirstAt(t, '-', ' ');
  }

  /** Character by character, replacing changes the first occurrence and nothing else. */
  lemma ReplaceFirstAt(s: string, pattern: char, replacement: char)
    ensures var r := ReplaceFirst(s, pattern, replacement);
      forall i :: 0 <= i < |s| ==> r[i] == if i == IndexOf(s, pattern) then replacement else s[i]
  {
    var r := ReplaceFirst(s, pattern, replacement);
    var k := IndexOf(s, pattern);
    forall i | 0 <= i < |s| ensures r[i] == if i == k then replacement else s[i] {
      if k >= 0 {
        if i < k { assert r[i] == s[..k][i]; }
        else if i > k { assert r[i] == s[k + 1..][i - k - 1]; }
      }
    }
  }

  /** Only the first dash is replaced: every character after it is left as it was. */
  lemma {:induction false} ReplaceFirstKeepsRest(s: string, pattern: char, replacement: char)
    requires pattern in s
    ensures ReplaceFirst(s, pattern, replacement)[IndexOf(s, pattern) + 1..] == s[IndexOf(s, pattern) + 1..]
    ensures multiset(ReplaceFirst(s, pattern, replacement)) == multiset(s) - multiset{pattern} + multiset{replacement}
  {
    var i := IndexOf(s, pattern);
    var r := ReplaceFirst(s, pattern, replacement);
    assert s == s[..i] + [pattern] + s[i + 1..];
    calc {
      multiset(r);
      multiset(s[..i]) + multiset{replacement} + multiset(s[i + 1..]);
      multiset(s) - multiset{pattern} + multiset{replacement};
    }
  }

  /** The first occurrence is the only index `IndexOf` can return. */
  lemma IndexOfAt(s: string, c: char, k: nat)
    requires k < |s| && s[k] == c && c !in s[..k]
    ensures IndexOf(s, c) == k
  {
  }

  /** Upper-casing distributes over concatenation. */
  lemma ToUpperConcat(x: string, y: string)
    ensures ToUpper(x + y) == ToUpper(x) + ToUpper(y)
  {
    assert forall i :: 0 <= i < |x + y| ==> ToUpper(x + y)[i] == (ToUpper(x) + ToUpper(y))[i];
  }

  /** In `a` + pattern + `b` with no pattern in `a`, the replaced occurrence is the one after `a`. */
  lemma ReplaceFirstAfter(a: string, pattern: char, replacement: char, b: string)
    requires pattern !in a
    ensures ReplaceFirst(a + [pattern] + b, pattern, replacement) == a + [replacement] + b
  {
    var s := a + [pattern] + b;
    IndexOfAt(s, pattern, |a|);
    assert s[..|a|] == a && s[|a| + 1..] == b;
  }

  /** A space between two strings is kept by upper-casing. */
  lemma ToUpperAroundSpace(a: string, b: string)
    ensures ToUpper(a + " " + b) == ToUpper(a) + " " + ToUpper(b)
  {
    ToUpperConcat(a, " " + b);
    ToUpperConcat(" ", b);
    assert ToUpper(" ") == " ";
    assert a + " " + b == a + (" " + b);
  }

  /** A present, non-empty goal is shown as its replaced, upper-cased text. */
  lemma FitnessGoalPresent(g: string)
    requires g != ""
    ensures FitnessGoalLabel(Some(g)) == ToUpper(ReplaceFirst(g, '-', ' '))
  {
  }

  /** A goal `a-b` whose first dash follows `a` is shown as `A B`, later dashes kept. */
  lemma FitnessGoalOfDashed(a: string, b: string)
    requires '-' !in a
    ensures FitnessGoalLabel(Some(a + "-" + b)) == ToUpper(a) + " " + ToUpper(b)
  {
    ReplaceFirstAfter(a, '-', ' ', b);
    ToUpperAroundSpace(a, b);
    FitnessGoalPresent(a + "-" + b);
  }

  /** `'beginner'` is shown as `'Beginner'`. */
  lemma ExperienceExample()
    ensures ExperienceLabel(Some("beginner")) == "Beginner"
  {
  }

  /** A present, non-empty time is its replaced text with the first character upper-cased. */
  lemma PreferredTimePresent(t: string)
    requires t != ""
    ensures PreferredTimeLabel(Some(t)) ==
      [UpperChar(ReplaceFirst(t, '-', ' ')[0])] + ReplaceFirst(t, '-', ' ')[1..]
  {
  }

  /** A time `a-b` (with `a` non-empty and dash-free) is shown as `A` capitalised, a space, then `b` unchanged. */
  lemma PreferredTimeOfDashed(a: string, b: string)
    requires a != "" && '-' !in a
    ensures PreferredTimeLabel(Some(a + "-" + b)) == [UpperChar(a[0])] + a[1..] + " " + b
  {
    var g := a + "-" + b;
    ReplaceFirstAfter(a, '-', ' ', b);
    PreferredTimePresent(g);
    SpacedHeadTail(a, b);
  }

  /** The head and tail of `a` + space + `b`, for a non-empty `a`. */
  lemma SpacedHeadTail(a: string, b: string)
    requires a != ""
    ensures var t := a + " " + b; t[0] == a[0] && t[1..] == a[1..] + " " + b
  {
  }
}
