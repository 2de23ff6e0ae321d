/**
 * `String.prototype.replace` with a string pattern, as ECMAScript defines it:
 * only the FIRST occurrence is replaced, and the replacement string is read
 * through the GetSubstitution abstract operation of ECMA-262, where `$$`, `$&`,
 * `` $` `` and `$'` are special. With a string pattern there are no capture
 * groups, so every other `$` stands for itself.
 */
module JsString {
  import opened Wrappers

  /** `p` occurs in `s` starting at index `i`. */
  predicate OccursAt(s: string, p: string, i: nat) {
    i + |p| <= |s| && s[i..i + |p|] == p
  }

  /** The first index at or after `k` where `p` occurs in `s`. */
  function IndexFrom(s: string, p: string, k: nat): (r: Option<nat>)
    ensures r.Some? ==> k <= r.value && OccursAt(s, p, r.value)
    ensures r.Some? ==> forall j :: k <= j < r.value ==> !OccursAt(s, p, j)
    ensures r.None? ==> forall j :: k <= j ==> !OccursAt(s, p, j)
    decreases |s| - k
  {
    if k + |p| > |s| then None
    else if s[k..k + |p|] == p then Some(k)
    else IndexFrom(s, p, k + 1)
  }

  /** `p` occurs nowhere in `s`. */
  predicate Absent(s: string, p: string) {
    forall j :: 0 <= j <= |s| ==> !OccursAt(s, p, j)
  }

  /** `s.indexOf(p)`, with `None` for -1. The empty pattern is found at 0. */
  function IndexOf(s: string, p: string): (r: Option<nat>)
    ensures r.Some? ==> OccursAt(s, p, r.value) && forall j :: 0 <= j < r.value ==> !OccursAt(s, p, j)
    ensures r.None? <==> Absent(s, p)
  {
    IndexFrom(s, p, 0)
  }

  /** GetSubstitution for a match with no capture groups. */
  function Substitution(matched: string, before: string, after: string, replacement: string): string
    decreases |replacement|
  {
    if |replacement| == 0 then ""
    else if replacement[0] == '$' && |replacement| >= 2 then
      var rest := Substitution(matched, before, after, replacement[2..]);
      match replacement[1]
      case '$' => "$" + rest
      case '&' => matched + rest
      case '`' => before + rest
      case '\'' => after + rest
      case _ => "$" + Substitution(matched, before, after, replacement[1..])
    else [replacement[0]] + Substitution(matched, before, after, replacement[1..])
  }

  /** `s.replace(p, replacement)` with a string pattern `p`. */
  function ReplaceFirst(s: string, p: string, replacement: string): string {
    match IndexOf(s, p)
    case None => s
    case Some(i) => s[..i] + Substitution(p, s[..i], s[i + |p|..], replacement) + s[i + |p|..]
  }

  /** A replacement without `$` is inserted verbatim. */
  lemma {:induction false} SubstitutionVerbatim(matched: string, before: string, after: string, replacement: string)
    requires '$' !in replacement
    ensures Substitution(matched, before, after, replacement) == replacement
    decreases |replacement|
  {
    if |replacement| > 0 {
      assert replacement == [replacement[0]] + replacement[1..];
      SubstitutionVerbatim(matched, before, after, replacement[1..]);
    }
  }

  /** `$$` anywhere in a replacement is inserted as a single `$`: the replacement is then not verbatim. */
  lemma DollarPairCollapses(matched: string, before: string, after: string, rest: string)
    ensures Substitution(matched, before, after, "$$" + rest) == "$" + Substitution(matched, before, after, rest)
  {
    assert ("$$" + rest)[2..] == rest;
  }

  /** When `p` does not occur, `replace` returns `s` unchanged. */
  lemma ReplaceAbsent(s: string, p: string, replacement: string)
    requires Absent(s, p)
    ensures ReplaceFirst(s, p, replacement) == s
  {
  }

  /**
   * When the first occurrence of `p` is the one right after `prefix`, and the
   * replacement has no `$`, `replace` swaps exactly that occurrence for the
   * replacement.
   */
  lemma ReplaceAtFirstOccurrence(prefix: string, p: string, suffix: string, replacement: string)
    requires forall j :: 0 <= j < |prefix| ==> !OccursAt(prefix + p + suffix, p, j)
    requires '$' !in replacement
    ensures ReplaceFirst(prefix + p + suffix, p, replacement) == prefix + replacement + suffix
  {
    var s := prefix + p + suffix;
    assert OccursAt(s, p, |prefix|) by {
      assert s[|prefix|..|prefix| + |p|] == p;
    }
    var i := IndexOf(s, p).value;
    assert i == |prefix|;
    assert s[..i] == prefix;
    assert s[i + |p|..] == suffix;
    SubstitutionVerbatim(p, prefix, suffix, replacement);
  }

  /**
   * Replacing a placeholder that follows `prefix`: when the placeholder does
   * not occur inside `prefix` and cannot straddle its end (its characters all
   * differ from the last character of `prefix`), the replacement lands exactly
   * where the placeholder was.
   */
  lemma ReplacePlaceholder(prefix: string, p: string, suffix: string, replacement: string)
    requires |prefix| > 0
    requires forall k :: 0 <= k < |p| ==> p[k] != prefix[|prefix| - 1]
    requires p != "" ==> forall j :: 0 <= j < |prefix| ==> !OccursAt(prefix, p, j)
    requires p == "" ==> replacement == ""
    requires '$' !in replacement
    ensures ReplaceFirst(prefix + p + suffix, p, replacement) == prefix + replacement + suffix
  {
    var text := prefix + p + suffix;
    if p == "" {
      assert OccursAt(text, p, 0);
      assert text == prefix + replacement + suffix;
    } else {
      forall j | 0 <= j < |prefix|
        ensures !OccursAt(text, p, j)
      {
        if j + |p| <= |prefix| {
          assert prefix[j..j + |p|] == text[j..j + |p|];
          assert !OccursAt(prefix, p, j);
        } else if j + |p| <= |text| {
          assert text[|prefix| - 1] == prefix[|prefix| - 1];
          assert p[|prefix| - 1 - j] != prefix[|prefix| - 1];
          assert text[j..j + |p|][|prefix| - 1 - j] == prefix[|prefix| - 1];
        }
      }
      ReplaceAtFirstOccurrence(prefix, p, suffix, replacement);
    }
  }
}
