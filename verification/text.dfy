/**
 * String helpers with JavaScript semantics: `String.prototype.split` on a
 * one-character separator, `endsWith`, and `Number.prototype.toString()` on a
 * non-negative integer.
 */
module Text {

  /** `s.endsWith(suffix)`. */
  predicate EndsWith(s: string, suffix: string) {
    |suffix| <= |s| && s[|s| - |suffix|..] == suffix
  }

  /** `s.split(sep)` for a one-character separator: never empty, and `"".split(sep) == [""]`. */
  function Split(s: string, sep: char): (r: seq<string>)
    ensures |r| >= 1
    decreases |s|
  {
    if |s| == 0 then [""]
    else
      var rest := Split(s[1..], sep);
      if s[0] == sep then [""] + rest else [[s[0]] + rest[0]] + rest[1..]
  }

  /** `parts.join(sep)`. */
  function Join(parts: seq<string>, sep: char): string
    requires |parts| >= 1
    decreases |parts|
  {
    if |parts| == 1 then parts[0] else parts[0] + [sep] + Join(parts[1..], sep)
  }

  /** No piece produced by `Split` contains the separator. */
  lemma {:induction false} SplitPiecesFree(s: string, sep: char)
    ensures forall k :: 0 <= k < |Split(s, sep)| ==> sep !in Split(s, sep)[k]
    decreases |s|
  {
    if |s| > 0 {
      SplitPiecesFree(s[1..], sep);
    }
  }

  /** Joining the pieces back with the separator gives the original string. */
  lemma {:induction false} SplitJoin(s: string, sep: char)
    ensures Join(Split(s, sep), sep) == s
    decreases |s|
  {
    if |s| > 0 {
      var rest := Split(s[1..], sep);
      SplitJoin(s[1..], sep);
      if s[0] == sep {
        assert Split(s, sep) == [""] + rest;
        assert ([""] + rest)[1..] == rest;
        assert s == [sep] + s[1..];
      } else {
        var r := Split(s, sep);
        assert r == [[s[0]] + rest[0]] + rest[1..];
        if |rest| == 1 {
          assert s == [s[0]] + rest[0];
        } else {
          assert r[1..] == rest[1..];
          assert Join(rest, sep) == rest[0] + [sep] + Join(rest[1..], sep);
          assert s == [s[0]] + s[1..];
        }
      }
    }
  }

  /** A string with no separator splits into itself alone. */
  lemma {:induction false} SplitWithoutSeparator(s: string, sep: char)
    requires sep !in s
    ensures Split(s, sep) == [s]
    decreases |s|
  {
    if |s| > 0 {
      SplitWithoutSeparator(s[1..], sep);
      assert s == [s[0]] + s[1..];
    }
  }

  /** The first two pieces: `s` is the first piece, the separator, the second piece and a tail that is empty or starts with the separator. */
  lemma {:induction false} SplitSecondPiece(s: string, sep: char) returns (tail: string)
    requires sep in s
    ensures |Split(s, sep)| >= 2
    ensures s == Split(s, sep)[0] + [sep] + Split(s, sep)[1] + tail
    ensures tail == [] || tail[0] == sep
  {
    var r := Split(s, sep);
    SplitJoin(s, sep);
    if |r| == 1 {
      SplitPiecesFree(s, sep);
      assert false;
    }
    if |r| == 2 {
      assert Join(r[1..], sep) == r[1];
      tail := [];
      assert s == r[0] + [sep] + r[1] + tail;
    } else {
      tail := [sep] + Join(r[2..], sep);
      assert r[1..][1..] == r[2..];
      assert Join(r[1..], sep) == r[1] + [sep] + Join(r[2..], sep);
      assert s == r[0] + [sep] + r[1] + tail;
    }
  }

  /** `s` is `first`, the separator, `piece` and a `tail` that is empty or starts with the separator; `first` has no separator. */
  ghost predicate AroundFirstSeparator(s: string, sep: char, first: string, piece: string, tail: string) {
    s == first + [sep] + piece + tail && sep !in first && (tail == [] || tail[0] == sep)
  }

  /** `piece` is the text between the first occurrence of `sep` in `s` and the next one (or the end). */
  ghost predicate SecondPiece(s: string, sep: char, piece: string) {
    && sep !in piece
    && exists first, tail :: AroundFirstSeparator(s, sep, first, piece, tail)
  }

  /** Any decomposition around the first separator names the second piece. */
  lemma SecondPieceIntro(s: string, sep: char, first: string, piece: string, tail: string)
    requires s == first + [sep] + piece + tail && sep !in first && sep !in piece
    requires tail == [] || tail[0] == sep
    ensures SecondPiece(s, sep, piece)
  {
    assert AroundFirstSeparator(s, sep, first, piece, tail);
  }

  /** With a separator present, `split(sep)[1]` is the text between the first and the second separator. */
  lemma {:induction false} SplitNickname(s: string, sep: char)
    requires sep in s
    ensures |Split(s, sep)| > 1 && SecondPiece(s, sep, Split(s, sep)[1])
  {
    var r := Split(s, sep);
    var tail := SplitSecondPiece(s, sep);
    SplitPiecesFree(s, sep);
    assert sep !in r[0] && sep !in r[1];
    SecondPieceIntro(s, sep, r[0], r[1], tail);
  }

  /** The decimal digit character for `d`. */
  function DigitChar(d: nat): (c: char)
    requires d < 10
    ensures '0' <= c <= '9'
  {
    (('0' as int) + d) as char
  }

  /** `n.toString()` for a non-negative integer: decimal digits, no leading zero. */
  function Decimal(n: nat): (r: string)
    ensures |r| >= 1
    ensures forall k :: 0 <= k < |r| ==> '0' <= r[k] <= '9'
    ensures |r| > 1 ==> r[0] != '0'
    decreases n
  {
    if n < 10 then [DigitChar(n)] else Decimal(n / 10) + [DigitChar(n % 10)]
  }

  /** Reads a string of decimal digits back as a number. */
  function ParseDecimal(s: string): nat
    requires forall k :: 0 <= k < |s| ==> '0' <= s[k] <= '9'
    decreases |s|
  {
    if s == [] then 0
    else ParseDecimal(s[..|s| - 1]) * 10 + ((s[|s| - 1] as int) - ('0' as int))
  }

  /** Printing a number in decimal and reading it back gives the number. */
  lemma {:induction false} DecimalRoundTrip(n: nat)
    ensures ParseDecimal(Decimal(n)) == n
    decreases n
  {
    if n >= 10 {
      DecimalRoundTrip(n / 10);
      var s := Decimal(n);
      assert s[..|s| - 1] == Decimal(n / 10);
    }
  }

  /** Distinct numbers print as distinct strings. */
  lemma DecimalInjective(a: nat, b: nat)
    requires Decimal(a) == Decimal(b)
    ensures a == b
  {
    DecimalRoundTrip(a);
    DecimalRoundTrip(b);
  }
}
