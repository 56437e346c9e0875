/**
 * The handful of JavaScript string operations the extension relies on,
 * written over `string` (a sequence of UTF-16 code units in JavaScript,
 * a sequence of `char` here): `endsWith`, `Array.prototype.join`,
 * `split` with a string separator and `trim`.
 */
module Strings {

  /**
   * `s.endsWith(suffix)`: a literal, case-sensitive trailing match,
   * compared from the last character backwards.
   */
  predicate EndsWith(s: string, suffix: string)
  {
    if suffix == [] then true
    else s != [] && s[|s| - 1] == suffix[|suffix| - 1] && EndsWith(s[..|s| - 1], suffix[..|suffix| - 1])
  }

  /** The trailing match holds exactly when `suffix` is the tail of `s`. */
  lemma {:induction false} EndsWithIsTail(s: string, suffix: string)
    ensures EndsWith(s, suffix) <==> |suffix| <= |s| && s[|s| - |suffix|..] == suffix
  {
    if suffix != [] && s != [] {
      var s', t' := s[..|s| - 1], suffix[..|suffix| - 1];
      EndsWithIsTail(s', t');
      if |suffix| <= |s| {
        assert s[|s| - |suffix|..] == s'[|s'| - |t'|..] + [s[|s| - 1]];
        assert suffix == t' + [suffix[|suffix| - 1]];
      }
    }
  }

  /** `needle` occurs in `s` starting at position `i`. */
  predicate OccursAt(needle: string, s: string, i: int)
  {
    0 <= i && i + |needle| <= |s| && s[i..i + |needle|] == needle
  }

  /** `needle` occurs somewhere inside `s`. */
  predicate IsInfix(needle: string, s: string)
  {
    exists i :: 0 <= i <= |s| && OccursAt(needle, s, i)
  }

  /** `parts.join(sep)` */
  function JoinWith(parts: seq<string>, sep: string): string
  {
    if |parts| == 0 then ""
    else if |parts| == 1 then parts[0]
    else parts[0] + sep + JoinWith(parts[1..], sep)
  }

  lemma {:induction false} JoinWithStartsWithFirst(parts: seq<string>, sep: string)
    requires |parts| >= 1
    ensures parts[0] <= JoinWith(parts, sep)
  {
  }

  lemma JoinWithCons(first: string, rest: seq<string>, sep: string)
    requires |rest| >= 1
    ensures JoinWith([first] + rest, sep) == first + sep + JoinWith(rest, sep)
  {
    assert ([first] + rest)[1..] == rest;
  }

  lemma JoinWithGrowFirst(c: char, rest: seq<string>, sep: string)
    requires |rest| >= 1
    ensures JoinWith([[c] + rest[0]] + rest[1..], sep) == [c] + JoinWith(rest, sep)
  {
    if |rest| > 1 {
      JoinWithCons([c] + rest[0], rest[1..], sep);
      assert rest == [rest[0]] + rest[1..];
      JoinWithCons(rest[0], rest[1..], sep);
    }
  }

  /**
   * `s.split(sep)` for a non-empty string separator: the separator is
   * matched leftmost first and without overlap, and the pieces in between
   * are returned in order; a string without the separator gives one piece.
   * The pieces glue back into `s` and none of them holds the separator.
   */
  function Split(s: string, sep: string): (parts: seq<string>)
    requires sep != []
    ensures |parts| >= 1
    ensures JoinWith(parts, sep) == s
    ensures forall k :: 0 <= k < |parts| ==> !IsInfix(sep, parts[k])
    decreases |s|
  {
    if |s| < |sep| then
      assert !IsInfix(sep, s);
      [s]
    else if s[..|sep|] == sep then
      var rest := Split(s[|sep|..], sep);
      JoinWithCons([], rest, sep);
      assert s == [] + sep + s[|sep|..];
      assert !IsInfix(sep, []);
      PiecesWithoutSeparator([], rest, sep);
      [[]] + rest
    else
      var rest := Split(s[1..], sep);
      var first := [s[0]] + rest[0];
      JoinWithStartsWithFirst(rest, sep);
      FirstPieceHasNoSeparator(s, sep, rest[0]);
      JoinWithGrowFirst(s[0], rest, sep);
      assert s == [s[0]] + s[1..];
      PiecesWithoutSeparator(first, rest[1..], sep);
      [first] + rest[1..]
  }

  lemma PiecesWithoutSeparator(first: string, rest: seq<string>, sep: string)
    requires !IsInfix(sep, first)
    requires forall k :: 0 <= k < |rest| ==> !IsInfix(sep, rest[k])
    ensures forall k :: 0 <= k < |[first] + rest| ==> !IsInfix(sep, ([first] + rest)[k])
  {
  }

  lemma FirstPieceHasNoSeparator(s: string, sep: string, tail: string)
    requires sep != [] && |sep| <= |s| && s[..|sep|] != sep
    requires [s[0]] + tail <= s
    requires !IsInfix(sep, tail)
    ensures !IsInfix(sep, [s[0]] + tail)
  {
    var first := [s[0]] + tail;
    forall i | 0 <= i <= |first| ensures !OccursAt(sep, first, i) {
      if i == 0 {
        if |sep| <= |first| {
          assert first[..|sep|] == s[..|sep|];
        }
      } else if i + |sep| <= |first| {
        assert first[i..i + |sep|] == tail[i - 1..i - 1 + |sep|];
        assert !OccursAt(sep, tail, i - 1);
      }
    }
  }

  /**
   * The code points `String.prototype.trim` removes: ECMAScript's
   * WhiteSpace and LineTerminator productions.
   */
  predicate IsWhitespace(c: char)
  {
    if c <= ' ' then c == ' ' || '\t' <= c <= '\r'
    else
      c == '\U{00A0}' || c == '\U{1680}' || ('\U{2000}' <= c <= '\U{200A}')
      || c == '\U{2028}' || c == '\U{2029}' || c == '\U{202F}' || c == '\U{205F}'
      || c == '\U{3000}' || c == '\U{FEFF}'
  }

  /** The first position at or after `from` that is not whitespace (or |s|). */
  function ContentStart(s: string, from: nat): (lo: nat)
    requires from <= |s|
    ensures from <= lo <= |s|
    ensures forall k :: from <= k < lo ==> IsWhitespace(s[k])
    ensures lo < |s| ==> !IsWhitespace(s[lo])
    decreases |s| - from
  {
    if from < |s| && IsWhitespace(s[from]) then ContentStart(s, from + 1) else from
  }

  /** The end of `s[lo..limit]` once its trailing whitespace is cut. */
  function ContentEnd(s: string, lo: nat, limit: nat): (hi: nat)
    requires lo <= limit <= |s|
    ensures lo <= hi <= limit
    ensures forall k :: hi <= k < limit ==> IsWhitespace(s[k])
    ensures lo < hi ==> !IsWhitespace(s[hi - 1])
    decreases limit
  {
    if lo < limit && IsWhitespace(s[limit - 1]) then ContentEnd(s, lo, limit - 1) else limit
  }

  /**
   * `s.trim()`: the infix `s[lo..hi]` left after cutting whitespace at both
   * ends; everything cut is whitespace and the result neither starts nor
   * ends with whitespace.
   */
  function Trim(s: string): (r: string)
    ensures var lo := ContentStart(s, 0);
            var hi := ContentEnd(s, lo, |s|);
              && r == s[lo..hi]
              && (forall k :: 0 <= k < lo ==> IsWhitespace(s[k]))
              && (forall k :: hi <= k < |s| ==> IsWhitespace(s[k]))
    ensures r == [] || (!IsWhitespace(r[0]) && !IsWhitespace(r[|r| - 1]))
  {
    var lo := ContentStart(s, 0);
    s[lo..ContentEnd(s, lo, |s|)]
  }
}
