/**
 * The string operations the engine relies on: lowercasing, substring
 * containment (Python's `in` on strings) and splitting on a separator
 * character (Python's `str.split`).
 */
module Text {

  predicate IsUpper(c: char) {
    'A' <= c <= 'Z'
  }

  function LowerChar(c: char): char {
    if IsUpper(c) then (c as int + 32) as char else c
  }

  /** A string in which no character is an upper-case letter. */
  predicate IsLower(s: string) {
    forall i :: 0 <= i < |s| ==> !IsUpper(s[i])
  }

  /** `str.lower()`, restricted to the ASCII letters. */
  function Lower(s: string): (r: string)
    ensures |r| == |s|
  {
    if s == [] then [] else [LowerChar(s[0])] + Lower(s[1..])
  }

  /** Each character is lowercased on its own. */
  lemma {:induction false} LowerPointwise(s: string)
    ensures forall i :: 0 <= i < |s| ==> Lower(s)[i] == LowerChar(s[i])
  {
    if s != [] {
      LowerPointwise(s[1..]);
    }
  }

  /** The result has no upper-case letter, and lowercasing changes no string that has none. */
  lemma LowerIsLower(s: string)
    ensures IsLower(Lower(s))
    ensures IsLower(s) ==> Lower(s) == s
  {
    LowerPointwise(s);
  }

  /** `needle` occurs in `hay` starting at position `i`. */
  predicate OccursAt(hay: string, needle: string, i: int) {
    0 <= i && i + |needle| <= |hay| && hay[i..i + |needle|] == needle
  }

  /** `hay.startswith(prefix)`. */
  predicate StartsWith(hay: string, prefix: string) {
    |prefix| <= |hay| && (|prefix| == 0 || (hay[0] == prefix[0] && StartsWith(hay[1..], prefix[1..])))
  }

  /** Python's `needle in hay` for strings: `needle` starts at some position of `hay`. */
  predicate Contains(hay: string, needle: string)
    decreases |hay|
  {
    StartsWith(hay, needle) || (|hay| > 0 && Contains(hay[1..], needle))
  }

  lemma {:induction false} StartsWithIsPrefix(hay: string, prefix: string)
    ensures StartsWith(hay, prefix) <==> OccursAt(hay, prefix, 0)
    decreases |prefix|
  {
    if |prefix| > 0 && |prefix| <= |hay| {
      StartsWithIsPrefix(hay[1..], prefix[1..]);
      assert hay[..|prefix|] == [hay[0]] + hay[1..][..|prefix| - 1];
      assert prefix == [prefix[0]] + prefix[1..];
    }
  }

  /** The search agrees with the positional definition of a substring. */
  lemma {:induction false} ContainsOccurs(hay: string, needle: string)
    ensures Contains(hay, needle) <==> exists i :: 0 <= i <= |hay| && OccursAt(hay, needle, i)
    decreases |hay|
  {
    StartsWithIsPrefix(hay, needle);
    if |hay| > 0 {
      var tail := hay[1..];
      ContainsOccurs(tail, needle);
      forall i | 0 <= i <= |tail|
        ensures OccursAt(tail, needle, i) <==> OccursAt(hay, needle, i + 1)
      {
        if i + |needle| <= |tail| {
          assert tail[i..i + |needle|] == hay[i + 1..i + 1 + |needle|];
        }
      }
      if exists i :: 0 <= i <= |hay| && OccursAt(hay, needle, i) {
        var i :| 0 <= i <= |hay| && OccursAt(hay, needle, i);
        if i > 0 {
          assert OccursAt(tail, needle, i - 1);
        }
      }
    }
  }

  lemma {:induction false} StartsWithItself(s: string)
    ensures StartsWith(s, s)
    decreases |s|
  {
    if |s| > 0 {
      StartsWithItself(s[1..]);
    }
  }

  lemma ContainsItself(s: string)
    ensures Contains(s, s)
  {
    StartsWithItself(s);
  }

  /** The position of the first `c` in `s`. */
  function FirstIndexOf(s: string, c: char): (i: nat)
    requires c in s
    ensures i < |s| && s[i] == c && c !in s[..i]
  {
    if s[0] == c then 0 else 1 + FirstIndexOf(s[1..], c)
  }

  /**
   * `s.split(sep)` for a one-character separator: the pieces between
   * consecutive separators, so there is always one piece more than there
   * are separators, and no piece contains the separator.
   */
  function Split(s: string, sep: char): (parts: seq<string>)
    ensures |parts| >= 1
    ensures |parts| >= 2 <==> sep in s
    decreases |s|
  {
    if sep !in s then [s]
    else
      var i := FirstIndexOf(s, sep);
      [s[..i]] + Split(s[i + 1..], sep)
  }

  /** No piece of a split contains the separator. */
  lemma {:induction false} SplitPieces(s: string, sep: char)
    ensures forall k :: 0 <= k < |Split(s, sep)| ==> sep !in Split(s, sep)[k]
    decreases |s|
  {
    if sep in s {
      var i := FirstIndexOf(s, sep);
      SplitPieces(s[i + 1..], sep);
    }
  }

  /** `sep.join(parts)`. */
  function Join(parts: seq<string>, sep: char): string
    requires |parts| >= 1
  {
    if |parts| == 1 then parts[0] else parts[0] + [sep] + Join(parts[1..], sep)
  }

  /** Joining the pieces back with the separator gives the original string. */
  lemma {:induction false} JoinSplit(s: string, sep: char)
    ensures Join(Split(s, sep), sep) == s
    decreases |s|
  {
    if sep in s {
      var i := FirstIndexOf(s, sep);
      var rest := s[i + 1..];
      JoinSplit(rest, sep);
      var parts := Split(s, sep);
      assert parts == [s[..i]] + Split(rest, sep);
      assert parts[1..] == Split(rest, sep);
      assert s == s[..i] + [sep] + rest;
    }
  }

  /** Splitting a join of separator-free pieces gives the pieces back. */
  lemma {:induction false} SplitJoin(parts: seq<string>, sep: char)
    requires |parts| >= 1
    requires forall k :: 0 <= k < |parts| ==> sep !in parts[k]
    ensures Split(Join(parts, sep), sep) == parts
    decreases |parts|
  {
    if |parts| > 1 {
      var rest := Join(parts[1..], sep);
      var s := parts[0] + [sep] + rest;
      assert s[|parts[0]|] == sep;
      assert s[..|parts[0]|] == parts[0];
      var i := FirstIndexOf(s, sep);
      assert i == |parts[0]|;
      assert s[i + 1..] == rest;
      SplitJoin(parts[1..], sep);
      assert parts == [parts[0]] + parts[1..];
    }
  }
}
