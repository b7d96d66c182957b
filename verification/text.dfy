/**
 * The JavaScript string primitives the front-end relies on, over `string`
 * (a sequence of Unicode scalar values): `\s` and `trim`, `split` on a
 * character class, `join`, `includes`, `startsWith`, `replace` of the first
 * occurrence, `slice(0, n)`, and `toLowerCase`/`toUpperCase`.
 */
module Text {

  /** ECMAScript WhiteSpace and LineTerminator: the class `\s` matches and `trim` removes. */
  predicate IsSpace(c: char) {
    || c == ' ' || c == '\t' || c == '\n' || c == '\r' || c == '\U{000B}' || c == '\U{000C}'
    || c == '\U{00A0}' || c == '\U{1680}' || ('\U{2000}' <= c <= '\U{200A}')
    || c == '\U{2028}' || c == '\U{2029}' || c == '\U{202F}' || c == '\U{205F}'
    || c == '\U{3000}' || c == '\U{FEFF}'
  }

  predicate NotSpace(c: char) {
    !IsSpace(c)
  }

  /** No character of `s` satisfies `p`. */
  predicate NoneOf(s: string, p: char -> bool) {
    forall i :: 0 <= i < |s| ==> !p(s[i])
  }

  /** Every character of `s` satisfies `q`. */
  predicate AllOf(s: string, q: char -> bool) {
    forall i :: 0 <= i < |s| ==> q(s[i])
  }

  /** Every character of every string in `parts` satisfies `q`. */
  predicate EachAllOf(parts: seq<string>, q: char -> bool) {
    forall k :: 0 <= k < |parts| ==> AllOf(parts[k], q)
  }

  predicate AllSpace(s: string) {
    forall i :: 0 <= i < |s| ==> IsSpace(s[i])
  }

  /** `s` does not start with whitespace: what `trimStart` returns. */
  predicate NoLeadingSpace(s: string) {
    s == [] || !IsSpace(s[0])
  }

  /** `s` does not end with whitespace: what `trimEnd` returns. */
  predicate NoTrailingSpace(s: string) {
    s == [] || !IsSpace(s[|s| - 1])
  }

  /** Neither end of `s` is whitespace: what `trim` returns. */
  predicate Trimmed(s: string) {
    NoLeadingSpace(s) && NoTrailingSpace(s)
  }

  function Min(a: int, b: int): int {
    if a <= b then a else b
  }

  // ---------------------------------------------------------------- trimming

  /** `trimStart`: the suffix left after the leading whitespace run. */
  function TrimStart(s: string): (r: string)
    ensures |r| <= |s| && r == s[|s| - |r|..]
    ensures AllSpace(s[..|s| - |r|])
    ensures NoLeadingSpace(r)
  {
    if s != [] && IsSpace(s[0]) then
      var r := TrimStart(s[1..]);
      SpacesBefore(s, |s| - |r|);
      r
    else s
  }

  /** `trimEnd`: the prefix left before the trailing whitespace run. */
  function TrimEnd(s: string): (r: string)
    ensures |r| <= |s| && r == s[..|r|]
    ensures AllSpace(s[|r|..])
    ensures NoTrailingSpace(r)
  {
    if s != [] && IsSpace(s[|s| - 1]) then
      var r := TrimEnd(s[..|s| - 1]);
      SpacesAfter(s, |r|);
      r
    else s
  }

  lemma SpacesBefore(s: string, k: nat)
    requires 0 < k <= |s| && IsSpace(s[0]) && AllSpace(s[1..][..k - 1])
    ensures AllSpace(s[..k])
  {
    forall i | 0 <= i < k ensures IsSpace(s[..k][i]) {
      if i > 0 { assert s[..k][i] == s[1..][..k - 1][i - 1]; }
    }
  }

  lemma SpacesAfter(s: string, k: nat)
    requires k < |s| && IsSpace(s[|s| - 1]) && AllSpace(s[..|s| - 1][k..])
    ensures AllSpace(s[k..])
  {
    forall i | 0 <= i < |s| - k ensures IsSpace(s[k..][i]) {
      if i < |s| - 1 - k { assert s[k..][i] == s[..|s| - 1][k..][i]; }
    }
  }

  /** `r` is `s` with the whitespace runs `s[..i]` and `s[i + |r|..]` cut off. */
  predicate TrimsTo(s: string, r: string, i: int) {
    0 <= i <= |s| - |r| && r == s[i..i + |r|] && AllSpace(s[..i]) && AllSpace(s[i + |r|..])
  }

  /** `trim`: `s` without its leading and trailing whitespace. */
  function Trim(s: string): (r: string)
    ensures Trimmed(r) && |r| <= |s|
    ensures Trimmed(s) ==> r == s
  {
    TrimEnd(TrimStart(s))
  }

  /** What `trim` cuts off on either side is whitespace, and what it keeps is a slice of `s`. */
  lemma {:induction false} TrimSlice(s: string)
    ensures TrimsTo(s, Trim(s), |s| - |TrimStart(s)|)
    ensures Trim(s) == [] <==> AllSpace(s)
  {
    var a := TrimStart(s);
    var r := TrimEnd(a);
    assert r == Trim(s);
    var i := |s| - |a|;
    assert a == s[i..];
    assert r == s[i..i + |r|];
    assert AllSpace(s[..i]);
    assert s[i + |r|..] == a[|r|..];
    assert AllSpace(a[|r|..]);
    assert TrimsTo(s, r, i);
    if r == [] {
      assert a == [];
      assert AllSpace(s);
    }
  }

  /** Leading whitespace before a non-blank start is exactly what `trimStart` removes. */
  lemma {:induction false} TrimStartAfterSpaces(w: string, x: string)
    requires AllSpace(w) && (x == [] || !IsSpace(x[0]))
    ensures TrimStart(w + x) == x
  {
    if w != [] {
      assert (w + x)[1..] == w[1..] + x;
      TrimStartAfterSpaces(w[1..], x);
    }
  }

  /** Trailing whitespace after a non-blank end is exactly what `trimEnd` removes. */
  lemma {:induction false} TrimEndBeforeSpaces(x: string, w: string)
    requires AllSpace(w) && (x == [] || !IsSpace(x[|x| - 1]))
    ensures TrimEnd(x + w) == x
  {
    if w != [] {
      assert (x + w)[..|x + w| - 1] == x + w[..|w| - 1];
      TrimEndBeforeSpaces(x, w[..|w| - 1]);
    }
  }

  // --------------------------------------------------- splitting and joining

  /** How many characters of `s` satisfy `p`. */
  function Count(s: string, p: char -> bool): nat {
    if s == [] then 0 else (if p(s[0]) then 1 else 0) + Count(s[1..], p)
  }

  /**
   * `s.split(re)` where `re` matches one character of the class `p`: the
   * fields between separators, empty ones included.
   */
  function Split(s: string, p: char -> bool): (parts: seq<string>)
    ensures |parts| == Count(s, p) + 1
    ensures forall k :: 0 <= k < |parts| ==> NoneOf(parts[k], p)
  {
    if s == [] then [[]]
    else
      var rest := Split(s[1..], p);
      if p(s[0]) then [[]] + rest
      else [[s[0]] + rest[0]] + rest[1..]
  }

  /** `parts.join(sep)`. */
  function Join(parts: seq<string>, sep: string): string {
    if |parts| == 0 then []
    else if |parts| == 1 then parts[0]
    else parts[0] + sep + Join(parts[1..], sep)
  }

  lemma JoinCons(a: string, x: string, ys: seq<string>, sep: string)
    ensures Join([a + x] + ys, sep) == a + Join([x] + ys, sep)
  {
    if ys != [] {
      assert ([a + x] + ys)[1..] == ys;
      assert ([x] + ys)[1..] == ys;
    }
  }

  /** Joining on a single separator undoes splitting on it. */
  lemma {:induction false} JoinSplit(s: string, p: char -> bool, c: char)
    requires forall x :: p(x) ==> x == c
    ensures Join(Split(s, p), [c]) == s
  {
    if s != [] {
      var rest := Split(s[1..], p);
      JoinSplit(s[1..], p, c);
      if p(s[0]) {
        assert ([[]] + rest)[1..] == rest;
      } else {
        assert [[s[0]] + rest[0]] + rest[1..] == [[s[0]] + rest[0]] + rest[1..];
        JoinCons([s[0]], rest[0], rest[1..], [c]);
        assert [rest[0]] + rest[1..] == rest;
      }
    }
  }

  lemma {:induction false} SplitNoSeparator(x: string, p: char -> bool)
    requires NoneOf(x, p)
    ensures Split(x, p) == [x]
  {
    if x != [] {
      assert forall i :: 0 <= i < |x[1..]| ==> x[1..][i] == x[i + 1];
      SplitNoSeparator(x[1..], p);
      assert [x[0]] + x[1..] == x;
    }
  }

  lemma {:induction false} SplitAfterField(x: string, c: char, y: string, p: char -> bool)
    requires NoneOf(x, p) && p(c)
    ensures Split(x + [c] + y, p) == [x] + Split(y, p)
  {
    if x == [] {
      assert x + [c] + y == [c] + y;
      assert ([c] + y)[1..] == y;
    } else {
      var s := x + [c] + y;
      assert s[1..] == x[1..] + [c] + y;
      SplitAfterField(x[1..], c, y, p);
      assert [x[0]] + x[1..] == x;
    }
  }

  /** Splitting undoes joining, when no part holds a separator. */
  lemma {:induction false} SplitJoin(parts: seq<string>, p: char -> bool, c: char)
    requires |parts| > 0 && p(c)
    requires forall k :: 0 <= k < |parts| ==> NoneOf(parts[k], p)
    ensures Split(Join(parts, [c]), p) == parts
  {
    if |parts| == 1 {
      SplitNoSeparator(parts[0], p);
    } else {
      SplitJoin(parts[1..], p, c);
      SplitAfterField(parts[0], c, Join(parts[1..], [c]), p);
      assert [parts[0]] + parts[1..] == parts;
    }
  }

  /** `filter(Boolean)` on strings: drop the empty ones, keep the order. */
  function RemoveEmpty(parts: seq<string>): (r: seq<string>)
    ensures |r| <= |parts|
    ensures forall k :: 0 <= k < |r| ==> r[k] != [] && r[k] in parts
  {
    if parts == [] then []
    else if parts[0] == [] then RemoveEmpty(parts[1..])
    else [parts[0]] + RemoveEmpty(parts[1..])
  }

  lemma {:induction false} RemoveEmptyOfNonEmpty(parts: seq<string>)
    requires forall k :: 0 <= k < |parts| ==> parts[k] != []
    ensures RemoveEmpty(parts) == parts
  {
    if parts != [] {
      RemoveEmptyOfNonEmpty(parts[1..]);
    }
  }

  /**
   * `s.split(/\s+/).filter(Boolean)`: the maximal runs of non-whitespace.
   * Splitting on each whitespace character and dropping empty fields gives
   * the same runs as splitting on whitespace runs.
   */
  function Words(s: string): (ws: seq<string>)
    ensures forall k :: 0 <= k < |ws| ==> ws[k] != [] && NoneOf(ws[k], IsSpace)
    ensures ws == [] <==> AllSpace(s)
  {
    var parts := Split(s, IsSpace);
    var ws := RemoveEmpty(parts);
    assert forall k :: 0 <= k < |ws| ==> NoneOf(ws[k], IsSpace);
    ConcatRemoveEmpty(parts);
    ConcatSplit(s, IsSpace);
    RemoveCharsEmpty(s, IsSpace);
    ws
  }

  /** Words separated by single spaces split back into the same words. */
  lemma WordsOfJoin(ws: seq<string>)
    requires forall k :: 0 <= k < |ws| ==> ws[k] != [] && NoneOf(ws[k], IsSpace)
    ensures Words(Join(ws, " ")) == ws
  {
    if ws != [] {
      SplitJoin(ws, IsSpace, ' ');
      RemoveEmptyOfNonEmpty(ws);
    }
  }

  /** Every character of every field satisfies `q` when every non-separator character of `s` does. */
  lemma {:induction false} SplitCharsFrom(s: string, p: char -> bool, q: char -> bool)
    requires forall i :: 0 <= i < |s| ==> p(s[i]) || q(s[i])
    ensures EachAllOf(Split(s, p), q)
  {
    if s != [] {
      assert forall i :: 0 <= i < |s[1..]| ==> s[1..][i] == s[i + 1];
      SplitCharsFrom(s[1..], p, q);
      var rest := Split(s[1..], p);
      assert EachAllOf(rest, q);
      var parts := Split(s, p);
      if p(s[0]) {
        assert parts == [[]] + rest;
        forall k | 0 <= k < |parts| ensures AllOf(parts[k], q) {
          if k > 0 { assert parts[k] == rest[k - 1]; }
        }
      } else {
        assert q(s[0]);
        assert parts == [[s[0]] + rest[0]] + rest[1..];
        forall k | 0 <= k < |parts| ensures AllOf(parts[k], q) {
          if k == 0 {
            assert AllOf(rest[0], q);
            forall i | 0 <= i < |parts[0]| ensures q(parts[0][i]) {
              if i > 0 { assert parts[0][i] == rest[0][i - 1]; }
            }
          } else {
            assert parts[k] == rest[k];
          }
        }
      }
    }
  }

  /** Every character of every word satisfies `q` when every non-blank character of `s` does. */
  lemma WordsCharsFrom(s: string, q: char -> bool)
    requires forall i :: 0 <= i < |s| ==> IsSpace(s[i]) || q(s[i])
    ensures EachAllOf(Words(s), q)
  {
    var parts := Split(s, IsSpace);
    SplitCharsFrom(s, IsSpace, q);
    assert EachAllOf(parts, q);
    var ws := Words(s);
    forall k | 0 <= k < |ws| ensures AllOf(ws[k], q) {
      var j :| 0 <= j < |parts| && parts[j] == ws[k];
    }
  }

  /** Every character of a join satisfies `q` when those of the parts and the separator do. */
  lemma {:induction false} JoinCharsFrom(parts: seq<string>, sep: string, q: char -> bool)
    requires EachAllOf(parts, q)
    requires AllOf(sep, q)
    ensures AllOf(Join(parts, sep), q)
  {
    if |parts| == 1 {
      assert Join(parts, sep) == parts[0];
    } else if |parts| > 1 {
      assert forall k :: 0 <= k < |parts[1..]| ==> parts[1..][k] == parts[k + 1];
      JoinCharsFrom(parts[1..], sep, q);
      var rest := Join(parts[1..], sep);
      assert AllOf(parts[0], q);
      var s := parts[0] + sep + rest;
      assert s == Join(parts, sep);
      forall i | 0 <= i < |s| ensures q(s[i]) {
        if i < |parts[0]| {
          assert s[i] == parts[0][i];
        } else if i < |parts[0]| + |sep| {
          assert s[i] == sep[i - |parts[0]|];
        } else {
          assert s[i] == rest[i - |parts[0]| - |sep|];
        }
      }
    }
  }

  /** Joining two non-empty lists is joining each and gluing with the separator. */
  lemma {:induction false} JoinAppend(a: seq<string>, b: seq<string>, sep: string)
    requires |a| > 0 && |b| > 0
    ensures Join(a + b, sep) == Join(a, sep) + sep + Join(b, sep)
  {
    if |a| == 1 {
      assert (a + b)[1..] == b;
    } else {
      assert (a + b)[1..] == a[1..] + b;
      JoinAppend(a[1..], b, sep);
    }
  }

  /** The concatenation of a sequence of strings: `parts.join("")`. */
  function Concat(parts: seq<string>): string {
    if parts == [] then [] else parts[0] + Concat(parts[1..])
  }

  /** The characters of `s` that do not satisfy `p`, in order. */
  function RemoveChars(s: string, p: char -> bool): (r: string)
    ensures NoneOf(r, p)
  {
    if s == [] then []
    else if p(s[0]) then RemoveChars(s[1..], p)
    else [s[0]] + RemoveChars(s[1..], p)
  }

  lemma {:induction false} RemoveCharsEmpty(s: string, p: char -> bool)
    ensures RemoveChars(s, p) == [] <==> forall i :: 0 <= i < |s| ==> p(s[i])
  {
    if s != [] {
      RemoveCharsEmpty(s[1..], p);
      assert forall i :: 1 <= i < |s| ==> s[i] == s[1..][i - 1];
    }
  }

  lemma {:induction false} ConcatRemoveEmpty(parts: seq<string>)
    ensures Concat(RemoveEmpty(parts)) == Concat(parts)
  {
    if parts != [] {
      ConcatRemoveEmpty(parts[1..]);
      var rest := RemoveEmpty(parts[1..]);
      assert Concat(parts) == parts[0] + Concat(parts[1..]);
      if parts[0] == [] {
        assert RemoveEmpty(parts) == rest;
        assert parts[0] + Concat(parts[1..]) == Concat(parts[1..]);
      } else {
        var r := [parts[0]] + rest;
        assert RemoveEmpty(parts) == r;
        assert r[0] == parts[0] && r[1..] == rest;
        assert Concat(r) == parts[0] + Concat(rest);
      }
    }
  }

  lemma {:induction false} ConcatSplit(s: string, p: char -> bool)
    ensures Concat(Split(s, p)) == RemoveChars(s, p)
  {
    if s != [] {
      var rest := Split(s[1..], p);
      ConcatSplit(s[1..], p);
      if p(s[0]) {
        assert ([[]] + rest)[1..] == rest;
      } else {
        var parts := [[s[0]] + rest[0]] + rest[1..];
        assert parts[1..] == rest[1..];
        assert Concat(rest) == rest[0] + Concat(rest[1..]);
      }
    }
  }

  /** The words of `s`, run together, are exactly its non-whitespace characters. */
  lemma WordsContent(s: string)
    ensures Concat(Words(s)) == RemoveChars(s, IsSpace)
  {
    ConcatRemoveEmpty(Split(s, IsSpace));
    ConcatSplit(s, IsSpace);
  }

  // -------------------------------------------------------- prefixes, search

  /** `s.slice(0, n)`. */
  function Take<T>(s: seq<T>, n: nat): (r: seq<T>)
    ensures |r| == Min(n, |s|) && r == s[..|r|]
  {
    if |s| <= n then s else s[..n]
  }

  predicate StartsWith(s: string, prefix: string) {
    |prefix| <= |s| && s[..|prefix|] == prefix
  }

  predicate EndsWith(s: string, suffix: string) {
    |suffix| <= |s| && s[|s| - |suffix|..] == suffix
  }

  /** `needle` occurs in `hay` at offset `i`. */
  predicate OccursAt(hay: string, needle: string, i: int) {
    0 <= i <= |hay| - |needle| && hay[i..i + |needle|] == needle
  }

  /** `hay.includes(needle)`, scanning from the left. */
  predicate Includes(hay: string, needle: string) {
    StartsWith(hay, needle) || (hay != [] && Includes(hay[1..], needle))
  }

  /** `includes` holds exactly when `needle` occurs at some offset of `hay`. */
  lemma {:induction false} IncludesAtOffset(hay: string, needle: string)
    ensures Includes(hay, needle) <==> exists i :: OccursAt(hay, needle, i)
  {
    if StartsWith(hay, needle) {
      assert OccursAt(hay, needle, 0);
    } else if hay != [] {
      IncludesAtOffset(hay[1..], needle);
      if Includes(hay[1..], needle) {
        var i :| OccursAt(hay[1..], needle, i);
        assert hay[1..][i..i + |needle|] == hay[i + 1..i + 1 + |needle|];
        assert OccursAt(hay, needle, i + 1);
      }
      if exists i :: OccursAt(hay, needle, i) {
        var i :| OccursAt(hay, needle, i);
        assert i != 0;
        assert hay[1..][i - 1..i - 1 + |needle|] == hay[i..i + |needle|];
        assert OccursAt(hay[1..], needle, i - 1);
      }
    } else {
      assert forall i :: OccursAt(hay, needle, i) ==> i == 0 && |needle| == 0;
    }
  }

  /** The position of the first `c` in `s`. */
  function FirstIndex(s: string, c: char): (k: nat)
    requires c in s
    ensures k < |s| && s[k] == c && c !in s[..k]
  {
    if s[0] == c then 0 else 1 + FirstIndex(s[1..], c)
  }

  /** `s.replace(c, rep)` with a one-character string pattern: only the first occurrence is replaced. */
  function ReplaceFirst(s: string, c: char, rep: string): (r: string)
    ensures c !in s ==> r == s
    ensures c in s ==> var k := FirstIndex(s, c); r == s[..k] + rep + s[k + 1..]
  {
    if s == [] then []
    else if s[0] == c then rep + s[1..]
    else
      FirstIndexOfTail(s, c);
      [s[0]] + ReplaceFirst(s[1..], c, rep)
  }

  /** Past a first character other than `c`, the first `c` is one place further on than in the tail. */
  lemma FirstIndexOfTail(s: string, c: char)
    requires s != [] && s[0] != c
    ensures c in s <==> c in s[1..]
    ensures c in s ==> var k := FirstIndex(s[1..], c);
      && FirstIndex(s, c) == k + 1 && s[..k + 1] == [s[0]] + s[1..][..k] && s[k + 2..] == s[1..][k + 1..]
  {
    assert s == [s[0]] + s[1..];
  }

  /** When `c` first occurs right after `x`, that occurrence is the one replaced. */
  lemma {:induction false} ReplaceFirstAfter(x: string, c: char, rep: string, y: string)
    requires c !in x
    ensures ReplaceFirst(x + [c] + y, c, rep) == x + rep + y
  {
    var s := x + [c] + y;
    if x == [] {
      assert s[0] == c && s[1..] == y;
    } else {
      assert s[0] == x[0] && s[1..] == x[1..] + [c] + y;
      ReplaceFirstAfter(x[1..], c, rep, y);
    }
  }


  // ------------------------------------------------------------- letter case

  predicate IsAscii(s: string) {
    forall i :: 0 <= i < |s| ==> s[i] < '\U{0080}'
  }

  /** `toLowerCase` of one character: exact on Latin-1, and for the two other characters whose lowercase form contains a-z. */
  function LowerChar(c: char): string {
    if 'A' <= c <= 'Z' || ('\U{00C0}' <= c <= '\U{00DE}' && c != '\U{00D7}') then [(c as int + 32) as char]
    else if c == '\U{212A}' then "k"                // KELVIN SIGN
    else if c == '\U{0130}' then "i\U{0307}"        // LATIN CAPITAL LETTER I WITH DOT ABOVE
    else [c]
  }

  /** `toLowerCase`. */
  function Lower(s: string): (r: string)
    ensures (forall i :: 0 <= i < |s| ==> LowerChar(s[i]) == [s[i]]) ==> r == s
  {
    if s == [] then [] else LowerChar(s[0]) + Lower(s[1..])
  }

  /** `toUpperCase` of one ASCII character. */
  function AsciiUpper(c: char): char {
    if 'a' <= c <= 'z' then (c as int - 32) as char else c
  }

  /** `toUpperCase` of one character: exact on Latin-1. */
  function UpperChar(c: char): string {
    if 'a' <= c <= 'z' || ('\U{00E0}' <= c <= '\U{00FE}' && c != '\U{00F7}') then [(c as int - 32) as char]
    else if c == '\U{00DF}' then "SS"                // SHARP S
    else if c == '\U{00B5}' then "\U{039C}"          // MICRO SIGN
    else if c == '\U{00FF}' then "\U{0178}"          // Y WITH DIAERESIS
    else [c]
  }

  /** `toUpperCase`; on ASCII input it maps character by character. */
  function Upper(s: string): (r: string)
    ensures IsAscii(s) ==> |r| == |s| && forall i :: 0 <= i < |s| ==> r[i] == AsciiUpper(s[i])
  {
    if s == [] then []
    else
      var rest := Upper(s[1..]);
      assert IsAscii(s) ==> IsAscii(s[1..]);
      UpperChar(s[0]) + rest
  }
  lemma {:induction false} UpperConcat(x: string, y: string)
    ensures Upper(x + y) == Upper(x) + Upper(y)
  {
    if x == [] {
      assert x + y == y;
    } else {
      assert (x + y)[0] == x[0] && (x + y)[1..] == x[1..] + y;
      UpperConcat(x[1..], y);
    }
  }

}
