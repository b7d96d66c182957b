/**
 * The query tokenizer the three listing pages share, and the library page's
 * domain detector. The pages differ only in which characters they fold to
 * an apostrophe.
 */
module Tokenizer {
  import opened Maybe
  import opened Text

  /** The quote class a page's tokenizer folds to `'`. */
  datatype QuoteClass =
    | Curly     // `[’']`: the library and search pages
    | Mojibake  // `[â€™']`: the trend page, whose class holds the three characters of a mis-decoded `’`

  predicate IsQuote(k: QuoteClass, c: char) {
    match k
    case Curly => c == '\U{2019}' || c == '\''
    case Mojibake => c == '\U{00E2}' || c == '\U{20AC}' || c == '\U{2122}' || c == '\''
  }

  /** The characters a token may hold: `a-z`, `0-9` and the apostrophe. */
  predicate IsTokenChar(c: char) {
    ('a' <= c <= 'z') || ('0' <= c <= '9') || c == '\''
  }

  /** One character after the two `replace` calls: quotes fold to `'`, anything outside `[a-z0-9\s']` becomes a space. */
  function NormalizeChar(k: QuoteClass, c: char): (r: char)
    ensures IsTokenChar(r) || IsSpace(r)
  {
    if IsQuote(k, c) then '\''
    else if IsTokenChar(c) || IsSpace(c) then c
    else ' '
  }

  function Normalize(k: QuoteClass, s: string): (r: string)
    ensures |r| == |s| && forall i :: 0 <= i < |s| ==> r[i] == NormalizeChar(k, s[i])
  {
    seq(|s|, i requires 0 <= i < |s| => NormalizeChar(k, s[i]))
  }

  /** The text `split` sees: lowercased, then normalised. */
  function Normalized(k: QuoteClass, q: string): string {
    Normalize(k, Lower(q))
  }

  /** `tokenize`: lowercase, fold quotes, blank other characters, split on whitespace, drop empties. */
  function Tokenize(k: QuoteClass, q: string): (ts: seq<string>)
    ensures forall j :: 0 <= j < |ts| ==> ts[j] != [] && AllOf(ts[j], IsTokenChar)
    ensures ts == [] <==> forall i :: 0 <= i < |Normalized(k, q)| ==> !IsTokenChar(Normalized(k, q)[i])
  {
    var s := Normalized(k, q);
    WordsCharsFrom(s, IsTokenChar);
    assert EachAllOf(Words(s), IsTokenChar);
    Words(s)
  }

  /**
   * The tokens, run together, are exactly the characters of the normalised
   * query other than whitespace, in order: each such character lands in a
   * token and nothing else does.
   */
  lemma TokensContent(k: QuoteClass, q: string)
    ensures Concat(Tokenize(k, q)) == RemoveChars(Normalized(k, q), IsSpace)
  {
    WordsContent(Normalized(k, q));
  }

  /** A character of the query contributes to some token. */
  predicate Survives(k: QuoteClass, c: char) {
    exists i :: 0 <= i < |LowerChar(c)| && IsTokenChar(NormalizeChar(k, LowerChar(c)[i]))
  }

  lemma {:induction false} NormalizedBlank(k: QuoteClass, q: string)
    ensures (forall i :: 0 <= i < |Normalized(k, q)| ==> !IsTokenChar(Normalized(k, q)[i]))
            <==> forall i :: 0 <= i < |q| ==> !Survives(k, q[i])
  {
    if q != [] {
      NormalizedBlank(k, q[1..]);
      var head := LowerChar(q[0]);
      var tail := Lower(q[1..]);
      assert Lower(q) == head + tail;
      var n := Normalized(k, q);
      assert forall i :: 0 <= i < |head| ==> n[i] == NormalizeChar(k, head[i]);
      assert forall i :: 0 <= i < |tail| ==> n[|head| + i] == Normalized(k, q[1..])[i];
      assert forall i :: 1 <= i < |q| ==> q[i] == q[1..][i - 1];
      if forall i :: 0 <= i < |q| ==> !Survives(k, q[i]) {
        assert !Survives(k, q[0]);
        assert forall i :: 0 <= i < |q[1..]| ==> !Survives(k, q[1..][i]);
        forall i | 0 <= i < |n| ensures !IsTokenChar(n[i]) {
          if i >= |head| {
            assert n[i] == Normalized(k, q[1..])[i - |head|];
          }
        }
      }
      if forall i :: 0 <= i < |n| ==> !IsTokenChar(n[i]) {
        forall j | 0 <= j < |q| ensures !Survives(k, q[j]) {
          if j == 0 {
            assert forall i :: 0 <= i < |head| ==> !IsTokenChar(NormalizeChar(k, head[i]));
          } else {
            assert forall i :: 0 <= i < |Normalized(k, q[1..])| ==> !IsTokenChar(Normalized(k, q[1..])[i]);
            assert q[j] == q[1..][j - 1];
          }
        }
      }
    }
  }

  /** A query gives no tokens exactly when none of its characters survives normalisation. */
  lemma NoTokensIff(k: QuoteClass, q: string)
    ensures Tokenize(k, q) == [] <==> forall i :: 0 <= i < |q| ==> !Survives(k, q[i])
  {
    NormalizedBlank(k, q);
  }

  /** ASCII characters other than letters, digits and the apostrophe: whitespace and punctuation. */
  predicate IsAsciiBlankOrPunct(c: char) {
    c < '\U{0080}' && !('a' <= c <= 'z') && !('A' <= c <= 'Z') && !('0' <= c <= '9') && c != '\''
  }

  /** An empty, whitespace-only or punctuation-only query gives no tokens. */
  lemma PunctuationOnlyHasNoTokens(k: QuoteClass, q: string)
    requires forall i :: 0 <= i < |q| ==> IsAsciiBlankOrPunct(q[i])
    ensures Tokenize(k, q) == []
  {
    forall i | 0 <= i < |q| ensures !Survives(k, q[i]) {
      assert LowerChar(q[i]) == [q[i]];
    }
    NoTokensIff(k, q);
  }

  predicate IsTokenCharOrSpace(c: char) {
    IsTokenChar(c) || c == ' '
  }

  /** Words of token characters written with single spaces tokenize back into the same words. */
  lemma TokenizeOfJoin(k: QuoteClass, ws: seq<string>)
    requires forall j :: 0 <= j < |ws| ==> ws[j] != [] && AllOf(ws[j], IsTokenChar)
    ensures Tokenize(k, Join(ws, " ")) == ws
  {
    JoinedWordsNormal(k, ws);
    TokenWordsSpaceFree(ws);
    WordsOfJoin(ws);
  }

  lemma TokenWordsSpaceFree(ws: seq<string>)
    requires forall j :: 0 <= j < |ws| ==> ws[j] != [] && AllOf(ws[j], IsTokenChar)
    ensures forall j :: 0 <= j < |ws| ==> ws[j] != [] && NoneOf(ws[j], IsSpace)
  {
    forall j | 0 <= j < |ws| ensures NoneOf(ws[j], IsSpace) {
      assert AllOf(ws[j], IsTokenChar);
    }
  }

  /** Such a text is already lower-case and normal. */
  lemma JoinedWordsNormal(k: QuoteClass, ws: seq<string>)
    requires forall j :: 0 <= j < |ws| ==> ws[j] != [] && AllOf(ws[j], IsTokenChar)
    ensures Normalized(k, Join(ws, " ")) == Join(ws, " ")
  {
    forall j | 0 <= j < |ws| ensures AllOf(ws[j], IsTokenCharOrSpace) {
      assert AllOf(ws[j], IsTokenChar);
    }
    assert AllOf(" ", IsTokenCharOrSpace);
    JoinCharsFrom(ws, " ", IsTokenCharOrSpace);
    TokenTextNormal(k, Join(ws, " "));
  }

  /** Text of token characters and spaces is left as it is by lower-casing and normalising. */
  lemma TokenTextNormal(k: QuoteClass, s: string)
    requires AllOf(s, IsTokenCharOrSpace)
    ensures Normalized(k, s) == s
  {
    forall i | 0 <= i < |s| ensures LowerChar(s[i]) == [s[i]] && NormalizeChar(k, s[i]) == s[i] {
      assert IsTokenCharOrSpace(s[i]);
    }
    assert Lower(s) == s;
    assert Normalize(k, s) == s;
  }

  /** Tokenizing the tokens written back with single spaces gives the same tokens. */
  lemma TokenizeStable(k: QuoteClass, q: string)
    ensures Tokenize(k, Join(Tokenize(k, q), " ")) == Tokenize(k, q)
  {
    TokenizeOfJoin(k, Tokenize(k, q));
  }

  // ------------------------------------------------------------ domain detection

  datatype Domain = Menswear | Womenswear

  /** The tokens that name each domain. */
  const MensWords: seq<string> := ["menswear", "mens", "men", "men's"]
  const WomensWords: seq<string> := ["womenswear", "womens", "women", "women's"]

  predicate Mentions(terms: seq<string>, words: seq<string>) {
    exists w :: w in words && w in terms
  }

  /**
   * `detectDomain`: menswear is checked first, so it wins when both match.
   * The `mens && wear` clauses are subsumed by the plain `mens` test.
   */
  function DetectDomain(terms: seq<string>): (r: Option<Domain>)
    ensures r == Some(Menswear) <==> Mentions(terms, MensWords)
    ensures r == Some(Womenswear) <==> !Mentions(terms, MensWords) && Mentions(terms, WomensWords)
    ensures r == None <==> !Mentions(terms, MensWords) && !Mentions(terms, WomensWords)
  {
    var s := set t | t in terms;
    var mens := "menswear" in s || "mens" in s || "men" in s || "men's" in s || ("mens" in s && "wear" in s);
    var womens := "womenswear" in s || "womens" in s || "women" in s || "women's" in s || ("womens" in s && "wear" in s);
    assert mens <==> Mentions(terms, MensWords) by {
      if mens {
        var w :| w in ["menswear", "mens", "men", "men's"] && w in s;
        assert w in MensWords && w in terms;
      }
    }
    assert womens <==> Mentions(terms, WomensWords) by {
      if womens {
        var w :| w in ["womenswear", "womens", "women", "women's"] && w in s;
        assert w in WomensWords && w in terms;
      }
    }
    if mens then Some(Menswear)
    else if womens then Some(Womenswear)
    else None
  }

  /** Menswear wins a query that names both. */
  lemma MenswearWinsTie()
    ensures DetectDomain(["women", "men"]) == Some(Menswear)
  {
    assert "men" in MensWords && "men" in ["women", "men"];
  }

  /** The trend page folds `â`, `€` and `™` to `'` but blanks a real `’`, which the other pages fold. */
  lemma QuoteClassesDiffer()
    ensures NormalizeChar(Curly, '\U{2019}') == '\'' && NormalizeChar(Mojibake, '\U{2019}') == ' '
    ensures NormalizeChar(Mojibake, '\U{00E2}') == '\'' && NormalizeChar(Curly, '\U{00E2}') == ' '
  {
  }
}
