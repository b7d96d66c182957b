/**
 * The library page (`/`): it trims the `q` parameter, tokenizes it, detects
 * a domain, and builds one query over the `assets` table.
 */
module LibraryPage {
  import opened Maybe
  import opened Text
  import opened Tokenizer
  import opened Filters

  /** The columns one token is matched against. */
  const LibraryFields: seq<string> := ["title", "direction", "color_notes", "print_pattern_notes"]
  const LibraryLimit: nat := 9

  function LibraryTerms(q: Option<string>): seq<string> {
    Tokenize(Curly, QueryText(q))
  }

  /** The domain restriction: an inclusive `ilike` on `domain`, so crossover assets stay in. */
  function DomainConditions(d: Option<Domain>): (r: seq<Condition>)
    ensures d.None? <==> r == []
    ensures |r| <= 1 && forall c :: c in r ==> c.ILike?
    ensures d == Some(Menswear) <==> ILike("domain", "%menswear%") in r
    ensures d == Some(Womenswear) <==> ILike("domain", "%womenswear%") in r
  {
    match d
    case None => []
    case Some(Menswear) => [ILike("domain", "%menswear%")]
    case Some(Womenswear) => [ILike("domain", "%womenswear%")]
  }

  /** The query for given tokens and detected domain: ready assets, the domain restriction, the free-text filter. */
  function QueryFor(terms: seq<string>, d: Option<Domain>): (r: Query)
    ensures r.table == "assets" && r.columns == "*" && r.limit == LibraryLimit
    ensures |r.conditions| >= 1 && r.conditions[0] == Ready
  {
    Query("assets", "*", [Ready] + DomainConditions(d) + OrConditions(LibraryFields, terms), LibraryLimit)
  }

  /** The query the library page sends. */
  function LibraryQuery(q: Option<string>): Query {
    var terms := LibraryTerms(q);
    QueryFor(terms, DetectDomain(terms))
  }

  lemma ConditionsFor(terms: seq<string>, d: Option<Domain>)
    ensures forall c :: c in QueryFor(terms, d).conditions <==>
      c == Ready || c in DomainConditions(d) || c in OrConditions(LibraryFields, terms)
  {
    assert QueryFor(terms, d).conditions == [Ready] + DomainConditions(d) + OrConditions(LibraryFields, terms);
  }

  lemma LibraryConditions(q: Option<string>)
    ensures var terms := LibraryTerms(q);
      forall c :: c in LibraryQuery(q).conditions <==>
        c == Ready || c in DomainConditions(DetectDomain(terms)) || c in OrConditions(LibraryFields, terms)
  {
    var terms := LibraryTerms(q);
    ConditionsFor(terms, DetectDomain(terms));
  }

  /** An `ilike` condition is in the query exactly when the domain restriction holds it. */
  lemma DomainFor(terms: seq<string>, d: Option<Domain>)
    ensures forall c :: c in QueryFor(terms, d).conditions && c.ILike? <==> c in DomainConditions(d)
    ensures forall c :: c in QueryFor(terms, d).conditions ==> c == Ready || c.Or? || c in DomainConditions(d)
  {
    ConditionsFor(terms, d);
  }

  /**
   * The domain restriction: an inclusive `ilike` on `domain` exactly when the
   * tokens name that domain, menswear first; no other condition is on `domain`.
   */
  lemma LibraryDomainFilter(q: Option<string>)
    ensures var r := LibraryQuery(q); var terms := LibraryTerms(q);
      && (ILike("domain", "%menswear%") in r.conditions <==> Mentions(terms, MensWords))
      && (ILike("domain", "%womenswear%") in r.conditions <==> !Mentions(terms, MensWords) && Mentions(terms, WomensWords))
      && (forall c :: c in r.conditions ==> c == Ready || c.Or? || c in DomainConditions(DetectDomain(terms)))
  {
    var terms := LibraryTerms(q);
    DomainFor(terms, DetectDomain(terms));
  }

  /** The free-text filter for plain tokens is there exactly when there are tokens. */
  lemma TextFilterPresentFor(terms: seq<string>, d: Option<Domain>)
    requires AllPlain(terms)
    ensures (exists c :: c in QueryFor(terms, d).conditions && c.Or?) <==> terms != []
  {
    LibraryFieldsPlain();
    OrFilterPart([Ready] + DomainConditions(d), LibraryFields, terms);
    assert QueryFor(terms, d).conditions == [Ready] + DomainConditions(d) + OrConditions(LibraryFields, terms);
  }

  /** The free-text filter for plain tokens reads back as one clause per field and token. */
  lemma TextFilterReadsFor(terms: seq<string>, d: Option<Domain>)
    requires AllPlain(terms)
    ensures forall c :: c in QueryFor(terms, d).conditions && c.Or? ==> ReadsAsExpected(c, LibraryFields, terms)
  {
    LibraryFieldsPlain();
    OrFilterPart([Ready] + DomainConditions(d), LibraryFields, terms);
    assert QueryFor(terms, d).conditions == [Ready] + DomainConditions(d) + OrConditions(LibraryFields, terms);
  }

  /**
   * The free-text filter: present exactly when there are tokens, and reading
   * back as one `ilike` per field and token, `4 * |terms|` clauses in all.
   */
  lemma LibraryTextFilter(q: Option<string>)
    ensures (exists c :: c in LibraryQuery(q).conditions && c.Or?) <==> LibraryTerms(q) != []
    ensures forall c :: c in LibraryQuery(q).conditions && c.Or? ==> ReadsAsExpected(c, LibraryFields, LibraryTerms(q))
    ensures |Expected(LibraryFields, LibraryTerms(q))| == 4 * |LibraryTerms(q)|
  {
    var terms := LibraryTerms(q);
    TokensPlain(Curly, QueryText(q));
    TextFilterPresentFor(terms, DetectDomain(terms));
    TextFilterReadsFor(terms, DetectDomain(terms));
    ExpectedLength(LibraryFields, terms);
  }

  lemma LibraryFieldsPlain()
    ensures AllPlain(LibraryFields)
  {
    forall k | 0 <= k < |LibraryFields| ensures Plain(LibraryFields[k]) {
      assert forall i :: 0 <= i < |LibraryFields[k]| ==> 'a' <= LibraryFields[k][i] <= 'z' || LibraryFields[k][i] == '_';
    }
  }

  /** A blank or punctuation-only query is "ready assets, nine of them". */
  lemma BlankQueryIsUnfiltered(q: Option<string>)
    requires forall i :: 0 <= i < |QueryText(q)| ==> IsAsciiBlankOrPunct(QueryText(q)[i])
    ensures LibraryQuery(q).conditions == [Ready]
  {
    PunctuationOnlyHasNoTokens(Curly, QueryText(q));
    assert DetectDomain([]) == None;
  }
}
