/**
 * The Supabase (PostgREST) filters the listing pages build, as data. A page
 * does not run its query here: it describes it as a table, a column list,
 * a sequence of conditions and a row limit. The free-text `or` condition is
 * kept as the text the page writes; `ReadOrFilter` reads that text back as
 * clauses, which is how its content is stated.
 */
module Filters {
  import opened Maybe
  import opened Text
  import opened Tokenizer

  /** One call on the query builder: `.eq(column, value)`, `.ilike(column, pattern)`, `.or(filter)`. */
  datatype Condition =
    | Eq(column: string, value: string)
    | ILike(column: string, pattern: string)
    | Or(filter: string)

  /** `supabase.from(table).select(columns)` with its conditions in call order, then `.limit(limit)`. */
  datatype Query = Query(table: string, columns: string, conditions: seq<Condition>, limit: nat)

  /** The condition every page starts with. */
  const Ready: Condition := Eq("status", "ready")

  /** `%${v}%`: a case-insensitive substring pattern. */
  function Wrap(v: string): (r: string)
    ensures |r| == |v| + 2 && r[0] == '%' && r[|r| - 1] == '%' && r[1..|r| - 1] == v
  {
    "%" + v + "%"
  }

  predicate IsComma(c: char) {
    c == ','
  }

  predicate IsDot(c: char) {
    c == '.'
  }

  /** A field name or token that can sit inside an or-filter without splitting it: non-empty, no `,` or `.`. */
  predicate Plain(s: string) {
    s != [] && NoneOf(s, IsComma) && NoneOf(s, IsDot)
  }

  predicate AllPlain(xs: seq<string>) {
    forall k :: 0 <= k < |xs| ==> Plain(xs[k])
  }

  // ------------------------------------------------------ writing the filter

  /** `${field}.ilike.%${t}%`. */
  function ClauseText(field: string, t: string): string {
    field + ".ilike." + Wrap(t)
  }

  function ClauseTexts(fields: seq<string>, t: string): (r: seq<string>)
    ensures |r| == |fields| && forall i :: 0 <= i < |fields| ==> r[i] == ClauseText(fields[i], t)
  {
    seq(|fields|, i requires 0 <= i < |fields| => ClauseText(fields[i], t))
  }

  /** The clauses one token contributes, comma-joined. */
  function TermText(fields: seq<string>, t: string): string {
    Join(ClauseTexts(fields, t), ",")
  }

  function TermTexts(fields: seq<string>, terms: seq<string>): (r: seq<string>)
    ensures |r| == |terms| && forall j :: 0 <= j < |terms| ==> r[j] == TermText(fields, terms[j])
  {
    seq(|terms|, j requires 0 <= j < |terms| => TermText(fields, terms[j]))
  }

  /** `terms.map(t => fields.map(f => `${f}.ilike.%${t}%`).join(",")).join(",")`. */
  function OrText(fields: seq<string>, terms: seq<string>): string {
    Join(TermTexts(fields, terms), ",")
  }

  /** The `q` parameter as the listing pages read it: absent meaning empty, then trimmed. */
  function QueryText(q: Option<string>): (r: string)
    ensures Trimmed(r)
    ensures q.None? ==> r == []
  {
    Trim(q.GetOr(""))
  }

  /** A present parameter's text is that parameter trimmed, so one with no outer whitespace is kept as it is. */
  lemma QueryTextOfPresent(q: string)
    ensures QueryText(Some(q)) == Trim(q)
    ensures Trimmed(q) ==> QueryText(Some(q)) == q
  {
  }

  /** `if (terms.length > 0) query = query.or(orText)`: the free-text condition, only when there are tokens. */
  function OrConditions(fields: seq<string>, terms: seq<string>): (r: seq<Condition>)
    ensures terms == [] <==> r == []
    ensures |r| <= 1 && forall c :: c in r ==> c == Or(OrText(fields, terms))
  {
    if terms == [] then [] else [Or(OrText(fields, terms))]
  }

  // ------------------------------------------------------ reading it back

  /** One `field.ilike.pattern` clause. */
  datatype Clause = Clause(field: string, pattern: string)

  /** A clause is three dot-separated parts with `ilike` in the middle. */
  function ReadClause(text: string): (r: Option<Clause>)
    ensures r.Some? ==> Split(text, IsDot) == [r.value.field, "ilike", r.value.pattern]
  {
    var ps := Split(text, IsDot);
    if |ps| == 3 && ps[1] == "ilike" then Some(Clause(ps[0], ps[2])) else None
  }

  function ReadClauses(texts: seq<string>): (r: Option<seq<Clause>>)
    ensures r.Some? ==> |r.value| == |texts|
  {
    if texts == [] then Some([])
    else
      match ReadClause(texts[0])
      case None => None
      case Some(c) =>
        match ReadClauses(texts[1..])
        case None => None
        case Some(cs) => Some([c] + cs)
  }

  /** The clauses of an or-filter: split on `,`, then read each piece; `None` if a piece is not a clause. */
  function ReadOrFilter(text: string): Option<seq<Clause>> {
    ReadClauses(Split(text, IsComma))
  }

  /** What the or-filter says: for each token in order, one clause per field in order. */
  function Expected(fields: seq<string>, terms: seq<string>): seq<Clause> {
    if terms == [] then []
    else TermClauses(fields, terms[0]) + Expected(fields, terms[1..])
  }

  function TermClauses(fields: seq<string>, t: string): (r: seq<Clause>)
    ensures |r| == |fields| && forall i :: 0 <= i < |fields| ==> r[i] == Clause(fields[i], Wrap(t))
  {
    seq(|fields|, i requires 0 <= i < |fields| => Clause(fields[i], Wrap(t)))
  }

  // ------------------------------------------------------------ the proofs

  lemma NoneOfConcat(a: string, b: string, p: char -> bool)
    requires NoneOf(a, p) && NoneOf(b, p)
    ensures NoneOf(a + b, p)
  {
    forall i | 0 <= i < |a + b| ensures !p((a + b)[i]) {
      if i < |a| { assert (a + b)[i] == a[i]; } else { assert (a + b)[i] == b[i - |a|]; }
    }
  }

  lemma WrapPlain(t: string)
    requires Plain(t)
    ensures NoneOf(Wrap(t), IsComma) && NoneOf(Wrap(t), IsDot)
  {
    NoneOfConcat("%", t, IsComma);
    NoneOfConcat("%" + t, "%", IsComma);
    NoneOfConcat("%", t, IsDot);
    NoneOfConcat("%" + t, "%", IsDot);
  }

  /** A written clause reads back as its field and pattern. */
  lemma {:induction false} ReadClauseText(field: string, t: string)
    requires Plain(field) && Plain(t)
    ensures ReadClause(ClauseText(field, t)) == Some(Clause(field, Wrap(t)))
    ensures NoneOf(ClauseText(field, t), IsComma)
  {
    var w := Wrap(t);
    WrapPlain(t);
    var parts := [field, "ilike", w];
    assert Join(parts, ".") == ClauseText(field, t) by {
      assert parts[1..] == ["ilike", w];
      assert Join(parts[1..], ".") == "ilike" + "." + w;
      assert field + ".ilike." + w == field + "." + ("ilike" + "." + w);
    }
    assert NoneOf("ilike", IsDot) && NoneOf("ilike", IsComma);
    SplitJoin(parts, IsDot, '.');
    assert NoneOf(".ilike.", IsComma);
    NoneOfConcat(field, ".ilike.", IsComma);
    NoneOfConcat(field + ".ilike.", w, IsComma);
  }

  lemma {:induction false} ReadClausesAppend(a: seq<string>, b: seq<string>, x: seq<Clause>, y: seq<Clause>)
    requires ReadClauses(a) == Some(x) && ReadClauses(b) == Some(y)
    ensures ReadClauses(a + b) == Some(x + y)
  {
    if a != [] {
      assert (a + b)[1..] == a[1..] + b;
      assert (a + b)[0] == a[0];
      var c := ReadClause(a[0]).value;
      var cs := ReadClauses(a[1..]).value;
      assert x == [c] + cs;
      ReadClausesAppend(a[1..], b, cs, y);
      assert [c] + (cs + y) == x + y;
    } else {
      assert x == [];
      assert a + b == b && x + y == y;
    }
  }

  lemma {:induction false} ReadTermClauses(fields: seq<string>, t: string, n: nat)
    requires AllPlain(fields) && Plain(t) && n <= |fields|
    ensures ReadClauses(ClauseTexts(fields, t)[n..]) == Some(TermClauses(fields, t)[n..])
    decreases |fields| - n
  {
    var texts := ClauseTexts(fields, t);
    if n < |fields| {
      ReadTermClauses(fields, t, n + 1);
      ReadClauseText(fields[n], t);
      assert texts[n..][1..] == texts[n + 1..];
      assert TermClauses(fields, t)[n..] == [Clause(fields[n], Wrap(t))] + TermClauses(fields, t)[n + 1..];
    } else {
      assert texts[n..] == [];
      assert TermClauses(fields, t)[n..] == [];
    }
  }

  /** Every clause written for `terms`, in order. */
  function AllClauseTexts(fields: seq<string>, terms: seq<string>): seq<string> {
    if terms == [] then [] else ClauseTexts(fields, terms[0]) + AllClauseTexts(fields, terms[1..])
  }

  lemma {:induction false} ReadAllClauseTexts(fields: seq<string>, terms: seq<string>)
    requires AllPlain(fields) && AllPlain(terms)
    ensures ReadClauses(AllClauseTexts(fields, terms)) == Some(Expected(fields, terms))
  {
    if terms != [] {
      var head := ClauseTexts(fields, terms[0]);
      ReadAllClauseTexts(fields, terms[1..]);
      ReadTermClauses(fields, terms[0], 0);
      assert head[0..] == head;
      assert TermClauses(fields, terms[0])[0..] == TermClauses(fields, terms[0]);
      ReadClausesAppend(head, AllClauseTexts(fields, terms[1..]), TermClauses(fields, terms[0]), Expected(fields, terms[1..]));
    }
  }

  lemma {:induction false} AllClauseTextsCommaFree(fields: seq<string>, terms: seq<string>)
    requires AllPlain(fields) && AllPlain(terms)
    ensures forall k :: 0 <= k < |AllClauseTexts(fields, terms)| ==> NoneOf(AllClauseTexts(fields, terms)[k], IsComma)
  {
    if terms != [] {
      var head := ClauseTexts(fields, terms[0]);
      var rest := AllClauseTexts(fields, terms[1..]);
      AllClauseTextsCommaFree(fields, terms[1..]);
      var all := AllClauseTexts(fields, terms);
      assert all == head + rest;
      forall k | 0 <= k < |all| ensures NoneOf(all[k], IsComma) {
        if k < |head| {
          ReadClauseText(fields[k], terms[0]);
          assert all[k] == head[k];
        } else {
          assert all[k] == rest[k - |head|];
        }
      }
    }
  }

  /** The written filter is the comma-join of all its clauses. */
  lemma {:induction false} OrTextFlat(fields: seq<string>, terms: seq<string>)
    requires |fields| > 0 && |terms| > 0
    ensures OrText(fields, terms) == Join(AllClauseTexts(fields, terms), ",")
  {
    var head := ClauseTexts(fields, terms[0]);
    var texts := TermTexts(fields, terms);
    if |terms| == 1 {
      assert AllClauseTexts(fields, terms) == head + [];
      assert head + [] == head;
    } else {
      OrTextFlat(fields, terms[1..]);
      assert texts[1..] == TermTexts(fields, terms[1..]);
      var rest := AllClauseTexts(fields, terms[1..]);
      assert rest == ClauseTexts(fields, terms[1]) + AllClauseTexts(fields, terms[2..]);
      JoinAppend(head, rest, ",");
    }
  }

  /**
   * Reading the or-filter back gives one clause per field for each token, in
   * token order then field order, as long as no field or token holds `,` or `.`.
   */
  lemma ReadOrText(fields: seq<string>, terms: seq<string>)
    requires |fields| > 0 && |terms| > 0 && AllPlain(fields) && AllPlain(terms)
    ensures ReadOrFilter(OrText(fields, terms)) == Some(Expected(fields, terms))
  {
    OrTextFlat(fields, terms);
    ReadAllClauseTexts(fields, terms);
    AllClauseTextsCommaFree(fields, terms);
    var all := AllClauseTexts(fields, terms);
    assert all == ClauseTexts(fields, terms[0]) + AllClauseTexts(fields, terms[1..]);
    SplitJoin(all, IsComma, ',');
  }

  /** The or-filter holds exactly one clause per field for each token. */
  lemma {:induction false} ExpectedLength(fields: seq<string>, terms: seq<string>)
    ensures |Expected(fields, terms)| == |fields| * |terms|
  {
    if terms != [] {
      ExpectedLength(fields, terms[1..]);
      assert |fields| * (|terms| - 1) + |fields| == |fields| * |terms|;
    }
  }

  /** Tokens are non-empty and made of `a-z`, `0-9` and `'`, so none holds `,` or `.`. */
  lemma TokensPlain(k: QuoteClass, q: string)
    ensures AllPlain(Tokenize(k, q))
  {
    var ts := Tokenize(k, q);
    forall j | 0 <= j < |ts| ensures Plain(ts[j]) {
      assert AllOf(ts[j], IsTokenChar);
      assert forall i :: 0 <= i < |ts[j]| ==> IsTokenChar(ts[j][i]);
    }
  }

  /** `c` is an or-filter whose text reads back as one `ilike` clause per field and token. */
  predicate ReadsAsExpected(c: Condition, fields: seq<string>, terms: seq<string>) {
    c.Or? && ReadOrFilter(c.filter) == Some(Expected(fields, terms))
  }

  /** The free-text condition a page adds for plain `terms` reads back as one clause per field for each token. */
  lemma OrConditionsRead(fields: seq<string>, terms: seq<string>)
    requires |fields| > 0 && AllPlain(fields) && AllPlain(terms)
    ensures forall c :: c in OrConditions(fields, terms) ==> ReadsAsExpected(c, fields, terms)
  {
    if terms != [] {
      ReadOrText(fields, terms);
    }
  }

  /**
   * Conditions ending in the free-text filter: it is their only `or`, present
   * exactly when there are tokens, and reads back as one clause per field and token.
   */
  lemma OrFilterPart(pre: seq<Condition>, fields: seq<string>, terms: seq<string>)
    requires forall c :: c in pre ==> !c.Or?
    requires |fields| > 0 && AllPlain(fields) && AllPlain(terms)
    ensures var conds := pre + OrConditions(fields, terms);
      && ((exists c :: c in conds && c.Or?) <==> terms != [])
      && (forall c :: c in conds && c.Or? ==> c in OrConditions(fields, terms) && ReadsAsExpected(c, fields, terms))
  {
    OrConditionsRead(fields, terms);
    if terms != [] {
      assert Or(OrText(fields, terms)) in pre + OrConditions(fields, terms);
    }
  }
}
