/**
 * What the result grids share: JavaScript truthiness of an optional text
 * column, and the two-word card title.
 */
module Cards {
  import opened Maybe
  import opened Text

  /** A nullable text column is truthy when present and non-empty. */
  predicate Present(s: Option<string>) {
    s.Some? && s.value != []
  }

  /** `s || ""`. */
  function OrEmpty(s: Option<string>): (r: string)
    ensures Present(s) ==> r == s.value
    ensures !Present(s) ==> r == []
  {
    match s
    case Some(v) => v
    case None => []
  }

  /** Non-empty words without whitespace, joined by single spaces, neither start nor end with whitespace. */
  lemma {:induction false} JoinedWordsTrimmed(ws: seq<string>)
    requires ws != [] && forall k :: 0 <= k < |ws| ==> ws[k] != [] && NoneOf(ws[k], IsSpace)
    ensures var s := Join(ws, " "); s != [] && s[0] == ws[0][0] && s[|s| - 1] == ws[|ws| - 1][|ws[|ws| - 1]| - 1]
  {
    if |ws| > 1 {
      JoinedWordsTrimmed(ws[1..]);
      var rest := Join(ws[1..], " ");
      assert Join(ws, " ") == ws[0] + " " + rest;
    }
  }

  /**
   * `twoWordTitle`: `"Untitled"` for a missing or blank title, otherwise the
   * first two words of the trimmed title joined by one space.
   */
  function TwoWordTitle(title: Option<string>): (r: string)
    ensures Trim(title.GetOr("")) == [] ==> r == "Untitled"
    ensures Trim(title.GetOr("")) != [] ==> Words(r) == Take(Words(Trim(title.GetOr(""))), 2) && r == Join(Words(r), " ")
    ensures r != [] && Trimmed(r)
  {
    var t := Trim(title.GetOr(""));
    if t == [] then
      UntitledTrimmed();
      "Untitled"
    else
      FirstTwoWords(t);
      Join(Take(Words(t), 2), " ")
  }

  lemma UntitledTrimmed()
    ensures "Untitled" != [] && Trimmed("Untitled")
  {
    assert "Untitled"[0] == 'U' && "Untitled"[7] == 'd';
  }

  /** The first two words of a non-blank trimmed text, single-spaced, read back as those words and are trimmed. */
  lemma FirstTwoWords(t: string)
    requires t != [] && Trimmed(t)
    ensures var r := Join(Take(Words(t), 2), " ");
      && Words(r) == Take(Words(t), 2) && r != [] && Trimmed(r)
  {
    var ws := Take(Words(t), 2);
    assert Words(t) != [] by {
      assert !IsSpace(t[0]);
    }
    WordsOfJoin(ws);
    JoinedWordsTrimmed(ws);
  }

  /** Taking the title of a title changes nothing. */
  lemma TwoWordTitleIdempotent(title: Option<string>)
    ensures TwoWordTitle(Some(TwoWordTitle(title))) == TwoWordTitle(title)
  {
    var r := TwoWordTitle(title);
    if Trim(title.GetOr("")) == [] {
      UntitledIsOneWord();
    }
    TitleOfShortTitle(r);
  }

  /** A trimmed title of at most two words, single-spaced, is its own title. */
  lemma TitleOfShortTitle(r: string)
    requires r != [] && Trimmed(r) && |Words(r)| <= 2 && r == Join(Words(r), " ")
    ensures TwoWordTitle(Some(r)) == r
  {
    TrimOfTrimmed(r);
    assert Some(r).GetOr("") == r;
    assert Take(Words(r), 2) == Words(r);
  }

  lemma TrimOfTrimmed(s: string)
    requires Trimmed(s)
    ensures Trim(s) == s
  {
  }

  lemma UntitledIsOneWord()
    ensures Words("Untitled") == ["Untitled"]
  {
    assert NoneOf("Untitled", IsSpace);
    WordsOfJoin(["Untitled"]);
    assert Join(["Untitled"], " ") == "Untitled";
  }
}
