/** What a slug says: the words of the company name, in small letters, with single dashes between
    them. The words are found by splitting, without collapsing or stripping anything. */
module SlugWords {
  import opened Text
  import opened WorkspaceSlug

  /** What counts as part of a word: the code points of a to z and of 0 to 9. */
  lemma SlugCharsAre(c: char)
    ensures IsSlugChar(c) <==> 97 <= (c as int) <= 122 || 48 <= (c as int) <= 57
  {
  }

  /** The leading letters and digits. */
  function TakeRun(s: string): (r: string)
    ensures |r| <= |s|
    ensures s != "" && IsSlugChar(s[0]) ==> |r| > 0
  {
    if s == "" || !IsSlugChar(s[0]) then "" else [s[0]] + TakeRun(s[1..])
  }

  /** The maximal runs of letters and digits, in order. */
  function Words(s: string): (ws: seq<string>)
    decreases |s|
  {
    if s == "" then []
    else if !IsSlugChar(s[0]) then Words(s[1..])
    else [TakeRun(s)] + Words(s[|TakeRun(s)|..])
  }

  /** The words with single dashes between them. */
  function Join(ws: seq<string>): string {
    if ws == [] then "" else if |ws| == 1 then ws[0] else ws[0] + "-" + Join(ws[1..])
  }

  /** A letter before a separator, or alone, is a word of its own. */
  lemma LetterMakesWord(c: char, s: string)
    requires IsSlugChar(c) && (s == "" || !IsSlugChar(s[0]))
    ensures Words([c] + s) == [[c]] + Words(s)
  {
    var all := [c] + s;
    assert all[1..] == s && TakeRun(s) == "";
    assert TakeRun(all) == [c] + TakeRun(s) == [c];
    assert all[|TakeRun(all)|..] == s;
    assert Words(all) == [TakeRun(all)] + Words(all[|TakeRun(all)|..]);
  }

  /** A letter before a letter extends the first word. */
  lemma LetterExtendsWord(c: char, s: string)
    requires IsSlugChar(c) && s != "" && IsSlugChar(s[0])
    ensures Words(s) == [TakeRun(s)] + Words(s[|TakeRun(s)|..])
    ensures Words([c] + s) == [[c] + TakeRun(s)] + Words(s[|TakeRun(s)|..])
  {
    var all := [c] + s;
    assert all[1..] == s;
    assert TakeRun(all) == [c] + TakeRun(s);
    assert all[|TakeRun(all)|..] == s[|TakeRun(s)|..];
    assert Words(all) == [TakeRun(all)] + Words(all[|TakeRun(all)|..]);
  }

  /** A letter in front extends the first word, or makes one. */
  lemma WordsPrepend(c: char, s: string)
    requires IsSlugChar(c)
    ensures Words([c] + s) != []
    ensures Join(Words([c] + s))
         == [c] + (if s != "" && !IsSlugChar(s[0]) && Words(s) != [] then "-" else "") + Join(Words(s))
  {
    if s == "" || !IsSlugChar(s[0]) {
      LetterMakesWord(c, s);
      JoinPrepend([c], Words(s));
    } else {
      var run, rest := TakeRun(s), Words(s[|TakeRun(s)|..]);
      LetterExtendsWord(c, s);
      JoinPrepend([c] + run, rest);
      JoinPrepend(run, rest);
    }
  }

  lemma JoinPrepend(w: string, ws: seq<string>)
    ensures Join([w] + ws) == w + if ws == [] then "" else "-" + Join(ws)
  {
    assert ([w] + ws)[1..] == ws;
  }

  lemma {:induction false} SkipRunKeepsWords(s: string)
    ensures Words(SkipRun(s)) == Words(s)
  {
    if s != "" && !IsSlugChar(s[0]) {
      SkipRunKeepsWords(s[1..]);
    }
  }

  predicate Led(s: string) {
    s != "" && !IsSlugChar(s[0])
  }

  /** Joined words with a dash in front, if other characters lead, and a tail. */
  function Edged(led: bool, joined: string, tail: string): string {
    (if led then "-" else "") + joined + tail
  }

  lemma MoveDash(c: char, led: bool, empty: bool, joined: string, tail: string)
    requires empty ==> joined == "" && tail == ""
    ensures [c] + Edged(led, joined, tail)
         == Edged(false, [c] + (if led && !empty then "-" else "") + joined, if led && empty then "-" else tail)
  {
  }

  lemma LeadDash(joined: string, tail: string)
    ensures "-" + Edged(false, joined, tail) == Edged(true, joined, tail)
  {
  }

  lemma CollapseLetter(s: string, c: char, rest: string, joined: string)
    requires s == [c] + rest && IsSlugChar(c) && joined == Join(Words(rest))
    ensures Collapse(s) == [c] + Collapse(rest) && !Led(s)
    ensures Join(Words(s)) == [c] + (if Led(rest) && Words(rest) != [] then "-" else "") + joined
  {
    assert s[1..] == rest;
    WordsPrepend(c, rest);
  }

  lemma CollapseOther(s: string)
    requires Led(s)
    ensures Collapse(s) == "-" + Collapse(SkipRun(s)) && !Led(SkipRun(s)) && Words(SkipRun(s)) == Words(s)
  {
    SkipRunKeepsWords(s);
  }

  /** The collapsed name is its words joined, with a dash before or after where other characters were. */
  lemma {:induction false} CollapseJoins(s: string) returns (tail: string)
    ensures tail == "" || tail == "-"
    ensures Words(s) == [] ==> tail == ""
    ensures Collapse(s) == Edged(Led(s), Join(Words(s)), tail)
    decreases |s|
  {
    if s == "" {
      tail := "";
    } else if IsSlugChar(s[0]) {
      var c, rest := s[0], s[1..];
      var joined, empty := Join(Words(rest)), Words(rest) == [];
      tail := CollapseJoins(rest);
      CollapseLetter(s, c, rest, joined);
      MoveDash(c, Led(rest), empty, joined, tail);
      tail := if Led(rest) && empty then "-" else tail;
    } else {
      tail := CollapseJoins(SkipRun(s));
      CollapseOther(s);
      LeadDash(Join(Words(s)), tail);
    }
  }

  lemma {:induction false} JoinedEdges(s: string)
    requires Words(s) != []
    ensures var j := Join(Words(s)); j != "" && j[0] != '-' && j[|j| - 1] != '-'
    decreases |s|
  {
    if IsSlugChar(s[0]) {
      assert [s[0]] + s[1..] == s;
      WordsPrepend(s[0], s[1..]);
      if Words(s[1..]) != [] {
        JoinedEdges(s[1..]);
      }
    } else {
      JoinedEdges(s[1..]);
    }
  }

  /** Stripping dashes off the collapsed name leaves the joined words. */
  lemma StripLeavesWords(s: string)
    ensures Strip(Collapse(s), IsDash) == Join(Words(s))
  {
    var tail := CollapseJoins(s);
    var joined := Join(Words(s));
    if Words(s) != [] {
      JoinedEdges(s);
      StripDashes(joined, if !IsSlugChar(s[0]) then "-" else "", tail);
    } else {
      StripDashOnly(Collapse(s));
    }
  }

  lemma StripDashOnly(s: string)
    requires s == "" || s == "-"
    ensures Strip(s, IsDash) == ""
  {
    if s != "" {
      var rest := s[1..];
      assert rest == "" && s[0] == '-';
      assert StripLeft(rest, IsDash) == rest;
      assert StripLeft(s, IsDash) == rest;
      assert StripRight(rest, IsDash) == rest;
    }
  }

  lemma StripDashes(s: string, before: string, after: string)
    requires s != "" && s[0] != '-' && s[|s| - 1] != '-'
    requires (before == "" || before == "-") && (after == "" || after == "-")
    ensures Strip(before + s + after, IsDash) == s
  {
    var all := before + s + after;
    if before == "-" {
      assert all[1..] == s + after;
    }
    assert StripLeft(all, IsDash) == s + after;
    if after == "-" {
      assert (s + after)[..|s + after| - 1] == s;
    } else {
      assert s + after == s;
    }
    assert StripRight(s, IsDash) == s;
  }

  lemma {:induction false} WordsAppend(s: string, c: char)
    requires !IsSlugChar(c)
    ensures Words(s + [c]) == Words(s)
    decreases |s|
  {
    if s == "" {
      assert s + [c] == [c] && [c][1..] == "";
    } else if !IsSlugChar(s[0]) {
      assert (s + [c])[1..] == s[1..] + [c];
      WordsAppend(s[1..], c);
    } else {
      var run := TakeRun(s);
      TakeRunAppend(s, c);
      assert (s + [c])[|run|..] == s[|run|..] + [c];
      WordsAppend(s[|run|..], c);
    }
  }

  lemma {:induction false} TakeRunAppend(s: string, c: char)
    requires !IsSlugChar(c)
    ensures TakeRun(s + [c]) == TakeRun(s)
  {
    if s != "" {
      assert (s + [c])[1..] == s[1..] + [c];
      TakeRunAppend(s[1..], c);
    }
  }

  lemma {:induction false} StripLeftKeepsWords(s: string)
    ensures Words(Lower(StripLeft(s, IsSpace))) == Words(Lower(s))
  {
    if s != "" && IsSpace(s[0]) {
      assert Lower(s)[1..] == Lower(s[1..]);
      StripLeftKeepsWords(s[1..]);
    }
  }

  lemma {:induction false} LowerSnoc(s: string, c: char)
    ensures Lower(s + [c]) == Lower(s) + [LowerChar(c)]
  {
    if s == "" {
      assert s + [c] == [c] && [c][1..] == "";
    } else {
      assert (s + [c])[1..] == s[1..] + [c];
      LowerSnoc(s[1..], c);
    }
  }

  lemma SpaceAppendKeepsWords(s: string, c: char)
    requires IsSpace(c)
    ensures Words(Lower(s + [c])) == Words(Lower(s))
  {
    LowerSnoc(s, c);
    WordsAppend(Lower(s), LowerChar(c));
  }

  lemma {:induction false} StripRightKeepsWords(s: string)
    ensures Words(Lower(StripRight(s, IsSpace))) == Words(Lower(s))
  {
    if s != "" && IsSpace(s[|s| - 1]) {
      var init, c := s[..|s| - 1], s[|s| - 1];
      assert s == init + [c];
      SpaceAppendKeepsWords(init, c);
      StripRightKeepsWords(init);
    }
  }

  /** A slug is the name's words in small letters with single dashes between them, or "company" when
      the name has none. */
  lemma NormalizedIsItsWords(value: string)
    ensures NormalizeSlug(value) == if Words(Lower(value)) == [] then "company" else Join(Words(Lower(value)))
  {
    var left := StripLeft(value, IsSpace);
    StripLeftKeepsWords(value);
    StripRightKeepsWords(left);
    var s := Lower(Strip(value, IsSpace));
    StripLeavesWords(s);
    if Words(s) != [] {
      JoinedEdges(s);
    }
  }
}
