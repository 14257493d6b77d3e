/**
 * The two text parsers of the day cycle: the splitter that turns the news
 * generator's reply into exactly five articles (`generate_news`) and the
 * parser that turns an interpretation reply into an explanation and a list
 * of sector names (`explain_daily_news_meanings`).  The language model's
 * replies are inputs here.
 */
module News {
  import opened Wrappers
  import opened Strings

  /** What the text-generation service gave back: its text, or the message of
      the exception it raised. */
  datatype Reply = Text(text: string) | Failed(message: string)

  /** One entry of `news_meanings`: an explanation and the related sectors. */
  datatype Interpretation = Interpretation(explanation: string, sectors: seq<string>)

  const ArticlesPerDay: nat := 5
  const ArticleMarker := "## 뉴스 "
  const MissingArticle := "(뉴스 생성 실패)"
  const GenerationError := "(뉴스 생성 오류)"

  const ExplanationMarker := "해설:"
  const SectorsMarker := "관련 섹터:"
  const NoSectors := "없음"
  const FailedNewsExplanation := "뉴스 생성에 실패하여 해설할 수 없습니다."
  const MissingExplanation := "AI 해설 생성에 실패했습니다."
  const ErrorPrefix := "오류 발생: "

  /** `str.isdigit` restricted to the ASCII digits. */
  predicate IsDigit(c: char) {
    '0' <= c <= '9'
  }

  /** A text that is non-empty and carries no surrounding whitespace, as every
      article the splitter keeps does. */
  predicate Trimmed(s: string) {
    s != [] && !IsSpace(s[0]) && !IsSpace(s[|s| - 1])
  }

  /** `strip` leaves a trimmed text as it is. */
  lemma StripTrimmed(s: string)
    requires Trimmed(s)
    ensures Strip(s) == s
  {
    StripPadded([], s, []);
    assert [] + s + [] == s;
  }

  /** `strip` removes the space in front of a trimmed text and nothing else. */
  lemma StripSpaced(s: string)
    requires Trimmed(s)
    ensures Strip(" " + s) == s
  {
    StripPadded(" ", s, []);
    assert " " + s + [] == " " + s;
  }

  /** Strip of a text whose last character is not whitespace is non-empty. */
  lemma StripKeepsLast(s: string)
    requires s != [] && !IsSpace(s[|s| - 1])
    ensures Trimmed(Strip(s))
  {
  }

  /** The text after the first line break of a trimmed text that has one is
      itself non-empty once stripped: the break cannot be the last character. */
  lemma RestAfterBreak(s: string)
    requires Trimmed(s) && Contains(s, "\n")
    ensures Trimmed(Strip(AfterFirst(s, "\n")))
  {
    var i := Find(s, "\n");
    assert s[i] == s[i..i + 1][0] == '\n';
    assert i < |s| - 1;
    var rest := AfterFirst(s, "\n");
    assert rest == s[i + 1..];
    assert rest[|rest| - 1] == s[|s| - 1];
    StripKeepsLast(rest);
  }

  /** Whether a kept article opens with what the splitter takes for a number
      line: a digit followed by a line break or by ". ". */
  predicate NumberLine(content: string)
    requires content != []
  {
    IsDigit(content[0]) && Slice(content, 1, 3) in ["\n", ". "]
  }

  /** Drops a leading "N." or "N" number line from a kept article. */
  function DropNumberLine(content: string): (r: string)
    requires Trimmed(content)
    ensures Trimmed(r)
    ensures !Contains(content, "\n") ==> r == content
    ensures !NumberLine(content) ==> r == content
    ensures NumberLine(content) ==> r == Strip(AfterFirst(content, "\n"))
  {
    if NumberLine(content) then
      if Contains(content, "\n") then
        RestAfterBreak(content);
        Strip(AfterFirst(content, "\n"))
      else
        assert Strip(content) == content by { assert LeadingSpaces(content) == 0; }
        Strip(AfterFirst(content, "\n"))
    else content
  }

  /** The article held by one piece between two markers, or None when the
      piece is dropped (blank, or nothing after its number line). */
  function ArticleOf(piece: string): (r: Option<string>)
    ensures r.Some? ==> Trimmed(r.value)
  {
    if Strip(piece) == [] then None
    else
      var content := BodyText(piece);
      if content == [] then None else Some(DropNumberLine(content))
  }

  /** What follows the first line break of a piece (the whole piece when it
      has none), stripped. */
  function BodyText(piece: string): (r: string)
    ensures r != [] ==> Trimmed(r)
  {
    Strip(if Contains(piece, "\n") then AfterFirst(piece, "\n") else piece)
  }

  /** The articles kept from the pieces of a reply, in order. */
  function Articles(pieces: seq<string>): (r: seq<string>)
    ensures |r| <= |pieces|
    ensures forall k :: 0 <= k < |r| ==> Trimmed(r[k])
  {
    if pieces == [] then []
    else
      var kept := ArticleOf(pieces[0]);
      var rest := Articles(pieces[1..]);
      if kept.None? then rest else [kept.value] + rest
  }

  /** `count` copies of `s`. */
  function Repeat(s: string, count: nat): (r: seq<string>)
    ensures |r| == count && forall k :: 0 <= k < count ==> r[k] == s
  {
    if count == 0 then [] else [s] + Repeat(s, count - 1)
  }

  /** Pads a batch with failure markers, or cuts it, to exactly five items. */
  function FitToDay(articles: seq<string>): (r: seq<string>)
    ensures |r| == ArticlesPerDay
    ensures |articles| >= ArticlesPerDay ==> r == articles[..ArticlesPerDay]
    ensures |articles| < ArticlesPerDay ==> r[..|articles|] == articles
    ensures forall k :: |articles| <= k < ArticlesPerDay ==> r[k] == MissingArticle
  {
    var padded := if |articles| < ArticlesPerDay
      then articles + Repeat(MissingArticle, ArticlesPerDay - |articles|)
      else articles;
    padded[..ArticlesPerDay]
  }

  /** The splitter of `generate_news` applied to the stripped reply text. */
  function SplitNews(text: string): (r: seq<string>)
    ensures |r| == ArticlesPerDay
    ensures forall k :: 0 <= k < |r| ==> Trimmed(r[k])
  {
    var articles := if text != [] then Articles(Split(text, ArticleMarker)) else [];
    FitToDay(articles)
  }

  /** `generate_news`: the day's batch built from the service's reply; an
      exception yields five error markers. */
  function GenerateNews(reply: Reply): (r: seq<string>)
    ensures |r| == ArticlesPerDay
    ensures forall k :: 0 <= k < |r| ==> r[k] != []
    ensures reply.Failed? ==> forall k :: 0 <= k < |r| ==> r[k] == GenerationError
  {
    match reply
    case Text(t) => SplitNews(Strip(t))
    case Failed(_) => Repeat(GenerationError, ArticlesPerDay)
  }

  /** An article the splitter gives back unchanged: trimmed, free of the
      marker's '#', and not opening with what looks like a number line. */
  predicate PlainArticle(body: string) {
    Trimmed(body) && '#' !in body && !NumberLine(body)
  }

  /** One piece of a reply in the layout the generator is asked for: the
      article's number on a line of its own, the article, and the blank line
      before the next marker (none after the last article). */
  function Piece(number: string, body: string, last: bool): string {
    number + "\n" + body + (if last then "" else "\n\n")
  }

  function Pieces(numbers: seq<string>, bodies: seq<string>): (r: seq<string>)
    requires |numbers| == |bodies|
    ensures |r| == |bodies|
  {
    seq(|bodies|, k requires 0 <= k < |bodies| => Piece(numbers[k], bodies[k], k == |bodies| - 1))
  }

  /** A reply in the requested layout: every article under the marker
      "## 뉴스 " followed by its number line. */
  function RenderNews(numbers: seq<string>, bodies: seq<string>): string
    requires |numbers| == |bodies|
  {
    Join([""] + Pieces(numbers, bodies), ArticleMarker)
  }

  /** The splitter keeps exactly the article of a piece in that layout. */
  /** The text after a well-laid-out piece's number line is its article. */
  lemma PieceBody(number: string, body: string, last: bool)
    requires '\n' !in number && Trimmed(body)
    ensures BodyText(Piece(number, body, last)) == body
  {
    var pad := if last then "" else "\n\n";
    var rest := body + pad;
    var piece := Piece(number, body, last);
    var i := |number|;
    assert piece == number + "\n" + rest;
    assert piece[i..i + 1] == "\n";
    forall j | 0 <= j < i
      ensures piece[j] != "\n"[0]
    {
      assert piece[j] == number[j];
    }
    AfterFirstAt(piece, "\n", i);
    assert piece[i + 1..] == rest;
    StripPadded([], body, pad);
    assert [] + body + pad == rest;
  }

  lemma ArticleOfPiece(number: string, body: string, last: bool)
    requires '\n' !in number && PlainArticle(body)
    ensures ArticleOf(Piece(number, body, last)) == Some(body)
  {
    PieceBody(number, body, last);
    var piece := Piece(number, body, last);
    assert piece[|number| + 1] == body[0];
    assert Strip(piece) != [];
  }

  lemma {:induction false} ArticlesOfPieces(numbers: seq<string>, bodies: seq<string>, k: nat)
    requires |numbers| == |bodies| && k <= |bodies|
    requires forall k :: 0 <= k < |numbers| ==> '\n' !in numbers[k]
    requires forall k :: 0 <= k < |bodies| ==> PlainArticle(bodies[k])
    ensures Articles(Pieces(numbers, bodies)[k..]) == bodies[k..]
    decreases |bodies| - k
  {
    var pieces := Pieces(numbers, bodies);
    if k < |bodies| {
      var tail := pieces[k..];
      assert tail[0] == Piece(numbers[k], bodies[k], k == |bodies| - 1);
      ArticleOfPiece(numbers[k], bodies[k], k == |bodies| - 1);
      assert tail[1..] == pieces[k + 1..];
      ArticlesOfPieces(numbers, bodies, k + 1);
      assert Articles(tail) == [bodies[k]] + Articles(tail[1..]);
      SuffixCons(bodies, k);
    }
  }

  /** A reply written in the requested layout splits back into its articles,
      padded with failure markers or cut to five. */
  lemma SplitNewsRoundTrip(numbers: seq<string>, bodies: seq<string>)
    requires |numbers| == |bodies|
    requires forall k :: 0 <= k < |numbers| ==> '\n' !in numbers[k] && '#' !in numbers[k]
    requires forall k :: 0 <= k < |bodies| ==> PlainArticle(bodies[k])
    ensures GenerateNews(Text(RenderNews(numbers, bodies))) == FitToDay(bodies)
  {
    var text := RenderNews(numbers, bodies);
    var pieces := Pieces(numbers, bodies);
    RenderedIsStripped(numbers, bodies);
    assert GenerateNews(Text(text)) == SplitNews(text);
    if bodies != [] {
      RenderedSplits(numbers, bodies);
      assert Articles([""] + pieces) == Articles(pieces) by {
        assert ([""] + pieces)[1..] == pieces;
        assert ArticleOf("") == None;
      }
      ArticlesOfPieces(numbers, bodies, 0);
      assert pieces[0..] == pieces;
    }
  }

  /** A reply in the requested layout has nothing for `strip` to remove. */
  lemma RenderedIsStripped(numbers: seq<string>, bodies: seq<string>)
    requires |numbers| == |bodies|
    requires forall k :: 0 <= k < |bodies| ==> PlainArticle(bodies[k])
    ensures Strip(RenderNews(numbers, bodies)) == RenderNews(numbers, bodies)
    ensures RenderNews(numbers, bodies) == [] <==> bodies == []
  {
    if bodies != [] {
      RenderedTrimmed(numbers, bodies);
      StripTrimmed(RenderNews(numbers, bodies));
    }
  }

  /** A non-empty reply in the requested layout starts with the marker and
      ends with the last article's last character. */
  lemma RenderedTrimmed(numbers: seq<string>, bodies: seq<string>)
    requires |numbers| == |bodies| && bodies != []
    requires Trimmed(bodies[|bodies| - 1])
    ensures Trimmed(RenderNews(numbers, bodies))
  {
    var pieces := Pieces(numbers, bodies);
    var parts := [""] + pieces;
    var text := Join(parts, ArticleMarker);
    var n := |bodies| - 1;
    var last := parts[|parts| - 1];
    assert last == numbers[n] + "\n" + bodies[n] + "" by {
      assert last == pieces[n];
    }
    assert last[|last| - 1] == bodies[n][|bodies[n]| - 1];
    JoinEnds(parts, ArticleMarker);
    assert text == ArticleMarker + Join(pieces, ArticleMarker);
  }

  /** Splitting a reply in the requested layout on the marker gives back the
      empty text before the first marker and the pieces. */
  lemma RenderedSplits(numbers: seq<string>, bodies: seq<string>)
    requires |numbers| == |bodies|
    requires forall k :: 0 <= k < |numbers| ==> '#' !in numbers[k]
    requires forall k :: 0 <= k < |bodies| ==> '#' !in bodies[k]
    ensures Split(RenderNews(numbers, bodies), ArticleMarker) == [""] + Pieces(numbers, bodies)
  {
    var pieces := Pieces(numbers, bodies);
    var parts := [""] + pieces;
    forall k | 0 <= k < |parts|
      ensures ArticleMarker[0] !in parts[k]
    {
      if k > 0 {
        assert parts[k] == Piece(numbers[k - 1], bodies[k - 1], k == |parts| - 1);
      }
    }
    SplitJoin(parts, ArticleMarker);
  }

  /** The candidate sector names of the text after "관련 섹터:", split on
      commas and stripped. */
  function Candidates(list: string): (r: seq<string>)
    ensures |r| == Count(list, ",") + 1
  {
    var parts := Split(list, ",");
    seq(|parts|, k requires 0 <= k < |parts| => Strip(parts[k]))
  }

  /** How many times `x` occurs in `xs`. */
  function Occurrences(x: string, xs: seq<string>): (n: nat)
    ensures n == 0 <==> x !in xs
  {
    if xs == [] then 0
    else Occurrences(x, xs[..|xs| - 1]) + (if xs[|xs| - 1] == x then 1 else 0)
  }

  /** Counting from the front: the first entry, then the rest. */
  lemma {:induction false} OccurrencesCons(x: string, head: string, xs: seq<string>)
    ensures Occurrences(x, [head] + xs) == (if head == x then 1 else 0) + Occurrences(x, xs)
    decreases |xs|
  {
    var all := [head] + xs;
    if xs != [] {
      assert all[..|all| - 1] == [head] + xs[..|xs| - 1];
      OccurrencesCons(x, head, xs[..|xs| - 1]);
    } else {
      assert all[..|all| - 1] == [];
    }
  }

  /** `a` is `b` with some entries left out, the others kept in order. */
  predicate Subsequence(a: seq<string>, b: seq<string>)
    decreases |b|
  {
    if a == [] then true
    else if b == [] then false
    else (a[0] == b[0] && Subsequence(a[1..], b[1..])) || Subsequence(a, b[1..])
  }

  /** The candidates that name a known sector, in reply order: every known
      name is kept as many times as it is listed, and no other name is kept. */
  function KnownOnly(names: seq<string>, valid: seq<string>): (r: seq<string>)
    ensures |r| <= |names|
    ensures forall x :: x in r <==> x in names && x in valid
    ensures Subsequence(r, names)
    ensures forall x :: Occurrences(x, r) == if x in valid then Occurrences(x, names) else 0
  {
    if names == [] then []
    else
      var rest := KnownOnly(names[1..], valid);
      assert names == [names[0]] + names[1..];
      if names[0] in valid then
        OccurrencesConsAll(names[0], rest);
        OccurrencesConsAll(names[0], names[1..]);
        [names[0]] + rest
      else
        OccurrencesConsAll(names[0], names[1..]);
        rest
  }

  lemma OccurrencesConsAll(head: string, xs: seq<string>)
    ensures forall x :: Occurrences(x, [head] + xs) == (if head == x then 1 else 0) + Occurrences(x, xs)
  {
    forall x {
      OccurrencesCons(x, head, xs);
    }
  }

  /** The explanation part of an interpretation reply. */
  function ExplanationOf(text: string): (r: string)
    ensures !Contains(text, ExplanationMarker) ==> r == MissingExplanation
  {
    if Contains(text, ExplanationMarker) then
      var start := Find(text, ExplanationMarker) + |ExplanationMarker|;
      var end := Find(text, SectorsMarker);
      if end != -1 then Strip(Slice(text, start, end)) else Strip(text[start..])
    else MissingExplanation
  }

  /** The sector part of an interpretation reply. */
  function SectorsOf(text: string, valid: seq<string>): (r: seq<string>)
    ensures forall x :: x in r ==> x in valid
    ensures !Contains(text, SectorsMarker) ==> r == []
    ensures var list := Strip(AfterLast(text, SectorsMarker));
      Contains(text, SectorsMarker) && (list == [] || list == NoSectors) ==> r == []
    ensures var list := Strip(AfterLast(text, SectorsMarker));
      Contains(text, SectorsMarker) && list != [] && list != NoSectors ==>
        forall x :: x in r <==> x in valid && x in Candidates(list)
    ensures var list := Strip(AfterLast(text, SectorsMarker));
      Contains(text, SectorsMarker) && list != [] && list != NoSectors ==> r == KnownOnly(Candidates(list), valid)
  {
    if Contains(text, SectorsMarker) then
      var list := Strip(AfterLast(text, SectorsMarker));
      if list != NoSectors && list != [] then KnownOnly(Candidates(list), valid) else []
    else []
  }

  /** The parse of one interpretation reply (the text already stripped). */
  function ParseInterpretation(text: string, valid: seq<string>): (r: Interpretation)
    ensures forall x :: x in r.sectors ==> x in valid
  {
    Interpretation(ExplanationOf(text), SectorsOf(text, valid))
  }

  /** An interpretation reply in the layout the interpreter is asked for:
      "해설: " and the explanation on one line, then "관련 섹터: " and the
      sector names separated by ", ". */
  function RenderInterpretation(explanation: string, sectors: seq<string>): string {
    ExplanationMarker + " " + explanation + "\n" + SectorsMarker + " " + Join(sectors, ", ")
  }

  /** The names as they stand between the commas of a ", "-separated list:
      every name after the first keeps the space in front of it. */
  function Spaced(names: seq<string>): (r: seq<string>)
    ensures |r| == |names|
  {
    seq(|names|, k requires 0 <= k < |names| => if k == 0 then names[0] else " " + names[k])
  }

  lemma {:induction false} JoinSpaced(names: seq<string>)
    requires |names| > 0
    ensures Join(names, ", ") == Join(Spaced(names), ",")
  {
    if |names| > 1 {
      var rest := names[1..];
      JoinSpaced(rest);
      var spaced := Spaced(names);
      assert spaced[1..] == [" " + Spaced(rest)[0]] + Spaced(rest)[1..];
      JoinOntoFirst(Spaced(rest), ",", " ");
    }
  }

  /** A non-empty ", "-separated list of trimmed names without commas splits
      back into the names. */
  lemma CandidatesOfList(names: seq<string>)
    requires |names| > 0
    requires forall k :: 0 <= k < |names| ==> Trimmed(names[k]) && ',' !in names[k]
    ensures Candidates(Join(names, ", ")) == names
  {
    var spaced := Spaced(names);
    var list := Join(names, ", ");
    assert Split(list, ",") == spaced by {
      JoinSpaced(names);
      SplitSpaced(names);
    }
    StripSpacedAll(names);
    var r := Candidates(list);
    assert |r| == |names|;
    forall k | 0 <= k < |r|
      ensures r[k] == names[k]
    {
      assert r[k] == Strip(spaced[k]);
    }
  }

  lemma SplitSpaced(names: seq<string>)
    requires |names| > 0
    requires forall k :: 0 <= k < |names| ==> ',' !in names[k]
    ensures Split(Join(Spaced(names), ","), ",") == Spaced(names)
  {
    var spaced := Spaced(names);
    forall k | 0 <= k < |spaced|
      ensures ","[0] !in spaced[k]
    {
    }
    SplitJoin(spaced, ",");
  }

  lemma StripSpacedAll(names: seq<string>)
    requires forall k :: 0 <= k < |names| ==> Trimmed(names[k])
    ensures forall k :: 0 <= k < |names| ==> Strip(Spaced(names)[k]) == names[k]
  {
    forall k | 0 <= k < |names|
      ensures Strip(Spaced(names)[k]) == names[k]
    {
      if k == 0 {
        StripTrimmed(names[k]);
      } else {
        StripSpaced(names[k]);
      }
    }
  }

  /** A ", "-separated list of several names is not the word "없음". */
  lemma ListOfSeveral(names: seq<string>)
    requires |names| > 1
    ensures Join(names, ", ") != NoSectors
  {
    var list := Join(names, ", ");
    assert list[|names[0]|] == ',';
  }

  /** Where the two markers of a reply in the requested layout stand. */
  lemma MarkersOfRendered(explanation: string, sectors: seq<string>)
    requires SectorsMarker[0] !in explanation
    ensures var text := RenderInterpretation(explanation, sectors);
      && Find(text, ExplanationMarker) == 0
      && Find(text, SectorsMarker) == |ExplanationMarker| + |explanation| + 2
      && text[|ExplanationMarker|..|ExplanationMarker| + |explanation| + 2] == " " + explanation + "\n"
      && text[|ExplanationMarker| + |explanation| + 2 + |SectorsMarker|..] == " " + Join(sectors, ", ")
  {
    var text := RenderInterpretation(explanation, sectors);
    var head := ExplanationMarker + " " + explanation + "\n";
    var at := |head|;
    assert text == head + SectorsMarker + " " + Join(sectors, ", ");
    assert text[..|ExplanationMarker|] == ExplanationMarker;
    FindAt(text, ExplanationMarker, 0);
    assert text[at..at + |SectorsMarker|] == SectorsMarker;
    forall j | 0 <= j < at
      ensures text[j] != SectorsMarker[0]
    {
      assert text[j] == head[j];
    }
    FindAt(text, SectorsMarker, at);
  }

  /** The text after "관련 섹터:" in a reply in the requested layout. */
  lemma SectorListOfRendered(explanation: string, sectors: seq<string>)
    requires SectorsMarker[0] !in explanation
    requires forall k :: 0 <= k < |sectors| ==> SectorsMarker[0] !in sectors[k]
    ensures AfterLast(RenderInterpretation(explanation, sectors), SectorsMarker) == " " + Join(sectors, ", ")
  {
    var text := RenderInterpretation(explanation, sectors);
    var list := " " + Join(sectors, ", ");
    var at := |ExplanationMarker| + |explanation| + 2;
    MarkersOfRendered(explanation, sectors);
    assert text[at + |SectorsMarker|..] == list;
    ListAlone(list, sectors);
  }

  /** The sector list of a reply in the requested layout holds no marker. */
  lemma ListAlone(list: string, sectors: seq<string>)
    requires list == " " + Join(sectors, ", ")
    requires forall k :: 0 <= k < |sectors| ==> SectorsMarker[0] !in sectors[k]
    ensures !Contains(list, SectorsMarker)
  {
    JoinFree(sectors, ", ", SectorsMarker[0]);
    NotFound(list, SectorsMarker);
  }

  /** A join of parts and a separator that all lack `c` lacks `c`. */
  lemma {:induction false} JoinFree(parts: seq<string>, sep: string, c: char)
    requires c !in sep
    requires forall k :: 0 <= k < |parts| ==> c !in parts[k]
    ensures c !in Join(parts, sep)
  {
    if |parts| > 1 {
      JoinFree(parts[1..], sep, c);
    }
  }

  /** A reply in the requested layout parses back into its explanation and
      the listed names that are known sectors.  The explanation and the names
      must not contain the first character of "관련 섹터:", which the proof uses
      to locate the marker. */
  lemma ParseInterpretationRoundTrip(explanation: string, sectors: seq<string>, valid: seq<string>)
    requires Trimmed(explanation) && SectorsMarker[0] !in explanation
    requires |sectors| > 0
    requires forall k :: 0 <= k < |sectors| ==>
      Trimmed(sectors[k]) && ',' !in sectors[k] && SectorsMarker[0] !in sectors[k]
    requires NoSectors !in valid
    ensures var text := RenderInterpretation(explanation, sectors);
      Interpret("", Text(text), valid) == Interpretation(explanation, KnownOnly(sectors, valid))
  {
    var text := RenderInterpretation(explanation, sectors);
    RenderedInterpretationIsStripped(explanation, sectors);
    assert !IsFailureMarker("");
    assert Interpret("", Text(text), valid) == ParseInterpretation(text, valid);
    ExplanationOfRendered(explanation, sectors);
    SectorsOfRendered(explanation, sectors, valid);
  }

  lemma ExplanationOfRendered(explanation: string, sectors: seq<string>)
    requires Trimmed(explanation) && SectorsMarker[0] !in explanation
    ensures ExplanationOf(RenderInterpretation(explanation, sectors)) == explanation
  {
    var text := RenderInterpretation(explanation, sectors);
    MarkersOfRendered(explanation, sectors);
    var start := |ExplanationMarker|;
    var end := |ExplanationMarker| + |explanation| + 2;
    assert Contains(text, ExplanationMarker);
    var middle := Slice(text, start, end);
    assert middle == " " + explanation + "\n";
    assert ExplanationOf(text) == Strip(middle);
    StripPadded(" ", explanation, "\n");
  }

  lemma SectorsOfRendered(explanation: string, sectors: seq<string>, valid: seq<string>)
    requires SectorsMarker[0] !in explanation
    requires |sectors| > 0
    requires forall k :: 0 <= k < |sectors| ==>
      Trimmed(sectors[k]) && ',' !in sectors[k] && SectorsMarker[0] !in sectors[k]
    requires NoSectors !in valid
    ensures SectorsOf(RenderInterpretation(explanation, sectors), valid) == KnownOnly(sectors, valid)
  {
    var text := RenderInterpretation(explanation, sectors);
    var list := Join(sectors, ", ");
    MarkersOfRendered(explanation, sectors);
    assert Contains(text, SectorsMarker);
    SectorListOfRendered(explanation, sectors);
    JoinTrimmed(sectors);
    StripSpaced(list);
    if |sectors| == 1 && sectors[0] == NoSectors {
      assert list == NoSectors;
    } else {
      if |sectors| > 1 {
        ListOfSeveral(sectors);
      }
      CandidatesOfList(sectors);
    }
  }

  /** A join of trimmed names is trimmed. */
  lemma JoinTrimmed(names: seq<string>)
    requires |names| > 0 && forall k :: 0 <= k < |names| ==> Trimmed(names[k])
    ensures Trimmed(Join(names, ", "))
  {
    var list := Join(names, ", ");
    var n := |names| - 1;
    assert Trimmed(names[0]) && Trimmed(names[n]);
    JoinEnds(names, ", ");
    if n > 0 {
      assert list == names[0] + ", " + Join(names[1..], ", ");
    }
    assert list[0] == names[0][0];
  }

  lemma RenderedInterpretationIsStripped(explanation: string, sectors: seq<string>)
    requires |sectors| > 0 && forall k :: 0 <= k < |sectors| ==> Trimmed(sectors[k])
    ensures Strip(RenderInterpretation(explanation, sectors)) == RenderInterpretation(explanation, sectors)
  {
    JoinTrimmed(sectors);
    var list := Join(sectors, ", ");
    var text := ExplanationMarker + " " + explanation + "\n" + SectorsMarker + " " + list;
    assert text[0] == '해';
    assert text[|text| - 1] == list[|list| - 1];
    StripTrimmed(text);
  }

  /** Whether an article is one of the markers the splitter or the generator
      put in place of a real article. */
  predicate IsFailureMarker(article: string) {
    Contains(article, GenerationError) || Contains(article, MissingArticle)
  }

  /** Both markers are recognised as failures, and so is every article of a
      batch whose generation failed. */
  lemma MarkersRecognised(reply: Reply)
    ensures IsFailureMarker(GenerationError) && IsFailureMarker(MissingArticle)
    ensures reply.Failed? ==> forall k :: 0 <= k < ArticlesPerDay ==> IsFailureMarker(GenerateNews(reply)[k])
  {
    ContainsAt(GenerationError, GenerationError, 0);
    ContainsAt(MissingArticle, MissingArticle, 0);
  }

  /** The interpretation of one article: a fixed one for a failure marker,
      otherwise the parse of the service's reply, or the error it raised. */
  function Interpret(article: string, reply: Reply, valid: seq<string>): (r: Interpretation)
    ensures forall x :: x in r.sectors ==> x in valid
    ensures IsFailureMarker(article) ==> r == Interpretation(FailedNewsExplanation, [])
    ensures !IsFailureMarker(article) && reply.Failed? ==>
      r == Interpretation(ErrorPrefix + reply.message, [])
  {
    if IsFailureMarker(article) then Interpretation(FailedNewsExplanation, [])
    else
      match reply
      case Text(t) => ParseInterpretation(Strip(t), valid)
      case Failed(m) => Interpretation(ErrorPrefix + m, [])
  }

  /** `explain_daily_news_meanings`: one interpretation per article, in order
      (entry k stands for the key str(k + 1)); no batch yields none. */
  function ExplainAll(news: Option<seq<string>>, replies: seq<Reply>, valid: seq<string>): (r: seq<Interpretation>)
    requires news.Some? ==> |replies| == |news.value|
    ensures news.None? ==> r == []
    ensures news.Some? ==> |r| == |news.value|
    ensures news.Some? ==> forall k :: 0 <= k < |r| ==> r[k] == Interpret(news.value[k], replies[k], valid)
    ensures forall k, x :: 0 <= k < |r| && x in r[k].sectors ==> x in valid
  {
    match news
    case None => []
    case Some(articles) =>
      seq(|articles|, k requires 0 <= k < |articles| => Interpret(articles[k], replies[k], valid))
  }
}
