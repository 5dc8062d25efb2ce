/** Finding the first JSON object in a model's answer.

    The program scans bytes; the characters it looks for are single ASCII bytes
    that occur inside no longer character, so the scan here is over characters. */
module JsonScanner {
  import opened Basics

  datatype Scan = Scan(depth: int, inString: bool, escaped: bool)

  function Outside(depth: int): Scan {
    Scan(depth, false, false)
  }

  function Step(s: Scan, c: char): Scan {
    if s.inString then
      if s.escaped then s.(escaped := false)
      else if c == '\\' then s.(escaped := true)
      else if c == '\"' then s.(inString := false)
      else s
    else if c == '\"' then s.(inString := true)
    else if c == '{' then s.(depth := s.depth + 1)
    else if c == '}' then s.(depth := s.depth - 1)
    else s
  }

  function Run(s: Scan, text: string): Scan {
    if text == "" then s else Step(Run(s, text[..|text| - 1]), text[|text| - 1])
  }

  /** Every brace outside a string has its partner. */
  predicate Balanced(text: string) {
    text != "" && Run(Outside(0), text) == Outside(0)
  }

  /** The first length, at least `n`, at which a prefix is balanced. */
  function FirstBalanced(text: string, n: nat): (r: Option<nat>)
    requires n <= |text|
    ensures r.Some? ==> n <= r.value <= |text| && Balanced(text[..r.value])
    ensures forall k :: n <= k <= |text| && Balanced(text[..k]) ==> r.Some? && r.value <= k
    decreases |text| - n
  {
    if Balanced(text[..n]) then Some(n)
    else if n == |text| then None
    else FirstBalanced(text, n + 1)
  }

  function Find(text: string, c: char): (at: nat)
    ensures at <= |text| && c !in text[..at]
    ensures at < |text| ==> text[at] == c
  {
    if text == "" then 0
    else if text[0] == c then 0
    else
      var later := Find(text[1..], c);
      assert text[..1 + later] == [text[0]] + text[1..][..later];
      1 + later
  }

  /** The shortest balanced prefix from the first opening brace. */
  function Extract(text: string): Option<string> {
    var start := Find(text, '{');
    var end := FirstBalanced(text[start..], 0);
    if end.Some? then Some(text[start..][..end.value]) else None
  }

  lemma RunOfPrefix(text: string, k: nat)
    requires k < |text|
    ensures Run(Outside(0), text[..k + 1]) == Step(Run(Outside(0), text[..k]), text[k])
  {
    assert text[..k + 1][..k] == text[..k];
  }

  method ExtractJsonObject(text: string) returns (r: Option<string>)
    ensures r == Extract(text)
  {
    var start := Find(text, '{');
    ghost var tail := text[start..];
    if start == |text| {
      return None;
    }
    var depth: nat, inString, escaped := 0, false, false;
    var offset := start;
    while offset < |text|
      invariant start <= offset <= |text|
      invariant Run(Outside(0), tail[..offset - start]) == Scan(depth, inString, escaped)
      invariant depth > 0 || offset == start
      invariant offset == start ==> !inString
      invariant escaped ==> inString
      invariant forall k :: 0 <= k <= offset - start ==> !Balanced(tail[..k])
    {
      var c := text[offset];
      ghost var now := tail[..offset - start + 1];
      RunOfPrefix(tail, offset - start);
      if inString {
        if escaped {
          escaped := false;
        } else if c == '\\' {
          escaped := true;
        } else if c == '\"' {
          inString := false;
        }
        offset := offset + 1;
        continue;
      }
      match c {
        case '\"' =>
          inString := true;
        case '{' =>
          depth := depth + 1;
        case '}' =>
          depth := depth - 1;
          if depth == 0 {
            assert Balanced(now);
            assert text[start..offset + 1] == now;
            return Some(text[start..offset + 1]);
          }
        case _ =>
      }
      offset := offset + 1;
    }
    r := None;
  }

  // ---- What text the scan passes over unchanged. ----

  lemma {:induction false} RunPlus(s: Scan, a: string, b: string)
    ensures Run(s, a + b) == Run(Run(s, a), b)
  {
    if b == "" {
      assert a + b == a;
    } else {
      assert (a + b)[..|a + b| - 1] == a + b[..|b| - 1];
      RunPlus(s, a, b[..|b| - 1]);
    }
  }

  /** From any depth the scan comes back to it, never going below. */
  ghost predicate Steady(text: string) {
    forall d: int :: SteadyAt(d, text)
  }

  predicate SteadyAt(d: int, text: string) {
    && Run(Outside(d), text) == Outside(d)
    && forall k :: 0 <= k <= |text| ==> Run(Outside(d), text[..k]).depth >= d
  }

  lemma SteadyPlus(a: string, b: string)
    requires Steady(a) && Steady(b)
    ensures Steady(a + b)
  {
    forall d: int
      ensures SteadyAt(d, a + b)
    {
      assert SteadyAt(d, a) && SteadyAt(d, b);
      RunPlus(Outside(d), a, b);
      forall k | 0 <= k <= |a + b|
        ensures Run(Outside(d), (a + b)[..k]).depth >= d
      {
        if k <= |a| {
          assert (a + b)[..k] == a[..k];
        } else {
          assert (a + b)[..k] == a + b[..k - |a|];
          RunPlus(Outside(d), a, b[..k - |a|]);
        }
      }
    }
  }

  predicate Unmarked(text: string) {
    forall k :: 0 <= k < |text| ==> text[k] != '\"' && text[k] != '{' && text[k] != '}'
  }

  lemma {:induction false} UnmarkedRun(s: Scan, text: string)
    requires Unmarked(text) && !s.inString
    ensures Run(s, text) == s
  {
    if text != "" {
      UnmarkedRun(s, text[..|text| - 1]);
    }
  }

  lemma UnmarkedIsSteady(text: string)
    requires Unmarked(text)
    ensures Steady(text)
  {
    forall d: int
      ensures SteadyAt(d, text)
    {
      UnmarkedRun(Outside(d), text);
      forall k | 0 <= k <= |text|
        ensures Run(Outside(d), text[..k]).depth >= d
      {
        UnmarkedRun(Outside(d), text[..k]);
      }
    }
  }

  /** A string's content, piece by piece: a character that is neither a quote
      nor a backslash, or a backslash and any character. */
  datatype Piece = Bare(c: char) | Escaped(c: char)

  predicate ValidPiece(p: Piece) {
    p.Bare? ==> p.c != '\"' && p.c != '\\'
  }

  predicate ValidPieces(pieces: seq<Piece>) {
    forall k :: 0 <= k < |pieces| ==> ValidPiece(pieces[k])
  }

  function PieceText(p: Piece): string {
    if p.Bare? then [p.c] else ['\\', p.c]
  }

  function Content(pieces: seq<Piece>): string {
    if pieces == [] then "" else Content(pieces[..|pieces| - 1]) + PieceText(pieces[|pieces| - 1])
  }

  function Quoted(pieces: seq<Piece>): string {
    "\"" + Content(pieces) + "\""
  }

  lemma {:induction false} ContentRuns(d: int, pieces: seq<Piece>)
    requires ValidPieces(pieces)
    ensures Run(Outside(d), "\"" + Content(pieces)) == Scan(d, true, false)
    ensures forall k :: 0 <= k <= 1 + |Content(pieces)| ==> Run(Outside(d), ("\"" + Content(pieces))[..k]).depth == d
  {
    if pieces == [] {
      assert "\"" + Content(pieces) == "\"";
      assert Run(Outside(d), "\""[..0]) == Outside(d);
    } else {
      var front, last := pieces[..|pieces| - 1], pieces[|pieces| - 1];
      ContentRuns(d, front);
      var before, text := "\"" + Content(front), "\"" + Content(pieces);
      assert text == before + PieceText(last);
      PieceRuns(Run(Outside(d), before), last);
      RunPlus(Outside(d), before, PieceText(last));
      forall k | 0 <= k <= |text|
        ensures Run(Outside(d), text[..k]).depth == d
      {
        if k <= |before| {
          assert text[..k] == before[..k];
        } else {
          assert text[..k] == before + PieceText(last)[..k - |before|];
          RunPlus(Outside(d), before, PieceText(last)[..k - |before|]);
        }
      }
    }
  }

  lemma PieceRuns(s: Scan, p: Piece)
    requires ValidPiece(p) && s.inString && !s.escaped
    ensures Run(s, PieceText(p)) == s
    ensures forall k :: 0 <= k <= |PieceText(p)| ==> Run(s, PieceText(p)[..k]).depth == s.depth
  {
    var t := PieceText(p);
    assert t[..0] == "" && t[..1] == [t[0]] && [t[0]][..0] == "";
    assert Run(s, [t[0]]) == Step(s, t[0]);
    if p.Escaped? {
      assert t[..|t| - 1] == ['\\'] && t[..2] == t;
    }
  }

  lemma QuotedIsSteady(pieces: seq<Piece>)
    requires ValidPieces(pieces)
    ensures Steady(Quoted(pieces))
  {
    forall d: int
      ensures SteadyAt(d, Quoted(pieces))
    {
      ContentRuns(d, pieces);
      var text, most := Quoted(pieces), "\"" + Content(pieces);
      assert text[..|text| - 1] == most;
      forall k | 0 <= k <= |text|
        ensures Run(Outside(d), text[..k]).depth >= d
      {
        assert k < |text| ==> text[..k] == most[..k];
        assert k == |text| ==> text[..k] == text;
      }
    }
  }

  function Braces(inner: string): string {
    "{" + inner + "}"
  }

  lemma BracesStayOpen(d: int, inner: string)
    requires SteadyAt(d + 1, inner)
    ensures Run(Outside(d), Braces(inner)) == Outside(d)
    ensures forall k :: 0 < k < |Braces(inner)| ==> Run(Outside(d), Braces(inner)[..k]).depth > d
  {
    var text := Braces(inner);
    assert Run(Outside(d), "{") == Outside(d + 1) by {
      assert "{"[..0] == "";
    }
    RunPlus(Outside(d), "{", inner);
    assert text[..|text| - 1] == "{" + inner;
    forall k | 0 < k < |text|
      ensures Run(Outside(d), text[..k]).depth > d
    {
      assert text[..k] == "{" + inner[..k - 1];
      RunPlus(Outside(d), "{", inner[..k - 1]);
    }
  }

  lemma BracesAreSteady(inner: string)
    requires Steady(inner)
    ensures Steady(Braces(inner))
  {
    forall d: int
      ensures SteadyAt(d, Braces(inner))
    {
      assert SteadyAt(d + 1, inner);
      BracesStayOpen(d, inner);
      var text := Braces(inner);
      assert text[..|text|] == text && text[..0] == "";
    }
  }

  /** Braces around steady text are found wherever they stand first. */
  lemma ExtractFinds(before: string, inner: string, after: string)
    requires '{' !in before && Steady(inner)
    ensures Extract(before + Braces(inner) + after) == Some(Braces(inner))
  {
    var whole := Braces(inner);
    var text := before + whole + after;
    var start := Find(text, '{');
    assert text[|before|] == '{';
    assert forall k :: 0 <= k < |before| ==> text[k] == before[k];
    assert forall k :: 0 <= k < start ==> text[..start][k] != '{';
    assert start == |before|;
    assert text[start..] == whole + after;
    assert SteadyAt(1, inner);
    BracesStayOpen(0, inner);
    assert (whole + after)[..|whole|] == whole;
    assert forall k :: 0 <= k <= |whole| ==> (whole + after)[..k] == whole[..k];
  }

  // ---- The shape of every result. ----

  /** Brace structure: plain characters, strings, and braced items. */
  datatype Item = Plain(c: char) | Str(pieces: seq<Piece>) | Braced(inside: Items)
  datatype Items = Nothing | Then(front: Items, last: Item)

  predicate ValidItem(item: Item) {
    match item
    case Plain(c) => Unmarked([c])
    case Str(pieces) => ValidPieces(pieces)
    case Braced(inside) => ValidItems(inside)
  }

  predicate ValidItems(items: Items) {
    items.Then? ==> ValidItems(items.front) && ValidItem(items.last)
  }

  function ItemText(item: Item): string {
    match item
    case Plain(c) => [c]
    case Str(pieces) => Quoted(pieces)
    case Braced(inside) => Braces(Text(inside))
  }

  function Text(items: Items): string {
    if items.Nothing? then "" else Text(items.front) + ItemText(items.last)
  }

  lemma {:induction false} ItemIsSteady(item: Item)
    requires ValidItem(item)
    ensures Steady(ItemText(item))
  {
    match item
    case Plain(c) => UnmarkedIsSteady([c]);
    case Str(pieces) => QuotedIsSteady(pieces);
    case Braced(inside) =>
      TextIsSteady(inside);
      BracesAreSteady(Text(inside));
  }

  lemma {:induction false} TextIsSteady(items: Items)
    requires ValidItems(items)
    ensures Steady(Text(items))
  {
    match items
    case Nothing => UnmarkedIsSteady("");
    case Then(front, last) =>
      TextIsSteady(front);
      ItemIsSteady(last);
      SteadyPlus(Text(front), ItemText(last));
  }

  /** The items read at each open brace, outermost first. */
  function OpenText(levels: seq<Items>): string {
    if levels == [] then "" else OpenText(levels[..|levels| - 1]) + "{" + Text(levels[|levels| - 1])
  }

  predicate ValidLevels(levels: seq<Items>) {
    forall k :: 0 <= k < |levels| ==> ValidItems(levels[k])
  }

  /** What has been read of a string that is still open. */
  function PartText(s: Scan, pieces: seq<Piece>): string {
    if s.inString then "\"" + Content(pieces) + (if s.escaped then "\\" else "") else ""
  }

  ghost predicate Reads(text: string, levels: seq<Items>, pieces: seq<Piece>) {
    var s := Run(Outside(0), text);
    && ValidLevels(levels) && ValidPieces(pieces)
    && |levels| == s.depth && (s.escaped ==> s.inString)
    && text == OpenText(levels) + PartText(s, pieces)
  }

  function Grow(levels: seq<Items>, item: Item): seq<Items>
    requires levels != []
  {
    levels[|levels| - 1 := Then(levels[|levels| - 1], item)]
  }

  lemma GrowText(levels: seq<Items>, item: Item)
    requires levels != [] && ValidLevels(levels) && ValidItem(item)
    ensures ValidLevels(Grow(levels, item))
    ensures OpenText(Grow(levels, item)) == OpenText(levels) + ItemText(item)
  {
    var n := |levels| - 1;
    assert Grow(levels, item)[..n] == levels[..n];
    var a, b, c := OpenText(levels[..n]) + "{", Text(levels[n]), ItemText(item);
    assert a + (b + c) == (a + b) + c;
  }

  lemma RunNext(text: string, c: char)
    ensures Run(Outside(0), text + [c]) == Step(Run(Outside(0), text), c)
  {
    assert (text + [c])[..|text|] == text;
  }

  lemma MorePieces(pieces: seq<Piece>, p: Piece)
    ensures Content(pieces + [p]) == Content(pieces) + PieceText(p)
  {
    assert (pieces + [p])[..|pieces|] == pieces;
  }

  /** One more character inside a string. */
  lemma ReadsInString(text: string, c: char)
    requires exists levels, pieces :: Reads(text, levels, pieces)
    requires Run(Outside(0), text).depth > 0 && Run(Outside(0), text).inString
    ensures exists levels, pieces :: Reads(text + [c], levels, pieces)
  {
    if Run(Outside(0), text).escaped {
      ReadsEscaped(text, c);
    } else if c == '\"' {
      ReadsQuote(text);
    } else if c == '\\' {
      ReadsBackslash(text);
    } else {
      ReadsBare(text, c);
    }
  }

  lemma ReadsEscaped(text: string, c: char)
    requires exists levels, pieces :: Reads(text, levels, pieces)
    requires Run(Outside(0), text).inString && Run(Outside(0), text).escaped
    ensures exists levels, pieces :: Reads(text + [c], levels, pieces)
  {
    var levels, pieces :| Reads(text, levels, pieces);
    RunNext(text, c);
    MorePieces(pieces, Escaped(c));
    TextEscaped(OpenText(levels), Content(pieces), c);
    assert text + [c] == OpenText(levels) + PartText(Run(Outside(0), text + [c]), pieces + [Escaped(c)]);
    assert Reads(text + [c], levels, pieces + [Escaped(c)]);
  }

  lemma ReadsQuote(text: string)
    requires exists levels, pieces :: Reads(text, levels, pieces)
    requires Run(Outside(0), text).depth > 0
    requires Run(Outside(0), text).inString && !Run(Outside(0), text).escaped
    ensures exists levels, pieces :: Reads(text + "\"", levels, pieces)
  {
    var levels, pieces :| Reads(text, levels, pieces);
    RunNext(text, '\"');
    GrowText(levels, Str(pieces));
    TextPlain(OpenText(levels), Content(pieces), '\"');
    assert Reads(text + "\"", Grow(levels, Str(pieces)), []);
  }

  lemma ReadsBackslash(text: string)
    requires exists levels, pieces :: Reads(text, levels, pieces)
    requires Run(Outside(0), text).inString && !Run(Outside(0), text).escaped
    ensures exists levels, pieces :: Reads(text + ['\\'], levels, pieces)
  {
    var levels, pieces :| Reads(text, levels, pieces);
    RunNext(text, '\\');
    TextPlain(OpenText(levels), Content(pieces), '\\');
    assert Reads(text + ['\\'], levels, pieces);
  }

  lemma ReadsBare(text: string, c: char)
    requires exists levels, pieces :: Reads(text, levels, pieces)
    requires c != '\"' && c != '\\'
    requires Run(Outside(0), text).inString && !Run(Outside(0), text).escaped
    ensures exists levels, pieces :: Reads(text + [c], levels, pieces)
  {
    var levels, pieces :| Reads(text, levels, pieces);
    RunNext(text, c);
    TextPlain(OpenText(levels), Content(pieces), c);
    MorePieces(pieces, Bare(c));
    assert text + [c] == OpenText(levels) + PartText(Run(Outside(0), text + [c]), pieces + [Bare(c)]);
    assert Reads(text + [c], levels, pieces + [Bare(c)]);
  }

  lemma TextEscaped(open: string, content: string, c: char)
    ensures open + ("\"" + content + "\\") + [c] == open + ("\"" + (content + ['\\', c]) + "")
  {
  }

  lemma TextPlain(open: string, content: string, c: char)
    ensures open + ("\"" + content + "") + [c] == open + ("\"" + content + [c])
    ensures open + ("\"" + content + [c]) == open + ("\"" + (content + [c]) + "")
    ensures open + ("\"" + content + [c]) == open + ("\"" + content + [c]) + ""
  {
  }

  /** One more character outside strings that does not close the outermost brace. */
  lemma ReadsOutside(text: string, c: char)
    requires exists levels, pieces :: Reads(text, levels, pieces)
    requires !Run(Outside(0), text).inString
    requires var depth := Run(Outside(0), text).depth; if depth == 0 then c == '{' else c == '}' ==> depth > 1
    ensures exists levels, pieces :: Reads(text + [c], levels, pieces)
  {
    var levels, pieces :| Reads(text, levels, pieces);
    ReadsNoString(text, levels, pieces);
    if c == '\"' {
      BeginsString(text, levels);
    } else if c == '{' {
      OpensBrace(text, levels);
    } else if c == '}' {
      ClosesBrace(text, levels);
    } else {
      ReadsPlain(text, levels, c);
    }
  }

  /** Outside strings no part of one has been read. */
  lemma ReadsNoString(text: string, levels: seq<Items>, pieces: seq<Piece>)
    requires Reads(text, levels, pieces) && !Run(Outside(0), text).inString
    ensures ReadsAt(text, levels)
  {
    assert OpenText(levels) + "" == OpenText(levels);
  }

  /** Read outside strings, with these braces open. */
  predicate ReadsAt(text: string, levels: seq<Items>) {
    && Run(Outside(0), text) == Outside(|levels|)
    && ValidLevels(levels)
    && text == OpenText(levels)
  }

  lemma ReadsAtReads(text: string, levels: seq<Items>)
    requires ReadsAt(text, levels)
    ensures Reads(text, levels, [])
  {
    assert OpenText(levels) + "" == OpenText(levels);
  }

  lemma BeginsString(text: string, levels: seq<Items>)
    requires ReadsAt(text, levels) && levels != []
    ensures Reads(text + "\"", levels, [])
  {
    RunNext(text, '\"');
    assert PartText(Scan(|levels|, true, false), []) == "\"" + Content([]) + "" == "\"";
  }

  lemma OpensBrace(text: string, levels: seq<Items>)
    requires ReadsAt(text, levels)
    ensures Reads(text + "{", levels + [Nothing], [])
  {
    RunNext(text, '{');
    assert (levels + [Nothing])[..|levels|] == levels;
    assert OpenText(levels + [Nothing]) == text + "{" + "" == text + "{";
    ReadsAtReads(text + "{", levels + [Nothing]);
  }

  lemma ClosesBrace(text: string, levels: seq<Items>)
    requires ReadsAt(text, levels) && |levels| > 1
    ensures exists closed :: Reads(text + "}", closed, [])
  {
    RunNext(text, '}');
    ClosedText(levels);
    ReadsAtReads(text + "}", Grow(levels[..|levels| - 1], Braced(levels[|levels| - 1])));
  }

  lemma ReadsPlain(text: string, levels: seq<Items>, c: char)
    requires ReadsAt(text, levels) && levels != []
    requires c != '\"' && c != '{' && c != '}'
    ensures Reads(text + [c], Grow(levels, Plain(c)), [])
  {
    RunNext(text, c);
    GrowText(levels, Plain(c));
    ReadsAtReads(text + [c], Grow(levels, Plain(c)));
  }

  lemma ClosedText(levels: seq<Items>)
    requires ValidLevels(levels) && |levels| > 1
    ensures var closed := Grow(levels[..|levels| - 1], Braced(levels[|levels| - 1]));
            ValidLevels(closed) && OpenText(closed) == OpenText(levels) + "}"
  {
    var n := |levels| - 1;
    var rest, inside := levels[..n], levels[n];
    GrowText(rest, Braced(inside));
    Associate(OpenText(rest), "{", Text(inside));
    Associate(OpenText(rest), "{" + Text(inside), "}");
  }

  lemma {:induction false} ReadsOpen(text: string)
    requires text != "" ==> text[0] == '{'
    requires forall k :: 0 < k <= |text| ==> Run(Outside(0), text[..k]).depth > 0
    ensures exists levels, pieces :: Reads(text, levels, pieces)
    decreases |text|
  {
    if text == "" {
      assert Reads(text, [], []);
    } else {
      var front, c := text[..|text| - 1], text[|text| - 1];
      assert front + [c] == text && text[..|text|] == text;
      assert forall k :: 0 < k <= |front| ==> front[..k] == text[..k];
      ReadsOpen(front);
      assert front[..|front|] == front;
      if Run(Outside(0), front).inString {
        ReadsInString(front, c);
      } else {
        ReadsOutside(front, c);
      }
    }
  }

  /** The depth moves by at most one and cannot reach zero but by a closing
      brace outside strings. */
  lemma {:induction false} UnbalancedStaysOpen(text: string)
    requires text != "" && text[0] == '{'
    requires forall k :: 0 < k <= |text| ==> !Balanced(text[..k])
    ensures forall k :: 0 < k <= |text| ==> Run(Outside(0), text[..k]).depth > 0
    ensures Run(Outside(0), text).escaped ==> Run(Outside(0), text).inString
    decreases |text|
  {
    assert text[..|text|] == text;
    if |text| == 1 {
      assert text[..0] == "";
    } else {
      var front := text[..|text| - 1];
      assert forall k :: 0 < k <= |front| ==> front[..k] == text[..k];
      UnbalancedStaysOpen(front);
      assert front[..|front|] == front;
    }
  }

  /** The scan answers with brace structure: an answer is a braced item. */
  lemma ExtractIsBraced(text: string)
    requires Extract(text).Some?
    ensures exists inside :: ValidItems(inside) && Extract(text) == Some(Braces(Text(inside)))
  {
    var start := Find(text, '{');
    var tail := text[start..];
    var n := FirstBalanced(tail, 0).value;
    var answer := tail[..n];
    assert tail[..0] == "";
    assert n > 0 && tail[0] == '{';
    var front, c := answer[..n - 1], answer[n - 1];
    assert answer == front + [c];
    assert forall k :: 0 <= k <= |front| ==> front[..k] == tail[..k];
    assert front != "" by {
      assert Run(Outside(0), "") == Outside(0);
    }
    UnbalancedStaysOpen(front);
    ReadsOpen(front);
    assert front[..|front|] == front;
    assert Step(Run(Outside(0), front), c) == Outside(0);
    OneLevel(front);
    var inside :| ValidItems(inside) && front == "{" + Text(inside);
    assert Extract(text) == Some(Braces(Text(inside)));
  }

  /** What is read of an object about to end is all inside its one brace. */
  lemma OneLevel(text: string)
    requires exists levels, pieces :: Reads(text, levels, pieces)
    requires Run(Outside(0), text) == Outside(1)
    ensures exists inside :: ValidItems(inside) && text == "{" + Text(inside)
  {
    var levels, pieces :| Reads(text, levels, pieces);
    assert levels[..0] == [] && OpenText(levels[..0]) == "";
    assert text == "{" + Text(levels[0]);
  }

  /** From the first opening brace the text goes on with this braced item. */
  ghost predicate BracedAt(text: string, inside: Items) {
    && ValidItems(inside)
    && |Braces(Text(inside))| <= |text| - Find(text, '{')
    && text[Find(text, '{')..][..|Braces(Text(inside))|] == Braces(Text(inside))
  }

  /** The scan answers exactly when the text goes on, from its first opening
      brace, with a braced item, and then with that item. */
  lemma ExtractIff(text: string)
    ensures Extract(text).Some? <==> exists inside :: BracedAt(text, inside)
    ensures forall inside :: BracedAt(text, inside) ==> Extract(text) == Some(Braces(Text(inside)))
  {
    if Extract(text).Some? {
      ExtractIsBraced(text);
      var inside :| ValidItems(inside) && Extract(text) == Some(Braces(Text(inside)));
      assert BracedAt(text, inside);
    }
    forall inside | BracedAt(text, inside)
      ensures Extract(text) == Some(Braces(Text(inside)))
    {
      var start, whole := Find(text, '{'), Braces(Text(inside));
      TextIsSteady(inside);
      assert text == text[..start] + whole + text[start..][|whole|..];
      ExtractFinds(text[..start], Text(inside), text[start..][|whole|..]);
    }
  }

  // ---- JSON, as sections 2 to 7 of RFC 8259 print it. ----

  datatype Json =
    | Literal(text: string)               // null, true, false or a number
    | JString(pieces: seq<Piece>)
    | Array(padding: string, elements: Elements)
    | Object(padding: string, members: Members)

  datatype Elements = NoElement | Element(before: string, value: Json, after: string, rest: Elements)

  datatype Members = NoMember | Member(
    before: string, name: seq<Piece>, beforeColon: string, afterColon: string, value: Json, after: string,
    rest: Members)

  /** Insignificant whitespace. */
  predicate Ws(text: string) {
    forall k :: 0 <= k < |text| ==> text[k] == ' ' || text[k] == '\t' || text[k] == '\n' || text[k] == '\r'
  }

  predicate LiteralText(text: string) {
    || text == "null" || text == "true" || text == "false"
    || forall k :: 0 <= k < |text| ==> '0' <= text[k] <= '9' || text[k] in "+-.eE"
  }

  predicate ValidJson(v: Json) {
    match v
    case Literal(text) => LiteralText(text)
    case JString(pieces) => ValidPieces(pieces)
    case Array(padding, elements) => Ws(padding) && ValidElements(elements)
    case Object(padding, members) => Ws(padding) && ValidMembers(members)
  }

  predicate ValidElements(es: Elements) {
    es.Element? ==> Ws(es.before) && ValidJson(es.value) && Ws(es.after) && ValidElements(es.rest)
  }

  predicate ValidMembers(ms: Members) {
    ms.Member? ==>
      && Ws(ms.before) && ValidPieces(ms.name) && Ws(ms.beforeColon) && Ws(ms.afterColon)
      && ValidJson(ms.value) && Ws(ms.after) && ValidMembers(ms.rest)
  }

  function JsonText(v: Json): string {
    match v
    case Literal(text) => text
    case JString(pieces) => Quoted(pieces)
    case Array(padding, elements) => "[" + padding + ElementsText(elements) + "]"
    case Object(padding, members) => Braces(padding + MembersText(members))
  }

  function ElementsText(es: Elements): string {
    if es.NoElement? then ""
    else es.before + JsonText(es.value) + es.after
         + (if es.rest.NoElement? then "" else ",") + ElementsText(es.rest)
  }

  function MembersText(ms: Members): string {
    if ms.NoMember? then ""
    else ms.before + Quoted(ms.name) + ms.beforeColon + ":" + ms.afterColon + JsonText(ms.value) + ms.after
         + (if ms.rest.NoMember? then "" else ",") + MembersText(ms.rest)
  }

  lemma {:induction false} JsonIsSteady(v: Json)
    requires ValidJson(v)
    ensures Steady(JsonText(v))
    decreases v
  {
    match v
    case Literal(text) => UnmarkedIsSteady(text);
    case JString(pieces) => QuotedIsSteady(pieces);
    case Array(padding, elements) =>
      ElementsAreSteady(elements);
      UnmarkedIsSteady("[" + padding);
      UnmarkedIsSteady("]");
      SteadyPlus("[" + padding, ElementsText(elements));
      SteadyPlus("[" + padding + ElementsText(elements), "]");
    case Object(padding, members) =>
      MembersAreSteady(members);
      UnmarkedIsSteady(padding);
      SteadyPlus(padding, MembersText(members));
      BracesAreSteady(padding + MembersText(members));
  }

  lemma {:induction false} ElementsAreSteady(es: Elements)
    requires ValidElements(es)
    ensures Steady(ElementsText(es))
    decreases es
  {
    if es.NoElement? {
      UnmarkedIsSteady("");
    } else {
      var comma := if es.rest.NoElement? then "" else ",";
      JsonIsSteady(es.value);
      ElementsAreSteady(es.rest);
      UnmarkedIsSteady(es.before);
      UnmarkedIsSteady(es.after);
      UnmarkedIsSteady(comma);
      SteadyPlus(es.before, JsonText(es.value));
      SteadyPlus(es.before + JsonText(es.value), es.after);
      SteadyPlus(es.before + JsonText(es.value) + es.after, comma);
      SteadyPlus(es.before + JsonText(es.value) + es.after + comma, ElementsText(es.rest));
    }
  }

  lemma {:induction false} MembersAreSteady(ms: Members)
    requires ValidMembers(ms)
    ensures Steady(MembersText(ms))
    decreases ms
  {
    if ms.NoMember? {
      UnmarkedIsSteady("");
    } else {
      var comma := if ms.rest.NoMember? then "" else ",";
      JsonIsSteady(ms.value);
      MembersAreSteady(ms.rest);
      QuotedIsSteady(ms.name);
      UnmarkedIsSteady(ms.before);
      UnmarkedIsSteady(ms.beforeColon);
      UnmarkedIsSteady(":");
      UnmarkedIsSteady(ms.afterColon);
      UnmarkedIsSteady(ms.after);
      UnmarkedIsSteady(comma);
      var t := ms.before;
      SteadyPlus(t, Quoted(ms.name));
      t := t + Quoted(ms.name);
      SteadyPlus(t, ms.beforeColon);
      t := t + ms.beforeColon;
      SteadyPlus(t, ":");
      t := t + ":";
      SteadyPlus(t, ms.afterColon);
      t := t + ms.afterColon;
      SteadyPlus(t, JsonText(ms.value));
      t := t + JsonText(ms.value);
      SteadyPlus(t, ms.after);
      t := t + ms.after;
      SteadyPlus(t, comma);
      t := t + comma;
      SteadyPlus(t, MembersText(ms.rest));
    }
  }

  /** Extraction inverts printing: fences and prose before a printed object,
      as long as they hold no opening brace, and anything after it fall away. */
  lemma ExtractInvertsPrinting(before: string, root: Json, after: string)
    requires '{' !in before && root.Object? && ValidJson(root)
    ensures Extract(before + JsonText(root) + after) == Some(JsonText(root))
  {
    UnmarkedIsSteady(root.padding);
    MembersAreSteady(root.members);
    SteadyPlus(root.padding, MembersText(root.members));
    ExtractFinds(before, root.padding + MembersText(root.members), after);
  }
}
