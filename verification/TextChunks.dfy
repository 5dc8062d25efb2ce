/** Cutting an ingested document into prompt-sized pieces. */
module TextChunks {
  import opened Basics
  import opened Utf8

  const CHUNK_BYTES := 12 * 1024

  const BREAK: Text := [10, 10]

  // ---- Paragraphs. ----

  predicate BreakAt(t: Text, k: nat) {
    k + 2 <= |t| && t[k] == 10 && t[k + 1] == 10
  }

  /** Where the first blank line begins, or the length. */
  function FirstBreak(t: Text): (at: nat)
    ensures at <= |t| && (at < |t| ==> BreakAt(t, at))
    ensures forall k: nat :: k < at ==> !BreakAt(t, k)
  {
    FirstBreakFrom(t, 0)
  }

  function FirstBreakFrom(t: Text, from: nat): (at: nat)
    requires from <= |t|
    ensures from <= at <= |t| && (at < |t| ==> BreakAt(t, at))
    ensures forall k: nat :: from <= k < at ==> !BreakAt(t, k)
    decreases |t| - from
  {
    if from == |t| || BreakAt(t, from) then from else FirstBreakFrom(t, from + 1)
  }

  /** `split("\n\n")`. */
  function Split(t: Text): (r: seq<Text>)
    ensures r != []
    decreases |t|
  {
    var at := FirstBreak(t);
    if at == |t| then [t] else [t[..at]] + Split(t[at + 2..])
  }

  function Join(parts: seq<Text>): Text {
    if parts == [] then []
    else if |parts| == 1 then parts[0]
    else Join(parts[..|parts| - 1]) + BREAK + parts[|parts| - 1]
  }

  lemma {:induction false} JoinPlus(a: seq<Text>, b: seq<Text>)
    requires a != [] && b != []
    ensures Join(a + b) == Join(a) + BREAK + Join(b)
    decreases |b|
  {
    var n := |b| - 1;
    assert (a + b)[..|a + b| - 1] == a + b[..n];
    if n == 0 {
      assert a + b[..n] == a;
    } else {
      JoinPlus(a, b[..n]);
      assert Join(a) + BREAK + Join(b[..n]) + BREAK + b[n] == Join(a) + BREAK + (Join(b[..n]) + BREAK + b[n]);
    }
  }

  lemma SplitAround(t: Text, at: nat)
    requires BreakAt(t, at)
    ensures t == t[..at] + BREAK + t[at + 2..]
  {
  }

  lemma {:induction false} JoinSplit(t: Text)
    ensures Join(Split(t)) == t
    decreases |t|
  {
    var at := FirstBreak(t);
    if at < |t| {
      var first, rest := t[..at], t[at + 2..];
      JoinSplit(rest);
      JoinPlus([first], Split(rest));
      SplitAround(t, at);
    }
  }

  /** No two newlines stand together in it. */
  predicate Unbroken(t: Text) {
    forall k :: 0 <= k < |t| - 1 ==> !(t[k] == 10 && t[k + 1] == 10)
  }

  /** The document cut at every blank line from the left: no part holds one, and none
      before a cut ends in a newline, which would have made the cut come earlier. */
  predicate CutLeftmost(parts: seq<Text>) {
    && (forall i :: 0 <= i < |parts| ==> Unbroken(parts[i]))
    && forall i :: 0 <= i < |parts| - 1 && parts[i] != [] ==> parts[i][|parts[i]| - 1] != 10
  }

  lemma {:induction false} SplitIs(t: Text)
    ensures Join(Split(t)) == t && CutLeftmost(Split(t))
    decreases |t|
  {
    JoinSplit(t);
    var at := FirstBreak(t);
    FrontUnbroken(t, at);
    if at < |t| {
      SplitIs(t[at + 2..]);
      assert at > 0 ==> !BreakAt(t, at - 1);
      OneCutMore(t[..at], Split(t[at + 2..]));
    } else {
      assert t[..|t|] == t;
    }
  }

  lemma OneCutMore(first: Text, parts: seq<Text>)
    requires CutLeftmost(parts) && Unbroken(first) && (first != [] ==> first[|first| - 1] != 10)
    ensures CutLeftmost([first] + parts)
  {
  }

  lemma FrontUnbroken(t: Text, at: nat)
    requires at <= |t| && forall k: nat :: k < at ==> !BreakAt(t, k)
    ensures Unbroken(t[..at])
  {
    forall k | 0 <= k < at - 1
      ensures !(t[k] == 10 && t[k + 1] == 10)
    {
      assert !BreakAt(t, k);
    }
  }

  // ---- Ink: the characters that are not white space. ----

  /** Unicode's White_Space property, which `trim` goes by. */
  predicate IsWhite(c: Scalar) {
    || 9 <= c <= 13 || c == 0x20 || c == 0x85 || c == 0xA0 || c == 0x1680
    || 0x2000 <= c <= 0x200A || c == 0x2028 || c == 0x2029 || c == 0x202F || c == 0x205F || c == 0x3000
  }

  /** The 25 characters of that property, one by one. */
  lemma WhiteIs(c: Scalar)
    ensures IsWhite(c) <==>
            c in {9, 10, 11, 12, 13, 32, 133, 160, 5760, 8192, 8193, 8194, 8195, 8196, 8197, 8198, 8199, 8200,
                  8201, 8202, 8232, 8233, 8239, 8287, 12288}
  {
  }

  function Ink(t: Text): Text {
    if t == [] then []
    else Ink(t[..|t| - 1]) + (if IsWhite(t[|t| - 1]) then [] else [t[|t| - 1]])
  }

  function InkAll(parts: seq<Text>): Text {
    if parts == [] then [] else InkAll(parts[..|parts| - 1]) + Ink(parts[|parts| - 1])
  }

  /** `trim().is_empty()`. */
  predicate Blank(t: Text) {
    forall k :: 0 <= k < |t| ==> IsWhite(t[k])
  }

  lemma {:induction false} BlankIff(t: Text)
    ensures Blank(t) <==> Ink(t) == []
  {
    if t != [] {
      BlankIff(t[..|t| - 1]);
    }
  }

  lemma {:induction false} InkPlus(a: Text, b: Text)
    ensures Ink(a + b) == Ink(a) + Ink(b)
  {
    if b == [] {
      assert a + b == a;
    } else {
      assert (a + b)[..|a + b| - 1] == a + b[..|b| - 1];
      InkPlus(a, b[..|b| - 1]);
    }
  }

  lemma InkAroundBreak(a: Text, b: Text)
    ensures Ink(a + BREAK + b) == Ink(a) + Ink(b)
  {
    InkPlus(a + BREAK, b);
    InkPlus(a, BREAK);
    BlankIff(BREAK);
  }

  lemma {:induction false} InkAllPlus(a: seq<Text>, b: seq<Text>)
    ensures InkAll(a + b) == InkAll(a) + InkAll(b)
    decreases |b|
  {
    if b == [] {
      assert a + b == a && InkAll(a) + [] == InkAll(a);
    } else {
      assert (a + b)[..|a + b| - 1] == a + b[..|b| - 1];
      InkAllPlus(a, b[..|b| - 1]);
      Associate(InkAll(a), InkAll(b[..|b| - 1]), Ink(b[|b| - 1]));
    }
  }

  lemma InkAllPush(a: seq<Text>, t: Text)
    ensures InkAll(a + [t]) == InkAll(a) + Ink(t)
  {
    assert (a + [t])[..|a|] == a;
  }

  lemma {:induction false} InkOfJoin(parts: seq<Text>)
    ensures Ink(Join(parts)) == InkAll(parts)
  {
    if |parts| == 1 {
      assert parts[..0] == [];
    } else if parts != [] {
      InkOfJoin(parts[..|parts| - 1]);
      InkAroundBreak(Join(parts[..|parts| - 1]), parts[|parts| - 1]);
    }
  }

  // ---- The chunks, as a function. ----

  /** How many characters of a long paragraph make a piece. */
  function Cut(p: Text): (j: nat)
    requires Len(p) > CHUNK_BYTES
    ensures 0 < j <= |p| && CHUNK_BYTES < Len(p[..j]) + 4 && Len(p[..j]) <= CHUNK_BYTES
  {
    FittingIsLongest(p, CHUNK_BYTES);
    assert p[..0] == [];
    Fitting(p, CHUNK_BYTES)
  }

  function Pieces(p: Text): seq<Text>
    decreases |p|
  {
    if Len(p) <= CHUNK_BYTES then [] else [p[..Cut(p)]] + Pieces(p[Cut(p)..])
  }

  /** What is left of a paragraph when its pieces are cut off. */
  function Rest(p: Text): (r: Text)
    ensures Len(r) <= CHUNK_BYTES
    decreases |p|
  {
    if Len(p) <= CHUNK_BYTES then p else Rest(p[Cut(p)..])
  }

  datatype Packed = Packed(chunks: seq<Text>, current: Text)

  function Closed(s: Packed): Packed {
    if s.current == [] then s else Packed(s.chunks + [s.current], [])
  }

  /** Closes the open chunk if the paragraph does not fit it. */
  function Roomy(s: Packed, p: Text): Packed {
    if s.current != [] && Len(s.current) + 2 + Len(p) > CHUNK_BYTES then Closed(s) else s
  }

  function Appended(s: Packed, p: Text): Packed {
    Packed(s.chunks, if s.current == [] then p else s.current + BREAK + p)
  }

  function AddParagraph(s: Packed, p: Text): Packed {
    var s' := if Len(p) <= CHUNK_BYTES then s else Packed(Closed(s).chunks + Pieces(p), []);
    Appended(Roomy(s', Rest(p)), Rest(p))
  }

  function Pack(paragraphs: seq<Text>): Packed {
    if paragraphs == [] then Packed([], [])
    else AddParagraph(Pack(paragraphs[..|paragraphs| - 1]), paragraphs[|paragraphs| - 1])
  }

  function ChunkText(t: Text): seq<Text> {
    var s := Pack(Split(t));
    if Blank(s.current) then s.chunks else s.chunks + [s.current]
  }

  lemma PackNext(paragraphs: seq<Text>, i: nat)
    requires i < |paragraphs|
    ensures Pack(paragraphs[..i + 1]) == AddParagraph(Pack(paragraphs[..i]), paragraphs[i])
  {
    assert paragraphs[..i + 1][..i] == paragraphs[..i];
  }

  // ---- The program. ----

  method ChunkDocument(t: Text) returns (chunks: seq<Text>)
    ensures chunks == ChunkText(t)
  {
    chunks := [];
    var current: Text := [];
    var paragraphs := Split(t);
    for i := 0 to |paragraphs|
      invariant Packed(chunks, current) == Pack(paragraphs[..i])
    {
      PackNext(paragraphs, i);
      chunks, current := AddOne(chunks, current, paragraphs[i]);
    }
    assert paragraphs[..|paragraphs|] == paragraphs;
    if !Blank(current) {
      chunks := chunks + [current];
    }
  }

  /** One turn of the loop over paragraphs. */
  method AddOne(chunks: seq<Text>, current: Text, paragraph: Text) returns (chunks': seq<Text>, current': Text)
    ensures Packed(chunks', current') == AddParagraph(Packed(chunks, current), paragraph)
  {
    var left;
    chunks', current', left := CutLong(chunks, current, paragraph);
    if current' != [] && Len(current') + 2 + Len(left) > CHUNK_BYTES {
      chunks', current' := chunks' + [current'], [];
    }
    if current' != [] {
      current' := current' + BREAK;
    }
    current' := current' + left;
    assert [] + left == left;
  }

  /** Cuts pieces off the front until the paragraph fits. */
  method CutLong(chunks: seq<Text>, current: Text, paragraph: Text)
    returns (chunks': seq<Text>, current': Text, paragraph': Text)
    ensures paragraph' == Rest(paragraph)
    ensures Packed(chunks', current') ==
            if Len(paragraph) <= CHUNK_BYTES then Packed(chunks, current)
            else Packed(Closed(Packed(chunks, current)).chunks + Pieces(paragraph), [])
  {
    chunks', current', paragraph' := chunks, current, paragraph;
    ghost var closed := Closed(Packed(chunks, current)).chunks;
    while Len(paragraph') > CHUNK_BYTES
      invariant |paragraph'| <= |paragraph| && Rest(paragraph') == Rest(paragraph)
      invariant |paragraph'| == |paragraph| ==>
                  chunks' == chunks && current' == current && paragraph' == paragraph
      invariant |paragraph'| < |paragraph| ==>
                  && Len(paragraph) > CHUNK_BYTES && current' == []
                  && chunks' + Pieces(paragraph') == closed + Pieces(paragraph)
      decreases |paragraph'|
    {
      if current' != [] {
        chunks', current' := chunks' + [current'], [];
      }
      var cut := FindBoundary(paragraph');
      var piece, left := paragraph'[..cut], paragraph'[cut..];
      assert chunks' + Pieces(paragraph') == chunks' + [piece] + Pieces(left);
      chunks', paragraph' := chunks' + [piece], left;
    }
    assert closed + [] == closed && chunks' + [] == chunks';
  }

  /** Steps back from the limit to a byte where a character begins. */
  method FindBoundary(p: Text) returns (j: nat)
    requires Len(p) > CHUNK_BYTES
    ensures j == Cut(p)
  {
    var cut := CHUNK_BYTES;
    var bytes := Bytes(p);
    ghost var end := Len(p[..Fitting(p, CHUNK_BYTES)]);
    FittingIsFloor(p, CHUNK_BYTES, 0);
    FittingIsLongest(p, CHUNK_BYTES);
    BoundaryIff(p, end);
    while !IsBoundary(bytes, cut)
      invariant end <= cut <= CHUNK_BYTES
      decreases cut
    {
      cut := cut - 1;
    }
    BoundaryIff(p, cut);
    FittingIsFloor(p, CHUNK_BYTES, cut);
    j := Fitting(p, CHUNK_BYTES);
    assert Len(p[..j]) == cut;
  }

  // ---- What the chunks keep. ----

  predicate Fits(t: Text) {
    0 < |t| && Len(t) <= 12 * 1024
  }

  predicate AllFit(parts: seq<Text>) {
    forall k :: 0 <= k < |parts| ==> Fits(parts[k])
  }

  lemma {:induction false} PiecesFit(p: Text)
    ensures AllFit(Pieces(p))
    decreases |p|
  {
    if Len(p) > CHUNK_BYTES {
      PiecesFit(p[Cut(p)..]);
    }
  }

  lemma {:induction false} PackFits(paragraphs: seq<Text>)
    ensures AllFit(Pack(paragraphs).chunks) && Len(Pack(paragraphs).current) <= CHUNK_BYTES
  {
    if paragraphs != [] {
      var n := |paragraphs| - 1;
      var s, p := Pack(paragraphs[..n]), paragraphs[n];
      PackFits(paragraphs[..n]);
      PiecesFit(p);
      var s' := if Len(p) <= CHUNK_BYTES then s else Packed(Closed(s).chunks + Pieces(p), []);
      var roomy := Roomy(s', Rest(p));
      LenPlus(roomy.current + BREAK, Rest(p));
      LenPlus(roomy.current, BREAK);
      assert Len(BREAK) == 2 by {
        assert BREAK[..1] == [10] && [10][..0] == [];
        assert Len([10]) == 1;
      }
    }
  }

  /** Every chunk holds something and fits. */
  lemma ChunksFit(t: Text)
    ensures AllFit(ChunkText(t))
  {
    PackFits(Split(t));
  }

  /** No two neighbours, with a blank line between them, take less than a chunk. */
  predicate Tight(parts: seq<Text>) {
    forall k :: 0 <= k < |parts| - 1 ==> Len(parts[k]) + 2 + Len(parts[k + 1]) >= 12 * 1024
  }

  predicate NearlyFull(parts: seq<Text>) {
    parts != [] ==> Len(parts[|parts| - 1]) + 3 >= CHUNK_BYTES
  }

  predicate TightSoFar(s: Packed) {
    && Tight(Closed(s).chunks)
    && (s.current == [] ==> NearlyFull(s.chunks))
  }

  lemma TightPush(parts: seq<Text>, p: Text)
    requires Tight(parts)
    requires parts != [] ==> Len(parts[|parts| - 1]) + 2 + Len(p) >= CHUNK_BYTES
    ensures Tight(parts + [p])
  {
  }

  lemma {:induction false} TightPieces(parts: seq<Text>, p: Text)
    requires AllFit(parts) && Tight(parts) && Len(p) > CHUNK_BYTES
    ensures Tight(parts + Pieces(p)) && NearlyFull(parts + Pieces(p))
    decreases |p|
  {
    var piece, left := p[..Cut(p)], p[Cut(p)..];
    AddPiece(parts, piece);
    Associate(parts, [piece], Pieces(left));
    if Len(left) > CHUNK_BYTES {
      TightPieces(parts + [piece], left);
    } else {
      assert parts + [piece] + [] == parts + [piece];
    }
  }

  lemma AddPiece(parts: seq<Text>, piece: Text)
    requires AllFit(parts) && Tight(parts) && Fits(piece) && Len(piece) + 4 > CHUNK_BYTES
    ensures AllFit(parts + [piece]) && Tight(parts + [piece]) && NearlyFull(parts + [piece])
  {
    if parts != [] {
      HoldsBytes(parts[|parts| - 1]);
    }
    TightPush(parts, piece);
  }

  lemma HoldsBytes(t: Text)
    requires t != []
    ensures Len(t) > 0
  {
  }

  lemma TightGrows(parts: seq<Text>, a: Text, b: Text)
    requires Tight(parts + [a]) && Len(a) <= Len(b)
    ensures Tight(parts + [b])
  {
    forall k | 0 <= k < |parts + [b]| - 1
      ensures Len((parts + [b])[k]) + 2 + Len((parts + [b])[k + 1]) >= CHUNK_BYTES
    {
      assert (parts + [b])[k] == (parts + [a])[k];
      assert Len((parts + [a])[k]) + 2 + Len((parts + [a])[k + 1]) >= CHUNK_BYTES;
    }
  }

  lemma TightAppended(s: Packed, p: Text)
    requires TightSoFar(s) && Len(p) <= CHUNK_BYTES
    ensures TightSoFar(Appended(Roomy(s, p), p))
  {
    LenOfJoined(s.current, p);
    if s.current != [] && Len(s.current) + 2 + Len(p) > CHUNK_BYTES {
      TightPush(s.chunks + [s.current], p);
    } else if s.current == [] {
      if p != [] {
        HoldsBytes(p);
        TightPush(s.chunks, p);
      }
    } else {
      TightGrows(s.chunks, s.current, s.current + BREAK + p);
    }
  }

  lemma {:induction false} PackIsTight(paragraphs: seq<Text>)
    ensures TightSoFar(Pack(paragraphs))
  {
    if paragraphs != [] {
      var n := |paragraphs| - 1;
      var s, p := Pack(paragraphs[..n]), paragraphs[n];
      PackIsTight(paragraphs[..n]);
      PackFits(paragraphs[..n]);
      if Len(p) <= CHUNK_BYTES {
        TightAppended(s, p);
      } else {
        TightPieces(Closed(s).chunks, p);
        TightAppended(Packed(Closed(s).chunks + Pieces(p), []), Rest(p));
      }
    }
  }

  /** No chunk could have been left out: neighbours together fill one. */
  lemma ChunksAreTight(t: Text)
    ensures Tight(ChunkText(t))
  {
    PackIsTight(Split(t));
    var s := Pack(Split(t));
    assert s.current != [] ==> Closed(s).chunks == s.chunks + [s.current];
    assert forall k :: 0 <= k < |s.chunks| ==> s.chunks[k] == Closed(s).chunks[k];
  }

  function InkOf(s: Packed): Text {
    InkAll(s.chunks) + Ink(s.current)
  }

  lemma ClosedKeepsInk(s: Packed)
    ensures InkOf(Closed(s)) == InkOf(s)
  {
    InkAllPush(s.chunks, s.current);
  }

  lemma AppendedAddsInk(s: Packed, p: Text)
    ensures InkOf(Appended(s, p)) == InkOf(s) + Ink(p)
  {
    Associate(InkAll(s.chunks), Ink(s.current), Ink(p));
    InkAroundBreak(s.current, p);
    assert [] + Ink(p) == Ink(p);
  }

  lemma InkOfCut(piece: Text, parts: seq<Text>)
    ensures InkAll([piece] + parts) == Ink(piece) + InkAll(parts)
  {
    InkAllPlus([piece], parts);
    InkAllPush([], piece);
    assert [] + [piece] == [piece];
  }

  lemma {:induction false} PiecesKeepInk(p: Text)
    ensures InkAll(Pieces(p)) + Ink(Rest(p)) == Ink(p)
    decreases |p|
  {
    if Len(p) > CHUNK_BYTES {
      var piece, left := p[..Cut(p)], p[Cut(p)..];
      assert p == piece + left;
      InkPlus(piece, left);
      PiecesKeepInk(left);
      InkOfCut(piece, Pieces(left));
      Associate(Ink(piece), InkAll(Pieces(left)), Ink(Rest(left)));
    }
  }

  lemma {:induction false} PackKeepsInk(paragraphs: seq<Text>)
    ensures InkOf(Pack(paragraphs)) == InkAll(paragraphs)
  {
    if paragraphs != [] {
      var n := |paragraphs| - 1;
      var s, p := Pack(paragraphs[..n]), paragraphs[n];
      PackKeepsInk(paragraphs[..n]);
      AddParagraphAddsInk(s, p);
    }
  }

  lemma AddParagraphAddsInk(s: Packed, p: Text)
    ensures InkOf(AddParagraph(s, p)) == InkOf(s) + Ink(p)
  {
    if Len(p) <= CHUNK_BYTES {
      ClosedKeepsInk(s);
      AppendedAddsInk(Roomy(s, p), p);
    } else {
      var s' := Packed(Closed(s).chunks + Pieces(p), []);
      LongKeepsInk(s, p, s');
      AppendedAddsInk(s', Rest(p));
    }
  }

  lemma LongKeepsInk(s: Packed, p: Text, s': Packed)
    requires s' == Packed(Closed(s).chunks + Pieces(p), [])
    ensures InkOf(s') + Ink(Rest(p)) == InkOf(s) + Ink(p)
  {
    var closed := InkAll(Closed(s).chunks);
    ClosedKeepsInk(s);
    assert InkOf(Closed(s)) == closed + [] == closed;
    InkAllPlus(Closed(s).chunks, Pieces(p));
    assert InkOf(s') == InkAll(s'.chunks) + [] == InkAll(s'.chunks);
    PiecesKeepInk(p);
    Associate(closed, InkAll(Pieces(p)), Ink(Rest(p)));
  }

  /** The chunks hold the document's ink, all of it and in its order. */
  lemma ChunksKeepInk(t: Text)
    ensures InkAll(ChunkText(t)) == Ink(t)
  {
    var s := Pack(Split(t));
    JoinSplit(t);
    InkOfJoin(Split(t));
    PackKeepsInk(Split(t));
    BlankIff(s.current);
    InkAllPush(s.chunks, s.current);
  }

  // ---- When the bytes come back too. ----

  /** The pieces of a paragraph, the rest included. */
  function Cuttings(p: Text): seq<Text> {
    Pieces(p) + [Rest(p)]
  }

  /** For each chunk of `Closed(Pack(paragraphs))`: does it begin inside a
      paragraph, after a cut?  The rest of a long paragraph always does. */
  function Marks(paragraphs: seq<Text>): seq<bool> {
    if paragraphs == [] then []
    else
      var front, p := paragraphs[..|paragraphs| - 1], paragraphs[|paragraphs| - 1];
      Marks(front) + MarksOf(Pack(front), p)
  }

  /** The marks of the chunks one more paragraph begins. */
  function MarksOf(s: Packed, p: Text): seq<bool> {
    if Len(p) > CHUNK_BYTES then [false] + Continued(|Cuttings(p)| - 1)
    else if Roomy(s, p).current == [] && p != [] then [false]
    else []
  }

  function Continued(n: nat): (r: seq<bool>)
    ensures |r| == n
  {
    if n == 0 then [] else [true] + Continued(n - 1)
  }

  /** Puts the chunks together again, a blank line before each that does not
      begin inside a paragraph. */
  function Glue(parts: seq<Text>, marks: seq<bool>): Text
    requires |parts| <= |marks|
  {
    if parts == [] then []
    else
      var n := |parts| - 1;
      if n == 0 then parts[0] else Glue(parts[..n], marks) + (if marks[n] then [] else BREAK) + parts[n]
  }

  lemma {:induction false} GlueLooksBelow(parts: seq<Text>, marks: seq<bool>, more: seq<bool>)
    requires |parts| <= |marks|
    ensures Glue(parts, marks + more) == Glue(parts, marks)
  {
    if parts != [] {
      GlueLooksBelow(parts[..|parts| - 1], marks, more);
    }
  }

  /** What stands before a chunk. */
  function Gap(marks: seq<bool>, n: nat): Text
    requires n < |marks|
  {
    if n == 0 || marks[n] then [] else BREAK
  }

  lemma GlueLast(parts: seq<Text>, marks: seq<bool>, p: Text)
    requires |parts| < |marks|
    ensures Glue(parts + [p], marks) == Glue(parts, marks) + Gap(marks, |parts|) + p
  {
    assert (parts + [p])[..|parts|] == parts;
    assert parts == [] ==> [] + p == p;
  }

  lemma GluePush(parts: seq<Text>, marks: seq<bool>, p: Text, mark: bool)
    requires |parts| == |marks| && parts != []
    ensures Glue(parts + [p], marks + [mark]) == Glue(parts, marks) + (if mark then [] else BREAK) + p
  {
    GlueLast(parts, marks + [mark], p);
    GlueLooksBelow(parts, marks, [mark]);
  }

  lemma GlueMerge(parts: seq<Text>, marks: seq<bool>, a: Text, b: Text)
    requires |marks| == |parts| + 1
    ensures Glue(parts + [a + BREAK + b], marks) == Glue(parts + [a], marks) + BREAK + b
  {
    var head := Glue(parts, marks) + Gap(marks, |parts|);
    GlueLast(parts, marks, a);
    GlueLast(parts, marks, a + BREAK + b);
    Associate(head, a, BREAK);
    Associate(head, a + BREAK, b);
  }

  lemma CuttingsStep(p: Text)
    requires Len(p) > CHUNK_BYTES
    ensures Cuttings(p) == [p[..Cut(p)]] + Cuttings(p[Cut(p)..])
    ensures p == p[..Cut(p)] + p[Cut(p)..]
  {
    var piece, left := p[..Cut(p)], p[Cut(p)..];
    assert Pieces(p) == [piece] + Pieces(left) && Rest(p) == Rest(left);
    Associate([piece], Pieces(left), [Rest(left)]);
  }

  lemma OneMore<T>(parts: seq<T>, a: T, b: seq<T>)
    ensures parts + [a] + b == parts + ([a] + b)
  {
  }

  /** What was cut comes together again. */
  lemma {:induction false} GlueCut(parts: seq<Text>, marks: seq<bool>, p: Text)
    requires |parts| == |marks| && parts != []
    ensures Glue(parts + Cuttings(p), marks + Continued(|Cuttings(p)|)) == Glue(parts, marks) + p
    decreases |p|
  {
    if Len(p) <= CHUNK_BYTES {
      GluePush(parts, marks, p, true);
      assert Cuttings(p) == [p] && Continued(1) == [true];
      assert Glue(parts, marks) + [] == Glue(parts, marks);
    } else {
      var piece, left := p[..Cut(p)], p[Cut(p)..];
      CuttingsStep(p);
      GluePush(parts, marks, piece, true);
      GlueCut(parts + [piece], marks + [true], left);
      OneMore(parts, piece, Cuttings(left));
      OneMore(marks, true, Continued(|Cuttings(left)|));
      assert Glue(parts, marks) + [] == Glue(parts, marks);
      Associate(Glue(parts, marks), piece, left);
    }
  }

  lemma {:induction false} LongLeavesRest(p: Text)
    requires p != []
    ensures Rest(p) != []
    decreases |p|
  {
    if Len(p) > CHUNK_BYTES {
      var left := p[Cut(p)..];
      assert p[..|p|] == p && left != [];
      LongLeavesRest(left);
    }
  }

  /** The paragraph leaves no trace: it is empty, and no chunk is open for it. */
  predicate Drops(paragraphs: seq<Text>, k: nat)
    requires k < |paragraphs|
  {
    paragraphs[k] == [] && Roomy(Pack(paragraphs[..k]), []).current == []
  }

  predicate SomeDropped(paragraphs: seq<Text>) {
    exists k :: 0 <= k < |paragraphs| && Drops(paragraphs, k)
  }

  /** One more paragraph is dropped, or glued on after a blank line. */
  lemma AddedGlues(s: Packed, marks: seq<bool>, p: Text)
    requires |marks| == |Closed(s).chunks|
    ensures var parts, parts', marks' := Closed(s).chunks, Closed(AddParagraph(s, p)).chunks, marks + MarksOf(s, p);
            && |marks'| == |parts'|
            && if p == [] && Roomy(s, []).current == [] then parts' == parts && marks' == marks
               else
                 && parts' != [] && AddParagraph(s, p).current != []
                 && Glue(parts', marks') == if parts == [] then p else Glue(parts, marks) + BREAK + p
  {
    if Len(p) > CHUNK_BYTES {
      LongGlues(s, marks, p);
    } else {
      ShortGlues(s, marks, p);
    }
  }

  lemma LongGlues(s: Packed, marks: seq<bool>, p: Text)
    requires |marks| == |Closed(s).chunks| && Len(p) > CHUNK_BYTES
    ensures var parts, parts', marks' := Closed(s).chunks, Closed(AddParagraph(s, p)).chunks, marks + MarksOf(s, p);
            && |marks'| == |parts'| && AddParagraph(s, p).current != []
            && Glue(parts', marks') == if parts == [] then p else Glue(parts, marks) + BREAK + p
  {
    var parts := Closed(s).chunks;
    var piece, left := p[..Cut(p)], p[Cut(p)..];
    LongLeavesRest(p);
    CuttingsStep(p);
    Associate(parts, Pieces(p), [Rest(p)]);
    OneMore(parts, piece, Cuttings(left));
    OneMore(marks, false, Continued(|Cuttings(left)|));
    GlueCut(parts + [piece], marks + [false], left);
    if parts != [] {
      GluePush(parts, marks, piece, false);
      Associate(Glue(parts, marks) + BREAK, piece, left);
    } else {
      assert parts + [piece] == [piece];
    }
  }

  lemma ShortGlues(s: Packed, marks: seq<bool>, p: Text)
    requires |marks| == |Closed(s).chunks| && Len(p) <= CHUNK_BYTES
    ensures var parts, parts', marks' := Closed(s).chunks, Closed(AddParagraph(s, p)).chunks, marks + MarksOf(s, p);
            && |marks'| == |parts'|
            && if p == [] && Roomy(s, []).current == [] then parts' == parts && marks' == marks
               else
                 && parts' != [] && AddParagraph(s, p).current != []
                 && Glue(parts', marks') == if parts == [] then p else Glue(parts, marks) + BREAK + p
  {
    var r := Roomy(s, p);
    assert marks + [] == marks;
    if r.current != [] {
      GlueMerge(s.chunks, marks, s.current, p);
    } else if p != [] {
      if r.chunks == [] {
        assert r.chunks + [p] == [p];
      } else {
        GluePush(r.chunks, marks, p, false);
      }
    }
  }

  lemma DroppedInFront(paragraphs: seq<Text>, n: nat)
    requires |paragraphs| == n + 1
    ensures SomeDropped(paragraphs) <==> SomeDropped(paragraphs[..n]) || Drops(paragraphs, n)
  {
    forall k: nat | k < n
      ensures Drops(paragraphs[..n], k) <==> Drops(paragraphs, k)
    {
      assert paragraphs[..n][..k] == paragraphs[..k];
    }
    if SomeDropped(paragraphs[..n]) {
      var k :| 0 <= k < n && Drops(paragraphs[..n], k);
      assert Drops(paragraphs, k);
    }
  }

  /** Nothing is lost until a paragraph drops, and then never made up for. */
  lemma {:induction false} PackGlues(paragraphs: seq<Text>)
    requires paragraphs != []
    ensures var parts, marks := Closed(Pack(paragraphs)).chunks, Marks(paragraphs);
            && |parts| == |marks|
            && if !SomeDropped(paragraphs) then
                 Pack(paragraphs).current != [] && Glue(parts, marks) == Join(paragraphs)
               else if |paragraphs| == 1 then parts == [] && paragraphs[0] == []
               else |Glue(parts, marks)| < |Join(paragraphs)|
  {
    var n := |paragraphs| - 1;
    var s, p := Pack(paragraphs[..n]), paragraphs[n];
    DroppedInFront(paragraphs, n);
    if n > 0 {
      PackGlues(paragraphs[..n]);
    }
    AddedGlues(s, Marks(paragraphs[..n]), p);
  }

  /** The chunk left open at the end is not blank. */
  predicate EndsInInk(t: Text) {
    !Blank(Pack(Split(t)).current)
  }

  /** Every document, long paragraphs and all: its chunks put together again -
      with nothing between the pieces of one paragraph, a blank line between any
      others - are the document, byte for byte, exactly when it is empty, or no
      empty paragraph meets a chunk just closed or not begun, and its last chunk
      holds ink. */
  lemma ComesBackIff(t: Text)
    ensures |ChunkText(t)| <= |Marks(Split(t))|
    ensures Glue(ChunkText(t), Marks(Split(t))) == t <==> t == [] || (!SomeDropped(Split(t)) && EndsInInk(t))
  {
    var s, marks := Pack(Split(t)), Marks(Split(t));
    JoinSplit(t);
    PackGlues(Split(t));
    if s.current != [] && Blank(s.current) {
      BlankTailIsLost(s.chunks, marks, s.current);
    }
  }

  lemma BlankTailIsLost(parts: seq<Text>, marks: seq<bool>, tail: Text)
    requires tail != [] && |marks| == |parts| + 1
    ensures |Glue(parts, marks)| < |Glue(parts + [tail], marks)|
  {
    assert (parts + [tail])[..|parts|] == parts;
  }

  predicate ParagraphsFit(paragraphs: seq<Text>) {
    forall k :: 0 <= k < |paragraphs| ==> Len(paragraphs[k]) <= CHUNK_BYTES
  }

  predicate NoneContinues(marks: seq<bool>) {
    forall k :: 0 <= k < |marks| ==> !marks[k]
  }

  lemma {:induction false} FittingNeverCut(paragraphs: seq<Text>)
    requires ParagraphsFit(paragraphs)
    ensures NoneContinues(Marks(paragraphs))
  {
    if paragraphs != [] {
      FittingNeverCut(paragraphs[..|paragraphs| - 1]);
    }
  }

  lemma {:induction false} GlueIsJoin(parts: seq<Text>, marks: seq<bool>)
    requires |parts| <= |marks| && NoneContinues(marks)
    ensures Glue(parts, marks) == Join(parts)
  {
    if parts != [] {
      GlueIsJoin(parts[..|parts| - 1], marks);
    }
  }

  /** So where every paragraph fits, blank lines between all the chunks do. */
  lemma JoinsBackIff(t: Text)
    requires ParagraphsFit(Split(t))
    ensures Join(ChunkText(t)) == t <==> t == [] || (!SomeDropped(Split(t)) && EndsInInk(t))
  {
    ComesBackIff(t);
    FittingNeverCut(Split(t));
    GlueIsJoin(ChunkText(t), Marks(Split(t)));
  }

  /** When every paragraph fits and is not empty, and the last is not blank,
      the chunks joined by blank lines are the document. */
  lemma JoinGivesBack(t: Text)
    requires AllFit(Split(t)) && !Blank(Split(t)[|Split(t)| - 1])
    ensures Join(ChunkText(t)) == t
  {
    LastParagraphStays(Split(t));
    JoinsBackIff(t);
  }

  /** The open chunk ends with the last paragraph. */
  lemma LastParagraphStays(paragraphs: seq<Text>)
    requires AllFit(paragraphs) && paragraphs != [] && !Blank(paragraphs[|paragraphs| - 1])
    ensures !Blank(Pack(paragraphs).current)
  {
    var n := |paragraphs| - 1;
    var s, p := Pack(paragraphs[..n]), paragraphs[n];
    InkAroundBreak(s.current, p);
    BlankIff(p);
    BlankIff(s.current + BREAK + p);
  }

  lemma LenOfJoined(a: Text, p: Text)
    ensures Len(a + BREAK + p) == Len(a) + 2 + Len(p)
  {
    LenPlus(a + BREAK, p);
    LenPlus(a, BREAK);
    assert BREAK[..1] == [10] && [10][..0] == [];
    assert Len([10]) == 1;
  }

  lemma JoinFront(paragraphs: seq<Text>)
    requires paragraphs != []
    ensures var front, p := paragraphs[..|paragraphs| - 1], paragraphs[|paragraphs| - 1];
            Len(Join(paragraphs)) == if front == [] then Len(p) else Len(Join(front)) + 2 + Len(p)
  {
    LenOfJoined(Join(paragraphs[..|paragraphs| - 1]), paragraphs[|paragraphs| - 1]);
  }

  /** While everything fits one chunk and that chunk has begun, it stays open. */
  lemma {:induction false} PackShort(paragraphs: seq<Text>)
    requires paragraphs != [] && paragraphs[0] != [] && Len(Join(paragraphs)) <= CHUNK_BYTES
    ensures Pack(paragraphs) == Packed([], Join(paragraphs)) && Join(paragraphs) != []
    ensures !SomeDropped(paragraphs)
  {
    var n := |paragraphs| - 1;
    JoinFront(paragraphs);
    DroppedInFront(paragraphs, n);
    if n > 0 {
      PackShort(paragraphs[..n]);
    }
  }

  /** A document that fits one chunk comes back byte for byte exactly when it is
      empty, or holds some ink and does not begin with a blank line. */
  lemma ShortComesBackIff(t: Text)
    requires Len(t) <= 12 * 1024
    ensures Join(ChunkText(t)) == t <==> t == [] || (!Blank(t) && Split(t)[0] != [])
  {
    JoinSplit(t);
    ShortParagraphsFit(Split(t));
    JoinsBackIff(t);
    if Split(t)[0] != [] {
      PackShort(Split(t));
    } else {
      assert Drops(Split(t), 0);
    }
  }

  lemma {:induction false} ShortParagraphsFit(paragraphs: seq<Text>)
    requires Len(Join(paragraphs)) <= CHUNK_BYTES
    ensures ParagraphsFit(paragraphs)
  {
    if paragraphs != [] {
      JoinFront(paragraphs);
      ShortParagraphsFit(paragraphs[..|paragraphs| - 1]);
    }
  }
}
