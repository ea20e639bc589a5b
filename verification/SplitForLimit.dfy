/** Splitting a reply over a platform's text limit, at paragraph breaks, line
    breaks or blanks where there are any. Texts are sequences of UTF-16 code units. */
module SplitForLimit {
  import opened Whitespace

  type CodeUnit = n: nat | n < 0x1_0000

  type Text = seq<CodeUnit>

  const NEWLINE: CodeUnit := 10
  const BLANK: CodeUnit := 32

  predicate AllSpace(s: Text) {
    forall i :: 0 <= i < |s| ==> IsSpace(s[i])
  }

  /** Where the white space before a position starts. */
  function Trail(s: Text, i: nat): (j: nat)
    requires i <= |s|
    ensures j <= i
    ensures j == 0 || !IsSpace(s[j - 1])
    ensures forall k :: j <= k < i ==> IsSpace(s[k])
  {
    if i == 0 || !IsSpace(s[i - 1]) then i else Trail(s, i - 1)
  }

  /** Where the white space from a position on ends. */
  function Lead(s: Text, i: nat): (j: nat)
    requires i <= |s|
    ensures i <= j <= |s|
    ensures j == |s| || !IsSpace(s[j])
    ensures forall k :: i <= k < j ==> IsSpace(s[k])
    decreases |s| - i
  {
    if i == |s| || !IsSpace(s[i]) then i else Lead(s, i + 1)
  }

  function TrimEnd(s: Text): Text {
    s[..Trail(s, |s|)]
  }

  function TrimStart(s: Text): Text {
    s[Lead(s, 0)..]
  }

  lemma TrailOfPrefix(s: Text, cut: nat, i: nat)
    requires i <= cut <= |s|
    ensures Trail(s[..cut], i) == Trail(s, i)
  {
  }

  lemma LeadOfSuffix(s: Text, cut: nat, i: nat)
    requires cut + i <= |s|
    ensures cut + Lead(s[cut..], i) == Lead(s, cut + i)
    decreases |s| - i
  {
  }

  // ---------- Where to cut ----------

  predicate OccursAt(text: Text, sep: Text, i: nat) {
    i + |sep| <= |text| && text[i..i + |sep|] == sep
  }

  /** The greatest position up to `from` where the separator occurs, or -1. */
  function LastIndexOf(text: Text, sep: Text, from: nat): (r: int)
    ensures -1 <= r <= from
  {
    if OccursAt(text, sep, from) then from
    else if from == 0 then -1
    else LastIndexOf(text, sep, from - 1)
  }

  lemma {:induction false} LastIndexIsLast(text: Text, sep: Text, from: nat)
    ensures var r := LastIndexOf(text, sep, from);
      (r >= 0 ==> OccursAt(text, sep, r)) && forall i: nat :: r < i <= from ==> !OccursAt(text, sep, i)
  {
    if !OccursAt(text, sep, from) && from > 0 {
      LastIndexIsLast(text, sep, from - 1);
    }
  }

  function CutPoint(text: Text, limit: nat): (cut: nat)
    requires |text| > limit
    ensures cut <= limit && (limit > 0 ==> cut > 0)
  {
    var paragraph := LastIndexOf(text, [NEWLINE, NEWLINE], limit);
    var line := LastIndexOf(text, [NEWLINE], limit);
    var blank := LastIndexOf(text, [BLANK], limit);
    if paragraph > 0 then paragraph
    else if line > 0 then line
    else if blank > 0 then blank
    else limit
  }

  predicate BreaksAt(text: Text, sep: Text, limit: nat, cut: nat) {
    0 < cut <= limit && OccursAt(text, sep, cut)
  }

  predicate LastBreak(text: Text, sep: Text, limit: nat, cut: nat) {
    BreaksAt(text, sep, limit, cut) && forall i :: cut < i <= limit ==> !OccursAt(text, sep, i)
  }

  predicate NoBreak(text: Text, sep: Text, limit: nat) {
    forall i :: 0 < i <= limit ==> !OccursAt(text, sep, i)
  }

  /** The cut is the last paragraph break within the limit, failing that the last
      line break, failing that the last blank; only a text with none of them is cut
      at the limit itself. A break at the very start does not count. */
  lemma CutPrefersBreaks(text: Text, limit: nat)
    requires |text| > limit
    ensures var cut := CutPoint(text, limit);
      || LastBreak(text, [NEWLINE, NEWLINE], limit, cut)
      || (NoBreak(text, [NEWLINE, NEWLINE], limit) && LastBreak(text, [NEWLINE], limit, cut))
      || (NoBreak(text, [NEWLINE], limit) && LastBreak(text, [BLANK], limit, cut))
      || (NoBreak(text, [NEWLINE], limit) && NoBreak(text, [BLANK], limit) && cut == limit)
  {
    LastIndexIsLast(text, [NEWLINE, NEWLINE], limit);
    LastIndexIsLast(text, [NEWLINE], limit);
    LastIndexIsLast(text, [BLANK], limit);
    forall i | 0 < i <= limit ensures OccursAt(text, [NEWLINE, NEWLINE], i) ==> OccursAt(text, [NEWLINE], i) {
      DoubleHasSingle(text, i);
    }
  }

  lemma DoubleHasSingle(text: Text, i: nat)
    ensures OccursAt(text, [NEWLINE, NEWLINE], i) ==> OccursAt(text, [NEWLINE], i)
  {
    if OccursAt(text, [NEWLINE, NEWLINE], i) {
      assert text[i] == text[i..i + 2][0];
    }
  }

  /** The same in numbers: 10 is a line feed, 32 a blank. */
  lemma CutInNumbers(text: Text, limit: nat)
    requires |text| > limit
    ensures var cut := CutPoint(text, limit);
      && cut <= limit
      && ((exists i :: 0 < i <= limit && PairAt(text, i)) ==> PairAt(text, cut) && forall i :: cut < i <= limit ==> !PairAt(text, i))
      && ((forall i :: 0 < i <= limit ==> !PairAt(text, i)) ==>
            || (0 < cut && text[cut] == 10 && forall i :: cut < i <= limit ==> text[i] != 10)
            || (0 < cut && text[cut] == 32 && forall i :: cut < i <= limit ==> text[i] != 32)
            || (cut == limit && forall i :: 0 < i <= limit ==> text[i] != 10 && text[i] != 32))
      && (text[cut] != 10 ==> forall i :: 0 < i <= limit ==> text[i] != 10)
  {
    CutPrefersBreaks(text, limit);
    forall i | 0 <= i <= limit
      ensures OccursAt(text, [NEWLINE, NEWLINE], i) <==> PairAt(text, i)
      ensures OccursAt(text, [NEWLINE], i) <==> text[i] == 10
      ensures OccursAt(text, [BLANK], i) <==> text[i] == 32
    {
      SingleOccurs(text, NEWLINE, i);
      SingleOccurs(text, BLANK, i);
      PairOccurs(text, i);
    }
  }

  /** Two line feeds, the first at position i. */
  predicate PairAt(text: Text, i: int) {
    0 <= i && i + 1 < |text| && text[i] == 10 && text[i + 1] == 10
  }

  lemma SingleOccurs(text: Text, unit: CodeUnit, i: nat)
    requires i < |text|
    ensures OccursAt(text, [unit], i) <==> text[i] == unit
  {
    assert text[i..i + 1] == [text[i]];
  }

  lemma PairOccurs(text: Text, i: nat)
    ensures OccursAt(text, [NEWLINE, NEWLINE], i) <==> PairAt(text, i)
  {
    if i + 2 <= |text| {
      assert text[i..i + 2] == [text[i], text[i + 1]];
    }
  }

  // ---------- One turn of the loop ----------

  function Head(text: Text, cut: nat): Text
    requires cut <= |text|
  {
    text[..Trail(text, cut)]
  }

  function Rest(text: Text, cut: nat): Text
    requires cut <= |text|
  {
    text[Lead(text, cut)..]
  }

  /** The white space dropped between the two. */
  function Gap(text: Text, cut: nat): Text
    requires cut <= |text|
  {
    text[Trail(text, cut)..Lead(text, cut)]
  }

  lemma TurnTrims(text: Text, cut: nat)
    requires cut <= |text|
    ensures TrimEnd(text[..cut]) == Head(text, cut)
    ensures TrimStart(text[cut..]) == Rest(text, cut)
  {
    TrailOfPrefix(text, cut, cut);
    LeadOfSuffix(text, cut, 0);
  }

  lemma TurnSplits(text: Text, cut: nat)
    requires cut <= |text|
    ensures text == Head(text, cut) + Gap(text, cut) + Rest(text, cut)
    ensures AllSpace(Gap(text, cut))
  {
  }

  /** The loop makes progress on every text exactly when the limit is positive: with
      a limit of zero, a text that starts with a visible unit stays as it is. */
  lemma ProgressIff(text: Text, limit: nat)
    requires |text| > limit
    ensures var rest := Rest(text, CutPoint(text, limit));
      && (|rest| < |text| <==> limit > 0 || IsSpace(text[0]))
      && (limit == 0 && !IsSpace(text[0]) ==> rest == text && Head(text, CutPoint(text, limit)) == [])
  {
    var cut := CutPoint(text, limit);
    if limit == 0 {
      assert text[cut..] == text;
    }
  }

  /** What remains after at most n turns of the loop. */
  function AfterTurns(text: Text, limit: nat, n: nat): Text {
    if n == 0 || |text| <= limit then text else AfterTurns(Rest(text, CutPoint(text, limit)), limit, n - 1)
  }

  /** The loop ends on the text. */
  ghost predicate Ends(text: Text, limit: nat) {
    exists n: nat :: |AfterTurns(text, limit, n)| <= limit
  }

  lemma OneTurn(text: Text, limit: nat, rest: Text, n: nat)
    requires |text| > limit && rest == Rest(text, CutPoint(text, limit))
    ensures AfterTurns(text, limit, n + 1) == AfterTurns(rest, limit, n)
  {
  }

  lemma TurnShortens(text: Text, limit: nat, rest: Text)
    requires |text| > limit > 0 && rest == Rest(text, CutPoint(text, limit))
    ensures |rest| < |text|
  {
  }

  lemma EndsNow(text: Text, limit: nat)
    requires |text| <= limit
    ensures Ends(text, limit)
  {
    assert |AfterTurns(text, limit, 0)| <= limit;
  }

  lemma EndsNext(text: Text, limit: nat, rest: Text)
    requires |text| > limit && rest == Rest(text, CutPoint(text, limit)) && Ends(rest, limit)
    ensures Ends(text, limit)
  {
    var n: nat :| |AfterTurns(rest, limit, n)| <= limit;
    OneTurn(text, limit, rest, n);
    assert |AfterTurns(text, limit, n + 1)| <= limit;
  }

  lemma {:induction false} PositiveLimitEnds(text: Text, limit: nat)
    requires limit > 0
    ensures Ends(text, limit)
    decreases |text|
  {
    if |text| <= limit {
      EndsNow(text, limit);
    } else {
      var rest := Rest(text, CutPoint(text, limit));
      TurnShortens(text, limit, rest);
      PositiveLimitEnds(rest, limit);
      EndsNext(text, limit, rest);
    }
  }

  lemma {:induction false} StuckAtZero(text: Text, n: nat)
    requires text != [] && !IsSpace(text[0])
    ensures AfterTurns(text, 0, n) == text
    decreases n
  {
    if n > 0 {
      ProgressIff(text, 0);
      OneTurn(text, 0, text, n - 1);
      StuckAtZero(text, n - 1);
    }
  }

  /** With a limit of zero the first turn only strips the leading white space. */
  lemma FirstTurnAtZero(text: Text)
    requires text != []
    ensures var rest := Rest(text, CutPoint(text, 0));
      (rest == [] <==> AllSpace(text)) && (rest != [] ==> !IsSpace(rest[0]))
  {
    assert CutPoint(text, 0) == 0;
    assert Lead(text, 0) < |text| ==> !IsSpace(text[Lead(text, 0)]);
  }

  /** The splitter ends on a text exactly when its limit is positive or the text is
      all white space. */
  lemma EndsIff(text: Text, limit: nat)
    ensures Ends(text, limit) <==> limit > 0 || AllSpace(text)
  {
    if limit > 0 {
      PositiveLimitEnds(text, limit);
    } else if text == [] {
      EndsNow(text, limit);
    } else {
      var rest := Rest(text, CutPoint(text, 0));
      FirstTurnAtZero(text);
      if rest == [] {
        EndsNow(rest, limit);
        EndsNext(text, limit, rest);
      } else {
        forall n: nat ensures AfterTurns(text, 0, n) != [] {
          if n > 0 {
            OneTurn(text, 0, rest, n - 1);
            StuckAtZero(rest, n - 1);
          }
        }
      }
    }
  }

  // ---------- The whole split ----------

  datatype Piece = Piece(chunk: Text, gap: Text)

  function Pieces(text: Text, limit: nat): seq<Piece>
    requires limit > 0
    decreases |text|
  {
    if |text| <= limit then
      if text == [] then [] else [Piece(text, [])]
    else
      var cut := CutPoint(text, limit);
      [Piece(Head(text, cut), Gap(text, cut))] + Pieces(Rest(text, cut), limit)
  }

  lemma PiecesUnfold(text: Text, limit: nat)
    requires |text| > limit > 0
    ensures var cut := CutPoint(text, limit);
      Chunks(Pieces(text, limit)) == [Head(text, cut)] + Chunks(Pieces(Rest(text, cut), limit))
  {
    assert Pieces(text, limit)[1..] == Pieces(Rest(text, CutPoint(text, limit)), limit);
  }

  function Chunks(pieces: seq<Piece>): (r: seq<Text>)
    ensures |r| == |pieces| && forall i :: 0 <= i < |r| ==> r[i] == pieces[i].chunk
  {
    if pieces == [] then [] else [pieces[0].chunk] + Chunks(pieces[1..])
  }

  /** Chunks and gaps laid end to end. */
  function Weave(pieces: seq<Piece>): Text {
    if pieces == [] then [] else pieces[0].chunk + pieces[0].gap + Weave(pieces[1..])
  }

  predicate IsSplit(pieces: seq<Piece>, text: Text, limit: nat) {
    && Weave(pieces) == text
    && (forall i :: 0 <= i < |pieces| ==> |pieces[i].chunk| <= limit && AllSpace(pieces[i].gap))
    && (forall i :: 0 < i < |pieces| ==> pieces[i].chunk != [])
  }

  lemma {:induction false} PiecesAreSplit(text: Text, limit: nat)
    requires limit > 0
    ensures IsSplit(Pieces(text, limit), text, limit)
    ensures text != [] && !IsSpace(text[0]) ==> Pieces(text, limit) != [] && Pieces(text, limit)[0].chunk != []
    decreases |text|
  {
    if |text| > limit {
      var cut := CutPoint(text, limit);
      var rest := Rest(text, cut);
      TurnSplits(text, cut);
      PiecesAreSplit(rest, limit);
      var pieces, tail := Pieces(text, limit), Pieces(rest, limit);
      assert pieces[1..] == tail;
      forall i | 0 < i < |pieces| ensures pieces[i] == tail[i - 1] && pieces[i].chunk != [] {
        assert rest != [];
      }
    } else if text != [] {
      var p := Piece(text, []);
      assert Pieces(text, limit) == [p] && [p][1..] == [];
      assert Weave([p]) == text + [] + Weave([p][1..]);
    }
  }

  /** The visible units of a text, in order. */
  function Visible(s: Text): Text {
    if s == [] then [] else (if IsSpace(s[0]) then [] else [s[0]]) + Visible(s[1..])
  }

  lemma {:induction false} VisibleConcat(a: Text, b: Text)
    ensures Visible(a + b) == Visible(a) + Visible(b)
  {
    if a == [] {
      assert a + b == b;
    } else {
      assert (a + b)[1..] == a[1..] + b;
      VisibleConcat(a[1..], b);
    }
  }

  lemma {:induction false} SpaceIsInvisible(s: Text)
    requires AllSpace(s)
    ensures Visible(s) == []
  {
    if s != [] {
      SpaceIsInvisible(s[1..]);
    }
  }

  function Flatten(chunks: seq<Text>): Text {
    if chunks == [] then [] else chunks[0] + Flatten(chunks[1..])
  }

  lemma {:induction false} GapsAreInvisible(pieces: seq<Piece>)
    requires forall i :: 0 <= i < |pieces| ==> AllSpace(pieces[i].gap)
    ensures Visible(Flatten(Chunks(pieces))) == Visible(Weave(pieces))
  {
    if pieces != [] {
      var p, tail := pieces[0], pieces[1..];
      GapsAreInvisible(tail);
      FlattenFirst(pieces);
      VisibleConcat(p.chunk, Flatten(Chunks(tail)));
      VisibleParts(p.chunk, p.gap, Weave(tail));
    }
  }

  lemma FlattenFirst(pieces: seq<Piece>)
    requires pieces != []
    ensures Flatten(Chunks(pieces)) == pieces[0].chunk + Flatten(Chunks(pieces[1..]))
  {
    assert Chunks(pieces)[1..] == Chunks(pieces[1..]);
  }

  lemma VisibleParts(chunk: Text, gap: Text, rest: Text)
    requires AllSpace(gap)
    ensures Visible(chunk + gap + rest) == Visible(chunk) + Visible(rest)
  {
    SpaceIsInvisible(gap);
    VisibleConcat(chunk + gap, rest);
    VisibleConcat(chunk, gap);
    assert Visible(chunk) + [] == Visible(chunk);
  }

  lemma LastChunk(remaining: Text, limit: nat)
    requires |remaining| <= limit && limit > 0
    ensures Chunks(Pieces(remaining, limit)) == if remaining == [] then [] else [remaining]
  {
    if remaining != [] {
      assert Pieces(remaining, limit) == [Piece(remaining, [])];
      assert [Piece(remaining, [])][1..] == [];
    }
  }

  lemma LoopCut(text: Text, limit: nat, cut: nat)
    requires |text| > limit > 0 && cut == CutPoint(text, limit)
    ensures [TrimEnd(text[..cut])] + Chunks(Pieces(TrimStart(text[cut..]), limit)) == Chunks(Pieces(text, limit))
    ensures |TrimStart(text[cut..])| < |text|
  {
    PiecesUnfold(text, limit);
    TurnTrims(text, cut);
  }

  /** The first chunk, by positions: it ends at a, where the white space before the cut
      starts, and the split goes on from b, where the white space after the cut ends. */
  lemma FirstChunkIs(text: Text, limit: nat, cut: nat) returns (a: nat, b: nat)
    requires |text| > limit > 0 && cut == CutPoint(text, limit)
    ensures a <= cut <= b <= |text| && a <= limit
    ensures forall k :: a <= k < b ==> IsSpace(text[k])
    ensures a > 0 ==> !IsSpace(text[a - 1])
    ensures b < |text| ==> !IsSpace(text[b])
    ensures Chunks(Pieces(text, limit)) == [text[..a]] + Chunks(Pieces(text[b..], limit))
  {
    a, b := Trail(text, cut), Lead(text, cut);
    PiecesUnfold(text, limit);
  }

  /** No chunk but the last ends with white space, and none but the first starts with it. */
  predicate Trimmed(chunks: seq<Text>) {
    && (forall i :: 0 <= i < |chunks| - 1 && chunks[i] != [] ==> !IsSpace(chunks[i][|chunks[i]| - 1]))
    && (forall i :: 0 < i < |chunks| && chunks[i] != [] ==> !IsSpace(chunks[i][0]))
  }

  lemma {:induction false} ChunksAreTrimmed(text: Text, limit: nat)
    requires limit > 0
    ensures Trimmed(Chunks(Pieces(text, limit)))
    ensures text != [] && !IsSpace(text[0]) ==> StartsVisible(Chunks(Pieces(text, limit)))
    decreases |text|
  {
    if |text| > limit {
      var a, b := FirstChunkIs(text, limit, CutPoint(text, limit));
      TurnShortensFrom(text, limit, a, b);
      var next := text[b..];
      ChunksAreTrimmed(next, limit);
      EmptyHasNoChunks(limit);
      TrimmedStep(text, a, Chunks(Pieces(next, limit)));
    } else {
      LastChunk(text, limit);
    }
  }

  lemma EmptyHasNoChunks(limit: nat)
    requires limit > 0
    ensures Chunks(Pieces([], limit)) == []
  {
  }

  predicate StartsVisible(chunks: seq<Text>) {
    chunks != [] && chunks[0] != [] ==> !IsSpace(chunks[0][0])
  }

  lemma TurnShortensFrom(text: Text, limit: nat, a: nat, b: nat)
    requires |text| > limit > 0 && a <= CutPoint(text, limit) <= b <= |text|
    ensures |text[b..]| < |text|
  {
  }

  lemma TrimmedStep(text: Text, a: nat, rest: seq<Text>)
    requires a <= |text| && (a > 0 ==> !IsSpace(text[a - 1]))
    requires Trimmed(rest) && StartsVisible(rest)
    ensures Trimmed([text[..a]] + rest)
    ensures text != [] && !IsSpace(text[0]) ==> StartsVisible([text[..a]] + rest)
  {
  }

  /** What a split promises: nothing over the limit, only the first chunk empty, and
      every visible unit kept once and in order. */
  predicate KeepsText(chunks: seq<Text>, text: Text, limit: nat) {
    && (forall i :: 0 <= i < |chunks| ==> |chunks[i]| <= limit)
    && (forall i :: 0 < i < |chunks| ==> chunks[i] != [])
    && Trimmed(chunks)
    && Visible(Flatten(chunks)) == Visible(text)
  }

  lemma PiecesKeepText(text: Text, limit: nat)
    requires limit > 0
    ensures KeepsText(Chunks(Pieces(text, limit)), text, limit)
  {
    PiecesAreSplit(text, limit);
    ChunksAreTrimmed(text, limit);
    GapsAreInvisible(Pieces(text, limit));
  }

  lemma WholeKeepsText(text: Text, limit: nat)
    requires |text| <= limit
    ensures KeepsText([text], text, limit)
  {
    assert [text][1..] == [];
    assert Flatten([text]) == text + Flatten([text][1..]);
    assert Flatten([text]) == text;
  }

  lemma ConcatStep(done: seq<Text>, chunk: Text, rest: seq<Text>)
    ensures done + ([chunk] + rest) == (done + [chunk]) + rest
  {
  }

  method Split(text: Text, limit: nat) returns (chunks: seq<Text>)
    requires limit > 0
    ensures KeepsText(chunks, text, limit)
    ensures |text| <= limit ==> chunks == [text]
    ensures |text| > limit ==> chunks == Chunks(Pieces(text, limit))
  {
    if |text| <= limit {
      WholeKeepsText(text, limit);
      return [text];
    }
    chunks := [];
    var remaining := text;
    ghost var all := Chunks(Pieces(text, limit));
    while |remaining| > limit
      invariant chunks + Chunks(Pieces(remaining, limit)) == all
      decreases |remaining|
    {
      var cut := LastIndexOf(remaining, [NEWLINE, NEWLINE], limit);
      if cut <= 0 { cut := LastIndexOf(remaining, [NEWLINE], limit); }
      if cut <= 0 { cut := LastIndexOf(remaining, [BLANK], limit); }
      if cut <= 0 { cut := limit; }
      LoopCut(remaining, limit, cut);
      var chunk, next := TrimEnd(remaining[..cut]), TrimStart(remaining[cut..]);
      ConcatStep(chunks, chunk, Chunks(Pieces(next, limit)));
      chunks, remaining := chunks + [chunk], next;
    }
    LastChunk(remaining, limit);
    assert chunks + [] == chunks;
    if |remaining| > 0 {
      chunks := chunks + [remaining];
    }
    assert chunks == all;
    PiecesKeepText(text, limit);
  }

  // ---------- Words ----------

  /** A line break or a blank stands among the `limit` units after position i. */
  predicate BreakAfter(text: Text, i: nat, limit: nat)
    requires i + limit < |text|
  {
    exists j :: i < j <= i + limit && (text[j] == NEWLINE || text[j] == BLANK)
  }

  /** No word is longer than the limit allows. */
  predicate WordsFit(text: Text, limit: nat) {
    forall i: nat :: i < |text| - limit ==> BreakAfter(text, i, limit)
  }

  lemma CutsAtSpace(text: Text, limit: nat)
    requires |text| > limit > 0 && WordsFit(text, limit)
    ensures IsSpace(text[CutPoint(text, limit)])
  {
    CutPrefersBreaks(text, limit);
    assert BreakAfter(text, 0, limit);
    var j :| 0 < j <= limit && (text[j] == NEWLINE || text[j] == BLANK);
    assert text[j..j + 1] == [text[j]];
    assert OccursAt(text, [NEWLINE], j) || OccursAt(text, [BLANK], j);
    var cut := CutPoint(text, limit);
    if OccursAt(text, [NEWLINE, NEWLINE], cut) {
      assert text[cut] == text[cut..cut + 2][0];
    } else {
      assert text[cut] == text[cut..cut + 1][0];
    }
  }

  lemma RestKeepsFit(text: Text, cut: nat, limit: nat)
    requires cut <= |text| && WordsFit(text, limit)
    ensures WordsFit(Rest(text, cut), limit)
  {
    var rest := Rest(text, cut);
    var skipped := |text| - |rest|;
    assert rest == text[skipped..];
    forall i: nat | i < |rest| - limit ensures BreakAfter(rest, i, limit) {
      assert BreakAfter(text, i + skipped, limit);
      var j :| i + skipped < j <= i + skipped + limit && (text[j] == NEWLINE || text[j] == BLANK);
      assert rest[j - skipped] == text[j];
    }
  }

  predicate GapsBetween(pieces: seq<Piece>) {
    forall i :: 0 <= i < |pieces| - 1 ==> pieces[i].gap != []
  }

  lemma GapsAfter(p: Piece, tail: seq<Piece>)
    requires p.gap != [] && GapsBetween(tail)
    ensures GapsBetween([p] + tail)
  {
  }

  /** When words fit, no word is cut: there is white space between any two chunks. */
  lemma {:induction false} FittingWordsStayWhole(text: Text, limit: nat)
    requires limit > 0 && WordsFit(text, limit)
    ensures GapsBetween(Pieces(text, limit))
    decreases |text|
  {
    if |text| > limit {
      var cut := CutPoint(text, limit);
      CutsAtSpace(text, limit);
      TurnSplits(text, cut);
      RestKeepsFit(text, cut, limit);
      FittingWordsStayWhole(Rest(text, cut), limit);
      var tail := Pieces(Rest(text, cut), limit);
      assert Pieces(text, limit) == [Piece(Head(text, cut), Gap(text, cut))] + tail;
      GapsAfter(Piece(Head(text, cut), Gap(text, cut)), tail);
    }
  }
}
