/** The buttons of a question card: options are encoded by index in the button id,
    and two click handlers decode it, one by splitting at colons and one by
    searching for the next colon. */
module ButtonCodec {
  import opened Wrappers

  // ---------- Options ----------

  /** `caption` is the option's label. */
  datatype RawOption = Bare(text: string) | Full(caption: string, selectedLabel: Option<string>, value: Option<string>)

  datatype NormalizedOption = NormalizedOption(caption: string, selectedLabel: string, value: string)

  function OrElse(o: Option<string>, fallback: string): string {
    if o.Some? then o.value else fallback
  }

  function NormalizeOption(raw: RawOption): NormalizedOption {
    match raw
    case Bare(text) => NormalizedOption(text, text, text)
    case Full(caption, selectedLabel, value) => NormalizedOption(caption, OrElse(selectedLabel, caption), OrElse(value, caption))
  }

  function NormalizeOptions(raws: seq<RawOption>): (options: seq<NormalizedOption>)
    ensures |options| == |raws| && forall i :: 0 <= i < |raws| ==> options[i] == NormalizeOption(raws[i])
  {
    if raws == [] then [] else [NormalizeOption(raws[0])] + NormalizeOptions(raws[1..])
  }

  /** A bare text is its own label, selected label and value; a full option keeps what
      it gives and falls back to its label. */
  lemma NormalizedFields(text: string, caption: string, selected: string, value: string)
    ensures NormalizeOption(Bare(text)) == NormalizedOption(text, text, text)
    ensures NormalizeOption(Full(caption, None, None)) == NormalizedOption(caption, caption, caption)
    ensures NormalizeOption(Full(caption, Some(selected), None)) == NormalizedOption(caption, selected, caption)
    ensures NormalizeOption(Full(caption, None, Some(value))) == NormalizedOption(caption, caption, value)
    ensures NormalizeOption(Full(caption, Some(selected), Some(value))) == NormalizedOption(caption, selected, value)
  {
  }

  // ---------- Decimal indices ----------

  function DigitChar(d: nat): (c: char)
    requires d < 10
    ensures IsDigit(c) && DigitValue(c) == d
  {
    ('0' as int + d) as char
  }

  predicate IsDigit(c: char) {
    '0' <= c <= '9'
  }

  function DigitValue(c: char): nat
    requires IsDigit(c)
  {
    c as int - '0' as int
  }

  function Decimal(n: nat): string {
    if n < 10 then [DigitChar(n)] else Decimal(n / 10) + [DigitChar(n % 10)]
  }

  predicate IsNumeral(s: string) {
    s != "" && forall i :: 0 <= i < |s| ==> IsDigit(s[i])
  }

  function ParseDecimal(s: string): nat
    requires forall i :: 0 <= i < |s| ==> IsDigit(s[i])
  {
    if s == "" then 0 else 10 * ParseDecimal(s[..|s| - 1]) + DigitValue(s[|s| - 1])
  }

  lemma {:induction false} DecimalRoundTrip(n: nat)
    ensures IsNumeral(Decimal(n)) && ParseDecimal(Decimal(n)) == n
  {
    if n >= 10 {
      DecimalRoundTrip(n / 10);
      var s := Decimal(n);
      assert s[..|s| - 1] == Decimal(n / 10);
    } else {
      var s := [DigitChar(n)];
      assert s[..|s| - 1] == "";
      assert ParseDecimal(s[..|s| - 1]) == 0;
    }
  }

  /** One more digit makes ten times the number and the digit; digits are the
      characters from '0' to '9'. */
  lemma DecimalPlaces(s: string, d: nat)
    requires IsNumeral(s) && d < 10
    ensures var c := "0123456789"[d];
      IsNumeral([c]) && ParseDecimal([c]) == d && IsNumeral(s + [c]) && ParseDecimal(s + [c]) == 10 * ParseDecimal(s) + d
  {
    var c := "0123456789"[d];
    assert [c][..0] == "" && ParseDecimal("") == 0;
    assert (s + [c])[..|s|] == s;
  }

  // ---------- Strings ----------

  /** The first position from `from` on that holds the character, or -1. */
  function IndexOf(s: string, c: char, from: nat): (r: int)
    requires from <= |s|
    ensures r == -1 || (from <= r < |s| && s[r] == c)
    decreases |s| - from
  {
    if from == |s| then -1 else if s[from] == c then from else IndexOf(s, c, from + 1)
  }

  lemma {:induction false} IndexOfIff(s: string, c: char, from: nat, r: int)
    requires from <= |s|
    ensures IndexOf(s, c, from) == r <==>
      (r == -1 && forall i :: from <= i < |s| ==> s[i] != c) ||
      (from <= r < |s| && s[r] == c && forall i :: from <= i < r ==> s[i] != c)
    decreases |s| - from
  {
    if from < |s| && s[from] != c {
      IndexOfIff(s, c, from + 1, r);
    }
  }

  function Split(s: string, sep: char): (parts: seq<string>)
    ensures |parts| >= 1
    decreases |s|
  {
    var i := IndexOf(s, sep, 0);
    if i == -1 then [s] else [s[..i]] + Split(s[i + 1..], sep)
  }

  function Join(parts: seq<string>, sep: char): string
    requires |parts| >= 1
  {
    if |parts| == 1 then parts[0] else parts[0] + [sep] + Join(parts[1..], sep)
  }

  lemma SplitOnce(s: string, sep: char, i: nat)
    requires IndexOf(s, sep, 0) == i
    ensures Split(s, sep) == [s[..i]] + Split(s[i + 1..], sep)
  {
  }

  lemma JoinCons(first: string, rest: seq<string>, sep: char)
    requires |rest| >= 1
    ensures Join([first] + rest, sep) == first + [sep] + Join(rest, sep)
  {
    assert ([first] + rest)[1..] == rest;
  }

  lemma CutAt(s: string, i: nat)
    requires i < |s|
    ensures s == s[..i] + [s[i]] + s[i + 1..]
  {
  }

  lemma {:induction false} JoinSplit(s: string, sep: char)
    ensures Join(Split(s, sep), sep) == s
    decreases |s|
  {
    var i := IndexOf(s, sep, 0);
    if i != -1 {
      var rest := s[i + 1..];
      JoinSplit(rest, sep);
      SplitOnce(s, sep, i);
      JoinCons(s[..i], Split(rest, sep), sep);
      CutAt(s, i);
    }
  }

  /** Splitting past a first part that does not contain the separator. */
  lemma SplitPrefix(p: string, rest: string, sep: char)
    requires sep !in p
    ensures Split(p + [sep] + rest, sep) == [p] + Split(rest, sep)
  {
    var s := p + [sep] + rest;
    PrefixFacts(p, rest, sep);
    IndexOfIff(s, sep, 0, |p|);
    SplitOnce(s, sep, |p|);
  }

  lemma PrefixFacts(p: string, rest: string, sep: char)
    requires sep !in p
    ensures var s := p + [sep] + rest;
      s[|p|] == sep && s[..|p|] == p && s[|p| + 1..] == rest && forall k :: 0 <= k < |p| ==> s[k] != sep
  {
    assert forall k :: 0 <= k < |p| ==> (p + [sep] + rest)[k] == p[k];
  }

  // ---------- The two decoders ----------

  const TAG := "ncq:"

  function ButtonId(questionId: string, tail: string): string {
    TAG + questionId + ":" + tail
  }

  /** The id of the thirteenth button of question q7. */
  lemma ButtonIdExample()
    ensures ButtonId("q7", Decimal(12)) == "ncq:q7:12"
  {
    assert Decimal(12) == Decimal(1) + [DigitChar(2)] == "12";
  }

  datatype Click = Click(questionId: string, tail: string)

  /** The chat handler: split at every colon, then join the tail again. */
  function DecodeBySplit(id: string): Option<Click> {
    if !(TAG <= id) then None
    else
      var parts := Split(id, ':');
      if |parts| < 3 then None else Some(Click(parts[1], Join(parts[2..], ':')))
  }

  /** The forwarded-interaction handler: search for the first colon after the tag. */
  function DecodeBySearch(id: string): Option<Click> {
    if !(TAG <= id) then None
    else
      var colon := IndexOf(id, ':', |TAG|);
      if colon == -1 then None else Some(Click(id[|TAG|..colon], id[colon + 1..]))
  }

  lemma SearchSound(id: string, q: string, tail: string)
    requires DecodeBySearch(id) == Some(Click(q, tail))
    ensures id == ButtonId(q, tail) && ':' !in q
  {
    var colon := IndexOf(id, ':', |TAG|);
    IndexOfIff(id, ':', |TAG|, colon);
    CutAt(id, colon);
    assert id[..colon] == TAG + q;
    assert forall i :: 0 <= i < |q| ==> q[i] == id[|TAG| + i];
  }

  lemma SearchComplete(q: string, tail: string)
    requires ':' !in q
    ensures DecodeBySearch(ButtonId(q, tail)) == Some(Click(q, tail))
  {
    EncodedParts(TAG, q, tail);
    IndexOfIff(ButtonId(q, tail), ':', |TAG|, |TAG| + |q|);
  }

  /** Searching inverts the encoding: a click is decoded exactly from the id that
      encodes it, and only for questions without a colon. */
  lemma SearchInverts(id: string, q: string, tail: string)
    ensures DecodeBySearch(id) == Some(Click(q, tail)) <==> id == ButtonId(q, tail) && ':' !in q
  {
    if DecodeBySearch(id) == Some(Click(q, tail)) {
      SearchSound(id, q, tail);
    }
    if ':' !in q {
      SearchComplete(q, tail);
    }
  }

  lemma EncodedParts(tag: string, q: string, tail: string)
    requires ':' !in q
    ensures var id, colon := tag + q + ":" + tail, |tag| + |q|;
      && id[..|tag|] == tag && id[|tag|..colon] == q && id[colon] == ':' && id[colon + 1..] == tail
      && forall i :: |tag| <= i < colon ==> id[i] != ':'
  {
    var id, colon := tag + q + ":" + tail, |tag| + |q|;
    assert forall i :: |tag| <= i < colon ==> id[i] == q[i - |tag|];
  }

  lemma TaggedSplit(id: string)
    requires TAG <= id
    ensures Split(id, ':') == ["ncq"] + Split(id[|TAG|..], ':')
  {
    var rest := id[|TAG|..];
    assert id == "ncq" + [':'] + rest;
    SplitPrefix("ncq", rest, ':');
  }

  lemma TaggedSearch(id: string)
    requires TAG <= id
    ensures var i, colon := IndexOf(id[|TAG|..], ':', 0), IndexOf(id, ':', |TAG|);
      colon == if i == -1 then -1 else |TAG| + i
  {
    var rest := id[|TAG|..];
    var i := IndexOf(rest, ':', 0);
    IndexOfIff(rest, ':', 0, i);
    assert forall k :: 0 <= k < |rest| ==> rest[k] == id[|TAG| + k];
    assert forall k :: |TAG| <= k < |id| ==> id[k] == rest[k - |TAG|];
    IndexOfIff(id, ':', |TAG|, if i == -1 then -1 else |TAG| + i);
  }

  /** The split of a tagged id, as the second handler sees it. */
  lemma SplitAtColon(id: string, colon: nat)
    requires TAG <= id && IndexOf(id, ':', |TAG|) == colon
    ensures Split(id, ':') == ["ncq", id[|TAG|..colon]] + Split(id[colon + 1..], ':')
  {
    var rest := id[|TAG|..];
    TaggedSplit(id);
    TaggedSearch(id);
    SplitOnce(rest, ':', colon - |TAG|);
    SliceOfRest(id, |TAG|, colon);
    Pair("ncq", id[|TAG|..colon], Split(id[colon + 1..], ':'));
  }

  lemma Pair(a: string, b: string, rest: seq<string>)
    ensures [a] + ([b] + rest) == [a, b] + rest
  {
  }

  lemma SliceOfRest(s: string, from: nat, i: nat)
    requires from <= i < |s|
    ensures s[from..][..i - from] == s[from..i]
    ensures s[from..][i - from + 1..] == s[i + 1..]
  {
  }

  /** The decoders agree on every id. */
  lemma DecodersAgree(id: string)
    ensures DecodeBySplit(id) == DecodeBySearch(id)
  {
    if TAG <= id {
      var colon := IndexOf(id, ':', |TAG|);
      if colon == -1 {
        TaggedSplit(id);
        TaggedSearch(id);
      } else {
        SplitAtColon(id, colon);
        var tail := Split(id[colon + 1..], ':');
        assert (["ncq", id[|TAG|..colon]] + tail)[2..] == tail;
        JoinSplit(id[colon + 1..], ':');
      }
    }
  }

  /** Encoding then decoding gives the question and the tail back, whatever the tail
      holds, exactly when the question id has no colon. */
  lemma DecodeEncodeIff(q: string, tail: string)
    ensures DecodeBySplit(ButtonId(q, tail)) == Some(Click(q, tail)) <==> ':' !in q
    ensures DecodeBySearch(ButtonId(q, tail)) == Some(Click(q, tail)) <==> ':' !in q
  {
    DecodersAgree(ButtonId(q, tail));
    SearchInverts(ButtonId(q, tail), q, tail);
  }

  // ---------- From a click to an answer ----------

  function ResolveSelectedOption(render: Option<seq<NormalizedOption>>, eventValue: Option<string>, tail: Option<string>): string {
    var candidate := if eventValue.Some? then eventValue.value else OrElse(tail, "");
    if render.Some? && IsNumeral(candidate) && ParseDecimal(candidate) < |render.value|
    then render.value[ParseDecimal(candidate)].value
    else candidate
  }

  type Renders = map<string, seq<NormalizedOption>>

  function RenderOf(renders: Renders, q: string): Option<seq<NormalizedOption>> {
    if q in renders then Some(renders[q]) else None
  }

  datatype Answer = Answer(questionId: string, option: string)

  /** What the chat handler passes on to the host. */
  function OnAction(renders: Renders, id: string, eventValue: Option<string>): Option<Answer> {
    match DecodeBySplit(id)
    case None => None
    case Some(click) =>
      Some(Answer(click.questionId, ResolveSelectedOption(RenderOf(renders, click.questionId), eventValue, Some(click.tail))))
  }

  /** What the forwarded-interaction handler passes on: nothing without a question
      and a selected option. */
  function OnInteraction(renders: Renders, id: string): Option<Answer> {
    match DecodeBySearch(id)
    case None => None
    case Some(click) =>
      var render := if click.questionId == "" then None else RenderOf(renders, click.questionId);
      var option := ResolveSelectedOption(render, Some(click.tail), Some(click.tail));
      if click.questionId != "" && option != "" then Some(Answer(click.questionId, option)) else None
  }

  /** A click on button i answers with the value of option i, in both handlers and
      whether or not the platform echoes the button value. Only an option whose
      value is empty is lost on its way through the second handler. */
  lemma ClickRoundTrip(renders: Renders, q: string, raws: seq<RawOption>, i: nat)
    requires q != "" && ':' !in q && i < |raws|
    requires q in renders && renders[q] == NormalizeOptions(raws)
    ensures var value := NormalizeOption(raws[i]).value;
      && OnAction(renders, ButtonId(q, Decimal(i)), Some(Decimal(i))) == Some(Answer(q, value))
      && OnAction(renders, ButtonId(q, Decimal(i)), None) == Some(Answer(q, value))
      && OnInteraction(renders, ButtonId(q, Decimal(i))) == if value == "" then None else Some(Answer(q, value))
  {
    DecodeEncodeIff(q, Decimal(i));
    DecimalRoundTrip(i);
  }

  /** A value that the platform echoes with the click goes before the tail of the id. */
  lemma EchoedValueWins(renders: Renders, q: string, tail: string, value: string)
    requires ':' !in q
    ensures OnAction(renders, ButtonId(q, tail), Some(value)) == OnAction(renders, ButtonId(q, value), None)
  {
    DecodeEncodeIff(q, tail);
    DecodeEncodeIff(q, value);
  }

  /** The tail names an option whose value is empty, or is itself empty. */
  predicate SelectsNothing(renders: Renders, click: Click) {
    if click.questionId in renders && IsNumeral(click.tail) && ParseDecimal(click.tail) < |renders[click.questionId]|
    then renders[click.questionId][ParseDecimal(click.tail)].value == ""
    else click.tail == ""
  }

  /** On the same id, the handlers pass on the same answer exactly when the id encodes
      no click, or one with a question id that selects something. */
  lemma HandlersAgreeIff(renders: Renders, id: string)
    ensures OnInteraction(renders, id) == OnAction(renders, id, None) <==>
      match DecodeBySearch(id)
      case None => true
      case Some(click) => click.questionId != "" && !SelectsNothing(renders, click)
  {
    DecodersAgree(id);
  }

  /** A card from before the index encoding carries the value itself. It still
      resolves, unless it reads as the index of an option with another value. */
  lemma OldCardsResolveIff(renders: Renders, q: string, value: string)
    requires ':' !in q
    ensures OnAction(renders, ButtonId(q, value), None) == Some(Answer(q, value)) <==>
      !(q in renders && IsNumeral(value) && ParseDecimal(value) < |renders[q]|) || renders[q][ParseDecimal(value)].value == value
  {
    DecodeEncodeIff(q, value);
  }

  /** With a colon in the question id, whatever either handler answers is for some
      other question. */
  lemma ColonMisroutes(renders: Renders, q: string, tail: string, eventValue: Option<string>, a: Answer)
    requires ':' in q
    requires OnAction(renders, ButtonId(q, tail), eventValue) == Some(a) || OnInteraction(renders, ButtonId(q, tail)) == Some(a)
    ensures a.questionId != q
  {
    var id := ButtonId(q, tail);
    DecodersAgree(id);
    var click := DecodeBySearch(id).value;
    SearchInverts(id, click.questionId, click.tail);
  }

  // ---------- The label shown after the click ----------

  function FirstWithValue(options: seq<NormalizedOption>, value: string): Option<NormalizedOption> {
    if options == [] then None
    else if options[0].value == value then Some(options[0])
    else FirstWithValue(options[1..], value)
  }

  function ShownLabel(options: seq<NormalizedOption>, selected: string): string {
    var matched := FirstWithValue(options, selected);
    if matched.Some? then matched.value.selectedLabel else selected
  }

  predicate DistinctValues(options: seq<NormalizedOption>) {
    forall i, j :: 0 <= i < j < |options| ==> options[i].value != options[j].value
  }

  /** The card shows the label of the option that was clicked when no two options
      have the same value. */
  lemma {:induction false} ShowsOwnLabel(options: seq<NormalizedOption>, i: nat)
    requires DistinctValues(options) && i < |options|
    ensures ShownLabel(options, options[i].value) == options[i].selectedLabel
  {
    if i > 0 {
      assert options[0].value != options[i].value;
      assert options[1..][i - 1] == options[i];
      ShowsOwnLabel(options[1..], i - 1);
      OwnLabelIsFound(options[1..], i - 1);
    }
  }

  lemma {:induction false} OwnLabelIsFound(options: seq<NormalizedOption>, i: nat)
    requires i < |options|
    ensures FirstWithValue(options, options[i].value).Some?
  {
    if i > 0 {
      OwnLabelIsFound(options[1..], i - 1);
    }
  }
}
