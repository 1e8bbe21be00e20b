/**
  Separating <think>...</think> from the answer while chunks arrive
  (ChatStreamParsing.swift). Only the tag that would end the current mode is looked
  for, and no partial tag is shown.
 */
module ThinkTags {
  import opened Options
  import opened StreamSplitter
  import opened StreamSegments

  datatype Fragment = Fragment(reasoning: string, answer: string)

  function TagFor(mode: Mode): string {
    if mode == Content then "<think>" else "</think>"
  }

  function Other(mode: Mode): Mode {
    if mode == Content then Reasoning else Content
  }

  function TagMachine(): (a: Machine)
    ensures Usable(a)
  {
    Machine(mode => [TagFor(mode)], m => Go(if m == TagFor(Content) then Reasoning else Content))
  }

  /** The characters of one mode, in order. */
  function Only(tagged: seq<(Mode, char)>, mode: Mode): string {
    if tagged == [] then ""
    else (if tagged[0].0 == mode then [tagged[0].1] else "") + Only(tagged[1..], mode)
  }

  function FragmentOf(runs: seq<(Mode, string)>): Fragment {
    Fragment(Only(Tagged(runs), Reasoning), Only(Tagged(runs), Content))
  }

  /** What a text parsed as a whole comes apart into. */
  function Complete(text: string): Fragment {
    FragmentOf(Scan(TagMachine(), Content, text, true).runs)
  }

  // ----- lemmas

  lemma {:induction false} OnlyConcat(x: seq<(Mode, char)>, y: seq<(Mode, char)>, mode: Mode)
    ensures Only(x + y, mode) == Only(x, mode) + Only(y, mode)
  {
    if x == [] {
      assert x + y == y;
      assert "" + Only(y, mode) == Only(y, mode);
    } else {
      OnlyConcat(x[1..], y, mode);
      assert (x + y)[1..] == x[1..] + y && (x + y)[0] == x[0];
      Associative(if x[0].0 == mode then [x[0].1] else "", Only(x[1..], mode), Only(y, mode));
    }
  }

  lemma {:induction false} OnlyOfRun(mode: Mode, text: string, other: Mode)
    ensures Only(Written(mode, text), other) == if mode == other then text else ""
  {
    if text != "" {
      assert Run(mode, text)[1..] == [];
      var w := Written(mode, text);
      assert w[0] == (mode, text[0]);
      WrittenTail(mode, text);
      OnlyOfRun(mode, text[1..], other);
      assert text == [text[0]] + text[1..];
    }
  }

  lemma WrittenTail(mode: Mode, text: string)
    requires text != ""
    ensures Written(mode, text) != [] && Written(mode, text)[1..] == Written(mode, text[1..])
  {
    assert Run(mode, text)[1..] == [];
    if |text| > 1 {
      assert Run(mode, text[1..])[1..] == [];
    }
  }

  /** Appending a run puts its text at the end of the field of its mode. */
  lemma FragmentAppend(runs: seq<(Mode, string)>, mode: Mode, text: string)
    ensures var f, g := FragmentOf(runs), FragmentOf(runs + Run(mode, text));
      && g.reasoning == f.reasoning + (if mode == Reasoning then text else "")
      && g.answer == f.answer + (if mode == Content then text else "")
  {
    hide Tagged, Run, Only;
    TaggedConcat(runs, Run(mode, text));
    OnlyConcat(Tagged(runs), Written(mode, text), Reasoning);
    OnlyConcat(Tagged(runs), Written(mode, text), Content);
    OnlyOfRun(mode, text, Reasoning);
    OnlyOfRun(mode, text, Content);
  }

  lemma FragmentConcat(x: seq<(Mode, string)>, y: seq<(Mode, string)>)
    ensures FragmentOf(x + y) ==
      Fragment(FragmentOf(x).reasoning + FragmentOf(y).reasoning, FragmentOf(x).answer + FragmentOf(y).answer)
  {
    hide Tagged, Only;
    TaggedConcat(x, y);
    OnlyConcat(Tagged(x), Tagged(y), Reasoning);
    OnlyConcat(Tagged(x), Tagged(y), Content);
  }

  lemma TagsAreHarmless()
    ensures Harmless(TagMachine())
  {
    var a := TagMachine();
    forall mode
      ensures NonEmpty(a.markers(mode)) && StopsFirst(a, a.markers(mode))
           && forall k | 0 <= k < |a.markers(mode)| :: HarmlessMarker(a, a.markers(mode), k)
    {
      var ms := a.markers(mode);
      var inner := TagFor(mode)[..|TagFor(mode)| - 1];
      forall i: nat, m | m in ms
        ensures !At(inner, m, i)
      {
      }
      assert NothingInside(ms, ms[0]);
    }
  }

  lemma NoTagLeft(mode: Mode, text: string, final: bool)
    requires FirstMatch(text, TagMachine().markers(mode)).None?
    ensures var scanned := Scan(TagMachine(), mode, text, final);
      !scanned.stopped && (final ==> scanned.pending == "")
  {
    hide FirstMatch, Keep, Run;
  }

  /** The tags never end a text. */
  lemma {:induction false} NeverStops(mode: Mode, text: string, final: bool)
    ensures !Scan(TagMachine(), mode, text, final).stopped
    decreases |text|
  {
    hide Scan, FirstMatch;
    var a := TagMachine();
    var found := FirstMatch(text, a.markers(mode));
    if found.None? {
      NoTagLeft(mode, text, final);
    } else {
      ScanGoes(a, mode, text, final, found.value.0, found.value.1);
      NeverStops(a.action(found.value.1).mode, text[found.value.0 + |found.value.1|..], final);
    }
  }

  /** What is held back holds no complete tag of the mode. */
  lemma PendingIsFree(mode: Mode, pending: string, chunk: string)
    ensures var scanned := Scan(TagMachine(), mode, pending + chunk, false);
      Free(scanned.pending, [TagFor(scanned.mode)])
  {
    hide Scan, Segments, Free;
    var a, text := TagMachine(), pending + chunk;
    HeldNothing(a.markers(mode));
    SegmentsAreFree(a, mode, "", "", text, false);
    assert "" + text == text;
    NeverStops(mode, text, false);
    var scanned := Scan(a, mode, text, false);
    FreeEnd(Segments(a, mode, "", text, false).1, scanned.pending, [TagFor(scanned.mode)]);
  }

  lemma FreeEnd(e: string, r: string, ms: seq<string>)
    requires Free(e + r, ms)
    ensures Free(r, ms)
  {
    forall i: nat, m | m in ms
      ensures !At(r, m, i)
    {
      AtShifted(e, r, m, i);
    }
  }

  /** A text without the tag is written whole. */
  lemma FlushedWhole(mode: Mode, pending: string)
    requires Free(pending, [TagFor(mode)])
    ensures Scan(TagMachine(), mode, pending, true) == Scanned(Run(mode, pending), mode, false, "")
  {
    NoMatchIsFree(pending, [TagFor(mode)]);
    assert pending[..|pending|] == pending;
  }

  lemma SingleMatch(text: string, tag: string, i: nat)
    requires tag != "" && At(text, tag, i) && forall j | 0 <= j < i :: !At(text, tag, j)
    ensures FirstMatch(text, [tag]) == Some((i, tag))
  {
    assert FirstAt(text, [tag], i) == Some(tag);
    MatchIs(text, [tag], i);
  }

  // ----- the parser

  class ThinkingTagStreamParser {
    var mode: Mode
    var pendingTagPrefix: string

    ghost predicate Valid()
      reads this
    {
      Free(pendingTagPrefix, [TagFor(mode)])
    }

    constructor ()
      ensures Valid() && mode == Content && pendingTagPrefix == ""
    {
      mode := Content;
      pendingTagPrefix := "";
    }

    /** The new fragment and state are those of scanning everything held back and consumed. */
    method Consume(chunk: string) returns (fragment: Fragment)
      modifies this
      ensures Valid()
      ensures var scanned := Scan(TagMachine(), old(mode), old(pendingTagPrefix) + chunk, false);
        fragment == FragmentOf(scanned.runs) && mode == scanned.mode && pendingTagPrefix == scanned.pending
    {
      hide Scan, FirstMatch, Keep, FragmentOf, Free;
      fragment := Fragment("", "");
      var remaining := pendingTagPrefix + chunk;
      pendingTagPrefix := "";
      ghost var a := TagMachine();
      ghost var whole := Scan(a, mode, remaining, false);
      ghost var runs: seq<(Mode, string)> := [];
      NothingEmitted();
      PendingIsFree(mode, old(pendingTagPrefix), chunk);
      assert After([], whole) == whole;
      while remaining != ""
        invariant fragment == FragmentOf(runs)
        invariant remaining == "" || pendingTagPrefix == ""
        invariant pendingTagPrefix == "" ==> After(runs, Scan(a, mode, remaining, false)) == whole
        invariant pendingTagPrefix != "" ==> Scanned(runs, mode, false, pendingTagPrefix) == whole
        decreases |remaining|
      {
        var tag := if mode == Content then "<think>" else "</think>";
        var range := IndexOf(remaining, tag);
        if range.Some? {
          SingleMatch(remaining, tag, range.value);
          RoundGoesOn(a, mode, remaining, false, runs, range.value, tag);
          fragment := Append(remaining[..range.value], fragment, runs);
          runs := runs + Run(mode, remaining[..range.value]);
          remaining := remaining[range.value + |tag|..];
          mode := if mode == Content then Reasoning else Content;
          continue;
        }
        NoMatchIsFree(remaining, [tag]) by { FreeOfOne(remaining, tag); }
        RoundEnds(a, mode, remaining, false, runs);
        var retained := LongestSuffixPrefixLength(remaining, tag);
        if retained > 0 {
          var split := |remaining| - retained;
          fragment := Append(remaining[..split], fragment, runs);
          runs := runs + Run(mode, remaining[..split]);
          pendingTagPrefix := remaining[split..];
        } else {
          assert remaining[..|remaining|] == remaining;
          fragment := Append(remaining, fragment, runs);
          runs := runs + Run(mode, remaining);
          NothingLeft(a, mode, false, runs);
        }
        remaining := "";
      }
      if pendingTagPrefix == "" {
        NothingLeft(a, mode, false, runs);
      }
    }

    /** What is held back is written in the current mode. */
    method Finish() returns (fragment: Fragment)
      requires Valid()
      modifies this
      ensures Valid() && pendingTagPrefix == "" && mode == old(mode)
      ensures fragment == FragmentOf(Scan(TagMachine(), old(mode), old(pendingTagPrefix), true).runs)
    {
      FlushedWhole(mode, pendingTagPrefix);
      NothingEmitted();
      assert [] + Run(mode, pendingTagPrefix) == Run(mode, pendingTagPrefix);
      fragment := Append(pendingTagPrefix, Fragment("", ""), []);
      pendingTagPrefix := "";
    }

    method Append(text: string, fragment: Fragment, ghost runs: seq<(Mode, string)>) returns (r: Fragment)
      requires fragment == FragmentOf(runs)
      ensures r == FragmentOf(runs + Run(mode, text))
    {
      FragmentAppend(runs, mode, text);
      if text == "" {
        return fragment;
      }
      match mode
      case Content => r := fragment.(answer := fragment.answer + text);
      case Reasoning => r := fragment.(reasoning := fragment.reasoning + text);
    }

    method LongestSuffixPrefixLength(text: string, tag: string) returns (n: nat)
      requires tag != ""
      ensures n == Keep(text, [tag])
    {
      var maximum := if |text| < |tag| - 1 then |text| else |tag| - 1;
      n := maximum;
      while n > 0 && text[|text| - n..] != tag[..n]
        invariant n <= maximum
        invariant forall j: nat | n < j :: !EndsWithPrefix(text, tag, j)
      {
        n := n - 1;
      }
      assert n > 0 ==> tag in [tag] && EndsWithPrefix(text, tag, n);
      KeepIs(text, [tag], n);
    }
  }

  lemma NothingEmitted()
    ensures FragmentOf([]) == Fragment("", "")
  {
  }

  lemma FreeOfOne(text: string, tag: string)
    requires forall j: nat :: !At(text, tag, j)
    ensures Free(text, [tag])
  {
  }

  function Appended(x: Fragment, y: Fragment): Fragment {
    Fragment(x.reasoning + y.reasoning, x.answer + y.answer)
  }

  lemma FinishIsAnEmptyChunk(first: Scanned, chunks: seq<string>)
    ensures FedAll(TagMachine(), first, chunks + [""], true)
         == Continued(TagMachine(), FedAll(TagMachine(), first, chunks, false), "", true)
    decreases |chunks|
  {
    hide Scan;
    var a := TagMachine();
    if chunks == [] {
      assert [] + [""] == [""];
      assert [""][1..] == [];
    } else {
      assert (chunks + [""])[1..] == chunks[1..] + [""];
      FinishIsAnEmptyChunk(Continued(a, first, chunks[0], false), chunks[1..]);
    }
  }

  lemma JoinEmptyChunk(chunks: seq<string>)
    ensures Join(chunks + [""]) == Join(chunks)
  {
    if chunks == [] {
      assert [] + [""] == [""];
    } else {
      assert (chunks + [""])[1..] == chunks[1..] + [""];
      JoinEmptyChunk(chunks[1..]);
    }
  }

  /** However a text is cut, consuming the chunks and finishing shows what the whole text shows. */
  lemma ChunksShowTheWhole(chunks: seq<string>)
    ensures var a := TagMachine();
      var consumed := FedAll(a, Scanned([], Content, false, ""), chunks, false);
      FragmentOf(Continued(a, consumed, "", true).runs) == Complete(Join(chunks))
  {
    hide Scan, Tagged;
    TagsAreHarmless();
    FinishIsAnEmptyChunk(Scanned([], Content, false, ""), chunks);
    JoinEmptyChunk(chunks);
    ChunkingDoesNotMatter(TagMachine(), Content, chunks + [""], true);
  }

  /** Consuming a text chunk by chunk and finishing. */
  method ParseChunks(chunks: seq<string>) returns (result: Fragment)
    ensures result == Complete(Join(chunks))
  {
    hide Scan, Tagged, FragmentOf, Free, Complete;
    var parser := new ThinkingTagStreamParser();
    ghost var a, first := TagMachine(), Scanned([], Content, false, "");
    ghost var runs: seq<(Mode, string)> := [];
    result := Fragment("", "");
    NothingEmitted();
    for i := 0 to |chunks|
      invariant parser.Valid()
      invariant result == FragmentOf(runs)
      invariant FedAll(a, Scanned(runs, parser.mode, false, parser.pendingTagPrefix), chunks[i..], false)
             == FedAll(a, first, chunks, false)
    {
      ghost var scanned := Scan(a, parser.mode, parser.pendingTagPrefix + chunks[i], false);
      NeverStops(parser.mode, parser.pendingTagPrefix + chunks[i], false);
      assert chunks[i..][1..] == chunks[i + 1..];
      var fragment := parser.Consume(chunks[i]);
      FragmentConcat(runs, scanned.runs);
      runs := runs + scanned.runs;
      result := Appended(result, fragment);
    }
    ghost var last := Scan(a, parser.mode, parser.pendingTagPrefix, true);
    assert parser.pendingTagPrefix + "" == parser.pendingTagPrefix;
    var fragment := parser.Finish();
    FragmentConcat(runs, last.runs);
    result := Appended(result, fragment);
    ChunksShowTheWhole(chunks);
  }

  method ParseComplete(text: string) returns (result: Fragment)
    ensures result == Complete(text)
  {
    hide Scan, Tagged, FragmentOf, Free;
    var parser := new ThinkingTagStreamParser();
    ghost var a := TagMachine();
    ghost var whole := Scan(a, Content, text, false);
    result := parser.Consume(text);
    assert "" + text == text;
    NeverStops(Content, text, false);
    ghost var last := Scan(a, parser.mode, parser.pendingTagPrefix, true);
    var rest := parser.Finish();
    FragmentConcat(whole.runs, last.runs);
    result := Appended(result, rest);
    TagsAreHarmless();
    CutAnywhere(a, Content, text, "", true);
    assert text + "" == text && whole.pending + "" == whole.pending;
    SameShows(Continued(a, whole, "", true), Scan(a, Content, text, true));
  }

  lemma SameShows(x: Scanned, y: Scanned)
    requires Same(x, y)
    ensures FragmentOf(x.runs) == FragmentOf(y.runs)
  {
  }

  // ----- what the whole text shows

  /** Segments of alternating modes, each ended by the tag of its mode. */
  ghost predicate Alternating(segments: seq<Segment>, mode: Mode) {
    segments == [] ||
    (segments[0].mode == mode && segments[0].marker == TagFor(mode) && Alternating(segments[1..], Other(mode)))
  }

  lemma {:induction false} SegmentsAlternate(mode: Mode, text: string)
    ensures Alternating(Segments(TagMachine(), mode, "", text, true).0, mode)
    decreases |text|
  {
    hide FirstMatch, Scan;
    var a := TagMachine();
    var found := FirstMatch(text, a.markers(mode));
    if found.Some? {
      var (i, m) := found.value;
      SegmentsAlternate(Other(mode), text[i + |m|..]);
      var segments := Segments(a, mode, "", text, true).0;
      assert segments[1..] == Segments(a, Other(mode), "", text[i + |m|..], true).0;
    }
  }

  /**
    The whole text is an alternation of answer and reasoning segments, none of which
    contains the tag that ends it, and exactly the segments are shown, each in its field.
   */
  lemma CompleteIsAlternation(text: string)
    ensures var (closed, open) := Segments(TagMachine(), Content, "", text, true);
      var end := Scan(TagMachine(), Content, text, true).mode;
      && Alternating(closed, Content)
      && text == Reassembled(closed) + open
      && (forall s | s in closed :: Free(s.text, [TagFor(s.mode)]))
      && Free(open, [TagFor(end)])
      && Complete(text).reasoning == Only(Texts(closed) + Written(end, open), Reasoning)
      && Complete(text).answer == Only(Texts(closed) + Written(end, open), Content)
  {
    hide Scan, Segments, Free, Tagged, Only;
    var a := TagMachine();
    SegmentsAlternate(Content, text);
    HeldNothing(a.markers(Content));
    assert "" + text == text;
    SegmentsAreFree(a, Content, "", "", text, true);
    NeverStops(Content, text, true);
    SegmentsReassemble(a, Content, "", text, true);
    SegmentsAreEmitted(a, Content, "", text, true);
    NothingWritten(Content);
    FinalHoldsNothing(Content, text);
    var (closed, open) := Segments(a, Content, "", text, true);
    assert Reassembled(closed) + open + "" == Reassembled(closed) + open;
    assert [] + Tagged(Scan(a, Content, text, true).runs) == Tagged(Scan(a, Content, text, true).runs);
  }

  lemma {:induction false} FinalHoldsNothing(mode: Mode, text: string)
    ensures Scan(TagMachine(), mode, text, true).pending == ""
    decreases |text|
  {
    hide Scan, FirstMatch;
    var a := TagMachine();
    var found := FirstMatch(text, a.markers(mode));
    if found.None? {
      NoTagLeft(mode, text, true);
    } else {
      ScanGoes(a, mode, text, true, found.value.0, found.value.1);
      FinalHoldsNothing(a.action(found.value.1).mode, text[found.value.0 + |found.value.1|..]);
    }
  }
}
