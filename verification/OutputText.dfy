/**
  Separating thinking from content and stopping at stop strings while tokens
  stream in (mlx_vlm_openai.py). The order of the markers decides ties: the
  caller's stops first, then the two thinking delimiters.
 */
module OutputText {
  import opened Options
  import opened StreamSplitter
  import opened StreamSegments

  const OPEN_TAG := "<think>"
  const CLOSE_TAG := "</think>"

  function MarkersFor(stops: seq<string>): (ms: seq<string>)
    ensures NonEmpty(stops) ==> NonEmpty(ms)
  {
    stops + [OPEN_TAG, CLOSE_TAG]
  }

  function ActionFor(stops: seq<string>, m: string): Action {
    if m in stops then Stop else if m == OPEN_TAG then Go(Reasoning) else Go(Content)
  }

  function MachineFor(stops: seq<string>): (a: Machine)
    ensures NonEmpty(stops) ==> Usable(a)
  {
    Machine(_ => MarkersFor(stops), m => ActionFor(stops, m))
  }

  // ----- exactly when the chunking cannot matter

  /** No cut of any text, from any state, changes what a reader sees, the state, the stop or what is held. */
  ghost predicate ChunkIndependent(a: Machine)
    requires Usable(a)
  {
    forall mode, t1, t2, final ::
      Same(Continued(a, Scan(a, mode, t1, false), t2, final), Scan(a, mode, t1 + t2, final))
  }

  lemma StopsComeFirst(stops: seq<string>)
    ensures StopsFirst(MachineFor(stops), MarkersFor(stops))
  {
    var a, ms := MachineFor(stops), MarkersFor(stops);
    forall c | c in ms && a.action(c).Stop?
      ensures exists k :: 0 <= k < |ms| && ms[k] == c && forall j | 0 <= j < k :: a.action(ms[j]).Stop?
    {
      var k :| 0 <= k < |stops| && stops[k] == c;
      assert ms[k] == c;
    }
  }

  /** The first place inside `w` where some marker is complete. */
  lemma FirstEnd(ms: seq<string>, w: string) returns (e: nat)
    requires NonEmpty(ms) && w != "" && !NothingInside(ms, w)
    ensures 1 <= e < |w| && !Free(w[..e], ms) && Free(w[..e - 1], ms)
  {
    e := |w| - 1;
    while e > 0 && !Free(w[..e - 1], ms)
      invariant e < |w| && !Free(w[..e], ms)
    {
      e := e - 1;
    }
  }

  /** A marker not preceded by one of its prefixes is the one found when it stands alone. */
  lemma FoundAlone(ms: seq<string>, k: nat)
    requires NonEmpty(ms) && k < |ms| && !Dominated(ms, k)
    ensures FirstMatch(ms[k], ms) == Some((0, ms[k]))
  {
    var w := ms[k];
    forall j | 0 <= j < k
      ensures !At(w, ms[j], 0)
    {
    }
    assert w[0..0 + |w|] == w;
    FirstAtIsFirst(w, ms, 0, k);
    MatchIs(w, ms, 0);
  }

  /** In a text that becomes unfree with its last character, every marker ends there. */
  lemma EndsAtEnd(ms: seq<string>, t: string)
    requires NonEmpty(ms) && t != "" && !Free(t, ms) && Free(t[..|t| - 1], ms)
    ensures FirstMatch(t, ms).Some?
    ensures var (i, c) := FirstMatch(t, ms).value; i + |c| == |t| && c == t[i..]
  {
    NoMatchIsFree(t, ms);
    var (i, c) := FirstMatch(t, ms).value;
    if i + |c| < |t| {
      assert t == t[..|t| - 1] + t[|t| - 1..];
      AtInPrefix(t[..|t| - 1], t[|t| - 1..], c, i);
    }
  }

  lemma TaggedStartsWith(mode: Mode, before: string, after: seq<(Mode, char)>, all: seq<(Mode, char)>)
    requires before != "" && all == Tagged(Run(mode, before)) + after
    ensures all != []
  {
  }

  lemma WholeMarker(a: Machine, mode: Mode, w: string)
    requires Usable(a) && FirstMatch(w, a.markers(mode)) == Some((0, w))
    ensures Scan(a, mode, w, false) ==
      Scanned([], if a.action(w).Stop? then mode else a.action(w).mode, a.action(w).Stop?, "")
  {
    hide Scan, FirstMatch;
    assert w[|w|..] == "" && w[..0] == "" && Run(mode, "") == [];
    if a.action(w).Stop? {
      ScanStops(a, mode, w, false, 0, w);
    } else {
      ScanGoes(a, mode, w, false, 0, w);
      NothingInEmpty(a, a.action(w).mode);
    }
  }

  /** What is seen when the cut falls where a marker starting with the text is complete. */
  lemma CutAtPrefix(a: Machine, mode: Mode, c: string, t2: string)
    requires Usable(a) && FirstMatch(c, a.markers(mode)) == Some((0, c))
    ensures a.action(c).Stop? ==> Continued(a, Scan(a, mode, c, false), t2, false) == Scanned([], mode, true, "")
    ensures a.action(c).Go? ==>
      Continued(a, Scan(a, mode, c, false), t2, false) == Scan(a, a.action(c).mode, t2, false)
  {
    hide Scan, FirstMatch;
    WholeMarker(a, mode, c);
    assert "" + t2 == t2;
    if a.action(c).Go? {
      var second := Scan(a, a.action(c).mode, t2, false);
      assert [] + second.runs == second.runs;
    }
  }

  /** A marker found past the beginning makes its predecessor text visible. */
  lemma CutShowsText(a: Machine, mode: Mode, t1: string, t2: string)
    requires Usable(a) && FirstMatch(t1, a.markers(mode)).Some? && FirstMatch(t1, a.markers(mode)).value.0 > 0
    ensures Tagged(Continued(a, Scan(a, mode, t1, false), t2, false).runs) != []
  {
    hide FirstMatch, Tagged, Run;
    var (i, m) := FirstMatch(t1, a.markers(mode)).value;
    var before, rest := t1[..i], t1[i + |m|..];
    ScanAtMarker(a, mode, t1, false, i, m, before, rest);
    var first := Scan(a, mode, t1, false);
    TaggedStartsWith(mode, before, Tagged(AfterMarker(a, mode, m, rest, false).runs), Tagged(first.runs));
    hide Scan;
    if !first.stopped {
      TaggedConcat(first.runs, Scan(a, first.mode, first.pending + t2, false).runs);
    }
  }

  /** Neither delimiter occurs in the other. */
  lemma DelimitersApart(w: string, m: string, i: nat)
    requires w in [OPEN_TAG, CLOSE_TAG] && m in [OPEN_TAG, CLOSE_TAG] && At(w, m, i)
    ensures m == w
  {
    assert OPEN_TAG == "<think>" && CLOSE_TAG == "</think>";
    assert w[i] == w[i..i + |m|][0] == '<';
    assert i <= 1;
    assert i == 0;
    assert w[1] == w[i..i + |m|][1] == m[1];
  }

  /** One delimiter is not the beginning of the other, and delimiters come after the stops. */
  lemma PrefixOfHarmful(stops: seq<string>, k: nat, c: string)
    requires k < |MarkersFor(stops)| && !Dominated(MarkersFor(stops), k)
    requires var w := MarkersFor(stops)[k];
      c in MarkersFor(stops) && c != "" && c <= w && c != w && Free(w[..|c| - 1], MarkersFor(stops))
    requires !StopsEarly(MachineFor(stops), MarkersFor(stops), MarkersFor(stops)[k])
    ensures ActionFor(stops, MarkersFor(stops)[k]).Stop? && ActionFor(stops, c).Go?
  {
    var ms := MarkersFor(stops);
    var w := ms[k];
    if w !in stops {
      assert k >= |stops|;
      if c !in stops {
        DelimitersApart(w, c, 0);
      }
    }
  }

  /**
    Every marker that is not harmless tears some text: cut it where the first marker
    inside it is complete.
   */
  lemma HarmfulMarkerTears(stops: seq<string>, k: nat)
    requires NonEmpty(stops) && k < |MarkersFor(stops)|
    requires !HarmlessMarker(MachineFor(stops), MarkersFor(stops), k)
    ensures exists mode, t1, t2 :: var a := MachineFor(stops);
      !Same(Continued(a, Scan(a, mode, t1, false), t2, false), Scan(a, mode, t1 + t2, false))
  {
    hide NothingInside, Scan, Free, FirstMatch, Tagged, At;
    var a, ms := MachineFor(stops), MarkersFor(stops);
    var w := ms[k];
    assert w in ms;
    var e := FirstEnd(ms, w);
    var t1, t2 := w[..e], w[e..];
    assert t1 + t2 == w;
    assert t1[..e - 1] == w[..e - 1];
    FoundAlone(ms, k);
    EndsAtEnd(ms, t1);
    var (i, c) := FirstMatch(t1, ms).value;
    if i > 0 {
      CutShowsText(a, Content, t1, t2);
      WholeMarker(a, Content, w);
      TaggedNothing();
      assert !Same(Continued(a, Scan(a, Content, t1, false), t2, false), Scan(a, Content, t1 + t2, false));
    } else {
      assert c == t1;
      PrefixOfHarmful(stops, k, c);
      var torn := Scan(a, a.action(c).mode, t2, false);
      var mode := if torn.mode == Content then Reasoning else Content;
      CutAtPrefix(a, mode, c, t2);
      WholeMarker(a, mode, w);
      assert !Same(Continued(a, Scan(a, mode, t1, false), t2, false), Scan(a, mode, t1 + t2, false));
    }
  }

  lemma TaggedNothing()
    ensures Tagged([]) == []
  {
  }

  /** The chunking can never matter exactly when every marker is harmless. */
  lemma ChunkIndependentIffHarmless(stops: seq<string>)
    requires NonEmpty(stops)
    ensures ChunkIndependent(MachineFor(stops)) <==> Harmless(MachineFor(stops))
  {
    var a, ms := MachineFor(stops), MarkersFor(stops);
    StopsComeFirst(stops);
    if Harmless(a) {
      forall mode, t1, t2, final
        ensures Same(Continued(a, Scan(a, mode, t1, false), t2, final), Scan(a, mode, t1 + t2, final))
      {
        CutAnywhere(a, mode, t1, t2, final);
      }
    } else {
      var k :| 0 <= k < |ms| && !HarmlessMarker(a, ms, k);
      HarmfulMarkerTears(stops, k);
    }
  }

  /** The condition a caller would think of is enough: no marker properly contains another. */
  lemma NoNestingIsHarmless(stops: seq<string>)
    requires NonEmpty(stops)
    requires forall w, m, i: nat | w in MarkersFor(stops) && m in MarkersFor(stops) && At(w, m, i) :: m == w
    ensures Harmless(MachineFor(stops))
  {
    var a, ms := MachineFor(stops), MarkersFor(stops);
    StopsComeFirst(stops);
    forall k | 0 <= k < |ms|
      ensures HarmlessMarker(a, ms, k)
    {
      var w := ms[k];
      assert w in ms;
      var inner, last := w[..|w| - 1], w[|w| - 1..];
      assert w == inner + last;
      forall i: nat, m | m in ms
        ensures !At(inner, m, i)
      {
        AtInPrefix(inner, last, m, i);
      }
    }
  }

  /** Without stops the two delimiters are harmless. */
  lemma DelimitersAreHarmless()
    ensures Harmless(MachineFor([]))
  {
    var ms := MarkersFor([]);
    forall w, m, i: nat | w in ms && m in ms && At(w, m, i)
      ensures m == w
    {
      DelimitersApart(w, m, i);
    }
    NoNestingIsHarmless([]);
  }

  /** A stop with another one inside it, listed later, tears. */
  lemma InnerStopTears(stops: seq<string>, w: string, m: string, i: nat)
    requires NonEmpty(stops) && |stops| == 2 && stops[0] == w && stops[1] == m
    requires w != "" && m != "" && At(w[..|w| - 1], m, i) && w[0] != m[0] && w[0] != '<'
    ensures !ChunkIndependent(MachineFor(stops))
  {
    hide Scan, Same, Continued, At, ChunkIndependent;
    var a, ms := MachineFor(stops), MarkersFor(stops);
    assert ms[0] == w && ms[1] == m;
    forall c | c in ms && c != "" && c <= w
      ensures !Free(w[..|c| - 1], ms)
    {
      assert c[0] == w[0];
    }
    assert !HarmlessMarker(a, ms, 0);
    assert a.markers(Content) == ms;
    ChunkIndependentIffHarmless(stops);
  }

  /** The condition is needed: "abc" fed whole emits nothing, fed as "ab" and "c" emits "a". */
  lemma NestedStopsTear()
    ensures NonEmpty(["abc", "b"]) && !ChunkIndependent(MachineFor(["abc", "b"]))
  {
    assert "abc"[..2][1..2] == "b";
    InnerStopTears(["abc", "b"], "abc", "b", 1);
  }

  /**
    For any stops and any chunks: no run emitted between two consumed markers contains
    a marker, the runs are all that is emitted, and with the consumed markers and the
    text held back they reassemble the input.
   */
  lemma NothingLostOrLeaked(stops: seq<string>, mode: Mode, chunks: seq<string>, final: bool)
    requires NonEmpty(stops)
    ensures var a, first := MachineFor(stops), Scanned([], mode, false, "");
      var (closed, open) := FedSegments(a, first, "", chunks, final);
      var end := FedAll(a, first, chunks, final);
      && (forall s | s in closed :: Free(s.text, MarkersFor(stops)))
      && (!end.stopped ==> Free(open, MarkersFor(stops)))
      && Tagged(end.runs) == Texts(closed) + Written(end.mode, open)
      && (!end.stopped ==> Reassembled(closed) + open + end.pending == Join(chunks))
      && (end.stopped ==> Reassembled(closed) <= Join(chunks))
  {
    hide FedSegments, FedAll, Free, Held;
    var a, first := MachineFor(stops), Scanned([], mode, false, "");
    HeldNothing(MarkersFor(stops));
    ChunksAreClean(a, first, "", chunks, final);
    NothingWritten(mode);
    ChunksAreEmitted(a, first, [], "", chunks, final);
    ChunksReassemble(a, first, "", chunks, final);
    var (closed, open) := FedSegments(a, first, "", chunks, final);
    assert [] + Texts(closed) == Texts(closed);
    assert "" + "" + Join(chunks) == Join(chunks);
  }

  // ----- the object

  function Kept(stops: seq<string>): (r: seq<string>)
    ensures NonEmpty(r) && forall s :: s in r <==> s in stops && s != ""
  {
    if stops == [] then []
    else (if stops[0] == "" then [] else [stops[0]]) + Kept(stops[1..])
  }

  lemma {:induction false} KeptOneMore(stops: seq<string>, i: nat)
    requires i < |stops|
    ensures Kept(stops[..i + 1]) == Kept(stops[..i]) + if stops[i] == "" then [] else [stops[i]]
  {
    if i == 0 {
      assert stops[..1][1..] == [] && stops[..0] == [];
    } else {
      assert stops[..i + 1][1..] == stops[1..][..i];
      assert stops[..i][1..] == stops[1..][..i - 1];
      KeptOneMore(stops[1..], i - 1);
    }
  }

  /** The index of the last occurrence, or -1. */
  method LastIndexOf(text: string, m: string) returns (i: int)
    requires m != ""
    ensures -1 <= i < |text| && (i >= 0 ==> At(text, m, i))
    ensures forall j: nat | At(text, m, j) :: j <= i
  {
    i := |text| - 1;
    while i >= 0 && !At(text, m, i)
      invariant -1 <= i < |text|
      invariant forall j: nat | At(text, m, j) :: j <= i
    {
      i := i - 1;
    }
  }

  /** Of all markers that occur, the one with the smallest index, the first listed among equals. */
  method EarliestMarker(text: string, markers: seq<string>) returns (best: Option<(nat, string)>)
    requires NonEmpty(markers)
    ensures best == FirstMatch(text, markers)
  {
    best := None;
    ghost var chosen: nat := 0;
    for n := 0 to |markers|
      invariant best.None? ==> forall j: nat, h | 0 <= h < n :: !At(text, markers[h], j)
      invariant best.Some? ==>
        && chosen < n && markers[chosen] == best.value.1 && At(text, best.value.1, best.value.0)
        && (forall j: nat, h | 0 <= h < n && j < best.value.0 :: !At(text, markers[h], j))
        && (forall h | 0 <= h < chosen :: !At(text, markers[h], best.value.0))
    {
      assert markers[n] in markers;
      var i := IndexOf(text, markers[n]);
      if i.Some? && (best.None? || i.value < best.value.0) {
        best := Some((i.value, markers[n]));
        chosen := n;
      }
    }
    if best.None? {
      NoMatchIsFree(text, markers);
    } else {
      FirstAtIsFirst(text, markers, best.value.0, chosen);
      MatchIs(text, markers, best.value.0);
    }
  }

  /** The length of the longest end of the text that is a proper beginning of a marker. */
  method HeldBack(text: string, markers: seq<string>) returns (keep: nat)
    ensures keep == Keep(text, markers)
  {
    keep := 0;
    for h := 0 to |markers|
      invariant keep > 0 ==> exists m :: m in markers && EndsWithPrefix(text, m, keep)
      invariant forall n: nat, g | keep < n && 0 <= g < h :: !EndsWithPrefix(text, markers[g], n)
    {
      var m := markers[h];
      var n := 1;
      while n < |m|
        invariant 1 <= n
        invariant keep > 0 ==> exists m :: m in markers && EndsWithPrefix(text, m, keep)
        invariant forall n: nat, g | keep < n && 0 <= g < h :: !EndsWithPrefix(text, markers[g], n)
        invariant forall j: nat | keep < j < n :: !EndsWithPrefix(text, m, j)
      {
        if EndsWithPrefix(text, m, n) && n > keep {
          keep := n;
        }
        n := n + 1;
      }
    }
    KeepIs(text, markers, keep);
  }

  class OutputText {
    const stops: seq<string>
    var pending: string
    var state: Mode
    var stopped: bool

    ghost predicate Valid() {
      NonEmpty(stops)
    }

    ghost function Machine(): (a: Machine)
      requires Valid()
      ensures Usable(a)
    {
      MachineFor(stops)
    }

    /** The state is reasoning exactly when the prompt's last delimiter opens it. */
    constructor (prompt: string, stops: seq<string>)
      ensures Valid() && this.stops == Kept(stops)
      ensures state == Reasoning <==>
        exists i: nat :: At(prompt, OPEN_TAG, i) && forall j: nat | At(prompt, CLOSE_TAG, j) :: j < i
      ensures pending == "" && !stopped
    {
      pending := "";
      stopped := false;
      var opening := LastIndexOf(prompt, OPEN_TAG);
      var closing := LastIndexOf(prompt, CLOSE_TAG);
      state := if opening > closing then Reasoning else Content;
      var kept := [];
      for i := 0 to |stops|
        invariant kept == Kept(stops[..i])
      {
        KeptOneMore(stops, i);
        if stops[i] != "" {
          kept := kept + [stops[i]];
        }
      }
      assert stops[..|stops|] == stops;
      this.stops := kept;
    }

    /** One chunk: what is emitted and every field are those of the scan of everything held and fed. */
    method Feed(text: string, final: bool) returns (runs: seq<(Mode, string)>)
      requires Valid()
      modifies this
      ensures !old(stopped) ==>
        Scanned(runs, state, stopped, pending) == Scan(Machine(), old(state), old(pending) + text, final)
      ensures old(stopped) ==> runs == [] && stopped && state == old(state) && pending == old(pending) + text
    {
      hide Scan, FirstMatch, Keep;
      runs := [];
      pending := pending + text;
      var markers := stops + [OPEN_TAG, CLOSE_TAG];
      ghost var a := Machine();
      ghost var whole := Scan(a, state, pending, final);
      assert After([], whole) == whole;
      while pending != "" && !stopped
        invariant old(stopped) ==> stopped && runs == [] && state == old(state) && pending == old(pending) + text
        invariant !old(stopped) && stopped ==> Scanned(runs, state, true, pending) == whole
        invariant !old(stopped) && !stopped ==> After(runs, Scan(a, state, pending, final)) == whole
        decreases |pending|
      {
        var found := EarliestMarker(pending, markers);
        if found.Some? {
          var (index, marker) := found.value;
          if marker in stops {
            RoundStops(a, state, pending, final, runs, index, marker);
          } else {
            RoundGoesOn(a, state, pending, final, runs, index, marker);
          }
          assert runs + [] == runs;
          if index > 0 {
            runs := runs + [(state, pending[..index])];
          }
          pending := pending[index + |marker|..];
          if marker in stops {
            stopped := true;
            pending := "";
          } else {
            state := if marker == OPEN_TAG then Reasoning else Content;
          }
          continue;
        }
        RoundEnds(a, state, pending, final, runs);
        assert runs + [] == runs;
        var keep: nat := 0;
        if !final {
          keep := HeldBack(pending, markers);
        }
        var end := |pending| - keep;
        if end > 0 {
          runs := runs + [(state, pending[..end])];
          pending := pending[end..];
        }
        return;
      }
      if !stopped {
        NothingLeft(a, state, final, runs);
      }
    }
  }
}
