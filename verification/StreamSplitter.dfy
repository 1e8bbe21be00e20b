/**
  Incremental splitting of a text at markers, holding back whatever could still
  become a marker. The theory shared by the two splitters of the repository.
 */
module StreamSplitter {
  import opened Options

  datatype Mode = Content | Reasoning

  /** What a consumed marker does: end the text, or switch the mode. */
  datatype Action = Stop | Go(mode: Mode)

  /** The markers looked for in each mode, in order of preference. */
  datatype Machine = Machine(markers: Mode -> seq<string>, action: string -> Action)

  ghost predicate NonEmpty(ms: seq<string>) {
    forall m | m in ms :: m != ""
  }

  // ----- occurrences

  predicate At(text: string, m: string, i: nat) {
    i + |m| <= |text| && text[i..i + |m|] == m
  }

  ghost predicate Free(text: string, ms: seq<string>) {
    forall i: nat, m | m in ms :: !At(text, m, i)
  }

  /** The first listed marker that occurs at `i`. */
  function FirstAt(text: string, ms: seq<string>, i: nat): (r: Option<string>)
    ensures r.None? ==> forall m | m in ms :: !At(text, m, i)
    ensures r.Some? ==> r.value in ms && At(text, r.value, i)
  {
    if ms == [] then None
    else if At(text, ms[0], i) then Some(ms[0])
    else FirstAt(text, ms[1..], i)
  }

  function Leftmost(text: string, ms: seq<string>, from: nat): (i: nat)
    requires from <= |text|
    ensures from <= i <= |text|
    ensures forall j | from <= j < i :: FirstAt(text, ms, j).None?
    ensures i < |text| ==> FirstAt(text, ms, i).Some?
    decreases |text| - from
  {
    if from == |text| || FirstAt(text, ms, from).Some? then from else Leftmost(text, ms, from + 1)
  }

  /** The occurrence with the smallest index, ties going to the marker listed first. */
  function FirstMatch(text: string, ms: seq<string>): (r: Option<(nat, string)>)
    ensures r.Some? ==> r.value.1 in ms && At(text, r.value.1, r.value.0)
    ensures r.Some? ==> forall j | 0 <= j < r.value.0 :: FirstAt(text, ms, j).None?
  {
    var i := Leftmost(text, ms, 0);
    if i < |text| then Some((i, FirstAt(text, ms, i).value)) else None
  }

  predicate EndsWithPrefix(text: string, m: string, n: nat) {
    1 <= n < |m| && n <= |text| && text[|text| - n..] == m[..n]
  }

  /** The longest end of the text, of at most `n` characters, that a marker could start with. */
  function KeepUpTo(text: string, ms: seq<string>, n: nat): (k: nat)
    ensures k <= n
    ensures k > 0 ==> exists m :: m in ms && EndsWithPrefix(text, m, k)
    ensures forall j, m | k < j <= n && m in ms :: !EndsWithPrefix(text, m, j)
  {
    if n == 0 then 0
    else if exists m | m in ms :: EndsWithPrefix(text, m, n) then n
    else KeepUpTo(text, ms, n - 1)
  }

  function Keep(text: string, ms: seq<string>): (k: nat)
    ensures k <= |text|
    ensures k > 0 ==> exists m :: m in ms && EndsWithPrefix(text, m, k)
    ensures forall j: nat, m | k < j && m in ms :: !EndsWithPrefix(text, m, j)
  {
    KeepUpTo(text, ms, |text|)
  }

  /** The index of the first occurrence, if there is one. */
  method IndexOf(text: string, m: string) returns (i: Option<nat>)
    requires m != ""
    ensures i.None? ==> forall j: nat :: !At(text, m, j)
    ensures i.Some? ==> At(text, m, i.value) && forall j | 0 <= j < i.value :: !At(text, m, j)
  {
    var n: nat := 0;
    while n < |text| && !At(text, m, n)
      invariant n <= |text|
      invariant forall j | 0 <= j < n :: !At(text, m, j)
    {
      n := n + 1;
    }
    i := if n < |text| then Some(n) else None;
  }

  // ----- scanning

  /** Emitted runs, the mode and whether the text was ended, and what is held back. */
  datatype Scanned = Scanned(runs: seq<(Mode, string)>, mode: Mode, stopped: bool, pending: string)

  function Run(mode: Mode, text: string): seq<(Mode, string)> {
    if text == "" then [] else [(mode, text)]
  }

  ghost predicate Usable(a: Machine) {
    forall mode :: NonEmpty(a.markers(mode))
  }

  /** Process a text from the given mode; `final` holds nothing back. */
  function Scan(a: Machine, mode: Mode, text: string, final: bool): Scanned
    requires Usable(a)
    decreases |text|
  {
    var found := FirstMatch(text, a.markers(mode));
    if found.None? then
      var end := |text| - if final then 0 else Keep(text, a.markers(mode));
      Scanned(Run(mode, text[..end]), mode, false, text[end..])
    else
      var (i, m) := found.value;
      if a.action(m).Stop? then Scanned(Run(mode, text[..i]), mode, true, "")
      else
        var rest := Scan(a, a.action(m).mode, text[i + |m|..], final);
        rest.(runs := Run(mode, text[..i]) + rest.runs)
  }

  /** Runs as a sequence of characters, each with the mode it was emitted in. */
  function Tagged(runs: seq<(Mode, string)>): seq<(Mode, char)> {
    if runs == [] then []
    else seq(|runs[0].1|, i requires 0 <= i < |runs[0].1| => (runs[0].0, runs[0].1[i])) + Tagged(runs[1..])
  }

  /** Two scans a reader cannot tell apart; what a stopped scan holds back does not matter. */
  predicate Same(a: Scanned, b: Scanned) {
    && Tagged(a.runs) == Tagged(b.runs) && a.mode == b.mode && a.stopped == b.stopped
    && (a.stopped || a.pending == b.pending)
  }

  /** Continue a scan with more text. */
  function Continued(a: Machine, first: Scanned, more: string, final: bool): Scanned
    requires Usable(a)
  {
    if first.stopped then first
    else
      var second := Scan(a, first.mode, first.pending + more, final);
      second.(runs := first.runs + second.runs)
  }

  /** What a loop that emitted `runs` will have done once the rest is scanned. */
  function After(runs: seq<(Mode, string)>, rest: Scanned): Scanned {
    rest.(runs := runs + rest.runs)
  }

  lemma ScanStops(a: Machine, mode: Mode, text: string, final: bool, i: nat, m: string)
    requires Usable(a) && FirstMatch(text, a.markers(mode)) == Some((i, m)) && a.action(m).Stop?
    ensures i <= |text| && Scan(a, mode, text, final) == Scanned(Run(mode, text[..i]), mode, true, "")
  {
    hide Keep, Run, FirstAt, Leftmost;
  }

  lemma ScanGoes(a: Machine, mode: Mode, text: string, final: bool, i: nat, m: string)
    requires Usable(a) && FirstMatch(text, a.markers(mode)) == Some((i, m)) && a.action(m).Go?
    ensures i + |m| <= |text| && m != ""
    ensures Scan(a, mode, text, final) == After(Run(mode, text[..i]), Scan(a, a.action(m).mode, text[i + |m|..], final))
  {
    hide Keep, Run, FirstAt, Leftmost;
  }

  // ----- when cutting the text cannot matter

  /** An earlier listed marker is a prefix of marker `k`, so `k` is never chosen. */
  ghost predicate Dominated(ms: seq<string>, k: nat)
    requires k < |ms|
  {
    exists j: nat :: j < k && ms[j] <= ms[k]
  }

  /** No marker is complete within `w` before its last character. */
  ghost predicate NothingInside(ms: seq<string>, w: string)
    requires w != ""
  {
    Free(w[..|w| - 1], ms)
  }

  /** The first marker complete within the stop `w` is a stop that starts where `w` does. */
  ghost predicate StopsEarly(a: Machine, ms: seq<string>, w: string) {
    a.action(w).Stop? &&
    exists c :: c in ms && c != "" && a.action(c).Stop? && c <= w && Free(w[..|c| - 1], ms)
  }

  ghost predicate HarmlessMarker(a: Machine, ms: seq<string>, k: nat)
    requires k < |ms|
  {
    ms[k] != "" && (Dominated(ms, k) || NothingInside(ms, ms[k]) || StopsEarly(a, ms, ms[k]))
  }

  /** Every stop is listed somewhere with only stops before it. */
  ghost predicate StopsFirst(a: Machine, ms: seq<string>) {
    forall c | c in ms && a.action(c).Stop? ::
      exists k :: 0 <= k < |ms| && ms[k] == c && forall j | 0 <= j < k :: a.action(ms[j]).Stop?
  }

  ghost predicate Harmless(a: Machine) {
    forall mode ::
      && NonEmpty(a.markers(mode)) && StopsFirst(a, a.markers(mode))
      && forall k | 0 <= k < |a.markers(mode)| :: HarmlessMarker(a, a.markers(mode), k)
  }

  // ----- lemmas about occurrences

  lemma AtInPrefix(t1: string, t2: string, m: string, i: nat)
    ensures At(t1, m, i) ==> At(t1 + t2, m, i)
    ensures At(t1 + t2, m, i) && i + |m| <= |t1| ==> At(t1, m, i)
  {
    if i + |m| <= |t1| {
      assert (t1 + t2)[i..i + |m|] == t1[i..i + |m|];
    }
  }

  lemma AtShifted(e: string, r: string, m: string, i: nat)
    ensures At(e + r, m, |e| + i) <==> At(r, m, i)
  {
    if i + |m| <= |r| {
      assert (e + r)[|e| + i..|e| + i + |m|] == r[i..i + |m|];
    }
  }

  /** Characterizes the match: nothing starts earlier, and the marker is the first listed one there. */
  lemma {:induction false} FirstAtIsFirst(text: string, ms: seq<string>, i: nat, k: nat)
    requires k < |ms| && At(text, ms[k], i)
    requires forall j | 0 <= j < k :: !At(text, ms[j], i)
    ensures FirstAt(text, ms, i) == Some(ms[k])
  {
    if k > 0 {
      assert ms[1..][k - 1] == ms[k];
      FirstAtIsFirst(text, ms[1..], i, k - 1);
    }
  }

  lemma {:induction false} FirstAtIndex(text: string, ms: seq<string>, i: nat) returns (k: nat)
    requires FirstAt(text, ms, i).Some?
    ensures k < |ms| && FirstAt(text, ms, i) == Some(ms[k])
    ensures forall j | 0 <= j < k :: !At(text, ms[j], i)
  {
    if At(text, ms[0], i) {
      k := 0;
    } else {
      k := FirstAtIndex(text, ms[1..], i);
      k := k + 1;
    }
  }

  lemma MatchIs(text: string, ms: seq<string>, i: nat)
    requires NonEmpty(ms) && FirstAt(text, ms, i).Some?
    requires forall j, m | 0 <= j < i && m in ms :: !At(text, m, j)
    ensures FirstMatch(text, ms) == Some((i, FirstAt(text, ms, i).value))
  {
    var found := Leftmost(text, ms, 0);
    assert FirstAt(text, ms, i).value != "";
  }

  lemma NoMatchIsFree(text: string, ms: seq<string>)
    requires NonEmpty(ms)
    ensures FirstMatch(text, ms).None? <==> Free(text, ms)
  {
    var found := Leftmost(text, ms, 0);
    if found == |text| {
      forall i: nat, m | m in ms
        ensures !At(text, m, i)
      {
        if i < |text| {
          assert FirstAt(text, ms, i).None?;
        }
      }
    }
  }

  /** In a text without markers, only what is held back can grow into one. */
  lemma OccurrenceStartsInKept(t1: string, t2: string, ms: seq<string>, m: string, i: nat)
    requires Free(t1, ms) && m in ms && At(t1 + t2, m, i)
    ensures i >= |t1| - Keep(t1, ms)
  {
    AtInPrefix(t1, t2, m, i);
    if i < |t1| {
      var n := |t1| - i;
      assert n < |m|;
      assert t1[|t1| - n..] == (t1 + t2)[i..i + |m|][..n] == m[..n];
      assert EndsWithPrefix(t1, m, n);
    }
  }

  lemma KeepIs(text: string, ms: seq<string>, k: nat)
    requires k > 0 ==> exists m :: m in ms && EndsWithPrefix(text, m, k)
    requires forall j: nat, m | k < j && m in ms :: !EndsWithPrefix(text, m, j)
    ensures Keep(text, ms) == k
  {
    var found := Keep(text, ms);
  }

  /** What is held back of a longer text is decided by what was held back before. */
  lemma KeepOfKept(t1: string, t2: string, ms: seq<string>)
    requires Free(t1 + t2, ms)
    ensures var kept := t1[|t1| - Keep(t1, ms)..];
      Keep(t1 + t2, ms) == Keep(kept + t2, ms)
  {
    var kept := t1[|t1| - Keep(t1, ms)..];
    var k := Keep(t1 + t2, ms);
    forall n: nat, m | m in ms
      ensures EndsWithPrefix(t1 + t2, m, n) <==> EndsWithPrefix(kept + t2, m, n)
    {
      SuffixOfKept(t1, t2, ms, m, n);
    }
    KeepIs(kept + t2, ms, k);
  }

  lemma SuffixOfKept(t1: string, t2: string, ms: seq<string>, m: string, n: nat)
    requires m in ms
    ensures var kept := t1[|t1| - Keep(t1, ms)..];
      EndsWithPrefix(t1 + t2, m, n) <==> EndsWithPrefix(kept + t2, m, n)
  {
    var kept := t1[|t1| - Keep(t1, ms)..];
    var e := t1[..|t1| - Keep(t1, ms)];
    assert t1 + t2 == e + (kept + t2);
    if n <= |kept + t2| {
      assert (t1 + t2)[|t1 + t2| - n..] == (kept + t2)[|kept + t2| - n..];
    } else if EndsWithPrefix(t1 + t2, m, n) {
      var j := n - |t2|;
      assert (t1 + t2)[|t1 + t2| - n..][..j] == t1[|t1| - j..];
      assert m[..n][..j] == m[..j];
      assert EndsWithPrefix(t1, m, j);
    }
  }

  // ----- cutting a text in two

  lemma FirstAtShifted(e: string, r: string, ms: seq<string>, i: nat)
    ensures FirstAt(e + r, ms, |e| + i) == FirstAt(r, ms, i)
  {
    if ms != [] {
      AtShifted(e, r, ms[0], i);
      FirstAtShifted(e, r, ms[1..], i);
    }
  }

  /** A prefix in which nothing starts only shifts the match. */
  lemma MatchShifted(e: string, r: string, ms: seq<string>)
    requires NonEmpty(ms)
    requires forall j: nat, m | j < |e| && m in ms :: !At(e + r, m, j)
    ensures FirstMatch(e + r, ms) ==
      match FirstMatch(r, ms)
      case None => None
      case Some((i, m)) => Some((|e| + i, m))
  {
    hide At;
    if FirstMatch(r, ms).None? {
      NoMatchIsFree(r, ms);
      forall j: nat, m | m in ms
        ensures !At(e + r, m, j)
      {
        if j >= |e| {
          AtShifted(e, r, m, j - |e|);
        }
      }
      NoMatchIsFree(e + r, ms);
    } else {
      var i := FirstMatch(r, ms).value.0;
      FirstAtShifted(e, r, ms, i);
      forall j: nat, m | j < |e| + i && m in ms
        ensures !At(e + r, m, j)
      {
        if j >= |e| {
          AtShifted(e, r, m, j - |e|);
          assert FirstAt(r, ms, j - |e|).None?;
        }
      }
      MatchIs(e + r, ms, |e| + i);
    }
  }

  /** The held-back part scans like the whole when the first part had no marker. */
  lemma MatchAfterKept(t1: string, t2: string, ms: seq<string>)
    requires NonEmpty(ms) && Free(t1, ms)
    ensures var e, kept := t1[..|t1| - Keep(t1, ms)], t1[|t1| - Keep(t1, ms)..];
      FirstMatch(t1 + t2, ms) ==
        match FirstMatch(kept + t2, ms)
        case None => None
        case Some((i, m)) => Some((|e| + i, m))
  {
    var e, kept := t1[..|t1| - Keep(t1, ms)], t1[|t1| - Keep(t1, ms)..];
    assert t1 + t2 == e + (kept + t2);
    forall m, j: nat | j < |e| && m in ms
      ensures !At(e + (kept + t2), m, j)
    {
      if At(t1 + t2, m, j) {
        OccurrenceStartsInKept(t1, t2, ms, m, j);
      }
    }
    MatchShifted(e, kept + t2, ms);
  }

  lemma TaggedConcat(a: seq<(Mode, string)>, b: seq<(Mode, string)>)
    ensures Tagged(a + b) == Tagged(a) + Tagged(b)
  {
    if a == [] {
      assert a + b == b;
    } else {
      TaggedConcat(a[1..], b);
      assert (a + b)[1..] == a[1..] + b;
    }
  }

  lemma TaggedRun(mode: Mode, e: string, r: string)
    ensures Tagged(Run(mode, e + r)) == Tagged(Run(mode, e)) + Tagged(Run(mode, r))
  {
  }

  /** What a reader sees of a scan from a marker on. */
  ghost function AfterMarker(a: Machine, mode: Mode, m: string, rest: string, final: bool): Scanned
    requires Usable(a)
  {
    if a.action(m).Stop? then Scanned([], mode, true, "") else Scan(a, a.action(m).mode, rest, final)
  }

  /** A scan with a marker: what precedes it, then what follows it. */
  lemma ScanAtMarker(a: Machine, mode: Mode, text: string, final: bool, i: nat, m: string, before: string, rest: string)
    requires Usable(a) && FirstMatch(text, a.markers(mode)) == Some((i, m))
    requires before == text[..i] && rest == text[i + |m|..]
    ensures var scanned, after := Scan(a, mode, text, final), AfterMarker(a, mode, m, rest, final);
      && Tagged(scanned.runs) == Tagged(Run(mode, before)) + Tagged(after.runs)
      && scanned.mode == after.mode && scanned.stopped == after.stopped && scanned.pending == after.pending
  {
    hide Tagged, FirstMatch, Run, Scan;
    if a.action(m).Stop? {
      ScanStops(a, mode, text, final, i, m);
    } else {
      ScanGoes(a, mode, text, final, i, m);
    }
    TaggedConcat(Run(mode, before), AfterMarker(a, mode, m, rest, final).runs);
    assert Run(mode, before) + [] == Run(mode, before);
  }

  lemma ScanShiftedToMarker(a: Machine, mode: Mode, e: string, r: string, final: bool)
    requires Usable(a) && FirstMatch(r, a.markers(mode)).Some?
    requires var (i, m) := FirstMatch(r, a.markers(mode)).value;
      FirstMatch(e + r, a.markers(mode)) == Some((|e| + i, m))
    ensures var second := Scan(a, mode, r, final);
      Same(Scan(a, mode, e + r, final), second.(runs := Run(mode, e) + second.runs))
  {
    hide Tagged, FirstMatch, Run, Scan, AfterMarker;
    var (i, m) := FirstMatch(r, a.markers(mode)).value;
    var before, rest := r[..i], r[i + |m|..];
    ScanAtMarker(a, mode, r, final, i, m, before, rest);
    assert e + before == (e + r)[..|e| + i];
    assert rest == (e + r)[|e| + i + |m|..];
    ScanAtMarker(a, mode, e + r, final, |e| + i, m, e + before, rest);
    TaggedConcat(Run(mode, e), Scan(a, mode, r, final).runs);
    TaggedRun(mode, e, before);
    Associative(Tagged(Run(mode, e)), Tagged(Run(mode, before)), Tagged(AfterMarker(a, mode, m, rest, final).runs));
  }

  lemma Associative<T>(a: seq<T>, b: seq<T>, c: seq<T>)
    ensures a + b + c == a + (b + c)
  {
  }

  lemma ScanShiftedToEnd(a: Machine, mode: Mode, e: string, r: string, final: bool)
    requires Usable(a)
    requires FirstMatch(r, a.markers(mode)).None? && FirstMatch(e + r, a.markers(mode)).None?
    requires Keep(e + r, a.markers(mode)) == Keep(r, a.markers(mode))
    ensures var second := Scan(a, mode, r, final);
      Same(Scan(a, mode, e + r, final), second.(runs := Run(mode, e) + second.runs))
  {
    hide Tagged, FirstMatch, Run, Keep;
    var k := if final then 0 else Keep(r, a.markers(mode));
    assert (e + r)[..|e + r| - k] == e + r[..|r| - k];
    assert (e + r)[|e + r| - k..] == r[|r| - k..];
    TaggedRun(mode, e, r[..|r| - k]);
    TaggedConcat(Run(mode, e), Run(mode, r[..|r| - k]));
  }

  /**
    The first part has no marker: holding back its end and scanning on gives what
    scanning the whole gives.
   */
  lemma CutBeforeMarker(a: Machine, mode: Mode, t1: string, t2: string, final: bool)
    requires Usable(a) && FirstMatch(t1, a.markers(mode)).None?
    ensures Same(Continued(a, Scan(a, mode, t1, false), t2, final), Scan(a, mode, t1 + t2, final))
  {
    hide Tagged, FirstMatch, Run, Keep;
    var ms := a.markers(mode);
    NoMatchIsFree(t1, ms);
    var e, kept := t1[..|t1| - Keep(t1, ms)], t1[|t1| - Keep(t1, ms)..];
    assert t1 + t2 == e + (kept + t2);
    MatchAfterKept(t1, t2, ms);
    if FirstMatch(kept + t2, ms).None? {
      NoMatchIsFree(t1 + t2, ms);
      KeepOfKept(t1, t2, ms);
      ScanShiftedToEnd(a, mode, e, kept + t2, final);
    } else {
      ScanShiftedToMarker(a, mode, e, kept + t2, final);
    }
  }

  /** A marker found in the first part is the one found in the whole, or both end the text there. */
  lemma MatchSurvives(a: Machine, ms: seq<string>, t1: string, t2: string)
    requires NonEmpty(ms) && StopsFirst(a, ms)
    requires forall k | 0 <= k < |ms| :: HarmlessMarker(a, ms, k)
    requires FirstMatch(t1, ms).Some?
    ensures var (i, m) := FirstMatch(t1, ms).value;
      || FirstMatch(t1 + t2, ms) == Some((i, m))
      || (exists w :: FirstMatch(t1 + t2, ms) == Some((i, w)) && a.action(w).Stop? && a.action(m).Stop?)
  {
    var (i1, m1) := FirstMatch(t1, ms).value;
    AtInPrefix(t1, t2, m1, i1);
    NoMatchIsFree(t1 + t2, ms);
    var (i2, w) := FirstMatch(t1 + t2, ms).value;
    assert FirstAt(t1 + t2, ms, i1).Some?;
    var k := FirstAtIndex(t1 + t2, ms, i2);
    assert ms[k] == w;
    AtInPrefix(t1, t2, w, i2);
    if i2 + |w| <= |t1| {
      SameChoice(t1, t2, ms, i1, i2, k);
    } else {
      StraddlingMarker(a, ms, t1, t2, i1, m1, i2, k);
    }
  }

  lemma SameChoice(t1: string, t2: string, ms: seq<string>, i1: nat, i2: nat, k: nat)
    requires NonEmpty(ms) && FirstMatch(t1, ms).Some? && FirstMatch(t1, ms).value.0 == i1
    requires i2 <= i1 && k < |ms| && At(t1, ms[k], i2)
    requires forall j | 0 <= j < k :: !At(t1 + t2, ms[j], i2)
    ensures i1 == i2 && FirstMatch(t1, ms) == Some((i2, ms[k]))
  {
    forall j | 0 <= j < k
      ensures !At(t1, ms[j], i2)
    {
      AtInPrefix(t1, t2, ms[j], i2);
    }
    assert FirstAt(t1, ms, i2).Some?;
    FirstAtIsFirst(t1, ms, i2, k);
  }

  lemma PrefixAt(t: string, c: string, w: string, i: nat)
    requires At(t, w, i) && c <= w
    ensures At(t, c, i)
  {
    assert t[i..i + |c|] == t[i..i + |w|][..|c|];
  }

  lemma Undominated(ms: seq<string>, t: string, i: nat, k: nat)
    requires k < |ms| && At(t, ms[k], i)
    requires forall j | 0 <= j < k :: !At(t, ms[j], i)
    ensures !Dominated(ms, k)
  {
    forall j: nat | j < k
      ensures !(ms[j] <= ms[k])
    {
      if ms[j] <= ms[k] {
        PrefixAt(t, ms[j], ms[k], i);
      }
    }
  }

  /** The whole text's marker `ms[k]` reaches past the first part, which holds the complete marker `m1`. */
  lemma StraddlingMarker(a: Machine, ms: seq<string>, t1: string, t2: string, i1: nat, m1: string, i2: nat, k: nat)
    requires NonEmpty(ms) && StopsFirst(a, ms) && k < |ms| && HarmlessMarker(a, ms, k)
    requires FirstMatch(t1, ms) == Some((i1, m1)) && i2 <= i1
    requires At(t1 + t2, ms[k], i2) && i2 + |ms[k]| > |t1|
    requires forall j | 0 <= j < k :: !At(t1 + t2, ms[j], i2)
    ensures i1 == i2 && a.action(ms[k]).Stop? && a.action(m1).Stop?
  {
    hide At, NothingInside, Dominated;
    var w := ms[k];
    InsideStraddling(t1, t2, w, i2, m1, i1);
    Undominated(ms, t1 + t2, i2, k);
    SomethingInside(ms, w, m1, i1 - i2);
    var c :| c in ms && c != "" && a.action(c).Stop? && c <= w && Free(w[..|c| - 1], ms);
    EndsNoSooner(ms, w, c, m1, i1 - i2);
    PrefixAt(t1 + t2, c, w, i2);
    WithinFirst(t1, m1, i1);
    AtInPrefix(t1, t2, c, i2);
    assert FirstAt(t1, ms, i2).Some?;
    EarlierChoiceStops(a, ms, t1, i1, c);
  }

  lemma WithinFirst(t: string, m: string, i: nat)
    requires At(t, m, i)
    ensures i + |m| <= |t|
  {
  }

  lemma SomethingInside(ms: seq<string>, w: string, m: string, offset: nat)
    requires w != "" && m in ms && At(w[..|w| - 1], m, offset)
    ensures !NothingInside(ms, w)
  {
  }

  /** Inside `w`, no marker is complete before `c` is. */
  lemma EndsNoSooner(ms: seq<string>, w: string, c: string, m: string, offset: nat)
    requires c != "" && c <= w && Free(w[..|c| - 1], ms)
    requires m in ms && At(w[..|w| - 1], m, offset)
    ensures offset + |m| >= |c|
  {
    if offset + |m| < |c| {
      assert w[..|c| - 1][offset..offset + |m|] == w[..|w| - 1][offset..offset + |m|];
      assert At(w[..|c| - 1], m, offset);
    }
  }

  lemma EarlierChoiceStops(a: Machine, ms: seq<string>, t: string, i: nat, c: string)
    requires StopsFirst(a, ms) && c in ms && At(t, c, i) && a.action(c).Stop?
    ensures FirstAt(t, ms, i).Some? && a.action(FirstAt(t, ms, i).value).Stop?
  {
    var k := FirstAtIndex(t, ms, i);
    var kc :| 0 <= kc < |ms| && ms[kc] == c && forall j | 0 <= j < kc :: a.action(ms[j]).Stop?;
  }

  lemma InsideStraddling(t1: string, t2: string, w: string, i2: nat, m1: string, i1: nat)
    requires At(t1 + t2, w, i2) && i2 + |w| > |t1| && i2 <= i1 && At(t1, m1, i1)
    ensures At(w[..|w| - 1], m1, i1 - i2)
  {
    var offset, t := i1 - i2, t1 + t2;
    forall k | 0 <= k < |m1|
      ensures w[offset + k] == m1[k]
    {
      assert w[offset + k] == t[i1 + k] == t1[i1 + k] == t1[i1..i1 + |m1|][k];
    }
    assert w[..|w| - 1][offset..offset + |m1|] == m1;
  }

  lemma SameContinued(a: Machine, x: Scanned, y: Scanned, more: string, final: bool)
    requires Usable(a) && Same(x, y)
    ensures Same(Continued(a, x, more, final), Continued(a, y, more, final))
  {
    hide Scan, Tagged;
    if !x.stopped {
      var second := Scan(a, x.mode, x.pending + more, final);
      TaggedConcat(x.runs, second.runs);
      TaggedConcat(y.runs, second.runs);
    }
  }

  /** Continuing after a marker: the part before it, then the rest continued. */
  lemma ContinuedAfterMarker(a: Machine, mode: Mode, text: string, more: string, final: bool,
                             i: nat, m: string, before: string, rest: string)
    requires Usable(a) && FirstMatch(text, a.markers(mode)) == Some((i, m)) && a.action(m).Go?
    requires before == text[..i] && rest == text[i + |m|..]
    ensures var c := Continued(a, Scan(a, mode, text, false), more, final);
      var inner := Continued(a, Scan(a, a.action(m).mode, rest, false), more, final);
      && Tagged(c.runs) == Tagged(Run(mode, before)) + Tagged(inner.runs)
      && c.mode == inner.mode && c.stopped == inner.stopped && c.pending == inner.pending
  {
    hide Tagged, FirstMatch, Run;
    hide Scan;
    var after := Scan(a, a.action(m).mode, rest, false);
    ScanGoes(a, mode, text, false, i, m);
    TaggedConcat(Run(mode, before), after.runs);
    if !after.stopped {
      var second := Scan(a, after.mode, after.pending + more, final);
      assert Run(mode, before) + after.runs + second.runs == Run(mode, before) + (after.runs + second.runs);
      TaggedConcat(Run(mode, before), after.runs + second.runs);
    }
  }

  /**
    With harmless markers, scanning a text in two parts and scanning it whole give
    the same tagged characters, the same final mode, the same decision to stop and
    the same text held back.
   */
  lemma {:induction false} CutAnywhere(a: Machine, mode: Mode, t1: string, t2: string, final: bool)
    requires Usable(a) && Harmless(a)
    ensures Same(Continued(a, Scan(a, mode, t1, false), t2, final), Scan(a, mode, t1 + t2, final))
    decreases |t1|
  {
    hide Tagged, Run, HarmlessMarker, At;
    var ms := a.markers(mode);
    if FirstMatch(t1, ms).None? {
      CutBeforeMarker(a, mode, t1, t2, final);
    } else {
      var (i, m) := FirstMatch(t1, ms).value;
      MatchSurvives(a, ms, t1, t2);
      WithinFirst(t1, m, i);
      var before, rest := t1[..i], t1[i + |m|..];
      assert before == (t1 + t2)[..i];
      hide FirstMatch;
      if a.action(m).Go? {
        assert rest + t2 == (t1 + t2)[i + |m|..];
        CutAnywhere(a, a.action(m).mode, rest, t2, final);
        ContinuedAfterMarker(a, mode, t1, t2, final, i, m, before, rest);
        ScanAtMarker(a, mode, t1 + t2, final, i, m, before, rest + t2);
      }
    }
  }

  // ----- any number of chunks

  function Join(chunks: seq<string>): string {
    if chunks == [] then "" else chunks[0] + Join(chunks[1..])
  }

  /** Feed chunk after chunk; only the last one may be final. */
  function FedAll(a: Machine, first: Scanned, chunks: seq<string>, final: bool): Scanned
    requires Usable(a)
    decreases |chunks|
  {
    if chunks == [] then first
    else FedAll(a, Continued(a, first, chunks[0], final && |chunks| == 1), chunks[1..], final)
  }

  lemma {:induction false} FedAllSame(a: Machine, x: Scanned, y: Scanned, chunks: seq<string>, final: bool)
    requires Usable(a) && Same(x, y)
    ensures Same(FedAll(a, x, chunks, final), FedAll(a, y, chunks, final))
    decreases |chunks|
  {
    if chunks != [] {
      var last := final && |chunks| == 1;
      SameContinued(a, x, y, chunks[0], last);
      FedAllSame(a, Continued(a, x, chunks[0], last), Continued(a, y, chunks[0], last), chunks[1..], final);
    }
  }

  /** Chunks after a first part give what the first part and their concatenation give. */
  lemma {:induction false} FedAllIsOneCut(a: Machine, mode: Mode, text: string, chunks: seq<string>, final: bool)
    requires Usable(a) && Harmless(a) && chunks != []
    ensures Same(FedAll(a, Scan(a, mode, text, false), chunks, final), Scan(a, mode, text + Join(chunks), final))
    decreases |chunks|
  {
    hide Scan, Same, Continued, Harmless;
    var last := final && |chunks| == 1;
    CutAnywhere(a, mode, text, chunks[0], last);
    var cut := Continued(a, Scan(a, mode, text, false), chunks[0], last);
    if |chunks| == 1 {
      assert Join(chunks) == chunks[0] + "" == chunks[0];
      assert FedAll(a, cut, chunks[1..], final) == cut;
    } else {
      var whole := Scan(a, mode, text + chunks[0], false);
      FedAllSame(a, cut, whole, chunks[1..], final);
      FedAllIsOneCut(a, mode, text + chunks[0], chunks[1..], final);
      assert text + chunks[0] + Join(chunks[1..]) == text + Join(chunks);
      SameIsTransitive(FedAll(a, cut, chunks[1..], final), FedAll(a, whole, chunks[1..], final),
                       Scan(a, mode, text + Join(chunks), final));
    }
  }

  lemma SameIsTransitive(x: Scanned, y: Scanned, z: Scanned)
    requires Same(x, y) && Same(y, z)
    ensures Same(x, z)
  {
  }

  /** However a text is cut into chunks, feeding them gives what scanning it whole gives. */
  lemma ChunkingDoesNotMatter(a: Machine, mode: Mode, chunks: seq<string>, final: bool)
    requires Usable(a) && Harmless(a) && chunks != []
    ensures Same(FedAll(a, Scanned([], mode, false, ""), chunks, final), Scan(a, mode, Join(chunks), final))
  {
    NothingInEmpty(a, mode);
    FedAllIsOneCut(a, mode, "", chunks, final);
    assert "" + Join(chunks) == Join(chunks);
  }

  lemma NothingInEmpty(a: Machine, mode: Mode)
    requires Usable(a)
    ensures Scan(a, mode, "", false) == Scanned([], mode, false, "")
  {
  }

  // ----- one round of the splitting loop

  lemma RoundEnds(a: Machine, mode: Mode, text: string, final: bool, runs: seq<(Mode, string)>)
    requires Usable(a) && FirstMatch(text, a.markers(mode)).None?
    ensures var end := |text| - if final then 0 else Keep(text, a.markers(mode));
      After(runs, Scan(a, mode, text, final)) == Scanned(runs + Run(mode, text[..end]), mode, false, text[end..])
  {
  }

  lemma RoundStops(a: Machine, mode: Mode, text: string, final: bool, runs: seq<(Mode, string)>, i: nat, m: string)
    requires Usable(a) && FirstMatch(text, a.markers(mode)) == Some((i, m)) && a.action(m).Stop?
    ensures i <= |text| && After(runs, Scan(a, mode, text, final)) == Scanned(runs + Run(mode, text[..i]), mode, true, "")
  {
    hide Scan, FirstMatch;
    ScanStops(a, mode, text, final, i, m);
  }

  lemma RoundGoesOn(a: Machine, mode: Mode, text: string, final: bool, runs: seq<(Mode, string)>, i: nat, m: string)
    requires Usable(a) && FirstMatch(text, a.markers(mode)) == Some((i, m)) && a.action(m).Go?
    ensures i + |m| <= |text| && m != ""
    ensures After(runs, Scan(a, mode, text, final))
         == After(runs + Run(mode, text[..i]), Scan(a, a.action(m).mode, text[i + |m|..], final))
  {
    hide Scan, FirstMatch;
    ScanGoes(a, mode, text, final, i, m);
    Associative(runs, Run(mode, text[..i]), Scan(a, a.action(m).mode, text[i + |m|..], final).runs);
  }

  lemma NothingLeft(a: Machine, mode: Mode, final: bool, runs: seq<(Mode, string)>)
    requires Usable(a)
    ensures After(runs, Scan(a, mode, "", final)) == Scanned(runs, mode, false, "")
  {
    assert runs + [] == runs;
  }
}
