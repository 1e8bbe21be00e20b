/**
  What a split text emits between two consumed markers: no marker, for any set of
  markers and however the text was cut, and nothing is lost or invented.
 */
module StreamSegments {
  import opened Options
  import opened StreamSplitter

  /** The text emitted in one mode up to a consumed marker. */
  datatype Segment = Segment(mode: Mode, text: string, marker: string)

  /** The segments a scan closes, the last one prefixed with `carry`, and the one it leaves open. */
  function Segments(a: Machine, mode: Mode, carry: string, text: string, final: bool): (seq<Segment>, string)
    requires Usable(a)
    decreases |text|
  {
    var found := FirstMatch(text, a.markers(mode));
    if found.None? then
      ([], carry + text[..|text| - if final then 0 else Keep(text, a.markers(mode))])
    else
      var (i, m) := found.value;
      var closed := Segment(mode, carry + text[..i], m);
      if a.action(m).Stop? then ([closed], "")
      else
        var (rest, open) := Segments(a, a.action(m).mode, "", text[i + |m|..], final);
        ([closed] + rest, open)
  }

  function Reassembled(segments: seq<Segment>): string {
    if segments == [] then "" else segments[0].text + segments[0].marker + Reassembled(segments[1..])
  }

  /** Characters written in one mode. */
  function Written(mode: Mode, text: string): seq<(Mode, char)> {
    Tagged(Run(mode, text))
  }

  function Texts(segments: seq<Segment>): seq<(Mode, char)> {
    if segments == [] then [] else Written(segments[0].mode, segments[0].text) + Texts(segments[1..])
  }

  /** `pending` is what an open segment holds back: the longest end that could start a marker. */
  ghost predicate Held(segment: string, pending: string, ms: seq<string>) {
    Free(segment + pending, ms) && Keep(segment + pending, ms) == |pending|
  }

  lemma FreeOfCarried(carry: string, pending: string, chunk: string, ms: seq<string>, i: nat)
    requires Held(carry, pending, ms) && i <= |pending + chunk|
    requires forall j: nat, m | j < i && m in ms :: !At(pending + chunk, m, j)
    requires NonEmpty(ms)
    ensures Free(carry + (pending + chunk)[..i], ms)
  {
    var before := carry + (pending + chunk)[..i];
    var whole := carry + (pending + chunk);
    assert whole == before + (pending + chunk)[i..];
    assert whole == carry + pending + chunk;
    forall j: nat, m | m in ms
      ensures !At(before, m, j)
    {
      if At(before, m, j) {
        AtInPrefix(before, (pending + chunk)[i..], m, j);
        OccurrenceStartsInKept(carry + pending, chunk, ms, m, j);
        AtShifted(carry, pending + chunk, m, j - |carry|);
      }
    }
  }

  /** No closed segment contains a marker, nor does the open one, which is held correctly. */
  ghost predicate Clean(a: Machine, closed: seq<Segment>, open: string, scanned: Scanned, final: bool) {
    && (forall s | s in closed :: Free(s.text, a.markers(s.mode)))
    && (!scanned.stopped ==> Free(open, a.markers(scanned.mode)))
    && (!scanned.stopped && !final ==> Held(open, scanned.pending, a.markers(scanned.mode)))
  }

  lemma CleanAtEnd(a: Machine, mode: Mode, carry: string, pending: string, chunk: string, final: bool)
    requires Usable(a) && Held(carry, pending, a.markers(mode))
    requires FirstMatch(pending + chunk, a.markers(mode)).None?
    ensures var (closed, open) := Segments(a, mode, carry, pending + chunk, final);
      Clean(a, closed, open, Scan(a, mode, pending + chunk, final), final)
  {
    hide At, FirstMatch;
    var ms, text := a.markers(mode), pending + chunk;
    NoMatchIsFree(text, ms);
    FreeOfCarried(carry, pending, chunk, ms, |text|);
    assert text[..|text|] == text;
    Associative(carry, pending, chunk);
    assert (carry + pending)[|carry|..] == pending;
    KeepOfKept(carry + pending, chunk, ms);
    var end := |text| - if final then 0 else Keep(text, ms);
    assert text[..end] + text[end..] == text;
    Associative(carry, text[..end], text[end..]);
    FreePrefix(carry + text[..end], text[end..], ms);
  }

  lemma CleanAtMarker(a: Machine, mode: Mode, carry: string, pending: string, chunk: string)
    requires Usable(a) && Held(carry, pending, a.markers(mode))
    requires FirstMatch(pending + chunk, a.markers(mode)).Some?
    ensures Free(carry + (pending + chunk)[..FirstMatch(pending + chunk, a.markers(mode)).value.0], a.markers(mode))
  {
    var ms, text := a.markers(mode), pending + chunk;
    var i := FirstMatch(text, ms).value.0;
    forall j: nat, other | j < i && other in ms
      ensures !At(text, other, j)
    {
      assert FirstAt(text, ms, j).None?;
    }
    FreeOfCarried(carry, pending, chunk, ms, i);
  }

  /**
    No text emitted between two consumed markers contains a marker, for any set of
    markers and however the text was cut; and what stays open is held correctly.
   */
  lemma {:induction false} SegmentsAreFree(a: Machine, mode: Mode, carry: string, pending: string, chunk: string, final: bool)
    requires Usable(a) && Held(carry, pending, a.markers(mode))
    ensures var (closed, open) := Segments(a, mode, carry, pending + chunk, final);
      Clean(a, closed, open, Scan(a, mode, pending + chunk, final), final)
    decreases |pending + chunk|
  {
    hide Keep, FirstMatch, Free, Run, Held;
    var text := pending + chunk;
    var found := FirstMatch(text, a.markers(mode));
    if found.None? {
      CleanAtEnd(a, mode, carry, pending, chunk, final);
    } else {
      var (i, m) := found.value;
      CleanAtMarker(a, mode, carry, pending, chunk);
      if a.action(m).Go? {
        var rest := text[i + |m|..];
        assert "" + rest == rest;
        HeldNothing(a.markers(a.action(m).mode));
        SegmentsAreFree(a, a.action(m).mode, "", "", rest, final);
      }
    }
  }

  lemma HeldNothing(ms: seq<string>)
    requires NonEmpty(ms)
    ensures Held("", "", ms)
  {
    assert "" + "" == "";
  }

  lemma FreePrefix(e: string, r: string, ms: seq<string>)
    requires Free(e + r, ms)
    ensures Free(e, ms)
  {
    forall i: nat, m | m in ms
      ensures !At(e, m, i)
    {
      AtInPrefix(e, r, m, i);
    }
  }

  /** Scan and segments of a text whose first marker `m` switches the mode. */
  lemma SwitchAtMarker(a: Machine, mode: Mode, carry: string, text: string, final: bool,
                       i: nat, m: string, before: string, rest: string)
    requires Usable(a) && FirstMatch(text, a.markers(mode)) == Some((i, m)) && a.action(m).Go?
    requires before == text[..i] && rest == text[i + |m|..]
    ensures text == before + m + rest
    ensures var (closed, open) := Segments(a, mode, carry, text, final);
      var (closed', open') := Segments(a, a.action(m).mode, "", rest, final);
      && Texts(closed) == Written(mode, carry) + Written(mode, before) + Texts(closed')
      && Reassembled(closed) == carry + before + m + Reassembled(closed')
      && open == open'
    ensures var scanned, after := Scan(a, mode, text, final), Scan(a, a.action(m).mode, rest, final);
      && Tagged(scanned.runs) == Written(mode, before) + Tagged(after.runs)
      && scanned.mode == after.mode && scanned.stopped == after.stopped && scanned.pending == after.pending
  {
    hide FirstMatch, Keep, Tagged, Run, Scan;
    ScanGoes(a, mode, text, final, i, m);
    var closed := Segments(a, a.action(m).mode, "", rest, final).0;
    assert ([Segment(mode, carry + before, m)] + closed)[1..] == closed;
    TaggedConcat(Run(mode, before), Scan(a, a.action(m).mode, rest, final).runs);
    TaggedRun(mode, carry, before);
  }

  /** A scan that switches no mode leaves at most one segment, and loses nothing. */
  ghost predicate Conserves(closed: seq<Segment>, open: string, scanned: Scanned, mode: Mode, carry: string, text: string) {
    && Written(mode, carry) + Tagged(scanned.runs) == Texts(closed) + Written(scanned.mode, open)
    && (!scanned.stopped ==> Reassembled(closed) + open + scanned.pending == carry + text)
    && (scanned.stopped ==> Reassembled(closed) <= carry + text)
  }

  lemma LastSegment(a: Machine, mode: Mode, carry: string, text: string, final: bool)
    requires Usable(a) && FirstMatch(text, a.markers(mode)).None?
    ensures var (closed, open) := Segments(a, mode, carry, text, final);
      Conserves(closed, open, Scan(a, mode, text, final), mode, carry, text)
  {
    hide FirstMatch, Keep, Tagged, Run;
    var end := |text| - if final then 0 else Keep(text, a.markers(mode));
    TaggedRun(mode, carry, text[..end]);
    NoTexts();
    assert text == text[..end] + text[end..];
    Associative(carry, text[..end], text[end..]);
  }

  lemma StoppedSegment(a: Machine, mode: Mode, carry: string, text: string, final: bool, i: nat, m: string)
    requires Usable(a) && FirstMatch(text, a.markers(mode)) == Some((i, m)) && a.action(m).Stop?
    ensures var (closed, open) := Segments(a, mode, carry, text, final);
      Conserves(closed, open, Scan(a, mode, text, final), mode, carry, text)
  {
    hide FirstMatch, Keep, Tagged, Run, Scan;
    ScanStops(a, mode, text, final, i, m);
    TaggedRun(mode, carry, text[..i]);
    NothingWritten(mode);
    OneSegment(Segment(mode, carry + text[..i], m));
    assert text == text[..i] + m + text[i + |m|..];
    assert carry + text == carry + text[..i] + m + text[i + |m|..];
  }

  lemma NothingWritten(mode: Mode)
    ensures Written(mode, "") == []
  {
  }

  lemma NoTexts()
    ensures Texts([]) == [] && Reassembled([]) == ""
  {
  }

  lemma OneSegment(s: Segment)
    ensures Texts([s]) == Written(s.mode, s.text) && Reassembled([s]) == s.text + s.marker
  {
    assert [s][1..] == [];
    assert Written(s.mode, s.text) + [] == Written(s.mode, s.text);
    assert s.text + s.marker + "" == s.text + s.marker;
  }

  /** What is emitted is exactly the text of the segments, each in its own mode. */
  lemma {:induction false} SegmentsAreEmitted(a: Machine, mode: Mode, carry: string, text: string, final: bool)
    requires Usable(a)
    ensures var (closed, open) := Segments(a, mode, carry, text, final);
      var scanned := Scan(a, mode, text, final);
      Written(mode, carry) + Tagged(scanned.runs) == Texts(closed) + Written(scanned.mode, open)
    decreases |text|
  {
    hide Scan, Segments, Texts, Tagged, Run, FirstMatch;
    var found := FirstMatch(text, a.markers(mode));
    if found.Some? && a.action(found.value.1).Go? {
      var (i, m) := found.value;
      var before, rest := text[..i], text[i + |m|..];
      SwitchAtMarker(a, mode, carry, text, final, i, m, before, rest);
      var next := a.action(m).mode;
      SegmentsAreEmitted(a, next, "", rest, final);
      NothingWritten(next);
      var (closed, open) := Segments(a, next, "", rest, final);
      var after := Scan(a, next, rest, final);
      assert [] + Tagged(after.runs) == Tagged(after.runs);
      Associative(Written(mode, carry), Written(mode, before), Tagged(after.runs));
      Associative(Written(mode, carry) + Written(mode, before), Texts(closed), Written(after.mode, open));
    } else if found.Some? {
      StoppedSegment(a, mode, carry, text, final, found.value.0, found.value.1);
    } else {
      LastSegment(a, mode, carry, text, final);
    }
  }

  /** Emitted segments, consumed markers and held-back text reassemble the input. */
  lemma {:induction false} SegmentsReassemble(a: Machine, mode: Mode, carry: string, text: string, final: bool)
    requires Usable(a)
    ensures var (closed, open) := Segments(a, mode, carry, text, final);
      var scanned := Scan(a, mode, text, final);
      && (!scanned.stopped ==> Reassembled(closed) + open + scanned.pending == carry + text)
      && (scanned.stopped ==> Reassembled(closed) <= carry + text)
    decreases |text|
  {
    hide Scan, Segments, Reassembled, FirstMatch;
    var found := FirstMatch(text, a.markers(mode));
    if found.Some? && a.action(found.value.1).Go? {
      var (i, m) := found.value;
      var before, rest := text[..i], text[i + |m|..];
      SwitchAtMarker(a, mode, carry, text, final, i, m, before, rest);
      SegmentsReassemble(a, a.action(m).mode, "", rest, final);
      var (closed, open) := Segments(a, a.action(m).mode, "", rest, final);
      PrependHead(carry, text, before, m, rest, Reassembled(closed), open, Scan(a, a.action(m).mode, rest, final));
    } else if found.Some? {
      StoppedSegment(a, mode, carry, text, final, found.value.0, found.value.1);
    } else {
      LastSegment(a, mode, carry, text, final);
    }
  }

  lemma PrependHead(carry: string, text: string, before: string, m: string, rest: string,
                    closed: string, open: string, scanned: Scanned)
    requires text == before + m + rest
    requires !scanned.stopped ==> closed + open + scanned.pending == "" + rest
    requires scanned.stopped ==> closed <= "" + rest
    ensures !scanned.stopped ==> carry + before + m + closed + open + scanned.pending == carry + text
    ensures scanned.stopped ==> carry + before + m + closed <= carry + text
  {
    var head := carry + before + m;
    assert carry + text == head + rest;
    assert "" + rest == rest;
    if !scanned.stopped {
      Associative(head, closed, open);
      Associative(head, closed + open, scanned.pending);
    } else {
      assert rest == closed + rest[|closed|..];
      Associative(head, closed, rest[|closed|..]);
    }
  }

  // ----- any number of chunks

  /** Segments closed while the chunks are fed one after another, and the one left open. */
  function FedSegments(a: Machine, first: Scanned, carry: string, chunks: seq<string>, final: bool): (seq<Segment>, string)
    requires Usable(a)
    decreases |chunks|
  {
    if chunks == [] || first.stopped then ([], carry)
    else
      var last := final && |chunks| == 1;
      var (closed, open) := Segments(a, first.mode, carry, first.pending + chunks[0], last);
      var (more, open') := FedSegments(a, Continued(a, first, chunks[0], last), open, chunks[1..], final);
      (closed + more, open')
  }

  lemma {:induction false} FedWhenStopped(a: Machine, first: Scanned, chunks: seq<string>, final: bool)
    requires Usable(a) && first.stopped
    ensures FedAll(a, first, chunks, final) == first
    decreases |chunks|
  {
    if chunks != [] {
      FedWhenStopped(a, first, chunks[1..], final);
    }
  }

  /** Whatever the markers and however the text was cut, no emitted segment contains a marker of its mode. */
  lemma {:induction false} ChunksAreClean(a: Machine, first: Scanned, carry: string, chunks: seq<string>, final: bool)
    requires Usable(a) && !first.stopped && Held(carry, first.pending, a.markers(first.mode))
    ensures var (closed, open) := FedSegments(a, first, carry, chunks, final);
      var end := FedAll(a, first, chunks, final);
      && (forall s | s in closed :: Free(s.text, a.markers(s.mode)))
      && (!end.stopped ==> Free(open, a.markers(end.mode)))
    decreases |chunks|
  {
    hide Scan, Segments, Free;
    if chunks == [] {
      FreeCarry(carry, first.pending, a.markers(first.mode));
    } else {
      var last := final && |chunks| == 1;
      SegmentsAreFree(a, first.mode, carry, first.pending, chunks[0], last);
      var next := Continued(a, first, chunks[0], last);
      var open := Segments(a, first.mode, carry, first.pending + chunks[0], last).1;
      if next.stopped {
        FedWhenStopped(a, next, chunks[1..], final);
      } else if last {
        assert chunks[1..] == [];
      } else {
        ChunksAreClean(a, next, open, chunks[1..], final);
      }
    }
  }

  lemma FreeCarry(carry: string, pending: string, ms: seq<string>)
    requires Held(carry, pending, ms)
    ensures Free(carry, ms)
  {
    FreePrefix(carry, pending, ms);
  }

  /**
    However the text was cut, the emitted segments with the consumed markers between
    them and the text held back reassemble what was fed; once a stop was found they
    are a prefix of it.
   */
  lemma {:induction false} ChunksReassemble(a: Machine, first: Scanned, carry: string, chunks: seq<string>, final: bool)
    requires Usable(a) && !first.stopped
    ensures var (closed, open) := FedSegments(a, first, carry, chunks, final);
      var end, fed := FedAll(a, first, chunks, final), carry + first.pending + Join(chunks);
      && (!end.stopped ==> Reassembled(closed) + open + end.pending == fed)
      && (end.stopped ==> Reassembled(closed) <= fed)
    decreases |chunks|
  {
    hide Scan, Segments, Reassembled;
    if chunks == [] {
      NoTexts();
      assert "" + carry == carry;
      assert carry + first.pending + "" == carry + first.pending;
    } else {
      var last := final && |chunks| == 1;
      var text := first.pending + chunks[0];
      SegmentsReassemble(a, first.mode, carry, text, last);
      var next := Continued(a, first, chunks[0], last);
      var (closed, open) := Segments(a, first.mode, carry, text, last);
      var (more, open') := FedSegments(a, next, open, chunks[1..], final);
      assert carry + first.pending + Join(chunks) == carry + text + Join(chunks[1..]);
      ReassembledConcat(closed, more);
      if next.stopped {
        FedWhenStopped(a, next, chunks[1..], final);
        assert closed + [] == closed;
      } else {
        ChunksReassemble(a, next, open, chunks[1..], final);
        var end := FedAll(a, next, chunks[1..], final);
        JoinParts(Reassembled(closed), open, next.pending, Join(chunks[1..]), Reassembled(more), open', end);
      }
    }
  }

  lemma JoinParts(closed: string, open: string, pending: string, tail: string, more: string, open': string, end: Scanned)
    requires !end.stopped ==> more + open' + end.pending == open + pending + tail
    requires end.stopped ==> more <= open + pending + tail
    ensures !end.stopped ==> closed + more + open' + end.pending == closed + open + pending + tail
    ensures end.stopped ==> closed + more <= closed + open + pending + tail
  {
    assert closed + open + pending + tail == closed + (open + pending + tail);
    if !end.stopped {
      assert closed + more + open' + end.pending == closed + (more + open' + end.pending);
    } else {
      var rest := (open + pending + tail)[|more|..];
      assert closed + (open + pending + tail) == closed + more + rest;
    }
  }

  lemma {:induction false} ReassembledConcat(x: seq<Segment>, y: seq<Segment>)
    ensures Reassembled(x + y) == Reassembled(x) + Reassembled(y)
  {
    if x == [] {
      assert x + y == y;
      assert "" + Reassembled(y) == Reassembled(y);
    } else {
      ReassembledConcat(x[1..], y);
      assert (x + y)[1..] == x[1..] + y;
      Associative(x[0].text + x[0].marker, Reassembled(x[1..]), Reassembled(y));
    }
  }

  /** What was emitted over all chunks is the text of the segments, each in its own mode, nothing twice. */
  lemma {:induction false} ChunksAreEmitted(a: Machine, first: Scanned, prior: seq<(Mode, char)>, carry: string,
                                            chunks: seq<string>, final: bool)
    requires Usable(a) && !first.stopped && Tagged(first.runs) == prior + Written(first.mode, carry)
    ensures var (closed, open) := FedSegments(a, first, carry, chunks, final);
      var end := FedAll(a, first, chunks, final);
      Tagged(end.runs) == prior + Texts(closed) + Written(end.mode, open)
    decreases |chunks|
  {
    hide Scan, Segments, Texts, Tagged, Run;
    if chunks == [] {
      NoTexts();
      assert prior + [] == prior;
    } else {
      var last := final && |chunks| == 1;
      var text := first.pending + chunks[0];
      SegmentsAreEmitted(a, first.mode, carry, text, last);
      var next := Continued(a, first, chunks[0], last);
      var (closed, open) := Segments(a, first.mode, carry, text, last);
      var runs := Scan(a, first.mode, text, last).runs;
      TaggedConcat(first.runs, runs);
      Associative(prior, Written(first.mode, carry), Tagged(runs));
      Associative(prior, Texts(closed), Written(next.mode, open));
      var (more, open') := FedSegments(a, next, open, chunks[1..], final);
      TextsConcat(closed, more);
      Associative(prior, Texts(closed), Texts(more));
      if next.stopped {
        FedWhenStopped(a, next, chunks[1..], final);
        assert closed + [] == closed;
      } else {
        ChunksAreEmitted(a, next, prior + Texts(closed), open, chunks[1..], final);
      }
    }
  }

  lemma {:induction false} TextsConcat(x: seq<Segment>, y: seq<Segment>)
    ensures Texts(x + y) == Texts(x) + Texts(y)
  {
    if x == [] {
      assert x + y == y;
      assert [] + Texts(y) == Texts(y);
    } else {
      TextsConcat(x[1..], y);
      assert (x + y)[1..] == x[1..] + y;
      Associative(Written(x[0].mode, x[0].text), Texts(x[1..]), Texts(y));
    }
  }
}
