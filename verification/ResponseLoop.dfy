/**
  The response loop over a streamed generation: every item is split by the output text,
  counts its new tokens once, and ends the answer with one finish reason.
 */
module ResponseLoop {
  import opened Options
  import opened StreamSplitter
  import StreamSegments
  import OutputText

  /** What the generator yields, and whether a stop was requested by then. */
  datatype Item = Item(text: string, finish: Option<string>, generated: nat, stopRequested: bool)

  /** One part of the answer. */
  datatype Part = Part(state: Mode, text: string, tokens: nat, finish: Option<string>)

  function Grown(generated: nat, count: nat): nat {
    if generated > count then generated - count else 0
  }

  function Last(reason: Option<string>, i: nat, n: nat): Option<string> {
    if i + 1 == n then reason else None
  }

  /** The runs of one item as parts: the first has its tokens, the last its reason; with no run one empty part has both. */
  function PartsOf(runs: seq<(Mode, string)>, state: Mode, tokens: nat, reason: Option<string>): (parts: seq<Part>)
    ensures |parts| == if runs == [] then 1 else |runs|
  {
    var shown := if runs == [] then [(state, "")] else runs;
    seq(|shown|, i requires 0 <= i < |shown| =>
      Part(shown[i].0, shown[i].1, if i == 0 then tokens else 0, Last(reason, i, |shown|)))
  }

  function ReasonOf(stopped: bool, item: Item): Option<string> {
    if stopped then Some("stop") else item.finish
  }

  /** One item after a scan that did not stop. */
  function Step(a: Machine, x: Scanned, item: Item): Scanned
    requires Usable(a)
  {
    Scan(a, x.mode, x.pending + item.text, item.finish.Some?)
  }

  /** The answer to the items, from a state of the text and a number of tokens on. */
  function Answer(a: Machine, x: Scanned, count: nat, items: seq<Item>): (seq<Part>, Scanned)
    requires Usable(a)
    decreases |items|
  {
    if items == [] || items[0].stopRequested || x.stopped then ([], x)
    else
      var next := Step(a, x, items[0]);
      var parts := PartsOf(next.runs, next.mode, Grown(items[0].generated, count), ReasonOf(next.stopped, items[0]));
      var (rest, end) := Answer(a, next, items[0].generated, items[1..]);
      (parts + rest, end)
  }

  /** The loop gives exactly that answer, and leaves the text in that state. */
  method Respond(output: OutputText.OutputText, items: seq<Item>) returns (parts: seq<Part>)
    requires output.Valid() && !output.stopped
    modifies output
    ensures output.Valid()
    ensures var (answer, end) := Answer(output.Machine(), Scanned([], old(output.state), false, old(output.pending)), 0, items);
      && parts == answer
      && output.state == end.mode && output.stopped == end.stopped && output.pending == end.pending
  {
    hide Scan, PartsOf, Answer, ReasonOf;
    parts := [];
    var count := 0;
    var i := 0;
    ghost var a, start := output.Machine(), Scanned([], output.state, false, output.pending);
    ghost var x := start;
    assert items[0..] == items && [] + Answer(a, start, 0, items).0 == Answer(a, start, 0, items).0;
    while i < |items| && !items[i].stopRequested && !output.stopped
      invariant 0 <= i <= |items| && a == output.Machine()
      invariant output.state == x.mode && output.stopped == x.stopped && output.pending == x.pending
      invariant Answer(a, start, 0, items)
        == (parts + Answer(a, x, count, items[i..]).0, Answer(a, x, count, items[i..]).1)
    {
      var item := items[i];
      var added := Grown(item.generated, count);
      var runs := output.Feed(item.text, item.finish.Some?);
      var reason := if output.stopped then Some("stop") else item.finish;
      AnswerGoesOn(a, x, count, items, i, parts);
      parts := parts + PartsOf(runs, output.state, added, reason);
      x := Step(a, x, item);
      count := item.generated;
      i := i + 1;
    }
    AnswerEnds(a, x, count, items, i, parts);
  }

  lemma AnswerGoesOn(a: Machine, x: Scanned, count: nat, items: seq<Item>, i: nat, parts: seq<Part>)
    requires Usable(a) && i < |items| && !items[i].stopRequested && !x.stopped
    ensures var next := Step(a, x, items[i]);
      var added := PartsOf(next.runs, next.mode, Grown(items[i].generated, count),
                           if next.stopped then Some("stop") else items[i].finish);
      var now, later := Answer(a, x, count, items[i..]), Answer(a, next, items[i].generated, items[i + 1..]);
      parts + now.0 == parts + added + later.0 && now.1 == later.1
  {
    hide Step, PartsOf;
    assert items[i..][1..] == items[i + 1..];
  }

  lemma AnswerEnds(a: Machine, x: Scanned, count: nat, items: seq<Item>, i: nat, parts: seq<Part>)
    requires Usable(a) && i <= |items| && (i == |items| || items[i].stopRequested || x.stopped)
    ensures Answer(a, x, count, items[i..]) == ([], x) && parts + [] == parts
  {
  }

  // ----- the text of the answer

  function RunsOf(parts: seq<Part>): (runs: seq<(Mode, string)>)
    ensures |runs| == |parts|
  {
    seq(|parts|, i requires 0 <= i < |parts| => (parts[i].state, parts[i].text))
  }

  function Texts(items: seq<Item>): (texts: seq<string>)
    ensures |texts| == |items|
  {
    seq(|items|, i requires 0 <= i < |items| => items[i].text)
  }

  /** The items up to the first that finds a stop requested. */
  function Reached(items: seq<Item>): (reached: seq<Item>)
    ensures reached <= items && forall item | item in reached :: !item.stopRequested
  {
    if items == [] || items[0].stopRequested then [] else [items[0]] + Reached(items[1..])
  }

  /** Only the last item may end the generation. */
  predicate OnlyLastFinishes(items: seq<Item>) {
    forall k | 0 <= k < |items| - 1 :: items[k].finish.None?
  }

  predicate Finishes(items: seq<Item>) {
    items != [] && items[|items| - 1].finish.Some?
  }

  lemma PartsShowTheRuns(runs: seq<(Mode, string)>, state: Mode, tokens: nat, reason: Option<string>)
    ensures Tagged(RunsOf(PartsOf(runs, state, tokens, reason))) == Tagged(runs)
  {
    var parts := PartsOf(runs, state, tokens, reason);
    if runs == [] {
      assert RunsOf(parts) == [(state, "")] && [(state, "")][1..] == [];
    } else {
      forall i | 0 <= i < |runs|
        ensures RunsOf(parts)[i] == runs[i]
      {
        assert parts[i].state == runs[i].0 && parts[i].text == runs[i].1;
      }
      assert RunsOf(parts) == runs;
    }
  }

  lemma {:induction false} AnswerShowsTheFed(a: Machine, x: Scanned, runs: seq<(Mode, string)>, count: nat, items: seq<Item>)
    requires Usable(a) && OnlyLastFinishes(Reached(items))
    ensures var (parts, end) := Answer(a, x, count, items);
      Same(end.(runs := runs + RunsOf(parts)),
           FedAll(a, x.(runs := runs), Texts(Reached(items)), Finishes(Reached(items))))
    decreases |items|
  {
    hide Scan, Tagged, PartsOf, OnlyLastFinishes, Finishes, ReasonOf;
    var reached := Reached(items);
    assert Texts([]) == [];
    if x.stopped {
      StreamSegments.FedWhenStopped(a, x.(runs := runs), Texts(reached), Finishes(reached));
      assert runs + [] == runs;
    } else if reached == [] {
      assert runs + [] == runs;
    } else {
      var item, rest := items[0], items[1..];
      var next := Step(a, x, item);
      FedStep(a, x, runs, items);
      var parts := PartsOf(next.runs, next.mode, Grown(item.generated, count), ReasonOf(next.stopped, item));
      var more := Answer(a, next, item.generated, rest).0;
      AnswerShowsTheFed(a, next, runs + next.runs, item.generated, rest);
      PartsShowTheRuns(next.runs, next.mode, Grown(item.generated, count), ReasonOf(next.stopped, item));
      assert RunsOf(parts + more) == RunsOf(parts) + RunsOf(more);
      SameTags(runs, next.runs, RunsOf(parts), RunsOf(more));
    }
  }

  lemma SameTags(runs: seq<(Mode, string)>, x: seq<(Mode, string)>, y: seq<(Mode, string)>, more: seq<(Mode, string)>)
    requires Tagged(x) == Tagged(y)
    ensures Tagged(runs + (y + more)) == Tagged(runs + x + more)
  {
    hide Tagged;
    TaggedConcat(runs, y + more);
    TaggedConcat(y, more);
    TaggedConcat(runs, x);
    TaggedConcat(runs + x, more);
  }

  lemma FedStep(a: Machine, x: Scanned, runs: seq<(Mode, string)>, items: seq<Item>)
    requires Usable(a) && !x.stopped && Reached(items) != [] && OnlyLastFinishes(Reached(items))
    ensures var next := Step(a, x, items[0]);
      && OnlyLastFinishes(Reached(items[1..]))
      && FedAll(a, x.(runs := runs), Texts(Reached(items)), Finishes(Reached(items)))
         == FedAll(a, next.(runs := runs + next.runs), Texts(Reached(items[1..])), Finishes(Reached(items[1..])))
  {
    hide Scan, Reached, OnlyLastFinishes, Finishes, FedAll;
    var reached, rest := Reached(items), Reached(items[1..]);
    ReachedStep(items);
    FedAllStep(a, x.(runs := runs), items[0].text, Texts(rest), Finishes(reached));
    if rest == [] {
      FedNothing(a, Step(a, x, items[0]).(runs := runs + Step(a, x, items[0]).runs), Finishes(reached), Finishes(rest));
    }
  }

  lemma FedAllStep(a: Machine, x: Scanned, text: string, rest: seq<string>, final: bool)
    requires Usable(a)
    ensures FedAll(a, x, [text] + rest, final) == FedAll(a, Continued(a, x, text, final && rest == []), rest, final)
  {
    hide Continued;
    assert ([text] + rest)[1..] == rest;
  }

  lemma FedNothing(a: Machine, x: Scanned, final: bool, other: bool)
    requires Usable(a)
    ensures FedAll(a, x, [], final) == FedAll(a, x, [], other)
  {
  }

  lemma ReachedStep(items: seq<Item>)
    requires Reached(items) != [] && OnlyLastFinishes(Reached(items))
    ensures var reached, rest := Reached(items), Reached(items[1..]);
      && OnlyLastFinishes(rest) && Texts(reached) == [items[0].text] + Texts(rest)
      && (rest == [] ==> Finishes(reached) == items[0].finish.Some?)
      && (rest != [] ==> items[0].finish.None? && Finishes(reached) == Finishes(rest))
  {
    hide OnlyLastFinishes;
    FirstAndRest(items[0], Reached(items[1..]));
  }

  lemma FirstAndRest(item: Item, rest: seq<Item>)
    ensures Texts([item] + rest) == [item.text] + Texts(rest)
    ensures OnlyLastFinishes([item] + rest) ==> OnlyLastFinishes(rest) && (rest != [] ==> item.finish.None?)
    ensures Finishes([item] + rest) == if rest == [] then item.finish.Some? else Finishes(rest)
  {
    var all := [item] + rest;
    assert Texts(all) == [item.text] + Texts(rest);
    assert all[0] == item && forall k | 0 <= k < |rest| :: all[k + 1] == rest[k];
    if OnlyLastFinishes(all) {
      forall k | 0 <= k < |rest| - 1
        ensures rest[k].finish.None?
      {
        assert all[k + 1].finish.None?;
      }
    }
  }

  /**
    With harmless stops the answer shows what scanning the whole text shows, up to the item
    that found a stop requested, however the text was cut into items.
   */
  lemma AnswerShowsTheWhole(a: Machine, mode: Mode, items: seq<Item>)
    requires Usable(a) && Harmless(a) && OnlyLastFinishes(Reached(items)) && Reached(items) != []
    ensures var (parts, end) := Answer(a, Scanned([], mode, false, ""), 0, items);
      Same(end.(runs := RunsOf(parts)), Scan(a, mode, Join(Texts(Reached(items))), Finishes(Reached(items))))
  {
    hide Scan, Harmless, Answer, Same;
    var x := Scanned([], mode, false, "");
    var (parts, end) := Answer(a, x, 0, items);
    var texts, final := Texts(Reached(items)), Finishes(Reached(items));
    AnswerShowsTheFed(a, x, [], 0, items);
    assert [] + RunsOf(parts) == RunsOf(parts);
    ChunkingDoesNotMatter(a, mode, texts, final);
    SameIsTransitive(end.(runs := RunsOf(parts)), FedAll(a, x, texts, final), Scan(a, mode, Join(texts), final));
  }

  // ----- tokens and reasons

  /** How many items the answer takes in. */
  function Consumed(a: Machine, x: Scanned, items: seq<Item>): (n: nat)
    requires Usable(a)
    ensures n <= |items|
    decreases |items|
  {
    if items == [] || items[0].stopRequested || x.stopped then 0 else 1 + Consumed(a, Step(a, x, items[0]), items[1..])
  }

  function Total(parts: seq<Part>): nat {
    if parts == [] then 0 else parts[0].tokens + Total(parts[1..])
  }

  /** The generator counts its tokens up. */
  predicate Rising(count: nat, items: seq<Item>)
    decreases |items|
  {
    items == [] || (count <= items[0].generated && Rising(items[0].generated, items[1..]))
  }

  lemma {:induction false} TotalConcat(x: seq<Part>, y: seq<Part>)
    ensures Total(x + y) == Total(x) + Total(y)
  {
    if x == [] {
      assert x + y == y;
    } else {
      assert (x + y)[1..] == x[1..] + y;
      TotalConcat(x[1..], y);
    }
  }

  lemma {:induction false} NoTokens(parts: seq<Part>)
    requires forall i | 0 <= i < |parts| :: parts[i].tokens == 0
    ensures Total(parts) == 0
  {
    if parts != [] {
      NoTokens(parts[1..]);
    }
  }

  lemma PartsCount(runs: seq<(Mode, string)>, state: Mode, tokens: nat, reason: Option<string>)
    ensures Total(PartsOf(runs, state, tokens, reason)) == tokens
  {
    NoTokens(PartsOf(runs, state, tokens, reason)[1..]);
  }

  /** Every token the generator counted by the last item taken in is counted once. */
  lemma {:induction false} TokensAreCountedOnce(a: Machine, x: Scanned, count: nat, items: seq<Item>)
    requires Usable(a) && Rising(count, items)
    ensures var n := Consumed(a, x, items);
      Total(Answer(a, x, count, items).0) == if n == 0 then 0 else items[n - 1].generated - count
    decreases |items|
  {
    hide Step;
    if items != [] && !items[0].stopRequested && !x.stopped {
      var next := Step(a, x, items[0]);
      var parts := PartsOf(next.runs, next.mode, Grown(items[0].generated, count), ReasonOf(next.stopped, items[0]));
      TokensAreCountedOnce(a, next, items[0].generated, items[1..]);
      PartsCount(next.runs, next.mode, Grown(items[0].generated, count), ReasonOf(next.stopped, items[0]));
      TotalConcat(parts, Answer(a, next, items[0].generated, items[1..]).0);
      RisingKeepsUp(items[0].generated, items[1..], Consumed(a, next, items[1..]));
    }
  }

  lemma {:induction false} RisingKeepsUp(count: nat, items: seq<Item>, n: nat)
    requires Rising(count, items) && n <= |items|
    ensures n > 0 ==> items[n - 1].generated >= count
    decreases n
  {
    if n > 0 {
      RisingKeepsUp(items[0].generated, items[1..], n - 1);
    }
  }

  lemma ReasonOnTheLast(runs: seq<(Mode, string)>, state: Mode, tokens: nat, reason: Option<string>)
    ensures var parts := PartsOf(runs, state, tokens, reason);
      && (forall k | 0 <= k < |parts| - 1 :: parts[k].finish.None?)
      && parts[|parts| - 1].finish == reason
      && (reason.None? ==> forall k | 0 <= k < |parts| :: parts[k].finish.None?)
  {
    var shown := if runs == [] then [(state, "")] else runs;
    var parts := PartsOf(runs, state, tokens, reason);
    forall k | 0 <= k < |parts|
      ensures parts[k].finish == Last(reason, k, |parts|)
    {
      assert parts[k] == Part(shown[k].0, shown[k].1, if k == 0 then tokens else 0, Last(reason, k, |shown|));
    }
  }

  /**
    One reason at most, on the last part: "stop" when the text stopped, otherwise what the
    last item taken in says.
   */
  lemma {:induction false} LastPartHasTheReason(a: Machine, x: Scanned, count: nat, items: seq<Item>)
    requires Usable(a) && OnlyLastFinishes(items) && !x.stopped
    ensures var (parts, end) := Answer(a, x, count, items);
      var n := Consumed(a, x, items);
      && (parts == [] <==> n == 0)
      && (forall k | 0 <= k < |parts| - 1 :: parts[k].finish.None?)
      && (n > 0 ==> parts[|parts| - 1].finish == ReasonOf(end.stopped, items[n - 1]))
    decreases |items|
  {
    hide Step, PartsOf;
    if items != [] && !items[0].stopRequested {
      var next := Step(a, x, items[0]);
      var parts := PartsOf(next.runs, next.mode, Grown(items[0].generated, count), ReasonOf(next.stopped, items[0]));
      var rest := Answer(a, next, items[0].generated, items[1..]).0;
      ReasonOnTheLast(next.runs, next.mode, Grown(items[0].generated, count), ReasonOf(next.stopped, items[0]));
      if next.stopped {
        assert rest == [] && parts + rest == parts;
      } else {
        LastPartHasTheReason(a, next, items[0].generated, items[1..]);
        assert |items| == 1 ==> rest == [] && parts + rest == parts;
        var all: seq<Part> := parts + rest;
        forall k | 0 <= k < |all| - 1
          ensures all[k].finish.None?
        {
          if k >= |parts| {
            assert all[k] == rest[k - |parts|];
          }
        }
      }
    }
  }
}
