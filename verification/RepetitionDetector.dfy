/**
  Noticing that generated text has begun to repeat itself (distributed_openai.py):
  the end of the normalized window is a run of words, or of characters, several
  times over.
 */
module RepetitionDetector {

  /** Lower-casing is foreign; so is which characters are white space, apart from the blank. */
  datatype Text = Text(lower: string -> string, isSpace: char -> bool)

  datatype Config = Config(windowChars: nat, minimumUnit: nat, maximumUnit: nat, repetitions: nat)
  {
    predicate Valid() {
      windowChars >= 1 && minimumUnit >= 1 && repetitions >= 1
    }
  }

  // ----- words

  /** The words of `rest`, the first one beginning with `word`. */
  function WordsFrom(t: Text, word: string, rest: string): seq<string>
    decreases |rest|
  {
    var done := if word == "" then [] else [word];
    if rest == "" then done
    else if t.isSpace(rest[0]) then done + WordsFrom(t, "", rest[1..])
    else WordsFrom(t, word + [rest[0]], rest[1..])
  }

  function Words(t: Text, s: string): seq<string> {
    WordsFrom(t, "", s)
  }

  function Joined(words: seq<string>): string {
    if words == [] then "" else if |words| == 1 then words[0] else words[0] + " " + Joined(words[1..])
  }

  function Normalized(t: Text, raw: string): string {
    Joined(Words(t, t.lower(raw)))
  }

  ghost predicate Solid(t: Text, word: string) {
    forall ch | ch in word :: !t.isSpace(ch)
  }

  ghost predicate AreWords(t: Text, words: seq<string>) {
    forall w | w in words :: w != "" && Solid(t, w)
  }

  lemma {:induction false} WordsAreWords(t: Text, word: string, rest: string)
    requires Solid(t, word)
    ensures AreWords(t, WordsFrom(t, word, rest))
    decreases |rest|
  {
    if rest != "" {
      if t.isSpace(rest[0]) {
        WordsAreWords(t, "", rest[1..]);
      } else {
        WordsAreWords(t, word + [rest[0]], rest[1..]);
      }
    }
  }

  lemma {:induction false} WordThenRest(t: Text, before: string, word: string, rest: string)
    requires Solid(t, word) && (rest == "" || t.isSpace(rest[0]))
    ensures WordsFrom(t, before, word + rest) ==
      (if before + word == "" then [] else [before + word]) + (if rest == "" then [] else WordsFrom(t, "", rest[1..]))
    decreases |word|
  {
    if word == "" {
      assert word + rest == rest && before + word == before;
    } else {
      assert (word + rest)[1..] == word[1..] + rest && (word + rest)[0] == word[0];
      assert word[0] in word;
      assert before + [word[0]] + word[1..] == before + word;
      assert Solid(t, word[1..]) by {
        assert forall ch | ch in word[1..] :: ch in word;
      }
      WordThenRest(t, before + [word[0]], word[1..], rest);
    }
  }

  /** Splitting undoes joining, so the words of the normalized text are the words of the text. */
  lemma {:induction false} SplitUndoesJoin(t: Text, words: seq<string>)
    requires t.isSpace(' ') && AreWords(t, words)
    ensures Words(t, Joined(words)) == words
  {
    if |words| == 1 {
      WordThenRest(t, "", words[0], "");
      assert words[0] + "" == words[0] && "" + words[0] == words[0];
    } else if words != [] {
      var rest := Joined(words[1..]);
      SplitUndoesJoin(t, words[1..]);
      WordThenRest(t, "", words[0], " " + rest);
      assert (" " + rest)[1..] == rest && "" + words[0] == words[0];
      assert words[0] + " " + rest == words[0] + (" " + rest);
    }
  }

  // ----- cycles

  /** How many elements `times` units of the given width take. */
  function Span(width: nat, times: nat): nat {
    width * times
  }

  lemma SpanGrows(width: nat, k: nat)
    ensures Span(width, 0) == 0 && Span(width, 1) == width && Span(width, k + 1) == Span(width, k) + width
  {
  }

  lemma SpanIsMonotonic(width: nat, k: nat, times: nat)
    requires k <= times
    ensures Span(width, k) <= Span(width, times)
  {
  }

  /** The end of `s` is one unit of the given width, so many times. */
  ghost predicate EndsInCycles<T>(s: seq<T>, width: nat, times: nat) {
    Span(width, times) <= |s| && forall i | |s| - Span(width, times) <= i < |s| - width :: s[i] == s[i + width]
  }

  /** The `k`th unit from the end. */
  function Unit<T>(s: seq<T>, width: nat, k: nat): seq<T>
    requires 1 <= k && Span(width, k) <= |s|
  {
    SpanGrows(width, k - 1);
    s[|s| - Span(width, k)..|s| - Span(width, k - 1)]
  }

  lemma OneMoreUnit<T>(s: seq<T>, width: nat, k: nat)
    requires 1 <= k && Span(width, k + 1) <= |s|
    ensures Span(width, k) <= |s|
    ensures EndsInCycles(s, width, k + 1) <==> EndsInCycles(s, width, k) && Unit(s, width, k + 1) == Unit(s, width, k)
  {
    SpanGrows(width, k);
    SpanGrows(width, k - 1);
    hide Span;
    var a := |s| - Span(width, k + 1);
    var older, newer := Unit(s, width, k + 1), Unit(s, width, k);
    assert forall i | 0 <= i < width :: older[i] == s[a + i] && newer[i] == s[a + width + i];
    if older == newer {
      forall i | a <= i < a + width
        ensures s[i] == s[i + width]
      {
        assert older[i - a] == newer[i - a];
      }
    }
    if EndsInCycles(s, width, k + 1) {
      assert forall i | 0 <= i < width :: older[i] == newer[i];
    }
  }

  /** In a cycling end every unit is the last one. */
  lemma {:induction false} FirstUnitIsLast<T>(s: seq<T>, width: nat, times: nat)
    requires 1 <= times && EndsInCycles(s, width, times)
    ensures width <= Span(width, times)
    ensures Unit(s, width, times) == s[|s| - width..]
    decreases times
  {
    hide Span, EndsInCycles;
    SpanGrows(width, times - 1);
    SpanGrows(width, 0);
    SpanFits(s, width, times);
    if times > 1 {
      OneMoreUnit(s, width, times - 1);
      FirstUnitIsLast(s, width, times - 1);
    }
  }

  lemma OneUnitCycles<T>(s: seq<T>, width: nat)
    requires width <= |s|
    ensures EndsInCycles(s, width, 1)
  {
  }

  lemma FewerCycles<T>(s: seq<T>, width: nat, k: nat, times: nat)
    requires k <= times && EndsInCycles(s, width, times)
    ensures EndsInCycles(s, width, k)
  {
    SpanIsMonotonic(width, k, times);
  }

  lemma SpanFits<T>(s: seq<T>, width: nat, times: nat)
    requires EndsInCycles(s, width, times)
    ensures Span(width, times) <= |s|
  {
  }

  function Repeated<T>(block: seq<T>, times: nat): (r: seq<T>)
    ensures |r| == |block| * times
  {
    if times == 0 then [] else block + Repeated(block, times - 1)
  }

  lemma SplitEqual<T>(x: seq<T>, y: seq<T>, block: seq<T>, rest: seq<T>)
    requires |x| == |block|
    ensures x + y == block + rest <==> x == block && y == rest
  {
    if x + y == block + rest {
      assert x == (x + y)[..|x|] && block == (block + rest)[..|x|];
      assert y == (x + y)[|x|..] && rest == (block + rest)[|x|..];
    }
  }

  /** Ending with the last unit written several times over is ending in cycles. */
  lemma {:induction false} EndsWithRepeated<T>(s: seq<T>, width: nat, times: nat)
    requires 1 <= times && Span(width, times) <= |s|
    ensures width <= |s|
    ensures s[|s| - Span(width, times)..] == Repeated(s[|s| - width..], times) <==> EndsInCycles(s, width, times)
    decreases times
  {
    SpanGrows(width, times - 1);
    SpanGrows(width, 0);
    if times == 1 {
      var block := s[|s| - width..];
      assert Repeated(block, 1) == block + [] == block;
    } else {
      hide Span, EndsInCycles;
      var less := times - 1;
      var block, unit, end := s[|s| - width..], Unit(s, width, times), s[|s| - Span(width, less)..];
      EndsWithRepeated(s, width, less);
      OneMoreUnit(s, width, less);
      if EndsInCycles(s, width, less) {
        FirstUnitIsLast(s, width, less);
      }
      assert s[|s| - Span(width, times)..] == unit + end;
      SplitEqual(unit, end, block, Repeated(block, less));
    }
  }

  lemma FitsTimes(width: nat, times: nat, length: nat)
    requires times >= 1
    ensures width <= length / times <==> Span(width, times) <= length
  {
    assert length == times * (length / times) + length % times;
    if width <= length / times {
      assert width * times <= (length / times) * times;
    } else {
      assert width * times >= (length / times + 1) * times;
    }
  }

  lemma TooWide<T>(s: seq<T>, width: nat, times: nat)
    requires times >= 1 && width > |s| / times
    ensures !EndsInCycles(s, width, times)
  {
    FitsTimes(width, times, |s|);
  }

  function Stripped(t: Text, s: string): string
    decreases |s|
  {
    if s == "" then ""
    else if t.isSpace(s[0]) then Stripped(t, s[1..])
    else if t.isSpace(s[|s| - 1]) then Stripped(t, s[..|s| - 1])
    else s
  }

  // ----- the window

  /** The last `n` characters. */
  function Tail(s: string, n: nat): string {
    if |s| <= n then s else s[|s| - n..]
  }

  /** Keeping only the window after every chunk keeps the window of everything. */
  lemma TailOfTail(x: string, y: string, n: nat)
    ensures Tail(Tail(x, n) + y, n) == Tail(x + y, n)
  {
    if |x| > n {
      assert x + y == x[..|x| - n] + (Tail(x, n) + y);
    }
  }

  /** A phrase of a few words, or a stretch of characters that is not mostly blank, over and over. */
  ghost predicate Repeating(t: Text, c: Config, raw: string) {
    var normalized := Normalized(t, raw);
    || (exists width :: 4 <= width <= 64 && EndsInCycles(Words(t, t.lower(raw)), width, c.repetitions))
    || (exists width :: c.minimumUnit <= width <= c.maximumUnit && CyclesInText(t, c, normalized, width))
  }

  ghost predicate CyclesInText(t: Text, c: Config, normalized: string, width: nat) {
    && EndsInCycles(normalized, width, c.repetitions)
    && width <= |normalized|
    && |Stripped(t, normalized[|normalized| - width..])| >= c.minimumUnit / 2
  }

  class Detector {
    const text: Text
    const config: Config
    var raw: string
    var unchecked: nat
    /** Everything observed so far. */
    ghost var observed: string

    ghost predicate Valid()
      reads this
    {
      config.Valid() && text.isSpace(' ') && unchecked < config.minimumUnit && raw == Tail(observed, config.windowChars)
    }

    constructor (text: Text, config: Config)
      requires config.Valid() && text.isSpace(' ')
      ensures Valid() && this.text == text && this.config == config && observed == "" && unchecked == 0
    {
      this.text, this.config := text, config;
      raw, unchecked, observed := "", 0, "";
    }

    /** Whether all the units at the end are the last one. */
    method UnitsRepeat(words: seq<string>, width: nat) returns (all: bool)
      requires config.Valid() && Span(width, config.repetitions) <= |words|
      ensures all <==> EndsInCycles(words, width, config.repetitions)
    {
      var times := config.repetitions;
      SpanIsMonotonic(width, 1, times);
      SpanGrows(width, 0);
      OneUnitCycles(words, width);
      hide Span, EndsInCycles;
      var block := words[|words| - width..];
      var k := 2;
      while k <= times
        invariant 2 <= k <= times + 1
        invariant EndsInCycles(words, width, k - 1)
      {
        SpanIsMonotonic(width, k, times);
        OneMoreUnit(words, width, k - 1);
        FirstUnitIsLast(words, width, k - 1);
        if Unit(words, width, k) != block {
          if EndsInCycles(words, width, times) {
            FewerCycles(words, width, k, times);
          }
          return false;
        }
        k := k + 1;
      }
      return true;
    }

    method WordsRepeat(words: seq<string>) returns (found: bool)
      requires config.Valid()
      ensures found <==> exists width :: 4 <= width <= 64 && EndsInCycles(words, width, config.repetitions)
    {
      hide EndsInCycles, Span;
      var times := config.repetitions;
      var most := |words| / times;
      var width := 4;
      while width <= most && width <= 64
        invariant 4 <= width
        invariant forall w | 4 <= w < width :: !EndsInCycles(words, w, times)
      {
        FitsTimes(width, times, |words|);
        var all := UnitsRepeat(words, width);
        if all {
          return true;
        }
        width := width + 1;
      }
      forall w | width <= w <= 64
        ensures !EndsInCycles(words, w, times)
      {
        TooWide(words, w, times);
      }
      return false;
    }

    /** Whether the text ends with its last characters, not mostly blank, written several times over. */
    method BlockRepeats(normalized: string, width: nat) returns (repeats: bool)
      requires config.Valid() && Span(width, config.repetitions) <= |normalized|
      ensures repeats <==> CyclesInText(text, config, normalized, width)
    {
      var times := config.repetitions;
      EndsWithRepeated(normalized, width, times);
      hide EndsInCycles, Span;
      var block := normalized[|normalized| - width..];
      repeats := |Stripped(text, block)| >= config.minimumUnit / 2
              && normalized[|normalized| - Span(width, times)..] == Repeated(block, times);
    }

    method CharactersRepeat(normalized: string) returns (found: bool)
      requires config.Valid()
      ensures found <==>
        exists width :: config.minimumUnit <= width <= config.maximumUnit && CyclesInText(text, config, normalized, width)
    {
      hide EndsInCycles, Stripped, Span;
      var times := config.repetitions;
      var most := |normalized| / times;
      var width := config.minimumUnit;
      while width <= most && width <= config.maximumUnit
        invariant config.minimumUnit <= width
        invariant forall w | config.minimumUnit <= w < width :: !CyclesInText(text, config, normalized, w)
      {
        FitsTimes(width, times, |normalized|);
        var repeats := BlockRepeats(normalized, width);
        if repeats {
          return true;
        }
        width := width + 1;
      }
      forall w | width <= w <= config.maximumUnit
        ensures !CyclesInText(text, config, normalized, w)
      {
        TooWide(normalized, w, times);
      }
      return false;
    }

    /**
      The window is that of everything observed, whatever the chunks; it is looked at
      as soon as enough is unchecked, and then the answer is exact.
     */
    method Observe(chunk: string) returns (found: bool)
      requires Valid()
      modifies this
      ensures Valid() && observed == old(observed) + chunk
      ensures var due := chunk != "" && old(unchecked) + |chunk| >= config.minimumUnit;
        && unchecked == (if due then 0 else old(unchecked) + |chunk|)
        && (found <==> due && Repeating(text, config, Tail(observed, config.windowChars)))
    {
      hide Repeating, EndsInCycles, CyclesInText, Normalized, Words, Tail;
      observed := observed + chunk;
      TailOfTail(old(observed), chunk, config.windowChars);
      if chunk == "" {
        assert old(observed) + "" == old(observed);
        return false;
      }
      raw := Tail(raw + chunk, config.windowChars);
      unchecked := unchecked + |chunk|;
      if unchecked < config.minimumUnit {
        return false;
      }
      unchecked := 0;
      var normalized := Normalized(text, raw);
      var words := Words(text, normalized);
      NormalizedWords(text, raw);
      found := WordsRepeat(words);
      if !found {
        found := CharactersRepeat(normalized);
      }
      RepeatingIs(text, config, raw);
    }
  }

  lemma NormalizedWords(t: Text, raw: string)
    requires t.isSpace(' ')
    ensures Words(t, Normalized(t, raw)) == Words(t, t.lower(raw))
  {
    WordsAreWords(t, "", t.lower(raw));
    SplitUndoesJoin(t, Words(t, t.lower(raw)));
  }

  lemma RepeatingIs(t: Text, c: Config, raw: string)
    ensures var normalized := Normalized(t, raw);
      Repeating(t, c, raw) <==>
        || (exists width :: 4 <= width <= 64 && EndsInCycles(Words(t, t.lower(raw)), width, c.repetitions))
        || (exists width :: c.minimumUnit <= width <= c.maximumUnit && CyclesInText(t, c, normalized, width))
  {
  }
}
