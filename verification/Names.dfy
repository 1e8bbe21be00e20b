/** Names as the control plane compares them: stripped, given or not, and in order. */
module Names {
  import opened Options

  /** A name that was given: absent and empty names count as not given. */
  predicate Given(s: Option<string>) {
    s.Some? && s.value != ""
  }

  predicate IsSpace(c: char) {
    c == ' ' || c == '\t' || c == '\n' || c == '\r'
  }

  function Strip(s: string): string
    decreases |s|
  {
    if s != "" && IsSpace(s[0]) then Strip(s[1..])
    else if s != "" && IsSpace(s[|s| - 1]) then Strip(s[..|s| - 1])
    else s
  }

  /** Strings in the order of their characters, a prefix before what it begins. */
  predicate Less(x: string, y: string) {
    if y == "" then false
    else if x == "" then true
    else x[0] < y[0] || (x[0] == y[0] && Less(x[1..], y[1..]))
  }

  lemma {:induction false} LessIsTotal(x: string, y: string)
    ensures x == y || Less(x, y) || Less(y, x)
    ensures !(Less(x, y) && Less(y, x)) && !Less(x, x)
  {
    if x != "" && y != "" && x[0] == y[0] {
      LessIsTotal(x[1..], y[1..]);
      assert x == [x[0]] + x[1..] && y == [y[0]] + y[1..];
    }
    if x != "" {
      NotLessThanItself(x);
    }
  }

  lemma {:induction false} NotLessThanItself(x: string)
    ensures !Less(x, x)
  {
    if x != "" {
      NotLessThanItself(x[1..]);
    }
  }

  lemma {:induction false} LessIsTransitive(x: string, y: string, z: string)
    requires Less(x, y) && Less(y, z)
    ensures Less(x, z)
  {
    if x != "" && x[0] == y[0] && y[0] == z[0] {
      LessIsTransitive(x[1..], y[1..], z[1..]);
    }
  }

  ghost predicate Ascending(names: seq<string>) {
    forall i, j | 0 <= i < j < |names| :: Less(names[i], names[j])
  }

  function InsertName(name: string, sorted: seq<string>): seq<string> {
    if sorted == [] || Less(name, sorted[0]) then [name] + sorted else [sorted[0]] + InsertName(name, sorted[1..])
  }

  lemma {:induction false} InsertNameKeeps(name: string, sorted: seq<string>)
    requires Ascending(sorted) && name !in sorted
    ensures Ascending(InsertName(name, sorted))
    ensures forall x :: x in InsertName(name, sorted) <==> x == name || x in sorted
  {
    if sorted != [] && !Less(name, sorted[0]) {
      LessIsTotal(name, sorted[0]);
      InsertNameKeeps(name, sorted[1..]);
      assert sorted == [sorted[0]] + sorted[1..];
      var rest := InsertName(name, sorted[1..]);
      forall i | 0 <= i < |rest|
        ensures Less(sorted[0], rest[i])
      {
        assert rest[i] in rest;
      }
    } else {
      forall i | 0 <= i < |sorted|
        ensures Less(name, sorted[i])
      {
        if i > 0 {
          LessIsTransitive(name, sorted[0], sorted[i]);
        }
      }
    }
  }

  /** The names of a set in order. */
  method Sorted(names: set<string>) returns (sorted: seq<string>)
    ensures Ascending(sorted) && forall x :: x in sorted <==> x in names
  {
    sorted := [];
    var rest := names;
    while rest != {}
      invariant rest <= names && Ascending(sorted)
      invariant forall x :: x in sorted <==> x in names && x !in rest
      decreases rest
    {
      var name :| name in rest;
      InsertNameKeeps(name, sorted);
      sorted := InsertName(name, sorted);
      rest := rest - {name};
    }
  }
}
