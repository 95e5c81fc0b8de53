/** The lines StatsVisitor prints: a run of tab characters followed by a file name. */
module Console {

  /** One printed line before rendering: how many tabs, then the name. */
  datatype Line = Line(tabs: nat, name: string)

  /** `"\t".repeat(n)`: exactly n tab characters. */
  function Tabs(n: nat): (r: string)
    ensures |r| == n
    ensures forall i :: 0 <= i < n ==> r[i] == '\t'
  {
    if n == 0 then "" else Tabs(n - 1) + "\t"
  }

  /** The text handed to `System.out.println`: the indentation, then the name. */
  function Render(l: Line): (r: string)
    ensures |r| == l.tabs + |l.name|
    ensures r[l.tabs..] == l.name
    ensures forall i :: 0 <= i < l.tabs ==> r[i] == '\t'
  {
    Tabs(l.tabs) + l.name
  }

  /** Every line of a listing, rendered in order. */
  function RenderAll(ls: seq<Line>): (r: seq<string>)
    ensures |r| == |ls|
  {
    if ls == [] then [] else [Render(ls[0])] + RenderAll(ls[1..])
  }

  /** The number of tab characters a printed line starts with. */
  function LeadingTabs(s: string): (k: nat)
    ensures k <= |s|
  {
    if s == [] || s[0] != '\t' then 0 else 1 + LeadingTabs(s[1..])
  }

  /** Reading the indentation back off a printed line recovers the level it was
      printed at and the name, provided the name does not itself start with a tab. */
  lemma {:induction false} RenderRoundTrip(l: Line)
    requires l.name == [] || l.name[0] != '\t'
    ensures LeadingTabs(Render(l)) == l.tabs
    ensures Render(l)[LeadingTabs(Render(l))..] == l.name
    decreases l.tabs
  {
    if l.tabs > 0 {
      var r := Render(l);
      assert r[1..] == Render(Line(l.tabs - 1, l.name));
      RenderRoundTrip(Line(l.tabs - 1, l.name));
    }
  }

  /** Rendering a listing line by line commutes with concatenation. */
  lemma {:induction false} RenderAllAppend(a: seq<Line>, b: seq<Line>)
    ensures RenderAll(a + b) == RenderAll(a) + RenderAll(b)
  {
    if a != [] {
      assert (a + b)[0] == a[0];
      assert (a + b)[1..] == a[1..] + b;
      RenderAllAppend(a[1..], b);
    } else {
      assert a + b == b;
    }
  }
}
