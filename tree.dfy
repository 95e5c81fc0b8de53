/** The file tree below the starting path, the depth-first order in which the
    walk delivers it to the visitor, and the listing that walk prints. */
module FileTree {
  import opened Console
  import opened VisitEvents

  /** A regular file, or a directory with its entries in the order the walk
      lists them; `listingFailed` marks a directory whose iteration ended early
      with an I/O error. */
  datatype Node =
    | File(name: string)
    | Dir(name: string, children: seq<Node>, listingFailed: bool)

  /** Depth-first callbacks for one node: a directory is entered before its
      entries are visited and left after all of them. */
  function Events(n: Node): (r: seq<Event>)
    decreases n, 1
    ensures |r| > 0
    ensures n.File? ==> r == [VisitFile(n.name)]
    ensures n.Dir? ==> r[0] == PreVisit(n.name) && r[|r| - 1] == PostVisit(n.name, n.listingFailed)
  {
    match n
    case File(f) => [VisitFile(f)]
    case Dir(d, cs, failed) => [PreVisit(d)] + EventsAll(cs) + [PostVisit(d, failed)]
  }

  /** Sibling subtrees one after another, never interleaved. */
  function EventsAll(cs: seq<Node>): seq<Event>
    decreases cs, 0
  {
    if cs == [] then [] else Events(cs[0]) + EventsAll(cs[1..])
  }

  /** One entry of the tree in pre-order, with its nesting depth below the
      starting path (the starting path itself is at depth 0). */
  datatype Entry = Entry(depth: nat, name: string, isDir: bool)

  /** Every entry of the subtree in pre-order, the node itself at `depth`. */
  function Entries(n: Node, depth: nat): (r: seq<Entry>)
    decreases n, 1
    ensures |r| > 0 && r[0] == Entry(depth, n.name, n.Dir?)
  {
    match n
    case File(f) => [Entry(depth, f, false)]
    case Dir(d, cs, _) => [Entry(depth, d, true)] + EntriesAll(cs, depth + 1)
  }

  function EntriesAll(cs: seq<Node>, depth: nat): seq<Entry>
    decreases cs, 0
  {
    if cs == [] then [] else Entries(cs[0], depth) + EntriesAll(cs[1..], depth)
  }

  /** How an entry appears in the listing: a directory at depth d is indented
      by d + 1 tabs, a file at depth d by d tabs, so a file sits level with the
      directory that holds it. */
  function Indented(e: Entry): (l: Line)
    ensures l.name == e.name
    ensures e.isDir ==> l.tabs == e.depth + 1
    ensures !e.isDir ==> l.tabs == e.depth
  {
    Line(if e.isDir then e.depth + 1 else e.depth, e.name)
  }

  function Listing(es: seq<Entry>): (r: seq<Line>)
    ensures |r| == |es|
  {
    if es == [] then [] else [Indented(es[0])] + Listing(es[1..])
  }

  lemma {:induction false} ListingAppend(a: seq<Entry>, b: seq<Entry>)
    ensures Listing(a + b) == Listing(a) + Listing(b)
  {
    if a != [] {
      assert (a + b)[0] == a[0];
      assert (a + b)[1..] == a[1..] + b;
      ListingAppend(a[1..], b);
    } else {
      assert a + b == b;
    }
  }

  /** The callbacks for any subtree are well nested. */
  lemma {:induction false} EventsWellNested(n: Node)
    ensures WellNested(Events(n))
    decreases n, 1
  {
    match n
    case File(f) =>
      var es := [VisitFile(f)];
      CountsSingle(VisitFile(f));
      forall k | 0 <= k <= |es|
        ensures Closed(es[..k]) <= Opened(es[..k])
      {
        assert k == 0 || es[..k] == es;
      }
    case Dir(d, cs, failed) =>
      EventsAllWellNested(cs);
      WellNestedWrap(d, EventsAll(cs), failed);
  }

  lemma {:induction false} EventsAllWellNested(cs: seq<Node>)
    ensures WellNested(EventsAll(cs))
    decreases cs, 0
  {
    if cs == [] {
      var es: seq<Event> := [];
      assert forall k :: 0 <= k <= |es| ==> es[..k] == es;
    } else {
      EventsWellNested(cs[0]);
      EventsAllWellNested(cs[1..]);
      WellNestedAppend(Events(cs[0]), EventsAll(cs[1..]));
    }
  }

  /** Walking a subtree whose node sits at `depth` (so the visitor's level is
      `depth` when the walk reaches it) never throws, leaves the level where it
      found it, and prints exactly the pre-order listing of the subtree. */
  lemma {:induction false} WalkPrintsListing(n: Node, depth: nat)
    ensures Runnable(depth, Events(n))
    ensures FinalLevel(depth, Events(n)) == depth
    ensures Output(depth, Events(n)) == Listing(Entries(n, depth))
    decreases n, 1
  {
    match n
    case File(f) =>
      assert Events(n)[1..] == [];
    case Dir(d, cs, failed) =>
      var inner := EventsAll(cs);
      var pre, post := [PreVisit(d)], [PostVisit(d, failed)];
      WalkAllPrintsListing(cs, depth + 1);
      assert pre[1..] == [];
      RunAppend(depth, pre, inner);
      assert post[1..] == [];
      RunAppend(depth, pre + inner, post);
      assert Events(n) == pre + inner + post;
  }

  lemma {:induction false} WalkAllPrintsListing(cs: seq<Node>, depth: nat)
    ensures Runnable(depth, EventsAll(cs))
    ensures FinalLevel(depth, EventsAll(cs)) == depth
    ensures Output(depth, EventsAll(cs)) == Listing(EntriesAll(cs, depth))
    decreases cs, 0
  {
    if cs != [] {
      WalkPrintsListing(cs[0], depth);
      WalkAllPrintsListing(cs[1..], depth);
      RunAppend(depth, Events(cs[0]), EventsAll(cs[1..]));
      ListingAppend(Entries(cs[0], depth), EntriesAll(cs[1..], depth));
    }
  }

  /** The entries of siblings split around the i-th child. */
  lemma {:induction false} EntriesAllSplit(cs: seq<Node>, depth: nat, i: nat)
    requires i < |cs|
    ensures EntriesAll(cs, depth)
            == EntriesAll(cs[..i], depth) + Entries(cs[i], depth) + EntriesAll(cs[i + 1..], depth)
    decreases i
  {
    if i == 0 {
      assert cs[..0] == [];
      assert cs[1..] == cs[i + 1..];
    } else {
      EntriesAllSplit(cs[1..], depth, i - 1);
      assert cs[..i][0] == cs[0];
      assert cs[..i][1..] == cs[1..][..i - 1];
      assert cs[1..][i - 1] == cs[i];
      assert cs[1..][i..] == cs[i + 1..];
    }
  }

  /** A file directly inside a directory is printed on its own line, right
      after the lines of the siblings before it, with the same number of tabs
      as the directory's own first line, not one more. */
  lemma FileIndentedLikeParent(d: string, cs: seq<Node>, failed: bool, depth: nat, i: nat)
    requires i < |cs| && cs[i].File?
    ensures Runnable(depth, Events(Dir(d, cs, failed)))
    ensures var out := Output(depth, Events(Dir(d, cs, failed)));
      var at := 1 + |EntriesAll(cs[..i], depth + 1)|;
      && at < |out|
      && out[0] == Line(depth + 1, d)
      && out[at] == Line(depth + 1, cs[i].name)
  {
    var n := Dir(d, cs, failed);
    WalkPrintsListing(n, depth);
    EntriesAllSplit(cs, depth + 1, i);
    var before := EntriesAll(cs[..i], depth + 1);
    var es := Entries(n, depth);
    assert es == [Entry(depth, d, true)] + before + Entries(cs[i], depth + 1) + EntriesAll(cs[i + 1..], depth + 1);
    assert es[1 + |before|] == Entry(depth + 1, cs[i].name, false);
    ListingAt(es, 0);
    ListingAt(es, 1 + |before|);
  }

  lemma {:induction false} ListingAt(es: seq<Entry>, j: nat)
    requires j < |es|
    ensures Listing(es)[j] == Indented(es[j])
    decreases j
  {
    if j > 0 {
      ListingAt(es[1..], j - 1);
    }
  }
}
