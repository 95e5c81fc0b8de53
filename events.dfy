/** The callbacks a depth-first file-tree walk delivers to StatsVisitor, and
    what the visitor does with a stream of them, as pure functions of its level. */
module VisitEvents {
  import opened Console

  /** One callback of the walk, with the file name of the path it is given.
      `listingFailed` says whether `postVisitDirectory` receives a non-null
      IOException (the directory's iteration ended early). */
  datatype Event =
    | PreVisit(dir: string)
    | VisitFile(file: string)
    | PostVisit(dir: string, listingFailed: bool)

  /** The level after one callback: up on entering, down on leaving, unchanged on a file. */
  function NextLevel(level: int, e: Event): int
  {
    match e
    case PreVisit(_) => level + 1
    case VisitFile(_) => level
    case PostVisit(_, _) => level - 1
  }

  /** The callback does not throw: `"\t".repeat` is only ever given a
      non-negative count (the incremented level on entering, the level on a file). */
  predicate CanHandle(level: int, e: Event)
  {
    match e
    case PreVisit(_) => level + 1 >= 0
    case VisitFile(_) => level >= 0
    case PostVisit(_, _) => true
  }

  /** The lines one callback prints. */
  function Printed(level: int, e: Event): (r: seq<Line>)
    requires CanHandle(level, e)
    ensures |r| == if e.PostVisit? then 0 else 1
  {
    match e
    case PreVisit(d) => [Line(level + 1, d)]
    case VisitFile(f) => [Line(level, f)]
    case PostVisit(_, _) => []
  }

  /** No callback of the stream throws when the visitor starts at `level`. */
  predicate Runnable(level: int, es: seq<Event>)
    decreases es
  {
    es == [] || (CanHandle(level, es[0]) && Runnable(NextLevel(level, es[0]), es[1..]))
  }

  /** The level after the whole stream. */
  function FinalLevel(level: int, es: seq<Event>): int
    decreases es
  {
    if es == [] then level else FinalLevel(NextLevel(level, es[0]), es[1..])
  }

  /** Everything the stream prints, in order. */
  function Output(level: int, es: seq<Event>): seq<Line>
    requires Runnable(level, es)
    decreases es
  {
    if es == [] then [] else Printed(level, es[0]) + Output(NextLevel(level, es[0]), es[1..])
  }

  /** Number of directories entered, and number left, in a stream. */
  function Opened(es: seq<Event>): nat
  {
    if es == [] then 0 else (if es[0].PreVisit? then 1 else 0) + Opened(es[1..])
  }

  function Closed(es: seq<Event>): nat
  {
    if es == [] then 0 else (if es[0].PostVisit? then 1 else 0) + Closed(es[1..])
  }

  /** A stream is well nested when no prefix leaves more directories than it
      entered and the whole stream leaves every directory it entered. */
  ghost predicate WellNested(es: seq<Event>)
  {
    && (forall k :: 0 <= k <= |es| ==> Closed(es[..k]) <= Opened(es[..k]))
    && Closed(es) == Opened(es)
  }

  lemma {:induction false} CountsAppend(a: seq<Event>, b: seq<Event>)
    ensures Opened(a + b) == Opened(a) + Opened(b)
    ensures Closed(a + b) == Closed(a) + Closed(b)
  {
    if a != [] {
      assert (a + b)[0] == a[0];
      assert (a + b)[1..] == a[1..] + b;
      CountsAppend(a[1..], b);
    } else {
      assert a + b == b;
    }
  }

  lemma CountsSingle(e: Event)
    ensures Opened([e]) == if e.PreVisit? then 1 else 0
    ensures Closed([e]) == if e.PostVisit? then 1 else 0
  {
    assert [e][1..] == [];
  }

  /** The level always equals the starting level plus the number of
      directories entered but not yet left. */
  lemma {:induction false} LevelCountsOpenDirectories(level: int, es: seq<Event>)
    ensures FinalLevel(level, es) == level + Opened(es) - Closed(es)
    decreases es
  {
    if es != [] {
      LevelCountsOpenDirectories(NextLevel(level, es[0]), es[1..]);
    }
  }

  /** Running two streams one after the other. */
  lemma {:induction false} RunAppend(level: int, a: seq<Event>, b: seq<Event>)
    ensures FinalLevel(level, a + b) == FinalLevel(FinalLevel(level, a), b)
    ensures Runnable(level, a + b) <==> Runnable(level, a) && Runnable(FinalLevel(level, a), b)
    ensures Runnable(level, a + b) ==>
              Output(level, a + b) == Output(level, a) + Output(FinalLevel(level, a), b)
    decreases a
  {
    if a != [] {
      assert (a + b)[0] == a[0];
      assert (a + b)[1..] == a[1..] + b;
      RunAppend(NextLevel(level, a[0]), a[1..], b);
    } else {
      assert a + b == b;
    }
  }

  /** The first callback of a stream that does not throw does not throw, nor does the rest. */
  lemma RunnableSplit(level: int, es: seq<Event>)
    requires Runnable(level, es) && es != []
    ensures CanHandle(level, es[0]) && Runnable(NextLevel(level, es[0]), es[1..])
  {
  }

  /** Running one more callback after a stream. */
  lemma RunSnoc(level: int, a: seq<Event>, e: Event)
    requires Runnable(level, a) && CanHandle(FinalLevel(level, a), e)
    ensures Runnable(level, a + [e])
    ensures FinalLevel(level, a + [e]) == NextLevel(FinalLevel(level, a), e)
    ensures Output(level, a + [e]) == Output(level, a) + Printed(FinalLevel(level, a), e)
  {
    assert [e][1..] == [];
    RunAppend(level, a, [e]);
  }

  /** Delivering the i-th callback of a stream that runs extends the run of
      the first i callbacks by one. */
  lemma WalkStep(level: int, es: seq<Event>, i: nat)
    requires i < |es| && Runnable(level, es)
    ensures Runnable(level, es[..i]) && CanHandle(FinalLevel(level, es[..i]), es[i])
    ensures Runnable(level, es[..i + 1])
    ensures FinalLevel(level, es[..i + 1]) == NextLevel(FinalLevel(level, es[..i]), es[i])
    ensures Output(level, es[..i + 1]) == Output(level, es[..i]) + Printed(FinalLevel(level, es[..i]), es[i])
  {
    assert es == es[..i] + es[i..];
    RunAppend(level, es[..i], es[i..]);
    RunnableSplit(FinalLevel(level, es[..i]), es[i..]);
    assert es[..i + 1] == es[..i] + [es[i]];
    RunSnoc(level, es[..i], es[i]);
  }

  /** A stream in which no prefix takes the level below zero never throws. */
  lemma {:induction false} NonNegativeRunnable(level: int, es: seq<Event>)
    requires level >= 0
    requires forall k :: 0 <= k <= |es| ==> Closed(es[..k]) <= level + Opened(es[..k])
    ensures Runnable(level, es)
    decreases es
  {
    if es != [] {
      var head := [es[0]];
      var next := NextLevel(level, es[0]);
      CountsSingle(es[0]);
      assert next == level + Opened(head) - Closed(head);
      assert es[..1] == head;
      assert Closed(es[..1]) <= level + Opened(es[..1]);
      forall k | 0 <= k <= |es[1..]|
        ensures Closed(es[1..][..k]) <= next + Opened(es[1..][..k])
      {
        assert es[..k + 1] == head + es[1..][..k];
        CountsAppend(head, es[1..][..k]);
        assert Closed(es[..k + 1]) <= level + Opened(es[..k + 1]);
      }
      NonNegativeRunnable(next, es[1..]);
    }
  }

  /** Over a well-nested stream started from a fresh visitor: no callback throws,
      after every prefix the level is the number of directories entered and not
      yet left (so it is never negative), and at the end it is back to zero. */
  lemma LevelOverWellNested(es: seq<Event>)
    requires WellNested(es)
    ensures Runnable(0, es)
    ensures forall k :: 0 <= k <= |es| ==>
              FinalLevel(0, es[..k]) == Opened(es[..k]) - Closed(es[..k]) >= 0
    ensures FinalLevel(0, es) == 0
  {
    NonNegativeRunnable(0, es);
    forall k | 0 <= k <= |es|
      ensures FinalLevel(0, es[..k]) == Opened(es[..k]) - Closed(es[..k]) >= 0
    {
      LevelCountsOpenDirectories(0, es[..k]);
    }
    LevelCountsOpenDirectories(0, es);
  }

  /** Concatenating well-nested streams (sibling subtrees) keeps them well nested. */
  lemma WellNestedAppend(a: seq<Event>, b: seq<Event>)
    requires WellNested(a) && WellNested(b)
    ensures WellNested(a + b)
  {
    CountsAppend(a, b);
    forall k | 0 <= k <= |a + b|
      ensures Closed((a + b)[..k]) <= Opened((a + b)[..k])
    {
      if k <= |a| {
        assert (a + b)[..k] == a[..k];
      } else {
        assert (a + b)[..k] == a + b[..k - |a|];
        CountsAppend(a, b[..k - |a|]);
        assert Closed(b[..k - |a|]) <= Opened(b[..k - |a|]);
      }
    }
  }

  /** Wrapping a well-nested stream in an enter/leave pair (a directory around
      its contents) keeps it well nested. */
  lemma WellNestedWrap(d: string, inner: seq<Event>, failed: bool)
    requires WellNested(inner)
    ensures WellNested([PreVisit(d)] + inner + [PostVisit(d, failed)])
  {
    var es := [PreVisit(d)] + inner + [PostVisit(d, failed)];
    CountsAppend([PreVisit(d)], inner);
    CountsAppend([PreVisit(d)] + inner, [PostVisit(d, failed)]);
    forall k | 0 <= k <= |es|
      ensures Closed(es[..k]) <= Opened(es[..k])
    {
      if k == 0 {
      } else if k <= |inner| + 1 {
        assert es[..k] == [PreVisit(d)] + inner[..k - 1];
        CountsAppend([PreVisit(d)], inner[..k - 1]);
        assert Closed(inner[..k - 1]) <= Opened(inner[..k - 1]);
      } else {
        assert es[..k] == es;
      }
    }
  }
}
