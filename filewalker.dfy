/** FileWalkerMain: a visitor that prints the file tree below a starting path,
    each name indented by one tab per directory level, and the depth-first walk
    that drives it. */
module FileWalkerMain {
  import opened Console
  import opened VisitEvents
  import opened FileTree

  /** What a callback tells the walk to do next. */
  datatype FileVisitResult = Continue | Terminate | SkipSubtree | SkipSiblings

  /** A path as the visitor sees it: only its file name is ever read. */
  class Path {
    const fileName: string

    constructor (fileName: string)
      ensures this.fileName == fileName
    {
      this.fileName := fileName;
    }
  }

  /** The attributes the walk reads for each entry. The visitor only checks
      that they are present; `isDirectory` stands for their content and is
      never read. */
  class BasicFileAttributes {
    const isDirectory: bool

    constructor (isDirectory: bool)
      ensures this.isDirectory == isDirectory
    {
      this.isDirectory := isDirectory;
    }
  }

  /** The error handed to `postVisitDirectory` when a directory's iteration
      failed. The visitor ignores it; `message` stands for its content and is
      never read. */
  class IOException {
    const message: string

    constructor (message: string)
      ensures this.message == message
    {
      this.message := message;
    }
  }

  /** The visitor. `level` is the number of directories it has entered and not
      yet left; `printed` is every line it has sent to standard output. */
  class StatsVisitor {
    var level: int
    var printed: seq<string>

    /** A new visitor starts at level 0 (the field's default) and has printed nothing. */
    constructor ()
      ensures level == 0 && printed == []
    {
      level := 0;
      printed := [];
    }

    /** Prints the file's name indented by the current level; the level stays. */
    method VisitFile(file: Path?, attrs: BasicFileAttributes?) returns (r: FileVisitResult)
      requires file != null && attrs != null
      requires level >= 0
      modifies this`printed
      ensures level == old(level)
      ensures printed == old(printed) + [Render(Line(level, file.fileName))]
      ensures r == Continue
    {
      printed := printed + [Render(Line(level, file.fileName))];
      r := Continue;
    }

    /** Goes one level deeper, then prints the directory's name indented by the
        new level. */
    method PreVisitDirectory(dir: Path?, attrs: BasicFileAttributes?) returns (r: FileVisitResult)
      requires dir != null && attrs != null
      requires level + 1 >= 0
      modifies this
      ensures level == old(level) + 1
      ensures printed == old(printed) + [Render(Line(level, dir.fileName))]
      ensures r == Continue
    {
      level := level + 1;
      printed := printed + [Render(Line(level, dir.fileName))];
      r := Continue;
    }

    /** Goes one level up and prints nothing; an error from the directory's
        iteration is ignored rather than rethrown. */
    method PostVisitDirectory(dir: Path?, exc: IOException?) returns (r: FileVisitResult)
      requires dir != null
      modifies this`level
      ensures level == old(level) - 1
      ensures printed == old(printed)
      ensures r == Continue
    {
      level := level - 1;
      r := Continue;
    }
  }

  /** Delivers one event to the visitor through the matching callback, with a
      fresh path and attributes, and an IOException when the directory's
      iteration failed. */
  method Deliver(visitor: StatsVisitor, e: Event) returns (r: FileVisitResult)
    requires CanHandle(visitor.level, e)
    modifies visitor
    ensures visitor.level == NextLevel(old(visitor.level), e)
    ensures visitor.printed == old(visitor.printed) + RenderAll(Printed(old(visitor.level), e))
    ensures r == Continue
  {
    match e {
      case PreVisit(d) =>
        var dir := new Path(d);
        var attrs := new BasicFileAttributes(true);
        r := visitor.PreVisitDirectory(dir, attrs);
        assert RenderAll(Printed(old(visitor.level), e)) == [Render(Line(visitor.level, d))];
      case VisitFile(f) =>
        var file := new Path(f);
        var attrs := new BasicFileAttributes(false);
        r := visitor.VisitFile(file, attrs);
        assert RenderAll(Printed(old(visitor.level), e)) == [Render(Line(visitor.level, f))];
      case PostVisit(d, failed) =>
        var dir := new Path(d);
        var exc: IOException? := null;
        if failed {
          exc := new IOException(d);
        }
        r := visitor.PostVisitDirectory(dir, exc);
    }
  }

  /** The walk: delivers the events in order for as long as the visitor answers
      CONTINUE. Since every callback does, every event is delivered. */
  method WalkFileTree(events: seq<Event>, visitor: StatsVisitor) returns (delivered: nat)
    requires Runnable(visitor.level, events)
    modifies visitor
    ensures delivered == |events|
    ensures visitor.level == FinalLevel(old(visitor.level), events)
    ensures visitor.printed == old(visitor.printed) + RenderAll(Output(old(visitor.level), events))
  {
    ghost var level0 := visitor.level;
    ghost var printed0 := visitor.printed;
    var i := 0;
    var result := Continue;
    while i < |events| && result == Continue
      invariant 0 <= i <= |events|
      invariant result == Continue
      invariant Runnable(level0, events[..i])
      invariant visitor.level == FinalLevel(level0, events[..i])
      invariant visitor.printed == printed0 + RenderAll(Output(level0, events[..i]))
    {
      var e := events[i];
      ghost var level := visitor.level;
      WalkStep(level0, events, i);
      result := Deliver(visitor, e);
      RenderAllAppend(Output(level0, events[..i]), Printed(level, e));
      i := i + 1;
    }
    assert events[..i] == events;
    delivered := i;
  }

  /** `main`: walks the tree below the starting path with a fresh visitor. It
      prints the tree in pre-order, each directory at depth d (the starting
      path at 0) behind d + 1 tabs and each file at depth d behind d tabs, and
      the visitor ends back at level 0. */
  method MainWalk(start: Node) returns (console: seq<string>, finalLevel: int)
    ensures console == RenderAll(Listing(Entries(start, 0)))
    ensures finalLevel == 0
  {
    var visitor := new StatsVisitor();
    WalkPrintsListing(start, 0);
    var _ := WalkFileTree(Events(start), visitor);
    console := visitor.printed;
    finalLevel := visitor.level;
  }
}
