# FileWalkerMain's tree-printing visitor, in Dafny

`FileWalkerMain` walks the file tree below a starting path with
`Files.walkFileTree`. The walk hands each entry to a `StatsVisitor`. The visitor
keeps one counter, `level`, which is the number of directories it has entered and
not yet left:

- `preVisitDirectory` raises `level` by one, then prints the directory's name behind `level` tabs;
- `visitFile` prints the file's name behind `level` tabs;
- `postVisitDirectory` lowers `level` by one.

Every callback answers `CONTINUE`.

The model has four modules:

- `Console` (console.dfy): a printed line (`Line`: a tab count and a name), `"\t".repeat` (`Tabs`) and the rendered text (`Render`).
- `VisitEvents` (events.dfy): the walk's callbacks as an `Event` stream. It gives what the visitor does with a stream as pure functions of its level (`NextLevel`, `Printed`, `FinalLevel`, `Output`). `Runnable` says that no `"\t".repeat` call gets a negative count. It also says when a stream is well nested (`WellNested`: no prefix leaves more directories than it entered, and the whole stream leaves all of them).
- `FileTree` (tree.dfy): the file tree as a datatype. `Events` flattens it depth first, the way `Files.walkFileTree` delivers it. `Entries` and `Listing` give an independent pre-order description of what gets printed.
- `FileWalkerMain` (filewalker.dfy): `StatsVisitor` as a class with the fields `level` and `printed`. `printed` holds the lines sent to standard output. The module also has the walk that drives the visitor (`Deliver`, `WalkFileTree`) and `main` (`MainWalk`).

Each callback method is proved against the event functions through the walk's loop invariant. The lemmas then prove, about those functions, that the level tracks the open directories and that a tree walk prints its pre-order listing.

The code keeps no per-directory byte totals. The code has no size accumulation, no grouping of the report by depth-1 subtree and no early termination. `FileWalker.java` is an empty class. The model follows the code, so none of those are modelled.

## Model

| member | source | states |
|---|---|---|
| `Console.Tabs` | src/main/java/com/skhanra52/FileWalkerMain.java:82 | `"\t".repeat(n)` is exactly n characters, all of them tabs |
| `Console.Render` | src/main/java/com/skhanra52/FileWalkerMain.java:82 | the printed text (`"\t".repeat(level) + name`, as at :82 and :92) is as long as the tab count plus the name, begins with that many tabs, and continues with exactly the name |
| `Console.RenderRoundTrip` | src/main/java/com/skhanra52/FileWalkerMain.java:82 | the leading tabs of a printed line give back the level it was printed at, and the rest gives back the name (for a name that does not begin with a tab) |
| `FileWalkerMain.StatsVisitor.constructor` | src/main/java/com/skhanra52/FileWalkerMain.java:76 | a new visitor is at level 0 (the `int` field's default) and has printed nothing |
| `FileWalkerMain.StatsVisitor.VisitFile` | src/main/java/com/skhanra52/FileWalkerMain.java:79-84 | rejects null arguments; leaves `level` unchanged; prints exactly one line, `level` tabs and then the file name; returns CONTINUE |
| `FileWalkerMain.StatsVisitor.PreVisitDirectory` | src/main/java/com/skhanra52/FileWalkerMain.java:87-94 | rejects null arguments; raises `level` by exactly one; prints exactly one line, the new `level` in tabs and then the directory name; returns CONTINUE |
| `FileWalkerMain.StatsVisitor.PostVisitDirectory` | src/main/java/com/skhanra52/FileWalkerMain.java:97-103 | rejects a null directory; lowers `level` by exactly one; prints nothing; ignores the exception argument; returns CONTINUE |
| `FileWalkerMain.Deliver` | src/main/java/com/skhanra52/FileWalkerMain.java:66 | dispatching one walk event to its callback moves the level as `NextLevel` says and appends exactly the lines `Printed` says |
| `FileWalkerMain.WalkFileTree` | src/main/java/com/skhanra52/FileWalkerMain.java:66 | every callback answers CONTINUE, so the walk delivers every event; the visitor ends at `FinalLevel` and has printed `Output` of the stream |
| `FileWalkerMain.MainWalk` | src/main/java/com/skhanra52/FileWalkerMain.java:60-72 | `main` run on any tree prints its pre-order listing: a directory at depth d (the starting path at 0) behind d + 1 tabs, a file at depth d behind d tabs. The visitor ends at level 0 |
| `VisitEvents.LevelCountsOpenDirectories` | src/main/java/com/skhanra52/FileWalkerMain.java:91-101 | for any event stream, the level after it is the starting level plus directories entered minus directories left |
| `VisitEvents.LevelOverWellNested` | src/main/java/com/skhanra52/FileWalkerMain.java:74-104 | on a well-nested stream from a fresh visitor, no callback throws. After every prefix the level equals the number of entered-but-not-left directories, so it is never negative. At the end the level is 0 |
| `VisitEvents.RunAppend` | src/main/java/com/skhanra52/FileWalkerMain.java:74-104 | running two streams one after the other gives the same level and output as running them concatenated |
| `VisitEvents.NonNegativeRunnable` | src/main/java/com/skhanra52/FileWalkerMain.java:82-92 | if no prefix of a stream takes the level below zero, no `"\t".repeat` call gets a negative count |
| `VisitEvents.WellNestedAppend` | src/main/java/com/skhanra52/FileWalkerMain.java:5-7 | sibling subtrees visited one after another, never interleaved, form a well-nested stream |
| `VisitEvents.WellNestedWrap` | src/main/java/com/skhanra52/FileWalkerMain.java:5-7 | a directory entered before its contents and left after all of them forms a well-nested stream |
| `FileTree.Events` | src/main/java/com/skhanra52/FileWalkerMain.java:66 | the depth-first callbacks `Files.walkFileTree` delivers for one node: a file gives exactly one `visitFile`; a directory's first callback is its `preVisitDirectory` and its last is its `postVisitDirectory`, carrying whether its iteration failed, so the directory is entered before all its entries and left after them |
| `FileTree.EventsWellNested` | src/main/java/com/skhanra52/FileWalkerMain.java:5-7 | the depth-first callbacks of any tree are well nested |
| `FileTree.WalkPrintsListing` | src/main/java/com/skhanra52/FileWalkerMain.java:74-104 | walking a subtree that starts at level d never throws, returns the level to d, and prints exactly the subtree's pre-order listing |
| `FileTree.FileIndentedLikeParent` | src/main/java/com/skhanra52/FileWalkerMain.java:82-92 | the i-th entry of a directory, when it is a file, is printed at a fixed position (right after the directory's line and the lines of the siblings before it) with the same number of tabs as the directory's own line, not one more |

## Left out

- `Files.walkFileTree` itself is library code. It is modelled only by the depth-first flattening `FileTree.Events` and by the loop in `WalkFileTree`. Its reaction to SKIP_SUBTREE and SKIP_SIBLINGS is not modelled. The loop stops on any answer other than CONTINUE, and the visitor never gives one.
- `visitFileFailed` is not overridden, so it keeps the library default. It is not modelled, and an unreadable entry has no event.
- `Path.getFileName` is not modelled. A path is reduced to its file name, an opaque string.
- Console printing is modelled as appending the rendered line to the `printed` field.
- `String.repeat` throws IllegalArgumentException for a negative count. The model makes this a precondition (`requires level >= 0` on `VisitFile`, `requires level + 1 >= 0` on `PreVisitDirectory`) rather than an error result. `LevelOverWellNested` and `WalkPrintsListing` show that well-nested walks always meet it.
- `FileWalkerMain.StatsVisitor.PreVisitDirectory`: `level` is unbounded, so the 32-bit wrap-around of `level++` after 2^31 - 1 nested directories is not modelled; neither is the wrap-around of `level--` in `FileWalkerMain.StatsVisitor.PostVisitDirectory` below -2^31, which only an ill-nested event stream could reach.
- The IOException that `walkFileTree` may throw out of `main` is not modelled, and neither is its rewrapping as a RuntimeException.
- The other files of the repository are not part of this model: `Main.java`, `ManagingFile.java`, `WriteFileMain.java`, `FileListingMain.java`, the reading examples and the Scanner examples. They are filesystem, stream and network I/O demonstrations. `FileWalker.java` is an empty class.
- There is no per-directory byte-size aggregation, grouped report or early termination. The code has none of these: `StatsVisitor` tracks only the nesting level.
