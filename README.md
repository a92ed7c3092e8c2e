# Quadtree console: node model and command interpreters

This project models in Dafny two parts of the QuadtreeConsole program: the node
classes of its region quadtree (`Rectangle`, `Node`, `LeafNode`,
`InternalNode` and their `Dump(level)` traversal), and the two versions of
`Program` that read a command file and drive the tree.

- `wrappers.dfy` (`Wrappers`): `Option`, which stands for a C# `null`.
- `rectangle.dfy` (`Geometry`): the `Rectangle` record. `Rect` is its value.
  `Rectangle` is the class with four settable fields, a constructor and
  `ToString` (`Text`). `Parse` reads a rendering back.
- `nodes.dfy` (`Nodes`): `Node = Leaf(space, rects) | Internal(space, children)`.
  It also holds `MaxRectangles = 5`, `IsFull`, and `Dump`, a pure function
  that returns the tab-indented lines the C# `Dump` writes.
- `tokens.dfy` (`Tokens`): `String.Split(' ')` (`Split`), the same with
  `RemoveEmptyEntries` (`Words`), and an ASCII `ToLower`. `Join` is not
  called by either interpreter; it is the inverse against which `Split` is
  proved.
- `tree_api.dfy` (`TreeApi`): the calls the interpreters make on the
  `Quadtree` class. The class is not part of this model. Its state is an
  abstract type `S`. Each operation is an arbitrary total function that gives
  the next state and either a result or an exception.
- `commands.dfy` (`Commands`): what both interpreters share. This is the
  `Command` a line becomes (verb, arity and number checks), the message
  categories, and an `Outcome`: the final tree state, the calls made and the
  messages written.
- `update_program.dfy` (`UpdateProgram`): the lenient interpreter of
  `Project1/UpdateProgram.cs`.
- `qauadtree_program.dfy` (`QauadtreeProgram`): the strict interpreter of
  `Project1/Qauadtree.cs`. Despite its file name, that file holds a second
  `Program`, not the tree. `Environment.Exit(0)` becomes the flag `halted`.
- `variants.dfy` (`Variants`): how the two interpreters compare.

Each interpreter's per-line `ProcessCommand` is a function: `Parse` turns the
line into a `Command`, then `Execute` makes the calls on the tree. The
`foreach` of `Main` is a method `Run` with a `while` loop. That method is
proved equal to the fold `RunSpec`, and the run-level lemmas are stated about
`RunSpec`. The strict `Run` leaves its loop as soon as a line halts the run.

Three details of the interpreters that the model keeps:

- Tokens are separated by the space character only; a tab is part of a token.
- `help` is a verb in `UpdateProgram.cs` only.
- `dump` takes no arity check in either version, so `dump 1 2` dumps.

Both interpreters catch `FormatException` before any other exception. A tree
call that throws therefore reports a numeric-format error when its exception
is a `FormatException` (`Throw(true)`) and a processing error otherwise
(`Throw(false)`).

## Model

| member | source | states |
|---|---|---|
| `Geometry.Rectangle.constructor` | Project1/Rectangle.cs:10-16 | the four fields equal the four arguments, unchanged |
| `Geometry.Rectangle.SetX` | Project1/Rectangle.cs:5 | setting X changes X only; Y, Length and Width keep their values |
| `Geometry.Rectangle.SetY` | Project1/Rectangle.cs:6 | setting Y changes Y only |
| `Geometry.Rectangle.SetLength` | Project1/Rectangle.cs:7 | setting Length leaves X, Y and Width untouched |
| `Geometry.Rectangle.SetWidth` | Project1/Rectangle.cs:8 | setting Width leaves X, Y and Length untouched |
| `Geometry.Rectangle.ToString` | Project1/Rectangle.cs:18-21 | reads the object only (a function with `reads this`); when no rendered number has an 'x' or a space, reading the text back gives Length, Width, X and Y in that order |
| `Geometry.Text` | Project1/Rectangle.cs:20 | the rendering "L x W at (X, Y)" starts with the rendered Length followed by `x`, ends with `)`, and is nine characters longer than the four rendered numbers together |
| `Geometry.TextParse` | Project1/Rectangle.cs:20 | "L x W at (X, Y)": parsing the rendering gives back each field's text in its own position |
| `Nodes.NewLeaf` | Project1/LeafNode.cs:9-11 | `new LeafNode(space)` is a leaf with that region and an empty `Rectangles` list, so it is not full |
| `Nodes.NewInternal` | Project1/InternalNode.cs:7-9 | `new InternalNode(space)` is an internal node with that region and four slots, all `null` |
| `Nodes.IsFull` | Project1/LeafNode.cs:13 | a leaf is full iff it holds 5 rectangles or more; an empty leaf is never full |
| `Nodes.Dump` | Project1/LeafNode.cs:15-24 | the first line is the node's own header at `level` tabs; a leaf writes one more line per rectangle (the internal case, InternalNode.cs:11-20, is the same function: header, then the slots at `level` + 1) |
| `Nodes.HeaderShape` | Project1/Node.cs:3-12 | every node's own line ends with the rendering of its one region `space`, names its variant (Leaf/Internal), has exactly `level` leading tabs and is not a rectangle line |
| `Nodes.Indent` | Project1/LeafNode.cs:17 | `new string('\t', level)`: exactly `level` characters, all tabs |
| `Nodes.FreshLeaf` | Project1/LeafNode.cs:9-13 | a new leaf has the given region and no rectangles, is not full, and dumps only its own line |
| `Nodes.FullLeafDump` | Project1/LeafNode.cs:8-13 | `IsFull` holds iff the leaf holds at least `MaxRectangles` (5) rectangles, i.e. iff its dump has more than 5 lines |
| `Nodes.LeafDump` | Project1/LeafNode.cs:15-24 | a leaf dump has 1 + |Rectangles| lines: the header at `level` tabs, then rectangle i at line 1 + i with `level` + 1 tabs and its `ToString` |
| `Nodes.RectLinesShape` | Project1/LeafNode.cs:20-23 | the `foreach` over Rectangles writes one line per rectangle, in list order, at `level` + 1 tabs |
| `Nodes.FreshInternal` | Project1/InternalNode.cs:7-9 | a new internal node has the given region and exactly four slots, all empty, and dumps only its own line |
| `Nodes.InternalDump` | Project1/InternalNode.cs:13-19 | an internal dump is its header at `level` tabs, then slots 0, 1, 2, 3 in order, each at `level` + 1; an empty slot adds no line |
| `Nodes.DumpSlotsShape` | Project1/InternalNode.cs:16-19 | the slots' output has one line per node and per rectangle below, each with at least `level` tabs, and lists the rectangles in slot order |
| `Nodes.DumpShape` | Project1/InternalNode.cs:11-20 | for any finite tree, `Dump(level)` ends and writes exactly one line per node plus one per rectangle; line 0 has exactly `level` tabs and every later line more; the rectangle lines list all stored rectangles in traversal order |
| `Tokens.Split` | Project1/Qauadtree.cs:43 | `Split(' ')` always yields at least one piece |
| `Tokens.SplitJoin` | Project1/Qauadtree.cs:43 | joining the pieces with single spaces gives the line back; no piece has a space; there is one more piece than there are spaces |
| `Tokens.SplitAppend` | Project1/Qauadtree.cs:43 | the pieces of `a + " " + b` are the pieces of `a`, then those of `b` |
| `Tokens.LeadingSpace` | Project1/Qauadtree.cs:43-44 | a leading space makes the first piece, and so the verb, empty, and adds one piece |
| `Tokens.DoubledSpace` | Project1/Qauadtree.cs:43 | a doubled space adds an empty piece, so the token count grows by one |
| `Tokens.RemoveEmpty` | Project1/UpdateProgram.cs:43 | the result has no empty entry and is no longer than the pieces; each entry is among the pieces, and every non-empty piece is among the entries; order and repeats follow from `Tokens.RemoveEmptyAppend` |
| `Tokens.RemoveEmptyKeeps` | Project1/UpdateProgram.cs:43 | pieces that are all non-empty are kept unchanged and in order |
| `Tokens.Words` | Project1/UpdateProgram.cs:43 | each token is a non-empty piece of `Split(' ')`, and each non-empty piece is a token; order and repeats follow from `Tokens.WordsAppend` |
| `Tokens.WordsShape` | Project1/UpdateProgram.cs:43 | every token is non-empty and has no space |
| `Tokens.WordsAppend` | Project1/UpdateProgram.cs:43 | the tokens of `a + " " + b` are the tokens of `a`, then those of `b` |
| `Tokens.WordsOfWord` | Project1/UpdateProgram.cs:43 | a non-empty run of non-spaces is exactly one token |
| `Tokens.WordsCollapse` | Project1/UpdateProgram.cs:43 | doubling a space, or adding a leading or trailing space, changes no token |
| `Tokens.WordsBlank` | Project1/UpdateProgram.cs:43-44 | there are no tokens iff the line is empty or all spaces |
| `Tokens.Lower` | Project1/UpdateProgram.cs:46 | same length as the input; each character is lowered on its own |
| `Tokens.LowerMatches` | Project1/UpdateProgram.cs:46 | lowering a token gives a lower-case verb iff the token spells that verb in any case |
| `Commands.Caught` | Project1/UpdateProgram.cs:151-158 | a `FormatException` gives the numeric-format message, any other exception the processing-error message |
| `Commands.ParseAll` | Project1/UpdateProgram.cs:58-61 | succeeds iff every argument parses, and then gives each argument's number in order |
| `Commands.Dispatch` | Project1/UpdateProgram.cs:50-148 | the lowered verb decides: insert/update need 5 tokens and find/delete need 3, or it is a usage error; with the right arity, one bad number makes it a format error, otherwise the command carries the parsed numbers; `dump` ignores arity; `help` only where enabled; anything else is unknown |
| `UpdateProgram.Parse` | Project1/UpdateProgram.cs:43-50 | a line parses as blank iff it has no tokens; otherwise it is `help` iff the first token lowers to `help` |
| `UpdateProgram.Execute` | Project1/UpdateProgram.cs:50-158 | a command calls the tree (at most twice) iff it is insert/find/delete/update/dump, and otherwise leaves the state unchanged; a blank line writes nothing, and every other command except an insertion writes at least one message |
| `UpdateProgram.Process` | Project1/UpdateProgram.cs:41-158 | one line makes at most two calls; a line without tokens does nothing at all |
| `UpdateProgram.RunSpec` | Project1/UpdateProgram.cs:30-33 | the lines make at most two calls each; no lines leave the state as it was |
| `UpdateProgram.Run` | Project1/UpdateProgram.cs:30-33 | the loop over the lines gives exactly the fold `RunSpec` of `ProcessCommand` over them |
| `UpdateProgram.BlankLine` | Project1/UpdateProgram.cs:43-44 | a line parses as blank iff it is empty or all spaces; such a line makes no call and writes nothing |
| `UpdateProgram.SpacesCollapse` | Project1/UpdateProgram.cs:43 | doubling a space, or padding with spaces, gives the same command |
| `UpdateProgram.VerbIgnoresCase` | Project1/UpdateProgram.cs:46-52 | five tokens with four numbers are an insertion iff the first token spells `insert` in any case |
| `UpdateProgram.CallsOnlyForTreeCommands` | Project1/UpdateProgram.cs:50-148 | no call is made iff the command is not insert/find/delete/update/dump; the tree state is then unchanged (help, unknown, usage, format error, blank) |
| `UpdateProgram.BadNumberNoCall` | Project1/UpdateProgram.cs:151-154 | right arity with a non-numeric argument: a format error, no call, and the state unchanged |
| `UpdateProgram.WrongArityNoCall` | Project1/UpdateProgram.cs:53-57 | a known verb with the wrong token count: a usage message, no call |
| `UpdateProgram.DuplicateAllowed` | Project1/UpdateProgram.cs:63-69 | when `Find` does not throw, `Insert` follows it whatever `Find` found; the warning appears iff `Find` found a rectangle |
| `UpdateProgram.SuccessReported` | Project1/UpdateProgram.cs:101-129 | delete and update report success iff the tree call returned true |
| `UpdateProgram.RunAppend` | Project1/UpdateProgram.cs:30-33 | running `a + b` is running `a`, then `b` from the state `a` left: each line once, in order, and no error stops the run |
| `UpdateProgram.LaterLineProcessed` | Project1/UpdateProgram.cs:151-158 | a line's calls and messages are appended to whatever the earlier lines did, errors included |
| `QauadtreeProgram.Parse` | Project1/Qauadtree.cs:43-44 | splitting on every space never yields a blank line or a `help` command |
| `QauadtreeProgram.Execute` | Project1/Qauadtree.cs:48-152 | a command calls the tree (at most twice) iff it is insert/find/delete/update/dump; otherwise the state is unchanged, exactly one message is written and only a bad number halts; a wrong arity writes the usage message for its verb and processing continues; at most one message is written in any case |
| `QauadtreeProgram.Process` | Project1/Qauadtree.cs:41-153 | one line makes at most two calls; an unknown verb writes one message, calls nothing and does not halt |
| `QauadtreeProgram.RunSpec` | Project1/Qauadtree.cs:30-33 | the lines make at most two calls each; no lines neither halt nor change the state |
| `QauadtreeProgram.Run` | Project1/Qauadtree.cs:30-33 | the loop, which stops as soon as a line halts, gives exactly the fold `RunSpec` |
| `QauadtreeProgram.HaltIsFinal` | Project1/Qauadtree.cs:65 | once the run has halted, later lines change nothing: no line is processed and no call is made |
| `QauadtreeProgram.RunAppend` | Project1/Qauadtree.cs:30-33 | running `a + b` is running `a`, then, unless `a` halted, running `b` from the state `a` left |
| `QauadtreeProgram.LeadingSpaceUnknown` | Project1/Qauadtree.cs:138-140 | an empty line, or one starting with a space, is an unknown command: one message, no call, no halt |
| `QauadtreeProgram.DoubledSpaceArity` | Project1/Qauadtree.cs:51-55 | a doubled space after a known verb with otherwise the right token count gives a usage error, not the command |
| `QauadtreeProgram.HelpUnknown` | Project1/Qauadtree.cs:138-140 | `help` in any case is an unknown command |
| `QauadtreeProgram.Halting` | Project1/Qauadtree.cs:46-152 | usage errors and unknown verbs continue with no call, a usage error writing its usage message; a bad number halts with no call; an insert whose `Find` throws or reports a rectangle halts after that one call (with the duplicate message in the second case), and an insert whose `Find` returns `null` calls `Find` then `Insert` and halts iff `Insert` threw; a find halts iff nothing was found (or it threw); delete and update halt iff the call did not return true (or threw); dump halts iff it threw |
| `QauadtreeProgram.InsertHalting` | Project1/Qauadtree.cs:56-69 | an insertion's calls, messages, end state and halt for each answer of `Find` and `Insert`, the message of an exception included |
| `QauadtreeProgram.ThrowHalts` | Project1/Qauadtree.cs:143-151 | an exception from `Find`, `Delete`, `Update` or `Dump` halts the run with the message its kind selects |
| `Variants.ParsesAgree` | Project1/Qauadtree.cs:43-44 | on a single-spaced line both parsers give the same command, except that the strict one calls `help` and an all-space line unknown |
| `Variants.ExecuteAgrees` | Project1/Qauadtree.cs:61-131 | for the same command, the strict interpreter's calls are a prefix of the lenient one's, and equal with the same end state unless it halts |
| `Variants.LineAgrees` | Project1/Qauadtree.cs:41-153 | the same holds for one single-spaced line |
| `Variants.RunsAgree` | Project1/Qauadtree.cs:30-33 | over a file of single-spaced lines, the strict run's calls are a prefix of the lenient run's; if the strict run never halts, the calls and the final tree state are the same |

## Left out

- The `Quadtree` class (insertion, split, quadrant selection, find, delete, update, dump) is not part of this model. Its operations are arbitrary functions of an abstract state, so nothing is claimed about what they return.
- File handling in `Main` is left out (argument count, `File.Exists`, `File.ReadAllLines` and the outer `catch`). The input is a given sequence of lines. No exception can reach the outer `catch` from `ProcessCommand`. In `Qauadtree.cs`, `parts[0]` outside the `try` is safe because `Split(' ')` always yields a first piece. In `UpdateProgram.cs`, `Split` with `RemoveEmptyEntries` can yield no piece, and the `parts.Length == 0` guard returns before `parts[0]` is read.
- `double.Parse` is the abstract partial function `NumberParser`; a number it rejects is a `FormatException`. Older runtimes can also raise `OverflowException`, which would be reported as a general error rather than a format error. That is not modelled.
- Number-to-text in string interpolation and `ToString` (culture-dependent floating-point formatting) is the abstract function `show`.
- `ToLower` is modelled on ASCII letters only. Culture-specific case mappings are not modelled, such as the Turkish dotted and dotless I, under which `INSERT` would not lower to `insert`.
- Console wording: only the category of each message and its key values are kept (for example a usage error for verb v, or found at (x, y) with size L x W).
- `Environment.Exit(0)` is the flag `halted`; the end of the process itself is not modelled.
- The nodes hold `Rect` values, not references, so aliasing is not captured: the `Rectangle` object a `Find` returns (and the unseen `Update` changes) is the same object the leaf holds. The reassignment of the settable `Space`, `Rectangles` and `Children` properties is also not captured, except in the `Geometry.Rectangle` class.
- `Dump` on an internal node accepts any number of slots, as the C# `foreach` over a settable array does. Only `Nodes.InternalDump` and `Nodes.FreshInternal` assume the four slots of `new Node[4]`.
- `Dump` and `Indent` take a `nat` level. In C#, `new string('\t', level)` throws `ArgumentOutOfRangeException` for a negative level. The visible callers only pass `level + 1` from a non-negative level, and the root call lives in the `Quadtree` class, which is not part of this model.
- After an exception inside a tree call, the state is whatever the abstract operation gives. Partial updates are not otherwise described.
- Geometry.Rectangle.ToString: the read-back holds only for number renderings without the letter 'x' or a space. Common culture formats meet this, but `show` is abstract.
