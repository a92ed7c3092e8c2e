/** `Program` of UpdateProgram.cs: the lenient interpreter. Tokens are the
    non-empty pieces between spaces, `help` is a verb, a duplicate anchor is
    only warned about, and no error stops the run. */
module UpdateProgram {

  import opened Wrappers
  import opened Geometry
  import opened Tokens
  import opened TreeApi
  import opened Commands

  /** Tokenizing (`RemoveEmptyEntries`) and the `switch` of `ProcessCommand`. */
  function Parse(line: string, num: NumberParser): (c: Command)
    ensures c.Blank? <==> Words(line) == []
    ensures !c.Blank? ==> (c.Help? <==> Lower(Words(line)[0]) == "help")
  {
    var parts := Words(line);
    if parts == [] then Blank else Dispatch(parts, true, num)
  }

  /** `ProcessCommand` once the line is parsed: the calls made on the tree
      and the messages written. An exception raised by the tree is caught
      and reported. */
  function Execute<S>(c: Command, line: string, tree: Tree<S>, s: S): (o: Outcome<S>)
    ensures o.calls == [] <==> !CallsTree(c)
    ensures !CallsTree(c) ==> o.state == s
    ensures 0 < |o.calls| <= 2 <==> CallsTree(c)
    ensures c.Blank? ==> o.msgs == []
    ensures !c.Blank? && !c.Insert? ==> o.msgs != []
  {
    match c
    case Blank => Outcome(s, [], [])
    case Usage(verb) => Outcome(s, [], [UsageMsg(verb)])
    case BadNumber => Outcome(s, [], [FormatError])
    case Help => Outcome(s, [], [HelpText])
    case Unknown => Outcome(s, [], [UnknownCommand(line)])
    case Dump =>
      var (s1, r) := tree.dump(s);
      Outcome(s1, [DumpCall], [DumpHeading] + (if r.Throw? then [Caught(r.format)] else []))
    case Find(x, y) =>
      var (s1, r) := tree.find(s, x, y);
      var msg := match r
        case Throw(format) => Caught(format)
        case Return(None) => NotFound(x, y)
        case Return(Some(found)) => Found(x, y, found.length, found.width);
      Outcome(s1, [FindCall(x, y)], [msg])
    case Insert(x, y, length, width) =>
      var (s1, r) := tree.find(s, x, y);
      if r.Throw? then Outcome(s1, [FindCall(x, y)], [Caught(r.format)])
      else
        var warning := if r.value.Some? then [DuplicateWarning] else [];
        var (s2, r2) := tree.insert(s1, Rect(x, y, length, width));
        Outcome(s2, [FindCall(x, y), InsertCall(Rect(x, y, length, width))],
                warning + (if r2.Throw? then [Caught(r2.format)] else []))
    case Delete(x, y) =>
      var (s1, r) := tree.delete(s, x, y);
      var msg := match r
        case Throw(format) => Caught(format)
        case Return(true) => Deleted(x, y)
        case Return(false) => NothingToDelete(x, y);
      Outcome(s1, [DeleteCall(x, y)], [msg])
    case Update(x, y, length, width) =>
      var (s1, r) := tree.update(s, x, y, length, width);
      var msg := match r
        case Throw(format) => Caught(format)
        case Return(true) => Updated(x, y, length, width)
        case Return(false) => NothingToUpdate(x, y);
      Outcome(s1, [UpdateCall(x, y, length, width)], [msg])
  }

  /** `ProcessCommand(quadtree, command)`. */
  function Process<S>(line: string, tree: Tree<S>, num: NumberParser, s: S): (o: Outcome<S>)
    ensures |o.calls| <= 2
    ensures Words(line) == [] ==> o == Outcome(s, [], [])
  {
    Execute(Parse(line, num), line, tree, s)
  }

  /** The `foreach` of `Main` over lines `lines` from tree state `s`. */
  function RunSpec<S>(lines: seq<string>, tree: Tree<S>, num: NumberParser, s: S): (o: Outcome<S>)
    ensures |o.calls| <= 2 * |lines|
    ensures lines == [] ==> o == Outcome(s, [], [])
    decreases |lines|
  {
    if lines == [] then Outcome(s, [], [])
    else
      var before := RunSpec(lines[..|lines| - 1], tree, num, s);
      Then(before, Process(lines[|lines| - 1], tree, num, before.state))
  }

  lemma RunStep<S>(lines: seq<string>, i: nat, tree: Tree<S>, num: NumberParser, s: S)
    requires i < |lines|
    ensures RunSpec(lines[..i + 1], tree, num, s) ==
      Then(RunSpec(lines[..i], tree, num, s), Process(lines[i], tree, num, RunSpec(lines[..i], tree, num, s).state))
  {
    assert lines[..i + 1][..i] == lines[..i];
  }

  /** `Main` after the command file is read: every line, in file order. */
  method Run<S(==)>(lines: seq<string>, tree: Tree<S>, num: NumberParser, s: S) returns (o: Outcome<S>)
    ensures o == RunSpec(lines, tree, num, s)
  {
    o := Outcome(s, [], []);
    var i := 0;
    while i < |lines|
      invariant 0 <= i <= |lines|
      invariant o == RunSpec(lines[..i], tree, num, s)
    {
      var now := Process(lines[i], tree, num, o.state);
      RunStep(lines, i, tree, num, s);
      o := Then(o, now);
      i := i + 1;
    }
    assert lines[..i] == lines;
  }

  // ---- Properties of one line ----

  /** An empty or all-space line is ignored: no call and no message. */
  lemma BlankLine<S>(line: string, tree: Tree<S>, num: NumberParser, s: S)
    ensures Parse(line, num) == Blank <==> forall i :: 0 <= i < |line| ==> line[i] == ' '
    ensures (forall i :: 0 <= i < |line| ==> line[i] == ' ') ==> Process(line, tree, num, s) == Outcome(s, [], [])
  {
    WordsBlank(line);
  }

  /** Runs of spaces do not matter: doubling a space or padding the line
      with spaces gives the same command. */
  lemma SpacesCollapse(a: string, b: string, num: NumberParser)
    ensures Parse(a + "  " + b, num) == Parse(a + " " + b, num)
    ensures Parse(" " + a, num) == Parse(a, num)
    ensures Parse(a + " ", num) == Parse(a, num)
  {
    WordsCollapse(a, b);
  }

  /** The verb is matched in any case: a first token that spells `insert`
      in any mixture of cases, followed by four numbers, is an insertion. */
  lemma VerbIgnoresCase(line: string, num: NumberParser)
    requires |Words(line)| == 5 && AllNumbers(Words(line)[1..], num)
    ensures Parse(line, num).Insert? <==> SameIgnoringCase(Words(line)[0], "insert")
  {
    LowerMatches(Words(line)[0], "insert");
  }

  /** The tree is called exactly for `insert`, `find`, `delete`, `update`
      and `dump`; every other line (blank, wrong arity, bad number, `help`,
      unknown verb) leaves the tree state as it was. */
  lemma CallsOnlyForTreeCommands<S>(line: string, tree: Tree<S>, num: NumberParser, s: S)
    ensures Process(line, tree, num, s).calls == [] <==> !CallsTree(Parse(line, num))
    ensures !CallsTree(Parse(line, num)) ==> Process(line, tree, num, s).state == s
  {
  }

  /** A non-numeric argument is reported before any tree call is made. */
  lemma BadNumberNoCall<S>(line: string, tree: Tree<S>, num: NumberParser, s: S)
    requires |Words(line)| >= 1
    requires Arity(Lower(Words(line)[0])) == Some(|Words(line)|)
    requires !AllNumbers(Words(line)[1..], num)
    ensures Process(line, tree, num, s) == Outcome(s, [], [FormatError])
  {
  }

  /** Wrong arity: a usage message and no tree call. */
  lemma WrongArityNoCall<S>(line: string, tree: Tree<S>, num: NumberParser, s: S)
    requires |Words(line)| >= 1
    requires Arity(Lower(Words(line)[0])).Some? && Arity(Lower(Words(line)[0])) != Some(|Words(line)|)
    ensures Process(line, tree, num, s) == Outcome(s, [], [UsageMsg(Lower(Words(line)[0]))])
  {
  }

  /** An insertion at an anchor where `Find` already reports a rectangle is
      still made; only a warning is added. */
  lemma DuplicateAllowed<S>(line: string, tree: Tree<S>, num: NumberParser, s: S)
    requires Parse(line, num).Insert?
    requires var c := Parse(line, num); tree.find(s, c.x, c.y).1.Return?
    ensures var c := Parse(line, num);
      var o := Process(line, tree, num, s);
      && o.calls == [FindCall(c.x, c.y), InsertCall(Rect(c.x, c.y, c.length, c.width))]
      && (DuplicateWarning in o.msgs <==> tree.find(s, c.x, c.y).1.value.Some?)
  {
  }

  /** `delete` and `update` report success exactly when the tree answers `true`. */
  lemma SuccessReported<S>(line: string, tree: Tree<S>, num: NumberParser, s: S)
    ensures var c := Parse(line, num);
      c.Delete? ==> (Process(line, tree, num, s).msgs == [Deleted(c.x, c.y)] <==> tree.delete(s, c.x, c.y).1 == Return(true))
    ensures var c := Parse(line, num);
      c.Update? ==> (Process(line, tree, num, s).msgs == [Updated(c.x, c.y, c.length, c.width)]
                     <==> tree.update(s, c.x, c.y, c.length, c.width).1 == Return(true))
  {
  }

  // ---- Properties of the whole run ----

  /** The lines are processed one after another, each exactly once and in
      file order, and whatever happens on the first lines the later ones are
      processed from the state they left. */
  lemma {:induction false} RunAppend<S>(a: seq<string>, b: seq<string>, tree: Tree<S>, num: NumberParser, s: S)
    ensures RunSpec(a + b, tree, num, s) == Then(RunSpec(a, tree, num, s), RunSpec(b, tree, num, RunSpec(a, tree, num, s).state))
    decreases |b|
  {
    if b == [] {
      assert a + b == a;
    } else {
      var b' := b[..|b| - 1];
      assert (a + b)[..|a + b| - 1] == a + b';
      assert (a + b)[|a + b| - 1] == b[|b| - 1];
      var last := b[|b| - 1];
      RunAppend(a, b', tree, num, s);
      var first := RunSpec(a, tree, num, s);
      var mid := RunSpec(b', tree, num, first.state);
      var p := Process(last, tree, num, mid.state);
      assert RunSpec(a + b, tree, num, s) == Then(Then(first, mid), p);
      assert RunSpec(b, tree, num, first.state) == Then(mid, p);
      ThenAssoc(first, mid, p);
    }
  }

  /** In particular a line is processed whatever the lines before did:
      its calls and messages end the trace. */
  lemma LaterLineProcessed<S>(a: seq<string>, line: string, tree: Tree<S>, num: NumberParser, s: S)
    ensures var before := RunSpec(a, tree, num, s);
      var now := Process(line, tree, num, before.state);
      RunSpec(a + [line], tree, num, s) == Outcome(now.state, before.calls + now.calls, before.msgs + now.msgs)
  {
    assert (a + [line])[..|a|] == a;
  }
}
