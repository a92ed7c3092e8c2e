/** `Program` of Qauadtree.cs: the strict interpreter. The line is split on
    every single space, `help` is not a verb, and a duplicate anchor, a
    `find` miss, a failed `delete` or `update`, a bad number or any other
    exception ends the whole run (`Environment.Exit(0)`), modelled by the
    flag `halted`. */
module QauadtreeProgram {

  import opened Wrappers
  import opened Geometry
  import opened Tokens
  import opened TreeApi
  import opened Commands

  /** What one line did, and whether it ended the run. */
  datatype Step<S> = Step(outcome: Outcome<S>, halted: bool)

  /** `command.Split(' ')` and the `switch` of `ProcessCommand`. `Split`
      always yields a first piece, possibly empty. */
  function Parse(line: string, num: NumberParser): (c: Command)
    ensures !c.Help? && !c.Blank?
  {
    Dispatch(Split(line), false, num)
  }

  function Continue<S>(s: S, calls: seq<Call>, msgs: seq<Msg>): Step<S>
  {
    Step(Outcome(s, calls, msgs), false)
  }

  function Exit<S>(s: S, calls: seq<Call>, msgs: seq<Msg>): Step<S>
  {
    Step(Outcome(s, calls, msgs), true)
  }

  /** `ProcessCommand` once the line is parsed. */
  function Execute<S>(c: Command, line: string, tree: Tree<S>, s: S): (p: Step<S>)
    requires !c.Help? && !c.Blank?
    ensures p.outcome.calls == [] <==> !CallsTree(c)
    ensures !CallsTree(c) ==> p.outcome.state == s && (p.halted <==> c.BadNumber?) && |p.outcome.msgs| == 1
    ensures c.Usage? ==> p == Continue(s, [], [UsageMsg(c.verb)])
    ensures |p.outcome.calls| <= 2 && |p.outcome.msgs| <= 1
  {
    match c
    case Usage(verb) => Continue(s, [], [UsageMsg(verb)])
    case BadNumber => Exit(s, [], [FormatError])
    case Unknown => Continue(s, [], [UnknownCommand(line)])
    case Dump =>
      var (s1, r) := tree.dump(s);
      if r.Throw? then Exit(s1, [DumpCall], [Caught(r.format)]) else Continue(s1, [DumpCall], [])
    case Find(x, y) =>
      var (s1, r) := tree.find(s, x, y);
      (match r
       case Throw(format) => Exit(s1, [FindCall(x, y)], [Caught(format)])
       case Return(None) => Exit(s1, [FindCall(x, y)], [NotFound(x, y)])
       case Return(Some(found)) => Continue(s1, [FindCall(x, y)], [Found(x, y, found.length, found.width)]))
    case Insert(x, y, length, width) =>
      var (s1, r) := tree.find(s, x, y);
      (match r
       case Throw(format) => Exit(s1, [FindCall(x, y)], [Caught(format)])
       case Return(Some(_)) => Exit(s1, [FindCall(x, y)], [DuplicateRejected])
       case Return(None) =>
         var (s2, r2) := tree.insert(s1, Rect(x, y, length, width));
         var calls := [FindCall(x, y), InsertCall(Rect(x, y, length, width))];
         if r2.Throw? then Exit(s2, calls, [Caught(r2.format)]) else Continue(s2, calls, []))
    case Delete(x, y) =>
      var (s1, r) := tree.delete(s, x, y);
      (match r
       case Throw(format) => Exit(s1, [DeleteCall(x, y)], [Caught(format)])
       case Return(true) => Continue(s1, [DeleteCall(x, y)], [])
       case Return(false) => Exit(s1, [DeleteCall(x, y)], [NothingToDelete(x, y)]))
    case Update(x, y, length, width) =>
      var (s1, r) := tree.update(s, x, y, length, width);
      (match r
       case Throw(format) => Exit(s1, [UpdateCall(x, y, length, width)], [Caught(format)])
       case Return(true) => Continue(s1, [UpdateCall(x, y, length, width)], [])
       case Return(false) => Exit(s1, [UpdateCall(x, y, length, width)], [NothingToUpdate(x, y)]))
  }

  /** `ProcessCommand(quadtree, command)`. */
  function Process<S>(line: string, tree: Tree<S>, num: NumberParser, s: S): (p: Step<S>)
    ensures |p.outcome.calls| <= 2
    ensures Parse(line, num).Unknown? ==> p == Continue(s, [], [UnknownCommand(line)])
  {
    Execute(Parse(line, num), line, tree, s)
  }

  /** The `foreach` of `Main`: once a line has ended the run, the later lines
      are not processed. */
  function RunSpec<S>(lines: seq<string>, tree: Tree<S>, num: NumberParser, s: S): (p: Step<S>)
    ensures |p.outcome.calls| <= 2 * |lines|
    ensures lines == [] ==> !p.halted && p.outcome == Outcome(s, [], [])
    decreases |lines|
  {
    if lines == [] then Step(Outcome(s, [], []), false)
    else
      var before := RunSpec(lines[..|lines| - 1], tree, num, s);
      if before.halted then before
      else
        var now := Process(lines[|lines| - 1], tree, num, before.outcome.state);
        Step(Then(before.outcome, now.outcome), now.halted)
  }

  /** Once the run has ended, more lines change nothing: no line after the
      one that ended it is processed and no further call is made. */
  lemma {:induction false} HaltIsFinal<S>(a: seq<string>, b: seq<string>, tree: Tree<S>, num: NumberParser, s: S)
    requires RunSpec(a, tree, num, s).halted
    ensures RunSpec(a + b, tree, num, s) == RunSpec(a, tree, num, s)
    decreases |b|
  {
    if b == [] {
      assert a + b == a;
    } else {
      assert (a + b)[..|a + b| - 1] == a + b[..|b| - 1];
      HaltIsFinal(a, b[..|b| - 1], tree, num, s);
    }
  }

  lemma RunStep<S>(lines: seq<string>, i: nat, tree: Tree<S>, num: NumberParser, s: S)
    requires i < |lines| && !RunSpec(lines[..i], tree, num, s).halted
    ensures var before := RunSpec(lines[..i], tree, num, s);
      var now := Process(lines[i], tree, num, before.outcome.state);
      RunSpec(lines[..i + 1], tree, num, s) == Step(Then(before.outcome, now.outcome), now.halted)
  {
    assert lines[..i + 1][..i] == lines[..i];
  }

  /** `Main` after the command file is read: the loop leaves as soon as a
      line ends the run. */
  method Run<S(==)>(lines: seq<string>, tree: Tree<S>, num: NumberParser, s: S) returns (o: Outcome<S>, halted: bool)
    ensures Step(o, halted) == RunSpec(lines, tree, num, s)
  {
    o, halted := Outcome(s, [], []), false;
    var i := 0;
    while i < |lines| && !halted
      invariant 0 <= i <= |lines|
      invariant Step(o, halted) == RunSpec(lines[..i], tree, num, s)
    {
      var now := Process(lines[i], tree, num, o.state);
      RunStep(lines, i, tree, num, s);
      o, halted := Then(o, now.outcome), now.halted;
      i := i + 1;
    }
    if halted {
      HaltIsFinal(lines[..i], lines[i..], tree, num, s);
      assert lines[..i] + lines[i..] == lines;
    } else {
      assert lines[..i] == lines;
    }
  }

  /** Sequencing two runs: the second part runs from where the first left
      the tree, unless the first ended the run. */
  function Seq<S>(first: Step<S>, second: Step<S>): Step<S>
  {
    if first.halted then first else Step(Then(first.outcome, second.outcome), second.halted)
  }

  /** The lines are processed one after another, each at most once and in
      file order, until one ends the run. */
  lemma {:induction false} RunAppend<S>(a: seq<string>, b: seq<string>, tree: Tree<S>, num: NumberParser, s: S)
    ensures RunSpec(a + b, tree, num, s) ==
      Seq(RunSpec(a, tree, num, s), RunSpec(b, tree, num, RunSpec(a, tree, num, s).outcome.state))
    decreases |b|
  {
    var first := RunSpec(a, tree, num, s);
    if first.halted {
      HaltIsFinal(a, b, tree, num, s);
    } else if b == [] {
      assert a + b == a;
      assert first.outcome.calls + [] == first.outcome.calls;
      assert first.outcome.msgs + [] == first.outcome.msgs;
    } else {
      var b' := b[..|b| - 1];
      var last := b[|b| - 1];
      assert (a + b)[..|a + b| - 1] == a + b';
      assert (a + b)[|a + b| - 1] == last;
      RunAppend(a, b', tree, num, s);
      var mid := RunSpec(b', tree, num, first.outcome.state);
      if !mid.halted {
        var p := Process(last, tree, num, mid.outcome.state);
        assert RunSpec(a + b, tree, num, s) == Step(Then(Then(first.outcome, mid.outcome), p.outcome), p.halted);
        assert RunSpec(b, tree, num, first.outcome.state) == Step(Then(mid.outcome, p.outcome), p.halted);
        ThenAssoc(first.outcome, mid.outcome, p.outcome);
      }
    }
  }

  // ---- Properties of one line ----

  /** A leading space makes the verb empty, so the line is an unknown
      command; so is an empty line. Neither ends the run or calls the tree. */
  lemma LeadingSpaceUnknown<S>(rest: string, tree: Tree<S>, num: NumberParser, s: S)
    ensures Parse(" " + rest, num) == Unknown && Parse("", num) == Unknown
    ensures Process(" " + rest, tree, num, s) == Continue(s, [], [UnknownCommand(" " + rest)])
    ensures Process("", tree, num, s) == Continue(s, [], [UnknownCommand("")])
  {
    LeadingSpace(rest);
  }

  /** A doubled space adds an empty token: `insert  x y l w` has six tokens
      and is an arity error, not an insertion. */
  lemma DoubledSpaceArity(a: string, b: string, num: NumberParser)
    requires ' ' !in a && a != "" && Arity(Lower(a)) == Some(|Split(a + " " + b)|)
    ensures Parse(a + "  " + b, num) == Usage(Lower(a))
  {
    DoubledSpace(a, b);
    SplitWord(a);
    SplitAppend(a, b);
  }

  /** There is no `help` verb. */
  lemma HelpUnknown(line: string, num: NumberParser)
    requires Lower(Split(line)[0]) == "help"
    ensures Parse(line, num) == Unknown
  {
  }

  /** Which lines end the run: a bad number; a tree exception, reported as
      a numeric-format error when it is a `FormatException`; an insertion at
      an anchor `Find` reports (the insertion is then not made); a `find`
      miss; a `delete` or `update` the tree answers `false`. Arity errors and
      unknown verbs do not; an insertion at a free anchor goes on to
      `Insert` and ends the run only if that throws. */
  lemma Halting<S>(line: string, tree: Tree<S>, num: NumberParser, s: S)
    ensures var c := Parse(line, num); var p := Process(line, tree, num, s);
      && (c.Usage? || c.Unknown? ==> !p.halted && p.outcome.calls == [] && p.outcome.state == s)
      && (c.Usage? ==> p.outcome.msgs == [UsageMsg(c.verb)])
      && (c.BadNumber? ==> p.halted && p.outcome.calls == [] && p.outcome.state == s)
      && (c.Insert? && tree.find(s, c.x, c.y).1.Throw? ==> p.halted && p.outcome.calls == [FindCall(c.x, c.y)])
      && (c.Insert? && tree.find(s, c.x, c.y).1.Return? && tree.find(s, c.x, c.y).1.value.Some? ==>
            p.halted && p.outcome.calls == [FindCall(c.x, c.y)] && p.outcome.msgs == [DuplicateRejected])
      && (c.Insert? && tree.find(s, c.x, c.y).1 == Return(None) ==>
            && p.outcome.calls == [FindCall(c.x, c.y), InsertCall(Rect(c.x, c.y, c.length, c.width))]
            && (p.halted <==> tree.insert(tree.find(s, c.x, c.y).0, Rect(c.x, c.y, c.length, c.width)).1.Throw?))
      && (c.Find? ==> (p.halted <==> !(tree.find(s, c.x, c.y).1.Return? && tree.find(s, c.x, c.y).1.value.Some?)))
      && (c.Delete? ==> (p.halted <==> tree.delete(s, c.x, c.y).1 != Return(true)))
      && (c.Update? ==> (p.halted <==> tree.update(s, c.x, c.y, c.length, c.width).1 != Return(true)))
      && (c.Dump? ==> (p.halted <==> tree.dump(s).1.Throw?))
  {
    var c := Parse(line, num);
    if c.Insert? {
      InsertHalting(c.x, c.y, c.length, c.width, line, tree, s);
    }
  }

  /** An insertion: `Find` first; if it throws or reports a rectangle the run
      ends after that one call, otherwise `Insert` follows and the run ends
      only if `Insert` throws. */
  lemma InsertHalting<S>(x: real, y: real, length: real, width: real, line: string, tree: Tree<S>, s: S)
    ensures var f := tree.find(s, x, y); var p := Execute(Insert(x, y, length, width), line, tree, s);
      && (f.1.Throw? ==> p.halted && p.outcome.calls == [FindCall(x, y)] && p.outcome.msgs == [Caught(f.1.format)]
                         && p.outcome.state == f.0)
      && (f.1.Return? && f.1.value.Some? ==>
            p.halted && p.outcome.calls == [FindCall(x, y)] && p.outcome.msgs == [DuplicateRejected] && p.outcome.state == f.0)
      && (f.1 == Return(None) ==>
            var i := tree.insert(f.0, Rect(x, y, length, width));
            && p.outcome.calls == [FindCall(x, y), InsertCall(Rect(x, y, length, width))]
            && p.outcome.state == i.0
            && (p.halted <==> i.1.Throw?)
            && p.outcome.msgs == (if i.1.Throw? then [Caught(i.1.format)] else []))
  {
  }

  /** An exception from the tree ends the run whatever the command, after
      the one call that raised it, with the message its kind selects. */
  lemma ThrowHalts<S>(line: string, tree: Tree<S>, num: NumberParser, s: S)
    ensures var c := Parse(line, num); var p := Process(line, tree, num, s);
      && (c.Find? && tree.find(s, c.x, c.y).1.Throw? ==>
            p.halted && p.outcome.msgs == [Caught(tree.find(s, c.x, c.y).1.format)])
      && (c.Delete? && tree.delete(s, c.x, c.y).1.Throw? ==>
            p.halted && p.outcome.msgs == [Caught(tree.delete(s, c.x, c.y).1.format)])
      && (c.Update? && tree.update(s, c.x, c.y, c.length, c.width).1.Throw? ==>
            p.halted && p.outcome.msgs == [Caught(tree.update(s, c.x, c.y, c.length, c.width).1.format)])
      && (c.Dump? && tree.dump(s).1.Throw? ==>
            p.halted && p.outcome.msgs == [Caught(tree.dump(s).1.format)])
  {
  }
}
