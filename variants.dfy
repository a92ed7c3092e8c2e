/** How the two interpreters compare. They share the verbs, the arities and
    the number parsing; they differ in tokenizing, in `help`, in the
    duplicate-anchor policy and in halting. On lines without doubled,
    leading or trailing spaces they make the same calls on the tree until
    the strict one ends the run. */
module Variants {

  import opened Geometry
  import opened Tokens
  import opened TreeApi
  import opened Commands
  import UpdateProgram
  import QauadtreeProgram

  /** A line both tokenizers read alike: no piece between spaces is empty,
      or the line is all spaces. */
  predicate SingleSpaced(line: string)
  {
    (forall i :: 0 <= i < |Split(line)| ==> Split(line)[i] != "") || (forall i :: 0 <= i < |line| ==> line[i] == ' ')
  }

  /** The same command makes the same calls in both interpreters, up to the
      point where the strict one ends the run. */
  lemma ExecuteAgrees<S>(c: Command, line: string, tree: Tree<S>, s: S)
    requires !c.Help? && !c.Blank?
    ensures var u := UpdateProgram.Execute(c, line, tree, s);
      var q := QauadtreeProgram.Execute(c, line, tree, s);
      && q.outcome.calls <= u.calls
      && (!q.halted ==> q.outcome.calls == u.calls && q.outcome.state == u.state)
  {
    match c
    case Insert(x, y, length, width) =>
      var (s1, r) := tree.find(s, x, y);
      if r.Return? && r.value.None? {
        var (s2, r2) := tree.insert(s1, Rect(x, y, length, width));
        assert UpdateProgram.Execute(c, line, tree, s).state == s2;
      }
    case _ =>
  }

  /** What each tokenizer makes of one single-spaced line: the same command,
      except that `help` and an all-space line are unknown to the strict one. */
  lemma ParsesAgree(line: string, num: NumberParser)
    requires SingleSpaced(line)
    ensures var u := UpdateProgram.Parse(line, num);
      var q := QauadtreeProgram.Parse(line, num);
      q == u || ((u.Help? || u.Blank?) && q.Unknown?)
  {
    WordsBlank(line);
    if forall i :: 0 <= i < |line| ==> line[i] == ' ' {
      assert Split(line)[0] == "";
    } else {
      RemoveEmptyKeeps(Split(line));
      assert Words(line) == Split(line);
    }
  }

  /** On a single-spaced line the strict interpreter makes a prefix of the
      calls the lenient one makes, all of them unless it ends the run, and
      then leaves the tree in the same state. */
  lemma LineAgrees<S>(line: string, tree: Tree<S>, num: NumberParser, s: S)
    requires SingleSpaced(line)
    ensures var u := UpdateProgram.Process(line, tree, num, s);
      var q := QauadtreeProgram.Process(line, tree, num, s);
      && q.outcome.calls <= u.calls
      && (!q.halted ==> q.outcome.calls == u.calls && q.outcome.state == u.state)
  {
    ParsesAgree(line, num);
    var c := QauadtreeProgram.Parse(line, num);
    if c == UpdateProgram.Parse(line, num) {
      ExecuteAgrees(c, line, tree, s);
    }
  }

  /** Over a whole file of single-spaced lines, the strict interpreter's calls
      are a prefix of the lenient one's; if it never ends the run, both make
      the same calls and leave the tree in the same state. */
  lemma {:induction false} RunsAgree<S>(lines: seq<string>, tree: Tree<S>, num: NumberParser, s: S)
    requires forall i :: 0 <= i < |lines| ==> SingleSpaced(lines[i])
    ensures var u := UpdateProgram.RunSpec(lines, tree, num, s);
      var q := QauadtreeProgram.RunSpec(lines, tree, num, s);
      && q.outcome.calls <= u.calls
      && (!q.halted ==> q.outcome.calls == u.calls && q.outcome.state == u.state)
    decreases |lines|
  {
    if lines != [] {
      var init := lines[..|lines| - 1];
      var last := lines[|lines| - 1];
      RunsAgree(init, tree, num, s);
      var u0 := UpdateProgram.RunSpec(init, tree, num, s);
      var q0 := QauadtreeProgram.RunSpec(init, tree, num, s);
      var u1 := UpdateProgram.Process(last, tree, num, u0.state);
      assert UpdateProgram.RunSpec(lines, tree, num, s).calls == u0.calls + u1.calls;
      if !q0.halted {
        LineAgrees(last, tree, num, u0.state);
      }
    }
  }
}
