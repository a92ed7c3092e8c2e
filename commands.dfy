/** What both versions of `Program.ProcessCommand` share: the verbs, their
    arities, the parsing of numeric arguments and the categories of console
    messages. */
module Commands {

  import opened Wrappers
  import opened Tokens
  import opened TreeApi

  /** A command line after tokenizing, verb matching, arity checking and
      number parsing, and before any call on the tree. */
  datatype Command =
    | Insert(x: real, y: real, length: real, width: real)
    | Find(x: real, y: real)
    | Delete(x: real, y: real)
    | Update(x: real, y: real, length: real, width: real)
    | Dump
    | Help
    | Usage(verb: string)  // a known verb with the wrong number of tokens
    | BadNumber            // `double.Parse` raised `FormatException`
    | Unknown              // the `default` branch of the switch
    | Blank                // no tokens at all

  /** The commands that call the tree. */
  predicate CallsTree(c: Command)
  {
    c.Insert? || c.Find? || c.Delete? || c.Update? || c.Dump?
  }

  /** The categories of what is written to the console. */
  datatype Msg =
    | UsageMsg(verb: string)
    | FormatError
    | ProcessingError
    | DuplicateWarning
    | DuplicateRejected
    | Found(x: real, y: real, length: real, width: real)
    | NotFound(x: real, y: real)
    | Deleted(x: real, y: real)
    | NothingToDelete(x: real, y: real)
    | Updated(x: real, y: real, length: real, width: real)
    | NothingToUpdate(x: real, y: real)
    | DumpHeading
    | HelpText
    | UnknownCommand(line: string)

  /** What the `catch` clauses write for an exception from the tree: a
      `FormatException` is caught by the first clause, as a numeric-format
      error, and any other exception by the second. */
  function Caught(format: bool): (m: Msg)
    ensures m == FormatError <==> format
    ensures m == ProcessingError <==> !format
  {
    if format then FormatError else ProcessingError
  }

  /** The tree's state after some lines, the calls made on it and the
      messages written, in order. */
  datatype Outcome<S> = Outcome(state: S, calls: seq<Call>, msgs: seq<Msg>)

  /** `first`, then `second` from where `first` left the tree. */
  function Then<S>(first: Outcome<S>, second: Outcome<S>): Outcome<S>
  {
    Outcome(second.state, first.calls + second.calls, first.msgs + second.msgs)
  }

  /** Sequencing outcomes is associative. */
  lemma ThenAssoc<S>(o1: Outcome<S>, o2: Outcome<S>, o3: Outcome<S>)
    ensures Then(Then(o1, o2), o3) == Then(o1, Then(o2, o3))
  {
    assert o1.calls + o2.calls + o3.calls == o1.calls + (o2.calls + o3.calls);
    assert o1.msgs + o2.msgs + o3.msgs == o1.msgs + (o2.msgs + o3.msgs);
  }

  /** `double.Parse`: a partial function from text to a number, left abstract. */
  type NumberParser = string -> Option<real>

  /** The number of tokens a verb needs, the verb included. */
  function Arity(verb: string): Option<nat>
  {
    if verb == "insert" || verb == "update" then Some(5)
    else if verb == "find" || verb == "delete" then Some(3)
    else None
  }

  predicate AllNumbers(args: seq<string>, num: NumberParser)
  {
    forall i :: 0 <= i < |args| ==> num(args[i]).Some?
  }

  /** Parses every argument, in order; fails if any one fails. */
  function ParseAll(args: seq<string>, num: NumberParser): (r: Option<seq<real>>)
    ensures r.Some? <==> AllNumbers(args, num)
    ensures r.Some? ==> |r.value| == |args| && forall i :: 0 <= i < |args| ==> num(args[i]) == Some(r.value[i])
  {
    if args == [] then Some([])
    else match (num(args[0]), ParseAll(args[1..], num))
      case (Some(v), Some(vs)) => Some([v] + vs)
      case _ => None
  }

  /** The `switch` on the lower-cased first token. A known verb is first
      checked for its arity, then all its numbers are parsed; `dump` takes
      no arity check; `help` is a verb only where `withHelp` holds. */
  function Dispatch(parts: seq<string>, withHelp: bool, num: NumberParser): (c: Command)
    requires |parts| >= 1
    ensures var verb := Lower(parts[0]);
      && (c.Usage? <==> Arity(verb).Some? && |parts| != Arity(verb).value)
      && (c.Usage? ==> c.verb == verb)
      && (c.BadNumber? <==> Arity(verb).Some? && |parts| == Arity(verb).value && !AllNumbers(parts[1..], num))
      && (c.Insert? || c.Find? || c.Delete? || c.Update? <==>
            Arity(verb).Some? && |parts| == Arity(verb).value && AllNumbers(parts[1..], num))
      && (c.Insert? ==> verb == "insert" && num(parts[1]) == Some(c.x) && num(parts[2]) == Some(c.y)
                          && num(parts[3]) == Some(c.length) && num(parts[4]) == Some(c.width))
      && (c.Update? ==> verb == "update" && num(parts[1]) == Some(c.x) && num(parts[2]) == Some(c.y)
                          && num(parts[3]) == Some(c.length) && num(parts[4]) == Some(c.width))
      && (c.Find? ==> verb == "find" && num(parts[1]) == Some(c.x) && num(parts[2]) == Some(c.y))
      && (c.Delete? ==> verb == "delete" && num(parts[1]) == Some(c.x) && num(parts[2]) == Some(c.y))
      && (c.Dump? <==> verb == "dump")
      && (c.Help? <==> withHelp && verb == "help")
      && (c.Unknown? <==> Arity(verb).None? && verb != "dump" && !(withHelp && verb == "help"))
      && !c.Blank?
  {
    var verb := Lower(parts[0]);
    match Arity(verb)
    case Some(n) =>
      if |parts| != n then Usage(verb)
      else
        match ParseAll(parts[1..], num) {
          case None => BadNumber
          case Some(v) =>
            if verb == "insert" then Insert(v[0], v[1], v[2], v[3])
            else if verb == "update" then Update(v[0], v[1], v[2], v[3])
            else if verb == "find" then Find(v[0], v[1])
            else Delete(v[0], v[1])
        }
    case None =>
      if verb == "dump" then Dump
      else if withHelp && verb == "help" then Help
      else Unknown
  }
}
