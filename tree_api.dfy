/** The operations the command interpreters call on the `Quadtree`. The
    `Quadtree` class itself is not part of this model: its state is an
    abstract type `S` and each operation an arbitrary total function of that
    state, which may also end in an exception. */
module TreeApi {

  import opened Wrappers
  import opened Geometry

  /** One call made on the tree, with its arguments. */
  datatype Call =
    | FindCall(x: real, y: real)
    | InsertCall(rect: Rect)
    | DeleteCall(x: real, y: real)
    | UpdateCall(x: real, y: real, length: real, width: real)
    | DumpCall

  /** How a call ended: it returned a value or raised an exception;
      `format` tells a `FormatException` from any other exception, since
      both interpreters catch that kind first. */
  datatype Reply<+T> = Return(value: T) | Throw(format: bool)

  /** `Quadtree.Find`, `Insert`, `Delete`, `Update` and `Dump`; each gives the
      tree's next state. A `Find` answer of `None` stands for `null`. */
  datatype Tree<!S> = Tree(
    find: (S, real, real) -> (S, Reply<Option<Rect>>),
    insert: (S, Rect) -> (S, Reply<()>),
    delete: (S, real, real) -> (S, Reply<bool>),
    update: (S, real, real, real, real) -> (S, Reply<bool>),
    dump: S -> (S, Reply<()>))
}
