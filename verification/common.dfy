/** Types shared by the construction model and the command recorder. */
module Common {

  /** An optional value; `None` stands for the source's "not found" / "not ok" results. */
  datatype Option<+T> = None | Some(value: T)

  /** A position in model space. The source stores doubles; here both coordinates
      are integers, and the floating-point comparisons the source makes on them
      are parameters of the operations that need them. */
  datatype Pos = Pos(x: int, y: int)
}
