/**
 * The part of the scheduled netlist the dynamic-scheduler preparation pass
 * looks at: expressions with their data types, and the statements and
 * blocks that hold them.
 */
module DynSchedAst {
  /** A data type: its identity (the node it is), its name and its width. */
  datatype DType = DType(id: nat, name: string, width: nat)

  /** Expressions; a variable reference names its variable scope and its variable. */
  datatype Expr =
    | Const(value: int, dtype: DType)
    | VarRef(vsc: nat, varId: nat, dtype: DType)
    | ArraySel(from: Expr, bit: Expr, dtype: DType)
    | Sel(from: Expr, lsb: Expr, widthp: Expr, dtype: DType)
    | CMath(text: string, dtype: DType)
    | Op(name: string, args: seq<Expr>, dtype: DType)

  /**
   * Statements and blocks. `done` is the processed mark a delayed
   * assignment carries once the rewrite has seen it; a wait lists the
   * references it is sensitive to, one per variable, and holds the
   * statements it guards.
   */
  datatype Node =
    | CFuncNode(kids: seq<Node>)
    | ActiveNode(kids: seq<Node>)
    | AssignDlyNode(lhs: Expr, rhs: Expr, done: bool)
    | AssignNode(lhs: Expr, rhs: Expr)
    | WaitNode(cond: Expr, varrefs: map<nat, Expr>, kids: seq<Node>)
    | OtherNode(kids: seq<Node>)
}
