/** The part of go/ast the rewriters build and inspect, in two forms.

    Statements and expressions as values: what a handler block holds, what the
    rewriters generate, and what trimming and renaming work on.

    A file as a node table: the nodes in the order a preorder walk (astutil.Apply)
    meets them, each with the index of its parent, which comes earlier. A node's
    index stands for its pointer identity; `pos` is its position relative to the
    start of the file, as the check and handle maps record it. */
module GoTree {
  import opened Wrappers

  datatype Expr =
    | Ident(name: string)
    | Call(fun: Expr, args: seq<Expr>)
    | Binary(x: Expr, op: string, y: Expr)
    | Selector(x: Expr, sel: string)
    | StructType
    | OtherExpr(subs: seq<Expr>)

  datatype Stmt =
    | ExprStmt(x: Expr)
    | Assign(lhs: seq<Expr>, define: bool, rhs: seq<Expr>)
    | Return(results: seq<Expr>)
    | If(cond: Expr, body: seq<Stmt>, els: Option<Stmt>)
    | Block(list: seq<Stmt>)
    | OtherStmt(exprs: seq<Expr>, stmts: seq<Stmt>)

  /** A call of the identifier `name`. */
  predicate CallsIdent(x: Expr, name: string)
  {
    x.Call? && x.fun.Ident? && x.fun.name == name
  }

  function Idents(names: seq<string>): (r: seq<Expr>)
    ensures |r| == |names| && forall i :: 0 <= i < |names| ==> r[i] == Ident(names[i])
  {
    seq(|names|, i requires 0 <= i < |names| => Ident(names[i]))
  }

  // ---------------------------------------------------------------------------
  // The node table.

  datatype NodeKind =
    | FileNode
    | FuncDecl
    | FuncLit
    | BlockStmt
    | ExprStmtNode
    | AssignStmt
    | ReturnStmt
    | IfStmt
    | ClauseStmt      // a case or comm clause: a statement whose body is a statement list
    | OtherStmtNode
    | CallExpr
    | BinaryExpr
    | KeyValueExpr
    | IdentExpr
    | OtherExprNode
    | OtherNode

  predicate IsFunc(k: NodeKind)
  {
    k == FuncDecl || k == FuncLit
  }

  predicate IsStmt(k: NodeKind)
  {
    k == BlockStmt || k == ExprStmtNode || k == AssignStmt || k == ReturnStmt || k == IfStmt || k == ClauseStmt || k == OtherStmtNode
  }

  /** A node whose statements form a slice (a block's list, a clause's body),
      from which astutil can delete one. */
  predicate HoldsList(k: NodeKind)
  {
    k == BlockStmt || k == ClauseStmt
  }

  predicate IsExpr(k: NodeKind)
  {
    k == FuncLit || k == CallExpr || k == BinaryExpr || k == KeyValueExpr || k == IdentExpr || k == OtherExprNode
  }

  datatype Node = Node(kind: NodeKind, parent: int, pos: int)

  /** Every parent comes before its children; -1 marks a root. */
  predicate Tree(nodes: seq<Node>)
  {
    forall i :: 0 <= i < |nodes| ==> -1 <= nodes[i].parent < i
  }

  /** The parent of node i, if any. */
  function Parent(nodes: seq<Node>, i: int): Option<int>
    requires Tree(nodes) && 0 <= i < |nodes|
    ensures var r := Parent(nodes, i); r.Some? ==> 0 <= r.value < i
  {
    if nodes[i].parent < 0 then None else Some(nodes[i].parent)
  }

  /** j is i or lies below it. */
  predicate Within(nodes: seq<Node>, j: int, i: int)
    requires Tree(nodes) && 0 <= j < |nodes|
    decreases j
  {
    j == i || (nodes[j].parent >= 0 && Within(nodes, nodes[j].parent, i))
  }

  /** Everything below a node comes after it. */
  lemma {:induction false} WithinAfter(nodes: seq<Node>, j: int, i: int)
    requires Tree(nodes) && 0 <= j < |nodes| && Within(nodes, j, i)
    ensures i <= j
    decreases j
  {
    if j != i {
      WithinAfter(nodes, nodes[j].parent, i);
    }
  }
}
