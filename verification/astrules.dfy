/** The statement-level rules of the ast.go rewriter: renaming an identifier,
    trimming after the first terminating statement, the type-name encoder
    sanitizeType, fresh variable names, the default handler, the handler body
    and the insertion of the generated statements. */
module AstRules {
  import opened Wrappers
  import opened GoStrings
  import opened GoTree

  // ---------------------------------------------------------------------------
  // replaceIdent: every identifier spelled `from` is respelled `to`, the
  // selector of a selector expression included (it is an identifier too).

  function RenameExpr(e: Expr, from: string, to: string): Expr
    decreases e
  {
    match e
    case Ident(n) => if n == from then Ident(to) else e
    case Call(f, args) =>
      Call(RenameExpr(f, from, to), seq(|args|, i requires 0 <= i < |args| => RenameExpr(args[i], from, to)))
    case Binary(x, op, y) => Binary(RenameExpr(x, from, to), op, RenameExpr(y, from, to))
    case Selector(x, sel) => Selector(RenameExpr(x, from, to), if sel == from then to else sel)
    case StructType => e
    case OtherExpr(subs) => OtherExpr(seq(|subs|, i requires 0 <= i < |subs| => RenameExpr(subs[i], from, to)))
  }

  function RenameExprs(es: seq<Expr>, from: string, to: string): seq<Expr>
  {
    seq(|es|, i requires 0 <= i < |es| => RenameExpr(es[i], from, to))
  }

  function RenameStmt(s: Stmt, from: string, to: string): Stmt
    decreases s
  {
    match s
    case ExprStmt(x) => ExprStmt(RenameExpr(x, from, to))
    case Assign(lhs, define, rhs) => Assign(RenameExprs(lhs, from, to), define, RenameExprs(rhs, from, to))
    case Return(results) => Return(RenameExprs(results, from, to))
    case If(c, body, els) =>
      If(RenameExpr(c, from, to),
         seq(|body|, i requires 0 <= i < |body| => RenameStmt(body[i], from, to)),
         if els.None? then None else Some(RenameStmt(els.value, from, to)))
    case Block(list) => Block(seq(|list|, i requires 0 <= i < |list| => RenameStmt(list[i], from, to)))
    case OtherStmt(exprs, stmts) =>
      OtherStmt(RenameExprs(exprs, from, to), seq(|stmts|, i requires 0 <= i < |stmts| => RenameStmt(stmts[i], from, to)))
  }

  function RenameStmts(list: seq<Stmt>, from: string, to: string): seq<Stmt>
  {
    seq(|list|, i requires 0 <= i < |list| => RenameStmt(list[i], from, to))
  }

  /** The identifier `a` occurs in e. */
  predicate MentionsExpr(e: Expr, a: string)
    decreases e
  {
    match e
    case Ident(n) => n == a
    case Call(f, args) => MentionsExpr(f, a) || exists i :: 0 <= i < |args| && MentionsExpr(args[i], a)
    case Binary(x, _, y) => MentionsExpr(x, a) || MentionsExpr(y, a)
    case Selector(x, sel) => MentionsExpr(x, a) || sel == a
    case StructType => false
    case OtherExpr(subs) => exists i :: 0 <= i < |subs| && MentionsExpr(subs[i], a)
  }

  predicate MentionsAny(es: seq<Expr>, a: string)
  {
    exists i :: 0 <= i < |es| && MentionsExpr(es[i], a)
  }

  predicate Mentions(s: Stmt, a: string)
    decreases s
  {
    match s
    case ExprStmt(x) => MentionsExpr(x, a)
    case Assign(lhs, _, rhs) => MentionsAny(lhs, a) || MentionsAny(rhs, a)
    case Return(results) => MentionsAny(results, a)
    case If(c, body, els) =>
      MentionsExpr(c, a) || (exists i :: 0 <= i < |body| && Mentions(body[i], a)) || (els.Some? && Mentions(els.value, a))
    case Block(list) => exists i :: 0 <= i < |list| && Mentions(list[i], a)
    case OtherStmt(exprs, stmts) => MentionsAny(exprs, a) || exists i :: 0 <= i < |stmts| && Mentions(stmts[i], a)
  }

  /** Renaming an identifier that does not occur changes nothing. */
  lemma {:induction false} RenameExprAbsent(e: Expr, from: string, to: string)
    requires !MentionsExpr(e, from)
    ensures RenameExpr(e, from, to) == e
    decreases e
  {
    match e
    case Ident(n) =>
    case Call(f, args) =>
      RenameExprAbsent(f, from, to);
      forall i | 0 <= i < |args| ensures RenameExpr(args[i], from, to) == args[i] {
        RenameExprAbsent(args[i], from, to);
      }
    case Binary(x, op, y) => RenameExprAbsent(x, from, to); RenameExprAbsent(y, from, to);
    case Selector(x, sel) => RenameExprAbsent(x, from, to);
    case StructType =>
    case OtherExpr(subs) =>
      forall i | 0 <= i < |subs| ensures RenameExpr(subs[i], from, to) == subs[i] {
        RenameExprAbsent(subs[i], from, to);
      }
  }

  lemma RenameExprsAbsent(es: seq<Expr>, from: string, to: string)
    requires !MentionsAny(es, from)
    ensures RenameExprs(es, from, to) == es
  {
    forall i | 0 <= i < |es| ensures RenameExpr(es[i], from, to) == es[i] {
      RenameExprAbsent(es[i], from, to);
    }
  }

  lemma {:induction false} RenameAbsent(s: Stmt, from: string, to: string)
    requires !Mentions(s, from)
    ensures RenameStmt(s, from, to) == s
    decreases s
  {
    match s
    case ExprStmt(x) => RenameExprAbsent(x, from, to);
    case Assign(lhs, define, rhs) => RenameExprsAbsent(lhs, from, to); RenameExprsAbsent(rhs, from, to);
    case Return(results) => RenameExprsAbsent(results, from, to);
    case If(c, body, els) =>
      RenameExprAbsent(c, from, to);
      forall i | 0 <= i < |body| ensures RenameStmt(body[i], from, to) == body[i] {
        RenameAbsent(body[i], from, to);
      }
      if els.Some? {
        RenameAbsent(els.value, from, to);
      }
    case Block(list) =>
      forall i | 0 <= i < |list| ensures RenameStmt(list[i], from, to) == list[i] {
        RenameAbsent(list[i], from, to);
      }
    case OtherStmt(exprs, stmts) =>
      RenameExprsAbsent(exprs, from, to);
      forall i | 0 <= i < |stmts| ensures RenameStmt(stmts[i], from, to) == stmts[i] {
        RenameAbsent(stmts[i], from, to);
      }
  }

  /** Renaming to a fresh identifier and back restores the statement. */
  lemma {:induction false} RenameExprRoundTrip(e: Expr, from: string, to: string)
    requires !MentionsExpr(e, to)
    ensures RenameExpr(RenameExpr(e, from, to), to, from) == e
    decreases e
  {
    match e
    case Ident(n) =>
    case Call(f, args) =>
      RenameExprRoundTrip(f, from, to);
      forall i | 0 <= i < |args| ensures RenameExpr(RenameExpr(args[i], from, to), to, from) == args[i] {
        RenameExprRoundTrip(args[i], from, to);
      }
    case Binary(x, op, y) => RenameExprRoundTrip(x, from, to); RenameExprRoundTrip(y, from, to);
    case Selector(x, sel) => RenameExprRoundTrip(x, from, to);
    case StructType =>
    case OtherExpr(subs) =>
      forall i | 0 <= i < |subs| ensures RenameExpr(RenameExpr(subs[i], from, to), to, from) == subs[i] {
        RenameExprRoundTrip(subs[i], from, to);
      }
  }

  lemma RenameExprsRoundTrip(es: seq<Expr>, from: string, to: string)
    requires !MentionsAny(es, to)
    ensures RenameExprs(RenameExprs(es, from, to), to, from) == es
  {
    forall i | 0 <= i < |es| ensures RenameExpr(RenameExpr(es[i], from, to), to, from) == es[i] {
      RenameExprRoundTrip(es[i], from, to);
    }
  }

  lemma {:induction false} RenameRoundTrip(s: Stmt, from: string, to: string)
    requires !Mentions(s, to)
    ensures RenameStmt(RenameStmt(s, from, to), to, from) == s
    decreases s
  {
    match s
    case ExprStmt(x) => RenameExprRoundTrip(x, from, to);
    case Assign(lhs, define, rhs) => RenameExprsRoundTrip(lhs, from, to); RenameExprsRoundTrip(rhs, from, to);
    case Return(results) => RenameExprsRoundTrip(results, from, to);
    case If(c, body, els) =>
      RenameExprRoundTrip(c, from, to);
      forall i | 0 <= i < |body| ensures RenameStmt(RenameStmt(body[i], from, to), to, from) == body[i] {
        RenameRoundTrip(body[i], from, to);
      }
      if els.Some? {
        RenameRoundTrip(els.value, from, to);
      }
    case Block(list) =>
      forall i | 0 <= i < |list| ensures RenameStmt(RenameStmt(list[i], from, to), to, from) == list[i] {
        RenameRoundTrip(list[i], from, to);
      }
    case OtherStmt(exprs, stmts) =>
      RenameExprsRoundTrip(exprs, from, to);
      forall i | 0 <= i < |stmts| ensures RenameStmt(RenameStmt(stmts[i], from, to), to, from) == stmts[i] {
        RenameRoundTrip(stmts[i], from, to);
      }
  }

  /** After renaming, the old identifier no longer occurs. */
  lemma {:induction false} RenameExprRemoves(e: Expr, from: string, to: string)
    requires from != to
    ensures !MentionsExpr(RenameExpr(e, from, to), from)
    decreases e
  {
    match e
    case Ident(n) =>
    case Call(f, args) =>
      RenameExprRemoves(f, from, to);
      forall i | 0 <= i < |args| ensures !MentionsExpr(RenameExpr(args[i], from, to), from) {
        RenameExprRemoves(args[i], from, to);
      }
    case Binary(x, op, y) => RenameExprRemoves(x, from, to); RenameExprRemoves(y, from, to);
    case Selector(x, sel) => RenameExprRemoves(x, from, to);
    case StructType =>
    case OtherExpr(subs) =>
      forall i | 0 <= i < |subs| ensures !MentionsExpr(RenameExpr(subs[i], from, to), from) {
        RenameExprRemoves(subs[i], from, to);
      }
  }

  lemma RenameExprsRemoves(es: seq<Expr>, from: string, to: string)
    requires from != to
    ensures !MentionsAny(RenameExprs(es, from, to), from)
  {
    forall i | 0 <= i < |es| ensures !MentionsExpr(RenameExpr(es[i], from, to), from) {
      RenameExprRemoves(es[i], from, to);
    }
  }

  lemma {:induction false} RenameRemoves(s: Stmt, from: string, to: string)
    requires from != to
    ensures !Mentions(RenameStmt(s, from, to), from)
    decreases s
  {
    match s
    case ExprStmt(x) => RenameExprRemoves(x, from, to);
    case Assign(lhs, define, rhs) => RenameExprsRemoves(lhs, from, to); RenameExprsRemoves(rhs, from, to);
    case Return(results) => RenameExprsRemoves(results, from, to);
    case If(c, body, els) =>
      RenameExprRemoves(c, from, to);
      forall i | 0 <= i < |body| ensures !Mentions(RenameStmt(body[i], from, to), from) {
        RenameRemoves(body[i], from, to);
      }
      if els.Some? {
        RenameRemoves(els.value, from, to);
      }
    case Block(list) =>
      forall i | 0 <= i < |list| ensures !Mentions(RenameStmt(list[i], from, to), from) {
        RenameRemoves(list[i], from, to);
      }
    case OtherStmt(exprs, stmts) =>
      RenameExprsRemoves(exprs, from, to);
      forall i | 0 <= i < |stmts| ensures !Mentions(RenameStmt(stmts[i], from, to), from) {
        RenameRemoves(stmts[i], from, to);
      }
  }

  // ---------------------------------------------------------------------------
  // trimTerminatingStatements: rules 1-4 of the "Terminating statements"
  // section of the Go specification (return, a call of panic, a block, an if
  // with an else); for, switch, select and labels are never terminating here.

  /** The rules, stated independently of trimming: a block terminates when one
      of its statements does. */
  predicate Terminating(s: Stmt)
    decreases s
  {
    match s
    case Return(_) => true
    case ExprStmt(x) => CallsIdent(x, "panic")
    case Block(list) => exists i :: 0 <= i < |list| && Terminating(list[i])
    case If(_, body, els) =>
      (exists i :: 0 <= i < |body| && Terminating(body[i])) && els.Some? && Terminating(els.value)
    case _ => false
  }

  /** Whether s is terminating, and s with every block it inspects cut after its
      first terminating statement. A block is cut as soon as one child reports
      true; the children before it have been trimmed on the way. */
  function Trim(s: Stmt): (bool, Stmt)
    decreases s, 1
  {
    match s
    case Return(_) => (true, s)
    case ExprStmt(x) => (CallsIdent(x, "panic"), s)
    case Block(list) =>
      var t := TrimList(list);
      (t.0, Block(t.1))
    case If(c, body, els) =>
      var b := TrimList(body);
      var e := if els.None? then (false, els) else var t := Trim(els.value); (t.0, Some(t.1));
      (b.0 && e.0, If(c, b.1, e.1))
    case _ => (false, s)
  }

  function TrimList(list: seq<Stmt>): (bool, seq<Stmt>)
    decreases list, 0
  {
    if |list| == 0 then (false, [])
    else
      var h := Trim(list[0]);
      if h.0 then (true, [h.1])
      else
        var t := TrimList(list[1..]);
        (t.0, [h.1] + t.1)
  }

  /** Trimming reports exactly the rules. */
  lemma {:induction false} TrimReports(s: Stmt)
    ensures Trim(s).0 == Terminating(s)
    decreases s, 1
  {
    match s
    case Return(_) =>
    case ExprStmt(x) =>
    case Block(list) => TrimListReports(list);
    case If(c, body, els) =>
      TrimListReports(body);
      if els.Some? {
        TrimReports(els.value);
      }
    case Assign(_, _, _) =>
    case OtherStmt(_, _) =>
  }

  lemma {:induction false} TrimListReports(list: seq<Stmt>)
    ensures TrimList(list).0 == exists i :: 0 <= i < |list| && Terminating(list[i])
    decreases list, 0
  {
    if |list| > 0 {
      TrimReports(list[0]);
      TrimListReports(list[1..]);
      if exists i :: 0 <= i < |list[1..]| && Terminating(list[1..][i]) {
        var i :| 0 <= i < |list[1..]| && Terminating(list[1..][i]);
        assert Terminating(list[i + 1]);
      }
      if exists i :: 0 <= i < |list| && Terminating(list[i]) {
        var i :| 0 <= i < |list| && Terminating(list[i]);
        if i > 0 {
          assert Terminating(list[1..][i - 1]);
        }
      }
    }
  }

  /** The first terminating statement of a list, if any. */
  function FirstTerminating(list: seq<Stmt>): (f: int)
    ensures -1 <= f < |list|
    ensures f >= 0 ==> Terminating(list[f])
    ensures forall k :: 0 <= k < |list| && (f < 0 || k < f) ==> !Terminating(list[k])
  {
    if |list| == 0 then -1
    else if Terminating(list[0]) then 0
    else
      var f := FirstTerminating(list[1..]);
      assert forall k :: 1 <= k < |list| ==> list[k] == list[1..][k - 1];
      if f < 0 then -1 else f + 1
  }

  /** Trimming a block keeps its statements, each trimmed, up to and including
      the first terminating one and drops the rest; with none, the length is
      unchanged. */
  lemma {:induction false} TrimListKeepsPrefix(list: seq<Stmt>)
    ensures var f := FirstTerminating(list);
            var r := TrimList(list);
            r.0 == (f >= 0) &&
            |r.1| == (if f >= 0 then f + 1 else |list|) &&
            forall k :: 0 <= k < |r.1| ==> r.1[k] == Trim(list[k]).1
    decreases |list|
  {
    if |list| > 0 {
      TrimReports(list[0]);
      TrimListKeepsPrefix(list[1..]);
      TrimListReports(list[1..]);
    }
  }

  /** A trimmed statement is terminating exactly when the original is. */
  lemma {:induction false} TrimKeepsTerminating(s: Stmt)
    ensures Terminating(Trim(s).1) == Terminating(s)
    decreases s, 1
  {
    match s
    case Return(_) =>
    case ExprStmt(x) =>
    case Block(list) =>
      TrimListKeepsTerminating(list);
    case If(c, body, els) =>
      TrimListKeepsTerminating(body);
      if els.Some? {
        TrimKeepsTerminating(els.value);
      }
    case Assign(_, _, _) =>
    case OtherStmt(_, _) =>
  }

  lemma {:induction false} TrimListKeepsTerminating(list: seq<Stmt>)
    ensures (exists i :: 0 <= i < |TrimList(list).1| && Terminating(TrimList(list).1[i])) ==
            (exists i :: 0 <= i < |list| && Terminating(list[i]))
    decreases list, 0
  {
    var r := TrimList(list).1;
    TrimListKeepsPrefix(list);
    forall i | 0 <= i < |r|
      ensures Terminating(r[i]) == Terminating(list[i])
    {
      TrimKeepsTerminating(list[i]);
    }
    var f := FirstTerminating(list);
    if f >= 0 {
      assert Terminating(r[f]);
    }
  }

  /** When trimming reports true, the last statement kept is terminating. */
  lemma TrimListEndsTerminating(list: seq<Stmt>)
    requires TrimList(list).0
    ensures var r := TrimList(list).1; |r| > 0 && Terminating(r[|r| - 1])
  {
    TrimListKeepsPrefix(list);
    var f := FirstTerminating(list);
    TrimKeepsTerminating(list[f]);
  }

  /** Trimming twice is trimming once. */
  lemma {:induction false} TrimIdempotent(s: Stmt)
    ensures Trim(Trim(s).1) == Trim(s)
    decreases s, 1
  {
    match s
    case Return(_) =>
    case ExprStmt(x) =>
    case Block(list) =>
      TrimListIdempotent(list);
    case If(c, body, els) =>
      TrimListIdempotent(body);
      if els.Some? {
        TrimIdempotent(els.value);
      }
    case Assign(_, _, _) =>
    case OtherStmt(_, _) =>
  }

  lemma {:induction false} TrimListIdempotent(list: seq<Stmt>)
    ensures TrimList(TrimList(list).1) == TrimList(list)
    decreases list, 0
  {
    if |list| > 0 {
      var h := Trim(list[0]);
      TrimIdempotent(list[0]);
      if !h.0 {
        var t := TrimList(list[1..]);
        TrimListIdempotent(list[1..]);
        assert ([h.1] + t.1)[1..] == t.1;
      }
    }
  }

  /** Renaming keeps the rules' verdict as long as neither name is `panic`. */
  lemma {:induction false} RenameKeepsTerminating(s: Stmt, from: string, to: string)
    requires from != "panic" && to != "panic"
    ensures Terminating(RenameStmt(s, from, to)) == Terminating(s)
    decreases s
  {
    match s
    case ExprStmt(x) =>
      if x.Call? {
        assert RenameExpr(x, from, to).fun == RenameExpr(x.fun, from, to);
      }
    case Return(_) =>
    case Block(list) =>
      forall i | 0 <= i < |list| ensures Terminating(RenameStmt(list[i], from, to)) == Terminating(list[i]) {
        RenameKeepsTerminating(list[i], from, to);
      }
      var r := RenameStmt(s, from, to).list;
      if exists i :: 0 <= i < |list| && Terminating(list[i]) {
        var i :| 0 <= i < |list| && Terminating(list[i]);
        assert Terminating(r[i]);
      }
    case If(c, body, els) =>
      forall i | 0 <= i < |body| ensures Terminating(RenameStmt(body[i], from, to)) == Terminating(body[i]) {
        RenameKeepsTerminating(body[i], from, to);
      }
      if els.Some? {
        RenameKeepsTerminating(els.value, from, to);
      }
      var r := RenameStmt(s, from, to).body;
      if exists i :: 0 <= i < |body| && Terminating(body[i]) {
        var i :| 0 <= i < |body| && Terminating(body[i]);
        assert Terminating(r[i]);
      }
    case Assign(_, _, _) =>
    case OtherStmt(_, _) =>
  }

  // ---------------------------------------------------------------------------
  // sanitizeType: drop every `.`, spell `*` as `pointer`, then replace each
  // bracket pair by `slice` when it is empty and by `array` otherwise. The
  // closing bracket is the first `]` of what remains, wherever it is.

  const MismatchedDelimiters := "sanitizeType: mismatched delimiters"

  /** The bracket-rewriting loop, one bracket pair per step. */
  function Brackets(s: string): Result<string>
    decreases |s|
  {
    var l := IndexOf(s, '[');
    if l < 0 then Ok(s)
    else
      var r := IndexOf(s, ']');
      if r < 0 then Err(MismatchedDelimiters)
      else
        Prepend(s[..l] + PairWord(r > l + 1), Brackets(s[r + 1..]))
  }

  /** What a bracket pair becomes: `array` when something sits between the
      brackets, `slice` when they are adjacent. */
  function PairWord(isArray: bool): string
  {
    if isArray then "array" else "slice"
  }

  function Prepend(p: string, r: Result<string>): Result<string>
  {
    if r.Ok? then Ok(p + r.value) else r
  }

  lemma PrependTwice(a: string, b: string, r: Result<string>)
    ensures Prepend(a, Prepend(b, r)) == Prepend(a + b, r)
  {
    if r.Ok? {
      assert a + (b + r.value) == (a + b) + r.value;
    }
  }

  /** The string the bracket loop starts from. */
  function Flattened(t: string): string
  {
    ReplaceAll(ReplaceAll(t, '.', ""), '*', "pointer")
  }

  function Sanitized(t: string): Result<string>
  {
    Brackets(Flattened(t))
  }

  method SanitizeType(t: string) returns (r: Result<string>)
    ensures r == Sanitized(t)
  {
    var s := Flattened(t);
    var result := "";
    PrependEmpty(Brackets(s));
    while true
      invariant Sanitized(t) == Prepend(result, Brackets(s))
      decreases |s|
    {
      var l := IndexOf(s, '[');
      if l < 0 {
        break;
      }
      var close := IndexOf(s, ']');
      if close < 0 {
        return Err(MismatchedDelimiters);
      }
      var piece := s[..l] + PairWord(close > l + 1);
      assert Brackets(s) == Prepend(piece, Brackets(s[close + 1..]));
      PrependTwice(result, piece, Brackets(s[close + 1..]));
      result := result + piece;
      s := s[close + 1..];
    }
    return Ok(result + s);
  }

  lemma PrependAvoids(p: string, r: Result<string>, x: char)
    requires x !in p && (r.Ok? ==> x !in r.value)
    ensures Prepend(p, r).Ok? ==> x !in Prepend(p, r).value
  {
  }

  lemma PieceNoOpen(s: string, l: int, isArray: bool)
    requires 0 <= l <= |s| && forall k :: 0 <= k < l ==> s[k] != '['
    ensures '[' !in s[..l] + PairWord(isArray)
  {
    var w := PairWord(isArray);
    assert '[' !in w;
    assert '[' !in s[..l] by {
      assert forall k :: 0 <= k < l ==> s[..l][k] == s[k];
    }
  }

  /** The bracket loop leaves no `[`. */
  lemma {:induction false} BracketsNoOpen(s: string)
    ensures Brackets(s).Ok? ==> '[' !in Brackets(s).value
    decreases |s|
  {
    IndexOfFirst(s, '[');
    var l := IndexOf(s, '[');
    if l >= 0 {
      var r := IndexOf(s, ']');
      if r >= 0 {
        BracketsNoOpen(s[r + 1..]);
        BracketsStepNoOpen(s, l, r);
      }
    }
  }

  lemma BracketsStepNoOpen(s: string, l: int, r: int)
    requires l == IndexOf(s, '[') && l >= 0 && r == IndexOf(s, ']') && r >= 0
    requires Brackets(s[r + 1..]).Ok? ==> '[' !in Brackets(s[r + 1..]).value
    ensures Brackets(s).Ok? ==> '[' !in Brackets(s).value
  {
    BracketsUnfold(s, l, r);
    IndexOfFirst(s, '[');
    PieceNoOpen(s, l, r > l + 1);
    PrependAvoids(s[..l] + PairWord(r > l + 1), Brackets(s[r + 1..]), '[');
  }

  lemma BracketsUnfold(s: string, l: int, r: int)
    requires l == IndexOf(s, '[') && l >= 0 && r == IndexOf(s, ']') && r >= 0
    ensures Brackets(s) == Prepend(s[..l] + PairWord(r > l + 1), Brackets(s[r + 1..]))
  {
  }

  /** The bracket loop adds no character but the letters of `array` and `slice`. */
  lemma {:induction false} BracketsAvoid(s: string, x: char)
    requires x !in s && x !in "arrayslice"
    ensures Brackets(s).Ok? ==> x !in Brackets(s).value
    decreases |s|
  {
    var l := IndexOf(s, '[');
    if l >= 0 {
      var r := IndexOf(s, ']');
      if r >= 0 {
        var tail := s[r + 1..];
        assert x !in tail by {
          assert forall k :: 0 <= k < |tail| ==> tail[k] == s[k + r + 1];
        }
        BracketsAvoid(tail, x);
        var word := PairWord(r > l + 1);
        assert x !in word;
        var rest := Brackets(tail);
        if rest.Ok? {
          assert Brackets(s).value == s[..l] + word + rest.value;
          assert x !in s[..l];
        }
      }
    }
  }

  /** A sanitized type name holds no `.`, `*` or `[`. */
  lemma SanitizedClean(t: string)
    ensures Sanitized(t).Ok? ==> '.' !in Sanitized(t).value && '*' !in Sanitized(t).value && '[' !in Sanitized(t).value
  {
    var t1 := ReplaceAll(t, '.', "");
    ReplaceAllAvoids(t, '.', "", '.');
    ReplaceAllAvoids(t1, '*', "pointer", '.');
    ReplaceAllAvoids(t1, '*', "pointer", '*');
    BracketsNoOpen(Flattened(t));
    BracketsAvoid(Flattened(t), '.');
    BracketsAvoid(Flattened(t), '*');
  }

  /** Without brackets only the dots and stars change. */
  lemma SanitizedNoBrackets(t: string)
    requires '[' !in t
    ensures Sanitized(t) == Ok(Flattened(t))
  {
    ReplaceAllAvoids(t, '.', "", '[');
    ReplaceAllAvoids(ReplaceAll(t, '.', ""), '*', "pointer", '[');
    IndexOfFirst(Flattened(t), '[');
  }

  /** A `[` with no `]` anywhere is rejected. */
  lemma SanitizedUnclosed(t: string)
    requires '[' in t && ']' !in t
    ensures Sanitized(t) == Err(MismatchedDelimiters)
  {
    ReplaceAllKeeps(t, '.', "", '[');
    ReplaceAllKeeps(ReplaceAll(t, '.', ""), '*', "pointer", '[');
    ReplaceAllAvoids(t, '.', "", ']');
    ReplaceAllAvoids(ReplaceAll(t, '.', ""), '*', "pointer", ']');
    IndexOfFirst(Flattened(t), '[');
    IndexOfFirst(Flattened(t), ']');
  }

  lemma IndexOfAt(s: string, c: char, i: int)
    requires 0 <= i < |s| && s[i] == c && c !in s[..i]
    ensures IndexOf(s, c) == i
  {
    IndexOfFirst(s, c);
  }

  lemma PrependEmpty(r: Result<string>)
    ensures Prepend("", r) == r
  {
    if r.Ok? {
      assert "" + r.value == r.value;
    }
  }

  /** A name with neither dots, stars nor brackets is kept as it is. */
  lemma SanitizedPlain(t: string)
    requires '.' !in t && '*' !in t && '[' !in t
    ensures Sanitized(t) == Ok(t)
  {
    ReplaceAllAbsent(t, '.', "");
    ReplaceAllAbsent(t, '*', "pointer");
    IndexOfFirst(t, '[');
  }

  /** Every `.` disappears. */
  lemma FlattenedDot(a: string, b: string)
    ensures Flattened(a + "." + b) == Flattened(a) + Flattened(b)
  {
    ReplaceAllConcat(a + ".", b, '.', "");
    ReplaceAllConcat(a, ".", '.', "");
    ReplaceAllOne('.', '.', "");
    var a1, b1 := ReplaceAll(a, '.', ""), ReplaceAll(b, '.', "");
    assert ReplaceAll(a + "." + b, '.', "") == a1 + b1;
    ReplaceAllConcat(a1, b1, '*', "pointer");
  }

  /** Every `*` is spelled `pointer`. */
  lemma FlattenedStar(a: string, b: string)
    ensures Flattened(a + "*" + b) == Flattened(a) + "pointer" + Flattened(b)
  {
    ReplaceAllConcat(a + "*", b, '.', "");
    ReplaceAllConcat(a, "*", '.', "");
    ReplaceAllOne('*', '.', "");
    var a1, b1 := ReplaceAll(a, '.', ""), ReplaceAll(b, '.', "");
    assert ReplaceAll(a + "*" + b, '.', "") == a1 + "*" + b1;
    ReplaceAllConcat(a1 + "*", b1, '*', "pointer");
    ReplaceAllConcat(a1, "*", '*', "pointer");
    ReplaceAllOne('*', '*', "pointer");
  }

  /** An empty bracket pair is spelled `slice`. */
  lemma BracketsSlice(x: string, rest: string)
    requires '[' !in x && ']' !in x
    ensures Brackets(x + "[]" + rest) == Prepend(x + "slice", Brackets(rest))
  {
    var s := x + "[]" + rest;
    assert s == x + ("[]" + rest);
    IndexOfConcat(x, "[]" + rest, '[');
    IndexOfConcat(x, "[]" + rest, ']');
    assert ("[]" + rest)[0] == '[' && ("[]" + rest)[1] == ']';
    IndexOfAt("[]" + rest, '[', 0);
    IndexOfAt("[]" + rest, ']', 1);
    assert s[..|x|] == x;
    assert s[|x| + 2..] == rest;
  }

  lemma ArrayPairAt(x: string, n: string, rest: string)
    requires '[' !in x && ']' !in x && |n| > 0 && ']' !in n
    ensures IndexOf(x + "[" + n + "]" + rest, '[') == |x|
    ensures IndexOf(x + "[" + n + "]" + rest, ']') == |x| + |n| + 1
  {
    var t := "[" + n + "]" + rest;
    assert x + "[" + n + "]" + rest == x + t;
    IndexOfConcat(x, t, '[');
    IndexOfConcat(x, t, ']');
    IndexOfAt(t, '[', 0);
    assert t == ("[" + n) + ("]" + rest);
    assert ']' !in "[" + n;
    IndexOfConcat("[" + n, "]" + rest, ']');
    IndexOfAt("]" + rest, ']', 0);
  }

  /** A bracket pair with something inside is spelled `array`. */
  lemma BracketsArray(x: string, n: string, rest: string)
    requires '[' !in x && ']' !in x && |n| > 0 && ']' !in n
    ensures Brackets(x + "[" + n + "]" + rest) == Prepend(x + "array", Brackets(rest))
  {
    var s := x + "[" + n + "]" + rest;
    ArrayPairAt(x, n, rest);
    assert s[..|x|] == x;
    assert s[|x| + |n| + 2..] == rest;
  }

  lemma SanitizeVectorSlice(t: string)
    requires t == "[]" + "int"
    ensures Sanitized(t) == Ok("slice" + "int")
  {
    ReplaceAllAbsent(t, '.', "");
    ReplaceAllAbsent(t, '*', "pointer");
    BracketsSlice("", "int");
    assert "" + "[]" + "int" == t && "" + "slice" == "slice";
    IndexOfFirst("int", '[');
  }

  // ---------------------------------------------------------------------------
  // Fresh names: each result is named varPrefix + its type name + the block's
  // counter for that type name, and the counter is bumped after each use.

  /** A Go map of counters read at a missing key: zero. */
  function Count(scope: map<string, nat>, name: string): nat
  {
    if name in scope then scope[name] else 0
  }

  function FreshName(prefix: string, name: string, n: nat): string
  {
    prefix + name + Itoa(n)
  }

  /** The counter value the i-th name is given: the block's counter plus the
      uses of the same type name earlier in this list. */
  function CounterAt(scope: map<string, nat>, names: seq<string>, i: nat): nat
    requires i < |names|
  {
    Count(scope, names[i]) + multiset(names[..i])[names[i]]
  }

  function FreshNames(prefix: string, names: seq<string>, scope: map<string, nat>): (r: seq<string>)
    ensures |r| == |names|
    ensures forall i :: 0 <= i < |names| ==> r[i] == FreshName(prefix, names[i], CounterAt(scope, names, i))
  {
    seq(|names|, i requires 0 <= i < |names| => FreshName(prefix, names[i], CounterAt(scope, names, i)))
  }

  /** The counters after naming the given type names, one bump per name. */
  function Bumped(scope: map<string, nat>, names: seq<string>): map<string, nat>
  {
    if |names| == 0 then scope
    else
      var before := Bumped(scope, names[..|names| - 1]);
      var last := names[|names| - 1];
      before[last := Count(before, last) + 1]
  }

  lemma {:induction false} BumpedCounts(scope: map<string, nat>, names: seq<string>, n: string)
    ensures Count(Bumped(scope, names), n) == Count(scope, n) + multiset(names)[n]
  {
    if |names| > 0 {
      var init := names[..|names| - 1];
      BumpedCounts(scope, init, n);
      assert names == init + [names[|names| - 1]];
    }
  }

  method NameResults(prefix: string, names: seq<string>, scope: map<string, nat>)
    returns (out: seq<string>, after: map<string, nat>)
    ensures out == FreshNames(prefix, names, scope)
    ensures after == Bumped(scope, names)
  {
    out := names;
    after := scope;
    for i := 0 to |names|
      invariant |out| == |names|
      invariant forall k :: 0 <= k < i ==> out[k] == FreshName(prefix, names[k], CounterAt(scope, names, k))
      invariant after == Bumped(scope, names[..i])
    {
      NameStep(scope, names, i);
      var c := Count(after, names[i]);
      out := out[i := FreshName(prefix, names[i], c)];
      after := after[names[i] := c + 1];
    }
    assert names[..|names|] == names;
  }

  lemma NameStep(scope: map<string, nat>, names: seq<string>, i: nat)
    requires i < |names|
    ensures Count(Bumped(scope, names[..i]), names[i]) == CounterAt(scope, names, i)
    ensures Bumped(scope, names[..i + 1]) ==
              Bumped(scope, names[..i])[names[i] := Count(Bumped(scope, names[..i]), names[i]) + 1]
  {
    assert names[..i + 1][..i] == names[..i];
    BumpedCounts(scope, names[..i], names[i]);
  }

  /** Names built from one type name differ when their counters do. */
  lemma FreshNameInjective(prefix: string, name: string, a: nat, b: nat)
    requires FreshName(prefix, name, a) == FreshName(prefix, name, b)
    ensures a == b
  {
    var p := prefix + name;
    assert Itoa(a) == FreshName(prefix, name, a)[|p|..];
    assert Itoa(b) == FreshName(prefix, name, b)[|p|..];
    ItoaInjective(a, b);
  }

  /** Two results of one check with the same type name get different names. */
  lemma FreshNamesDistinct(prefix: string, scope: map<string, nat>, names: seq<string>, i: nat, j: nat)
    requires i < j < |names| && names[i] == names[j]
    ensures FreshName(prefix, names[i], CounterAt(scope, names, i)) != FreshName(prefix, names[j], CounterAt(scope, names, j))
  {
    assert names[..j] == names[..i] + names[i..j];
    assert names[i] in names[i..j];
    if FreshName(prefix, names[i], CounterAt(scope, names, i)) == FreshName(prefix, names[j], CounterAt(scope, names, j)) {
      FreshNameInjective(prefix, names[i], CounterAt(scope, names, i), CounterAt(scope, names, j));
    }
  }

  /** Every counter handed out by a check is below the block's counter after it,
      so later checks in the block never reuse a name of the same type. */
  lemma CounterBelowAfter(scope: map<string, nat>, names: seq<string>, i: nat)
    requires i < |names|
    ensures CounterAt(scope, names, i) < Count(scope, names[i]) + multiset(names)[names[i]]
  {
    assert names == names[..i] + names[i..];
    assert names[i] in names[i..];
  }

  /** Names of different type names can meet: type `T1` at counter 0 and type
      `T` at counter 10 are both spelled prefix + "T10". */
  lemma FreshNamesAcrossTypesCollide(prefix: string)
    ensures FreshName(prefix, "T1", 0) == FreshName(prefix, "T", 10)
  {
    assert Itoa(0) == "0";
    assert Itoa(10) == "10";
  }

  // ---------------------------------------------------------------------------
  // The values a check produces. The type checker is an oracle: for the
  // checked expression it yields nothing (the type is not known yet) or one of
  // these shapes; a tuple carries the spelling of each element type.

  datatype TypeShape = Named | Tuple(elems: seq<string>) | OtherShape

  const NotNamedOrTuple := "return type must be Named or Tuple"
  const NoValues := "check expression evaluates to no values"
  const LastNotError := "last value of check expression must be error"

  /** Each element type sanitized, in order; the first failure wins. */
  function SanitizeAll(ts: seq<string>): (r: Result<seq<string>>)
    ensures r.Ok? ==> |r.value| == |ts| && forall i :: 0 <= i < |ts| ==> Sanitized(ts[i]) == Ok(r.value[i])
    ensures r.Err? ==> exists i :: 0 <= i < |ts| && Sanitized(ts[i]).Err?
  {
    if |ts| == 0 then Ok([])
    else match Sanitized(ts[0])
      case Err(m) => Err(m)
      case Ok(h) =>
        match SanitizeAll(ts[1..])
        case Err(m) => assert ts[1..][0] in ts; Err(m)
        case Ok(rest) =>
          assert forall i :: 1 <= i < |ts| ==> ts[i] == ts[1..][i - 1];
          Ok([h] + rest)
  }

  /** The loop that names the elements of a tuple. */
  method TupleNames(ts: seq<string>) returns (r: Result<seq<string>>)
    ensures r == SanitizeAll(ts)
  {
    var names: seq<string> := [];
    var i := 0;
    assert ts[0..] == ts;
    PrependAllTwice([], [], SanitizeAll(ts));
    assert PrependAll([], SanitizeAll(ts)) == SanitizeAll(ts) by {
      var r := SanitizeAll(ts);
      if r.Ok? {
        assert [] + r.value == r.value;
      }
    }
    while i < |ts|
      invariant 0 <= i <= |ts|
      invariant SanitizeAll(ts) == PrependAll(names, SanitizeAll(ts[i..]))
    {
      var n := SanitizeType(ts[i]);
      assert ts[i..][0] == ts[i] && ts[i..][1..] == ts[i + 1..];
      if n.Err? {
        return Err(n.msg);
      }
      PrependAllTwice(names, [n.value], SanitizeAll(ts[i + 1..]));
      names := names + [n.value];
      i := i + 1;
    }
    PrependAllEmpty(names);
    return Ok(names);
  }

  function PrependAll(p: seq<string>, r: Result<seq<string>>): Result<seq<string>>
  {
    if r.Ok? then Ok(p + r.value) else Err(r.msg)
  }

  lemma PrependAllTwice(a: seq<string>, b: seq<string>, r: Result<seq<string>>)
    ensures PrependAll(a, PrependAll(b, r)) == PrependAll(a + b, r)
  {
    if r.Ok? {
      assert a + (b + r.value) == (a + b) + r.value;
    }
  }

  lemma PrependAllEmpty(a: seq<string>)
    ensures PrependAll(a, Ok([])) == Ok(a)
  {
    assert a + [] == a;
  }

  /** The type name of each value of the checked expression (ast.go:239-259). */
  function ResultNames(t: TypeShape): (r: Result<seq<string>>)
    ensures r.Ok? ==> |r.value| > 0 && r.value[|r.value| - 1] == "error"
  {
    var names :=
      match t
      case Named => Ok(["error"])
      case Tuple(elems) => SanitizeAll(elems)
      case OtherShape => Err(NotNamedOrTuple);
    if names.Err? then names
    else if |names.value| == 0 then Err(NoValues)
    else if names.value[|names.value| - 1] != "error" then Err(LastNotError)
    else names
  }

  /** The switch on the type of the checked expression and the two checks after it. */
  method TypeNames(t: TypeShape) returns (r: Result<seq<string>>)
    ensures r == ResultNames(t)
  {
    var names: seq<string>;
    match t {
      case Named => names := ["error"];
      case Tuple(ts) =>
        var sr := TupleNames(ts);
        if sr.Err? {
          return sr;
        }
        names := sr.value;
      case OtherShape => return Err(NotNamedOrTuple);
    }
    if |names| == 0 {
      return Err(NoValues);
    }
    if names[|names| - 1] != "error" {
      return Err(LastNotError);
    }
    return Ok(names);
  }

  /** The fatal cases, in the order they are met. */
  lemma ResultNamesErrors(t: TypeShape)
    ensures t.OtherShape? ==> ResultNames(t) == Err(NotNamedOrTuple)
    ensures t == Tuple([]) ==> ResultNames(t) == Err(NoValues)
    ensures t.Tuple? && |t.elems| > 0 && SanitizeAll(t.elems).Ok? && Sanitized(t.elems[|t.elems| - 1]) != Ok("error")
            ==> ResultNames(t) == Err(LastNotError)
    ensures t.Named? ==> ResultNames(t) == Ok(["error"])
  {
  }

  // ---------------------------------------------------------------------------
  // What happens to the checked expression, by the kind of its parent.

  datatype ParentKind = CallParent | AssignParent | ExprStmtParent | ExprParent | StmtParent

  /** Replace the arguments of the parent call, replace the checked expression
      by an identifier, delete the parent expression statement, or nothing. */
  datatype Action = SetArgs(args: seq<string>) | ReplaceBy(name: string) | DeleteStmt | NoAction

  const NeedsMultiple := "check expression's parent must be call or assignment to have multiple values"

  /** The action and the names the generated assignment declares. */
  function ParentRule(p: ParentKind, names: seq<string>): (r: Result<(Action, seq<string>)>)
    requires |names| > 0
    ensures r.Err? <==> p == ExprParent && |names| < 2
    ensures r.Ok? ==> |r.value.1| == |names| && r.value.1[|names| - 1] == names[|names| - 1]
  {
    match p
    case CallParent =>
      if |names| > 2 then Ok((SetArgs(names[..|names| - 1]), names)) else Ok((ReplaceBy(names[0]), names))
    case AssignParent => Ok((ReplaceBy(names[0]), names))
    case ExprStmtParent => Ok((DeleteStmt, Blanked(names)))
    case ExprParent => if |names| < 2 then Err(NeedsMultiple) else Ok((ReplaceBy(names[0]), names))
    case StmtParent => Ok((NoAction, names))
  }

  /** Every name but the last becomes the blank identifier. */
  function Blanked(names: seq<string>): (r: seq<string>)
    requires |names| > 0
    ensures |r| == |names| && r[|r| - 1] == names[|names| - 1]
    ensures forall i :: 0 <= i < |names| - 1 ==> r[i] == "_"
  {
    seq(|names| - 1, _ => "_") + [names[|names| - 1]]
  }

  /** Only the error value survives a checked expression statement; a call
      parent gets every value but the error as its arguments when there are two
      or more of them. */
  lemma ParentRuleShapes(p: ParentKind, names: seq<string>)
    requires |names| > 0
    ensures p == ExprStmtParent ==> ParentRule(p, names) == Ok((DeleteStmt, Blanked(names)))
    ensures p == CallParent && |names| > 2 ==> ParentRule(p, names).value.0.args + [names[|names| - 1]] == names
    ensures p in {CallParent, AssignParent} && |names| <= 2 ==> ParentRule(p, names).value.0 == ReplaceBy(names[0])
    ensures p != ExprStmtParent && ParentRule(p, names).Ok? ==> ParentRule(p, names).value.1 == names
  {
  }

  // ---------------------------------------------------------------------------
  // The default handler.

  /** The underlying type of a result, as the type checker reports it. */
  datatype Underlying = BoolType | StringType | OtherBasic | StructUnder(spelling: string) | OtherUnder

  /** A result field: how many names it declares (0 when unnamed), its type
      expression and the underlying type of that expression. */
  datatype Field = Field(names: nat, typ: Expr, under: Underlying)

  const SelectorNotIdent := "struct type ast.SelectorExpr.X should be Ident (package name)"
  const StructExprKind := "struct type's corresponding ast expr should only be Ident or SelectorExpr"

  /** zeroValueString: the spelling of the zero value of a field's type. */
  function ZeroValue(typ: Expr, u: Underlying): (r: Result<string>)
    ensures u == BoolType ==> r == Ok("false")
    ensures u == StringType ==> r == Ok("\"\"")
    ensures u == OtherBasic ==> r == Ok("0")
    ensures u == OtherUnder ==> r == Ok("nil")
    ensures u.StructUnder? && r.Ok? ==> |r.value| >= 2 && r.value[|r.value| - 2..] == "{}"
    ensures u.StructUnder? ==> (r.Err? <==> !(typ.Ident? || (typ.Selector? && typ.x.Ident?) || typ.StructType?))
  {
    match u
    case BoolType => Ok("false")
    case StringType => Ok("\"\"")
    case OtherBasic => Ok("0")
    case StructUnder(spelling) =>
      if typ.Ident? then Ok(typ.name + "{}")
      else if typ.Selector? then
        if typ.x.Ident? then Ok(typ.x.name + "." + typ.sel + "{}") else Err(SelectorNotIdent)
      else if typ.StructType? then Ok(spelling + "{}")
      else Err(StructExprKind)
    case OtherUnder => Ok("nil")
  }

  /** panicWithErrStmt. */
  function PanicWithErr(v: string): (r: Stmt)
    ensures Terminating(r) && Mentions(r, v)
  {
    var r := ExprStmt(Call(Ident("panic"), [Ident(v)]));
    assert MentionsExpr(r.x.args[0], v);
    r
  }

  /** The zero values of the given fields, as identifiers, in order. */
  function ZeroValues(fields: seq<Field>): (r: Result<seq<Expr>>)
    ensures r.Ok? ==> |r.value| == |fields| &&
                      forall i :: 0 <= i < |fields| ==> r.value[i].Ident? && ZeroValue(fields[i].typ, fields[i].under) == Ok(r.value[i].name)
  {
    if |fields| == 0 then Ok([])
    else match ZeroValue(fields[0].typ, fields[0].under)
      case Err(m) => Err(m)
      case Ok(z) =>
        match ZeroValues(fields[1..])
        case Err(m) => Err(m)
        case Ok(rest) =>
          assert forall i :: 1 <= i < |fields| ==> fields[i] == fields[1..][i - 1];
          Ok([Ident(z)] + rest)
  }

  predicate LastIsError(fields: seq<Field>)
  {
    |fields| > 0 && fields[|fields| - 1].typ == Ident("error")
  }

  /** defaultHandleStmt2 as written: one value per result field. */
  function DefaultHandleStmt(fields: seq<Field>): (r: Result<Stmt>)
    ensures !LastIsError(fields) ==> r == Ok(PanicWithErr("err"))
    ensures LastIsError(fields) && r.Ok? ==>
              r.value.Return? && |r.value.results| == |fields| && r.value.results[|fields| - 1] == Ident("err")
    ensures r.Ok? ==> Terminating(r.value)
  {
    if !LastIsError(fields) then Ok(PanicWithErr("err"))
    else match ZeroValues(fields[..|fields| - 1])
      case Err(m) => Err(m)
      case Ok(zs) => Ok(Return(zs + [Ident("err")]))
  }

  /** How many values a function with these result fields returns. */
  function ValueCount(fields: seq<Field>): nat
  {
    if |fields| == 0 then 0
    else (if fields[0].names == 0 then 1 else fields[0].names) + ValueCount(fields[1..])
  }

  /** The result fields with one entry per value: a field declaring n names
      becomes n fields of the same type. */
  function PerValue(fields: seq<Field>): (r: seq<Field>)
    ensures |r| == ValueCount(fields)
    ensures |fields| > 0 ==> |r| > 0 && r[|r| - 1].typ == fields[|fields| - 1].typ
  {
    if |fields| == 0 then []
    else
      var f := fields[0];
      var n := if f.names == 0 then 1 else f.names;
      var rest := PerValue(fields[1..]);
      assert |fields| > 1 ==> fields[1..][|fields[1..]| - 1] == fields[|fields| - 1];
      seq(n, _ => Field(0, f.typ, f.under)) + rest
  }

  /** A result list `(a, b int, err error)` declares three values in two
      fields; the handler written one value per field returns two. */
  lemma DefaultHandleStmtShortReturn()
    ensures var fields := [Field(2, Ident("int"), OtherBasic), Field(1, Ident("error"), OtherUnder)];
            ValueCount(fields) == 3 &&
            DefaultHandleStmt(fields) == Ok(Return([Ident("0"), Ident("err")]))
  {
    var fields := [Field(2, Ident("int"), OtherBasic), Field(1, Ident("error"), OtherUnder)];
    var last := [Field(1, Ident("error"), OtherUnder)];
    assert fields[1..] == last;
    assert last[1..] == [];
    assert ValueCount(last) == 1;
    assert fields[..1] == [Field(2, Ident("int"), OtherBasic)];
    var head := [Field(2, Ident("int"), OtherBasic)];
    assert head[1..] == [];
    assert ZeroValue(Ident("int"), OtherBasic) == Ok("0");
    assert ZeroValues(head) == Ok([Ident("0")] + []);
    assert LastIsError(fields);
    assert fields[..|fields| - 1] == head;
    assert ZeroValues(fields[..|fields| - 1]) == Ok([Ident("0")] + []);
    assert [Ident("0")] + [] == [Ident("0")];
    assert DefaultHandleStmt(fields) == Ok(Return([Ident("0")] + [Ident("err")]));
    assert [Ident("0")] + [Ident("err")] == [Ident("0"), Ident("err")];
  }

  /** The default handler as evidently intended: one value per declared result,
      where the handler as written returns one per result field. */
  function DefaultHandler(fields: seq<Field>): (r: Result<Stmt>)
    ensures !LastIsError(fields) ==> r == Ok(PanicWithErr("err"))
    ensures LastIsError(fields) && r.Ok? ==>
              r.value.Return? && |r.value.results| == ValueCount(fields) && r.value.results[ValueCount(fields) - 1] == Ident("err")
    ensures r.Ok? ==> Terminating(r.value)
  {
    if !LastIsError(fields) then Ok(PanicWithErr("err"))
    else DefaultHandleStmt(PerValue(fields))
  }

  /** Every zero value the default handler returns is the zero value of the
      result in its place. */
  lemma DefaultHandlerZeroes(fields: seq<Field>, i: nat)
    requires LastIsError(fields) && DefaultHandler(fields).Ok?
    requires i < ValueCount(fields) - 1
    ensures var pv := PerValue(fields);
            ZeroValue(pv[i].typ, pv[i].under) == Ok(DefaultHandler(fields).value.results[i].name)
  {
    var pv := PerValue(fields);
    var zs := ZeroValues(pv[..|pv| - 1]);
    assert DefaultHandler(fields).value.results == zs.value + [Ident("err")];
    assert pv[..|pv| - 1][i] == pv[i];
  }

  // ---------------------------------------------------------------------------
  // The handler body of one check.

  /** A handle block: its statements and the identifier it names the error by. */
  datatype Handler = Handler(list: seq<Stmt>, errName: string)

  /** The handlers' statements, each renamed to the check's error name, in order. */
  function Chain(hs: seq<Handler>, errName: string): seq<Stmt>
  {
    if |hs| == 0 then [] else RenameStmts(hs[0].list, hs[0].errName, errName) + Chain(hs[1..], errName)
  }

  function Reversed<T>(s: seq<T>): (r: seq<T>)
    ensures |r| == |s| && forall i :: 0 <= i < |s| ==> r[i] == s[|s| - 1 - i]
  {
    if |s| == 0 then [] else Reversed(s[1..]) + [s[0]]
  }

  /** The loop over the handlers registered before the statement, newest first. */
  method NewestFirst(handlers: seq<Handler>, n: nat, errName: string) returns (hl: seq<Stmt>)
    requires n <= |handlers|
    ensures hl == Chain(Reversed(handlers[..n]), errName)
  {
    hl := [];
    var i := n - 1;
    while i >= 0
      invariant -1 <= i < n
      invariant hl + Chain(Reversed(handlers[..i + 1]), errName) == Chain(Reversed(handlers[..n]), errName)
    {
      var h := handlers[i];
      assert handlers[..i + 1] == handlers[..i] + [h];
      assert Reversed(handlers[..i + 1]) == [h] + Reversed(handlers[..i]) by {
        ReversedSnoc(handlers[..i], h);
      }
      hl := hl + RenameStmts(h.list, h.errName, errName);
      i := i - 1;
    }
    assert handlers[..0] == [];
    assert hl + [] == hl;
  }

  lemma ReversedSnoc<T>(s: seq<T>, x: T)
    ensures Reversed(s + [x]) == [x] + Reversed(s)
  {
  }

  /** The handler body: the handlers newest first, then the default handler,
      each renamed to the check's error name, trimmed after the first
      terminating statement. */
  function HandleBody(handlers: seq<Handler>, n: nat, errName: string, default: Stmt): seq<Stmt>
    requires n <= |handlers|
  {
    TrimList(Chain(Reversed(handlers[..n]), errName) + [RenameStmt(default, "err", errName)]).1
  }

  /** With a terminating default, the body always ends in a terminating
      statement and is a prefix of the chained statements, each trimmed. */
  lemma HandleBodyTerminates(handlers: seq<Handler>, n: nat, errName: string, default: Stmt)
    requires n <= |handlers| && Terminating(default) && errName != "panic"
    ensures var all := Chain(Reversed(handlers[..n]), errName) + [RenameStmt(default, "err", errName)];
            var body := HandleBody(handlers, n, errName, default);
            0 < |body| <= |all| && Terminating(body[|body| - 1]) &&
            forall k :: 0 <= k < |body| ==> body[k] == Trim(all[k]).1
  {
    var all := Chain(Reversed(handlers[..n]), errName) + [RenameStmt(default, "err", errName)];
    RenameKeepsTerminating(default, "err", errName);
    assert Terminating(all[|all| - 1]);
    TrimListReports(all);
    TrimListEndsTerminating(all);
    TrimListKeepsPrefix(all);
  }

  /** With no handler registered before the statement, the body is the default
      handler alone. */
  lemma HandleBodyDefaultOnly(handlers: seq<Handler>, errName: string, default: Stmt)
    requires default.Return? || default == PanicWithErr("err")
    ensures HandleBody(handlers, 0, errName, default) == [RenameStmt(default, "err", errName)]
  {
    assert handlers[..0] == [];
    assert Chain([], errName) == [];
    var d := RenameStmt(default, "err", errName);
    assert d.Return? || d.ExprStmt?;
    assert [] + [d] == [d];
    assert Trim(d).1 == d;
    if d.ExprStmt? {
      assert d.x.fun == Ident("panic");
    }
  }

  // ---------------------------------------------------------------------------
  // Inserting the generated statements before the statement holding the check.

  /** The list with gen inserted before the first occurrence of target. */
  function Inserted<T(==)>(list: seq<T>, target: T, gen: seq<T>): seq<T>
  {
    if |list| == 0 then []
    else if list[0] == target then gen + list
    else [list[0]] + Inserted(list[1..], target, gen)
  }

  /** Without the target the list is unchanged. */
  lemma {:induction false} InsertedAbsent<T>(list: seq<T>, target: T, gen: seq<T>)
    requires target !in list
    ensures Inserted(list, target, gen) == list
  {
    if |list| > 0 {
      InsertedAbsent(list[1..], target, gen);
      assert list == [list[0]] + list[1..];
    }
  }

  /** With the target first at i, gen lands right before it and nothing else moves. */
  lemma {:induction false} InsertedBefore<T>(list: seq<T>, target: T, gen: seq<T>, i: nat)
    requires i < |list| && list[i] == target && forall k :: 0 <= k < i ==> list[k] != target
    ensures Inserted(list, target, gen) == list[..i] + gen + list[i..]
  {
    if i == 0 {
      assert list[..0] == [] && list[0..] == list;
    } else {
      var tail := list[1..];
      InsertedBefore(tail, target, gen, i - 1);
      assert list[..i] == [list[0]] + tail[..i - 1];
      assert list[i..] == tail[i - 1..];
    }
  }

  method InsertBefore<T(==)>(list: seq<T>, target: T, gen: seq<T>) returns (r: seq<T>)
    ensures r == Inserted(list, target, gen)
  {
    r := list;
    for i := 0 to |list|
      invariant Inserted(list, target, gen) == list[..i] + Inserted(list[i..], target, gen)
      invariant r == list
    {
      assert list[i..][1..] == list[i + 1..];
      if list[i] == target {
        r := list[..i] + gen + list[i..];
        return;
      }
      assert list[..i + 1] == list[..i] + [list[i]];
    }
    assert list[..|list|] == list;
  }
}
