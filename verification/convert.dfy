/** main.go: the first converter. `replaceChecks` rewrites each `check` on the
    token level into a call of `_go2check`; `convertAST` then walks the syntax
    tree, replaces every such call by its argument, names the argument's
    values from two converter-wide counters, passes the non-error values to
    the enclosing call or assignment, and inserts before the enclosing
    statement an assignment of all values and an `if` that panics with the
    error. */
module Convert {
  import opened Wrappers
  import opened GoStrings
  import opened GoToken
  import AstRules

  const CheckFunc := "_go2check"
  const ValuePrefix := "_go2val"
  const ErrorPrefix := "_go2err"

  // ---------------------------------------------------------------------------
  // argMap: the value names a node's checks hand to it, one part per check.

  const MoreThanOneMultiple := "error: more than one multiple return"

  /** The parts recorded for a node (none when it has no entry). */
  function PartsOf(parts: map<int, seq<seq<string>>>, node: int): seq<seq<string>>
  {
    if node in parts then parts[node] else []
  }

  /** The loop of argMap.get over several parts: each may hold one name at
      most, and the names are concatenated in order. */
  function JoinFrom(parts: seq<seq<string>>): Result<seq<string>>
  {
    if |parts| == 0 then Ok([])
    else if |parts[0]| > 1 then Err(MoreThanOneMultiple)
    else AstRules.PrependAll(parts[0], JoinFrom(parts[1..]))
  }

  /** argMap.get: nothing for no part, the part itself for one, and
      otherwise the joined single names. */
  function Joined(parts: seq<seq<string>>): Result<seq<string>>
  {
    if |parts| == 0 then Ok([])
    else if |parts| == 1 then Ok(parts[0])
    else JoinFrom(parts)
  }

  /** The parts concatenated. */
  function Flatten(parts: seq<seq<string>>): seq<string>
  {
    if |parts| == 0 then [] else parts[0] + Flatten(parts[1..])
  }

  /** Several parts fail exactly when one of them holds more than one name;
      otherwise the names come out in the order the checks were met. */
  lemma {:induction false} JoinFromMeaning(parts: seq<seq<string>>)
    ensures JoinFrom(parts).Err? <==> exists i :: 0 <= i < |parts| && |parts[i]| > 1
    ensures JoinFrom(parts).Err? ==> JoinFrom(parts).msg == MoreThanOneMultiple
    ensures JoinFrom(parts).Ok? ==> JoinFrom(parts).value == Flatten(parts)
  {
    if |parts| > 0 {
      JoinFromMeaning(parts[1..]);
      if |parts[0]| <= 1 {
        if exists i :: 0 <= i < |parts| && |parts[i]| > 1 {
          var i :| 0 <= i < |parts| && |parts[i]| > 1;
          assert parts[1..][i - 1] == parts[i];
        }
        if exists i :: 0 <= i < |parts| - 1 && |parts[1..][i]| > 1 {
          var i :| 0 <= i < |parts| - 1 && |parts[1..][i]| > 1;
          assert parts[i + 1] == parts[1..][i];
        }
      }
    }
  }

  /** When every part is one name, as each check in a call or assignment
      hands over, the result has one name per part. */
  lemma {:induction false} JoinedSingles(parts: seq<seq<string>>)
    requires forall i :: 0 <= i < |parts| ==> |parts[i]| == 1
    ensures Joined(parts).Ok?
    ensures |Joined(parts).value| == |parts|
    ensures forall i :: 0 <= i < |parts| ==> Joined(parts).value[i] == parts[i][0]
  {
    JoinFromMeaning(parts);
    FlattenSingles(parts);
  }

  lemma {:induction false} FlattenSingles(parts: seq<seq<string>>)
    requires forall i :: 0 <= i < |parts| ==> |parts[i]| == 1
    ensures |Flatten(parts)| == |parts|
    ensures forall i :: 0 <= i < |parts| ==> Flatten(parts)[i] == parts[i][0]
  {
    if |parts| > 0 {
      FlattenSingles(parts[1..]);
      assert forall i :: 1 <= i < |parts| ==> parts[i] == parts[1..][i - 1];
    }
  }

  class ArgMap {
    var parts: map<int, seq<seq<string>>>

    constructor ()
      ensures parts == map[]
    {
      parts := map[];
    }

    /** argMap.add: an empty list of names is not recorded. */
    method Add(node: int, vars: seq<string>)
      modifies this
      ensures parts == if |vars| == 0 then old(parts) else old(parts)[node := PartsOf(old(parts), node) + [vars]]
    {
      if |vars| == 0 {
        return;
      }
      parts := parts[node := PartsOf(parts, node) + [vars]];
    }

    /** argMap.get. */
    method Get(node: int) returns (r: Result<seq<string>>)
      ensures r == Joined(PartsOf(parts, node))
    {
      var ps := PartsOf(parts, node);
      if |ps| == 0 {
        return Ok([]);
      }
      if |ps| == 1 {
        return Ok(ps[0]);
      }
      var all: seq<string> := [];
      assert ps[0..] == ps;
      assert AstRules.PrependAll([], JoinFrom(ps)) == JoinFrom(ps) by {
        if JoinFrom(ps).Ok? {
          assert [] + JoinFrom(ps).value == JoinFrom(ps).value;
        }
      }
      for i := 0 to |ps|
        invariant JoinFrom(ps) == AstRules.PrependAll(all, JoinFrom(ps[i..]))
      {
        assert ps[i..][0] == ps[i] && ps[i..][1..] == ps[i + 1..];
        if |ps[i]| > 1 {
          return Err(MoreThanOneMultiple);
        }
        AstRules.PrependAllTwice(all, ps[i], JoinFrom(ps[i + 1..]));
        all := all + ps[i];
      }
      assert ps[|ps|..] == [];
      AstRules.PrependAllEmpty(all);
      return Ok(all);
    }
  }

  /** Adding to a node that had nothing makes its one part the result. */
  lemma AddedAlone(parts: map<int, seq<seq<string>>>, node: int, vars: seq<string>)
    requires PartsOf(parts, node) == [] && |vars| > 0
    ensures Joined(PartsOf(parts[node := PartsOf(parts, node) + [vars]], node)) == Ok(vars)
  {
    assert PartsOf(parts, node) + [vars] == [vars];
  }

  // ---------------------------------------------------------------------------
  // checkToNodes: the generated assignment and `if`.

  const EmptyVals := "checkToNodes: vals must not be empty"

  /** `vals := expr`, then `if last != nil { panic(last) }`. */
  datatype Gen = DefineAssign(lhs: seq<string>, rhs: int) | IfErrPanic(errName: string)

  function CheckToNodes(expr: int, vals: seq<string>): (r: Result<seq<Gen>>)
    ensures r.Err? <==> |vals| == 0
    ensures r.Err? ==> r.msg == EmptyVals
    ensures r.Ok? ==> |r.value| == 2 && r.value[0].DefineAssign? && r.value[0].lhs == vals && r.value[0].rhs == expr &&
                      r.value[1].IfErrPanic? && r.value[1].errName == r.value[0].lhs[|vals| - 1]
  {
    if |vals| == 0 then Err(EmptyVals)
    else Ok([DefineAssign(vals, expr), IfErrPanic(vals[|vals| - 1])])
  }

  // ---------------------------------------------------------------------------
  // The names of a check's values: `_go2val<n>` for all but the last value,
  // `_go2err<m>` for the last, from two counters the converter keeps.

  function ValName(i: nat): string
  {
    ValuePrefix + Itoa(i)
  }

  function ErrName(i: nat): string
  {
    ErrorPrefix + Itoa(i)
  }

  /** The names of n values with the counters at v and e. */
  function Vals(v: nat, e: nat, n: nat): seq<string>
    requires n > 0
  {
    seq(n - 1, i requires 0 <= i < n - 1 => ValName(v + i)) + [ErrName(e)]
  }

  lemma NamesDiffer(i: nat, j: nat)
    ensures ValName(i) != ErrName(j)
    ensures ValName(i) == ValName(j) ==> i == j
    ensures ErrName(i) == ErrName(j) ==> i == j
  {
    assert ValName(i)[4] == 'v' && ErrName(j)[4] == 'e';
    if ValName(i) == ValName(j) {
      assert Itoa(i) == ValName(i)[|ValuePrefix|..] == ValName(j)[|ValuePrefix|..] == Itoa(j);
      ItoaInjective(i, j);
    }
    if ErrName(i) == ErrName(j) {
      assert Itoa(i) == ErrName(i)[|ErrorPrefix|..] == ErrName(j)[|ErrorPrefix|..] == Itoa(j);
      ItoaInjective(i, j);
    }
  }

  /** One check's names are distinct, the last is the error's. */
  lemma ValsUnique(v: nat, e: nat, n: nat)
    requires n > 0
    ensures |Vals(v, e, n)| == n && Vals(v, e, n)[n - 1] == ErrName(e)
    ensures forall i, j :: 0 <= i < j < n ==> Vals(v, e, n)[i] != Vals(v, e, n)[j]
  {
    var r := Vals(v, e, n);
    forall i, j | 0 <= i < j < n
      ensures r[i] != r[j]
    {
      if j == n - 1 {
        NamesDiffer(v + i, e);
      } else {
        NamesDiffer(v + i, v + j);
      }
    }
  }

  /** A later check, allocated after the counters moved past an earlier
      one's, shares no name with it. */
  lemma ValsFresh(v: nat, e: nat, n: nat, v': nat, e': nat, n': nat)
    requires n > 0 && n' > 0 && v + n - 1 <= v' && e < e'
    ensures forall x :: x in Vals(v, e, n) ==> x !in Vals(v', e', n')
  {
    var a, b := Vals(v, e, n), Vals(v', e', n');
    forall i, j | 0 <= i < n && 0 <= j < n'
      ensures a[i] != b[j]
    {
      if i == n - 1 && j == n' - 1 {
        NamesDiffer(e, e');
      } else if i == n - 1 {
        NamesDiffer(v' + j, e);
      } else if j == n' - 1 {
        NamesDiffer(v + i, e');
      } else {
        NamesDiffer(v + i, v' + j);
      }
    }
  }

  // ---------------------------------------------------------------------------
  // callMap.resultCount: how many values the checked call returns. The type
  // checker's object for a named callee is an input.

  const CalleeNotIdentOrLit := "callMap: CallExpr.Fun not Ident or FuncLit"
  const ObjectNotFound := "callMap: object not found"
  const ObjectNotFunction := "callMap: object not function"
  /** The runtime's message for a field read through a nil pointer. */
  const NilDeref := "invalid memory address or nil pointer dereference"

  /** What the type checker knows about an identifier. */
  datatype Obj = NoObject | NonFunction | Signature(results: nat)

  /** The callee of a call: an identifier, a function literal with its
      result fields (each with its number of names, 0 for an unnamed field;
      None when the literal declares no results), or anything else. */
  datatype Callee = IdentCallee(name: string, obj: Obj) | FuncLitCallee(results: Option<seq<nat>>) | OtherCallee

  /** The counting as main.go writes it, or as evidently intended. */
  datatype Rule = AsWritten | Intended

  /** The number of values a function literal's result fields declare. */
  function Values(fields: seq<nat>): nat
  {
    if |fields| == 0 then 0 else (if fields[0] == 0 then 1 else fields[0]) + Values(fields[1..])
  }

  function ResultCount(rule: Rule, callee: Callee): (r: Result<nat>)
    ensures callee.IdentCallee? ==> (r.Ok? <==> callee.obj.Signature?) && (r.Ok? ==> r.value == callee.obj.results)
    ensures callee.OtherCallee? ==> r == Err(CalleeNotIdentOrLit)
  {
    match callee
    case IdentCallee(_, obj) =>
      (match obj
       case NoObject => Err(ObjectNotFound)
       case NonFunction => Err(ObjectNotFunction)
       case Signature(n) => Ok(n))
    case FuncLitCallee(results) =>
      if rule == AsWritten then
        if results.None? then Err(NilDeref) else Ok(|results.value|)
      else Ok(if results.None? then 0 else Values(results.value))
    case OtherCallee => Err(CalleeNotIdentOrLit)
  }

  /** As written, a literal `func() (a, b int, err error)` counts two
      values, one per field, though it returns three. */
  lemma GroupedResultsMiscounted()
    ensures ResultCount(AsWritten, FuncLitCallee(Some([2, 1]))) == Ok(2)
    ensures Values([2, 1]) == 3
  {
    assert [2, 1][1..] == [1];
    assert [1][1..] == [];
  }

  /** As written, a literal declaring no results fails on the nil field
      list instead of reaching "check on func with no return values". */
  lemma NoResultsDereferenceNil()
    ensures ResultCount(AsWritten, FuncLitCallee(None)) == Err(NilDeref)
    ensures ResultCount(Intended, FuncLitCallee(None)) == Ok(0)
  {
  }

  /** As intended, a function literal counts one value per result name,
      one per unnamed result, and none when it declares no results. */
  lemma {:induction false} ResultCountCountsNames(fields: seq<nat>)
    ensures ResultCount(Intended, FuncLitCallee(Some(fields))) == Ok(Values(fields))
    ensures Values(fields) >= |fields|
    ensures (forall i :: 0 <= i < |fields| ==> fields[i] <= 1) ==> Values(fields) == |fields|
  {
    if |fields| > 0 {
      ResultCountCountsNames(fields[1..]);
      assert forall i :: 1 <= i < |fields| ==> fields[i] == fields[1..][i - 1];
    }
  }

  // ---------------------------------------------------------------------------
  // convertAST: the syntax tree as a node table (each node after its parent,
  // the arguments of a call after the call), and the walk as the sequence of
  // entries and exits astutil.Apply makes, which is an input.

  const NestedChecks := "error: directly nested checks"
  const InvalidCheck := "invalid check"
  const NoReturnValues := "check on func with no return values"
  const SingleValueNotStmt := "check expression with single value must be an expression statement"
  /** astutil's panic when a node outside a list gets a node inserted before it. */
  const InsertNotInSlice := "InsertBefore node not contained in slice"

  datatype NodeKind =
    | ExprStmtK
    | AssignK
    | OtherStmtK
    | CallK(callee: Callee, args: seq<int>)
    | OtherK

  /** A node: its kind, its parent (-1 for the root) and whether it sits in
      a list, where nodes can be inserted before it. */
  datatype CNode = CNode(kind: NodeKind, parent: int, inList: bool)

  predicate IsStmtK(k: NodeKind)
  {
    k.ExprStmtK? || k.AssignK? || k.OtherStmtK?
  }

  predicate Table(nodes: seq<CNode>)
  {
    forall k :: 0 <= k < |nodes| ==>
      -1 <= nodes[k].parent < k &&
      (nodes[k].kind.CallK? ==> forall a :: a in nodes[k].kind.args ==> k < a < |nodes|)
  }

  function KindAt(nodes: seq<CNode>, x: int): NodeKind
  {
    if 0 <= x < |nodes| then nodes[x].kind else OtherK
  }

  /** checkNode: a call whose callee is the identifier `_go2check`; nil and
      everything else are not. */
  predicate CheckNode(nodes: seq<CNode>, x: int)
  {
    var k := KindAt(nodes, x);
    k.CallK? && k.callee.IdentCallee? && k.callee.name == CheckFunc
  }

  datatype Event = Enter(node: int) | Leave(node: int)

  /** The locals of convertAST: the generated code per statement, the current
      statement, the error to return, the nodes whose subtree the walk skips;
      and the edits made to the tree: checks replaced by their argument, the
      argument lists replaced by names, and the code inserted before
      statements. */
  datatype Visit = Visit(
    stacks: map<int, seq<seq<Gen>>>,
    curr: Option<int>,
    err: Option<string>,
    pruned: set<int>,
    replaced: map<int, int>,
    argEdits: map<int, seq<string>>,
    inserted: map<int, seq<Gen>>)

  const Start := Visit(map[], None, None, {}, map[], map[], map[])

  /** The whole state: the converter's counters, the argMap and the locals. */
  datatype Walk = Walk(numVals: nat, numErrs: nat, am: map<int, seq<seq<string>>>, v: Visit)

  function StackOf(stacks: map<int, seq<seq<Gen>>>, s: int): seq<seq<Gen>>
  {
    if s in stacks then stacks[s] else []
  }

  /** The code of a statement's checks, the latest collected first. */
  function LatestFirst(stack: seq<seq<Gen>>): seq<Gen>
  {
    if |stack| == 0 then [] else stack[|stack| - 1] + LatestFirst(stack[..|stack| - 1])
  }

  /** Stacking more checks puts their code in front. */
  lemma {:induction false} LatestFirstConcat(a: seq<seq<Gen>>, b: seq<seq<Gen>>)
    ensures LatestFirst(a + b) == LatestFirst(b) + LatestFirst(a)
    decreases |b|
  {
    if |b| == 0 {
      assert a + b == a;
    } else {
      var b' := b[..|b| - 1];
      assert (a + b)[..|a + b| - 1] == a + b';
      LatestFirstConcat(a, b');
    }
  }

  /** A check's subtree is skipped and its error recorded. */
  function Reject(w: Walk, k: int, m: string): Walk
  {
    w.(v := w.v.(err := Some(m), pruned := w.v.pruned + {k}))
  }

  /** The result count of a check's argument: one unless it is a call. */
  function ArgCount(rule: Rule, nodes: seq<CNode>, a: int): Result<nat>
  {
    if KindAt(nodes, a).CallK? then ResultCount(rule, KindAt(nodes, a).callee) else Ok(1)
  }

  /** The preorder callback on a check with one argument. As written, the
      error a successful result count leaves is no error at all. */
  function CheckVisit(rule: Rule, nodes: seq<CNode>, w: Walk, k: int): Walk
    requires 0 <= k < |nodes| && nodes[k].kind.CallK? && |nodes[k].kind.args| == 1
  {
    var p := nodes[k].parent;
    var a := nodes[k].kind.args[0];
    var rc := ArgCount(rule, nodes, a);
    var err := if KindAt(nodes, a).CallK? && rc.Ok? && rule == AsWritten then None else w.v.err;
    var w1 := w.(v := w.v.(err := err));
    if rc.Err? then Reject(w1, k, rc.msg)
    else if rc.value == 0 then Reject(w1, k, NoReturnValues)
    else if rc.value == 1 && !KindAt(nodes, p).ExprStmtK? then Reject(w1, k, SingleValueNotStmt)
    else Accept(w1, k, p, a, rc.value)
  }

  /** A check k on argument a, under parent p, accepted with n values: the
      values are named, the names but the error are handed to p, the code
      is collected for the current statement and k is replaced by a. */
  function Accept(w: Walk, k: int, p: int, a: int, n: nat): Walk
    requires n > 0
  {
    var vals := Vals(w.numVals, w.numErrs, n);
    var code := [DefineAssign(vals, a), IfErrPanic(vals[n - 1])];
    var am := if n == 1 then w.am else w.am[p := PartsOf(w.am, p) + [vals[..n - 1]]];
    var stacks := if w.v.curr.Some? then w.v.stacks[w.v.curr.value := StackOf(w.v.stacks, w.v.curr.value) + [code]]
                  else w.v.stacks;
    Walk(w.numVals + n - 1, w.numErrs + 1, am, w.v.(stacks := stacks, replaced := w.v.replaced[k := a]))
  }

  /** The preorder callback on node k. */
  function EnterStep(rule: Rule, nodes: seq<CNode>, w: Walk, k: int): Walk
    requires 0 <= k < |nodes|
  {
    var node := nodes[k];
    if node.parent >= 0 && node.parent in w.v.pruned then w.(v := w.v.(pruned := w.v.pruned + {k}))
    else if IsStmtK(node.kind) then w.(v := w.v.(curr := Some(k)))
    else if !CheckNode(nodes, k) then w
    else if CheckNode(nodes, node.parent) then Reject(w, k, NestedChecks)
    else if |node.kind.args| != 1 then Reject(w, k, InvalidCheck)
    else CheckVisit(rule, nodes, w, k)
  }

  /** The postorder callback on node k (on the argument when k was a check
      replaced by it): the names its checks hand it become its arguments,
      and a statement gets its checks' code inserted before it. */
  function LeaveStep(nodes: seq<CNode>, am: map<int, seq<seq<string>>>, v: Visit, k: int): Result<Visit>
  {
    if k in v.pruned then Ok(v)
    else
      var x := if k in v.replaced then v.replaced[k] else k;
      var kind := KindAt(nodes, x);
      match Joined(PartsOf(am, x))
      case Err(m) => Err(m)
      case Ok(args) =>
        var edits := if |args| > 0 && (kind.CallK? || kind.AssignK?) then v.argEdits[x := args] else v.argEdits;
        var stack := StackOf(v.stacks, x);
        if !IsStmtK(kind) || |stack| == 0 then Ok(v.(argEdits := edits))
        else if !nodes[x].inList then Err(InsertNotInSlice)
        else
          var before := if x in v.inserted then v.inserted[x] else [];
          Ok(v.(argEdits := edits, inserted := v.inserted[x := before + LatestFirst(stack)]))
  }

  /** One event; an error stops the walk. */
  function ConvStep(rule: Rule, nodes: seq<CNode>, w: Walk, e: Event): Result<Walk>
  {
    match e
    case Enter(k) => if 0 <= k < |nodes| then Ok(EnterStep(rule, nodes, w, k)) else Ok(w)
    case Leave(k) =>
      match LeaveStep(nodes, w.am, w.v, k)
      case Err(m) => Err(m)
      case Ok(v) => Ok(w.(v := v))
  }

  /** The events from i on. */
  function ConvFrom(rule: Rule, nodes: seq<CNode>, w: Walk, events: seq<Event>, i: nat): Result<Walk>
    requires i <= |events|
    decreases |events| - i
  {
    if i == |events| then Ok(w)
    else match ConvStep(rule, nodes, w, events[i])
      case Err(m) => Err(m)
      case Ok(w') => ConvFrom(rule, nodes, w', events, i + 1)
  }

  /** The error convertAST returns after the events. */
  function ConvErr(rule: Rule, nodes: seq<CNode>, w: Walk, events: seq<Event>): Option<string>
  {
    match ConvFrom(rule, nodes, w, events, 0)
    case Err(m) => Some(m)
    case Ok(w') => w'.v.err
  }

  /** The tree edits convertAST makes. */
  datatype Edits = Edits(replaced: map<int, int>, argEdits: map<int, seq<string>>, inserted: map<int, seq<Gen>>)

  /** A check is accepted when its parent is no check, it has one argument
      whose result count is known and positive, and a single value sits in
      an expression statement. */
  predicate Accepted(rule: Rule, nodes: seq<CNode>, k: int)
    requires 0 <= k < |nodes|
  {
    var node := nodes[k];
    var args := if node.kind.CallK? then node.kind.args else [];
    !CheckNode(nodes, node.parent) && |args| == 1 &&
    var rc := ArgCount(rule, nodes, args[0]);
    rc.Ok? && rc.value > 0 && (rc.value == 1 ==> KindAt(nodes, node.parent).ExprStmtK?)
  }

  /** Visiting a check outside a skipped subtree: an accepted check is
      replaced by its argument and the counters move on by the number of its
      values; any other has its subtree skipped with an error and leaves the
      counters alone. */
  lemma CheckRules(rule: Rule, nodes: seq<CNode>, w: Walk, k: int)
    requires 0 <= k < |nodes| && CheckNode(nodes, k) && k !in w.v.replaced
    requires !(nodes[k].parent >= 0 && nodes[k].parent in w.v.pruned)
    ensures var w' := EnterStep(rule, nodes, w, k);
            (k in w'.v.replaced <==> Accepted(rule, nodes, k)) &&
            (Accepted(rule, nodes, k) ==>
               var a := nodes[k].kind.args[0];
               w'.v.replaced[k] == a &&
               w'.numVals == w.numVals + ArgCount(rule, nodes, a).value - 1 && w'.numErrs == w.numErrs + 1) &&
            (!Accepted(rule, nodes, k) ==>
               k in w'.v.pruned && w'.v.err.Some? && w'.numVals == w.numVals && w'.numErrs == w.numErrs)
  {
    var node := nodes[k];
    if !CheckNode(nodes, node.parent) && |node.kind.args| == 1 {
      CheckVisitRules(rule, nodes, w, k);
    }
  }

  lemma CheckVisitRules(rule: Rule, nodes: seq<CNode>, w: Walk, k: int)
    requires 0 <= k < |nodes| && nodes[k].kind.CallK? && |nodes[k].kind.args| == 1 && k !in w.v.replaced
    requires !CheckNode(nodes, nodes[k].parent)
    ensures var w' := CheckVisit(rule, nodes, w, k);
            var a := nodes[k].kind.args[0];
            (k in w'.v.replaced <==> Accepted(rule, nodes, k)) &&
            (Accepted(rule, nodes, k) ==>
               w'.v.replaced[k] == a &&
               w'.numVals == w.numVals + ArgCount(rule, nodes, a).value - 1 && w'.numErrs == w.numErrs + 1) &&
            (!Accepted(rule, nodes, k) ==>
               k in w'.v.pruned && w'.v.err.Some? && w'.numVals == w.numVals && w'.numErrs == w.numErrs)
  {
    if Accepted(rule, nodes, k) {
      AcceptedVisit(rule, nodes, w, k);
    } else {
      RejectedVisit(rule, nodes, w, k);
    }
  }

  lemma AcceptedVisit(rule: Rule, nodes: seq<CNode>, w: Walk, k: int)
    requires 0 <= k < |nodes| && nodes[k].kind.CallK? && |nodes[k].kind.args| == 1
    requires Accepted(rule, nodes, k)
    ensures var w' := CheckVisit(rule, nodes, w, k);
            var a := nodes[k].kind.args[0];
            k in w'.v.replaced && w'.v.replaced[k] == a &&
            w'.numVals == w.numVals + ArgCount(rule, nodes, a).value - 1 && w'.numErrs == w.numErrs + 1
  {
    var p, a := nodes[k].parent, nodes[k].kind.args[0];
    var rc := ArgCount(rule, nodes, a);
    var err := if KindAt(nodes, a).CallK? && rc.Ok? && rule == AsWritten then None else w.v.err;
    assert CheckVisit(rule, nodes, w, k) == Accept(w.(v := w.v.(err := err)), k, p, a, rc.value);
  }

  lemma RejectedVisit(rule: Rule, nodes: seq<CNode>, w: Walk, k: int)
    requires 0 <= k < |nodes| && nodes[k].kind.CallK? && |nodes[k].kind.args| == 1 && k !in w.v.replaced
    requires !CheckNode(nodes, nodes[k].parent) && !Accepted(rule, nodes, k)
    ensures var w' := CheckVisit(rule, nodes, w, k);
            k !in w'.v.replaced && k in w'.v.pruned && w'.v.err.Some? && w'.numVals == w.numVals && w'.numErrs == w.numErrs
  {
    var a := nodes[k].kind.args[0];
    var rc := ArgCount(rule, nodes, a);
    var err := if KindAt(nodes, a).CallK? && rc.Ok? && rule == AsWritten then None else w.v.err;
    var m := if rc.Err? then rc.msg else if rc.value == 0 then NoReturnValues else SingleValueNotStmt;
    assert CheckVisit(rule, nodes, w, k) == Reject(w.(v := w.v.(err := err)), k, m);
  }

  /** An accepted check hands its non-error values to its parent and
      stacks, on the current statement, the assignment of all its values
      (named from the counters) followed by the `if` on the error. */
  lemma CheckCode(rule: Rule, nodes: seq<CNode>, w: Walk, k: int)
    requires 0 <= k < |nodes| && nodes[k].kind.CallK? && |nodes[k].kind.args| == 1 && w.v.curr.Some?
    requires Accepted(rule, nodes, k)
    ensures var w' := CheckVisit(rule, nodes, w, k);
            var a := nodes[k].kind.args[0];
            var n := ArgCount(rule, nodes, a).value;
            var s := w.v.curr.value;
            w'.v.curr == w.v.curr &&
            StackOf(w'.v.stacks, s) == StackOf(w.v.stacks, s) + [CheckToNodes(a, Vals(w.numVals, w.numErrs, n)).value] &&
            (n > 1 ==> PartsOf(w'.am, nodes[k].parent) == PartsOf(w.am, nodes[k].parent) + [Vals(w.numVals, w.numErrs, n)[..n - 1]]) &&
            (n == 1 ==> w'.am == w.am)
  {
    var a := nodes[k].kind.args[0];
    var n := ArgCount(rule, nodes, a).value;
    ValsUnique(w.numVals, w.numErrs, n);
  }

  /** The counters never go back, so the names of a later check are fresh
      (ValsFresh). */
  lemma {:induction false} CountersGrow(rule: Rule, nodes: seq<CNode>, w: Walk, events: seq<Event>, i: nat)
    requires i <= |events| && ConvFrom(rule, nodes, w, events, i).Ok?
    ensures ConvFrom(rule, nodes, w, events, i).value.numVals >= w.numVals
    ensures ConvFrom(rule, nodes, w, events, i).value.numErrs >= w.numErrs
    decreases |events| - i
  {
    if i < |events| {
      var w' := ConvStep(rule, nodes, w, events[i]).value;
      CountersGrow(rule, nodes, w', events, i + 1);
    }
  }

  /** As intended, an error once recorded is returned: no later event
      clears it. */
  lemma {:induction false} ErrorSticks(nodes: seq<CNode>, w: Walk, events: seq<Event>, i: nat)
    requires i <= |events| && w.v.err.Some?
    ensures ConvFrom(Intended, nodes, w, events, i).Ok? ==> ConvFrom(Intended, nodes, w, events, i).value.v.err.Some?
    decreases |events| - i
  {
    if i < |events| && ConvStep(Intended, nodes, w, events[i]).Ok? {
      ErrorSticks(nodes, ConvStep(Intended, nodes, w, events[i]).value, events, i + 1);
    }
  }

  /** As intended, a check the walk rejects makes convertAST fail. */
  lemma RejectionReported(nodes: seq<CNode>, w: Walk, events: seq<Event>, i: nat)
    requires i < |events| && events[i].Enter? && 0 <= events[i].node < |nodes|
    requires ConvFrom(Intended, nodes, w, events, 0) == ConvFrom(Intended, nodes, EnterStep(Intended, nodes, w, events[i].node), events, i + 1)
    requires EnterStep(Intended, nodes, w, events[i].node).v.err.Some?
    ensures ConvErr(Intended, nodes, w, events).Some?
  {
    ErrorSticks(nodes, EnterStep(Intended, nodes, w, events[i].node), events, i + 1);
  }

  /** As written, a check whose argument is a call with a known, accepted
      result count clears the error an earlier check left (say a check with
      two arguments, then `check f()`), so convertAST may report nothing
      while a rejected check stays in the tree; as intended the error stays. */
  lemma AsWrittenClearsError(nodes: seq<CNode>, w: Walk, k: int)
    requires 0 <= k < |nodes| && nodes[k].kind.CallK? && |nodes[k].kind.args| == 1
    requires KindAt(nodes, nodes[k].kind.args[0]).CallK? && Accepted(AsWritten, nodes, k)
    requires w.v.err.Some?
    ensures CheckVisit(AsWritten, nodes, w, k).v.err == None
    ensures CheckVisit(Intended, nodes, w, k).v.err.Some?
  {
  }

  /** The insertion loop: the code of the statement's checks, the latest
      collected first, each inserted just before the statement, after what
      was inserted already. */
  method InsertCode(before: seq<Gen>, stack: seq<seq<Gen>>) returns (list: seq<Gen>)
    ensures list == before + LatestFirst(stack)
  {
    list := before;
    var i := |stack|;
    assert stack[..|stack|] == stack;
    while i > 0
      invariant 0 <= i <= |stack|
      invariant list + LatestFirst(stack[..i]) == before + LatestFirst(stack)
    {
      i := i - 1;
      var gens := stack[i];
      assert stack[..i + 1][..i] == stack[..i];
      ghost var start := list;
      for j := 0 to |gens|
        invariant list == start + gens[..j]
      {
        list := list + [gens[j]];
      }
      assert gens[..|gens|] == gens;
    }
    assert list + [] == list;
  }

  /** The walk of convertAST. `rule` says whether result counts and errors
      follow main.go as written or as evidently intended. */
  class Converter {
    const rule: Rule
    var numVals: nat
    var numErrs: nat

    constructor (rule: Rule)
      ensures this.rule == rule && numVals == 0 && numErrs == 0
    {
      this.rule := rule;
      numVals, numErrs := 0, 0;
    }

    function State(am: ArgMap, v: Visit): Walk
      reads this, am
    {
      Walk(numVals, numErrs, am.parts, v)
    }

    /** The loop naming a check's values from the counters. */
    method Allocate(n: nat) returns (vals: seq<string>)
      requires n > 0
      modifies this
      ensures vals == Vals(old(numVals), old(numErrs), n)
      ensures numVals == old(numVals) + n - 1 && numErrs == old(numErrs) + 1
    {
      vals := [];
      for i := 0 to n - 1
        invariant numVals == old(numVals) + i && numErrs == old(numErrs)
        invariant vals == seq(i, j requires 0 <= j < i => ValName(old(numVals) + j))
      {
        vals := vals + [ValName(numVals)];
        numVals := numVals + 1;
      }
      vals := vals + [ErrName(numErrs)];
      numErrs := numErrs + 1;
    }

    /** The preorder callback. */
    method EnterNode(nodes: seq<CNode>, am: ArgMap, v: Visit, k: int) returns (v': Visit)
      requires 0 <= k < |nodes|
      modifies this, am
      ensures State(am, v') == EnterStep(rule, nodes, old(State(am, v)), k)
    {
      var node := nodes[k];
      if node.parent >= 0 && node.parent in v.pruned {
        return v.(pruned := v.pruned + {k});
      }
      if IsStmtK(node.kind) {
        return v.(curr := Some(k));
      }
      if !CheckNode(nodes, k) {
        return v;
      }
      if CheckNode(nodes, node.parent) {
        return v.(err := Some(NestedChecks), pruned := v.pruned + {k});
      }
      if |node.kind.args| != 1 {
        return v.(err := Some(InvalidCheck), pruned := v.pruned + {k});
      }
      v' := VisitCheck(nodes, am, v, k);
    }

    /** The preorder callback on a check with one argument. */
    method VisitCheck(nodes: seq<CNode>, am: ArgMap, v: Visit, k: int) returns (v': Visit)
      requires 0 <= k < |nodes| && nodes[k].kind.CallK? && |nodes[k].kind.args| == 1
      modifies this, am
      ensures State(am, v') == CheckVisit(rule, nodes, old(State(am, v)), k)
    {
      var p := nodes[k].parent;
      var a := nodes[k].kind.args[0];
      var numResults := 1;
      var err := v.err;
      if KindAt(nodes, a).CallK? {
        var rc := ResultCount(rule, KindAt(nodes, a).callee);
        if rc.Err? {
          return v.(err := Some(rc.msg), pruned := v.pruned + {k});
        }
        numResults := rc.value;
        if rule == AsWritten {
          // The assignment of the count also assigns the (nil) error.
          err := None;
        }
      }
      if numResults == 0 {
        return v.(err := Some(NoReturnValues), pruned := v.pruned + {k});
      }
      if numResults == 1 && !KindAt(nodes, p).ExprStmtK? {
        return v.(err := Some(SingleValueNotStmt), pruned := v.pruned + {k});
      }
      v' := AcceptCheck(am, v.(err := err), k, p, a, numResults);
    }

    method AcceptCheck(am: ArgMap, v: Visit, k: int, p: int, a: int, n: nat) returns (v': Visit)
      requires n > 0
      modifies this, am
      ensures State(am, v') == Accept(old(State(am, v)), k, p, a, n)
    {
      ghost var w := State(am, v);
      var vals := Allocate(n);
      assert |vals| == n;
      am.Add(p, vals[..n - 1]);
      assert am.parts == (if n == 1 then w.am else w.am[p := PartsOf(w.am, p) + [vals[..n - 1]]]);
      var code := CheckToNodes(a, vals);
      assert code.value == [DefineAssign(vals, a), IfErrPanic(vals[n - 1])];
      var stacks := v.stacks;
      if v.curr.Some? {
        stacks := stacks[v.curr.value := StackOf(stacks, v.curr.value) + [code.value]];
      }
      return v.(stacks := stacks, replaced := v.replaced[k := a]);
    }

    /** The postorder callback. */
    method LeaveNode(nodes: seq<CNode>, am: ArgMap, v: Visit, k: int) returns (r: Result<Visit>)
      ensures r == LeaveStep(nodes, am.parts, v, k)
    {
      if k in v.pruned {
        return Ok(v);
      }
      var x := if k in v.replaced then v.replaced[k] else k;
      var args := am.Get(x);
      if args.Err? {
        return Err(args.msg);
      }
      var kind := KindAt(nodes, x);
      var edits := v.argEdits;
      if |args.value| > 0 && (kind.CallK? || kind.AssignK?) {
        edits := edits[x := args.value];
      }
      var stack := StackOf(v.stacks, x);
      if !IsStmtK(kind) || |stack| == 0 {
        return Ok(v.(argEdits := edits));
      }
      if !nodes[x].inList {
        return Err(InsertNotInSlice);
      }
      var list := InsertCode(if x in v.inserted then v.inserted[x] else [], stack);
      return Ok(v.(argEdits := edits, inserted := v.inserted[x := list]));
    }

    /** convertAST over the events of the walk, under the class's rule. */
    method ConvertAST(nodes: seq<CNode>, events: seq<Event>) returns (err: Option<string>, edits: Edits)
      modifies this
      ensures err == ConvErr(rule, nodes, Walk(old(numVals), old(numErrs), map[], Start), events)
      ensures ConvFrom(rule, nodes, Walk(old(numVals), old(numErrs), map[], Start), events, 0).Ok? ==>
                var w := ConvFrom(rule, nodes, Walk(old(numVals), old(numErrs), map[], Start), events, 0).value;
                numVals == w.numVals && numErrs == w.numErrs && edits == Edits(w.v.replaced, w.v.argEdits, w.v.inserted)
    {
      var am := new ArgMap();
      var v := Start;
      for i := 0 to |events|
        invariant ConvFrom(rule, nodes, Walk(old(numVals), old(numErrs), map[], Start), events, 0) ==
                  ConvFrom(rule, nodes, State(am, v), events, i)
      {
        match events[i] {
          case Enter(k) =>
            if 0 <= k < |nodes| {
              v := EnterNode(nodes, am, v, k);
            }
          case Leave(k) =>
            var r := LeaveNode(nodes, am, v, k);
            if r.Err? {
              return Some(r.msg), Edits(v.replaced, v.argEdits, v.inserted);
            }
            v := r.value;
        }
      }
      return v.err, Edits(v.replaced, v.argEdits, v.inserted);
    }
  }

  /* replaceChecks: the text pass that turns each `check` into a call of the
     check function, closing the call where the checked expression ends. */

  const ScanError := "scan error"

  /** The open parentheses, brackets and braces of one open check. */
  datatype Delims = Delims(parens: int, brackets: int, braces: int)

  const Closed := Delims(0, 0, 0)

  predicate Opener(k: Kind)
  {
    k == LParen || k == LBrack || k == LBrace
  }

  predicate Closer(k: Kind)
  {
    k == RParen || k == RBrack || k == RBrace
  }

  /** The delimiter's counter moved by delta. */
  function Bump(d: Delims, k: Kind, delta: int): Delims
    requires Opener(k) || Closer(k)
  {
    if k == LParen || k == RParen then d.(parens := d.parens + delta)
    else if k == LBrack || k == RBrack then d.(brackets := d.brackets + delta)
    else d.(braces := d.braces + delta)
  }

  /** What the text pass writes: the opening of a check call, its closing,
      or a token's text. Each is followed by a space. */
  datatype Piece = Open | Close | Text(s: string)

  function Render(p: Piece): string
  {
    match p
    case Open => CheckFunc + " ( "
    case Close => ") "
    case Text(t) => t + " "
  }

  function RenderAll(ps: seq<Piece>): string
  {
    if |ps| == 0 then "" else Render(ps[0]) + RenderAll(ps[1..])
  }

  /** A token's text: the spelling of an operator or keyword, otherwise its literal. */
  function TokenText(t: Token): string
  {
    if IsOperator(t.kind) || IsKeyword(t.kind) then Spelling(t.kind) else t.lit
  }

  /** The operators before which a check with no delimiter open closes: any
      operator as written; as intended, any operator but the period, which
      selects from the operand rather than ending it. */
  predicate EndsCheck(rule: Rule, k: Kind)
  {
    IsOperator(k) && (rule == AsWritten || k != Period)
  }

  /** The stack of open checks after a token that is not `check`, and whether
      the innermost check closes just before it: when the token closes the
      last delimiter the check opened, or ends it while none is open. */
  function Track(rule: Rule, stack: seq<Delims>, k: Kind): (seq<Delims>, bool)
  {
    if |stack| == 0 then (stack, false)
    else
      var rest, top := stack[..|stack| - 1], stack[|stack| - 1];
      if Opener(k) then (rest + [Bump(top, k, 1)], false)
      else if Closer(k) then
        var d := Bump(top, k, -1);
        if d == Closed then (rest, true) else (rest + [d], false)
      else if EndsCheck(rule, k) && top == Closed then (rest, true)
      else (stack, false)
  }

  function PrependPieces(p: seq<Piece>, r: Result<seq<Piece>>): (r': Result<seq<Piece>>)
    ensures r'.Ok? <==> r.Ok?
  {
    match r
    case Ok(ps) => Ok(p + ps)
    case Err(m) => Err(m)
  }

  /** What one token other than EOF writes, and the stack after it. */
  function Step(rule: Rule, stack: seq<Delims>, t: Token): (seq<Piece>, seq<Delims>)
  {
    if t.lit == "check" then ([Open], stack + [Closed])
    else
      var (stack', closes) := Track(rule, stack, t.kind);
      (if closes then [Close, Text(TokenText(t))] else [Text(TokenText(t))], stack')
  }

  /** The pieces written for the tokens from k on, up to EOF, with `stack`
      open; a check still open at EOF is an error. */
  function Pieces(rule: Rule, toks: seq<Token>, k: nat, stack: seq<Delims>): Result<seq<Piece>>
    requires k <= |toks|
    decreases |toks| - k
  {
    if k == |toks| || toks[k].kind.EOF? then
      if |stack| > 0 then Err(ScanError) else Ok([])
    else
      var (p, stack') := Step(rule, stack, toks[k]);
      PrependPieces(p, Pieces(rule, toks, k + 1, stack'))
  }

  /** The text written: sb followed by the rendering of the rest. */
  function Written(sb: string, r: Result<seq<Piece>>): Result<string>
  {
    match r
    case Ok(ps) => Ok(sb + RenderAll(ps))
    case Err(m) => Err(m)
  }

  lemma {:induction false} RenderAllConcat(a: seq<Piece>, b: seq<Piece>)
    ensures RenderAll(a + b) == RenderAll(a) + RenderAll(b)
    decreases |a|
  {
    if |a| > 0 {
      assert (a + b)[1..] == a[1..] + b;
      RenderAllConcat(a[1..], b);
    } else {
      assert a + b == b;
    }
  }

  lemma WrittenStep(sb: string, p: seq<Piece>, r: Result<seq<Piece>>)
    ensures Written(sb, PrependPieces(p, r)) == Written(sb + RenderAll(p), r)
  {
    if r.Ok? {
      RenderAllConcat(p, r.value);
      assert sb + (RenderAll(p) + RenderAll(r.value)) == sb + RenderAll(p) + RenderAll(r.value);
    }
  }

  /** One token of the scanning loop, the check identifier aside: the stack
      update of the switch on its kind and the closing it writes. */
  method TrackToken(rule: Rule, stack: seq<Delims>, k: Kind) returns (stack': seq<Delims>, closes: bool)
    ensures (stack', closes) == Track(rule, stack, k)
  {
    stack', closes := stack, false;
    if |stack| > 0 {
      var top := |stack| - 1;
      assert stack[..top] + [stack[top]] == stack;
      if Opener(k) {
        stack' := stack'[top := Bump(stack'[top], k, 1)];
        assert stack' == stack[..top] + [Bump(stack[top], k, 1)];
      } else if Closer(k) {
        stack' := stack'[top := Bump(stack'[top], k, -1)];
        assert stack' == stack[..top] + [Bump(stack[top], k, -1)];
        if stack'[top] == Closed {
          closes := true;
          stack' := stack'[..top];
        }
      } else if EndsCheck(rule, k) && stack'[top] == Closed {
        closes := true;
        stack' := stack'[..top];
      }
    }
  }

  lemma RenderToken(closes: bool, text: string)
    ensures RenderAll(if closes then [Close, Text(text)] else [Text(text)]) == (if closes then ") " else "") + text + " "
  {
    assert RenderAll([Text(text)]) == text + " " + RenderAll([]);
    assert [Close, Text(text)][1..] == [Text(text)];
  }

  /** The body of the scanning loop on a token other than EOF. */
  method WriteToken(rule: Rule, sb: string, stack: seq<Delims>, t: Token) returns (sb': string, stack': seq<Delims>)
    ensures sb' == sb + RenderAll(Step(rule, stack, t).0) && stack' == Step(rule, stack, t).1
  {
    if t.lit == "check" {
      RenderCheck(rule, stack, t);
      return sb + CheckFunc + " ( ", stack + [Closed];
    }
    var closes;
    stack', closes := TrackToken(rule, stack, t.kind);
    RenderStep(rule, stack, t, stack', closes);
    sb' := sb;
    if closes {
      sb' := sb' + ") ";
    }
    sb' := sb' + TokenText(t) + " ";
    if closes {
      Append3(sb, ") ", TokenText(t), " ");
    } else {
      Append3(sb, "", TokenText(t), " ");
    }
  }

  lemma Append3(a: string, b: string, c: string, d: string)
    ensures (if b == "" then a else a + b) + c + d == a + (b + c + d)
  {
    if b == "" {
      assert b + c + d == c + d;
    }
  }

  lemma RenderCheck(rule: Rule, stack: seq<Delims>, t: Token)
    requires t.lit == "check"
    ensures RenderAll(Step(rule, stack, t).0) == CheckFunc + " ( " && Step(rule, stack, t).1 == stack + [Closed]
  {
    assert RenderAll([Open]) == CheckFunc + " ( " + RenderAll([]);
  }

  lemma RenderStep(rule: Rule, stack: seq<Delims>, t: Token, stack': seq<Delims>, closes: bool)
    requires t.lit != "check" && (stack', closes) == Track(rule, stack, t.kind)
    ensures RenderAll(Step(rule, stack, t).0) == (if closes then ") " else "") + TokenText(t) + " "
    ensures Step(rule, stack, t).1 == stack'
  {
    RenderToken(closes, TokenText(t));
  }

  /** replaceChecks over the scanner's tokens; the source's is the AsWritten rule. */
  method ReplaceChecks(rule: Rule, toks: seq<Token>) returns (r: Result<string>)
    ensures r == Written("", Pieces(rule, toks, 0, []))
  {
    var sb := "";
    var stack: seq<Delims> := [];
    var k := 0;
    while k < |toks| && !toks[k].kind.EOF?
      invariant 0 <= k <= |toks|
      invariant Written("", Pieces(rule, toks, 0, [])) == Written(sb, Pieces(rule, toks, k, stack))
      decreases |toks| - k
    {
      ghost var step := Step(rule, stack, toks[k]);
      ghost var rest := Pieces(rule, toks, k + 1, step.1);
      assert Pieces(rule, toks, k, stack) == PrependPieces(step.0, rest);
      WrittenStep(sb, step.0, rest);
      sb, stack := WriteToken(rule, sb, stack, toks[k]);
      k := k + 1;
    }
    assert sb + RenderAll([]) == sb;
    if |stack| > 0 {
      return Err(ScanError);
    }
    return Ok(sb);
  }

  /** ps, entered with d checks open, closes only checks that are open and
      leaves none open. */
  predicate Balanced(ps: seq<Piece>, d: nat)
    decreases |ps|
  {
    if |ps| == 0 then d == 0
    else
      match ps[0]
      case Open => Balanced(ps[1..], d + 1)
      case Close => d > 0 && Balanced(ps[1..], d - 1)
      case Text(_) => Balanced(ps[1..], d)
  }

  /** A token pops the innermost check exactly when it closes it. */
  lemma TrackDepth(rule: Rule, stack: seq<Delims>, k: Kind)
    ensures var (stack', closes) := Track(rule, stack, k);
            if closes then |stack| > 0 && |stack'| == |stack| - 1 else |stack'| == |stack|
  {
  }

  /** Every closing the text pass writes closes a check call it opened, and
      at the end of the tokens every opened call is closed. */
  lemma {:induction false} PiecesBalanced(rule: Rule, toks: seq<Token>, k: nat, stack: seq<Delims>)
    requires k <= |toks|
    ensures Pieces(rule, toks, k, stack).Ok? ==> Balanced(Pieces(rule, toks, k, stack).value, |stack|)
    decreases |toks| - k
  {
    if k < |toks| && !toks[k].kind.EOF? {
      var (p, stack') := Step(rule, stack, toks[k]);
      PiecesBalanced(rule, toks, k + 1, stack');
      PiecesStepIs(rule, toks, k, stack, p, stack');
      StepDepth(rule, stack, toks[k]);
      var rest := Pieces(rule, toks, k + 1, stack');
      if rest.Ok? {
        BalancedStep(p, rest.value, |stack|, |stack'|);
      }
    }
  }

  /** What one token writes moves the open-call depth from d to d'. */
  predicate Shifts(p: seq<Piece>, d: nat, d': nat)
  {
    (p == [Open] && d' == d + 1) ||
    (|p| == 2 && p[0] == Close && p[1].Text? && d > 0 && d' == d - 1) ||
    (|p| == 1 && p[0].Text? && d' == d)
  }

  lemma StepDepth(rule: Rule, stack: seq<Delims>, t: Token)
    ensures Shifts(Step(rule, stack, t).0, |stack|, |Step(rule, stack, t).1|)
  {
    if t.lit != "check" {
      TrackDepth(rule, stack, t.kind);
    }
  }

  lemma BalancedStep(p: seq<Piece>, ps: seq<Piece>, d: nat, d': nat)
    requires Shifts(p, d, d') && Balanced(ps, d')
    ensures Balanced(p + ps, d)
  {
    var all := p + ps;
    if |p| == 2 {
      assert all[1..] == [p[1]] + ps && all[1..][1..] == ps;
    } else {
      assert all[1..] == ps;
    }
  }

  /** The token texts the pass writes. */
  function Texts(ps: seq<Piece>): seq<string>
  {
    if |ps| == 0 then []
    else (if ps[0].Text? then [ps[0].s] else []) + Texts(ps[1..])
  }

  function Opens(ps: seq<Piece>): nat
  {
    if |ps| == 0 then 0 else (if ps[0].Open? then 1 else 0) + Opens(ps[1..])
  }

  /** The text of every token from k up to EOF but the check identifiers. */
  function Plain(toks: seq<Token>, k: nat): seq<string>
    requires k <= |toks|
    decreases |toks| - k
  {
    if k == |toks| || toks[k].kind.EOF? then []
    else (if toks[k].lit == "check" then [] else [TokenText(toks[k])]) + Plain(toks, k + 1)
  }

  /** The number of check identifiers from k up to EOF. */
  function CheckCount(toks: seq<Token>, k: nat): nat
    requires k <= |toks|
    decreases |toks| - k
  {
    if k == |toks| || toks[k].kind.EOF? then 0
    else (if toks[k].lit == "check" then 1 else 0) + CheckCount(toks, k + 1)
  }

  lemma {:induction false} TextsConcat(a: seq<Piece>, b: seq<Piece>)
    ensures Texts(a + b) == Texts(a) + Texts(b)
    ensures Opens(a + b) == Opens(a) + Opens(b)
    decreases |a|
  {
    if |a| == 0 {
      assert a + b == b;
    } else {
      assert (a + b)[1..] == a[1..] + b;
      TextsConcat(a[1..], b);
    }
  }

  /** The pass only adds check calls around the source: the tokens it writes
      are the source's, in order, but for each check identifier, which
      becomes exactly one opening of a call. */
  lemma {:induction false} PiecesKeepTokens(rule: Rule, toks: seq<Token>, k: nat, stack: seq<Delims>)
    requires k <= |toks|
    ensures Pieces(rule, toks, k, stack).Ok? ==>
              Texts(Pieces(rule, toks, k, stack).value) == Plain(toks, k) &&
              Opens(Pieces(rule, toks, k, stack).value) == CheckCount(toks, k)
    decreases |toks| - k
  {
    if k < |toks| && !toks[k].kind.EOF? {
      var (p, stack') := Step(rule, stack, toks[k]);
      PiecesKeepTokens(rule, toks, k + 1, stack');
      PiecesStepIs(rule, toks, k, stack, p, stack');
      StepTexts(rule, stack, toks[k]);
      KeepTokensStep(toks, k, p, Pieces(rule, toks, k + 1, stack'), Pieces(rule, toks, k, stack));
    }
  }

  /** The inductive step of PiecesKeepTokens, over the pieces as values. */
  lemma KeepTokensStep(toks: seq<Token>, k: nat, p: seq<Piece>, rest: Result<seq<Piece>>, all: Result<seq<Piece>>)
    requires k < |toks| && !toks[k].kind.EOF? && all == PrependPieces(p, rest)
    requires Texts(p) == (if toks[k].lit == "check" then [] else [TokenText(toks[k])])
    requires Opens(p) == if toks[k].lit == "check" then 1 else 0
    requires rest.Ok? ==> Texts(rest.value) == Plain(toks, k + 1) && Opens(rest.value) == CheckCount(toks, k + 1)
    ensures all.Ok? ==> Texts(all.value) == Plain(toks, k) && Opens(all.value) == CheckCount(toks, k)
  {
    if rest.Ok? {
      TextsConcat(p, rest.value);
    }
  }

  /** One token writes its own text, or one opening for `check`. */
  lemma StepTexts(rule: Rule, stack: seq<Delims>, t: Token)
    ensures Texts(Step(rule, stack, t).0) == if t.lit == "check" then [] else [TokenText(t)]
    ensures Opens(Step(rule, stack, t).0) == if t.lit == "check" then 1 else 0
  {
    var x := TokenText(t);
    if t.lit != "check" {
      var closes := Track(rule, stack, t.kind).1;
      if closes {
        var p := [Close, Text(x)];
        assert Step(rule, stack, t).0 == p;
        assert p[1..] == [Text(x)] && p[1..][1..] == [];
        assert Texts(p[1..]) == [x] && Opens(p[1..]) == 0;
      } else {
        var p := [Text(x)];
        assert Step(rule, stack, t).0 == p;
        assert p[1..] == [];
      }
    } else {
      var p := [Open];
      assert Step(rule, stack, t).0 == p;
      assert p[1..] == [];
    }
  }

  /** One token of the pass, unfolded, given what the token writes. */
  lemma PiecesStepIs(rule: Rule, toks: seq<Token>, k: nat, stack: seq<Delims>, p: seq<Piece>, stack': seq<Delims>)
    requires k < |toks| && !toks[k].kind.EOF? && Step(rule, stack, toks[k]) == (p, stack')
    ensures Pieces(rule, toks, k, stack) == PrependPieces(p, Pieces(rule, toks, k + 1, stack'))
  {
  }

  /** A period with no delimiter of the innermost check open: it closes the
      check as written and not as intended. */
  lemma StepPeriod(rule: Rule, stack: seq<Delims>, t: Token)
    requires t.kind == Period && t.lit == ""
    ensures Step(rule, stack + [Closed], t) ==
            if rule == AsWritten then ([Close, Text(".")], stack) else ([Text(".")], stack + [Closed])
  {
    assert (stack + [Closed])[..|stack|] == stack;
    assert !Opener(t.kind) && !Closer(t.kind) && TokenText(t) == ".";
  }

  /** A token that is neither a delimiter, an operator nor a keyword is written as it is. */
  lemma StepPlain(rule: Rule, stack: seq<Delims>, t: Token)
    requires t.lit != "check" && !IsOperator(t.kind) && !IsKeyword(t.kind)
    ensures Step(rule, stack, t) == ([Text(t.lit)], stack)
  {
    assert !Opener(t.kind) && !Closer(t.kind);
  }

  /** `check x.` at k, x an identifier: as written, the period closes the
      check, so `check os.Open(name)` becomes a check of the package name
      with the selection applied to its result. */
  lemma {:induction false} SelectorClosedEarly(toks: seq<Token>, k: nat, stack: seq<Delims>)
    requires k + 3 <= |toks| && toks[k].lit == "check" && !toks[k].kind.EOF?
    requires toks[k + 1].kind == Ident && toks[k + 1].lit != "check" && toks[k + 2].kind == Period && toks[k + 2].lit == ""
    ensures Pieces(AsWritten, toks, k, stack) ==
            PrependPieces([Open, Text(toks[k + 1].lit), Close, Text(".")], Pieces(AsWritten, toks, k + 3, stack))
  {
    var x := toks[k + 1].lit;
    var rest := Pieces(AsWritten, toks, k + 3, stack);
    var open := stack + [Closed];
    StepPeriod(AsWritten, stack, toks[k + 2]);
    PiecesStepIs(AsWritten, toks, k + 2, open, [Close, Text(".")], stack);
    var r2 := PrependPieces([Close, Text(".")], rest);
    assert Pieces(AsWritten, toks, k + 2, open) == r2;
    StepPlain(AsWritten, open, toks[k + 1]);
    PiecesStepIs(AsWritten, toks, k + 1, open, [Text(x)], open);
    var r1 := PrependPieces([Text(x)], r2);
    assert Pieces(AsWritten, toks, k + 1, open) == r1;
    PiecesStepIs(AsWritten, toks, k, stack, [Open], open);
    assert Pieces(AsWritten, toks, k, stack) == PrependPieces([Open], r1);
    PrependTwice([Text(x)], [Close, Text(".")], rest);
    PrependTwice([Open], [Text(x)] + [Close, Text(".")], rest);
    assert [Open] + ([Text(x)] + [Close, Text(".")]) == [Open, Text(x), Close, Text(".")];
  }

  /** `check x.` at k as intended: the check stays open across the period. */
  lemma {:induction false} SelectorChecked(toks: seq<Token>, k: nat, stack: seq<Delims>)
    requires k + 3 <= |toks| && toks[k].lit == "check" && !toks[k].kind.EOF?
    requires toks[k + 1].kind == Ident && toks[k + 1].lit != "check" && toks[k + 2].kind == Period && toks[k + 2].lit == ""
    ensures Pieces(Intended, toks, k, stack) ==
            PrependPieces([Open, Text(toks[k + 1].lit), Text(".")], Pieces(Intended, toks, k + 3, stack + [Closed]))
  {
    var x := toks[k + 1].lit;
    var open := stack + [Closed];
    var rest := Pieces(Intended, toks, k + 3, open);
    SelectorTail(toks, k, stack);
    var r1 := PrependPieces([Text(x), Text(".")], rest);
    PiecesStepIs(Intended, toks, k, stack, [Open], open);
    PrependTwice([Open], [Text(x), Text(".")], rest);
    assert [Open] + [Text(x), Text(".")] == [Open, Text(x), Text(".")];
  }

  /** Away from periods the two rules write the same: `check a() + check b()`
      closes each check before the `+` as intended too. */
  lemma {:induction false} RulesAgreeWithoutPeriods(toks: seq<Token>, k: nat, stack: seq<Delims>)
    requires k <= |toks| && forall i :: k <= i < |toks| ==> toks[i].kind != Period
    ensures Pieces(AsWritten, toks, k, stack) == Pieces(Intended, toks, k, stack)
    decreases |toks| - k
  {
    if k < |toks| && !toks[k].kind.EOF? {
      var t := toks[k];
      assert Track(AsWritten, stack, t.kind) == Track(Intended, stack, t.kind);
      var (p, stack') := Step(Intended, stack, t);
      assert Step(AsWritten, stack, t) == (p, stack');
      RulesAgreeWithoutPeriods(toks, k + 1, stack');
    }
  }

  lemma PrependTwice(p: seq<Piece>, q: seq<Piece>, r: Result<seq<Piece>>)
    ensures PrependPieces(p, PrependPieces(q, r)) == PrependPieces(p + q, r)
  {
    if r.Ok? {
      assert p + (q + r.value) == (p + q) + r.value;
    }
  }

  /** The operand and the period after an opened check, as intended. */
  lemma {:induction false} SelectorTail(toks: seq<Token>, k: nat, stack: seq<Delims>)
    requires k + 3 <= |toks|
    requires toks[k + 1].kind == Ident && toks[k + 1].lit != "check" && toks[k + 2].kind == Period && toks[k + 2].lit == ""
    ensures Pieces(Intended, toks, k + 1, stack + [Closed]) ==
            PrependPieces([Text(toks[k + 1].lit), Text(".")], Pieces(Intended, toks, k + 3, stack + [Closed]))
  {
    var x := toks[k + 1].lit;
    var open := stack + [Closed];
    var rest := Pieces(Intended, toks, k + 3, open);
    StepPeriod(Intended, stack, toks[k + 2]);
    PiecesStepIs(Intended, toks, k + 2, open, [Text(".")], open);
    var r2 := PrependPieces([Text(".")], rest);
    assert Pieces(Intended, toks, k + 2, open) == r2;
    StepPlain(Intended, open, toks[k + 1]);
    PiecesStepIs(Intended, toks, k + 1, open, [Text(x)], open);
    assert Pieces(Intended, toks, k + 1, open) == PrependPieces([Text(x)], r2);
    PrependTwice([Text(x)], [Text(".")], rest);
    assert [Text(x)] + [Text(".")] == [Text(x), Text(".")];
  }
}
