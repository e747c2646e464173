/** The tree passes of the ast.go rewriter: the ownership maps, the collection
    of handle blocks and checks, the expansion of each typed check, the removal
    of checked expression statements and the driver that repeats the expansion
    until the type checker has typed every check. */
module AstPass {
  import opened Wrappers
  import opened GoTree
  import opened AstRules
  import opened GoStrings

  /** A go2 file as the passes see it: its nodes in preorder, the positions the
      check and handle markers were recorded at (handle markers with their error
      identifier), the result fields of each function node, and the statements
      of each block as values (handle blocks are copied from these). */
  datatype File = File(
    nodes: seq<Node>,
    checkMap: set<int>,
    handleMap: map<int, string>,
    results: map<int, seq<Field>>,
    bodies: map<int, seq<Stmt>>)

  /** A Go map lookup whose missing entries read as nil. */
  function Get(m: map<int, Option<int>>, k: int): Option<int>
  {
    if k in m then m[k] else None
  }

  // ---------------------------------------------------------------------------
  // buildTrees: the function and the block each node belongs to. A function
  // belongs to itself and a block to itself; every other node to its parent's.

  function NearestFunc(nodes: seq<Node>, k: int): Option<int>
    requires Tree(nodes) && 0 <= k < |nodes|
    decreases k
  {
    if IsFunc(nodes[k].kind) then Some(k)
    else if nodes[k].parent < 0 then None
    else NearestFunc(nodes, nodes[k].parent)
  }

  function NearestBlock(nodes: seq<Node>, k: int): Option<int>
    requires Tree(nodes) && 0 <= k < |nodes|
    decreases k
  {
    if nodes[k].kind == BlockStmt then Some(k)
    else if nodes[k].parent < 0 then None
    else NearestBlock(nodes, nodes[k].parent)
  }

  /** The function a node belongs to is an enclosing function, and no
      enclosing function lies below it. */
  lemma {:induction false} NearestFuncIsNearest(nodes: seq<Node>, k: int, g: int)
    requires Tree(nodes) && 0 <= k < |nodes|
    ensures NearestFunc(nodes, k).Some? ==>
              var f := NearestFunc(nodes, k).value;
              0 <= f <= k && IsFunc(nodes[f].kind) && Within(nodes, k, f)
    ensures 0 <= g < |nodes| && IsFunc(nodes[g].kind) && Within(nodes, k, g) ==>
              NearestFunc(nodes, k).Some? && g <= NearestFunc(nodes, k).value
    decreases k
  {
    if 0 <= g < |nodes| && Within(nodes, k, g) {
      WithinAfter(nodes, k, g);
    }
    if !IsFunc(nodes[k].kind) && nodes[k].parent >= 0 {
      NearestFuncIsNearest(nodes, nodes[k].parent, g);
    }
  }

  lemma {:induction false} NearestBlockIsNearest(nodes: seq<Node>, k: int, g: int)
    requires Tree(nodes) && 0 <= k < |nodes|
    ensures NearestBlock(nodes, k).Some? ==>
              var b := NearestBlock(nodes, k).value;
              0 <= b <= k && nodes[b].kind == BlockStmt && Within(nodes, k, b)
    ensures 0 <= g < |nodes| && nodes[g].kind == BlockStmt && Within(nodes, k, g) ==>
              NearestBlock(nodes, k).Some? && g <= NearestBlock(nodes, k).value
    decreases k
  {
    if 0 <= g < |nodes| && Within(nodes, k, g) {
      WithinAfter(nodes, k, g);
    }
    if nodes[k].kind != BlockStmt && nodes[k].parent >= 0 {
      NearestBlockIsNearest(nodes, nodes[k].parent, g);
    }
  }

  function FuncOwners(nodes: seq<Node>, n: nat): map<int, Option<int>>
    requires Tree(nodes) && n <= |nodes|
  {
    if n == 0 then map[] else FuncOwners(nodes, n - 1)[n - 1 := NearestFunc(nodes, n - 1)]
  }

  function BlockOwners(nodes: seq<Node>, n: nat): map<int, Option<int>>
    requires Tree(nodes) && n <= |nodes|
  {
    if n == 0 then map[] else BlockOwners(nodes, n - 1)[n - 1 := NearestBlock(nodes, n - 1)]
  }

  /** A fresh, empty counter map for every block among the first n nodes. */
  function FreshScopes(nodes: seq<Node>, n: nat): map<int, map<string, nat>>
    requires n <= |nodes|
  {
    if n == 0 then map[]
    else if nodes[n - 1].kind == BlockStmt then FreshScopes(nodes, n - 1)[n - 1 := map[]]
    else FreshScopes(nodes, n - 1)
  }

  lemma {:induction false} OwnersAt(nodes: seq<Node>, n: nat, k: int)
    requires Tree(nodes) && 0 <= k < n <= |nodes|
    ensures k in FuncOwners(nodes, n) && FuncOwners(nodes, n)[k] == NearestFunc(nodes, k)
    ensures k in BlockOwners(nodes, n) && BlockOwners(nodes, n)[k] == NearestBlock(nodes, k)
  {
    if k < n - 1 {
      OwnersAt(nodes, n - 1, k);
    }
  }

  lemma UnionUpdate<K, V>(a: map<K, V>, b: map<K, V>, k: K, v: V)
    ensures (a + b)[k := v] == a + b[k := v]
  {
  }

  /** The pieces of a block's statement list once the rewriter has edited it:
      an original statement node, the generated assignment of a check's values
      (the checked expression node on its right), or the generated `if` on the
      error with its handler body. */
  datatype Piece = Orig(id: int) | GenAssign(names: seq<string>, rhs: int) | GenIf(errName: string, body: seq<Stmt>)

  /** Where a check sits: its function, its block and the statement it belongs to. */
  datatype Loc = Loc(fun: int, block: int, stmt: int)

  /** The statements of block b among the first n nodes, in order. */
  function Children(nodes: seq<Node>, b: int, n: nat): seq<Piece>
    requires n <= |nodes|
  {
    if n == 0 then []
    else Children(nodes, b, n - 1) + (if nodes[n - 1].parent == b && IsStmt(nodes[n - 1].kind) then [Orig(n - 1)] else [])
  }

  /** Every statement list as parsed: each block's, and each clause's body. */
  function StmtLists(nodes: seq<Node>): map<int, seq<Piece>>
  {
    map b | 0 <= b < |nodes| && HoldsList(nodes[b].kind) :: Children(nodes, b, |nodes|)
  }

  /** The list without the pieces naming a statement in del. */
  function Drop(list: seq<Piece>, del: set<int>): (r: seq<Piece>)
    ensures forall x :: x in r <==> x in list && !(x.Orig? && x.id in del)
    ensures (forall x :: x in list ==> !(x.Orig? && x.id in del)) ==> r == list
  {
    if |list| == 0 then []
    else
      assert list == [list[0]] + list[1..];
      (if list[0].Orig? && list[0].id in del then [] else [list[0]]) + Drop(list[1..], del)
  }

  // ---------------------------------------------------------------------------
  // collectHandlersAndChecks: one preorder walk registering the handle blocks of
  // each function (and deleting them from their block), the number of handlers
  // registered before each statement, and the location of each check.

  const HandleNotBlock := "a block must follow handle keyword and error identifier"
  const CheckOutsideStmt := "check expression found outside stmt... shoudln't be possible"
  const DeleteNotInSlice := "Delete node not contained in slice"

  /** A Go slice-valued map read at a missing key: the empty slice. */
  function Hcs(hcs: map<int, seq<int>>, f: int): seq<int>
  {
    if f in hcs then hcs[f] else []
  }

  /** The state of the walk: the shared maps it fills, the block lists it
      deletes handle blocks from, the positions already collected, the last
      statement met, and the nodes inside deleted handle blocks (not visited). */
  datatype Walk = Walk(
    hcs: map<int, seq<int>>,
    errNames: map<int, string>,
    snh: map<int, nat>,
    ces: map<int, Loc>,
    lists: map<int, seq<Piece>>,
    collected: set<int>,
    curr: Option<int>,
    skipped: set<int>)

  function CollectStep(file: File, ft: map<int, Option<int>>, bt: map<int, Option<int>>, w: Walk, k: int): Result<Walk>
    requires Tree(file.nodes) && 0 <= k < |file.nodes|
  {
    var node := file.nodes[k];
    if node.parent >= 0 && node.parent in w.skipped then Ok(w.(skipped := w.skipped + {k}))
    else
      var f, b := Get(ft, k), Get(bt, k);
      if f.None? || b.None? then Ok(w)
      else if node.pos in file.handleMap then
        if node.kind != BlockStmt then Err(HandleNotBlock)
        else if node.parent < 0 || !HoldsList(file.nodes[node.parent].kind) then Err(DeleteNotInSlice)
        else
          var lists := if node.parent in w.lists then w.lists[node.parent := Drop(w.lists[node.parent], {k})] else w.lists;
          Ok(w.(hcs := w.hcs[f.value := Hcs(w.hcs, f.value) + [k]],
                errNames := w.errNames[k := file.handleMap[node.pos]],
                lists := lists,
                skipped := w.skipped + {k}))
      else if IsStmt(node.kind) then Ok(w.(snh := w.snh[k := |Hcs(w.hcs, f.value)|], curr := Some(k)))
      else if node.pos !in file.checkMap then Ok(w)
      else if w.curr.None? then Err(CheckOutsideStmt)
      else if !IsExpr(node.kind) || node.kind == BinaryExpr || node.kind == KeyValueExpr || node.pos in w.collected then Ok(w)
      else Ok(w.(collected := w.collected + {node.pos}, ces := w.ces[k := Loc(f.value, b.value, w.curr.value)]))
  }

  /** The walk over nodes k, k+1, ... from state w. */
  function CollectFrom(file: File, ft: map<int, Option<int>>, bt: map<int, Option<int>>, w: Walk, k: nat): Result<Walk>
    requires Tree(file.nodes) && k <= |file.nodes|
    decreases |file.nodes| - k
  {
    if k == |file.nodes| then Ok(w)
    else match CollectStep(file, ft, bt, w, k)
      case Err(m) => Err(m)
      case Ok(w') => CollectFrom(file, ft, bt, w', k + 1)
  }

  /** No node on the way from e up to the root has been skipped. */
  predicate Outside(nodes: seq<Node>, skipped: set<int>, e: int)
    requires Tree(nodes) && 0 <= e < |nodes|
    decreases e
  {
    e !in skipped && (nodes[e].parent < 0 || Outside(nodes, skipped, nodes[e].parent))
  }

  /** Every check is an expression, not binary or key-value, at a recorded
      check position, outside every handle block, in its function and block,
      and one check is kept per position. */
  ghost predicate ChecksOk(file: File, ft: map<int, Option<int>>, bt: map<int, Option<int>>, w: Walk, k: nat)
    requires Tree(file.nodes) && k <= |file.nodes|
  {
    var nodes := file.nodes;
    (forall e :: e in w.ces ==>
       0 <= e < k && IsExpr(nodes[e].kind) && nodes[e].kind != BinaryExpr && nodes[e].kind != KeyValueExpr &&
       nodes[e].pos in file.checkMap && nodes[e].pos in w.collected && Outside(nodes, w.skipped, e) &&
       Get(ft, e) == Some(w.ces[e].fun) && Get(bt, e) == Some(w.ces[e].block) && w.ces[e].stmt in w.snh) &&
    (forall e1, e2 :: e1 in w.ces && e2 in w.ces && e1 != e2 ==> nodes[e1].pos != nodes[e2].pos)
  }

  /** The handle blocks of each function, in source order, with their error names. */
  ghost predicate HandlersOk(file: File, ft: map<int, Option<int>>, w: Walk, k: nat)
    requires Tree(file.nodes) && k <= |file.nodes|
  {
    var nodes := file.nodes;
    (forall f, i :: f in w.hcs && 0 <= i < |w.hcs[f]| ==>
       var h := w.hcs[f][i];
       0 <= h < k && nodes[h].kind == BlockStmt && nodes[h].pos in file.handleMap && h in w.skipped &&
       h in w.errNames && w.errNames[h] == file.handleMap[nodes[h].pos] && Get(ft, h) == Some(f)) &&
    (forall f, i, j :: f in w.hcs && 0 <= i < j < |w.hcs[f]| ==> w.hcs[f][i] < w.hcs[f][j])
  }

  /** A statement counts only handlers registered in its own function. */
  ghost predicate CountsOk(ft: map<int, Option<int>>, w: Walk, k: nat)
  {
    (forall s :: s in w.snh ==> 0 <= s < k && Get(ft, s).Some? && w.snh[s] <= |Hcs(w.hcs, Get(ft, s).value)|) &&
    (w.curr.Some? ==> w.curr.value in w.snh)
  }

  /** The skipped nodes are exactly the visited ones inside a deleted handle block. */
  ghost predicate SkipOk(nodes: seq<Node>, w: Walk, k: nat)
    requires Tree(nodes) && k <= |nodes|
  {
    (forall x :: x in w.skipped ==> 0 <= x < k) &&
    (forall x :: 0 <= x < k && x !in w.skipped ==> Outside(nodes, w.skipped, x))
  }

  /** What the walk has established after visiting the first k nodes. */
  ghost predicate Collected(file: File, ft: map<int, Option<int>>, bt: map<int, Option<int>>, w: Walk, k: nat)
    requires Tree(file.nodes) && k <= |file.nodes|
  {
    ChecksOk(file, ft, bt, w, k) && HandlersOk(file, ft, w, k) && CountsOk(ft, w, k) && SkipOk(file.nodes, w, k)
  }

  lemma {:induction false} OutsideGrows(nodes: seq<Node>, skipped: set<int>, e: int, k: int)
    requires Tree(nodes) && 0 <= e < k && e < |nodes| && Outside(nodes, skipped, e)
    ensures Outside(nodes, skipped + {k}, e)
    decreases e
  {
    if nodes[e].parent >= 0 {
      OutsideGrows(nodes, skipped, nodes[e].parent, k);
    }
  }

  /** A node outside every skipped subtree lies below no skipped node. */
  lemma {:induction false} OutsideNotWithin(nodes: seq<Node>, skipped: set<int>, e: int, h: int)
    requires Tree(nodes) && 0 <= e < |nodes| && Outside(nodes, skipped, e) && h in skipped
    ensures !Within(nodes, e, h)
    decreases e
  {
    if nodes[e].parent >= 0 {
      OutsideNotWithin(nodes, skipped, nodes[e].parent, h);
    }
  }

  lemma SkipGrows(nodes: seq<Node>, w: Walk, k: nat)
    requires Tree(nodes) && k < |nodes| && SkipOk(nodes, w, k)
    ensures SkipOk(nodes, w.(skipped := w.skipped + {k}), k + 1)
  {
    forall x | 0 <= x < k + 1 && x !in w.skipped + {k}
      ensures Outside(nodes, w.skipped + {k}, x)
    {
      OutsideGrows(nodes, w.skipped, x, k);
    }
  }

  lemma SkipKeeps(nodes: seq<Node>, w: Walk, k: nat)
    requires Tree(nodes) && k < |nodes| && SkipOk(nodes, w, k)
    requires nodes[k].parent < 0 || nodes[k].parent !in w.skipped
    ensures SkipOk(nodes, w, k + 1) && Outside(nodes, w.skipped, k)
  {
    if nodes[k].parent >= 0 {
      assert Outside(nodes, w.skipped, nodes[k].parent);
    }
  }

  lemma ChecksGrowSkip(file: File, ft: map<int, Option<int>>, bt: map<int, Option<int>>, w: Walk, k: nat)
    requires Tree(file.nodes) && k < |file.nodes| && ChecksOk(file, ft, bt, w, k)
    ensures ChecksOk(file, ft, bt, w.(skipped := w.skipped + {k}), k + 1)
  {
    forall e | e in w.ces
      ensures Outside(file.nodes, w.skipped + {k}, e)
    {
      OutsideGrows(file.nodes, w.skipped, e, k);
    }
  }

  lemma CollectStepKeeps(file: File, ft: map<int, Option<int>>, bt: map<int, Option<int>>, w: Walk, k: nat)
    requires Tree(file.nodes) && k < |file.nodes| && Collected(file, ft, bt, w, k)
    requires CollectStep(file, ft, bt, w, k).Ok?
    ensures Collected(file, ft, bt, CollectStep(file, ft, bt, w, k).value, k + 1)
  {
    var node := file.nodes[k];
    if node.parent >= 0 && node.parent in w.skipped {
      SkipGrows(file.nodes, w, k);
      ChecksGrowSkip(file, ft, bt, w, k);
    } else if Get(ft, k).Some? && Get(bt, k).Some? && node.pos in file.handleMap {
      CollectStepHandle(file, ft, bt, w, k);
    } else {
      CollectStepVisit(file, ft, bt, w, k);
    }
  }

  lemma CollectStepHandle(file: File, ft: map<int, Option<int>>, bt: map<int, Option<int>>, w: Walk, k: nat)
    requires Tree(file.nodes) && k < |file.nodes| && Collected(file, ft, bt, w, k)
    requires CollectStep(file, ft, bt, w, k).Ok?
    requires file.nodes[k].parent < 0 || file.nodes[k].parent !in w.skipped
    requires Get(ft, k).Some? && Get(bt, k).Some? && file.nodes[k].pos in file.handleMap
    ensures Collected(file, ft, bt, CollectStep(file, ft, bt, w, k).value, k + 1)
  {
    var f := Get(ft, k).value;
    var w' := CollectStep(file, ft, bt, w, k).value;
    SkipGrows(file.nodes, w, k);
    ChecksGrowSkip(file, ft, bt, w, k);
    HandlerAdded(file, ft, w, k, f);
    assert w' == w.(hcs := w.hcs[f := Hcs(w.hcs, f) + [k]],
                    errNames := w.errNames[k := file.handleMap[file.nodes[k].pos]],
                    skipped := w.skipped + {k},
                    lists := w'.lists);
  }

  lemma CollectStepVisit(file: File, ft: map<int, Option<int>>, bt: map<int, Option<int>>, w: Walk, k: nat)
    requires Tree(file.nodes) && k < |file.nodes| && Collected(file, ft, bt, w, k)
    requires CollectStep(file, ft, bt, w, k).Ok?
    requires file.nodes[k].parent < 0 || file.nodes[k].parent !in w.skipped
    requires !(Get(ft, k).Some? && Get(bt, k).Some? && file.nodes[k].pos in file.handleMap)
    ensures Collected(file, ft, bt, CollectStep(file, ft, bt, w, k).value, k + 1)
  {
    SkipKeeps(file.nodes, w, k);
    var node := file.nodes[k];
    var f, b := Get(ft, k), Get(bt, k);
    if f.None? || b.None? {
      CollectedSame(file, ft, bt, w, k);
    } else if IsStmt(node.kind) {
      VisitStmt(file, ft, bt, w, k, f.value);
    } else if node.pos !in file.checkMap || !IsExpr(node.kind) || node.kind == BinaryExpr || node.kind == KeyValueExpr || node.pos in w.collected {
      CollectedSame(file, ft, bt, w, k);
    } else {
      VisitCheck(file, ft, bt, w, k, f.value, b.value);
    }
  }

  lemma CollectedSame(file: File, ft: map<int, Option<int>>, bt: map<int, Option<int>>, w: Walk, k: nat)
    requires Tree(file.nodes) && k < |file.nodes| && Collected(file, ft, bt, w, k) && SkipOk(file.nodes, w, k + 1)
    ensures Collected(file, ft, bt, w, k + 1)
  {
  }

  lemma VisitStmt(file: File, ft: map<int, Option<int>>, bt: map<int, Option<int>>, w: Walk, k: nat, f: int)
    requires Tree(file.nodes) && k < |file.nodes| && Collected(file, ft, bt, w, k) && SkipOk(file.nodes, w, k + 1)
    requires Get(ft, k) == Some(f)
    ensures Collected(file, ft, bt, w.(snh := w.snh[k := |Hcs(w.hcs, f)|], curr := Some(k)), k + 1)
  {
  }

  lemma VisitCheck(file: File, ft: map<int, Option<int>>, bt: map<int, Option<int>>, w: Walk, k: nat, f: int, b: int)
    requires Tree(file.nodes) && k < |file.nodes| && Collected(file, ft, bt, w, k) && SkipOk(file.nodes, w, k + 1)
    requires Outside(file.nodes, w.skipped, k) && Get(ft, k) == Some(f) && Get(bt, k) == Some(b) && w.curr.Some?
    requires IsExpr(file.nodes[k].kind) && file.nodes[k].kind != BinaryExpr && file.nodes[k].kind != KeyValueExpr
    requires file.nodes[k].pos in file.checkMap && file.nodes[k].pos !in w.collected
    ensures Collected(file, ft, bt, w.(collected := w.collected + {file.nodes[k].pos},
                                       ces := w.ces[k := Loc(f, b, w.curr.value)]), k + 1)
  {
  }

  lemma HandlerAdded(file: File, ft: map<int, Option<int>>, w: Walk, k: nat, f: int)
    requires Tree(file.nodes) && k < |file.nodes| && HandlersOk(file, ft, w, k) && CountsOk(ft, w, k)
    requires file.nodes[k].kind == BlockStmt && file.nodes[k].pos in file.handleMap && Get(ft, k) == Some(f)
    ensures var w' := w.(hcs := w.hcs[f := Hcs(w.hcs, f) + [k]],
                         errNames := w.errNames[k := file.handleMap[file.nodes[k].pos]],
                         skipped := w.skipped + {k});
            HandlersOk(file, ft, w', k + 1) && CountsOk(ft, w', k + 1)
  {
  }

  lemma {:induction false} CollectFromKeeps(file: File, ft: map<int, Option<int>>, bt: map<int, Option<int>>, w: Walk, k: nat)
    requires Tree(file.nodes) && k <= |file.nodes| && Collected(file, ft, bt, w, k)
    requires CollectFrom(file, ft, bt, w, k).Ok?
    ensures Collected(file, ft, bt, CollectFrom(file, ft, bt, w, k).value, |file.nodes|)
    decreases |file.nodes| - k
  {
    if k < |file.nodes| {
      CollectStepKeeps(file, ft, bt, w, k);
      CollectFromKeeps(file, ft, bt, CollectStep(file, ft, bt, w, k).value, k + 1);
    }
  }

  /** A walk from empty maps registers only handle blocks, in source order,
      counts for each statement only handlers of its own function registered
      before it, and collects one check per position, each an expression
      outside every handle block. */
  lemma CollectSound(file: File, ft: map<int, Option<int>>, bt: map<int, Option<int>>, lists: map<int, seq<Piece>>)
    requires Tree(file.nodes)
    requires CollectFrom(file, ft, bt, Walk(map[], map[], map[], map[], lists, {}, None, {}), 0).Ok?
    ensures var w := CollectFrom(file, ft, bt, Walk(map[], map[], map[], map[], lists, {}, None, {}), 0).value;
            Collected(file, ft, bt, w, |file.nodes|) &&
            forall e, f, i :: e in w.ces && f in w.hcs && 0 <= i < |w.hcs[f]| ==> !Within(file.nodes, e, w.hcs[f][i])
  {
    var w0 := Walk(map[], map[], map[], map[], lists, {}, None, {});
    CollectFromKeeps(file, ft, bt, w0, 0);
    var w := CollectFrom(file, ft, bt, w0, 0).value;
    forall e, f, i | e in w.ces && f in w.hcs && 0 <= i < |w.hcs[f]|
      ensures !Within(file.nodes, e, w.hcs[f][i])
    {
      OutsideNotWithin(file.nodes, w.skipped, e, w.hcs[f][i]);
    }
  }

  // ---------------------------------------------------------------------------
  // consumeTypedChecks: a postorder walk expanding every check the type checker
  // has typed into an assignment of its values and an `if` on its error.

  const IndexOutOfRange := "index out of range"

  /** The state of the walk: the checks still to expand, the blocks' name
      counters, the block lists, the expression statements to delete, the edits
      of each expanded check's place, and the statements holding an untyped check. */
  datatype Pass = Pass(
    ces: map<int, Loc>,
    scopes: map<int, map<string, nat>>,
    lists: map<int, seq<Piece>>,
    del: set<int>,
    edits: map<int, Action>,
    interrupted: set<int>)

  /** What the parent of node k is, as the expansion distinguishes parents. */
  function ParentKindOf(nodes: seq<Node>, k: int): ParentKind
    requires Tree(nodes) && 0 <= k < |nodes|
  {
    if nodes[k].parent < 0 then StmtParent
    else
      var pk := nodes[nodes[k].parent].kind;
      if pk == CallExpr then CallParent
      else if pk == AssignStmt then AssignParent
      else if pk == ExprStmtNode then ExprStmtParent
      else if IsExpr(pk) then ExprParent
      else StmtParent
  }

  /** A Go counter map read at a missing key: zero. */
  function Snh(snh: map<int, nat>, s: int): nat
  {
    if s in snh then snh[s] else 0
  }

  function ResultsOf(file: File, f: int): seq<Field>
  {
    if f in file.results then file.results[f] else []
  }

  /** The handle blocks as handlers: their statements and error identifiers. */
  function HandlersOf(file: File, errNames: map<int, string>, hs: seq<int>): (r: seq<Handler>)
    ensures |r| == |hs|
  {
    seq(|hs|, i requires 0 <= i < |hs| =>
      Handler(if hs[i] in file.bodies then file.bodies[hs[i]] else [],
              if hs[i] in errNames then errNames[hs[i]] else ""))
  }

  /** The names of a check's values in its block, and the counters after; a
      block without counters keeps the bare type names. */
  function NamedIn(prefix: string, types: seq<string>, scopes: map<int, map<string, nat>>, block: int)
    : (r: (seq<string>, map<int, map<string, nat>>))
    ensures |r.0| == |types|
  {
    if block in scopes then (FreshNames(prefix, types, scopes[block]), scopes[block := Bumped(scopes[block], types)])
    else (types, scopes)
  }

  /** The generated statements for check k: the assignment declaring its
      values and the `if` on the error running the handler body, which ends in
      the default handler as written (one value per result field). */
  function Generated(file: File, hcs: map<int, seq<int>>, errNames: map<int, string>, snh: map<int, nat>,
                     k: int, loc: Loc, lhs: seq<string>, errName: string): Result<seq<Piece>>
  {
    var handlers := Hcs(hcs, loc.fun);
    var n := Snh(snh, loc.stmt);
    if n > |handlers| then Err(IndexOutOfRange)
    else match DefaultHandleStmt(ResultsOf(file, loc.fun))
      case Err(m) => Err(m)
      case Ok(d) => Ok([GenAssign(lhs, k), GenIf(errName, HandleBody(HandlersOf(file, errNames, handlers), n, errName, d))])
  }

  /** Expanding check k at loc whose values have the given type names, once it
      has left the set of checks to expand. */
  function Expanded(file: File, hcs: map<int, seq<int>>, errNames: map<int, string>, snh: map<int, nat>,
                    prefix: string, p: Pass, k: int, loc: Loc, types: seq<string>): Result<Pass>
    requires Tree(file.nodes) && 0 <= k < |file.nodes| && |types| > 0
  {
    var (names, scopes) := NamedIn(prefix, types, p.scopes, loc.block);
    var errName := names[|names| - 1];
    match ParentRule(ParentKindOf(file.nodes, k), names)
    case Err(m) => Err(m)
    case Ok((action, lhs)) =>
      match Generated(file, hcs, errNames, snh, k, loc, lhs, errName)
      case Err(m) => Err(m)
      case Ok(gen) => Ok(Applied(file, p, k, loc, action, gen, scopes))
  }

  /** The pass after check k's place is edited and its statements inserted. */
  function Applied(file: File, p: Pass, k: int, loc: Loc, action: Action, gen: seq<Piece>,
                   scopes: map<int, map<string, nat>>): Pass
    requires Tree(file.nodes) && 0 <= k < |file.nodes|
  {
    Pass(p.ces, scopes,
         if loc.block in p.lists then p.lists[loc.block := Inserted(p.lists[loc.block], Orig(loc.stmt), gen)] else p.lists,
         if action == DeleteStmt then p.del + {file.nodes[k].parent} else p.del,
         if action.SetArgs? || action.ReplaceBy? then p.edits[k := action] else p.edits,
         p.interrupted)
  }

  function ConsumeStep(file: File, hcs: map<int, seq<int>>, errNames: map<int, string>, snh: map<int, nat>,
                       prefix: string, info: map<int, TypeShape>, p: Pass, k: int): Result<Pass>
    requires Tree(file.nodes)
  {
    if !(0 <= k < |file.nodes|) || k !in p.ces then Ok(p)
    else
      var loc := p.ces[k];
      if loc.stmt in p.interrupted then Ok(p)
      else if k !in info then Ok(p.(interrupted := p.interrupted + {loc.stmt}))
      else match ResultNames(info[k])
        case Err(m) => Err(m)
        case Ok(types) => Expanded(file, hcs, errNames, snh, prefix, p.(ces := p.ces - {k}), k, loc, types)
  }

  /** The walk over post[i..], the nodes in the order the postorder walk finishes them. */
  function ConsumeFrom(file: File, hcs: map<int, seq<int>>, errNames: map<int, string>, snh: map<int, nat>,
                       prefix: string, info: map<int, TypeShape>, p: Pass, post: seq<int>, i: nat): Result<Pass>
    requires Tree(file.nodes) && i <= |post|
    decreases |post| - i
  {
    if i == |post| then Ok(p)
    else match ConsumeStep(file, hcs, errNames, snh, prefix, info, p, post[i])
      case Err(m) => Err(m)
      case Ok(p') => ConsumeFrom(file, hcs, errNames, snh, prefix, info, p', post, i + 1)
  }

  // ---------------------------------------------------------------------------
  // What a pass keeps.

  /** The original statements of a list, in order. */
  function Origs(list: seq<Piece>): seq<int>
  {
    if |list| == 0 then [] else (if list[0].Orig? then [list[0].id] else []) + Origs(list[1..])
  }

  lemma {:induction false} OrigsConcat(a: seq<Piece>, b: seq<Piece>)
    ensures Origs(a + b) == Origs(a) + Origs(b)
  {
    if |a| > 0 {
      assert (a + b)[1..] == a[1..] + b;
      OrigsConcat(a[1..], b);
    } else {
      assert a + b == b;
    }
  }

  lemma {:induction false} OrigsInserted(list: seq<Piece>, target: Piece, gen: seq<Piece>)
    requires Origs(gen) == []
    ensures Origs(Inserted(list, target, gen)) == Origs(list)
  {
    if |list| > 0 {
      if list[0] == target {
        OrigsConcat(gen, list);
      } else {
        OrigsInserted(list[1..], target, gen);
        OrigsConcat([list[0]], Inserted(list[1..], target, gen));
      }
    }
  }

  lemma {:induction false} InsertedElems<T>(list: seq<T>, target: T, gen: seq<T>, x: T)
    requires x in Inserted(list, target, gen)
    ensures x in list || x in gen
  {
    if |list| > 0 && list[0] != target && x != list[0] {
      InsertedElems(list[1..], target, gen, x);
    }
  }

  /** The same blocks, each with the same original statements in the same order. */
  ghost predicate SameOrigs(a: map<int, seq<Piece>>, b: map<int, seq<Piece>>)
  {
    a.Keys == b.Keys && forall k :: k in a ==> Origs(a[k]) == Origs(b[k])
  }

  /** Every generated `if` leaves the function: its body ends in a return or a panic. */
  ghost predicate HandlersExit(lists: map<int, seq<Piece>>)
  {
    forall b, x :: b in lists && x in lists[b] && x.GenIf? ==> |x.body| > 0 && Terminating(x.body[|x.body| - 1])
  }

  lemma GeneratedExits(file: File, hcs: map<int, seq<int>>, errNames: map<int, string>, snh: map<int, nat>,
                       k: int, loc: Loc, lhs: seq<string>, errName: string)
    requires errName != "panic"
    requires Generated(file, hcs, errNames, snh, k, loc, lhs, errName).Ok?
    ensures var gen := Generated(file, hcs, errNames, snh, k, loc, lhs, errName).value;
            gen == [GenAssign(lhs, k), gen[1]] && gen[1].GenIf? && gen[1].errName == errName &&
            |gen[1].body| > 0 && Terminating(gen[1].body[|gen[1].body| - 1])
  {
    var handlers := Hcs(hcs, loc.fun);
    var d := DefaultHandleStmt(ResultsOf(file, loc.fun)).value;
    HandleBodyTerminates(HandlersOf(file, errNames, handlers), Snh(snh, loc.stmt), errName, d);
  }

  /** In a function `(a, b int, err error)` with no handler before the
      statement, the generated `if` returns two values, one per result field,
      as the default handler is written. */
  lemma GeneratedShortReturn(file: File, hcs: map<int, seq<int>>, errNames: map<int, string>, snh: map<int, nat>,
                             k: int, loc: Loc, lhs: seq<string>, errName: string)
    requires ResultsOf(file, loc.fun) == [Field(2, Ident("int"), OtherBasic), Field(1, Ident("error"), OtherUnder)]
    requires Snh(snh, loc.stmt) == 0
    ensures Generated(file, hcs, errNames, snh, k, loc, lhs, errName) ==
            Ok([GenAssign(lhs, k), GenIf(errName, [RenameStmt(Return([Ident("0"), Ident("err")]), "err", errName)])])
  {
    DefaultHandleStmtShortReturn();
    var d := Return([Ident("0"), Ident("err")]);
    HandleBodyDefaultOnly(HandlersOf(file, errNames, Hcs(hcs, loc.fun)), errName, d);
  }

  /** The error value's name is never `panic`: it is "error" or a fresh name
      built on it. */
  lemma ErrNameNotPanic(prefix: string, types: seq<string>, scopes: map<int, map<string, nat>>, block: int)
    requires |types| > 0 && types[|types| - 1] == "error"
    ensures var names := NamedIn(prefix, types, scopes, block).0;
            names[|names| - 1] != "panic"
  {
    var names := NamedIn(prefix, types, scopes, block).0;
    var last := |types| - 1;
    if block in scopes {
      var c := CounterAt(scopes[block], types, last);
      assert names[last] == prefix + "error" + Itoa(c);
      assert |names[last]| > 5;
    }
  }

  lemma ExpandedKeeps(file: File, hcs: map<int, seq<int>>, errNames: map<int, string>, snh: map<int, nat>,
                      prefix: string, p: Pass, k: int, loc: Loc, types: seq<string>)
    requires Tree(file.nodes) && 0 <= k < |file.nodes| && |types| > 0 && types[|types| - 1] == "error"
    requires Expanded(file, hcs, errNames, snh, prefix, p, k, loc, types).Ok?
    ensures var p' := Expanded(file, hcs, errNames, snh, prefix, p, k, loc, types).value;
            p'.ces == p.ces && p'.interrupted == p.interrupted && SameOrigs(p.lists, p'.lists) &&
            (HandlersExit(p.lists) ==> HandlersExit(p'.lists))
  {
    var p' := Expanded(file, hcs, errNames, snh, prefix, p, k, loc, types).value;
    var names := NamedIn(prefix, types, p.scopes, loc.block).0;
    var errName := names[|names| - 1];
    ErrNameNotPanic(prefix, types, p.scopes, loc.block);
    var (action, lhs) := ParentRule(ParentKindOf(file.nodes, k), names).value;
    GeneratedExits(file, hcs, errNames, snh, k, loc, lhs, errName);
    var gen := Generated(file, hcs, errNames, snh, k, loc, lhs, errName).value;
    assert Origs(gen) == [] by {
      assert gen[1..] == [gen[1]] && [gen[1]][1..] == [];
      assert Origs([gen[1]]) == [] + Origs([]);
    }
    assert forall x :: x in gen && x.GenIf? ==> x == gen[1];
    if loc.block in p.lists {
      InsertKeeps(p.lists, loc.block, Orig(loc.stmt), gen);
      assert p'.lists == p.lists[loc.block := Inserted(p.lists[loc.block], Orig(loc.stmt), gen)];
    }
  }

  /** Inserting generated statements with no original among them, each `if`
      leaving the function, keeps the originals and the exits of every list. */
  lemma InsertKeeps(lists: map<int, seq<Piece>>, b: int, target: Piece, gen: seq<Piece>)
    requires b in lists && Origs(gen) == []
    requires forall x :: x in gen && x.GenIf? ==> |x.body| > 0 && Terminating(x.body[|x.body| - 1])
    ensures var lists' := lists[b := Inserted(lists[b], target, gen)];
            SameOrigs(lists, lists') && (HandlersExit(lists) ==> HandlersExit(lists'))
  {
    var lists' := lists[b := Inserted(lists[b], target, gen)];
    OrigsInserted(lists[b], target, gen);
    if HandlersExit(lists) {
      forall c: int, x: Piece | c in lists' && x in lists'[c] && x.GenIf?
        ensures |x.body| > 0 && Terminating(x.body[|x.body| - 1])
      {
        if c == b {
          InsertedElems(lists[b], target, gen, x);
        }
      }
    }
  }

  /** One step of the walk only expands checks: a check leaves the set only
      when the type checker typed it, and the block lists only gain generated
      statements, each `if` ending in a return or a panic. */
  lemma ConsumeStepKeeps(file: File, hcs: map<int, seq<int>>, errNames: map<int, string>, snh: map<int, nat>,
                         prefix: string, info: map<int, TypeShape>, p: Pass, k: int)
    requires Tree(file.nodes)
    requires ConsumeStep(file, hcs, errNames, snh, prefix, info, p, k).Ok?
    ensures var p' := ConsumeStep(file, hcs, errNames, snh, prefix, info, p, k).value;
            p'.ces.Keys <= p.ces.Keys && (forall e :: e in p.ces && e !in p'.ces ==> e in info) &&
            SameOrigs(p.lists, p'.lists) && (HandlersExit(p.lists) ==> HandlersExit(p'.lists))
  {
    var r := ConsumeStep(file, hcs, errNames, snh, prefix, info, p, k);
    if 0 <= k < |file.nodes| && k in p.ces && p.ces[k].stmt !in p.interrupted && k in info {
      var types := ResultNames(info[k]).value;
      var q := p.(ces := p.ces - {k});
      assert r == Expanded(file, hcs, errNames, snh, prefix, q, k, p.ces[k], types);
      ExpandedKeeps(file, hcs, errNames, snh, prefix, q, k, p.ces[k], types);
      RemovedTyped(p.ces, r.value.ces, k, info);
    } else {
      assert r.value.ces == p.ces && r.value.lists == p.lists;
    }
  }

  /** Dropping the typed check k from the set. */
  lemma RemovedTyped(ces: map<int, Loc>, ces': map<int, Loc>, k: int, info: map<int, TypeShape>)
    requires ces' == ces - {k} && k in info
    ensures ces'.Keys <= ces.Keys && forall e :: e in ces && e !in ces' ==> e in info
  {
  }

  lemma {:induction false} ConsumeFromKeeps(file: File, hcs: map<int, seq<int>>, errNames: map<int, string>, snh: map<int, nat>,
                                            prefix: string, info: map<int, TypeShape>, p: Pass, post: seq<int>, i: nat)
    requires Tree(file.nodes) && i <= |post|
    requires ConsumeFrom(file, hcs, errNames, snh, prefix, info, p, post, i).Ok?
    ensures var p' := ConsumeFrom(file, hcs, errNames, snh, prefix, info, p, post, i).value;
            p'.ces.Keys <= p.ces.Keys && (forall e :: e in p.ces && e !in p'.ces ==> e in info) &&
            SameOrigs(p.lists, p'.lists) && (HandlersExit(p.lists) ==> HandlersExit(p'.lists))
    decreases |post| - i
  {
    if i < |post| {
      ConsumeStepKeeps(file, hcs, errNames, snh, prefix, info, p, post[i]);
      var q := ConsumeStep(file, hcs, errNames, snh, prefix, info, p, post[i]).value;
      ConsumeFromKeeps(file, hcs, errNames, snh, prefix, info, q, post, i + 1);
    }
  }

  lemma {:induction false} SubsetSize<T>(a: set<T>, b: set<T>)
    requires a <= b
    ensures |a| <= |b|
    decreases |b|
  {
    if a != {} {
      var x :| x in a;
      SubsetSize(a - {x}, b - {x});
    }
  }

  // ---------------------------------------------------------------------------
  // deleteExprStmts: a walk deleting every expression statement whose checked
  // expression was expanded.

  function DeleteStep(nodes: seq<Node>, lists: map<int, seq<Piece>>, del: set<int>, x: int)
    : Result<(map<int, seq<Piece>>, set<int>)>
    requires Tree(nodes) && 0 <= x < |nodes|
  {
    if nodes[x].kind != ExprStmtNode || x !in del then Ok((lists, del))
    else
      var b := nodes[x].parent;
      if b < 0 || !HoldsList(nodes[b].kind) then Err(DeleteNotInSlice)
      else Ok((if b in lists then lists[b := Drop(lists[b], {x})] else lists, del - {x}))
  }

  function DeleteFrom(nodes: seq<Node>, lists: map<int, seq<Piece>>, del: set<int>, k: nat)
    : Result<(map<int, seq<Piece>>, set<int>)>
    requires Tree(nodes) && k <= |nodes|
    decreases |nodes| - k
  {
    if k == |nodes| then Ok((lists, del))
    else match DeleteStep(nodes, lists, del, k)
      case Err(m) => Err(m)
      case Ok((lists', del')) => DeleteFrom(nodes, lists', del', k + 1)
  }

  /** Every original statement sits in its parent block's list. */
  ghost predicate WellPlaced(nodes: seq<Node>, lists: map<int, seq<Piece>>)
  {
    forall b, x :: b in lists && x in lists[b] && x.Orig? ==> 0 <= x.id < |nodes| && nodes[x.id].parent == b
  }

  /** The marked expression statements among nodes k, k+1, ... */
  function MarkedFrom(nodes: seq<Node>, del: set<int>, k: nat): set<int>
    requires k <= |nodes|
  {
    set x | x in del && k <= x < |nodes| && nodes[x].kind == ExprStmtNode
  }

  /** The statement node k deletes, if any. */
  function MarkedAt(nodes: seq<Node>, del: set<int>, k: nat): set<int>
    requires k < |nodes|
  {
    if k in del && nodes[k].kind == ExprStmtNode then {k} else {}
  }

  lemma DeleteStepDrops(nodes: seq<Node>, lists: map<int, seq<Piece>>, del: set<int>, k: nat)
    requires Tree(nodes) && k < |nodes| && WellPlaced(nodes, lists)
    requires DeleteStep(nodes, lists, del, k).Ok?
    ensures var (l1, d1) := DeleteStep(nodes, lists, del, k).value;
            d1 == del - MarkedAt(nodes, del, k) && l1.Keys == lists.Keys && WellPlaced(nodes, l1) &&
            forall b :: b in lists ==> l1[b] == Drop(lists[b], MarkedAt(nodes, del, k))
  {
    var (l1, d1) := DeleteStep(nodes, lists, del, k).value;
    var m := MarkedAt(nodes, del, k);
    forall b | b in lists
      ensures l1[b] == Drop(lists[b], m)
    {
      if m == {k} && b != nodes[k].parent {
        assert forall x :: x in lists[b] && x.Orig? ==> x.id != k;
      }
    }
  }

  lemma {:induction false} DeleteFromDrops(nodes: seq<Node>, lists: map<int, seq<Piece>>, del: set<int>, k: nat)
    requires Tree(nodes) && k <= |nodes| && WellPlaced(nodes, lists)
    requires DeleteFrom(nodes, lists, del, k).Ok?
    ensures var (lists', del') := DeleteFrom(nodes, lists, del, k).value;
            del' == del - MarkedFrom(nodes, del, k) && lists'.Keys == lists.Keys && WellPlaced(nodes, lists') &&
            forall b :: b in lists ==> lists'[b] == Drop(lists[b], MarkedFrom(nodes, del, k))
    decreases |nodes| - k
  {
    if k == |nodes| {
      assert MarkedFrom(nodes, del, k) == {};
      forall b | b in lists
        ensures lists[b] == Drop(lists[b], {})
      {
      }
    } else {
      var (l1, d1) := DeleteStep(nodes, lists, del, k).value;
      var m := MarkedFrom(nodes, del, k);
      var mk := MarkedAt(nodes, del, k);
      var m1 := MarkedFrom(nodes, d1, k + 1);
      DeleteStepDrops(nodes, lists, del, k);
      assert m1 == m - mk;
      assert mk + m1 == m;
      DeleteFromDrops(nodes, l1, d1, k + 1);
      forall b | b in lists
        ensures Drop(Drop(lists[b], mk), m1) == Drop(lists[b], m)
      {
        DropTwice(lists[b], mk, m1);
      }
    }
  }

  lemma {:induction false} DropTwice(list: seq<Piece>, a: set<int>, b: set<int>)
    ensures Drop(Drop(list, a), b) == Drop(list, a + b)
  {
    if |list| > 0 {
      DropTwice(list[1..], a, b);
      var h := if list[0].Orig? && list[0].id in a then [] else [list[0]];
      assert Drop(list, a) == h + Drop(list[1..], a);
      DropConcat(h, Drop(list[1..], a), b);
      if h != [] {
        assert h[1..] == [];
        assert Drop(h, b) == (if list[0].Orig? && list[0].id in b then [] else [list[0]]) + Drop([], b);
      }
    }
  }

  lemma {:induction false} DropConcat(x: seq<Piece>, y: seq<Piece>, d: set<int>)
    ensures Drop(x + y, d) == Drop(x, d) + Drop(y, d)
  {
    if |x| > 0 {
      assert (x + y)[1..] == x[1..] + y;
      DropConcat(x[1..], y, d);
    } else {
      assert x + y == y;
    }
  }

  /** Every piece of b's lists was already in the same list of a. */
  ghost predicate FromLists(a: map<int, seq<Piece>>, b: map<int, seq<Piece>>)
  {
    forall k, x :: k in b && x in b[k] ==> k in a && x in a[k]
  }

  lemma FromListsExit(a: map<int, seq<Piece>>, b: map<int, seq<Piece>>)
    requires FromLists(a, b) && HandlersExit(a)
    ensures HandlersExit(b)
  {
  }

  lemma {:induction false} CollectFromLists(file: File, ft: map<int, Option<int>>, bt: map<int, Option<int>>, w: Walk, k: nat)
    requires Tree(file.nodes) && k <= |file.nodes|
    requires CollectFrom(file, ft, bt, w, k).Ok?
    ensures FromLists(w.lists, CollectFrom(file, ft, bt, w, k).value.lists)
    decreases |file.nodes| - k
  {
    if k < |file.nodes| {
      var w' := CollectStep(file, ft, bt, w, k).value;
      CollectFromLists(file, ft, bt, w', k + 1);
      assert FromLists(w.lists, w'.lists);
    }
  }

  lemma {:induction false} DeleteFromLists(nodes: seq<Node>, lists: map<int, seq<Piece>>, del: set<int>, k: nat)
    requires Tree(nodes) && k <= |nodes|
    requires DeleteFrom(nodes, lists, del, k).Ok?
    ensures FromLists(lists, DeleteFrom(nodes, lists, del, k).value.0)
    decreases |nodes| - k
  {
    if k < |nodes| {
      var (l, d) := DeleteStep(nodes, lists, del, k).value;
      DeleteFromLists(nodes, l, d, k + 1);
      assert FromLists(lists, l);
    }
  }

  lemma {:induction false} ChildrenOrig(nodes: seq<Node>, b: int, n: nat, x: Piece)
    requires n <= |nodes| && x in Children(nodes, b, n)
    ensures x.Orig? && 0 <= x.id < n && nodes[x.id].parent == b
  {
    if x !in Children(nodes, b, n - 1) {
    } else {
      ChildrenOrig(nodes, b, n - 1, x);
    }
  }

  /** A check's statement whose parent is not the check's block (one in the
      body of a case or comm clause below it) is not in the block's list, so
      the insertion finds nothing and the generated statements are dropped. */
  lemma ClauseStmtNotInserted(nodes: seq<Node>, lists: map<int, seq<Piece>>, b: int, s: int, gen: seq<Piece>)
    requires WellPlaced(nodes, lists) && b in lists && 0 <= s < |nodes| && nodes[s].parent != b
    ensures Inserted(lists[b], Orig(s), gen) == lists[b]
  {
    assert Orig(s) !in lists[b];
    InsertedAbsent(lists[b], Orig(s), gen);
  }

  /** The parsed lists hold only original statements, each in its parent's list. */
  lemma StmtListsPlain(nodes: seq<Node>)
    ensures WellPlaced(nodes, StmtLists(nodes)) && HandlersExit(StmtLists(nodes))
  {
    forall b, x | b in StmtLists(nodes) && x in StmtLists(nodes)[b]
      ensures x.Orig? && !x.GenIf? && 0 <= x.id < |nodes| && nodes[x.id].parent == b
    {
      ChildrenOrig(nodes, b, |nodes|, x);
    }
  }

  /** Class Context: the ast.go `context`, a go2 file together with the maps
      the passes share, and the file's block lists as the passes edit them. */
  class Context {
    const file: File
    var ft: map<int, Option<int>>
    var bt: map<int, Option<int>>
    var scopes: map<int, map<string, nat>>
    var hcs: map<int, seq<int>>
    var handleErrNames: map<int, string>
    var snh: map<int, nat>
    var ces: map<int, Loc>
    var delExprStmts: set<int>
    var lists: map<int, seq<Piece>>
    var edits: map<int, Action>

    constructor (file: File)
      ensures this.file == file
      ensures ft == map[] && bt == map[] && scopes == map[] && hcs == map[] && handleErrNames == map[]
      ensures snh == map[] && ces == map[] && delExprStmts == {}
      ensures lists == StmtLists(file.nodes) && edits == map[]
    {
      this.file := file;
      ft, bt, scopes, hcs, handleErrNames := map[], map[], map[], map[], map[];
      snh, ces, delExprStmts := map[], map[], {};
      lists, edits := StmtLists(file.nodes), map[];
    }

    method BuildTrees()
      requires Tree(file.nodes)
      modifies this
      ensures ft == old(ft) + FuncOwners(file.nodes, |file.nodes|)
      ensures bt == old(bt) + BlockOwners(file.nodes, |file.nodes|)
      ensures scopes == old(scopes) + FreshScopes(file.nodes, |file.nodes|)
      ensures hcs == old(hcs) && handleErrNames == old(handleErrNames) && snh == old(snh)
      ensures ces == old(ces) && delExprStmts == old(delExprStmts) && lists == old(lists) && edits == old(edits)
    {
      var nodes := file.nodes;
      var fs, bs, ss := ft, bt, scopes;
      for i := 0 to |nodes|
        invariant fs == old(ft) + FuncOwners(nodes, i)
        invariant bs == old(bt) + BlockOwners(nodes, i)
        invariant ss == old(scopes) + FreshScopes(nodes, i)
        invariant unchanged(this)
      {
        var node := nodes[i];
        var pf, pb := None, None;
        if node.parent >= 0 {
          pf, pb := Get(fs, node.parent), Get(bs, node.parent);
          OwnersAt(nodes, i, node.parent);
        }
        var f := if IsFunc(node.kind) then Some(i) else pf;
        var b := if node.kind == BlockStmt then Some(i) else pb;
        assert f == NearestFunc(nodes, i) && b == NearestBlock(nodes, i);
        UnionUpdate(old(ft), FuncOwners(nodes, i), i, f);
        UnionUpdate(old(bt), BlockOwners(nodes, i), i, b);
        fs, bs := fs[i := f], bs[i := b];
        if node.kind == BlockStmt {
          UnionUpdate(old(scopes), FreshScopes(nodes, i), i, map[]);
          ss := ss[i := map[]];
        }
      }
      ft, bt, scopes := fs, bs, ss;
    }

    function Snapshot(collected: set<int>, curr: Option<int>, skipped: set<int>): Walk
      reads this
    {
      Walk(hcs, handleErrNames, snh, ces, lists, collected, curr, skipped)
    }

    method CollectHandlersAndChecks() returns (err: Option<string>)
      requires Tree(file.nodes)
      modifies this
      ensures var r := CollectFrom(file, ft, bt, old(Snapshot({}, None, {})), 0);
              match r
              case Err(m) => err == Some(m)
              case Ok(w) => err == None && hcs == w.hcs && handleErrNames == w.errNames && snh == w.snh &&
                            ces == w.ces && lists == w.lists
      ensures ft == old(ft) && bt == old(bt) && scopes == old(scopes)
      ensures delExprStmts == old(delExprStmts) && edits == old(edits)
    {
      var collected: set<int>, curr: Option<int>, skipped: set<int> := {}, None, {};
      for k := 0 to |file.nodes|
        invariant CollectFrom(file, ft, bt, old(Snapshot({}, None, {})), 0) ==
                  CollectFrom(file, ft, bt, Snapshot(collected, curr, skipped), k)
        invariant ft == old(ft) && bt == old(bt) && scopes == old(scopes)
        invariant delExprStmts == old(delExprStmts) && edits == old(edits)
      {
        var e;
        e, collected, curr, skipped := CollectOne(k, collected, curr, skipped);
        if e.Some? {
          return e;
        }
      }
      return None;
    }

    /** The walk's callback on node k: a node inside a deleted handle block is
        skipped; a handle block is registered and deleted; a statement records
        the handler count and becomes the current statement; a check
        expression is collected once per position. */
    method CollectOne(k: nat, collected: set<int>, curr: Option<int>, skipped: set<int>)
      returns (err: Option<string>, collected': set<int>, curr': Option<int>, skipped': set<int>)
      requires Tree(file.nodes) && k < |file.nodes|
      modifies this
      ensures match CollectStep(file, ft, bt, old(Snapshot(collected, curr, skipped)), k)
              case Err(m) => err == Some(m)
              case Ok(w) => err == None && Snapshot(collected', curr', skipped') == w
      ensures ft == old(ft) && bt == old(bt) && scopes == old(scopes)
      ensures delExprStmts == old(delExprStmts) && edits == old(edits)
    {
      var nodes := file.nodes;
      err, collected', curr', skipped' := None, collected, curr, skipped;
      var node := nodes[k];
      if node.parent >= 0 && node.parent in skipped {
        skipped' := skipped + {k};
        return;
      }
      var f, b := Get(ft, k), Get(bt, k);
      if f.None? || b.None? {
        return;
      }
      if node.pos in file.handleMap {
        if node.kind != BlockStmt {
          return Some(HandleNotBlock), collected, curr, skipped;
        }
        if node.parent < 0 || !HoldsList(nodes[node.parent].kind) {
          return Some(DeleteNotInSlice), collected, curr, skipped;
        }
        DeleteHandle(k, f.value);
        skipped' := skipped + {k};
        return;
      }
      if IsStmt(node.kind) {
        snh := snh[k := |Hcs(hcs, f.value)|];
        curr' := Some(k);
        return;
      }
      if node.pos in file.checkMap {
        if curr.None? {
          return Some(CheckOutsideStmt), collected, curr, skipped;
        }
        if !IsExpr(node.kind) || node.kind == BinaryExpr || node.kind == KeyValueExpr || node.pos in collected {
          return;
        }
        collected' := collected + {node.pos};
        ces := ces[k := Loc(f.value, b.value, curr.value)];
      }
    }

    /** Registers handle block k as the next handler of function f, with its
        marker's error name, and deletes it from its parent block's list. */
    method DeleteHandle(k: nat, f: int)
      requires k < |file.nodes| && file.nodes[k].pos in file.handleMap && 0 <= file.nodes[k].parent
      modifies this
      ensures hcs == old(hcs)[f := Hcs(old(hcs), f) + [k]]
      ensures handleErrNames == old(handleErrNames)[k := file.handleMap[file.nodes[k].pos]]
      ensures var p := file.nodes[k].parent;
              lists == if p in old(lists) then old(lists)[p := Drop(old(lists)[p], {k})] else old(lists)
      ensures ft == old(ft) && bt == old(bt) && scopes == old(scopes) && snh == old(snh) && ces == old(ces)
      ensures delExprStmts == old(delExprStmts) && edits == old(edits)
    {
      var p := file.nodes[k].parent;
      hcs := hcs[f := Hcs(hcs, f) + [k]];
      handleErrNames := handleErrNames[k := file.handleMap[file.nodes[k].pos]];
      if p in lists {
        lists := lists[p := Drop(lists[p], {k})];
      }
    }

    function PassOf(interrupted: set<int>): Pass
      reads this
    {
      Pass(ces, scopes, lists, delExprStmts, edits, interrupted)
    }

    /** The postorder callback on node k. */
    method ConsumeOne(prefix: string, info: map<int, TypeShape>, k: int, interrupted: set<int>)
      returns (err: Option<string>, interrupted': set<int>)
      requires Tree(file.nodes)
      modifies this
      ensures match ConsumeStep(file, hcs, handleErrNames, snh, prefix, info, old(PassOf(interrupted)), k)
              case Err(m) => err == Some(m)
              case Ok(p) => err == None && PassOf(interrupted') == p
      ensures ft == old(ft) && bt == old(bt) && hcs == old(hcs) && handleErrNames == old(handleErrNames) && snh == old(snh)
    {
      interrupted' := interrupted;
      err := None;
      if !(0 <= k < |file.nodes|) || k !in ces {
        return;
      }
      var loc := ces[k];
      if loc.stmt in interrupted {
        return;
      }
      if k !in info {
        interrupted' := interrupted + {loc.stmt};
        return;
      }
      ces := ces - {k};
      var types := TypeNames(info[k]);
      if types.Err? {
        return Some(types.msg), interrupted';
      }
      err := Expand(prefix, k, loc, types.value, interrupted);
    }

    /** Naming the values of check k, editing its place and inserting the
        generated statements before its statement. */
    method Expand(prefix: string, k: int, loc: Loc, types: seq<string>, ghost interrupted: set<int>) returns (err: Option<string>)
      requires Tree(file.nodes) && 0 <= k < |file.nodes| && |types| > 0
      modifies this
      ensures match Expanded(file, hcs, handleErrNames, snh, prefix, old(PassOf(interrupted)), k, loc, types)
              case Err(m) => err == Some(m)
              case Ok(p) => err == None && PassOf(interrupted) == p
      ensures ft == old(ft) && bt == old(bt) && hcs == old(hcs) && handleErrNames == old(handleErrNames) && snh == old(snh)
    {
      ghost var p0 := PassOf(interrupted);
      var names, sc := NameIn(prefix, types, loc.block);
      var errName := names[|names| - 1];
      var rule := ParentRule(ParentKindOf(file.nodes, k), names);
      if rule.Err? {
        return Some(rule.msg);
      }
      var gen := Generate(k, loc, rule.value.1, errName);
      if gen.Err? {
        return Some(gen.msg);
      }
      Apply(k, loc, rule.value.0, gen.value, sc);
      assert PassOf(interrupted) == Applied(file, p0, k, loc, rule.value.0, gen.value, sc);
      return None;
    }

    /** Numbering the values after the block's counters. */
    method NameIn(prefix: string, types: seq<string>, block: int) returns (names: seq<string>, sc: map<int, map<string, nat>>)
      ensures (names, sc) == NamedIn(prefix, types, scopes, block)
    {
      names, sc := types, scopes;
      if block in scopes {
        var after;
        names, after := NameResults(prefix, types, scopes[block]);
        sc := scopes[block := after];
      }
    }

    /** Editing the check's place and inserting the generated statements. */
    method Apply(k: int, loc: Loc, action: Action, gen: seq<Piece>, sc: map<int, map<string, nat>>)
      requires Tree(file.nodes) && 0 <= k < |file.nodes|
      modifies this
      ensures scopes == sc
      ensures lists == if loc.block in old(lists) then old(lists)[loc.block := Inserted(old(lists)[loc.block], Orig(loc.stmt), gen)] else old(lists)
      ensures delExprStmts == if action == DeleteStmt then old(delExprStmts) + {file.nodes[k].parent} else old(delExprStmts)
      ensures edits == if action.SetArgs? || action.ReplaceBy? then old(edits)[k := action] else old(edits)
      ensures ft == old(ft) && bt == old(bt) && hcs == old(hcs) && handleErrNames == old(handleErrNames) && snh == old(snh)
      ensures ces == old(ces)
    {
      var ed, del, ls := edits, delExprStmts, lists;
      if action.SetArgs? || action.ReplaceBy? {
        ed := edits[k := action];
      } else if action == DeleteStmt {
        del := delExprStmts + {file.nodes[k].parent};
      }
      if loc.block in lists {
        var list := InsertBefore(lists[loc.block], Orig(loc.stmt), gen);
        ls := lists[loc.block := list];
      }
      scopes, edits, delExprStmts, lists := sc, ed, del, ls;
    }

    /** The handler body loop and the two generated statements. */
    method Generate(k: int, loc: Loc, lhs: seq<string>, errName: string) returns (r: Result<seq<Piece>>)
      ensures r == Generated(file, hcs, handleErrNames, snh, k, loc, lhs, errName)
    {
      var handlers := Hcs(hcs, loc.fun);
      var n := Snh(snh, loc.stmt);
      if n > |handlers| {
        return Err(IndexOutOfRange);
      }
      var hl := NewestFirst(HandlersOf(file, handleErrNames, handlers), n, errName);
      var d := DefaultHandleStmt(ResultsOf(file, loc.fun));
      if d.Err? {
        return Err(d.msg);
      }
      var body := TrimList(hl + [RenameStmt(d.value, "err", errName)]).1;
      return Ok([GenAssign(lhs, k), GenIf(errName, body)]);
    }

    method ConsumeTypedChecks(prefix: string, info: map<int, TypeShape>, post: seq<int>) returns (r: Result<nat>)
      requires Tree(file.nodes)
      modifies this
      ensures match ConsumeFrom(file, hcs, handleErrNames, snh, prefix, info, old(PassOf({})), post, 0)
              case Err(m) => r == Err(m)
              case Ok(p) => r == Ok(|p.ces|) && PassOf({}) == p.(interrupted := {})
      ensures ft == old(ft) && bt == old(bt) && hcs == old(hcs) && handleErrNames == old(handleErrNames) && snh == old(snh)
    {
      var interrupted: set<int> := {};
      for i := 0 to |post|
        invariant ConsumeFrom(file, hcs, handleErrNames, snh, prefix, info, old(PassOf({})), post, 0) ==
                  ConsumeFrom(file, hcs, handleErrNames, snh, prefix, info, PassOf(interrupted), post, i)
        invariant ft == old(ft) && bt == old(bt) && hcs == old(hcs) && handleErrNames == old(handleErrNames) && snh == old(snh)
      {
        var err;
        err, interrupted := ConsumeOne(prefix, info, post[i], interrupted);
        if err.Some? {
          return Err(err.value);
        }
      }
      return Ok(|ces|);
    }

    /** One pass of transform's loop: expand the typed checks, then delete the
        expression statements they replace; `remaining` checks are left. */
    method RunPass(prefix: string, info: map<int, TypeShape>, post: seq<int>) returns (err: Option<string>, remaining: nat)
      requires Tree(file.nodes) && HandlersExit(lists)
      modifies this
      ensures err.None? ==> HandlersExit(lists) && remaining == |ces| && |ces| <= old(|ces|)
    {
      remaining := 0;
      ghost var before := PassOf({});
      ghost var hcs0, errNames, snh0 := hcs, handleErrNames, snh;
      var r := ConsumeTypedChecks(prefix, info, post);
      if r.Err? {
        return Some(r.msg), 0;
      }
      ConsumeFromKeeps(file, hcs0, errNames, snh0, prefix, info, before, post, 0);
      SubsetSize(ces.Keys, before.ces.Keys);
      ghost var ls, del := lists, delExprStmts;
      err := DeleteExprStmts();
      if err.Some? {
        return;
      }
      DeleteFromLists(file.nodes, ls, del, 0);
      remaining := r.value;
    }

    method DeleteExprStmts() returns (err: Option<string>)
      requires Tree(file.nodes)
      modifies this
      ensures match DeleteFrom(file.nodes, old(lists), old(delExprStmts), 0)
              case Err(m) => err == Some(m)
              case Ok((l, d)) => err == None && lists == l && delExprStmts == d
      ensures ft == old(ft) && bt == old(bt) && scopes == old(scopes) && hcs == old(hcs)
      ensures handleErrNames == old(handleErrNames) && snh == old(snh) && ces == old(ces) && edits == old(edits)
    {
      var nodes := file.nodes;
      for x := 0 to |nodes|
        invariant DeleteFrom(nodes, old(lists), old(delExprStmts), 0) == DeleteFrom(nodes, lists, delExprStmts, x)
        invariant ft == old(ft) && bt == old(bt) && scopes == old(scopes) && hcs == old(hcs)
        invariant handleErrNames == old(handleErrNames) && snh == old(snh) && ces == old(ces) && edits == old(edits)
      {
        if nodes[x].kind == ExprStmtNode && x in delExprStmts {
          var b := nodes[x].parent;
          if b < 0 || !HoldsList(nodes[b].kind) {
            return Some(DeleteNotInSlice);
          }
          if b in lists {
            lists := lists[b := Drop(lists[b], {x})];
          }
          delExprStmts := delExprStmts - {x};
        }
      }
      return None;
    }
  }

  // ---------------------------------------------------------------------------
  // transform: build the ownership maps, collect, then expand and delete pass
  // after pass, asking the type checker anew each time, until no check is left
  // or a pass leaves as many as the one before (the type of some check cannot
  // be found, reported by returning undefined).

  method Transform(file: File, prefix: string, post: seq<int>, checkTypes: nat -> Result<map<int, TypeShape>>)
    returns (ctx: Context, err: Option<string>, undefined: bool)
    requires Tree(file.nodes)
    ensures ctx.file == file
    ensures err.None? ==> (undefined <==> ctx.ces != map[])
    ensures err.None? ==> HandlersExit(ctx.lists)
  {
    ctx := new Context(file);
    undefined := false;
    ctx.BuildTrees();
    err := ctx.CollectHandlersAndChecks();
    if err.Some? {
      return;
    }
    assert HandlersExit(ctx.lists) by {
      StmtListsPlain(file.nodes);
      CollectFromLists(file, ctx.ft, ctx.bt, Walk(map[], map[], map[], map[], StmtLists(file.nodes), {}, None, {}), 0);
    }
    var prev: int := -1;
    var pass: nat := 0;
    while true
      invariant ctx.file == file && HandlersExit(ctx.lists)
      invariant prev == -1 || prev == |ctx.ces|
      decreases if prev < 0 then |ctx.ces| + 2 else prev + 1
    {
      var info := checkTypes(pass);
      if info.Err? {
        return ctx, Some(info.msg), false;
      }
      var remaining;
      err, remaining := ctx.RunPass(prefix, info.value, post);
      if err.Some? {
        return;
      }
      if remaining == 0 {
        break;
      }
      if remaining == prev {
        undefined := true;
        break;
      }
      prev := remaining;
      pass := pass + 1;
    }
  }
}
