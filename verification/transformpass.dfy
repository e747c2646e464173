/** The tree passes of the transform.go rewriter, the later generation of the
    ast.go one: where each node sits (its function, its block, the statement an
    expression belongs to), the statements lexically before each statement, the
    collection of handle blocks and checks, the handler chain of each check, the
    expansion of typed checks and the driver that repeats it. */
module TransformPass {
  import opened Wrappers
  import opened GoTree
  import opened AstRules
  import AP = AstPass
  import TypeVar

  // ---------------------------------------------------------------------------
  // buildTreeInfo: every node but the root is mapped to the nearest function
  // and the nearest block strictly above it, and every expression to the
  // statement it belongs to.

  /** The nearest function strictly above node k. */
  function FuncAbove(nodes: seq<Node>, k: int): (r: Option<int>)
    requires Tree(nodes) && 0 <= k < |nodes|
    ensures r.Some? ==> 0 <= r.value < k && IsFunc(nodes[r.value].kind) && Within(nodes, k, r.value)
    decreases k
  {
    var p := nodes[k].parent;
    if p < 0 then None else if IsFunc(nodes[p].kind) then Some(p) else FuncAbove(nodes, p)
  }

  /** The nearest block strictly above node k. */
  function BlockAbove(nodes: seq<Node>, k: int): (r: Option<int>)
    requires Tree(nodes) && 0 <= k < |nodes|
    ensures r.Some? ==> 0 <= r.value < k && nodes[r.value].kind == BlockStmt && Within(nodes, k, r.value)
    decreases k
  {
    var p := nodes[k].parent;
    if p < 0 then None else if nodes[p].kind == BlockStmt then Some(p) else BlockAbove(nodes, p)
  }

  /** The statement node k belongs to: climbing through expressions only, the
      first statement met; none when something else comes first. */
  function StmtOf(nodes: seq<Node>, k: int): (r: Option<int>)
    requires Tree(nodes) && 0 <= k < |nodes|
    ensures r.Some? ==> 0 <= r.value < k && IsStmt(nodes[r.value].kind) && Within(nodes, k, r.value)
    decreases k
  {
    var p := nodes[k].parent;
    if p < 0 then None
    else if IsStmt(nodes[p].kind) then Some(p)
    else if IsExpr(nodes[p].kind) then StmtOf(nodes, p)
    else None
  }

  /** No function lies strictly between a node and the function above it. */
  lemma {:induction false} FuncAboveIsNearest(nodes: seq<Node>, k: int, g: int)
    requires Tree(nodes) && 0 <= k < |nodes| && 0 <= g < |nodes|
    requires g != k && IsFunc(nodes[g].kind) && Within(nodes, k, g)
    ensures FuncAbove(nodes, k).Some? && g <= FuncAbove(nodes, k).value
    decreases k
  {
    var p := nodes[k].parent;
    if IsFunc(nodes[p].kind) {
      WithinAfter(nodes, p, g);
    } else {
      FuncAboveIsNearest(nodes, p, g);
    }
  }

  /** No block lies strictly between a node and the block above it. */
  lemma {:induction false} BlockAboveIsNearest(nodes: seq<Node>, k: int, g: int)
    requires Tree(nodes) && 0 <= k < |nodes| && 0 <= g < |nodes|
    requires g != k && nodes[g].kind == BlockStmt && Within(nodes, k, g)
    ensures BlockAbove(nodes, k).Some? && g <= BlockAbove(nodes, k).value
    decreases k
  {
    var p := nodes[k].parent;
    if nodes[p].kind == BlockStmt {
      WithinAfter(nodes, p, g);
    } else {
      BlockAboveIsNearest(nodes, p, g);
    }
  }

  /** The statement an expression belongs to is the nearest statement above it. */
  lemma {:induction false} StmtOfIsNearest(nodes: seq<Node>, k: int, g: int)
    requires Tree(nodes) && 0 <= k < |nodes| && 0 <= g < |nodes|
    requires StmtOf(nodes, k).Some? && g != k && IsStmt(nodes[g].kind) && Within(nodes, k, g)
    ensures g <= StmtOf(nodes, k).value
    decreases k
  {
    var p := nodes[k].parent;
    if IsStmt(nodes[p].kind) {
      WithinAfter(nodes, p, g);
    } else {
      StmtOfIsNearest(nodes, p, g);
    }
  }

  /** The maps of buildTreeInfo. A scope map is a block's name counters. */
  datatype TreeInfo = TreeInfo(
    funcTree: map<int, Option<int>>,
    blockTree: map<int, Option<int>>,
    exprTree: map<int, Option<int>>,
    blockIsFunc: set<int>,
    scopeMap: map<int, map<string, nat>>)

  /** The block that is a function's body. */
  predicate FuncBody(nodes: seq<Node>, k: int)
    requires Tree(nodes) && 0 <= k < |nodes|
  {
    nodes[k].kind == BlockStmt && nodes[k].parent >= 0 && IsFunc(nodes[nodes[k].parent].kind)
  }

  /** What the maps say about node k, read as Go reads them (a missing entry is nil). */
  ghost predicate InfoAt(nodes: seq<Node>, info: TreeInfo, k: int)
    requires Tree(nodes) && 0 <= k < |nodes|
  {
    AP.Get(info.funcTree, k) == FuncAbove(nodes, k) &&
    AP.Get(info.blockTree, k) == BlockAbove(nodes, k) &&
    (IsExpr(nodes[k].kind) ==> AP.Get(info.exprTree, k) == StmtOf(nodes, k)) &&
    (k in info.blockIsFunc <==> FuncBody(nodes, k))
  }

  /** The function map once the walk has visited the first n nodes. */
  ghost predicate FuncsUpTo(nodes: seq<Node>, ft: map<int, Option<int>>, n: int)
    requires Tree(nodes) && 0 <= n <= |nodes|
  {
    (forall k :: 0 <= k < n ==> AP.Get(ft, k) == FuncAbove(nodes, k)) &&
    (forall k :: k in ft ==> 0 <= k < n)
  }

  /** The block map once the walk has visited the first n nodes. */
  ghost predicate BlocksUpTo(nodes: seq<Node>, bt: map<int, Option<int>>, n: int)
    requires Tree(nodes) && 0 <= n <= |nodes|
  {
    (forall k :: 0 <= k < n ==> AP.Get(bt, k) == BlockAbove(nodes, k)) &&
    (forall k :: k in bt ==> 0 <= k < n)
  }

  /** The expression map once the walk has visited the first n nodes. */
  ghost predicate StmtsUpTo(nodes: seq<Node>, et: map<int, Option<int>>, n: int)
    requires Tree(nodes) && 0 <= n <= |nodes|
  {
    (forall k :: 0 <= k < n && IsExpr(nodes[k].kind) ==> AP.Get(et, k) == StmtOf(nodes, k)) &&
    (forall k :: k in et ==> 0 <= k < n)
  }

  /** The function bodies among the first n nodes. */
  ghost predicate BodiesUpTo(nodes: seq<Node>, isFunc: set<int>, n: int)
    requires Tree(nodes) && 0 <= n <= |nodes|
  {
    (forall k :: 0 <= k < n ==> (k in isFunc <==> FuncBody(nodes, k))) &&
    (forall k :: k in isFunc ==> 0 <= k < n)
  }

  /** The walk of buildTreeInfo. */
  method BuildTreeInfo(nodes: seq<Node>) returns (info: TreeInfo)
    requires Tree(nodes)
    ensures forall k :: 0 <= k < |nodes| ==> InfoAt(nodes, info, k)
    ensures forall k :: k in info.blockIsFunc ==> 0 <= k < |nodes|
    ensures info.scopeMap == AP.FreshScopes(nodes, |nodes|)
  {
    var ft, bt, et: map<int, Option<int>> := map[], map[], map[];
    var isFunc: set<int> := {};
    var scopes: map<int, map<string, nat>> := map[];
    for i := 0 to |nodes|
      invariant FuncsUpTo(nodes, ft, i) && BodiesUpTo(nodes, isFunc, i)
      invariant BlocksUpTo(nodes, bt, i) && StmtsUpTo(nodes, et, i)
      invariant scopes == AP.FreshScopes(nodes, i)
    {
      if nodes[i].kind == BlockStmt {
        scopes := scopes[i := map[]];
      }
      ft, isFunc := VisitFunc(nodes, i, ft, isFunc);
      bt := VisitBlock(nodes, i, bt);
      et := VisitExpr(nodes, i, et);
    }
    info := TreeInfo(ft, bt, et, isFunc, scopes);
    forall k | 0 <= k < |nodes|
      ensures InfoAt(nodes, info, k)
    {
    }
  }

  /** The function entry of node i, and whether it is a function's body. */
  method VisitFunc(nodes: seq<Node>, i: int, ft: map<int, Option<int>>, isFunc: set<int>)
    returns (ft': map<int, Option<int>>, isFunc': set<int>)
    requires Tree(nodes) && 0 <= i < |nodes|
    requires FuncsUpTo(nodes, ft, i) && BodiesUpTo(nodes, isFunc, i)
    ensures FuncsUpTo(nodes, ft', i + 1) && BodiesUpTo(nodes, isFunc', i + 1)
  {
    ft', isFunc' := ft, isFunc;
    var p := nodes[i].parent;
    if p >= 0 {
      if IsFunc(nodes[p].kind) {
        ft' := ft[i := Some(p)];
        if nodes[i].kind == BlockStmt {
          isFunc' := isFunc + {i};
        }
      } else {
        ft' := ft[i := AP.Get(ft, p)];
      }
    }
  }

  /** The block entry of node i. */
  method VisitBlock(nodes: seq<Node>, i: int, bt: map<int, Option<int>>) returns (bt': map<int, Option<int>>)
    requires Tree(nodes) && 0 <= i < |nodes| && BlocksUpTo(nodes, bt, i)
    ensures BlocksUpTo(nodes, bt', i + 1)
  {
    bt' := bt;
    var p := nodes[i].parent;
    if p >= 0 {
      if nodes[p].kind == BlockStmt {
        bt' := bt[i := Some(p)];
      } else {
        bt' := bt[i := AP.Get(bt, p)];
      }
    }
  }

  /** The statement entry of node i, when it is an expression. */
  method VisitExpr(nodes: seq<Node>, i: int, et: map<int, Option<int>>) returns (et': map<int, Option<int>>)
    requires Tree(nodes) && 0 <= i < |nodes| && StmtsUpTo(nodes, et, i)
    ensures StmtsUpTo(nodes, et', i + 1)
  {
    et' := et;
    var p := nodes[i].parent;
    if p >= 0 && IsExpr(nodes[i].kind) {
      if IsStmt(nodes[p].kind) {
        et' := et[i := Some(p)];
      } else if IsExpr(nodes[p].kind) {
        et' := et[i := AP.Get(et, p)];
      }
    }
  }

  // ---------------------------------------------------------------------------
  // lexicalStmtTree: one list per block of the statements visible in it, in
  // source order. A statement is appended to the list of the block above it;
  // a block starts from a copy of that list as it is when the block is met.
  // Each listed statement then points to the one before it.

  /** The statements among the first n nodes whose block above is b, in order. */
  function Own(nodes: seq<Node>, b: int, n: nat): seq<int>
    requires Tree(nodes) && n <= |nodes|
  {
    if n == 0 then []
    else Own(nodes, b, n - 1) + (if IsStmt(nodes[n - 1].kind) && BlockAbove(nodes, n - 1) == Some(b) then [n - 1] else [])
  }

  /** The list of block b once the walk has visited the first n nodes: the
      copy taken when b was met, then b's own statements. */
  function ListAt(nodes: seq<Node>, b: int, n: nat): seq<int>
    requires Tree(nodes) && 0 <= b < |nodes| && n <= |nodes|
    decreases b, 1
  {
    (if b < n then Copied(nodes, b) else []) + Own(nodes, b, n)
  }

  /** The copy a block starts from: the list of the block above it as it was
      when the walk met the block. */
  function Copied(nodes: seq<Node>, b: int): seq<int>
    requires Tree(nodes) && 0 <= b < |nodes|
    decreases b, 0
  {
    if nodes[b].kind == BlockStmt && BlockAbove(nodes, b).Some? then ListAt(nodes, BlockAbove(nodes, b).value, b) else []
  }

  /** A statement the walk lists: one with a block above it. */
  predicate Listed(nodes: seq<Node>, x: int)
    requires Tree(nodes)
  {
    0 <= x < |nodes| && IsStmt(nodes[x].kind) && BlockAbove(nodes, x).Some?
  }

  /** The statements visible at statement x, ending with x: the list of its
      block right after x was appended. */
  function Hist(nodes: seq<Node>, x: int): seq<int>
    requires Tree(nodes) && Listed(nodes, x)
  {
    ListAt(nodes, BlockAbove(nodes, x).value, x + 1)
  }

  /** The statement listed just before x, if any. */
  function PredOf(nodes: seq<Node>, x: int): Option<int>
    requires Tree(nodes) && Listed(nodes, x)
  {
    var h := Hist(nodes, x);
    if |h| >= 2 then Some(h[|h| - 2]) else None
  }

  /** A Go slice-valued map read at a missing key: the empty slice. */
  function Lst(lists: map<int, seq<int>>, b: int): seq<int>
  {
    if b in lists then lists[b] else []
  }

  lemma {:induction false} OwnElems(nodes: seq<Node>, b: int, n: nat, i: int)
    requires Tree(nodes) && n <= |nodes| && 0 <= i < |Own(nodes, b, n)|
    ensures var x := Own(nodes, b, n)[i];
            0 <= x < n && b < x && IsStmt(nodes[x].kind) && BlockAbove(nodes, x) == Some(b)
  {
    if i < |Own(nodes, b, n - 1)| {
      OwnElems(nodes, b, n - 1, i);
    }
  }

  /** No statement among the first b+1 nodes has b as its block above. */
  lemma OwnEmpty(nodes: seq<Node>, b: int, n: nat)
    requires Tree(nodes) && n <= |nodes| && n <= b + 1
    ensures Own(nodes, b, n) == []
  {
    if |Own(nodes, b, n)| > 0 {
      OwnElems(nodes, b, n, 0);
    }
  }

  /** The own statements up to one of them are the ones met before it, and it. */
  lemma {:induction false} OwnPrefix(nodes: seq<Node>, b: int, n: nat, j: int)
    requires Tree(nodes) && n <= |nodes| && 0 <= j < |Own(nodes, b, n)|
    ensures 0 <= Own(nodes, b, n)[j] < n
    ensures Own(nodes, b, n)[..j + 1] == Own(nodes, b, Own(nodes, b, n)[j] + 1)
  {
    var o := Own(nodes, b, n);
    var o' := Own(nodes, b, n - 1);
    assert o == o' + (if IsStmt(nodes[n - 1].kind) && BlockAbove(nodes, n - 1) == Some(b) then [n - 1] else []);
    if j < |o'| {
      OwnPrefix(nodes, b, n - 1, j);
      assert o[..j + 1] == o'[..j + 1] && o[j] == o'[j];
    } else {
      assert |o| == j + 1 && o[j] == n - 1;
      assert o[..j + 1] == o;
    }
  }

  /** Later lists extend earlier ones. */
  lemma {:induction false} OwnGrows(nodes: seq<Node>, b: int, n: nat, m: nat)
    requires Tree(nodes) && n <= m <= |nodes|
    ensures Own(nodes, b, n) <= Own(nodes, b, m)
    decreases m
  {
    if n < m {
      OwnGrows(nodes, b, n, m - 1);
    }
  }

  /** Every listed statement of a block is visible in it: its own block is the
      block or encloses it, and it was met before the walk got to n. */
  lemma {:induction false} ListAtElems(nodes: seq<Node>, b: int, n: nat, i: int)
    requires Tree(nodes) && 0 <= b < |nodes| && n <= |nodes| && 0 <= i < |ListAt(nodes, b, n)|
    ensures var x := ListAt(nodes, b, n)[i];
            Listed(nodes, x) && x < n && Within(nodes, b, BlockAbove(nodes, x).value)
    decreases b
  {
    var c := if b < n then Copied(nodes, b) else [];
    if i < |c| {
      var pb := BlockAbove(nodes, b).value;
      ListAtElems(nodes, pb, b, i);
      WithinTrans(nodes, b, pb, BlockAbove(nodes, c[i]).value);
    } else {
      OwnElems(nodes, b, n, i - |c|);
    }
  }

  lemma {:induction false} WithinTrans(nodes: seq<Node>, x: int, y: int, z: int)
    requires Tree(nodes) && 0 <= x < |nodes| && 0 <= y < |nodes|
    requires Within(nodes, x, y) && Within(nodes, y, z)
    ensures Within(nodes, x, z)
    decreases x
  {
    if x != y {
      WithinTrans(nodes, nodes[x].parent, y, z);
    }
  }

  /** Every prefix of a list ending at a statement is what was visible at that
      statement: the lists never disagree about what comes before a statement. */
  lemma {:induction false} ListAtPrefix(nodes: seq<Node>, b: int, n: nat, i: int)
    requires Tree(nodes) && 0 <= b < |nodes| && n <= |nodes| && 0 <= i < |ListAt(nodes, b, n)|
    ensures Listed(nodes, ListAt(nodes, b, n)[i])
    ensures ListAt(nodes, b, n)[..i + 1] == Hist(nodes, ListAt(nodes, b, n)[i])
    decreases b
  {
    ListAtElems(nodes, b, n, i);
    var c := if b < n then Copied(nodes, b) else [];
    if i < |c| {
      var pb := BlockAbove(nodes, b).value;
      assert c == ListAt(nodes, pb, b);
      ListAtPrefix(nodes, pb, b, i);
      PrefixInCopied(nodes, b, n, i);
    } else {
      PrefixInOwn(nodes, b, n, i);
    }
  }

  lemma PrefixInCopied(nodes: seq<Node>, b: int, n: nat, i: int)
    requires Tree(nodes) && 0 <= b < n <= |nodes| && 0 <= i < |Copied(nodes, b)| && i < |ListAt(nodes, b, n)|
    requires Listed(nodes, Copied(nodes, b)[i]) && Listed(nodes, ListAt(nodes, b, n)[i])
    requires Copied(nodes, b)[..i + 1] == Hist(nodes, Copied(nodes, b)[i])
    ensures ListAt(nodes, b, n)[..i + 1] == Hist(nodes, ListAt(nodes, b, n)[i])
  {
    var l, c := ListAt(nodes, b, n), Copied(nodes, b);
    assert l == c + Own(nodes, b, n);
    assert l[..i + 1] == c[..i + 1] && l[i] == c[i];
  }

  lemma PrefixInOwn(nodes: seq<Node>, b: int, n: nat, i: int)
    requires Tree(nodes) && 0 <= b < |nodes| && n <= |nodes| && 0 <= i < |ListAt(nodes, b, n)|
    requires i >= |if b < n then Copied(nodes, b) else []|
    requires Listed(nodes, ListAt(nodes, b, n)[i])
    ensures ListAt(nodes, b, n)[..i + 1] == Hist(nodes, ListAt(nodes, b, n)[i])
  {
    var l := ListAt(nodes, b, n);
    var c := if b < n then Copied(nodes, b) else [];
    var o := Own(nodes, b, n);
    assert l == c + o;
    var j := i - |c|;
    OwnElems(nodes, b, n, j);
    OwnPrefix(nodes, b, n, j);
    var x := o[j];
    assert l[i] == x && b < x < n;
    assert Hist(nodes, x) == ListAt(nodes, b, x + 1) == Copied(nodes, b) + Own(nodes, b, x + 1);
    assert l[..i + 1] == c + o[..j + 1];
  }

  /** What was visible at x is a prefix of its block's final list. */
  lemma HistInList(nodes: seq<Node>, x: int)
    requires Tree(nodes) && Listed(nodes, x)
    ensures var c := BlockAbove(nodes, x).value;
            Hist(nodes, x) <= ListAt(nodes, c, |nodes|)
  {
    var c := BlockAbove(nodes, x).value;
    assert c < x + 1 <= |nodes|;
    OwnGrows(nodes, c, x + 1, |nodes|);
    PrefixAfter(Copied(nodes, c), Own(nodes, c, x + 1), Own(nodes, c, |nodes|));
  }

  lemma PrefixAfter(a: seq<int>, b: seq<int>, b': seq<int>)
    requires b <= b'
    ensures a + b <= a + b'
  {
    assert (a + b') [..|a + b|] == a + b;
  }

  /** What is visible at x ends with x. */
  lemma HistLast(nodes: seq<Node>, x: int)
    requires Tree(nodes) && Listed(nodes, x)
    ensures var h := Hist(nodes, x); |h| > 0 && h[|h| - 1] == x
  {
  }

  /** The statement before x comes earlier, and what was visible at it is what
      is visible at x but x. */
  lemma PredOfHist(nodes: seq<Node>, x: int)
    requires Tree(nodes) && Listed(nodes, x) && PredOf(nodes, x).Some?
    ensures var y := PredOf(nodes, x).value; var h := Hist(nodes, x);
            Listed(nodes, y) && y < x && Hist(nodes, y) == h[..|h| - 1]
  {
    var h := Hist(nodes, x);
    var c := BlockAbove(nodes, x).value;
    assert h == ListAt(nodes, c, x + 1);
    var y := h[|h| - 2];
    assert PredOf(nodes, x) == Some(y);
    ListAtPrefix(nodes, c, x + 1, |h| - 2);
    ListAtElems(nodes, c, x + 1, |h| - 2);
    assert |Hist(nodes, y)| == |h| - 1;
    assert y != x;
  }

  /** Everything visible at x lies in a block that encloses x. */
  lemma HistVisible(nodes: seq<Node>, x: int, i: int)
    requires Tree(nodes) && Listed(nodes, x) && 0 <= i < |Hist(nodes, x)|
    ensures var y := Hist(nodes, x)[i];
            Listed(nodes, y) && y <= x && Within(nodes, x, BlockAbove(nodes, y).value)
  {
    var c := BlockAbove(nodes, x).value;
    ListAtElems(nodes, c, x + 1, i);
    WithinTrans(nodes, x, c, BlockAbove(nodes, Hist(nodes, x)[i]).value);
  }

  /** One visit of the first walk. */
  lemma ListAtStep(nodes: seq<Node>, b: int, k: nat)
    requires Tree(nodes) && 0 <= b < |nodes| && k < |nodes|
    ensures b == k ==> ListAt(nodes, b, k + 1) == Copied(nodes, k) && ListAt(nodes, b, k) == []
    ensures b != k ==> ListAt(nodes, b, k + 1) ==
                         (if IsStmt(nodes[k].kind) && BlockAbove(nodes, k) == Some(b) then ListAt(nodes, b, k) + [k] else ListAt(nodes, b, k))
  {
    if b == k {
      OwnEmpty(nodes, b, k + 1);
      OwnEmpty(nodes, b, k);
    }
  }

  /** Every statement with a block above it and a statement before it points to it. */
  ghost predicate StmtTree(nodes: seq<Node>, st: map<int, int>)
    requires Tree(nodes)
  {
    (forall x :: x in st ==> Listed(nodes, x) && PredOf(nodes, x) == Some(st[x])) &&
    (forall x :: Listed(nodes, x) && PredOf(nodes, x).Some? ==> x in st)
  }

  /** lexicalStmtTree: the walk building the lists, then the pointers back.
      Go visits the lists in map order; the model visits them by block, and
      since StmtTree leaves one map possible, every order gives this one. */
  method LexicalStmtTree(nodes: seq<Node>, info: TreeInfo) returns (st: map<int, int>)
    requires Tree(nodes)
    requires forall k :: 0 <= k < |nodes| ==> AP.Get(info.blockTree, k) == BlockAbove(nodes, k)
    ensures StmtTree(nodes, st)
  {
    var lists := VisibleLists(nodes, info);
    st := LinkAll(nodes, lists);
    forall x | Listed(nodes, x) && PredOf(nodes, x).Some?
      ensures x in st
    {
      var c := BlockAbove(nodes, x).value;
      HistInList(nodes, x);
      HistLast(nodes, x);
      var h := Hist(nodes, x);
      assert c in lists && lists[c][|h| - 1] == x;
    }
  }

  /** The outer loop of the second walk: every list's statements but the
      first point back to the one before them. */
  method LinkAll(nodes: seq<Node>, lists: map<int, seq<int>>) returns (st: map<int, int>)
    requires Tree(nodes)
    requires forall b :: b in lists ==> 0 <= b < |nodes| && lists[b] == ListAt(nodes, b, |nodes|)
    ensures PointsBack(nodes, st)
    ensures forall c, i :: c in lists && 0 < i < |lists[c]| ==> lists[c][i] in st
  {
    st := map[];
    for b := 0 to |nodes|
      invariant PointsBack(nodes, st)
      invariant LinkedBelow(lists, b, st)
    {
      if b in lists {
        var st' := LinkBack(nodes, st, b, lists[b]);
        LinkedStep(lists, b, st, st');
        st := st';
      }
    }
  }

  /** Every list of a block below b has all its statements but the first linked. */
  ghost predicate LinkedBelow(lists: map<int, seq<int>>, b: int, st: map<int, int>)
  {
    forall c, i :: c in lists && c < b && 0 < i < |lists[c]| ==> lists[c][i] in st
  }

  lemma LinkedStep(lists: map<int, seq<int>>, b: int, st: map<int, int>, st': map<int, int>)
    requires LinkedBelow(lists, b, st) && st.Keys <= st'.Keys && b in lists
    requires forall i :: 0 < i < |lists[b]| ==> lists[b][i] in st'
    ensures LinkedBelow(lists, b + 1, st')
  {
  }

  /** Every pointer goes from a listed statement to the one before it. */
  ghost predicate PointsBack(nodes: seq<Node>, st: map<int, int>)
    requires Tree(nodes)
  {
    forall x :: x in st ==> Listed(nodes, x) && PredOf(nodes, x) == Some(st[x])
  }

  /** The lists after the walk has visited the first k nodes. */
  ghost predicate ListsAt(nodes: seq<Node>, lists: map<int, seq<int>>, k: nat)
    requires Tree(nodes) && k <= |nodes|
  {
    (forall b :: b in lists ==> 0 <= b < |nodes|) &&
    (forall b :: 0 <= b < |nodes| ==> Lst(lists, b) == ListAt(nodes, b, k))
  }

  /** The map after visiting statement k whose block above is pb. */
  function Visited(nodes: seq<Node>, lists: map<int, seq<int>>, k: nat, pb: int): map<int, seq<int>>
    requires k < |nodes|
  {
    var pl := Lst(lists, pb);
    (if nodes[k].kind == BlockStmt then lists[k := pl] else lists)[pb := pl + [k]]
  }

  lemma VisitedAt(nodes: seq<Node>, lists: map<int, seq<int>>, k: nat, pb: int, b: int)
    requires Tree(nodes) && k < |nodes| && 0 <= b < |nodes|
    requires IsStmt(nodes[k].kind) && BlockAbove(nodes, k) == Some(pb)
    requires Lst(lists, b) == ListAt(nodes, b, k) && Lst(lists, pb) == ListAt(nodes, pb, k)
    ensures Lst(Visited(nodes, lists, k, pb), b) == ListAt(nodes, b, k + 1)
  {
    ListAtStep(nodes, b, k);
  }

  /** Visiting statement k whose block above is pb. */
  lemma VisitStep(nodes: seq<Node>, lists: map<int, seq<int>>, k: nat, pb: int)
    requires Tree(nodes) && k < |nodes| && ListsAt(nodes, lists, k)
    requires IsStmt(nodes[k].kind) && BlockAbove(nodes, k) == Some(pb)
    ensures ListsAt(nodes, Visited(nodes, lists, k, pb), k + 1)
  {
    var v := Visited(nodes, lists, k, pb);
    assert 0 <= pb < k;
    assert Lst(lists, pb) == ListAt(nodes, pb, k);
    forall b | b in v
      ensures 0 <= b < |nodes|
    {
      assert b in lists || b == k || b == pb;
    }
    forall b | 0 <= b < |nodes|
      ensures Lst(v, b) == ListAt(nodes, b, k + 1)
    {
      VisitedAt(nodes, lists, k, pb, b);
    }
  }

  /** Visiting any other node changes nothing. */
  lemma SkipStep(nodes: seq<Node>, lists: map<int, seq<int>>, k: nat)
    requires Tree(nodes) && k < |nodes| && ListsAt(nodes, lists, k)
    requires !IsStmt(nodes[k].kind) || BlockAbove(nodes, k).None?
    ensures ListsAt(nodes, lists, k + 1)
  {
    forall b | 0 <= b < |nodes|
      ensures Lst(lists, b) == ListAt(nodes, b, k + 1)
    {
      ListAtStep(nodes, b, k);
    }
  }

  /** The first walk: every block's list of visible statements. */
  method VisibleLists(nodes: seq<Node>, info: TreeInfo) returns (lists: map<int, seq<int>>)
    requires Tree(nodes)
    requires forall k :: 0 <= k < |nodes| ==> AP.Get(info.blockTree, k) == BlockAbove(nodes, k)
    ensures forall b :: b in lists ==> 0 <= b < |nodes|
    ensures forall b :: 0 <= b < |nodes| ==> Lst(lists, b) == ListAt(nodes, b, |nodes|)
  {
    lists := map[];
    for k := 0 to |nodes|
      invariant ListsAt(nodes, lists, k)
    {
      var pb := AP.Get(info.blockTree, k);
      if !IsStmt(nodes[k].kind) || pb.None? {
        SkipStep(nodes, lists, k);
        continue;
      }
      VisitStep(nodes, lists, k, pb.value);
      ghost var after := Visited(nodes, lists, k, pb.value);
      var pl := Lst(lists, pb.value);
      if nodes[k].kind == BlockStmt {
        lists := lists[k := pl];
      }
      lists := lists[pb.value := pl + [k]];
      assert lists == after;
    }
  }

  /** The inner loop: every statement of block b's list but the first points
      to the one before it. */
  method LinkBack(nodes: seq<Node>, st: map<int, int>, ghost b: int, l: seq<int>) returns (st': map<int, int>)
    requires Tree(nodes) && 0 <= b < |nodes| && l == ListAt(nodes, b, |nodes|) && PointsBack(nodes, st)
    ensures PointsBack(nodes, st') && st.Keys <= st'.Keys
    ensures forall i :: 0 < i < |l| ==> l[i] in st'
  {
    st' := st;
    for i := 0 to |l|
      invariant PointsBack(nodes, st') && st.Keys <= st'.Keys
      invariant forall j :: 0 < j < i ==> l[j] in st'
    {
      if i == 0 {
        continue;
      }
      LinkStep(nodes, st', b, l, i);
      st' := st'[l[i] := l[i - 1]];
    }
  }

  /** One pointer of the inner loop keeps every pointer pointing back. */
  lemma LinkStep(nodes: seq<Node>, st: map<int, int>, b: int, l: seq<int>, i: int)
    requires Tree(nodes) && 0 <= b < |nodes| && l == ListAt(nodes, b, |nodes|) && PointsBack(nodes, st)
    requires 0 < i < |l|
    ensures PointsBack(nodes, st[l[i] := l[i - 1]])
  {
    var x := l[i];
    ListAtPrefix(nodes, b, |nodes|, i);
    var h := Hist(nodes, x);
    assert |h| == i + 1 && h[i - 1] == l[i - 1];
    assert PredOf(nodes, x) == Some(l[i - 1]);
    var st' := st[x := l[i - 1]];
    forall y | y in st'
      ensures Listed(nodes, y) && PredOf(nodes, y) == Some(st'[y])
    {
      if y != x {
        assert y in st && st'[y] == st[y];
      }
    }
  }

  // ---------------------------------------------------------------------------
  // collectChecksAndHandles2: one preorder walk recording the error name of
  // each handle block (and deleting it from its block) and collecting the
  // checks, one per position, in source order.

  /** The message of a handle marker on something other than a block; Go
      follows it with the node's %#v rendering. */
  const HandleNotBlock := "handle not a block"

  /** The state of the walk: the error names recorded, the block lists handle
      blocks are deleted from, the positions collected, the checks in order,
      and the nodes inside deleted handle blocks (not visited). */
  datatype Gather = Gather(
    errNames: map<int, string>,
    lists: map<int, seq<AP.Piece>>,
    collected: set<int>,
    checks: seq<int>,
    skipped: set<int>)

  /** An expression the walk collects when it carries a check marker. */
  predicate Checkable(file: AP.File, e: int)
    requires 0 <= e < |file.nodes|
  {
    var node := file.nodes[e];
    node.pos in file.checkMap && IsExpr(node.kind) && node.kind != BinaryExpr && node.kind != KeyValueExpr
  }

  function GatherStep(file: AP.File, g: Gather, k: int): Result<Gather>
    requires Tree(file.nodes) && 0 <= k < |file.nodes|
  {
    var node := file.nodes[k];
    if node.parent >= 0 && node.parent in g.skipped then Ok(g.(skipped := g.skipped + {k}))
    else if node.pos in file.handleMap then
      if node.kind != BlockStmt then Err(HandleNotBlock)
      else if node.parent < 0 || !HoldsList(file.nodes[node.parent].kind) then Err(AP.DeleteNotInSlice)
      else
        var lists := if node.parent in g.lists then g.lists[node.parent := AP.Drop(g.lists[node.parent], {k})] else g.lists;
        Ok(g.(errNames := g.errNames[k := file.handleMap[node.pos]], lists := lists, skipped := g.skipped + {k}))
    else if !Checkable(file, k) || node.pos in g.collected then Ok(g)
    else Ok(g.(collected := g.collected + {node.pos}, checks := g.checks + [k]))
  }

  /** The walk over nodes k, k+1, ... from state g. */
  function GatherFrom(file: AP.File, g: Gather, k: nat): Result<Gather>
    requires Tree(file.nodes) && k <= |file.nodes|
    decreases |file.nodes| - k
  {
    if k == |file.nodes| then Ok(g)
    else match GatherStep(file, g, k)
      case Err(m) => Err(m)
      case Ok(g') => GatherFrom(file, g', k + 1)
  }

  /** The checks are checkable expressions outside every handle block, in
      source order, with distinct positions, and every checkable expression
      visited outside the handle blocks has its position collected. */
  ghost predicate ChecksGathered(file: AP.File, g: Gather, k: nat)
    requires Tree(file.nodes) && k <= |file.nodes|
  {
    var nodes := file.nodes;
    (forall i :: 0 <= i < |g.checks| ==>
       var e := g.checks[i];
       0 <= e < k && Checkable(file, e) && nodes[e].pos in g.collected && AP.Outside(nodes, g.skipped, e)) &&
    (forall i, j :: 0 <= i < j < |g.checks| ==> g.checks[i] < g.checks[j] && nodes[g.checks[i]].pos != nodes[g.checks[j]].pos) &&
    (forall e :: 0 <= e < k && e !in g.skipped && Checkable(file, e) ==> nodes[e].pos in g.collected)
  }

  /** The recorded handle blocks are blocks at handle markers, deleted from
      the walk, each with its marker's error name. */
  ghost predicate HandlesGathered(file: AP.File, g: Gather, k: nat)
    requires Tree(file.nodes) && k <= |file.nodes|
  {
    forall h :: h in g.errNames ==>
      0 <= h < k && file.nodes[h].kind == BlockStmt && file.nodes[h].pos in file.handleMap &&
      g.errNames[h] == file.handleMap[file.nodes[h].pos] && h in g.skipped
  }

  /** The skipped nodes are the visited ones inside a deleted handle block. */
  ghost predicate SkippedOk(nodes: seq<Node>, skipped: set<int>, k: nat)
    requires Tree(nodes) && k <= |nodes|
  {
    (forall x :: x in skipped ==> 0 <= x < k) &&
    (forall x :: 0 <= x < k && x !in skipped ==> AP.Outside(nodes, skipped, x))
  }

  ghost predicate Gathered(file: AP.File, g: Gather, k: nat)
    requires Tree(file.nodes) && k <= |file.nodes|
  {
    ChecksGathered(file, g, k) && HandlesGathered(file, g, k) && SkippedOk(file.nodes, g.skipped, k)
  }

  lemma SkipAdds(file: AP.File, g: Gather, k: nat)
    requires Tree(file.nodes) && k < |file.nodes| && Gathered(file, g, k)
    requires forall e :: 0 <= e < k && e !in g.skipped && Checkable(file, e) ==> file.nodes[e].pos in g.collected
    ensures SkippedOk(file.nodes, g.skipped + {k}, k + 1)
    ensures ChecksGathered(file, g.(skipped := g.skipped + {k}), k + 1)
  {
    forall x | 0 <= x < k + 1 && x !in g.skipped + {k}
      ensures AP.Outside(file.nodes, g.skipped + {k}, x)
    {
      AP.OutsideGrows(file.nodes, g.skipped, x, k);
    }
    forall i | 0 <= i < |g.checks|
      ensures AP.Outside(file.nodes, g.skipped + {k}, g.checks[i])
    {
      AP.OutsideGrows(file.nodes, g.skipped, g.checks[i], k);
    }
  }

  lemma GatherStepKeeps(file: AP.File, g: Gather, k: nat)
    requires Tree(file.nodes) && k < |file.nodes| && Gathered(file, g, k)
    requires GatherStep(file, g, k).Ok?
    ensures Gathered(file, GatherStep(file, g, k).value, k + 1)
  {
    var node := file.nodes[k];
    if node.parent >= 0 && node.parent in g.skipped {
      SkipAdds(file, g, k);
    } else if node.pos in file.handleMap {
      GatherStepHandle(file, g, k);
    } else {
      GatherStepVisit(file, g, k);
    }
  }

  lemma GatherStepHandle(file: AP.File, g: Gather, k: nat)
    requires Tree(file.nodes) && k < |file.nodes| && Gathered(file, g, k)
    requires GatherStep(file, g, k).Ok?
    requires !(file.nodes[k].parent >= 0 && file.nodes[k].parent in g.skipped) && file.nodes[k].pos in file.handleMap
    ensures Gathered(file, GatherStep(file, g, k).value, k + 1)
  {
    var g' := GatherStep(file, g, k).value;
    SkipAdds(file, g, k);
    assert g' == g.(errNames := g.errNames[k := file.handleMap[file.nodes[k].pos]], lists := g'.lists, skipped := g.skipped + {k});
  }

  lemma GatherStepVisit(file: AP.File, g: Gather, k: nat)
    requires Tree(file.nodes) && k < |file.nodes| && Gathered(file, g, k)
    requires GatherStep(file, g, k).Ok?
    requires !(file.nodes[k].parent >= 0 && file.nodes[k].parent in g.skipped) && file.nodes[k].pos !in file.handleMap
    ensures Gathered(file, GatherStep(file, g, k).value, k + 1)
  {
    var node := file.nodes[k];
    if node.parent >= 0 {
      assert AP.Outside(file.nodes, g.skipped, node.parent);
    }
    assert AP.Outside(file.nodes, g.skipped, k);
    if !Checkable(file, k) || node.pos in g.collected {
      GatheredSame(file, g, k);
    } else {
      GatheredAdd(file, g, k);
    }
  }

  lemma GatheredSame(file: AP.File, g: Gather, k: nat)
    requires Tree(file.nodes) && k < |file.nodes| && Gathered(file, g, k)
    requires AP.Outside(file.nodes, g.skipped, k) && k !in g.skipped
    requires Checkable(file, k) ==> file.nodes[k].pos in g.collected
    ensures Gathered(file, g, k + 1)
  {
  }

  lemma GatheredAdd(file: AP.File, g: Gather, k: nat)
    requires Tree(file.nodes) && k < |file.nodes| && Gathered(file, g, k)
    requires AP.Outside(file.nodes, g.skipped, k) && k !in g.skipped
    requires Checkable(file, k) && file.nodes[k].pos !in g.collected
    ensures Gathered(file, g.(collected := g.collected + {file.nodes[k].pos}, checks := g.checks + [k]), k + 1)
  {
    var g' := g.(collected := g.collected + {file.nodes[k].pos}, checks := g.checks + [k]);
    ChecksAdded(file, g, k);
    HandlesLater(file, g, g', k);
    SkippedLater(file.nodes, g.skipped, k);
  }

  lemma ChecksAdded(file: AP.File, g: Gather, k: nat)
    requires Tree(file.nodes) && k < |file.nodes| && ChecksGathered(file, g, k)
    requires AP.Outside(file.nodes, g.skipped, k) && k !in g.skipped
    requires Checkable(file, k) && file.nodes[k].pos !in g.collected
    ensures ChecksGathered(file, g.(collected := g.collected + {file.nodes[k].pos}, checks := g.checks + [k]), k + 1)
  {
    var nodes := file.nodes;
    var g' := g.(collected := g.collected + {nodes[k].pos}, checks := g.checks + [k]);
    forall i | 0 <= i < |g'.checks|
      ensures var e := g'.checks[i];
              0 <= e < k + 1 && Checkable(file, e) && nodes[e].pos in g'.collected && AP.Outside(nodes, g'.skipped, e)
    {
      if i < |g.checks| {
        assert g'.checks[i] == g.checks[i];
      }
    }
    forall i, j | 0 <= i < j < |g'.checks|
      ensures g'.checks[i] < g'.checks[j] && nodes[g'.checks[i]].pos != nodes[g'.checks[j]].pos
    {
      assert g'.checks[i] == g.checks[i];
      if j < |g.checks| {
        assert g'.checks[j] == g.checks[j];
      }
    }
    forall e | 0 <= e < k + 1 && e !in g'.skipped && Checkable(file, e)
      ensures nodes[e].pos in g'.collected
    {
      if e < k {
        assert nodes[e].pos in g.collected;
      }
    }
  }

  lemma HandlesLater(file: AP.File, g: Gather, g': Gather, k: nat)
    requires Tree(file.nodes) && k < |file.nodes| && HandlesGathered(file, g, k)
    requires g'.errNames == g.errNames && g'.skipped == g.skipped
    ensures HandlesGathered(file, g', k + 1)
  {
  }

  lemma SkippedLater(nodes: seq<Node>, skipped: set<int>, k: nat)
    requires Tree(nodes) && k < |nodes| && SkippedOk(nodes, skipped, k) && AP.Outside(nodes, skipped, k)
    ensures SkippedOk(nodes, skipped, k + 1)
  {
  }

  lemma {:induction false} GatherFromKeeps(file: AP.File, g: Gather, k: nat)
    requires Tree(file.nodes) && k <= |file.nodes| && Gathered(file, g, k)
    requires GatherFrom(file, g, k).Ok?
    ensures Gathered(file, GatherFrom(file, g, k).value, |file.nodes|)
    decreases |file.nodes| - k
  {
    if k < |file.nodes| {
      GatherStepKeeps(file, g, k);
      GatherFromKeeps(file, GatherStep(file, g, k).value, k + 1);
    }
  }

  /** A walk from nothing collects checks outside every recorded handle block. */
  lemma GatherSound(file: AP.File, errNames: map<int, string>, lists: map<int, seq<AP.Piece>>)
    requires Tree(file.nodes) && errNames == map[]
    requires GatherFrom(file, Gather(errNames, lists, {}, [], {}), 0).Ok?
    ensures var g := GatherFrom(file, Gather(errNames, lists, {}, [], {}), 0).value;
            Gathered(file, g, |file.nodes|) &&
            forall i, h :: 0 <= i < |g.checks| && h in g.errNames ==> !Within(file.nodes, g.checks[i], h)
  {
    var g0 := Gather(errNames, lists, {}, [], {});
    GatherFromKeeps(file, g0, 0);
    var g := GatherFrom(file, g0, 0).value;
    forall i, h | 0 <= i < |g.checks| && h in g.errNames
      ensures !Within(file.nodes, g.checks[i], h)
    {
      AP.OutsideNotWithin(file.nodes, g.skipped, g.checks[i], h);
    }
  }

  lemma {:induction false} GatherFromLists(file: AP.File, g: Gather, k: nat)
    requires Tree(file.nodes) && k <= |file.nodes|
    requires GatherFrom(file, g, k).Ok?
    ensures AP.FromLists(g.lists, GatherFrom(file, g, k).value.lists)
    decreases |file.nodes| - k
  {
    if k < |file.nodes| {
      var g' := GatherStep(file, g, k).value;
      GatherFromLists(file, g', k + 1);
      assert AP.FromLists(g.lists, g'.lists);
    }
  }

  // ---------------------------------------------------------------------------
  // buildHandlerChains: from the statement of each check, the walk back over
  // the statements before it, keeping the handle blocks met.

  /** The handle blocks among stmts, in order; a handle marker on anything but
      a block is fatal. */
  function Handles(file: AP.File, stmts: seq<int>): (r: Result<seq<int>>)
    ensures r.Err? ==> r.msg == HandleNotBlock
  {
    if |stmts| == 0 then Ok([])
    else
      var x := stmts[0];
      if BadHandle(file, x) then Err(HandleNotBlock)
      else match Handles(file, stmts[1..])
        case Err(m) => Err(m)
        case Ok(r) => if IsHandle(file, x) then Ok([x] + r) else Ok(r)
  }

  /** The chain fails exactly when some statement has a handle marker but is
      not a block; otherwise it holds the statements with a handle marker, all
      blocks, in the order met. */
  lemma {:induction false} HandlesMeaning(file: AP.File, stmts: seq<int>)
    ensures Handles(file, stmts).Ok? <==> forall i :: 0 <= i < |stmts| ==> !BadHandle(file, stmts[i])
    ensures Handles(file, stmts).Ok? ==>
              var r := Handles(file, stmts).value;
              (forall h :: h in r <==> h in stmts && IsHandle(file, h)) &&
              (forall h :: h in r ==> 0 <= h < |file.nodes| && file.nodes[h].kind == BlockStmt)
  {
    if |stmts| > 0 {
      HandlesMeaning(file, stmts[1..]);
      assert forall h :: h in stmts <==> h == stmts[0] || h in stmts[1..];
      assert forall i :: 0 < i < |stmts| ==> stmts[i] == stmts[1..][i - 1];
    }
  }

  /** A node at a handle marker. */
  predicate IsHandle(file: AP.File, x: int)
  {
    0 <= x < |file.nodes| && file.nodes[x].pos in file.handleMap
  }

  /** A handle marker on something other than a block. */
  predicate BadHandle(file: AP.File, x: int)
  {
    IsHandle(file, x) && file.nodes[x].kind != BlockStmt
  }

  /** The statements the walk meets from statement s: s, then what was
      visible before it, nearest first. */
  function Walked(nodes: seq<Node>, s: int): seq<int>
    requires Tree(nodes) && 0 <= s < |nodes|
  {
    if Listed(nodes, s) then Reversed(Hist(nodes, s)) else [s]
  }

  function WalkedFrom(nodes: seq<Node>, s: Option<int>): seq<int>
    requires Tree(nodes)
  {
    if s.Some? && 0 <= s.value < |nodes| then Walked(nodes, s.value) else []
  }

  /** The handler chain of a check whose statement is s. */
  function ChainOf(file: AP.File, s: Option<int>): Result<seq<int>>
    requires Tree(file.nodes)
  {
    Handles(file, WalkedFrom(file.nodes, s))
  }

  /** One step back: the walk from s is s, then the walk from its predecessor. */
  lemma WalkedStep(nodes: seq<Node>, st: map<int, int>, s: int)
    requires Tree(nodes) && 0 <= s < |nodes| && StmtTree(nodes, st)
    ensures s in st ==> 0 <= st[s] < s
    ensures Walked(nodes, s) == [s] + WalkedFrom(nodes, if s in st then Some(st[s]) else None)
  {
    if Listed(nodes, s) {
      var h := Hist(nodes, s);
      HistLast(nodes, s);
      if PredOf(nodes, s).Some? {
        var y := PredOf(nodes, s).value;
        PredOfHist(nodes, s);
        assert h == h[..|h| - 1] + [s];
        ReversedSnoc(h[..|h| - 1], s);
      } else {
        assert h == [s];
        assert Reversed(h) == [s];
      }
    }
  }

  /** What was visible at x is in source order. */
  lemma HistIncreasing(nodes: seq<Node>, x: int, i: int, j: int)
    requires Tree(nodes) && Listed(nodes, x) && 0 <= i < j < |Hist(nodes, x)|
    ensures Hist(nodes, x)[i] < Hist(nodes, x)[j]
  {
    var h := Hist(nodes, x);
    var a, b := h[i], h[j];
    HistPrefix(nodes, x, i);
    HistPrefix(nodes, x, j);
    var ha, hb := Hist(nodes, a), Hist(nodes, b);
    assert |ha| == i + 1 && |hb| == j + 1 && hb[i] == a;
    assert a != b;
    HistVisible(nodes, b, i);
    assert a <= b;
  }

  /** What was visible at the i-th statement visible at x is the first i + 1 of them. */
  lemma HistPrefix(nodes: seq<Node>, x: int, i: int)
    requires Tree(nodes) && Listed(nodes, x) && 0 <= i < |Hist(nodes, x)|
    ensures Listed(nodes, Hist(nodes, x)[i]) && Hist(nodes, Hist(nodes, x)[i]) == Hist(nodes, x)[..i + 1]
  {
    var c := BlockAbove(nodes, x).value;
    assert Hist(nodes, x) == ListAt(nodes, c, x + 1);
    ListAtPrefix(nodes, c, x + 1, i);
  }

  /** The handler chain of a check whose statement s has a block above it:
      exactly the handle blocks visible at s (s itself, or a statement before
      it in s's block or in an enclosing block), nearest first. */
  lemma ChainVisible(file: AP.File, s: int)
    requires Tree(file.nodes) && Listed(file.nodes, s) && ChainOf(file, Some(s)).Ok?
    ensures var chain := ChainOf(file, Some(s)).value;
            (forall h :: h in chain <==> h in Hist(file.nodes, s) && IsHandle(file, h)) &&
            (forall h :: h in chain ==> Listed(file.nodes, h) && file.nodes[h].kind == BlockStmt && h <= s &&
                                        Within(file.nodes, s, BlockAbove(file.nodes, h).value)) &&
            (forall i, j :: 0 <= i < j < |chain| ==> chain[i] > chain[j])
  {
    var nodes := file.nodes;
    var h := Hist(nodes, s);
    var w := Reversed(h);
    assert ChainOf(file, Some(s)) == Handles(file, w);
    var chain := Handles(file, w).value;
    HandlesMeaning(file, w);
    ReversedElems(h);
    assert forall y :: y in chain ==> y in w;
    ChainPlaces(file, s, chain);
    ReversedDecreasing(nodes, s);
    HandlesOrdered(file, w);
  }

  lemma ReversedElems(h: seq<int>)
    ensures forall y :: y in Reversed(h) <==> y in h
  {
    var w := Reversed(h);
    forall y | y in w ensures y in h { var i :| 0 <= i < |w| && w[i] == y; assert h[|h| - 1 - i] == y; }
    forall y | y in h ensures y in w { var i :| 0 <= i < |h| && h[i] == y; assert w[|h| - 1 - i] == y; }
  }

  lemma ChainPlaces(file: AP.File, s: int, chain: seq<int>)
    requires Tree(file.nodes) && Listed(file.nodes, s)
    requires forall y :: y in chain ==> y in Hist(file.nodes, s)
    ensures forall y :: y in chain ==> Listed(file.nodes, y) && y <= s && Within(file.nodes, s, BlockAbove(file.nodes, y).value)
  {
    var h := Hist(file.nodes, s);
    forall y | y in chain
      ensures Listed(file.nodes, y) && y <= s && Within(file.nodes, s, BlockAbove(file.nodes, y).value)
    {
      var i :| 0 <= i < |h| && h[i] == y;
      HistVisible(file.nodes, s, i);
    }
  }

  lemma ReversedDecreasing(nodes: seq<Node>, s: int)
    requires Tree(nodes) && Listed(nodes, s)
    ensures forall i, j :: 0 <= i < j < |Reversed(Hist(nodes, s))| ==> Reversed(Hist(nodes, s))[i] > Reversed(Hist(nodes, s))[j]
  {
    var h := Hist(nodes, s);
    var w := Reversed(h);
    forall i, j | 0 <= i < j < |w|
      ensures w[i] > w[j]
    {
      HistIncreasing(nodes, s, |h| - 1 - j, |h| - 1 - i);
    }
  }

  /** Keeping some statements of a list in strictly decreasing order keeps the order. */
  lemma {:induction false} HandlesOrdered(file: AP.File, stmts: seq<int>)
    requires forall i, j :: 0 <= i < j < |stmts| ==> stmts[i] > stmts[j]
    requires Handles(file, stmts).Ok?
    ensures var r := Handles(file, stmts).value;
            forall i, j :: 0 <= i < j < |r| ==> r[i] > r[j]
  {
    if |stmts| > 0 {
      HandlesOrdered(file, stmts[1..]);
      HandlesMeaning(file, stmts[1..]);
      var rest := Handles(file, stmts[1..]).value;
      forall y | y in rest
        ensures y < stmts[0]
      {
        var i :| 0 <= i < |stmts[1..]| && stmts[1..][i] == y;
        assert y == stmts[i + 1];
      }
      var r := Handles(file, stmts).value;
      if IsHandle(file, stmts[0]) {
        assert r == [stmts[0]] + rest;
        forall i, j | 0 <= i < j < |r|
          ensures r[i] > r[j]
        {
          assert r[j] == rest[j - 1] && rest[j - 1] in rest;
          if i > 0 {
            assert r[i] == rest[i - 1];
          }
        }
      } else {
        assert r == rest;
      }
    }
  }

  /** What buildHandlerChains records about one check. */
  datatype CheckInfo = CheckInfo(fun: Option<int>, block: Option<int>, stmt: Option<int>, chain: seq<int>)

  /** The record of check c, or the failure of its chain. */
  function InfoOf(file: AP.File, c: int): Result<CheckInfo>
    requires Tree(file.nodes) && 0 <= c < |file.nodes|
  {
    var nodes := file.nodes;
    match ChainOf(file, StmtOf(nodes, c))
    case Err(m) => Err(m)
    case Ok(chain) => Ok(CheckInfo(FuncAbove(nodes, c), BlockAbove(nodes, c), StmtOf(nodes, c), chain))
  }

  /** The records of the first i collected checks, each one's chain found. */
  ghost predicate RecordsUpTo(file: AP.File, found: seq<int>, i: nat, recs: map<int, CheckInfo>)
    requires Tree(file.nodes) && i <= |found|
    requires forall j :: 0 <= j < |found| ==> 0 <= found[j] < |file.nodes|
  {
    (forall k :: k in recs <==> k in found[..i]) &&
    forall j :: 0 <= j < i ==> InfoOf(file, found[j]).Ok? && recs[found[j]] == InfoOf(file, found[j]).value
  }

  lemma RecordsStep(file: AP.File, found: seq<int>, i: nat, recs: map<int, CheckInfo>, rec: CheckInfo)
    requires Tree(file.nodes) && i < |found|
    requires forall j :: 0 <= j < |found| ==> 0 <= found[j] < |file.nodes|
    requires RecordsUpTo(file, found, i, recs) && InfoOf(file, found[i]) == Ok(rec)
    ensures RecordsUpTo(file, found, i + 1, recs[found[i] := rec])
  {
    var recs' := recs[found[i] := rec];
    assert found[..i + 1] == found[..i] + [found[i]];
    forall j | 0 <= j < i + 1
      ensures InfoOf(file, found[j]).Ok? && recs'[found[j]] == InfoOf(file, found[j]).value
    {
      if found[j] == found[i] {
        assert InfoOf(file, found[j]) == Ok(rec);
      }
    }
  }

  // ---------------------------------------------------------------------------
  // consumeTypedChecks: a postorder walk expanding every check the type
  // checker has typed into an assignment of its values and an `if` on its
  // error running the check's handler chain.

  /** The message for a last value that is not an error, spelled as the
      source spells it. */
  const LatsNotError := "lats value of check expression must be error"
  /** The runtime's message when a counter of a nil scope map is bumped. */
  const NilMapAssign := "assignment to entry in nil map"

  /** Each element type turned into an identifier fragment, in order; the
      first failure wins. */
  function VarNames(ts: seq<string>): (r: Result<seq<string>>)
    ensures r.Ok? ==> |r.value| == |ts| && forall i :: 0 <= i < |ts| ==> TypeVar.TypeToVar(ts[i]) == Ok(r.value[i])
    ensures r.Err? ==> exists i :: 0 <= i < |ts| && TypeVar.TypeToVar(ts[i]) == Err(r.msg)
  {
    if |ts| == 0 then Ok([])
    else match TypeVar.TypeToVar(ts[0])
      case Err(m) => Err(m)
      case Ok(h) =>
        match VarNames(ts[1..])
        case Err(m) => assert ts[1..][0] in ts; assert exists i :: 0 < i < |ts| && TypeVar.TypeToVar(ts[i]) == Err(m); Err(m)
        case Ok(rest) =>
          assert forall i :: 1 <= i < |ts| ==> ts[i] == ts[1..][i - 1];
          Ok([h] + rest)
  }

  /** The loop naming the elements of a tuple. */
  method TupleVars(ts: seq<string>) returns (r: Result<seq<string>>)
    ensures r == VarNames(ts)
  {
    var names: seq<string> := [];
    var i := 0;
    assert ts[0..] == ts;
    assert PrependAll([], VarNames(ts)) == VarNames(ts) by {
      if VarNames(ts).Ok? {
        assert [] + VarNames(ts).value == VarNames(ts).value;
      }
    }
    while i < |ts|
      invariant 0 <= i <= |ts|
      invariant VarNames(ts) == PrependAll(names, VarNames(ts[i..]))
    {
      var n := TypeVar.TypeToVar(ts[i]);
      assert ts[i..][0] == ts[i] && ts[i..][1..] == ts[i + 1..];
      if n.Err? {
        return Err(n.msg);
      }
      PrependAllTwice(names, [n.value], VarNames(ts[i + 1..]));
      names := names + [n.value];
      i := i + 1;
    }
    PrependAllEmpty(names);
    return Ok(names);
  }

  /** The identifier fragment of each value of the checked expression, the
      last of which must be the error. */
  function ValueTypes(t: TypeShape): (r: Result<seq<string>>)
    ensures r.Ok? ==> |r.value| > 0 && r.value[|r.value| - 1] == "error"
    ensures t.Named? ==> r == Ok(["error"])
    ensures t.OtherShape? ==> r == Err(NotNamedOrTuple)
    ensures t == Tuple([]) ==> r == Err(NoValues)
  {
    match t
    // A named type's single fragment passes both checks below.
    case Named => Ok(["error"])
    case Tuple(elems) => EndsWithError(VarNames(elems))
    case OtherShape => Err(NotNamedOrTuple)
  }

  /** The two checks on the fragments: at least one, and the last is the error. */
  function EndsWithError(names: Result<seq<string>>): (r: Result<seq<string>>)
    ensures r.Ok? ==> |r.value| > 0 && r.value[|r.value| - 1] == "error"
    ensures names == Ok([]) ==> r == Err(NoValues)
  {
    if names.Err? then names
    else if |names.value| == 0 then Err(NoValues)
    else if names.value[|names.value| - 1] != "error" then Err(LatsNotError)
    else names
  }

  /** A tuple's fragments are those of its elements, one each, in order. */
  lemma ValueTypesOfTuple(elems: seq<string>)
    requires ValueTypes(Tuple(elems)).Ok?
    ensures var r := ValueTypes(Tuple(elems)).value;
            |r| == |elems| && forall i :: 0 <= i < |elems| ==> TypeVar.TypeToVar(elems[i]) == Ok(r[i])
  {
  }

  /** The switch on the type and the two checks after it. */
  method TypeVars(t: TypeShape) returns (r: Result<seq<string>>)
    ensures r == ValueTypes(t)
  {
    var names: seq<string>;
    match t {
      case Named => names := ["error"];
      case Tuple(ts) =>
        var vr := TupleVars(ts);
        if vr.Err? {
          return vr;
        }
        names := vr.value;
      case OtherShape => return Err(NotNamedOrTuple);
    }
    if |names| == 0 {
      return Err(NoValues);
    }
    if names[|names| - 1] != "error" {
      return Err(LatsNotError);
    }
    return Ok(names);
  }

  /** The state of the walk: the checks still to expand, the blocks' name
      counters, the block lists, the expression statements to delete, the edits
      of each expanded check's place, and the statements holding an untyped
      check (a check without a statement counts under None). */
  datatype Pass = Pass(
    checks: map<int, CheckInfo>,
    scopes: map<int, map<string, nat>>,
    lists: map<int, seq<AP.Piece>>,
    toDelete: set<int>,
    edits: map<int, Action>,
    interrupted: set<Option<int>>)

  /** The handler body: the statements of the chain's handle blocks, nearest
      first, each renamed to the check's error name, trimmed after the first
      terminating statement. */
  function HandlerBody(file: AP.File, errNames: map<int, string>, chain: seq<int>, errName: string): seq<Stmt>
  {
    TrimList(Chain(AP.HandlersOf(file, errNames, chain), errName)).1
  }

  /** The generated assignment and `if` for check k. */
  function Generated(file: AP.File, errNames: map<int, string>, k: int, ci: CheckInfo, lhs: seq<string>, errName: string): seq<AP.Piece>
  {
    [AP.GenAssign(lhs, k), AP.GenIf(errName, HandlerBody(file, errNames, ci.chain, errName))]
  }

  /** Expanding check k recorded as ci whose values have the given type
      fragments, once it has left the set of checks to expand. */
  function Expanded(file: AP.File, errNames: map<int, string>, prefix: string, p: Pass, k: int, ci: CheckInfo, types: seq<string>)
    : Result<Pass>
    requires Tree(file.nodes) && 0 <= k < |file.nodes| && |types| > 0
  {
    if ci.block.None? || ci.block.value !in p.scopes then Err(NilMapAssign)
    else
      var b := ci.block.value;
      var names := FreshNames(prefix, types, p.scopes[b]);
      var scopes := p.scopes[b := Bumped(p.scopes[b], types)];
      var errName := names[|names| - 1];
      match ParentRule(AP.ParentKindOf(file.nodes, k), names)
      case Err(m) => Err(m)
      case Ok((action, lhs)) =>
        var gen := Generated(file, errNames, k, ci, lhs, errName);
        Ok(Pass(p.checks, scopes,
                if ci.stmt.Some? && b in p.lists then p.lists[b := Inserted(p.lists[b], AP.Orig(ci.stmt.value), gen)] else p.lists,
                if action == DeleteStmt then p.toDelete + {file.nodes[k].parent} else p.toDelete,
                if action.SetArgs? || action.ReplaceBy? then p.edits[k := action] else p.edits,
                p.interrupted))
  }

  /** The postorder callback on node k. */
  function ConsumeStep(file: AP.File, errNames: map<int, string>, prefix: string, info: map<int, TypeShape>, p: Pass, k: int)
    : Result<Pass>
    requires Tree(file.nodes)
  {
    if !(0 <= k < |file.nodes|) || !IsExpr(file.nodes[k].kind) || k !in p.checks then Ok(p)
    else
      var ci := p.checks[k];
      if ci.stmt in p.interrupted then Ok(p)
      else if k !in info then Ok(p.(interrupted := p.interrupted + {ci.stmt}))
      else match ValueTypes(info[k])
        case Err(m) => Err(m)
        case Ok(types) => Expanded(file, errNames, prefix, p.(checks := p.checks - {k}), k, ci, types)
  }

  /** The walk over post[i..], the nodes in the order the postorder walk finishes them. */
  function ConsumeFrom(file: AP.File, errNames: map<int, string>, prefix: string, info: map<int, TypeShape>,
                       p: Pass, post: seq<int>, i: nat): Result<Pass>
    requires Tree(file.nodes) && i <= |post|
    decreases |post| - i
  {
    if i == |post| then Ok(p)
    else match ConsumeStep(file, errNames, prefix, info, p, post[i])
      case Err(m) => Err(m)
      case Ok(p') => ConsumeFrom(file, errNames, prefix, info, p', post, i + 1)
  }

  /** Every generated `if` body is already trimmed: nothing follows its first
      terminating statement. */
  ghost predicate BodiesTrimmed(lists: map<int, seq<AP.Piece>>)
  {
    forall b, x :: b in lists && x in lists[b] && x.GenIf? ==> TrimList(x.body).1 == x.body
  }

  /** The parsed lists hold no generated `if`. */
  lemma PlainTrimmed(nodes: seq<Node>)
    ensures BodiesTrimmed(AP.StmtLists(nodes))
  {
    var lists := AP.StmtLists(nodes);
    forall b: int, x: AP.Piece | b in lists && x in lists[b]
      ensures !x.GenIf?
    {
      AP.ChildrenOrig(nodes, b, |nodes|, x);
    }
    assert BodiesTrimmed(lists);
  }

  /** Dropping statements keeps every generated body trimmed. */
  lemma FromListsTrimmed(a: map<int, seq<AP.Piece>>, b: map<int, seq<AP.Piece>>)
    requires AP.FromLists(a, b) && BodiesTrimmed(a)
    ensures BodiesTrimmed(b)
  {
  }

  lemma ExpandedKeeps(file: AP.File, errNames: map<int, string>, prefix: string, p: Pass, k: int, ci: CheckInfo, types: seq<string>)
    requires Tree(file.nodes) && 0 <= k < |file.nodes| && |types| > 0
    requires Expanded(file, errNames, prefix, p, k, ci, types).Ok?
    ensures var p' := Expanded(file, errNames, prefix, p, k, ci, types).value;
            p'.checks == p.checks && p'.interrupted == p.interrupted && AP.SameOrigs(p.lists, p'.lists) &&
            (BodiesTrimmed(p.lists) ==> BodiesTrimmed(p'.lists))
  {
    var p' := Expanded(file, errNames, prefix, p, k, ci, types).value;
    var b := ci.block.value;
    var names := FreshNames(prefix, types, p.scopes[b]);
    var errName := names[|names| - 1];
    var (action, lhs) := ParentRule(AP.ParentKindOf(file.nodes, k), names).value;
    var gen := Generated(file, errNames, k, ci, lhs, errName);
    assert AP.Origs(gen) == [] by {
      assert gen[1..] == [gen[1]] && [gen[1]][1..] == [];
      assert AP.Origs([gen[1]]) == [] + AP.Origs([]);
    }
    TrimListIdempotent(Chain(AP.HandlersOf(file, errNames, ci.chain), errName));
    if ci.stmt.Some? && b in p.lists {
      var list := p.lists[b];
      AP.OrigsInserted(list, AP.Orig(ci.stmt.value), gen);
      assert p'.lists == p.lists[b := Inserted(list, AP.Orig(ci.stmt.value), gen)];
      if BodiesTrimmed(p.lists) {
        forall b', x | b' in p'.lists && x in p'.lists[b'] && x.GenIf?
          ensures TrimList(x.body).1 == x.body
        {
          if b' == b {
            AP.InsertedElems(list, AP.Orig(ci.stmt.value), gen, x);
          }
        }
      }
    }
  }

  /** One step of the walk only expands checks: a check leaves the set only
      when the type checker typed it, the block lists only gain generated
      statements, and every generated body is trimmed. */
  lemma ConsumeStepKeeps(file: AP.File, errNames: map<int, string>, prefix: string, info: map<int, TypeShape>, p: Pass, k: int)
    requires Tree(file.nodes)
    requires ConsumeStep(file, errNames, prefix, info, p, k).Ok?
    ensures var p' := ConsumeStep(file, errNames, prefix, info, p, k).value;
            p'.checks.Keys <= p.checks.Keys && (forall e :: e in p.checks && e !in p'.checks ==> e in info) &&
            AP.SameOrigs(p.lists, p'.lists) && (BodiesTrimmed(p.lists) ==> BodiesTrimmed(p'.lists))
  {
    if 0 <= k < |file.nodes| && IsExpr(file.nodes[k].kind) && k in p.checks && p.checks[k].stmt !in p.interrupted && k in info {
      var types := ValueTypes(info[k]).value;
      ExpandedKeeps(file, errNames, prefix, p.(checks := p.checks - {k}), k, p.checks[k], types);
    }
  }

  lemma {:induction false} ConsumeFromKeeps(file: AP.File, errNames: map<int, string>, prefix: string, info: map<int, TypeShape>,
                                            p: Pass, post: seq<int>, i: nat)
    requires Tree(file.nodes) && i <= |post|
    requires ConsumeFrom(file, errNames, prefix, info, p, post, i).Ok?
    ensures var p' := ConsumeFrom(file, errNames, prefix, info, p, post, i).value;
            p'.checks.Keys <= p.checks.Keys && (forall e :: e in p.checks && e !in p'.checks ==> e in info) &&
            AP.SameOrigs(p.lists, p'.lists) && (BodiesTrimmed(p.lists) ==> BodiesTrimmed(p'.lists))
    decreases |post| - i
  {
    if i < |post| {
      ConsumeStepKeeps(file, errNames, prefix, info, p, post[i]);
      var q := ConsumeStep(file, errNames, prefix, info, p, post[i]).value;
      ConsumeFromKeeps(file, errNames, prefix, info, q, post, i + 1);
    }
  }

  // ---------------------------------------------------------------------------
  // transformContext: the checks still to expand with their records, the
  // expression statements to delete and the error names of the handle blocks;
  // beside them the blocks' name counters (shared by the check records of a
  // block) and the file's block lists and edits as the passes change them.

  /** The chain prefix put in front of the rest of the walk's result. */
  function Then(chain: seq<int>, r: Result<seq<int>>): Result<seq<int>>
  {
    match r
    case Err(m) => Err(m)
    case Ok(v) => Ok(chain + v)
  }

  lemma ThenAssoc(a: seq<int>, b: seq<int>, r: Result<seq<int>>)
    ensures Then(a, Then(b, r)) == Then(a + b, r)
    ensures Then([], r) == r
  {
    if r.Ok? {
      assert a + (b + r.value) == (a + b) + r.value;
      assert [] + r.value == r.value;
    }
  }

  /** One step of the walk back: a handle marker on a non-block fails, a
      handle block joins the chain, and the walk goes on from the
      predecessor. */
  lemma ChainStep(file: AP.File, st: map<int, int>, x: int)
    requires Tree(file.nodes) && 0 <= x < |file.nodes| && StmtTree(file.nodes, st)
    ensures x in st ==> 0 <= st[x] < x
    ensures var next := if x in st then Some(st[x]) else None;
            ChainOf(file, Some(x)) ==
              if BadHandle(file, x) then Err(HandleNotBlock)
              else Then(if IsHandle(file, x) then [x] else [], ChainOf(file, next))
  {
    var nodes := file.nodes;
    var next := if x in st then Some(st[x]) else None;
    WalkedStep(nodes, st, x);
    var w := [x] + WalkedFrom(nodes, next);
    assert w[0] == x && w[1..] == WalkedFrom(nodes, next);
    ThenAssoc([], [], ChainOf(file, next));
  }

  class TransformContext {
    const file: AP.File
    var checks: map<int, CheckInfo>
    var toDelete: set<int>
    var handlerErrNames: map<int, string>
    var scopes: map<int, map<string, nat>>
    var lists: map<int, seq<AP.Piece>>
    var edits: map<int, Action>

    constructor (file: AP.File)
      ensures this.file == file
      ensures checks == map[] && toDelete == {} && handlerErrNames == map[] && scopes == map[]
      ensures lists == AP.StmtLists(file.nodes) && edits == map[]
    {
      this.file := file;
      checks, toDelete, handlerErrNames, scopes := map[], {}, map[], map[];
      lists, edits := AP.StmtLists(file.nodes), map[];
    }

    function GatherOf(collected: set<int>, found: seq<int>, skipped: set<int>): Gather
      reads this
    {
      Gather(handlerErrNames, lists, collected, found, skipped)
    }

    /** The preorder walk recording the handle blocks (deleting them from
        their lists) and collecting the checks, in source order. */
    method CollectChecksAndHandles() returns (r: Result<seq<int>>)
      requires Tree(file.nodes)
      modifies this
      ensures match GatherFrom(file, old(GatherOf({}, [], {})), 0)
              case Err(m) => r == Err(m)
              case Ok(g) => r == Ok(g.checks) && handlerErrNames == g.errNames && lists == g.lists
      ensures checks == old(checks) && toDelete == old(toDelete) && scopes == old(scopes) && edits == old(edits)
    {
      var collected: set<int>, found: seq<int>, skipped: set<int> := {}, [], {};
      for k := 0 to |file.nodes|
        invariant GatherFrom(file, old(GatherOf({}, [], {})), 0) == GatherFrom(file, GatherOf(collected, found, skipped), k)
        invariant checks == old(checks) && toDelete == old(toDelete) && scopes == old(scopes) && edits == old(edits)
      {
        var e;
        e, collected, found, skipped := GatherOne(k, collected, found, skipped);
        if e.Some? {
          return Err(e.value);
        }
      }
      return Ok(found);
    }

    /** The walk's callback on node k. */
    method GatherOne(k: nat, collected: set<int>, found: seq<int>, skipped: set<int>)
      returns (err: Option<string>, collected': set<int>, found': seq<int>, skipped': set<int>)
      requires Tree(file.nodes) && k < |file.nodes|
      modifies this
      ensures match GatherStep(file, old(GatherOf(collected, found, skipped)), k)
              case Err(m) => err == Some(m)
              case Ok(g) => err == None && GatherOf(collected', found', skipped') == g
      ensures checks == old(checks) && toDelete == old(toDelete) && scopes == old(scopes) && edits == old(edits)
    {
      var nodes := file.nodes;
      err, collected', found', skipped' := None, collected, found, skipped;
      var node := nodes[k];
      if node.parent >= 0 && node.parent in skipped {
        skipped' := skipped + {k};
        return;
      }
      if node.pos in file.handleMap {
        if node.kind != BlockStmt {
          return Some(HandleNotBlock), collected, found, skipped;
        }
        if node.parent < 0 || !HoldsList(nodes[node.parent].kind) {
          return Some(AP.DeleteNotInSlice), collected, found, skipped;
        }
        handlerErrNames := handlerErrNames[k := file.handleMap[node.pos]];
        if node.parent in lists {
          lists := lists[node.parent := AP.Drop(lists[node.parent], {k})];
        }
        skipped' := skipped + {k};
        return;
      }
      if node.pos in file.checkMap {
        if !IsExpr(node.kind) || node.kind == BinaryExpr || node.kind == KeyValueExpr || node.pos in collected {
          return;
        }
        collected' := collected + {node.pos};
        found' := found + [k];
      }
    }

    /** The walk back from a check's statement over the statement tree,
        keeping the handle blocks met. */
    method ChainFrom(st: map<int, int>, s: Option<int>) returns (r: Result<seq<int>>)
      requires Tree(file.nodes) && StmtTree(file.nodes, st)
      requires s.Some? ==> 0 <= s.value < |file.nodes|
      ensures r == ChainOf(file, s)
    {
      var nodes := file.nodes;
      var stmt := s;
      var chain: seq<int> := [];
      ThenAssoc([], [], ChainOf(file, s));
      while stmt.Some?
        invariant stmt.Some? ==> 0 <= stmt.value < |nodes|
        invariant ChainOf(file, s) == Then(chain, ChainOf(file, stmt))
        decreases if stmt.Some? then stmt.value + 1 else 0
      {
        var x := stmt.value;
        var next := if x in st then Some(st[x]) else None;
        ChainStep(file, st, x);
        if nodes[x].pos in file.handleMap {
          if nodes[x].kind != BlockStmt {
            return Err(HandleNotBlock);
          }
          ThenAssoc(chain, [x], ChainOf(file, next));
          chain := chain + [x];
        } else {
          ThenAssoc(chain, [], ChainOf(file, next));
        }
        stmt := next;
      }
      assert chain + [] == chain;
      return Ok(chain);
    }

    /** What the loop of buildHandlerChains records about check c. */
    method CheckRecord(info: TreeInfo, st: map<int, int>, c: int) returns (r: Result<CheckInfo>)
      requires Tree(file.nodes) && StmtTree(file.nodes, st) && 0 <= c < |file.nodes| && IsExpr(file.nodes[c].kind)
      requires InfoAt(file.nodes, info, c)
      ensures r == InfoOf(file, c)
    {
      var stmt := AP.Get(info.exprTree, c);
      var chain := ChainFrom(st, stmt);
      if chain.Err? {
        return Err(chain.msg);
      }
      return Ok(CheckInfo(AP.Get(info.funcTree, c), AP.Get(info.blockTree, c), stmt, chain.value));
    }

    /** A record for every collected check: its function, block and
        statement, and its handler chain. */
    method BuildHandlerChains(info: TreeInfo, st: map<int, int>, found: seq<int>) returns (err: Option<string>)
      requires Tree(file.nodes) && StmtTree(file.nodes, st)
      requires forall k :: 0 <= k < |file.nodes| ==> InfoAt(file.nodes, info, k)
      requires forall i :: 0 <= i < |found| ==> 0 <= found[i] < |file.nodes| && IsExpr(file.nodes[found[i]].kind)
      modifies this
      ensures err.None? <==> forall i :: 0 <= i < |found| ==> InfoOf(file, found[i]).Ok?
      ensures err.Some? ==> err.value == HandleNotBlock
      ensures err.None? ==>
                scopes == info.scopeMap &&
                (forall k :: k in checks <==> k in old(checks) || k in found) &&
                (forall i :: 0 <= i < |found| ==> checks[found[i]] == InfoOf(file, found[i]).value) &&
                (forall k :: k in old(checks) && k !in found ==> checks[k] == old(checks)[k])
      ensures toDelete == old(toDelete) && handlerErrNames == old(handlerErrNames)
      ensures lists == old(lists) && edits == old(edits)
    {
      var recs := CheckRecords(info, st, found);
      if recs.Err? {
        return Some(recs.msg);
      }
      checks := checks + recs.value;
      scopes := info.scopeMap;
      return None;
    }

    /** The loop of buildHandlerChains: the record of every collected check,
        or the failure of the first chain that meets a handle marker on
        something other than a block. */
    method CheckRecords(info: TreeInfo, st: map<int, int>, found: seq<int>) returns (r: Result<map<int, CheckInfo>>)
      requires Tree(file.nodes) && StmtTree(file.nodes, st)
      requires forall k :: 0 <= k < |file.nodes| ==> InfoAt(file.nodes, info, k)
      requires forall i :: 0 <= i < |found| ==> 0 <= found[i] < |file.nodes| && IsExpr(file.nodes[found[i]].kind)
      ensures r.Ok? <==> forall i :: 0 <= i < |found| ==> InfoOf(file, found[i]).Ok?
      ensures r.Err? ==> r.msg == HandleNotBlock
      ensures r.Ok? ==> (forall k :: k in r.value <==> k in found) &&
                        forall i :: 0 <= i < |found| ==> r.value[found[i]] == InfoOf(file, found[i]).value
    {
      var nodes := file.nodes;
      var recs: map<int, CheckInfo> := map[];
      for i := 0 to |found|
        invariant RecordsUpTo(file, found, i, recs)
      {
        var c := found[i];
        assert InfoAt(nodes, info, c);
        var rec := CheckRecord(info, st, c);
        if rec.Err? {
          return Err(rec.msg);
        }
        RecordsStep(file, found, i, recs, rec.value);
        recs := recs[c := rec.value];
      }
      assert found[..|found|] == found;
      return Ok(recs);
    }

    function PassOf(interrupted: set<Option<int>>): Pass
      reads this
    {
      Pass(checks, scopes, lists, toDelete, edits, interrupted)
    }

    /** The postorder callback on node k. */
    method ConsumeOne(prefix: string, info: map<int, TypeShape>, k: int, interrupted: set<Option<int>>)
      returns (err: Option<string>, interrupted': set<Option<int>>)
      requires Tree(file.nodes)
      modifies this
      ensures match ConsumeStep(file, handlerErrNames, prefix, info, old(PassOf(interrupted)), k)
              case Err(m) => err == Some(m)
              case Ok(p) => err == None && PassOf(interrupted') == p
      ensures handlerErrNames == old(handlerErrNames)
    {
      interrupted' := interrupted;
      err := None;
      if !(0 <= k < |file.nodes|) || !IsExpr(file.nodes[k].kind) || k !in checks {
        return;
      }
      var ci := checks[k];
      if ci.stmt in interrupted {
        return;
      }
      if k !in info {
        interrupted' := interrupted + {ci.stmt};
        return;
      }
      checks := checks - {k};
      var types := TypeVars(info[k]);
      if types.Err? {
        return Some(types.msg), interrupted';
      }
      err := Expand(prefix, k, ci, types.value, interrupted);
    }

    /** Naming the values of check k, editing its place and inserting the
        generated statements before its statement. */
    method Expand(prefix: string, k: int, ci: CheckInfo, types: seq<string>, ghost interrupted: set<Option<int>>)
      returns (err: Option<string>)
      requires Tree(file.nodes) && 0 <= k < |file.nodes| && |types| > 0
      modifies this
      ensures match Expanded(file, handlerErrNames, prefix, old(PassOf(interrupted)), k, ci, types)
              case Err(m) => err == Some(m)
              case Ok(p) => err == None && PassOf(interrupted) == p
      ensures handlerErrNames == old(handlerErrNames)
    {
      if ci.block.None? || ci.block.value !in scopes {
        return Some(NilMapAssign);
      }
      var b := ci.block.value;
      var names, after := NameResults(prefix, types, scopes[b]);
      var errName := names[|names| - 1];
      var rule := ParentRule(AP.ParentKindOf(file.nodes, k), names);
      if rule.Err? {
        return Some(rule.msg);
      }
      var hl := ChainBody(AP.HandlersOf(file, handlerErrNames, ci.chain), errName);
      var body := TrimList(hl).1;
      var gen := [AP.GenAssign(rule.value.1, k), AP.GenIf(errName, body)];
      Apply(k, ci, rule.value.0, gen, scopes[b := after]);
      return None;
    }

    /** The loop copying the chain's handle blocks, each renamed to the
        check's error name. */
    method ChainBody(hs: seq<Handler>, errName: string) returns (hl: seq<Stmt>)
      ensures hl == Chain(hs, errName)
    {
      hl := [];
      for i := 0 to |hs|
        invariant hl + Chain(hs[i..], errName) == Chain(hs, errName)
      {
        assert hs[i..][0] == hs[i] && hs[i..][1..] == hs[i + 1..];
        hl := hl + RenameStmts(hs[i].list, hs[i].errName, errName);
      }
      assert hs[|hs|..] == [];
      assert hl + [] == hl;
    }

    /** Editing the check's place and inserting the generated statements. */
    method Apply(k: int, ci: CheckInfo, action: Action, gen: seq<AP.Piece>, sc: map<int, map<string, nat>>)
      requires Tree(file.nodes) && 0 <= k < |file.nodes| && ci.block.Some?
      modifies this
      ensures scopes == sc
      ensures var b := ci.block.value;
              lists == if ci.stmt.Some? && b in old(lists)
                       then old(lists)[b := Inserted(old(lists)[b], AP.Orig(ci.stmt.value), gen)] else old(lists)
      ensures toDelete == if action == DeleteStmt then old(toDelete) + {file.nodes[k].parent} else old(toDelete)
      ensures edits == if action.SetArgs? || action.ReplaceBy? then old(edits)[k := action] else old(edits)
      ensures checks == old(checks) && handlerErrNames == old(handlerErrNames)
    {
      var b := ci.block.value;
      var ed, del, ls := edits, toDelete, lists;
      if action.SetArgs? || action.ReplaceBy? {
        ed := edits[k := action];
      } else if action == DeleteStmt {
        del := toDelete + {file.nodes[k].parent};
      }
      if ci.stmt.Some? && b in lists {
        var list := InsertBefore(lists[b], AP.Orig(ci.stmt.value), gen);
        ls := lists[b := list];
      }
      scopes, edits, toDelete, lists := sc, ed, del, ls;
    }

    /** The postorder walk over the file. */
    method ConsumeTypedChecks(prefix: string, info: map<int, TypeShape>, post: seq<int>) returns (err: Option<string>)
      requires Tree(file.nodes)
      modifies this
      ensures match ConsumeFrom(file, handlerErrNames, prefix, info, old(PassOf({})), post, 0)
              case Err(m) => err == Some(m)
              case Ok(p) => err == None && PassOf({}) == p.(interrupted := {})
      ensures handlerErrNames == old(handlerErrNames)
    {
      var interrupted: set<Option<int>> := {};
      for i := 0 to |post|
        invariant ConsumeFrom(file, handlerErrNames, prefix, info, old(PassOf({})), post, 0) ==
                  ConsumeFrom(file, handlerErrNames, prefix, info, PassOf(interrupted), post, i)
        invariant handlerErrNames == old(handlerErrNames)
      {
        err, interrupted := ConsumeOne(prefix, info, post[i], interrupted);
        if err.Some? {
          return;
        }
      }
      return None;
    }

    /** Deleting the expression statements of checks whose values all went
        to the generated assignment. */
    method DeleteExprStmts() returns (err: Option<string>)
      requires Tree(file.nodes)
      modifies this
      ensures match AP.DeleteFrom(file.nodes, old(lists), old(toDelete), 0)
              case Err(m) => err == Some(m)
              case Ok((l, d)) => err == None && lists == l && toDelete == d
      ensures checks == old(checks) && scopes == old(scopes) && handlerErrNames == old(handlerErrNames) && edits == old(edits)
    {
      var nodes := file.nodes;
      for x := 0 to |nodes|
        invariant AP.DeleteFrom(nodes, old(lists), old(toDelete), 0) == AP.DeleteFrom(nodes, lists, toDelete, x)
        invariant checks == old(checks) && scopes == old(scopes) && handlerErrNames == old(handlerErrNames) && edits == old(edits)
      {
        if nodes[x].kind == ExprStmtNode && x in toDelete {
          var b := nodes[x].parent;
          if b < 0 || !HoldsList(nodes[b].kind) {
            return Some(AP.DeleteNotInSlice);
          }
          if b in lists {
            lists := lists[b := AP.Drop(lists[b], {x})];
          }
          toDelete := toDelete - {x};
        }
      }
      return None;
    }
  }

  // ---------------------------------------------------------------------------
  // transform2: tree information, statement tree, checks and handler chains
  // first; then expand and delete pass after pass, asking the type checker
  // anew each time, until no check is left or a pass leaves as many as the
  // one before (some check's type cannot be found, reported by undefined).

  /** The collected checks are expressions of the file. */
  lemma GatheredExprs(file: AP.File)
    requires Tree(file.nodes)
    requires GatherFrom(file, Gather(map[], AP.StmtLists(file.nodes), {}, [], {}), 0).Ok?
    ensures var g := GatherFrom(file, Gather(map[], AP.StmtLists(file.nodes), {}, [], {}), 0).value;
            forall i :: 0 <= i < |g.checks| ==> 0 <= g.checks[i] < |file.nodes| && IsExpr(file.nodes[g.checks[i]].kind)
  {
    GatherSound(file, map[], AP.StmtLists(file.nodes));
  }

  /** buildTreeInfo and lexicalStmtTree. */
  method TreeAndStmts(nodes: seq<Node>) returns (info: TreeInfo, st: map<int, int>)
    requires Tree(nodes)
    ensures forall k :: 0 <= k < |nodes| ==> InfoAt(nodes, info, k)
    ensures info.scopeMap == AP.FreshScopes(nodes, |nodes|)
    ensures StmtTree(nodes, st)
  {
    info := BuildTreeInfo(nodes);
    forall k | 0 <= k < |nodes|
      ensures AP.Get(info.blockTree, k) == BlockAbove(nodes, k)
    {
      assert InfoAt(nodes, info, k);
    }
    st := LexicalStmtTree(nodes, info);
  }

  /** The work before the passes: tree information, statement tree, handle
      blocks and checks, and a record for each check. */
  method Prepare(file: AP.File) returns (tc: TransformContext, err: Option<string>)
    requires Tree(file.nodes)
    ensures fresh(tc) && tc.file == file
    ensures err.None? ==>
              GatherFrom(file, Gather(map[], AP.StmtLists(file.nodes), {}, [], {}), 0).Ok? &&
              var g := GatherFrom(file, Gather(map[], AP.StmtLists(file.nodes), {}, [], {}), 0).value;
              (forall k :: k in tc.checks <==> k in g.checks) &&
              (forall k :: k in tc.checks ==> 0 <= k < |file.nodes| && InfoOf(file, k) == Ok(tc.checks[k])) &&
              tc.handlerErrNames == g.errNames && tc.lists == g.lists && tc.toDelete == {} && tc.edits == map[] &&
              tc.scopes == AP.FreshScopes(file.nodes, |file.nodes|) && BodiesTrimmed(tc.lists)
  {
    var nodes := file.nodes;
    tc := new TransformContext(file);
    var info, st := TreeAndStmts(nodes);
    var found := tc.CollectChecksAndHandles();
    if found.Err? {
      return tc, Some(found.msg);
    }
    GatheredExprs(file);
    err := tc.BuildHandlerChains(info, st, found.value);
    if err.Some? {
      return;
    }
    PlainTrimmed(nodes);
    GatherFromLists(file, Gather(map[], AP.StmtLists(nodes), {}, [], {}), 0);
    FromListsTrimmed(AP.StmtLists(nodes), tc.lists);
  }

  method Transform2(file: AP.File, prefix: string, post: seq<int>, checkTypes: nat -> Result<map<int, TypeShape>>)
    returns (tc: TransformContext, err: Option<string>, undefined: bool)
    requires Tree(file.nodes)
    ensures tc.file == file
    ensures err.None? ==> (undefined <==> tc.checks != map[])
    ensures err.None? ==> BodiesTrimmed(tc.lists)
  {
    var nodes := file.nodes;
    undefined := false;
    tc, err := Prepare(file);
    if err.Some? {
      return;
    }
    var prev := |tc.checks|;
    var pass: nat := 0;
    while true
      invariant tc.file == file && BodiesTrimmed(tc.lists)
      invariant prev == |tc.checks|
      decreases prev
    {
      var types := checkTypes(pass);
      if types.Err? {
        return tc, Some(types.msg), false;
      }
      ghost var before := tc.PassOf({});
      ghost var errNames := tc.handlerErrNames;
      err := tc.ConsumeTypedChecks(prefix, types.value, post);
      if err.Some? {
        return;
      }
      ConsumeFromKeeps(file, errNames, prefix, types.value, before, post, 0);
      AP.SubsetSize(tc.checks.Keys, before.checks.Keys);
      ghost var lists, del := tc.lists, tc.toDelete;
      err := tc.DeleteExprStmts();
      if err.Some? {
        return;
      }
      AP.DeleteFromLists(nodes, lists, del, 0);
      FromListsTrimmed(lists, tc.lists);
      if |tc.checks| == 0 {
        break;
      }
      if |tc.checks| == prev {
        undefined := true;
        break;
      }
      prev := |tc.checks|;
      pass := pass + 1;
    }
  }
}
