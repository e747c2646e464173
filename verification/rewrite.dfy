/** rewrite.go: a token-level rewriter that turns `check <expr>` into
    `_go2check(<expr>)` and `handle <err> { ... }` into `if _go2handle { ... }`
    with every `<err>` in the body renamed. It scans the source once, records
    string changes, and splices them into the source at the end. */
module Rewrite {
  import opened Wrappers
  import opened GoToken
  import opened Splicing

  const CheckFunc := "_go2check"
  const HandleBool := "_go2handle"
  const HandleErr := "_go2handleErr"
  const CheckWord := "check"
  const HandleWord := "handle"

  const OpenValue := CheckFunc + "("
  const CloseValue := ")"
  const HandleValue := "if " + HandleBool

  const EofInCheck := "EOF in the middle of check"
  const Mismatched := "mismatched delimiters"
  const ExpectedIdent := "expected identifier after handle"
  const ExpectedBrace := "expected left brace after 'handle IDENT'"
  const EofInHandle := "EOF in the middle of handle"
  const CheckInHandler := "check not allowed inside handler"
  const HandleInHandler := "handle not allowed inside handler"

  /** The tokens that may end an expression (go/parser's exprEnd). */
  predicate ExprEnd(k: Kind)
  {
    k == Comma || k == Colon || k == Semicolon || k == RParen || k == RBrack || k == RBrace
  }

  // ---------------------------------------------------------------------------
  // delimCounter

  /** Open parentheses, brackets and braces not yet closed. */
  datatype DelimCounter = DelimCounter(paren: int, brack: int, brace: int)

  const NoDelims := DelimCounter(0, 0, 0)

  predicate IsZero(dc: DelimCounter)
  {
    dc == NoDelims
  }

  predicate IsNegative(dc: DelimCounter)
  {
    dc.paren < 0 || dc.brack < 0 || dc.brace < 0
  }

  /** count: an opening delimiter adds one to its counter, a closing one takes one
      away, and every other token leaves the counter as it is. */
  function Count(dc: DelimCounter, k: Kind): DelimCounter
  {
    if k == LParen then dc.(paren := dc.paren + 1)
    else if k == LBrack then dc.(brack := dc.brack + 1)
    else if k == LBrace then dc.(brace := dc.brace + 1)
    else if k == RParen then dc.(paren := dc.paren - 1)
    else if k == RBrack then dc.(brack := dc.brack - 1)
    else if k == RBrace then dc.(brace := dc.brace - 1)
    else dc
  }

  /** Each delimiter moves its own counter by one and no other; every other token
      leaves the counters as they are. */
  lemma CountSpec(dc: DelimCounter, k: Kind)
    ensures k == LParen ==> Count(dc, k) == dc.(paren := dc.paren + 1)
    ensures k == RParen ==> Count(dc, k) == dc.(paren := dc.paren - 1)
    ensures k == LBrack ==> Count(dc, k) == dc.(brack := dc.brack + 1)
    ensures k == RBrack ==> Count(dc, k) == dc.(brack := dc.brack - 1)
    ensures k == LBrace ==> Count(dc, k) == dc.(brace := dc.brace + 1)
    ensures k == RBrace ==> Count(dc, k) == dc.(brace := dc.brace - 1)
    ensures k != LParen && k != RParen && k != LBrack && k != RBrack && k != LBrace && k != RBrace ==>
      Count(dc, k) == dc
  {
  }

  /** A closing delimiter undoes its opening one. */
  lemma CountCloses(dc: DelimCounter)
    ensures Count(Count(dc, LParen), RParen) == dc
    ensures Count(Count(dc, LBrack), RBrack) == dc
    ensures Count(Count(dc, LBrace), RBrace) == dc
  {
  }

  // ---------------------------------------------------------------------------
  // The rewriter's state as a value, and its behaviour as functions of it.

  /** What the rewriter's methods read and change: the scanner's position, the
      rewind flag, the last token scanned and the changes recorded so far. */
  datatype State = State(next: nat, rewind: bool, index: int, tok: Kind, lit: string, changes: seq<Edit>)

  /** newRewriter: nothing scanned, nothing recorded; the zero token is ILLEGAL. */
  const Start := State(0, false, 0, Illegal, "", [])

  /** Twice the tokens left to scan, plus one for a token waiting to be re-read. */
  function Fuel(toks: seq<Token>, st: State): nat
  {
    (if st.next <= |toks| then 2 * (|toks| - st.next) else 0) + (if st.rewind then 1 else 0)
  }

  /** scan: re-deliver the last token after a rewind, otherwise take the next one
      from the scanner (which keeps returning EOF at the end of the source). Every
      scan that does not return EOF makes progress. */
  function ScanStep(toks: seq<Token>, n: nat, st: State): (r: State)
    ensures !r.rewind && r.changes == st.changes
    ensures Fuel(toks, r) <= Fuel(toks, st)
    ensures !r.tok.EOF? ==> Fuel(toks, r) < Fuel(toks, st)
  {
    if st.rewind then st.(rewind := false)
    else
      var t := ScanAt(toks, n, st.next);
      st.(next := if st.next < |toks| then st.next + 1 else st.next,
          index := t.offset, tok := t.kind, lit := t.lit)
  }

  /** stateInit: scan to EOF, entering stateCheck at each `check` and stateHandle at
      each `handle`. A panic in either ends the loop with its message. */
  function InitLoop(toks: seq<Token>, n: nat, st: State): (r: Result<State>)
    ensures r.Ok? ==> st.changes <= r.value.changes
    decreases Fuel(toks, st)
  {
    var s1 := ScanStep(toks, n, st);
    if s1.tok.EOF? then Ok(s1)
    else if s1.lit == CheckWord then
      match CheckState(toks, n, s1)
      case Err(m) => Err(m)
      case Ok(s2) => InitLoop(toks, n, s2)
    else if s1.lit == HandleWord then
      match HandleState(toks, n, s1)
      case Err(m) => Err(m)
      case Ok(s2) => InitLoop(toks, n, s2)
    else InitLoop(toks, n, s1)
  }

  /** The change that opens a check: "check " becomes "_go2check(". */
  function OpenEdit(index: int): Edit
  {
    Edit(OpenValue, index, index + |CheckWord + " "|)
  }

  /** stateCheck, entered on the `check` token. */
  function CheckState(toks: seq<Token>, n: nat, st: State): (r: Result<State>)
    ensures r.Ok? ==> st.changes <= r.value.changes
    ensures r.Ok? ==> Fuel(toks, r.value) <= Fuel(toks, st)
    decreases Fuel(toks, st), 1
  {
    CheckLoop(toks, n, st.(changes := st.changes + [OpenEdit(st.index)]), NoDelims)
  }

  /** The loop of stateCheck: a nested check is handled recursively; the first
      expression-ending token outside any delimiter closes the call with an
      inserted ")" and is left to be re-read by the caller. */
  function CheckLoop(toks: seq<Token>, n: nat, st: State, dc: DelimCounter): (r: Result<State>)
    ensures r.Ok? ==> st.changes <= r.value.changes
    ensures r.Ok? ==> Fuel(toks, r.value) <= Fuel(toks, st)
    decreases Fuel(toks, st), 0
  {
    var s1 := ScanStep(toks, n, st);
    if s1.tok.EOF? then Err(EofInCheck)
    else if s1.lit == CheckWord then
      match CheckState(toks, n, s1)
      case Err(m) => Err(m)
      case Ok(s2) => CheckLoop(toks, n, s2, dc)
    else if IsZero(dc) && ExprEnd(s1.tok) then
      Ok(s1.(rewind := true, changes := s1.changes + [Edit(CloseValue, s1.index, s1.index)]))
    else
      var dc' := Count(dc, s1.tok);
      if IsNegative(dc') then Err(Mismatched) else CheckLoop(toks, n, s1, dc')
  }

  /** stateHandle, entered on the `handle` token: an identifier and a left brace
      must follow; "handle err" becomes "if _go2handle". */
  function HandleState(toks: seq<Token>, n: nat, st: State): (r: Result<State>)
    ensures r.Ok? ==> st.changes <= r.value.changes
    ensures r.Ok? ==> Fuel(toks, r.value) <= Fuel(toks, st)
  {
    var s1 := ScanStep(toks, n, st);
    if !s1.tok.Ident? then Err(ExpectedIdent)
    else
      var errName := s1.lit;
      var s2 := s1.(changes := s1.changes + [Edit(HandleValue, st.index, s1.index + |errName|)]);
      var s3 := ScanStep(toks, n, s2);
      if s3.tok != LBrace then Err(ExpectedBrace)
      else HandleLoop(toks, n, s3, errName, Count(NoDelims, LBrace))
  }

  /** The change that renames one use of the handler's error variable. */
  function RenameEdit(index: int, errName: string): Edit
  {
    Edit(HandleErr, index, index + |errName|)
  }

  /** The loop of stateHandle: rename each token spelled like the error variable,
      and stop after the operator that closes the handler's braces. */
  function HandleLoop(toks: seq<Token>, n: nat, st: State, errName: string, dc: DelimCounter): (r: Result<State>)
    ensures r.Ok? ==> st.changes <= r.value.changes
    ensures r.Ok? ==> Fuel(toks, r.value) <= Fuel(toks, st)
    decreases Fuel(toks, st)
  {
    var s1 := ScanStep(toks, n, st);
    if s1.tok.EOF? then Err(EofInHandle)
    else if s1.lit == CheckWord then Err(CheckInHandler)
    else if s1.lit == HandleWord then Err(HandleInHandler)
    else if s1.lit == errName then
      HandleLoop(toks, n, s1.(changes := s1.changes + [RenameEdit(s1.index, errName)]), errName, dc)
    else
      var dc' := Count(dc, s1.tok);
      if IsNegative(dc') then Err(Mismatched)
      else if IsZero(dc') && IsOperator(s1.tok) then Ok(s1)
      else HandleLoop(toks, n, s1, errName, dc')
  }

  /** rewrite on a rewriter in state `st` whose error field holds `err`: run
      stateInit, return its error if any, otherwise splice the changes in. */
  function RewriteFrom(src: string, toks: seq<Token>, st: State, err: Option<string>): Result<string>
  {
    match InitLoop(toks, |src|, st)
    case Err(m) => Err(m)
    case Ok(s) => if err.Some? then Err(err.value) else SpliceFrom(src, s.changes, 0)
  }

  /** RewriteChecksAndHandles on a source and the tokens the scanner returns for it. */
  function Rewritten(src: string, toks: seq<Token>): Result<string>
  {
    RewriteFrom(src, toks, Start, None)
  }

  /** How a method's panic and final state match a step function's result. */
  predicate Agrees(panicked: Option<string>, st: State, r: Result<State>)
  {
    match r
    case Ok(s) => panicked.None? && st == s
    case Err(m) => panicked == Some(m)
  }

  // ---------------------------------------------------------------------------
  // The rewriter object.

  class Rewriter {
    const src: string
    /** The scanner, replaced by the tokens it returns and the position reached. */
    const toks: seq<Token>
    var next: nat
    var err: Option<string>
    var index: int
    var tok: Kind
    var lit: string
    var changes: seq<Edit>
    var rewind: bool

    function Current(): State
      reads this
    {
      State(next, rewind, index, tok, lit, changes)
    }

    /** newRewriter. */
    constructor (src: string, toks: seq<Token>)
      ensures this.src == src && this.toks == toks
      ensures Current() == Start && err.None?
    {
      this.src := src;
      this.toks := toks;
      next := 0;
      err := None;
      index := 0;
      tok := Illegal;
      lit := "";
      changes := [];
      rewind := false;
    }

    method Scan() returns (i: int, t: Kind, l: string)
      modifies this
      ensures Current() == ScanStep(toks, |src|, old(Current())) && err == old(err)
      ensures i == index && t == tok && l == lit
    {
      if rewind {
        rewind := false;
        return index, tok, lit;
      }
      var token := ScanAt(toks, |src|, next);
      if next < |toks| {
        next := next + 1;
      }
      index := token.offset;
      tok, lit := token.kind, token.lit;
      return index, tok, lit;
    }

    /** stateInit, with the deferred recover that stores a panic's message in err. */
    method StateInit()
      modifies this
      ensures match InitLoop(toks, |src|, old(Current()))
              case Ok(s) => Current() == s && err == old(err)
              case Err(m) => err == Some(m)
    {
      while true
        invariant InitLoop(toks, |src|, Current()) == InitLoop(toks, |src|, old(Current()))
        invariant err == old(err)
        decreases Fuel(toks, Current())
      {
        var _, t, l := Scan();
        if t.EOF? {
          return;
        }
        if l == CheckWord {
          var panicked := StateCheck();
          if panicked.Some? {
            err := panicked;
            return;
          }
          continue;
        }
        if l == HandleWord {
          var panicked := StateHandle();
          if panicked.Some? {
            err := panicked;
            return;
          }
          continue;
        }
      }
    }

    method StateCheck() returns (panicked: Option<string>)
      modifies this
      ensures Agrees(panicked, Current(), CheckState(toks, |src|, old(Current())))
      ensures err == old(err)
      decreases Fuel(toks, Current())
    {
      changes := changes + [OpenEdit(index)];
      var dc := NoDelims;
      while true
        invariant CheckLoop(toks, |src|, Current(), dc) == CheckState(toks, |src|, old(Current()))
        invariant Fuel(toks, Current()) <= Fuel(toks, old(Current()))
        invariant err == old(err)
        decreases Fuel(toks, Current())
      {
        var _, t, l := Scan();
        if t.EOF? {
          return Some(EofInCheck);
        }
        if l == CheckWord {
          panicked := StateCheck();
          if panicked.Some? {
            return;
          }
          continue;
        }
        if IsZero(dc) && ExprEnd(t) {
          rewind := true;
          changes := changes + [Edit(CloseValue, index, index)];
          return None;
        }
        dc := Count(dc, t);
        if IsNegative(dc) {
          return Some(Mismatched);
        }
      }
    }

    method StateHandle() returns (panicked: Option<string>)
      modifies this
      ensures Agrees(panicked, Current(), HandleState(toks, |src|, old(Current())))
      ensures err == old(err)
    {
      var handleI := index;
      var _, ident, name := Scan();
      if !ident.Ident? {
        return Some(ExpectedIdent);
      }
      var errName := name;
      changes := changes + [Edit(HandleValue, handleI, index + |errName|)];
      var _, brace, _ := Scan();
      if brace != LBrace {
        return Some(ExpectedBrace);
      }
      var dc := Count(NoDelims, LBrace);
      while true
        invariant HandleLoop(toks, |src|, Current(), errName, dc) == HandleState(toks, |src|, old(Current()))
        invariant err == old(err)
        decreases Fuel(toks, Current())
      {
        var _, t, l := Scan();
        if t.EOF? {
          return Some(EofInHandle);
        }
        if l == CheckWord {
          return Some(CheckInHandler);
        }
        if l == HandleWord {
          return Some(HandleInHandler);
        }
        if l == errName {
          changes := changes + [RenameEdit(index, errName)];
          continue;
        }
        dc := Count(dc, t);
        if IsNegative(dc) {
          return Some(Mismatched);
        }
        if IsZero(dc) && IsOperator(t) {
          return None;
        }
      }
    }

    /** rewrite: the slice in its splice loop is not under the recover, so a bounds
        failure there is a panic of the whole program; it is returned as
        Err(BoundsPanic). */
    method Rewrite() returns (r: Result<string>)
      modifies this
      ensures r == RewriteFrom(src, toks, old(Current()), old(err))
    {
      StateInit();
      if err.Some? {
        return Err(err.value);
      }
      r := Splice(src, changes);
    }
  }

  /** RewriteChecksAndHandles. */
  method RewriteChecksAndHandles(src: string, toks: seq<Token>) returns (r: Result<string>)
    ensures r == Rewritten(src, toks)
  {
    var rw := new Rewriter(src, toks);
    r := rw.Rewrite();
  }

  // ---------------------------------------------------------------------------
  // Properties of the rewriter.

  /** A scan that is not a rewind and does not return EOF takes the next token. */
  lemma ScanTakes(toks: seq<Token>, n: nat, st: State)
    requires !st.rewind && st.next <= |toks|
    requires !ScanStep(toks, n, st).tok.EOF?
    ensures st.next < |toks|
    ensures var r := ScanStep(toks, n, st);
      r.next == st.next + 1 && r.index == toks[st.next].offset &&
      r.tok == toks[st.next].kind && r.lit == toks[st.next].lit
  {
  }

  /** Without a rewind pending and without any token spelled `check` or `handle`,
      stateInit records nothing. */
  lemma {:induction false} InitPlain(toks: seq<Token>, n: nat, st: State)
    requires !st.rewind
    requires forall k :: 0 <= k < |toks| ==> toks[k].lit != CheckWord && toks[k].lit != HandleWord
    ensures InitLoop(toks, n, st).Ok? && InitLoop(toks, n, st).value.changes == st.changes
    decreases Fuel(toks, st)
  {
    var s1 := ScanStep(toks, n, st);
    if !s1.tok.EOF? {
      InitPlain(toks, n, s1);
    }
  }

  /** A source in which neither keyword occurs comes back unchanged. */
  lemma NoKeywordsUnchanged(src: string, toks: seq<Token>)
    requires forall k :: 0 <= k < |toks| ==> toks[k].lit != CheckWord && toks[k].lit != HandleWord
    ensures Rewritten(src, toks) == Ok(src)
  {
    InitPlain(toks, |src|, Start);
    SpliceNoEdits(src);
  }

  /** How many recorded changes write `v`. */
  function Occurrences(es: seq<Edit>, v: string): nat
    decreases |es|
  {
    if |es| == 0 then 0
    else Occurrences(es[..|es| - 1], v) + (if es[|es| - 1].value == v then 1 else 0)
  }

  lemma OccurrencesAppend(es: seq<Edit>, e: Edit, v: string)
    ensures Occurrences(es + [e], v) == Occurrences(es, v) + (if e.value == v then 1 else 0)
  {
    assert (es + [e])[..|es|] == es;
  }

  /** Opened calls minus inserted closing parentheses. */
  function Balance(es: seq<Edit>): int
  {
    Occurrences(es, OpenValue) - Occurrences(es, CloseValue)
  }

  lemma BalanceAppend(es: seq<Edit>, e: Edit)
    ensures Balance(es + [e]) == Balance(es) +
      (if e.value == OpenValue then 1 else 0) - (if e.value == CloseValue then 1 else 0)
  {
    OccurrencesAppend(es, e, OpenValue);
    OccurrencesAppend(es, e, CloseValue);
  }

  /** A successful check records one "_go2check(" and one ")" more, whatever it
      nests. */
  lemma {:induction false} CheckBalanced(toks: seq<Token>, n: nat, st: State)
    ensures var r := CheckState(toks, n, st);
      r.Ok? ==> Balance(r.value.changes) == Balance(st.changes)
    decreases Fuel(toks, st), 1
  {
    var s0 := st.(changes := st.changes + [OpenEdit(st.index)]);
    BalanceAppend(st.changes, OpenEdit(st.index));
    CheckLoopBalanced(toks, n, s0, NoDelims);
  }

  lemma {:induction false} CheckLoopBalanced(toks: seq<Token>, n: nat, st: State, dc: DelimCounter)
    ensures var r := CheckLoop(toks, n, st, dc);
      r.Ok? ==> Balance(r.value.changes) == Balance(st.changes) - 1
    decreases Fuel(toks, st), 0
  {
    var s1 := ScanStep(toks, n, st);
    if s1.tok.EOF? {
    } else if s1.lit == CheckWord {
      CheckBalanced(toks, n, s1);
      var r := CheckState(toks, n, s1);
      if r.Ok? {
        CheckLoopBalanced(toks, n, r.value, dc);
      }
    } else if IsZero(dc) && ExprEnd(s1.tok) {
      BalanceAppend(s1.changes, Edit(CloseValue, s1.index, s1.index));
    } else if !IsNegative(Count(dc, s1.tok)) {
      CheckLoopBalanced(toks, n, s1, Count(dc, s1.tok));
    }
  }

  /** A handler records no "_go2check(" and no ")". */
  lemma {:induction false} HandleLoopBalanced(toks: seq<Token>, n: nat, st: State, errName: string, dc: DelimCounter)
    ensures var r := HandleLoop(toks, n, st, errName, dc);
      r.Ok? ==> Balance(r.value.changes) == Balance(st.changes)
    decreases Fuel(toks, st)
  {
    var s1 := ScanStep(toks, n, st);
    if s1.tok.EOF? || s1.lit == CheckWord || s1.lit == HandleWord {
    } else if s1.lit == errName {
      BalanceAppend(s1.changes, RenameEdit(s1.index, errName));
      HandleLoopBalanced(toks, n, s1.(changes := s1.changes + [RenameEdit(s1.index, errName)]), errName, dc);
    } else {
      HandleLoopBalanced(toks, n, s1, errName, Count(dc, s1.tok));
    }
  }

  lemma HandleBalanced(toks: seq<Token>, n: nat, st: State)
    ensures var r := HandleState(toks, n, st);
      r.Ok? ==> Balance(r.value.changes) == Balance(st.changes)
  {
    var s1 := ScanStep(toks, n, st);
    if s1.tok.Ident? {
      var e := Edit(HandleValue, st.index, s1.index + |s1.lit|);
      BalanceAppend(s1.changes, e);
      var s3 := ScanStep(toks, n, s1.(changes := s1.changes + [e]));
      if s3.tok == LBrace {
        HandleLoopBalanced(toks, n, s3, s1.lit, Count(NoDelims, LBrace));
      }
    }
  }

  lemma {:induction false} InitBalanced(toks: seq<Token>, n: nat, st: State)
    ensures var r := InitLoop(toks, n, st);
      r.Ok? ==> Balance(r.value.changes) == Balance(st.changes)
    decreases Fuel(toks, st)
  {
    var s1 := ScanStep(toks, n, st);
    if s1.tok.EOF? {
    } else if s1.lit == CheckWord {
      CheckBalanced(toks, n, s1);
      var r := CheckState(toks, n, s1);
      if r.Ok? {
        InitBalanced(toks, n, r.value);
      }
    } else if s1.lit == HandleWord {
      HandleBalanced(toks, n, s1);
      var r := HandleState(toks, n, s1);
      if r.Ok? {
        InitBalanced(toks, n, r.value);
      }
    } else {
      InitBalanced(toks, n, s1);
    }
  }

  /** When stateInit succeeds, every "_go2check(" it records has its ")". */
  lemma ChecksClosed(src: string, toks: seq<Token>)
    ensures var r := InitLoop(toks, |src|, Start);
      r.Ok? ==> Occurrences(r.value.changes, OpenValue) == Occurrences(r.value.changes, CloseValue)
  {
    InitBalanced(toks, |src|, Start);
  }

  /** A check's last change: ")" inserted before the expression-ending token that
      is the current one, and which is left to be re-read. */
  predicate ClosedAt(before: seq<Edit>, r: State)
  {
    |r.changes| > |before| &&
    r.changes[|r.changes| - 1] == Edit(CloseValue, r.index, r.index) &&
    r.rewind && ExprEnd(r.tok)
  }

  /** A successful check opens with "_go2check(" in place of "check " and ends by
      inserting ")" before an expression-ending token, which is left to be re-read. */
  lemma CheckShape(toks: seq<Token>, n: nat, st: State)
    ensures var r := CheckState(toks, n, st);
      r.Ok? ==>
        |r.value.changes| >= |st.changes| + 2 &&
        r.value.changes[|st.changes|] == OpenEdit(st.index) &&
        ClosedAt(st.changes, r.value)
  {
    var r := CheckState(toks, n, st);
    if r.Ok? {
      CheckShapeOk(toks, n, st, r.value);
    }
  }

  lemma CheckShapeOk(toks: seq<Token>, n: nat, st: State, after: State)
    requires CheckState(toks, n, st) == Ok(after)
    ensures |after.changes| >= |st.changes| + 2 && after.changes[|st.changes|] == OpenEdit(st.index) &&
      ClosedAt(st.changes, after)
  {
    var s0 := st.(changes := st.changes + [OpenEdit(st.index)]);
    assert CheckLoop(toks, n, s0, NoDelims) == Ok(after);
    CheckLoopCloses(toks, n, s0, NoDelims);
    assert s0.changes <= after.changes;
    assert after.changes[|st.changes|] == s0.changes[|st.changes|];
  }

  lemma {:induction false} CheckLoopCloses(toks: seq<Token>, n: nat, st: State, dc: DelimCounter)
    ensures var r := CheckLoop(toks, n, st, dc);
      r.Ok? ==> ClosedAt(st.changes, r.value)
    decreases Fuel(toks, st)
  {
    var s1 := ScanStep(toks, n, st);
    if s1.tok.EOF? {
    } else if s1.lit == CheckWord {
      var r := CheckState(toks, n, s1);
      if r.Ok? {
        CheckLoopCloses(toks, n, r.value, dc);
      }
    } else if IsZero(dc) && ExprEnd(s1.tok) {
    } else if !IsNegative(Count(dc, s1.tok)) {
      CheckLoopCloses(toks, n, s1, Count(dc, s1.tok));
    }
  }

  /** The changes a handler's body records: exactly one renaming per token of the
      body spelled like the error variable. */
  predicate RenamesExactly(toks: seq<Token>, from: nat, to: nat, errName: string, added: seq<Edit>)
    requires from <= to <= |toks|
  {
    (forall k :: from <= k < to && toks[k].lit == errName ==>
       RenameEdit(toks[k].offset, errName) in added) &&
    (forall e :: e in added ==>
       exists k :: from <= k < to && toks[k].lit == errName && e == RenameEdit(toks[k].offset, errName))
  }

  lemma RenamesTaken(toks: seq<Token>, from: nat, to: nat, errName: string, rest: seq<Edit>)
    requires from < to <= |toks| && toks[from].lit == errName
    requires RenamesExactly(toks, from + 1, to, errName, rest)
    ensures RenamesExactly(toks, from, to, errName, [RenameEdit(toks[from].offset, errName)] + rest)
  {
    var e := RenameEdit(toks[from].offset, errName);
    var added := [e] + rest;
    forall k | from <= k < to && toks[k].lit == errName
      ensures RenameEdit(toks[k].offset, errName) in added
    {
      if k > from {
        assert RenameEdit(toks[k].offset, errName) in rest;
      }
    }
    forall x | x in added
      ensures exists k :: from <= k < to && toks[k].lit == errName && x == RenameEdit(toks[k].offset, errName)
    {
      if x != e {
        assert x in rest;
      }
    }
  }

  lemma RenamesSkipped(toks: seq<Token>, from: nat, to: nat, errName: string, rest: seq<Edit>)
    requires from < to <= |toks| && toks[from].lit != errName
    requires RenamesExactly(toks, from + 1, to, errName, rest)
    ensures RenamesExactly(toks, from, to, errName, rest)
  {
    forall x | x in rest
      ensures exists k :: from <= k < to && toks[k].lit == errName && x == RenameEdit(toks[k].offset, errName)
    {
    }
  }

  /** The body of a handler: scanning from a fresh position, it renames every use
      of the error variable and records nothing else. */
  lemma {:induction false} HandleLoopRenames(toks: seq<Token>, n: nat, st: State, errName: string, dc: DelimCounter)
    requires !st.rewind && st.next <= |toks|
    ensures var r := HandleLoop(toks, n, st, errName, dc);
      r.Ok? ==>
        st.next < r.value.next <= |toks| &&
        RenamesExactly(toks, st.next, r.value.next, errName, r.value.changes[|st.changes|..])
    decreases Fuel(toks, st)
  {
    var r := HandleLoop(toks, n, st, errName, dc);
    var s1 := ScanStep(toks, n, st);
    if r.Ok? {
      ScanTakes(toks, n, st);
      if s1.lit == errName {
        var e := RenameEdit(s1.index, errName);
        var s2 := s1.(changes := s1.changes + [e]);
        HandleLoopRenames(toks, n, s2, errName, dc);
        assert r == HandleLoop(toks, n, s2, errName, dc);
        assert r.value.changes[|st.changes|..] == [e] + r.value.changes[|s2.changes|..];
        RenamesTaken(toks, st.next, r.value.next, errName, r.value.changes[|s2.changes|..]);
      } else {
        var dc' := Count(dc, s1.tok);
        if IsZero(dc') && IsOperator(s1.tok) {
          assert r.value == s1;
          assert r.value.changes[|st.changes|..] == [];
        } else {
          HandleLoopRenames(toks, n, s1, errName, dc');
          RenamesSkipped(toks, st.next, r.value.next, errName, r.value.changes[|st.changes|..]);
        }
      }
    }
  }

  /** A successful handle starts at the identifier and the left brace after the
      keyword, replaces "handle <ident>" by "if _go2handle", and then renames
      exactly the uses of the identifier in the body. */
  lemma HandleShape(toks: seq<Token>, n: nat, st: State)
    requires !st.rewind && st.next <= |toks|
    ensures var r := HandleState(toks, n, st);
      r.Ok? ==>
        st.next + 2 < r.value.next <= |toks| &&
        toks[st.next].kind.Ident? && toks[st.next + 1].kind == LBrace &&
        |r.value.changes| > |st.changes| &&
        r.value.changes[|st.changes|] ==
          Edit(HandleValue, st.index, toks[st.next].offset + |toks[st.next].lit|) &&
        RenamesExactly(toks, st.next + 2, r.value.next, toks[st.next].lit, r.value.changes[|st.changes| + 1..])
  {
    var r := HandleState(toks, n, st);
    if r.Ok? {
      HandleShapeOk(toks, n, st, r.value);
    }
  }

  lemma HandleShapeOk(toks: seq<Token>, n: nat, st: State, after: State)
    requires !st.rewind && st.next <= |toks| && HandleState(toks, n, st) == Ok(after)
    ensures st.next + 2 < after.next <= |toks| &&
      toks[st.next].kind.Ident? && toks[st.next + 1].kind == LBrace &&
      |after.changes| > |st.changes| &&
      after.changes[|st.changes|] == Edit(HandleValue, st.index, toks[st.next].offset + |toks[st.next].lit|) &&
      RenamesExactly(toks, st.next + 2, after.next, toks[st.next].lit, after.changes[|st.changes| + 1..])
  {
    var s1 := ScanStep(toks, n, st);
    var errName := s1.lit;
    var e := Edit(HandleValue, st.index, s1.index + |errName|);
    var s2 := s1.(changes := s1.changes + [e]);
    var s3 := ScanStep(toks, n, s2);
    var dc := Count(NoDelims, LBrace);
    var _, _ := HandleSteps(toks, n, st, after);
    ScanTakes(toks, n, st);
    ScanTakes(toks, n, s2);
    HandleLoopRenames(toks, n, s3, errName, dc);
    assert s3.changes == st.changes + [e];
    assert s3.changes <= after.changes;
    assert after.changes[|st.changes|] == s3.changes[|st.changes|];
    assert after.changes[|st.changes| + 1..] == after.changes[|s3.changes|..];
  }

  /** The states of a successful handle after its identifier and its brace. */
  lemma HandleSteps(toks: seq<Token>, n: nat, st: State, after: State) returns (s1: State, s3: State)
    requires HandleState(toks, n, st) == Ok(after)
    ensures s1 == ScanStep(toks, n, st) && s1.tok.Ident?
    ensures s3 == ScanStep(toks, n, s1.(changes := s1.changes + [Edit(HandleValue, st.index, s1.index + |s1.lit|)]))
    ensures s3.tok == LBrace && HandleLoop(toks, n, s3, s1.lit, Count(NoDelims, LBrace)) == Ok(after)
  {
    s1 := ScanStep(toks, n, st);
    s3 := ScanStep(toks, n, s1.(changes := s1.changes + [Edit(HandleValue, st.index, s1.index + |s1.lit|)]));
    assert HandleState(toks, n, st) ==
      if !s1.tok.Ident? then Err(ExpectedIdent)
      else if s3.tok != LBrace then Err(ExpectedBrace)
      else HandleLoop(toks, n, s3, s1.lit, Count(NoDelims, LBrace));
  }

  // ---------------------------------------------------------------------------
  // The order of the recorded changes.

  /** Changes in the order the splice needs them: each starts at or after the end
      of the one before (the first at or after `si`), and none reaches past `lim`. */
  predicate Chain(es: seq<Edit>, si: int, lim: int)
    decreases |es|
  {
    if |es| == 0 then 0 <= si <= lim
    else 0 <= si <= es[0].start <= lim && Chain(es[1..], es[0].end, lim)
  }

  lemma {:induction false} ChainFits(src: string, es: seq<Edit>, si: int)
    requires Chain(es, si, |src|)
    ensures Fits(src, es, si)
    decreases |es|
  {
    if |es| > 0 {
      ChainFits(src, es[1..], es[0].end);
    }
  }

  lemma {:induction false} ChainWider(es: seq<Edit>, si: int, lim: int, lim': int)
    requires Chain(es, si, lim) && lim <= lim'
    ensures Chain(es, si, lim')
    decreases |es|
  {
    if |es| > 0 {
      ChainWider(es[1..], es[0].end, lim, lim');
    }
  }

  /** A change that starts where the others have all ended keeps them in order. */
  lemma {:induction false} ChainAppend(es: seq<Edit>, si: int, e: Edit, lim: int)
    requires Chain(es, si, e.start) && e.start <= lim && 0 <= e.end <= lim
    ensures Chain(es + [e], si, lim)
    decreases |es|
  {
    if |es| == 0 {
      assert [e][1..] == [];
    } else {
      ChainAppend(es[1..], es[0].end, e, lim);
      assert (es + [e])[1..] == es[1..] + [e];
    }
  }

  /** What the scanner guarantees and the order of the changes relies on: the
      tokens of a source of `n` bytes (see Scanned), where every token spelled like
      an identifier ends before the next token starts. */
  predicate Lexed(toks: seq<Token>, n: nat)
  {
    Scanned(toks, n) && forall i :: 0 <= i < |toks| && toks[i].kind.Ident? ==> EndsApart(toks, toks[i].lit)
  }

  /** Every token spelled `name` ends before the next token starts. */
  predicate EndsApart(toks: seq<Token>, name: string)
  {
    forall k :: 0 <= k < |toks| - 1 && toks[k].lit == name ==> toks[k].offset + |name| <= toks[k + 1].offset
  }

  /** The rewriter's own assumption: at least one byte separates each `check` from
      the token after it, the byte the opening change removes with it. */
  predicate CheckSpaced(toks: seq<Token>)
  {
    forall k :: 0 <= k < |toks| - 1 && toks[k].lit == CheckWord ==>
      toks[k].offset + |CheckWord + " "| <= toks[k + 1].offset
  }

  /** The token last scanned is the one before the scanner's position. */
  predicate AtToken(toks: seq<Token>, st: State)
  {
    1 <= st.next <= |toks| && st.index == toks[st.next - 1].offset &&
    st.tok == toks[st.next - 1].kind && st.lit == toks[st.next - 1].lit
  }

  /** Where the next scan reads: the token left to be re-read, or the next one. */
  function Frontier(toks: seq<Token>, n: nat, st: State): int
  {
    if st.rewind then st.index else ScanAt(toks, n, st.next).offset
  }

  /** The rewriter between two scans: every change recorded so far ends by the
      point the next scan reads, and they are in order. */
  predicate Settled(toks: seq<Token>, n: nat, st: State)
  {
    st.next <= |toks| && Chain(st.changes, 0, Frontier(toks, n, st)) && (st.rewind ==> AtToken(toks, st))
  }

  lemma ScanAtOrdered(toks: seq<Token>, n: nat, j: nat, k: nat)
    requires Scanned(toks, n) && j <= k
    ensures 0 <= ScanAt(toks, n, j).offset <= ScanAt(toks, n, k).offset <= n
  {
  }

  /** A scan reads at the frontier and moves it forward; what it returns, unless
      EOF, is a token of the list. */
  lemma ScanSettled(toks: seq<Token>, n: nat, st: State)
    requires Scanned(toks, n) && Settled(toks, n, st)
    ensures var s1 := ScanStep(toks, n, st);
      s1.next <= |toks| && s1.index == Frontier(toks, n, st) && Chain(s1.changes, 0, s1.index) &&
      s1.index <= Frontier(toks, n, s1) <= n &&
      (!s1.tok.EOF? ==> AtToken(toks, s1))
  {
    var s1 := ScanStep(toks, n, st);
    if st.rewind {
      ScanAtOrdered(toks, n, st.next - 1, st.next);
    } else {
      ScanAtOrdered(toks, n, st.next, s1.next);
    }
  }

  /** After a scan that is not EOF, the frontier is the next token's offset. */
  lemma ScannedSettled(toks: seq<Token>, n: nat, s1: State)
    requires Scanned(toks, n) && !s1.rewind && s1.next <= |toks| && Chain(s1.changes, 0, s1.index)
    requires s1.index <= Frontier(toks, n, s1)
    ensures Settled(toks, n, s1)
  {
    ChainWider(s1.changes, 0, s1.index, Frontier(toks, n, s1));
  }

  /** stateInit keeps the changes in order and within the source. */
  lemma {:induction false} InitOrdered(toks: seq<Token>, n: nat, st: State)
    requires Lexed(toks, n) && CheckSpaced(toks) && Settled(toks, n, st)
    ensures var r := InitLoop(toks, n, st);
      r.Ok? ==> Chain(r.value.changes, 0, n)
    decreases Fuel(toks, st)
  {
    var s1 := ScanStep(toks, n, st);
    ScanSettled(toks, n, st);
    if s1.tok.EOF? {
      ChainWider(s1.changes, 0, s1.index, n);
    } else if s1.lit == CheckWord {
      CheckOrdered(toks, n, s1);
      var r := CheckState(toks, n, s1);
      if r.Ok? {
        InitOrdered(toks, n, r.value);
      }
    } else if s1.lit == HandleWord {
      HandleOrdered(toks, n, s1);
      var r := HandleState(toks, n, s1);
      if r.Ok? {
        InitOrdered(toks, n, r.value);
      }
    } else {
      ScannedSettled(toks, n, s1);
      InitOrdered(toks, n, s1);
    }
  }

  /** A check entered on a `check` token that follows every change so far leaves
      the changes in order: the opening change ends before the next token. */
  lemma {:induction false} CheckOrdered(toks: seq<Token>, n: nat, st: State)
    requires Lexed(toks, n) && CheckSpaced(toks)
    requires !st.rewind && AtToken(toks, st) && st.lit == CheckWord && Chain(st.changes, 0, st.index)
    ensures var r := CheckState(toks, n, st);
      r.Ok? ==> Settled(toks, n, r.value)
    decreases Fuel(toks, st), 1
  {
    var e := OpenEdit(st.index);
    var s0 := st.(changes := st.changes + [e]);
    assert st.next < |toks| by {
      assert toks[|toks| - 1].lit == "";
    }
    ScanAtOrdered(toks, n, st.next - 1, st.next);
    ChainAppend(st.changes, 0, e, Frontier(toks, n, s0));
    CheckLoopOrdered(toks, n, s0, NoDelims);
  }

  lemma {:induction false} CheckLoopOrdered(toks: seq<Token>, n: nat, st: State, dc: DelimCounter)
    requires Lexed(toks, n) && CheckSpaced(toks) && Settled(toks, n, st)
    ensures var r := CheckLoop(toks, n, st, dc);
      r.Ok? ==> Settled(toks, n, r.value)
    decreases Fuel(toks, st), 0
  {
    var s1 := ScanStep(toks, n, st);
    ScanSettled(toks, n, st);
    if s1.tok.EOF? {
    } else if s1.lit == CheckWord {
      CheckOrdered(toks, n, s1);
      var r := CheckState(toks, n, s1);
      if r.Ok? {
        CheckLoopOrdered(toks, n, r.value, dc);
      }
    } else if IsZero(dc) && ExprEnd(s1.tok) {
      ChainAppend(s1.changes, 0, Edit(CloseValue, s1.index, s1.index), s1.index);
    } else if !IsNegative(Count(dc, s1.tok)) {
      ScannedSettled(toks, n, s1);
      CheckLoopOrdered(toks, n, s1, Count(dc, s1.tok));
    }
  }

  /** A handle entered on a token that follows every change so far leaves them in
      order: "handle <ident>" ends where the identifier does, and so does each
      renamed use of it. */
  lemma HandleOrdered(toks: seq<Token>, n: nat, st: State)
    requires Lexed(toks, n) && !st.rewind && AtToken(toks, st) && st.lit == HandleWord
    requires Chain(st.changes, 0, st.index)
    ensures var r := HandleState(toks, n, st);
      r.Ok? ==> Settled(toks, n, r.value)
  {
    var r := HandleState(toks, n, st);
    assert st.next < |toks| by {
      assert toks[|toks| - 1].lit == "";
    }
    if r.Ok? {
      var s1, s3 := HandleSteps(toks, n, st, r.value);
      assert toks[st.next].kind.Ident?;
      HandleLoopSettled(toks, n, st, s1, s3, r.value);
    }
  }

  lemma HandleLoopSettled(toks: seq<Token>, n: nat, st: State, s1: State, s3: State, after: State)
    requires Scanned(toks, n) && !st.rewind && AtToken(toks, st) && Chain(st.changes, 0, st.index)
    requires st.next < |toks| && s1 == ScanStep(toks, n, st) && s1.tok.Ident? && EndsApart(toks, s1.lit)
    requires s3 == ScanStep(toks, n, s1.(changes := s1.changes + [Edit(HandleValue, st.index, s1.index + |s1.lit|)]))
    requires s3.tok == LBrace && HandleLoop(toks, n, s3, s1.lit, Count(NoDelims, LBrace)) == Ok(after)
    ensures Settled(toks, n, after)
  {
    assert st.next < |toks| - 1 && toks[st.next].lit == s1.lit;
    HandleHeadSettled(toks, n, st, s1, s3);
    assert Settled(toks, n, s3);
    HandleLoopOrdered(toks, n, s3, s1.lit, Count(NoDelims, LBrace));
  }

  /** "handle <ident> {": the change for the first two ends before the brace. */
  lemma HandleHeadSettled(toks: seq<Token>, n: nat, st: State, s1: State, s3: State)
    requires Scanned(toks, n) && !st.rewind && AtToken(toks, st) && Chain(st.changes, 0, st.index)
    requires st.next < |toks| - 1 && toks[st.next].offset + |toks[st.next].lit| <= toks[st.next + 1].offset
    requires s1 == ScanStep(toks, n, st)
    requires s3 == ScanStep(toks, n, s1.(changes := s1.changes + [Edit(HandleValue, st.index, s1.index + |s1.lit|)]))
    requires !s3.tok.EOF?
    ensures Settled(toks, n, s3)
  {
    var e := Edit(HandleValue, st.index, s1.index + |s1.lit|);
    var s2 := s1.(changes := s1.changes + [e]);
    var i := st.next;
    ScanAtOrdered(toks, n, i - 1, i + 1);
    ChainWider(st.changes, 0, st.index, e.start);
    ChainAppend(st.changes, 0, e, Frontier(toks, n, s2));
    ScanSettled(toks, n, s2);
    ScannedSettled(toks, n, s3);
  }

  lemma {:induction false} HandleLoopOrdered(toks: seq<Token>, n: nat, st: State, errName: string, dc: DelimCounter)
    requires Scanned(toks, n) && Settled(toks, n, st) && EndsApart(toks, errName)
    ensures var r := HandleLoop(toks, n, st, errName, dc);
      r.Ok? ==> Settled(toks, n, r.value)
    decreases Fuel(toks, st)
  {
    var s1 := ScanStep(toks, n, st);
    ScanSettled(toks, n, st);
    if s1.tok.EOF? || s1.lit == CheckWord || s1.lit == HandleWord {
    } else if s1.lit == errName {
      var e := RenameEdit(s1.index, errName);
      var s2 := s1.(changes := s1.changes + [e]);
      assert s1.next < |toks|;
      ChainAppend(s1.changes, 0, e, Frontier(toks, n, s2));
      HandleLoopOrdered(toks, n, s2, errName, dc);
    } else {
      ScannedSettled(toks, n, s1);
      var dc' := Count(dc, s1.tok);
      if !IsNegative(dc') && !(IsZero(dc') && IsOperator(s1.tok)) {
        HandleLoopOrdered(toks, n, s1, errName, dc');
      }
    }
  }

  /** On scanned tokens in which every `check` is followed by a space, the splice
      never fails: the rewrite fails exactly when stateInit records an error. */
  lemma ChangesOrdered(src: string, toks: seq<Token>)
    requires Lexed(toks, |src|) && CheckSpaced(toks)
    ensures Rewritten(src, toks).Ok? <==> InitLoop(toks, |src|, Start).Ok?
  {
    ScanAtOrdered(toks, |src|, 0, 0);
    InitOrdered(toks, |src|, Start);
    var r := InitLoop(toks, |src|, Start);
    if r.Ok? {
      ChainFits(src, r.value.changes, 0);
      SpliceOkIff(src, r.value.changes, 0);
    }
  }

  // ---------------------------------------------------------------------------
  // One step of each loop, for following the rewriter through a concrete source.

  lemma InitStepEof(toks: seq<Token>, n: nat, st: State)
    requires ScanStep(toks, n, st).tok.EOF?
    ensures InitLoop(toks, n, st) == Ok(ScanStep(toks, n, st))
  {
  }

  lemma InitStepPlain(toks: seq<Token>, n: nat, st: State)
    requires var s1 := ScanStep(toks, n, st);
      !s1.tok.EOF? && s1.lit != CheckWord && s1.lit != HandleWord
    ensures InitLoop(toks, n, st) == InitLoop(toks, n, ScanStep(toks, n, st))
  {
  }

  lemma InitStepCheck(toks: seq<Token>, n: nat, st: State, after: State)
    requires var s1 := ScanStep(toks, n, st);
      !s1.tok.EOF? && s1.lit == CheckWord && CheckState(toks, n, s1) == Ok(after)
    ensures InitLoop(toks, n, st) == InitLoop(toks, n, after)
  {
  }

  lemma InitStepHandle(toks: seq<Token>, n: nat, st: State, after: State)
    requires var s1 := ScanStep(toks, n, st);
      !s1.tok.EOF? && s1.lit != CheckWord && s1.lit == HandleWord && HandleState(toks, n, s1) == Ok(after)
    ensures InitLoop(toks, n, st) == InitLoop(toks, n, after)
  {
  }

  lemma CheckStepClose(toks: seq<Token>, n: nat, st: State, dc: DelimCounter)
    requires var s1 := ScanStep(toks, n, st);
      !s1.tok.EOF? && s1.lit != CheckWord && IsZero(dc) && ExprEnd(s1.tok)
    ensures var s1 := ScanStep(toks, n, st);
      CheckLoop(toks, n, st, dc) == Ok(s1.(rewind := true, changes := s1.changes + [Edit(CloseValue, s1.index, s1.index)]))
  {
  }

  lemma CheckStepCount(toks: seq<Token>, n: nat, st: State, dc: DelimCounter)
    requires var s1 := ScanStep(toks, n, st);
      !s1.tok.EOF? && s1.lit != CheckWord && !(IsZero(dc) && ExprEnd(s1.tok)) &&
      !IsNegative(Count(dc, s1.tok))
    ensures var s1 := ScanStep(toks, n, st);
      CheckLoop(toks, n, st, dc) == CheckLoop(toks, n, s1, Count(dc, s1.tok))
  {
  }

  lemma CheckStepNested(toks: seq<Token>, n: nat, st: State, dc: DelimCounter, after: State)
    requires var s1 := ScanStep(toks, n, st);
      !s1.tok.EOF? && s1.lit == CheckWord && CheckState(toks, n, s1) == Ok(after)
    ensures CheckLoop(toks, n, st, dc) == CheckLoop(toks, n, after, dc)
  {
  }

  lemma HandleStepRename(toks: seq<Token>, n: nat, st: State, errName: string, dc: DelimCounter)
    requires var s1 := ScanStep(toks, n, st);
      !s1.tok.EOF? && s1.lit != CheckWord && s1.lit != HandleWord && s1.lit == errName
    ensures var s1 := ScanStep(toks, n, st);
      HandleLoop(toks, n, st, errName, dc) ==
      HandleLoop(toks, n, s1.(changes := s1.changes + [RenameEdit(s1.index, errName)]), errName, dc)
  {
  }

  lemma HandleStepCount(toks: seq<Token>, n: nat, st: State, errName: string, dc: DelimCounter)
    requires var s1 := ScanStep(toks, n, st); var dc' := Count(dc, s1.tok);
      !s1.tok.EOF? && s1.lit != CheckWord && s1.lit != HandleWord && s1.lit != errName &&
      !IsNegative(dc') && !(IsZero(dc') && IsOperator(s1.tok))
    ensures var s1 := ScanStep(toks, n, st);
      HandleLoop(toks, n, st, errName, dc) == HandleLoop(toks, n, s1, errName, Count(dc, s1.tok))
  {
  }

  // ---------------------------------------------------------------------------
  // Vectors.

  /** The tokens the scanner returns for "check nil": a semicolon is inserted at
      the end of the line. */
  function CheckNilTokens(): seq<Token>
  {
    [Token(0, Ident, "check"), Token(6, Ident, "nil"), Token(9, Semicolon, "\n"), Token(9, EOF, "")]
  }

  /** The first vector of rewrite_test.go. */
  lemma RewriteVectorCheck()
    ensures Rewritten("check nil", CheckNilTokens()) == Ok("_go2check(nil)")
  {
    var open, close := OpenEdit(0), Edit(CloseValue, 9, 9);
    var e := CheckNilRun(CheckNilTokens(), open, close);
    CheckNilSplice(open, close);
  }

  lemma CheckNilRun(toks: seq<Token>, open: Edit, close: Edit) returns (e: State)
    requires toks == CheckNilTokens()
    requires open == OpenEdit(0) && close == Edit(CloseValue, 9, 9)
    ensures InitLoop(toks, 9, Start) == Ok(e) && e.changes == [open, close]
  {
    var a := State(1, false, 0, Ident, "check", []);
    assert ScanStep(toks, 9, Start) == a;
    var d := State(3, true, 9, Semicolon, "\n", [open, close]);
    CheckNilArgument(toks, open, close, a, d);
    InitStepCheck(toks, 9, Start, d);
    assert "\n" != CheckWord && "\n" != HandleWord;
    InitStepPlain(toks, 9, d);
    e := State(4, false, 9, EOF, "", [open, close]);
    assert ScanStep(toks, 9, ScanStep(toks, 9, d)) == e;
    InitStepEof(toks, 9, ScanStep(toks, 9, d));
  }

  lemma CheckNilArgument(toks: seq<Token>, open: Edit, close: Edit, a: State, d: State)
    requires toks == CheckNilTokens()
    requires open == OpenEdit(0) && close == Edit(CloseValue, 9, 9)
    requires a == State(1, false, 0, Ident, "check", [])
    requires d == State(3, true, 9, Semicolon, "\n", [open, close])
    ensures CheckState(toks, 9, a) == Ok(d)
  {
    var a' := a.(changes := [open]);
    assert a.changes + [OpenEdit(a.index)] == [open];
    var b := State(2, false, 6, Ident, "nil", [open]);
    assert ScanStep(toks, 9, a') == b;
    assert Count(NoDelims, Ident) == NoDelims;
    CheckStepCount(toks, 9, a', NoDelims);
    var c := State(3, false, 9, Semicolon, "\n", [open]);
    assert ScanStep(toks, 9, b) == c;
    assert ExprEnd(Semicolon) && "\n" != CheckWord;
    CheckStepClose(toks, 9, b, NoDelims);
    assert [open] + [close] == [open, close];
  }

  lemma CheckNilSplice(open: Edit, close: Edit)
    requires open == OpenEdit(0) && close == Edit(CloseValue, 9, 9)
    ensures SpliceFrom("check nil", [open, close], 0) == Ok("_go2check(nil)")
  {
    var src, rest := "check nil", [close];
    assert [open, close][1..] == rest;
    assert SpliceFrom(src, rest, 6) == Ok(src[6..9] + ")" + src[9..]);
    assert src[6..9] + ")" + src[9..] == "nil)";
    assert SpliceFrom(src, [open, close], 0) == Ok(src[0..0] + OpenValue + "nil)");
    assert src[0..0] + OpenValue + "nil)" == "_go2check(nil)";
  }

  /** The tokens for "check(x)". */
  function NoSpaceTokens(): seq<Token>
  {
    [Token(0, Ident, "check"), Token(5, LParen, ""), Token(6, Ident, "x"), Token(7, RParen, ""),
     Token(8, Semicolon, "\n"), Token(8, EOF, "")]
  }

  /** "check(x)": the opening change always removes the six bytes of "check ", so
      when no space follows the keyword it also removes the byte after it, here the
      opening parenthesis of the argument, and the result is unbalanced. */
  lemma RewriteVectorNoSpace()
    ensures Rewritten("check(x)", NoSpaceTokens()) == Ok("_go2check(x))")
  {
    var open, close := OpenEdit(0), Edit(CloseValue, 8, 8);
    var e := NoSpaceRun(NoSpaceTokens(), open, close);
    NoSpaceSplice(open, close);
  }

  lemma NoSpaceRun(toks: seq<Token>, open: Edit, close: Edit) returns (e: State)
    requires toks == NoSpaceTokens()
    requires open == OpenEdit(0) && close == Edit(CloseValue, 8, 8)
    ensures InitLoop(toks, 8, Start) == Ok(e) && e.changes == [open, close]
  {
    var a := State(1, false, 0, Ident, "check", []);
    assert ScanStep(toks, 8, Start) == a;
    assert a.changes + [OpenEdit(a.index)] == [open];
    var d := State(5, true, 8, Semicolon, "\n", [open, close]);
    NoSpaceArgument(toks, open, close, d);
    assert CheckState(toks, 8, a) == Ok(d);
    InitStepCheck(toks, 8, Start, d);
    assert "\n" != CheckWord && "\n" != HandleWord;
    InitStepPlain(toks, 8, d);
    e := State(6, false, 8, EOF, "", [open, close]);
    assert ScanStep(toks, 8, ScanStep(toks, 8, d)) == e;
    InitStepEof(toks, 8, ScanStep(toks, 8, d));
  }

  lemma NoSpaceArgument(toks: seq<Token>, open: Edit, close: Edit, d: State)
    requires toks == NoSpaceTokens()
    requires open == OpenEdit(0) && close == Edit(CloseValue, 8, 8)
    requires d == State(5, true, 8, Semicolon, "\n", [open, close])
    ensures CheckLoop(toks, 8, State(1, false, 0, Ident, "check", [open]), NoDelims) == Ok(d)
  {
    var one := DelimCounter(1, 0, 0);
    assert Count(NoDelims, LParen) == one && Count(one, Ident) == one;
    var s0 := State(1, false, 0, Ident, "check", [open]);
    var a := State(2, false, 5, LParen, "", [open]);
    assert ScanStep(toks, 8, s0) == a;
    CheckStepCount(toks, 8, s0, NoDelims);
    var b := State(3, false, 6, Ident, "x", [open]);
    assert ScanStep(toks, 8, a) == b;
    CheckStepCount(toks, 8, a, one);
    assert toks[3] == Token(7, RParen, "") && toks[4] == Token(8, Semicolon, "\n");
    NoSpaceClose(toks, open, close, b, d);
  }

  lemma NoSpaceClose(toks: seq<Token>, open: Edit, close: Edit, b: State, d: State)
    requires |toks| == 6 && toks[3] == Token(7, RParen, "") && toks[4] == Token(8, Semicolon, "\n")
    requires open == OpenEdit(0) && close == Edit(CloseValue, 8, 8)
    requires b == State(3, false, 6, Ident, "x", [open])
    requires d == State(5, true, 8, Semicolon, "\n", [open, close])
    ensures CheckLoop(toks, 8, b, DelimCounter(1, 0, 0)) == Ok(d)
  {
    var one := DelimCounter(1, 0, 0);
    assert Count(one, RParen) == NoDelims;
    var c := State(4, false, 7, RParen, "", [open]);
    assert ScanStep(toks, 8, b) == c;
    CheckStepCount(toks, 8, b, one);
    var last := State(5, false, 8, Semicolon, "\n", [open]);
    assert ScanStep(toks, 8, c) == last;
    assert ExprEnd(Semicolon) && "\n" != CheckWord;
    CheckStepClose(toks, 8, c, NoDelims);
    assert [open] + [close] == [open, close];
  }

  lemma NoSpaceSplice(open: Edit, close: Edit)
    requires open == OpenEdit(0) && close == Edit(CloseValue, 8, 8)
    ensures SpliceFrom("check(x)", [open, close], 0) == Ok("_go2check(x))")
  {
    var src, rest := "check(x)", [close];
    assert [open, close][1..] == rest;
    assert SpliceFrom(src, rest, 6) == Ok(src[6..8] + ")" + src[8..]);
    assert src[6..8] + ")" + src[8..] == "x))";
    assert SpliceFrom(src, [open, close], 0) == Ok(src[0..0] + OpenValue + "x))");
    assert src[0..0] + OpenValue + "x))" == "_go2check(x))";
  }

  // ---------------------------------------------------------------------------
  // Runs of tokens the loops pass over, for the longer vectors.

  /** The state after scanning the tokens from the scanner's position up to `stop`. */
  function Past(toks: seq<Token>, st: State, stop: nat): State
    requires 0 < stop <= |toks|
  {
    var t := toks[stop - 1];
    st.(next := stop, index := t.offset, tok := t.kind, lit := t.lit)
  }

  /** Tokens from..stop that a check's loop reads without acting: none is EOF or
      `check`, none ends the check, and none closes a delimiter not opened. The
      counter after them. */
  function CheckPass(toks: seq<Token>, from: nat, stop: nat, dc: DelimCounter): Option<DelimCounter>
    requires from <= stop <= |toks|
    decreases stop - from
  {
    if from == stop then Some(dc)
    else
      var t := toks[from];
      var dc' := Count(dc, t.kind);
      if t.kind.EOF? || t.lit == CheckWord || (IsZero(dc) && ExprEnd(t.kind)) || IsNegative(dc') then None
      else CheckPass(toks, from + 1, stop, dc')
  }

  lemma {:induction false} CheckLoopPasses(toks: seq<Token>, n: nat, st: State, dc: DelimCounter, stop: nat)
    requires !st.rewind && st.next < stop <= |toks| && CheckPass(toks, st.next, stop, dc).Some?
    ensures CheckLoop(toks, n, st, dc) == CheckLoop(toks, n, Past(toks, st, stop), CheckPass(toks, st.next, stop, dc).value)
    decreases stop - st.next
  {
    CheckStepCount(toks, n, st, dc);
    var s1 := ScanStep(toks, n, st);
    if s1.next < stop {
      CheckLoopPasses(toks, n, s1, Count(dc, toks[st.next].kind), stop);
    }
  }

  /** Tokens from..stop that a handler's loop reads without finishing: none is EOF,
      `check` or `handle`, and the handler's braces stay open. The counter after
      them, and the renamings they add. */
  function HandlePass(toks: seq<Token>, from: nat, stop: nat, errName: string, dc: DelimCounter): Option<(DelimCounter, seq<Edit>)>
    requires from <= stop <= |toks|
    decreases stop - from
  {
    if from == stop then Some((dc, []))
    else
      var t := toks[from];
      var dc' := Count(dc, t.kind);
      if t.kind.EOF? || t.lit == CheckWord || t.lit == HandleWord then None
      else if t.lit == errName then
        match HandlePass(toks, from + 1, stop, errName, dc)
        case None => None
        case Some(p) => Some((p.0, [RenameEdit(t.offset, errName)] + p.1))
      else if IsNegative(dc') || (IsZero(dc') && IsOperator(t.kind)) then None
      else HandlePass(toks, from + 1, stop, errName, dc')
  }

  lemma {:induction false} HandleLoopPasses(toks: seq<Token>, n: nat, st: State, errName: string, dc: DelimCounter,
                                            stop: nat, dc': DelimCounter, es: seq<Edit>)
    requires !st.rewind && st.next < stop <= |toks| && HandlePass(toks, st.next, stop, errName, dc) == Some((dc', es))
    ensures HandleLoop(toks, n, st, errName, dc) ==
      HandleLoop(toks, n, Past(toks, st, stop).(changes := st.changes + es), errName, dc')
    decreases stop - st.next, 1
  {
    if toks[st.next].lit == errName {
      HandlePassRenamed(toks, st.next, stop, errName, dc, dc', es);
      HandlePassesRename(toks, n, st, errName, dc, stop, dc', es[1..]);
      assert es == [es[0]] + es[1..];
    } else {
      HandlePassesPlain(toks, n, st, errName, dc, stop, dc', es);
    }
  }

  lemma {:induction false} HandlePassesRename(toks: seq<Token>, n: nat, st: State, errName: string, dc: DelimCounter,
                                              stop: nat, dc': DelimCounter, rest: seq<Edit>)
    requires !st.rewind && st.next < stop <= |toks| && HandlePass(toks, st.next + 1, stop, errName, dc) == Some((dc', rest))
    requires toks[st.next].lit == errName && !toks[st.next].kind.EOF? && errName != CheckWord && errName != HandleWord
    requires st.next + 1 == stop ==> rest == []
    ensures HandleLoop(toks, n, st, errName, dc) ==
      HandleLoop(toks, n, Past(toks, st, stop).(changes := st.changes + ([RenameEdit(toks[st.next].offset, errName)] + rest)), errName, dc')
    decreases stop - st.next, 0
  {
    var r := RenameEdit(toks[st.next].offset, errName);
    var s2 := Past(toks, st, st.next + 1).(changes := st.changes + [r]);
    HandleRenameStep(toks, n, st, errName, dc, s2);
    if st.next + 1 < stop {
      HandleLoopPasses(toks, n, s2, errName, dc, stop, dc', rest);
      PastRenamed(toks, st, stop, r, rest);
    } else {
      assert st.changes + ([r] + rest) == s2.changes;
    }
  }

  lemma HandleRenameStep(toks: seq<Token>, n: nat, st: State, errName: string, dc: DelimCounter, s2: State)
    requires !st.rewind && st.next < |toks| && toks[st.next].lit == errName && !toks[st.next].kind.EOF?
    requires errName != CheckWord && errName != HandleWord
    requires s2 == Past(toks, st, st.next + 1).(changes := st.changes + [RenameEdit(toks[st.next].offset, errName)])
    ensures HandleLoop(toks, n, st, errName, dc) == HandleLoop(toks, n, s2, errName, dc)
  {
    HandleStepRename(toks, n, st, errName, dc);
  }

  lemma PastRenamed(toks: seq<Token>, st: State, stop: nat, r: Edit, rest: seq<Edit>)
    requires st.next + 1 < stop <= |toks|
    ensures var s2 := Past(toks, st, st.next + 1).(changes := st.changes + [r]);
      Past(toks, s2, stop).(changes := s2.changes + rest) == Past(toks, st, stop).(changes := st.changes + ([r] + rest))
  {
    assert (st.changes + [r]) + rest == st.changes + ([r] + rest);
  }

  lemma {:induction false} HandlePassesPlain(toks: seq<Token>, n: nat, st: State, errName: string, dc: DelimCounter,
                                             stop: nat, dc': DelimCounter, es: seq<Edit>)
    requires !st.rewind && st.next < stop <= |toks| && HandlePass(toks, st.next, stop, errName, dc) == Some((dc', es))
    requires toks[st.next].lit != errName
    ensures HandleLoop(toks, n, st, errName, dc) ==
      HandleLoop(toks, n, Past(toks, st, stop).(changes := st.changes + es), errName, dc')
    decreases stop - st.next, 0
  {
    HandlePassSkipped(toks, st.next, stop, errName, dc, dc', es);
    var s1 := ScanStep(toks, n, st);
    HandleStepCount(toks, n, st, errName, dc);
    if s1.next == stop {
      assert st.changes + es == st.changes;
    } else {
      HandleLoopPasses(toks, n, s1, errName, Count(dc, toks[st.next].kind), stop, dc', es);
    }
  }

  lemma HandlePassRenamed(toks: seq<Token>, from: nat, stop: nat, errName: string, dc: DelimCounter,
                          dc': DelimCounter, es: seq<Edit>)
    requires from < stop <= |toks| && HandlePass(toks, from, stop, errName, dc) == Some((dc', es))
    requires toks[from].lit == errName
    ensures !toks[from].kind.EOF? && errName != CheckWord && errName != HandleWord
    ensures |es| > 0 && es[0] == RenameEdit(toks[from].offset, errName)
    ensures HandlePass(toks, from + 1, stop, errName, dc) == Some((dc', es[1..]))
    ensures from + 1 == stop ==> es[1..] == []
  {
  }

  lemma HandlePassSkipped(toks: seq<Token>, from: nat, stop: nat, errName: string, dc: DelimCounter,
                          dc': DelimCounter, es: seq<Edit>)
    requires from < stop <= |toks| && HandlePass(toks, from, stop, errName, dc) == Some((dc', es))
    requires toks[from].lit != errName
    ensures var t := toks[from]; var d := Count(dc, t.kind);
      !t.kind.EOF? && t.lit != CheckWord && t.lit != HandleWord && !IsNegative(d) && !(IsZero(d) && IsOperator(t.kind)) &&
      HandlePass(toks, from + 1, stop, errName, d) == Some((dc', es))
    ensures from + 1 == stop ==> es == [] && dc' == Count(dc, toks[from].kind)
  {
  }

  /** The tokens of "add(<x>, <y>)" at byte offset `base`. */
  function AddCall(base: int, x: string, y: string): seq<Token>
  {
    [Token(base, Ident, "add"), Token(base + 3, LParen, ""), Token(base + 4, Int, x), Token(base + 5, Comma, ""),
     Token(base + 7, Int, y), Token(base + 8, RParen, "")]
  }

  lemma CheckPassStep(toks: seq<Token>, from: nat, stop: nat, dc: DelimCounter, dc': DelimCounter)
    requires from < stop <= |toks|
    requires var t := toks[from];
      !t.kind.EOF? && t.lit != CheckWord && !(IsZero(dc) && ExprEnd(t.kind)) && dc' == Count(dc, t.kind) && !IsNegative(dc')
    ensures CheckPass(toks, from, stop, dc) == CheckPass(toks, from + 1, stop, dc')
  {
  }

  lemma AddCallPasses(toks: seq<Token>, k: nat, base: int, x: string, y: string)
    requires k + 6 <= |toks| && toks[k..k + 6] == AddCall(base, x, y) && x != CheckWord && y != CheckWord
    ensures CheckPass(toks, k, k + 6, NoDelims) == Some(NoDelims)
  {
    var c := AddCall(base, x, y);
    assert toks[k] == c[0] && toks[k + 1] == c[1] && toks[k + 2] == c[2];
    assert toks[k + 3] == c[3] && toks[k + 4] == c[4] && toks[k + 5] == c[5];
    AddArgsPass(toks, k + 2, base + 4, x, y);
    AddHeadPass(toks, k, base);
  }

  lemma AddHeadPass(toks: seq<Token>, k: nat, base: int)
    requires k + 6 <= |toks| && toks[k] == Token(base, Ident, "add") && toks[k + 1] == Token(base + 3, LParen, "")
    ensures CheckPass(toks, k, k + 6, NoDelims) == CheckPass(toks, k + 2, k + 6, DelimCounter(1, 0, 0))
  {
    CheckPassStep(toks, k, k + 6, NoDelims, NoDelims);
    CheckPassStep(toks, k + 1, k + 6, NoDelims, DelimCounter(1, 0, 0));
  }

  /** "<x>, <y>)" inside one open parenthesis. */
  lemma AddArgsPass(toks: seq<Token>, k: nat, base: int, x: string, y: string)
    requires k + 4 <= |toks| && x != CheckWord && y != CheckWord
    requires toks[k] == Token(base, Int, x) && toks[k + 1] == Token(base + 1, Comma, "")
    requires toks[k + 2] == Token(base + 3, Int, y) && toks[k + 3] == Token(base + 4, RParen, "")
    ensures CheckPass(toks, k, k + 4, DelimCounter(1, 0, 0)) == Some(NoDelims)
  {
    var one := DelimCounter(1, 0, 0);
    CheckPassStep(toks, k, k + 4, one, one);
    CheckPassStep(toks, k + 1, k + 4, one, one);
    CheckPassStep(toks, k + 2, k + 4, one, one);
    CheckPassStep(toks, k + 3, k + 4, one, NoDelims);
  }

  /** "check add(<x>, <y>)" followed by a token that ends the expression, from the
      state that has just read the `check` at `base`: the call is opened, and closed
      before that token, which is left to be re-read. */
  lemma CheckedAdd(toks: seq<Token>, n: nat, st: State, x: string, y: string, closer: Token)
    requires !st.rewind && st.next + 7 <= |toks|
    requires toks[st.next..st.next + 6] == AddCall(st.index + 6, x, y) && toks[st.next + 6] == closer
    requires x != CheckWord && y != CheckWord && ExprEnd(closer.kind) && closer.lit != CheckWord
    ensures CheckState(toks, n, st) == Ok(State(st.next + 7, true, closer.offset, closer.kind, closer.lit,
      st.changes + [OpenEdit(st.index), Edit(CloseValue, closer.offset, closer.offset)]))
  {
    var s0 := st.(changes := st.changes + [OpenEdit(st.index)]);
    AddCallPasses(toks, st.next, st.index + 6, x, y);
    CheckLoopPasses(toks, n, s0, NoDelims, st.next + 6);
    var p := Past(toks, s0, st.next + 6);
    assert ScanStep(toks, n, p) == State(st.next + 7, false, closer.offset, closer.kind, closer.lit, s0.changes);
    CheckStepClose(toks, n, p, NoDelims);
    assert s0.changes + [Edit(CloseValue, closer.offset, closer.offset)] ==
      st.changes + [OpenEdit(st.index), Edit(CloseValue, closer.offset, closer.offset)];
  }

  /** A token left to be re-read that is neither keyword, then EOF: stateInit ends
      with nothing more recorded. */
  lemma InitTail(toks: seq<Token>, n: nat, st: State)
    requires st.rewind && !st.tok.EOF? && st.lit != CheckWord && st.lit != HandleWord
    requires st.next < |toks| && toks[st.next].kind.EOF?
    ensures InitLoop(toks, n, st) == Ok(State(st.next + 1, false, toks[st.next].offset, EOF, toks[st.next].lit, st.changes))
  {
    InitStepPlain(toks, n, st);
    InitStepEof(toks, n, ScanStep(toks, n, st));
  }

  /** One edit of the splice: the source up to it, its value, then the rest. */
  lemma SpliceStep(src: string, e: Edit, rest: seq<Edit>, si: int)
    requires 0 <= si <= e.start <= |src|
    ensures SpliceFrom(src, [e] + rest, si) == Emit(src[si..e.start] + e.value, SpliceFrom(src, rest, e.end))
  {
    assert ([e] + rest)[0] == e && ([e] + rest)[1..] == rest;
  }

  // ---------------------------------------------------------------------------
  // The remaining vectors of rewrite_test.go.

  /** The tokens of "check add(1, 2)". */
  function CheckAddTokens(): seq<Token>
  {
    [Token(0, Ident, "check")] + AddCall(6, "1", "2") + [Token(15, Semicolon, "\n"), Token(15, EOF, "")]
  }

  lemma CheckAddRun(toks: seq<Token>) returns (changes: seq<Edit>)
    requires |toks| == 9 && toks[0] == Token(0, Ident, CheckWord) && toks[1..7] == AddCall(6, "1", "2")
    requires toks[7] == Token(15, Semicolon, "\n") && toks[8].kind.EOF?
    ensures InitLoop(toks, 15, Start).Ok? && InitLoop(toks, 15, Start).value.changes == changes
    ensures changes == [OpenEdit(0), Edit(CloseValue, 15, 15)]
  {
    var a := State(1, false, 0, Ident, CheckWord, []);
    assert ScanStep(toks, 15, Start) == a;
    CheckedAdd(toks, 15, a, "1", "2", toks[7]);
    changes := [OpenEdit(0), Edit(CloseValue, 15, 15)];
    assert a.changes + [OpenEdit(a.index), Edit(CloseValue, 15, 15)] == changes;
    var d := State(8, true, 15, Semicolon, "\n", changes);
    assert CheckState(toks, 15, a) == Ok(d);
    InitStepCheck(toks, 15, Start, d);
    InitTail(toks, 15, d);
  }

  /** The second vector of rewrite_test.go. */
  lemma RewriteVectorCheckAdd()
    ensures Rewritten("check add(1, 2)", CheckAddTokens()) == Ok("_go2check(add(1, 2))")
  {
    var src, toks := "check add(1, 2)", CheckAddTokens();
    assert toks[1..7] == AddCall(6, "1", "2");
    var changes := CheckAddRun(toks);
    RewrittenSplice(src, toks, changes);
    CheckAddText();
    CheckAddSplice(src);
  }

  lemma CheckAddText()
    ensures "check add(1, 2)" == "check " + "add(1, 2)"
    ensures OpenValue + "add(1, 2)" + CloseValue == "_go2check(add(1, 2))"
  {
  }

  /** When stateInit succeeds, the rewrite is the splice of what it recorded. */
  lemma RewrittenSplice(src: string, toks: seq<Token>, changes: seq<Edit>)
    requires InitLoop(toks, |src|, Start).Ok? && InitLoop(toks, |src|, Start).value.changes == changes
    ensures Rewritten(src, toks) == SpliceFrom(src, changes, 0)
  {
  }

  lemma CheckAddSplice(src: string)
    requires src == "check " + "add(1, 2)"
    ensures SpliceFrom(src, [OpenEdit(0), Edit(CloseValue, 15, 15)], 0) == Ok(OpenValue + "add(1, 2)" + CloseValue)
  {
    var o, c := OpenEdit(0), Edit(CloseValue, 15, 15);
    var arg := "add(1, 2)";
    assert [o, c] == [o] + [c] && [c] == [c] + [];
    assert |src| == 15 && src[6..15] == arg && src[15..] == [] && src[0..0] == [];
    assert SpliceFrom(src, [], 15) == Ok([]);
    SpliceStep(src, c, [], 6);
    assert arg + CloseValue + [] == arg + CloseValue;
    assert SpliceFrom(src, [c], 6) == Ok(arg + CloseValue);
    SpliceStep(src, o, [c], 0);
    assert [] + OpenValue + (arg + CloseValue) == OpenValue + arg + CloseValue;
  }

  /** One edit of a splice that succeeds on the rest. */
  lemma SpliceOkStep(src: string, e: Edit, rest: seq<Edit>, si: int, tail: string)
    requires 0 <= si <= e.start <= |src| && SpliceFrom(src, rest, e.end) == Ok(tail)
    ensures SpliceFrom(src, [e] + rest, si) == Ok(src[si..e.start] + e.value + tail)
  {
    SpliceStep(src, e, rest, si);
  }

  /** The tokens of "check add(check add(1, 1), check add(1, 1))". */
  function NestedTokens(): seq<Token>
  {
    [Token(0, Ident, "check"), Token(6, Ident, "add"), Token(9, LParen, ""), Token(10, Ident, "check")] +
    AddCall(16, "1", "1") + [Token(25, Comma, ""), Token(27, Ident, "check")] + AddCall(33, "1", "1") +
    [Token(42, RParen, ""), Token(43, Semicolon, "\n"), Token(43, EOF, "")]
  }

  /** What stateInit records for the nested vector: each check is opened where its
      keyword starts, and closed before the token that ends its operand. */
  function NestedChanges(): seq<Edit>
  {
    [OpenEdit(0), OpenEdit(10), Edit(CloseValue, 25, 25), OpenEdit(27), Edit(CloseValue, 42, 42),
     Edit(CloseValue, 43, 43)]
  }

  /** The third vector of rewrite_test.go: checks nested inside a check's operand. */
  lemma RewriteVectorNested()
    ensures Rewritten("check add(check add(1, 1), check add(1, 1))", NestedTokens()) ==
      Ok("_go2check(add(_go2check(add(1, 1)), _go2check(add(1, 1))))")
  {
    var src, toks := "check add(check add(1, 1), check add(1, 1))", NestedTokens();
    NestedTokensShape(toks);
    NestedRun(toks);
    RewrittenSplice(src, toks, NestedChanges());
    NestedInput(src);
    NestedSplice(src);
    NestedOutput("add(1, 1)");
  }

  lemma NestedTokensShape(toks: seq<Token>)
    requires toks == NestedTokens()
    ensures |toks| == 21 && toks[0] == Token(0, Ident, CheckWord) && toks[1] == Token(6, Ident, "add")
    ensures toks[2] == Token(9, LParen, "") && toks[3] == Token(10, Ident, CheckWord)
    ensures toks[4..10] == AddCall(16, "1", "1") && toks[10] == Token(25, Comma, "")
    ensures toks[11] == Token(27, Ident, CheckWord) && toks[12..18] == AddCall(33, "1", "1")
    ensures toks[18] == Token(42, RParen, "") && toks[19] == Token(43, Semicolon, "\n") && toks[20].kind.EOF?
  {
  }

  lemma NestedRun(toks: seq<Token>)
    requires |toks| == 21 && toks[0] == Token(0, Ident, CheckWord) && toks[1] == Token(6, Ident, "add")
    requires toks[2] == Token(9, LParen, "") && toks[3] == Token(10, Ident, CheckWord)
    requires toks[4..10] == AddCall(16, "1", "1") && toks[10] == Token(25, Comma, "")
    requires toks[11] == Token(27, Ident, CheckWord) && toks[12..18] == AddCall(33, "1", "1")
    requires toks[18] == Token(42, RParen, "") && toks[19] == Token(43, Semicolon, "\n") && toks[20].kind.EOF?
    ensures InitLoop(toks, 43, Start).Ok? && InitLoop(toks, 43, Start).value.changes == NestedChanges()
  {
    var a := State(1, false, 0, Ident, CheckWord, []);
    assert ScanStep(toks, 43, Start) == a;
    var d := State(20, true, 43, Semicolon, "\n", NestedChanges());
    NestedOuter(toks, a, d);
    InitStepCheck(toks, 43, Start, d);
    InitTail(toks, 43, d);
  }

  /** The outer check, from its keyword to the inserted semicolon. */
  lemma NestedOuter(toks: seq<Token>, a: State, d: State)
    requires |toks| == 21 && toks[1] == Token(6, Ident, "add")
    requires toks[2] == Token(9, LParen, "") && toks[3] == Token(10, Ident, CheckWord)
    requires toks[4..10] == AddCall(16, "1", "1") && toks[10] == Token(25, Comma, "")
    requires toks[11] == Token(27, Ident, CheckWord) && toks[12..18] == AddCall(33, "1", "1")
    requires toks[18] == Token(42, RParen, "") && toks[19] == Token(43, Semicolon, "\n")
    requires a == State(1, false, 0, Ident, CheckWord, [])
    requires d == State(20, true, 43, Semicolon, "\n", NestedChanges())
    ensures CheckState(toks, 43, a) == Ok(d)
  {
    var q := State(11, false, 25, Comma, "", [OpenEdit(0), OpenEdit(10), Edit(CloseValue, 25, 25)]);
    NestedFront(toks, a, q);
    var r := State(19, false, 42, RParen, "", q.changes + [OpenEdit(27), Edit(CloseValue, 42, 42)]);
    NestedSecond(toks, q, r);
    NestedClose(toks, r, d);
  }

  /** Up to the comma after the first inner check. */
  lemma NestedFront(toks: seq<Token>, a: State, q: State)
    requires |toks| == 21 && toks[1] == Token(6, Ident, "add")
    requires toks[2] == Token(9, LParen, "") && toks[3] == Token(10, Ident, CheckWord)
    requires toks[4..10] == AddCall(16, "1", "1") && toks[10] == Token(25, Comma, "")
    requires a == State(1, false, 0, Ident, CheckWord, [])
    requires q == State(11, false, 25, Comma, "", [OpenEdit(0), OpenEdit(10), Edit(CloseValue, 25, 25)])
    ensures CheckState(toks, 43, a) == CheckLoop(toks, 43, q, DelimCounter(1, 0, 0))
  {
    var s0 := State(1, false, 0, Ident, CheckWord, [OpenEdit(0)]);
    CheckStateOpens(toks, 43, a, s0);
    var p := State(3, false, 9, LParen, "", [OpenEdit(0)]);
    NestedHead(toks, s0, p);
    NestedFirst(toks, p, q);
  }

  lemma CheckStateOpens(toks: seq<Token>, n: nat, st: State, s0: State)
    requires s0 == st.(changes := st.changes + [OpenEdit(st.index)])
    ensures CheckState(toks, n, st) == CheckLoop(toks, n, s0, NoDelims)
  {
  }

  /** "add(": the counter opens one parenthesis. */
  lemma NestedHead(toks: seq<Token>, s0: State, p: State)
    requires |toks| == 21 && toks[1] == Token(6, Ident, "add") && toks[2] == Token(9, LParen, "")
    requires s0 == State(1, false, 0, Ident, CheckWord, [OpenEdit(0)])
    requires p == State(3, false, 9, LParen, "", [OpenEdit(0)])
    ensures CheckLoop(toks, 43, s0, NoDelims) == CheckLoop(toks, 43, p, DelimCounter(1, 0, 0))
  {
    CheckPassStep(toks, 1, 3, NoDelims, NoDelims);
    CheckPassStep(toks, 2, 3, NoDelims, DelimCounter(1, 0, 0));
    CheckLoopPasses(toks, 43, s0, NoDelims, 3);
  }

  /** The first inner check, closed before the comma; the comma is then re-read. */
  lemma NestedFirst(toks: seq<Token>, p: State, q: State)
    requires |toks| == 21 && toks[3] == Token(10, Ident, CheckWord)
    requires toks[4..10] == AddCall(16, "1", "1") && toks[10] == Token(25, Comma, "")
    requires p == State(3, false, 9, LParen, "", [OpenEdit(0)])
    requires q == State(11, false, 25, Comma, "", [OpenEdit(0), OpenEdit(10), Edit(CloseValue, 25, 25)])
    ensures CheckLoop(toks, 43, p, DelimCounter(1, 0, 0)) == CheckLoop(toks, 43, q, DelimCounter(1, 0, 0))
  {
    var one := DelimCounter(1, 0, 0);
    var s1 := State(4, false, 10, Ident, CheckWord, [OpenEdit(0)]);
    assert ScanStep(toks, 43, p) == s1;
    CheckedAdd(toks, 43, s1, "1", "1", toks[10]);
    var after := q.(rewind := true);
    assert s1.changes + [OpenEdit(s1.index), Edit(CloseValue, 25, 25)] == q.changes;
    CheckStepNested(toks, 43, p, one, after);
    assert ScanStep(toks, 43, after) == q;
    CheckStepCount(toks, 43, after, one);
  }

  /** The second inner check, closed before the outer call's parenthesis, which is
      then re-read and closes the outer counter. */
  lemma NestedSecond(toks: seq<Token>, q: State, r: State)
    requires |toks| == 21 && toks[11] == Token(27, Ident, CheckWord)
    requires toks[12..18] == AddCall(33, "1", "1") && toks[18] == Token(42, RParen, "")
    requires q == State(11, false, 25, Comma, "", [OpenEdit(0), OpenEdit(10), Edit(CloseValue, 25, 25)])
    requires r == State(19, false, 42, RParen, "", q.changes + [OpenEdit(27), Edit(CloseValue, 42, 42)])
    ensures CheckLoop(toks, 43, q, DelimCounter(1, 0, 0)) == CheckLoop(toks, 43, r, NoDelims)
  {
    var one := DelimCounter(1, 0, 0);
    var s1 := State(12, false, 27, Ident, CheckWord, q.changes);
    assert ScanStep(toks, 43, q) == s1;
    CheckedAdd(toks, 43, s1, "1", "1", toks[18]);
    var after := r.(rewind := true);
    CheckStepNested(toks, 43, q, one, after);
    assert ScanStep(toks, 43, after) == r;
    CheckStepCount(toks, 43, after, one);
  }

  /** The inserted semicolon closes the outer check. */
  lemma NestedClose(toks: seq<Token>, r: State, d: State)
    requires |toks| == 21 && toks[19] == Token(43, Semicolon, "\n")
    requires r == State(19, false, 42, RParen, "", [OpenEdit(0), OpenEdit(10), Edit(CloseValue, 25, 25)] + [OpenEdit(27), Edit(CloseValue, 42, 42)])
    requires d == State(20, true, 43, Semicolon, "\n", NestedChanges())
    ensures CheckLoop(toks, 43, r, NoDelims) == Ok(d)
  {
    assert ScanStep(toks, 43, r) == State(20, false, 43, Semicolon, "\n", r.changes);
    CheckStepClose(toks, 43, r, NoDelims);
    assert r.changes + [Edit(CloseValue, 43, 43)] == NestedChanges();
  }

  lemma NestedInput(src: string)
    requires src == "check add(check add(1, 1), check add(1, 1))"
    ensures |src| == 43 && src[6..10] == "add(" && src[16..25] == "add(1, 1)" && src[25..27] == ", "
    ensures src[33..42] == "add(1, 1)" && src[42..43] == ")"
  {
    NestedInputText();
    NestedInputPieces(src);
  }

  lemma NestedInputText()
    ensures "check add(check add(1, 1), check add(1, 1))" == "check add(check add(1, 1), " + "check add(1, 1))"
    ensures "check add(check add(1, 1), " == "check " + "add(" + "check " + "add(1, 1)" + ", "
    ensures "check add(1, 1))" == "check " + "add(1, 1)" + ")"
  {
    NestedInputHalves();
    NestedInputFirstHalf();
  }

  lemma NestedInputHalves()
    ensures "check add(check add(1, 1), check add(1, 1))" == "check add(check add(1, 1), " + "check add(1, 1))"
  {
  }

  lemma NestedInputFirstHalf()
    ensures "check add(check add(1, 1), " == "check " + "add(" + "check " + "add(1, 1)" + ", "
  {
  }

  lemma NestedInputPieces(src: string)
    requires src == "check " + "add(" + "check " + "add(1, 1)" + ", " + ("check " + "add(1, 1)" + ")")
    ensures |src| == 43 && src[6..10] == "add(" && src[16..25] == "add(1, 1)" && src[25..27] == ", "
    ensures src[33..42] == "add(1, 1)" && src[42..43] == ")"
  {
  }

  /** The nested vector's splice: each edit's value between the source's pieces. */
  lemma NestedSplice(src: string)
    requires |src| == 43 && src[6..10] == "add(" && src[16..25] == "add(1, 1)" && src[25..27] == ", "
    requires src[33..42] == "add(1, 1)" && src[42..43] == ")"
    ensures SpliceFrom(src, NestedChanges(), 0) == Ok([] + OpenValue + ("add(" + OpenValue + ("add(1, 1)" + CloseValue +
      (", " + OpenValue + ("add(1, 1)" + CloseValue + (")" + CloseValue + []))))))
  {
    var t := ", " + OpenValue + ("add(1, 1)" + CloseValue + (")" + CloseValue + []));
    NestedSpliceBack(src, t);
    NestedSpliceFront(src, t);
  }

  /** From the comma on: the second inner check and the outer call's end. */
  lemma NestedSpliceBack(src: string, t: string)
    requires |src| == 43 && src[25..27] == ", " && src[33..42] == "add(1, 1)" && src[42..43] == ")"
    requires t == ", " + OpenValue + ("add(1, 1)" + CloseValue + (")" + CloseValue + []))
    ensures SpliceFrom(src, [OpenEdit(27), Edit(CloseValue, 42, 42), Edit(CloseValue, 43, 43)], 25) == Ok(t)
  {
    var o27, c42, c43 := OpenEdit(27), Edit(CloseValue, 42, 42), Edit(CloseValue, 43, 43);
    var t5 := ")" + CloseValue + [];
    SpliceEnd(src);
    assert [c43] == [c43] + [];
    SpliceOkStep(src, c43, [], 42, []);
    SpliceOkStep(src, c42, [c43], 33, t5);
    assert [o27, c42, c43] == [o27] + [c42, c43];
    SpliceOkStep(src, o27, [c42, c43], 25, "add(1, 1)" + CloseValue + t5);
  }

  lemma SpliceEnd(src: string)
    ensures SpliceFrom(src, [], |src|) == Ok([])
  {
    assert src[|src|..] == [];
  }

  /** Up to the comma: the outer call's opening and the first inner check. */
  lemma NestedSpliceFront(src: string, t: string)
    requires |src| == 43 && src[6..10] == "add(" && src[16..25] == "add(1, 1)"
    requires SpliceFrom(src, [OpenEdit(27), Edit(CloseValue, 42, 42), Edit(CloseValue, 43, 43)], 25) == Ok(t)
    ensures SpliceFrom(src, NestedChanges(), 0) == Ok([] + OpenValue + ("add(" + OpenValue + ("add(1, 1)" + CloseValue + t)))
  {
    var o0, o10, c25 := OpenEdit(0), OpenEdit(10), Edit(CloseValue, 25, 25);
    var back := [OpenEdit(27), Edit(CloseValue, 42, 42), Edit(CloseValue, 43, 43)];
    SpliceOkStep(src, c25, back, 16, t);
    SpliceOkStep(src, o10, [c25] + back, 6, "add(1, 1)" + CloseValue + t);
    SpliceOkStep(src, o0, [o10] + ([c25] + back), 0, "add(" + OpenValue + ("add(1, 1)" + CloseValue + t));
    assert NestedChanges() == [o0] + ([o10] + ([c25] + back));
  }

  /** The spliced pieces spell the expected output. */
  lemma NestedOutput(arg: string)
    requires arg == "add(1, 1)"
    ensures [] + OpenValue + ("add(" + OpenValue + (arg + CloseValue + (", " + OpenValue + (arg + CloseValue + (")" + CloseValue + [])))))
      == "_go2check(add(_go2check(add(1, 1)), _go2check(add(1, 1))))"
  {
    var t := ", " + OpenValue + (arg + CloseValue + (")" + CloseValue + []));
    NestedOutputRegroup(arg, t);
    NestedOutputFront(arg);
    NestedOutputBack(arg);
    NestedOutputJoin();
  }

  lemma NestedOutputRegroup(arg: string, t: string)
    ensures [] + OpenValue + ("add(" + OpenValue + (arg + CloseValue + t)) == ((OpenValue + "add(") + (OpenValue + arg + CloseValue)) + t
  {
  }

  lemma NestedOutputFront(arg: string)
    requires arg == "add(1, 1)"
    ensures (OpenValue + "add(") + (OpenValue + arg + CloseValue) == "_go2check(add(_go2check(add(1, 1))"
  {
  }

  lemma NestedOutputBack(arg: string)
    requires arg == "add(1, 1)"
    ensures ", " + OpenValue + (arg + CloseValue + (")" + CloseValue + [])) == ", _go2check(add(1, 1))))"
  {
  }

  lemma NestedOutputJoin()
    ensures "_go2check(add(_go2check(add(1, 1))" + ", _go2check(add(1, 1))))" ==
      "_go2check(add(_go2check(add(1, 1)), _go2check(add(1, 1))))"
  {
  }

  lemma HandlePassStep(toks: seq<Token>, from: nat, stop: nat, errName: string, dc: DelimCounter, dc': DelimCounter)
    requires from < stop <= |toks|
    requires var t := toks[from];
      !t.kind.EOF? && t.lit != CheckWord && t.lit != HandleWord && t.lit != errName &&
      dc' == Count(dc, t.kind) && !IsNegative(dc') && !(IsZero(dc') && IsOperator(t.kind))
    ensures HandlePass(toks, from, stop, errName, dc) == HandlePass(toks, from + 1, stop, errName, dc')
  {
  }

  lemma HandlePassRename(toks: seq<Token>, from: nat, stop: nat, errName: string, dc: DelimCounter,
                         dc': DelimCounter, es: seq<Edit>)
    requires from < stop <= |toks| && toks[from].lit == errName && !toks[from].kind.EOF?
    requires errName != CheckWord && errName != HandleWord
    requires HandlePass(toks, from + 1, stop, errName, dc) == Some((dc', es))
    ensures HandlePass(toks, from, stop, errName, dc) == Some((dc', [RenameEdit(toks[from].offset, errName)] + es))
  {
  }

  /** The tokens of "handle err { print(err) \n\t os.Exit(1) \n }": the scanner
      inserts a semicolon at each newline after a closing parenthesis, and one at the
      end of the source after the closing brace. */
  function HandleTokens(): seq<Token>
  {
    [Token(0, Ident, HandleWord), Token(7, Ident, "err"), Token(11, LBrace, ""),
     Token(13, Ident, "print"), Token(18, LParen, ""), Token(19, Ident, "err"), Token(22, RParen, ""),
     Token(24, Semicolon, "\n"), Token(27, Ident, "os"), Token(29, Period, ""), Token(30, Ident, "Exit"),
     Token(34, LParen, ""), Token(35, Int, "1"), Token(36, RParen, ""), Token(38, Semicolon, "\n"),
     Token(40, RBrace, ""), Token(41, Semicolon, "\n"), Token(41, EOF, "")]
  }

  /** The fourth vector of rewrite_test.go: the handler's header becomes the test of
      the generated flag, and the use of its error variable is renamed. */
  lemma RewriteVectorHandle()
    ensures Rewritten("handle err { print(err) \n\t os.Exit(1) \n }", HandleTokens()) ==
      Ok("if _go2handle { print(_go2handleErr) \n\t os.Exit(1) \n }")
  {
    var src, toks := "handle err { print(err) \n\t os.Exit(1) \n }", HandleTokens();
    var changes := [Edit(HandleValue, 0, 10), RenameEdit(19, "err")];
    HandleTokensShape(toks);
    HandleRun(toks, changes);
    RewrittenSplice(src, toks, changes);
    HandleInput(src);
    HandleSplice(src, changes);
    HandleOutput();
  }

  lemma HandleTokensShape(toks: seq<Token>)
    requires toks == HandleTokens()
    ensures |toks| == 18 && toks[0] == Token(0, Ident, HandleWord) && toks[1] == Token(7, Ident, "err")
    ensures toks[2] == Token(11, LBrace, "") && toks[3] == Token(13, Ident, "print") && toks[4] == Token(18, LParen, "")
    ensures toks[5] == Token(19, Ident, "err") && toks[6] == Token(22, RParen, "") && toks[7] == Token(24, Semicolon, "\n")
    ensures toks[8] == Token(27, Ident, "os") && toks[9] == Token(29, Period, "") && toks[10] == Token(30, Ident, "Exit")
    ensures toks[11] == Token(34, LParen, "") && toks[12] == Token(35, Int, "1") && toks[13] == Token(36, RParen, "")
    ensures toks[14] == Token(38, Semicolon, "\n") && toks[15] == Token(40, RBrace, "")
    ensures toks[16] == Token(41, Semicolon, "\n") && toks[17].kind.EOF?
  {
  }

  lemma HandleRun(toks: seq<Token>, changes: seq<Edit>)
    requires |toks| == 18 && toks[0] == Token(0, Ident, HandleWord) && toks[1] == Token(7, Ident, "err")
    requires toks[2] == Token(11, LBrace, "") && toks[3] == Token(13, Ident, "print") && toks[4] == Token(18, LParen, "")
    requires toks[5] == Token(19, Ident, "err") && toks[6] == Token(22, RParen, "") && toks[7] == Token(24, Semicolon, "\n")
    requires toks[8] == Token(27, Ident, "os") && toks[9] == Token(29, Period, "") && toks[10] == Token(30, Ident, "Exit")
    requires toks[11] == Token(34, LParen, "") && toks[12] == Token(35, Int, "1") && toks[13] == Token(36, RParen, "")
    requires toks[14] == Token(38, Semicolon, "\n") && toks[15] == Token(40, RBrace, "")
    requires toks[16] == Token(41, Semicolon, "\n") && toks[17].kind.EOF?
    requires changes == [Edit(HandleValue, 0, 10), RenameEdit(19, "err")]
    ensures InitLoop(toks, 41, Start).Ok? && InitLoop(toks, 41, Start).value.changes == changes
  {
    var a := State(1, false, 0, Ident, HandleWord, []);
    assert ScanStep(toks, 41, Start) == a;
    var after := State(16, false, 40, RBrace, "", changes);
    HandleStatementPasses(toks);
    HandleBodyPasses(toks);
    HandleStateRuns(toks, a, changes, after);
    HandleEnds(toks, after);
  }

  /** After the handler, the semicolon inserted at the end, then EOF. */
  lemma HandleEnds(toks: seq<Token>, after: State)
    requires |toks| == 18 && toks[16] == Token(41, Semicolon, "\n") && toks[17].kind.EOF?
    requires after.next == 16 && !after.rewind
    requires var s1 := ScanStep(toks, 41, Start);
      !s1.tok.EOF? && s1.lit != CheckWord && s1.lit == HandleWord && HandleState(toks, 41, s1) == Ok(after)
    ensures InitLoop(toks, 41, Start).Ok? && InitLoop(toks, 41, Start).value.changes == after.changes
  {
    InitStepHandle(toks, 41, Start, after);
    InitStepPlain(toks, 41, after);
    InitStepEof(toks, 41, ScanStep(toks, 41, after));
  }

  /** stateHandle on the vector, from the `handle` keyword to the closing brace. */
  lemma HandleStateRuns(toks: seq<Token>, a: State, changes: seq<Edit>, after: State)
    requires |toks| == 18 && toks[1] == Token(7, Ident, "err") && toks[2] == Token(11, LBrace, "")
    requires toks[14] == Token(38, Semicolon, "\n") && toks[15] == Token(40, RBrace, "")
    requires HandlePass(toks, 3, 15, "err", DelimCounter(0, 0, 1)) == Some((DelimCounter(0, 0, 1), [RenameEdit(19, "err")]))
    requires a == State(1, false, 0, Ident, HandleWord, [])
    requires changes == [Edit(HandleValue, 0, 10), RenameEdit(19, "err")]
    requires after == State(16, false, 40, RBrace, "", changes)
    ensures HandleState(toks, 41, a) == Ok(after)
  {
    var s3 := State(3, false, 11, LBrace, "", [Edit(HandleValue, 0, 10)]);
    HandleHead(toks, a, s3);
    HandleBodyRuns(toks, s3, after);
  }

  /** stateHandle's loop on the vector's body. */
  lemma HandleBodyRuns(toks: seq<Token>, s3: State, after: State)
    requires |toks| == 18 && toks[14] == Token(38, Semicolon, "\n") && toks[15] == Token(40, RBrace, "")
    requires HandlePass(toks, 3, 15, "err", DelimCounter(0, 0, 1)) == Some((DelimCounter(0, 0, 1), [RenameEdit(19, "err")]))
    requires s3 == State(3, false, 11, LBrace, "", [Edit(HandleValue, 0, 10)])
    requires after == State(16, false, 40, RBrace, "", [Edit(HandleValue, 0, 10), RenameEdit(19, "err")])
    ensures HandleLoop(toks, 41, s3, "err", DelimCounter(0, 0, 1)) == Ok(after)
  {
    var inside := DelimCounter(0, 0, 1);
    HandleLoopPasses(toks, 41, s3, "err", inside, 15, inside, [RenameEdit(19, "err")]);
    var p := State(15, false, 38, Semicolon, "\n", after.changes);
    assert Past(toks, s3, 15).(changes := s3.changes + [RenameEdit(19, "err")]) == p;
    HandleBrace(toks, p, after);
  }

  /** "handle err {": the header's change, and the handler's braces opened. */
  lemma HandleHead(toks: seq<Token>, a: State, s3: State)
    requires |toks| == 18 && toks[1] == Token(7, Ident, "err") && toks[2] == Token(11, LBrace, "")
    requires a == State(1, false, 0, Ident, HandleWord, [])
    requires s3 == State(3, false, 11, LBrace, "", [Edit(HandleValue, 0, 10)])
    ensures HandleState(toks, 41, a) == HandleLoop(toks, 41, s3, "err", DelimCounter(0, 0, 1))
  {
    var s1 := State(2, false, 7, Ident, "err", []);
    assert ScanStep(toks, 41, a) == s1;
    var s2 := s1.(changes := s1.changes + [Edit(HandleValue, a.index, s1.index + |s1.lit|)]);
    assert s2 == s1.(changes := [Edit(HandleValue, 0, 10)]);
    assert ScanStep(toks, 41, s2) == s3;
    assert Count(NoDelims, LBrace) == DelimCounter(0, 0, 1);
    assert HandleState(toks, 41, a) == HandleLoop(toks, 41, ScanStep(toks, 41, s2), s1.lit, Count(NoDelims, LBrace));
  }

  /** The handler's body up to its closing brace: one renaming in "print(err)", and
      the braces still open. */
  lemma HandleBodyPasses(toks: seq<Token>)
    requires |toks| == 18 && toks[3] == Token(13, Ident, "print") && toks[4] == Token(18, LParen, "")
    requires toks[5] == Token(19, Ident, "err") && toks[6] == Token(22, RParen, "")
    requires HandlePass(toks, 7, 15, "err", DelimCounter(0, 0, 1)) == Some((DelimCounter(0, 0, 1), []))
    ensures HandlePass(toks, 3, 15, "err", DelimCounter(0, 0, 1)) == Some((DelimCounter(0, 0, 1), [RenameEdit(19, "err")]))
  {
    HandleUsePasses(toks);
    HandleCallOpens(toks);
    HandleCalleePasses(toks);
  }

  /** "(" of "print(err)": the call's parenthesis is counted. */
  lemma HandleCallOpens(toks: seq<Token>)
    requires |toks| == 18 && toks[4] == Token(18, LParen, "")
    ensures HandlePass(toks, 4, 15, "err", DelimCounter(0, 0, 1)) == HandlePass(toks, 5, 15, "err", DelimCounter(1, 0, 1))
  {
    HandlePassStep(toks, 4, 15, "err", DelimCounter(0, 0, 1), DelimCounter(1, 0, 1));
  }

  /** "print": an identifier other than the error variable passes. */
  lemma HandleCalleePasses(toks: seq<Token>)
    requires |toks| == 18 && toks[3] == Token(13, Ident, "print")
    ensures HandlePass(toks, 3, 15, "err", DelimCounter(0, 0, 1)) == HandlePass(toks, 4, 15, "err", DelimCounter(0, 0, 1))
  {
    HandlePassStep(toks, 3, 15, "err", DelimCounter(0, 0, 1), DelimCounter(0, 0, 1));
  }

  /** "err)": the use is renamed. */
  lemma HandleUsePasses(toks: seq<Token>)
    requires |toks| == 18 && toks[5] == Token(19, Ident, "err") && toks[6] == Token(22, RParen, "")
    requires HandlePass(toks, 7, 15, "err", DelimCounter(0, 0, 1)) == Some((DelimCounter(0, 0, 1), []))
    ensures HandlePass(toks, 5, 15, "err", DelimCounter(1, 0, 1)) == Some((DelimCounter(0, 0, 1), [RenameEdit(19, "err")]))
  {
    var inside, call := DelimCounter(0, 0, 1), DelimCounter(1, 0, 1);
    HandlePassStep(toks, 6, 15, "err", call, inside);
    HandlePassRename(toks, 5, 15, "err", call, inside, []);
    assert [RenameEdit(19, "err")] + [] == [RenameEdit(19, "err")];
  }

  /** "; os.Exit(1);" inside the handler's braces: nothing renamed. */
  lemma HandleStatementPasses(toks: seq<Token>)
    requires |toks| == 18 && toks[7] == Token(24, Semicolon, "\n")
    requires toks[8] == Token(27, Ident, "os") && toks[9] == Token(29, Period, "") && toks[10] == Token(30, Ident, "Exit")
    requires toks[11] == Token(34, LParen, "") && toks[12] == Token(35, Int, "1") && toks[13] == Token(36, RParen, "")
    requires toks[14] == Token(38, Semicolon, "\n")
    ensures HandlePass(toks, 7, 15, "err", DelimCounter(0, 0, 1)) == Some((DelimCounter(0, 0, 1), []))
  {
    HandleArgumentPasses(toks);
    HandleSelectorPasses(toks);
    HandleLinePasses(toks);
  }

  /** "1);" */
  lemma HandleArgumentPasses(toks: seq<Token>)
    requires |toks| == 18 && toks[12] == Token(35, Int, "1") && toks[13] == Token(36, RParen, "")
    requires toks[14] == Token(38, Semicolon, "\n")
    ensures HandlePass(toks, 12, 15, "err", DelimCounter(1, 0, 1)) == Some((DelimCounter(0, 0, 1), []))
  {
    var inside, call := DelimCounter(0, 0, 1), DelimCounter(1, 0, 1);
    HandlePassStep(toks, 14, 15, "err", inside, inside);
    HandlePassStep(toks, 13, 15, "err", call, inside);
    HandlePassStep(toks, 12, 15, "err", call, call);
  }

  /** ".Exit(" */
  lemma HandleSelectorPasses(toks: seq<Token>)
    requires |toks| == 18 && toks[9] == Token(29, Period, "") && toks[10] == Token(30, Ident, "Exit")
    requires toks[11] == Token(34, LParen, "")
    ensures HandlePass(toks, 9, 15, "err", DelimCounter(0, 0, 1)) == HandlePass(toks, 12, 15, "err", DelimCounter(1, 0, 1))
  {
    var inside, call := DelimCounter(0, 0, 1), DelimCounter(1, 0, 1);
    HandlePassStep(toks, 11, 15, "err", inside, call);
    HandlePassStep(toks, 10, 15, "err", inside, inside);
    HandlePassStep(toks, 9, 15, "err", inside, inside);
  }

  /** The inserted semicolon, then "os". */
  lemma HandleLinePasses(toks: seq<Token>)
    requires |toks| == 18 && toks[7] == Token(24, Semicolon, "\n") && toks[8] == Token(27, Ident, "os")
    ensures HandlePass(toks, 7, 15, "err", DelimCounter(0, 0, 1)) == HandlePass(toks, 9, 15, "err", DelimCounter(0, 0, 1))
  {
    var inside := DelimCounter(0, 0, 1);
    HandlePassStep(toks, 8, 15, "err", inside, inside);
    HandlePassStep(toks, 7, 15, "err", inside, inside);
  }

  /** The closing brace brings the counter to zero and ends stateHandle. */
  lemma HandleBrace(toks: seq<Token>, p: State, after: State)
    requires |toks| == 18 && toks[15] == Token(40, RBrace, "")
    requires p.next == 15 && !p.rewind
    requires after == State(16, false, 40, RBrace, "", p.changes)
    ensures HandleLoop(toks, 41, p, "err", DelimCounter(0, 0, 1)) == Ok(after)
  {
    assert ScanStep(toks, 41, p) == after;
    assert Count(DelimCounter(0, 0, 1), RBrace) == NoDelims;
  }

  lemma HandleInput(src: string)
    requires src == "handle err { print(err) \n\t os.Exit(1) \n }"
    ensures |src| == 41 && src[10..19] == " { print(" && src[22..] == ") \n\t os.Exit(1) \n }"
  {
    HandleInputText();
    HandleInputPieces(src);
  }

  lemma HandleInputText()
    ensures "handle err { print(err) \n\t os.Exit(1) \n }" == "handle err" + " { print(" + "err" + ") \n\t os.Exit(1) \n }"
  {
  }

  lemma HandleInputPieces(src: string)
    requires src == "handle err" + " { print(" + "err" + ") \n\t os.Exit(1) \n }"
    ensures |src| == 41 && src[10..19] == " { print(" && src[22..] == ") \n\t os.Exit(1) \n }"
  {
  }

  /** The handle vector's splice: the header's value, the source up to the renamed
      use, the new name, then the rest of the source. */
  lemma HandleSplice(src: string, changes: seq<Edit>)
    requires |src| == 41 && src[10..19] == " { print(" && src[22..] == ") \n\t os.Exit(1) \n }"
    requires changes == [Edit(HandleValue, 0, 10), RenameEdit(19, "err")]
    ensures SpliceFrom(src, changes, 0) == Ok([] + HandleValue + (" { print(" + HandleErr + ") \n\t os.Exit(1) \n }"))
  {
    var h, r := Edit(HandleValue, 0, 10), RenameEdit(19, "err");
    assert SpliceFrom(src, [], 22) == Ok(src[22..]);
    assert [r] == [r] + [];
    SpliceOkStep(src, r, [], 10, src[22..]);
    assert changes == [h] + [r];
    SpliceOkStep(src, h, [r], 0, " { print(" + HandleErr + ") \n\t os.Exit(1) \n }");
  }

  lemma HandleOutput()
    ensures [] + HandleValue + (" { print(" + HandleErr + ") \n\t os.Exit(1) \n }") ==
      "if _go2handle { print(_go2handleErr) \n\t os.Exit(1) \n }"
  {
    HandleOutputRegroup(") \n\t os.Exit(1) \n }");
    HandleOutputFront();
    HandleOutputJoin();
  }

  lemma HandleOutputRegroup(t: string)
    ensures [] + HandleValue + (" { print(" + HandleErr + t) == (HandleValue + " { print(" + HandleErr) + t
  {
  }

  lemma HandleOutputFront()
    ensures HandleValue + " { print(" + HandleErr == "if _go2handle { print(_go2handleErr"
  {
  }

  lemma HandleOutputJoin()
    ensures "if _go2handle { print(_go2handleErr" + ") \n\t os.Exit(1) \n }" ==
      "if _go2handle { print(_go2handleErr) \n\t os.Exit(1) \n }"
  {
  }

  /** The tokens of "check;". */
  function UnspacedTokens(): seq<Token>
  {
    [Token(0, Ident, CheckWord), Token(5, Semicolon, ";"), Token(6, EOF, "")]
  }

  /** Why ChangesOrdered needs CheckSpaced: on "check;" stateInit succeeds, but the
      opening change removes six bytes and so ends past the closing change, and the
      splice slices the source backwards. */
  lemma RewriteUnspacedPanics()
    ensures Lexed(UnspacedTokens(), 6) && !CheckSpaced(UnspacedTokens())
    ensures InitLoop(UnspacedTokens(), 6, Start).Ok?
    ensures Rewritten("check;", UnspacedTokens()) == Err(BoundsPanic)
  {
    var toks := UnspacedTokens();
    UnspacedLexed(toks);
    UnspacedNotSpaced(toks);
    var open, close := OpenEdit(0), Edit(CloseValue, 5, 5);
    var a := State(1, false, 0, Ident, CheckWord, []);
    assert ScanStep(toks, 6, Start) == a;
    var d := State(2, true, 5, Semicolon, ";", [open, close]);
    UnspacedCheck(toks, a, d);
    InitStepCheck(toks, 6, Start, d);
    InitTail(toks, 6, d);
    RewrittenSplice("check;", toks, [open, close]);
    UnspacedSplice("check;", open, close);
  }

  lemma UnspacedLexed(toks: seq<Token>)
    requires toks == UnspacedTokens()
    ensures Lexed(toks, 6)
  {
    assert Scanned(toks, 6);
    assert EndsApart(toks, CheckWord);
  }

  lemma UnspacedNotSpaced(toks: seq<Token>)
    requires toks == UnspacedTokens()
    ensures !CheckSpaced(toks)
  {
    assert toks[0].lit == CheckWord && toks[0].offset + |CheckWord + " "| > toks[1].offset;
  }

  lemma UnspacedCheck(toks: seq<Token>, a: State, d: State)
    requires toks == UnspacedTokens()
    requires a == State(1, false, 0, Ident, CheckWord, [])
    requires d == State(2, true, 5, Semicolon, ";", [OpenEdit(0), Edit(CloseValue, 5, 5)])
    ensures CheckState(toks, 6, a) == Ok(d)
  {
    var s0 := a.(changes := [OpenEdit(0)]);
    CheckStateOpens(toks, 6, a, s0);
    assert ScanStep(toks, 6, s0) == State(2, false, 5, Semicolon, ";", [OpenEdit(0)]);
    CheckStepClose(toks, 6, s0, NoDelims);
    assert [OpenEdit(0)] + [Edit(CloseValue, 5, 5)] == d.changes;
  }

  lemma UnspacedSplice(src: string, open: Edit, close: Edit)
    requires src == "check;" && open == OpenEdit(0) && close == Edit(CloseValue, 5, 5)
    ensures SpliceFrom(src, [open, close], 0) == Err(BoundsPanic)
  {
    assert |src| == 6;
    assert [open, close] == [open] + [close] && [close] == [close] + [];
    assert SpliceFrom(src, [close], 6) == Err(BoundsPanic);
    SpliceStep(src, open, [close], 0);
  }
}
