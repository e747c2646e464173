/** The last step of printing a rewritten file (go2File.string in ast.go): the
    formatted text is parsed again, and inside every function the second and later
    newlines of each run of newlines are cut, so that blank lines the rewrite left
    behind disappear. A run that reaches the end of the function's text without a
    further byte is left alone. The formatter and the parser are not modelled: the
    formatted text and the function spans, as 1-based [Pos, End) positions in any
    order, are inputs. */
module AstPrint {
  import opened Wrappers
  import Cut
  import Splicing

  /** A function's position and end, as the parser reports them (1-based). */
  datatype Span = Span(pos: int, end: int)

  /** c removes the bytes after the first newline of a run of newlines, up to the
      byte that ends the run. */
  predicate BlankCut(str: string, c: Cut.Cut)
  {
    1 <= c.start < c.end < |str| &&
    (forall p :: c.start - 1 <= p < c.end ==> str[p] == '\n') &&
    str[c.end] != '\n'
  }

  /** The newline before the cut is the first of its run. */
  predicate Leading(str: string, c: Cut.Cut)
  {
    2 <= c.start <= |str| + 1 && str[c.start - 2] != '\n'
  }

  /** Some cut of cs removes byte k. */
  predicate CutAt(cs: seq<Cut.Cut>, k: int)
  {
    exists c :: c in cs && c.start <= k < c.end
  }

  /** Position k of str, inside the span [s, e), is a newline that follows a
      newline and comes before some other byte of the span. */
  predicate Doubled(str: string, s: int, e: int, k: int)
    requires 0 <= s <= e <= |str|
  {
    s < k < e && str[k - 1] == '\n' && str[k] == '\n' &&
    exists q :: k < q < e && str[q] != '\n'
  }

  /** The bytes [pos - 1, end - 1) of the span lie in the text. */
  predicate SpanIn(str: string, sp: Span)
  {
    1 <= sp.pos <= sp.end <= |str| + 1
  }

  /** Position k is a doubled newline of one of the functions. */
  predicate DoubledInSome(str: string, spans: seq<Span>, k: int)
  {
    exists j :: 0 <= j < |spans| && DoubledIn(str, spans[j], k)
  }

  predicate SpansIn(str: string, spans: seq<Span>)
  {
    forall j :: 0 <= j < |spans| ==> SpanIn(str, spans[j])
  }

  /** Position k is a doubled newline of the function's bytes. */
  predicate DoubledIn(str: string, sp: Span, k: int)
  {
    SpanIn(str, sp) && Doubled(str, sp.pos - 1, sp.end - 1, k)
  }

  /** The function's text begins with a byte other than a newline. */
  predicate Opens(str: string, sp: Span)
  {
    1 <= sp.pos <= |str| && str[sp.pos - 1] != '\n'
  }

  /** What the inner loop knows about the bytes [s, i) it has read: newlineFound
      says the last byte read was a newline, and trailing holds the doubled
      newlines of the run being read, which start right after its first newline. */
  predicate Pending(str: string, s: int, i: int, trailing: seq<int>, newlineFound: bool)
  {
    0 <= s <= i <= |str| &&
    (newlineFound <==> (s < i && str[i - 1] == '\n')) &&
    (forall k :: 0 <= k < |trailing| ==> trailing[k] == trailing[0] + k) &&
    (|trailing| > 0 ==> s < trailing[0] && trailing[0] + |trailing| == i) &&
    (|trailing| > 0 ==> forall p :: trailing[0] - 1 <= p < i ==> str[p] == '\n') &&
    (|trailing| > 0 ==> trailing[0] - 1 == s || str[trailing[0] - 2] != '\n') &&
    (|trailing| == 0 && s + 2 <= i ==> !(str[i - 1] == '\n' && str[i - 2] == '\n'))
  }

  /** The cuts made so far: whole runs of doubled newlines of [s, i), in order and
      apart, each cut byte doubled in [s, e), and every doubled byte read so far
      either cut or pending. */
  predicate Emitted(str: string, s: int, e: int, i: int, cs: seq<Cut.Cut>, trailing: seq<int>)
    requires 0 <= s <= i <= e <= |str|
  {
    (forall c :: c in cs ==> s < c.start && c.end < i && BlankCut(str, c)) &&
    (forall c :: c in cs ==> c.start - 1 == s || Leading(str, c)) &&
    (forall k :: 0 < k < |cs| ==> Cut.Before(cs[k - 1], cs[k])) &&
    (|cs| > 0 && |trailing| > 0 ==> cs[|cs| - 1].end < trailing[0]) &&
    (forall k :: s < k < i && str[k - 1] == '\n' && str[k] == '\n' ==>
       CutAt(cs, k) || (|trailing| > 0 && trailing[0] <= k)) &&
    (forall c, k :: c in cs && c.start <= k < c.end ==> Doubled(str, s, e, k))
  }

  /** A byte other than a newline ends the pending run, which becomes a cut. */
  lemma {:induction false} FlushStep(str: string, s: int, e: int, i: int, cs: seq<Cut.Cut>, trailing: seq<int>)
    requires 0 <= s <= i < e <= |str| && str[i] != '\n' && |trailing| > 0
    requires Pending(str, s, i, trailing, true) && Emitted(str, s, e, i, cs, trailing)
    ensures Pending(str, s, i + 1, [], false)
    ensures Emitted(str, s, e, i + 1, cs + [Cut.Cut(trailing[0], trailing[|trailing| - 1] + 1)], [])
  {
    var c := Cut.Cut(trailing[0], trailing[|trailing| - 1] + 1);
    forall k | c.start <= k < c.end ensures Doubled(str, s, e, k) {
      assert k < i && str[i] != '\n';
    }
    if |cs| > 0 {
      assert str[cs[|cs| - 1].end] != '\n';
    }
    var cs' := cs + [c];
    forall k | s < k < i + 1 && str[k - 1] == '\n' && str[k] == '\n' ensures CutAt(cs', k) {
      if CutAt(cs, k) {
        var d :| d in cs && d.start <= k < d.end;
        assert d in cs';
      } else {
        assert c in cs';
      }
    }
  }

  /** A byte other than a newline with nothing pending. */
  lemma {:induction false} PlainStep(str: string, s: int, e: int, i: int, cs: seq<Cut.Cut>, newlineFound: bool)
    requires 0 <= s <= i < e <= |str| && str[i] != '\n'
    requires Pending(str, s, i, [], newlineFound) && Emitted(str, s, e, i, cs, [])
    ensures Pending(str, s, i + 1, [], false) && Emitted(str, s, e, i + 1, cs, [])
  {
  }

  /** A newline right after a newline joins the pending run. */
  lemma {:induction false} ExtendStep(str: string, s: int, e: int, i: int, cs: seq<Cut.Cut>, trailing: seq<int>)
    requires 0 <= s <= i < e <= |str| && str[i] == '\n'
    requires Pending(str, s, i, trailing, true) && Emitted(str, s, e, i, cs, trailing)
    ensures Pending(str, s, i + 1, trailing + [i], true) && Emitted(str, s, e, i + 1, cs, trailing + [i])
  {
    if |trailing| == 0 && |cs| > 0 {
      assert str[cs[|cs| - 1].end] != '\n';
    }
  }

  /** The first newline of a run. */
  lemma {:induction false} FirstStep(str: string, s: int, e: int, i: int, cs: seq<Cut.Cut>, trailing: seq<int>)
    requires 0 <= s <= i < e <= |str| && str[i] == '\n'
    requires Pending(str, s, i, trailing, false) && Emitted(str, s, e, i, cs, trailing)
    ensures Pending(str, s, i + 1, trailing, true) && Emitted(str, s, e, i + 1, cs, trailing)
  {
  }

  /** At the end of the span, a pending run has no byte after it, so every doubled
      newline of the span has been cut. */
  lemma {:induction false} ScanDone(str: string, s: int, e: int, cs: seq<Cut.Cut>, trailing: seq<int>, newlineFound: bool)
    requires 0 <= s <= e <= |str|
    requires Pending(str, s, e, trailing, newlineFound) && Emitted(str, s, e, e, cs, trailing)
    ensures forall k :: CutAt(cs, k) <==> Doubled(str, s, e, k)
  {
    forall k | Doubled(str, s, e, k) ensures CutAt(cs, k) {
      if |trailing| > 0 && trailing[0] <= k {
        assert false;
      }
    }
  }

  /** The inner loop over one function's bytes [s, e). The cuts are exactly the
      runs of doubled newlines of the span, in order, with a byte between any two;
      each starts right after the first newline of its run, or right after the start
      of the span when the span opens with a newline. */
  method SpanCuts(str: string, s: int, e: int) returns (cs: seq<Cut.Cut>)
    requires 0 <= s <= e <= |str|
    ensures forall c :: c in cs ==> s < c.start && c.end < e && BlankCut(str, c)
    ensures forall c :: c in cs ==> c.start - 1 == s || Leading(str, c)
    ensures forall k :: 0 < k < |cs| ==> Cut.Before(cs[k - 1], cs[k])
    ensures forall k :: CutAt(cs, k) <==> Doubled(str, s, e, k)
  {
    cs := [];
    var trailing: seq<int> := [];
    var newlineFound := false;
    var i := s;
    while i < e
      invariant s <= i <= e
      invariant Pending(str, s, i, trailing, newlineFound) && Emitted(str, s, e, i, cs, trailing)
    {
      if str[i] != '\n' {
        if |trailing| > 0 {
          FlushStep(str, s, e, i, cs, trailing);
          cs := cs + [Cut.Cut(trailing[0], trailing[|trailing| - 1] + 1)];
          trailing := [];
        } else {
          PlainStep(str, s, e, i, cs, newlineFound);
        }
        newlineFound := false;
        i := i + 1;
        continue;
      }
      if newlineFound {
        ExtendStep(str, s, e, i, cs, trailing);
        trailing := trailing + [i];
        i := i + 1;
        continue;
      }
      FirstStep(str, s, e, i, cs, trailing);
      newlineFound := true;
      i := i + 1;
    }
    ScanDone(str, s, e, cs, trailing, newlineFound);
  }

  lemma CutAtConcat(a: seq<Cut.Cut>, b: seq<Cut.Cut>, k: int)
    ensures CutAt(a + b, k) <==> CutAt(a, k) || CutAt(b, k)
  {
    if CutAt(a + b, k) {
      var c :| c in a + b && c.start <= k < c.end;
      assert c in a || c in b;
    }
    if CutAt(a, k) {
      var c :| c in a && c.start <= k < c.end;
      assert c in a + b;
    }
    if CutAt(b, k) {
      var c :| c in b && c.start <= k < c.end;
      assert c in a + b;
    }
  }

  lemma DoubledInSnoc(str: string, spans: seq<Span>, j: int, k: int)
    requires 0 <= j < |spans|
    ensures DoubledInSome(str, spans[..j + 1], k) <==>
              DoubledInSome(str, spans[..j], k) || DoubledIn(str, spans[j], k)
  {
    var pre, ext := spans[..j], spans[..j + 1];
    if DoubledInSome(str, ext, k) {
      var i :| 0 <= i < |ext| && DoubledIn(str, ext[i], k);
      if i < j {
        assert pre[i] == ext[i];
      }
    }
    if DoubledInSome(str, pre, k) {
      var i :| 0 <= i < |pre| && DoubledIn(str, pre[i], k);
      assert ext[i] == pre[i];
    }
    if DoubledIn(str, spans[j], k) {
      assert ext[j] == spans[j];
    }
  }

  /** The outer loop: the cuts of every function span, in the order the spans come.
      A byte is cut exactly when it is a doubled newline of some function. */
  method BlankCuts(str: string, spans: seq<Span>) returns (cs: seq<Cut.Cut>)
    requires SpansIn(str, spans)
    ensures forall c :: c in cs ==> BlankCut(str, c)
    ensures (forall j :: 0 <= j < |spans| ==> Opens(str, spans[j])) ==>
              forall c :: c in cs ==> Leading(str, c)
    ensures forall k :: CutAt(cs, k) <==> DoubledInSome(str, spans, k)
  {
    cs := [];
    var j := 0;
    while j < |spans|
      invariant 0 <= j <= |spans|
      invariant forall c :: c in cs ==> BlankCut(str, c)
      invariant (forall j :: 0 <= j < |spans| ==> Opens(str, spans[j])) ==>
                  forall c :: c in cs ==> Leading(str, c)
      invariant forall k :: CutAt(cs, k) <==> DoubledInSome(str, spans[..j], k)
    {
      var s, e := spans[j].pos - 1, spans[j].end - 1;
      var more := SpanCuts(str, s, e);
      forall k ensures CutAt(cs + more, k) <==> DoubledInSome(str, spans[..j + 1], k) {
        CutAtConcat(cs, more, k);
        DoubledInSnoc(str, spans, j, k);
      }
      cs := cs + more;
      j := j + 1;
    }
    assert spans[..j] == spans;
  }

  /** go2File.string after formatting and parsing: collect the cuts of every
      function and apply them. When every function's text begins with a byte other
      than a newline (it begins with the keyword func), the cuts never clash and the
      result is the text with exactly the doubled newlines of the functions
      removed. */
  method Trim(str: string, spans: seq<Span>) returns (r: Result<string>, cs: seq<Cut.Cut>)
    requires SpansIn(str, spans)
    ensures forall k :: CutAt(cs, k) <==> DoubledInSome(str, spans, k)
    ensures (forall j :: 0 <= j < |spans| ==> Opens(str, spans[j])) ==>
              r == Ok(Splicing.Keep(str, 0, Cut.AsEdits(cs)))
  {
    cs := BlankCuts(str, spans);
    var a := new Cut.Cut[|cs|](i requires 0 <= i < |cs| => cs[i]);
    assert a[..] == cs;
    assert Cut.AllProper(cs) && Cut.InBounds(cs, |str|);
    if forall j :: 0 <= j < |spans| ==> Opens(str, spans[j]) {
      // Two cuts that each start after the first newline of their run either
      // coincide or have a byte other than a newline between them.
      forall x, y | x in cs && y in cs ensures Cut.Comparable(x, y) { }
    }
    r := Cut.Apply(a, str);
  }
}
