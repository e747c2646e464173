/** The splice loop that cut.go, process.go and rewrite.go each write out: walk a
    list of edits, copying the source between them and writing each edit's text in
    place of the bytes it covers. Go slicing panics unless 0 <= i <= j <= len, so a
    badly ordered list ends in Err. */
module Splicing {
  import opened Wrappers

  /** Replace src[start:end] by value; a cut is an edit whose value is "". */
  datatype Edit = Edit(value: string, start: int, end: int)

  const BoundsPanic := "runtime error: slice bounds out of range"

  function Emit(prefix: string, r: Result<string>): Result<string>
  {
    match r
    case Ok(s) => Ok(prefix + s)
    case Err(m) => Err(m)
  }

  /** Start copying at `si`: for each edit write src[si:start] and then its value and
      continue from its end; finally write src[si:]. */
  function SpliceFrom(src: string, edits: seq<Edit>, si: int): Result<string>
    decreases |edits|
  {
    if |edits| == 0 then
      if 0 <= si <= |src| then Ok(src[si..]) else Err(BoundsPanic)
    else if 0 <= si <= edits[0].start <= |src| then
      Emit(src[si..edits[0].start] + edits[0].value, SpliceFrom(src, edits[1..], edits[0].end))
    else
      Err(BoundsPanic)
  }

  lemma EmitNothing(r: Result<string>)
    ensures Emit("", r) == r
  {
    if r.Ok? {
      assert "" + r.value == r.value;
    }
  }

  lemma EmitTwice(a: string, b: string, r: Result<string>)
    ensures Emit(a, Emit(b, r)) == Emit(a + b, r)
  {
    if r.Ok? {
      assert a + (b + r.value) == (a + b) + r.value;
    }
  }

  /** The loop itself: a builder that receives src[i:start] and the value of each
      edit in turn, then src[i:]. It returns what the recursive definition gives. */
  method Splice(src: string, edits: seq<Edit>) returns (r: Result<string>)
    ensures r == SpliceFrom(src, edits, 0)
  {
    var out := "";
    var i := 0;
    var k := 0;
    EmitNothing(SpliceFrom(src, edits, 0));
    assert edits[0..] == edits;
    while k < |edits|
      invariant 0 <= k <= |edits|
      invariant SpliceFrom(src, edits, 0) == Emit(out, SpliceFrom(src, edits[k..], i))
    {
      var e := edits[k];
      assert edits[k..][0] == e && edits[k..][1..] == edits[k + 1..];
      if !(0 <= i <= e.start <= |src|) {
        return Err(BoundsPanic);
      }
      EmitTwice(out, src[i..e.start] + e.value, SpliceFrom(src, edits[k + 1..], e.end));
      out := out + (src[i..e.start] + e.value);
      i := e.end;
      k := k + 1;
    }
    assert edits[k..] == [];
    if !(0 <= i <= |src|) {
      return Err(BoundsPanic);
    }
    r := Ok(out + src[i..]);
  }

  /** One deletion: the splice writes the source up to it and resumes at its end. */
  lemma SpliceDeletion(src: string, e: Edit, rest: seq<Edit>, si: int)
    requires e.value == "" && 0 <= si <= e.start <= |src|
    ensures SpliceFrom(src, [e] + rest, si) == Emit(src[si..e.start], SpliceFrom(src, rest, e.end))
  {
    assert ([e] + rest)[1..] == rest;
    assert src[si..e.start] + e.value == src[si..e.start];
  }

  /** Every slice the loop takes is in bounds: each edit starts at or after the point
      reached so far and inside the source, and the last one ends inside it. */
  predicate Fits(src: string, edits: seq<Edit>, si: int)
    decreases |edits|
  {
    if |edits| == 0 then 0 <= si <= |src|
    else 0 <= si <= edits[0].start <= |src| && Fits(src, edits[1..], edits[0].end)
  }

  /** The splice fails exactly when some slice is out of bounds. */
  lemma {:induction false} SpliceOkIff(src: string, edits: seq<Edit>, si: int)
    ensures SpliceFrom(src, edits, si).Ok? <==> Fits(src, edits, si)
    ensures !Fits(src, edits, si) ==> SpliceFrom(src, edits, si) == Err(BoundsPanic)
    decreases |edits|
  {
    if |edits| > 0 && 0 <= si <= edits[0].start <= |src| {
      SpliceOkIff(src, edits[1..], edits[0].end);
    }
  }

  lemma SpliceNoEdits(src: string)
    ensures SpliceFrom(src, [], 0) == Ok(src)
  {
    assert src[0..] == src;
  }

  /** Bytes the edits cover, and bytes they write. */
  function Removed(edits: seq<Edit>): int
    decreases |edits|
  {
    if |edits| == 0 then 0 else edits[0].end - edits[0].start + Removed(edits[1..])
  }

  function Inserted(edits: seq<Edit>): nat
    decreases |edits|
  {
    if |edits| == 0 then 0 else |edits[0].value| + Inserted(edits[1..])
  }

  /** The output is the input minus what the edits cover plus what they write. */
  lemma {:induction false} SpliceLength(src: string, edits: seq<Edit>, si: int)
    requires Fits(src, edits, si)
    ensures SpliceFrom(src, edits, si).Ok?
    ensures |SpliceFrom(src, edits, si).value| == |src| - si - Removed(edits) + Inserted(edits)
    decreases |edits|
  {
    SpliceOkIff(src, edits, si);
    if |edits| > 0 {
      SpliceLength(src, edits[1..], edits[0].end);
    }
  }

  lemma RemovedSplit(edits: seq<Edit>, k: nat)
    requires 0 < k <= |edits|
    ensures Removed(edits[..k]) == edits[0].end - edits[0].start + Removed(edits[1..][..k - 1])
    ensures Inserted(edits[..k]) == |edits[0].value| + Inserted(edits[1..][..k - 1])
  {
    assert edits[..k][1..] == edits[1..][..k - 1];
  }

  /** Bytes written before the splice reaches the end of the k-th edit. */
  function Offset(edits: seq<Edit>, si: int, k: nat): int
    requires 0 < k <= |edits|
  {
    edits[k - 1].end - si - Removed(edits[..k]) + Inserted(edits[..k])
  }

  /** `rest` is what `out` holds from position `w` on. */
  predicate Preceded(out: string, w: int, rest: string)
  {
    0 <= w && w + |rest| == |out| && out[w..] == rest
  }

  /** After the first k edits the output is the splice of the remaining ones from the
      end of the k-th, preceded by exactly end - si - Removed + Inserted bytes. */
  lemma {:induction false} SpliceSuffix(src: string, edits: seq<Edit>, si: int, k: nat)
    requires Fits(src, edits, si) && 0 < k <= |edits|
    ensures SpliceFrom(src, edits, si).Ok? && SpliceFrom(src, edits[k..], edits[k - 1].end).Ok?
    ensures Preceded(SpliceFrom(src, edits, si).value, Offset(edits, si, k),
                     SpliceFrom(src, edits[k..], edits[k - 1].end).value)
    decreases k
  {
    FitsSuffix(src, edits, si, k);
    SpliceOkIff(src, edits[k..], edits[k - 1].end);
    SpliceHead(src, edits, si);
    if k == 1 {
      assert edits[1..] == edits[k..];
      assert Offset(edits, si, k) == |src[si..edits[0].start] + edits[0].value| by {
        assert edits[..k] == [edits[0]];
        assert edits[..k][1..] == [];
        assert Removed(edits[..k]) == edits[0].end - edits[0].start;
        assert Inserted(edits[..k]) == |edits[0].value|;
      }
      SuffixCompose(src[si..edits[0].start] + edits[0].value, SpliceFrom(src, edits[1..], edits[0].end).value,
                    SpliceFrom(src, edits[k..], edits[k - 1].end).value, 0);
    } else {
      SpliceSuffix(src, edits[1..], edits[0].end, k - 1);
      SpliceSuffixStep(src, edits, si, k);
    }
  }

  /** The inductive step of SpliceSuffix: shifting the start by the first edit. */
  lemma SpliceSuffixStep(src: string, edits: seq<Edit>, si: int, k: nat)
    requires Fits(src, edits, si) && 1 < k <= |edits|
    requires SpliceFrom(src, edits, si).Ok? && SpliceFrom(src, edits[1..], edits[0].end).Ok?
    requires SpliceFrom(src, edits, si).value ==
      src[si..edits[0].start] + edits[0].value + SpliceFrom(src, edits[1..], edits[0].end).value
    requires SpliceFrom(src, edits[1..][k - 1..], edits[1..][k - 2].end).Ok?
    requires Preceded(SpliceFrom(src, edits[1..], edits[0].end).value, Offset(edits[1..], edits[0].end, k - 1),
                      SpliceFrom(src, edits[1..][k - 1..], edits[1..][k - 2].end).value)
    ensures SpliceFrom(src, edits[k..], edits[k - 1].end).Ok?
    ensures Preceded(SpliceFrom(src, edits, si).value, Offset(edits, si, k),
                     SpliceFrom(src, edits[k..], edits[k - 1].end).value)
  {
    assert edits[1..][k - 1..] == edits[k..];
    assert edits[1..][k - 2] == edits[k - 1];
    RemovedSplit(edits, k);
    var head := src[si..edits[0].start] + edits[0].value;
    SuffixCompose(head, SpliceFrom(src, edits[1..], edits[0].end).value,
                  SpliceFrom(src, edits[k..], edits[k - 1].end).value, Offset(edits[1..], edits[0].end, k - 1));
  }

  /** One step of the splice: the gap before the first edit, its value, then the rest. */
  lemma SpliceHead(src: string, edits: seq<Edit>, si: int)
    requires Fits(src, edits, si) && 0 < |edits|
    ensures SpliceFrom(src, edits, si).Ok? && SpliceFrom(src, edits[1..], edits[0].end).Ok?
    ensures SpliceFrom(src, edits, si).value ==
      src[si..edits[0].start] + edits[0].value + SpliceFrom(src, edits[1..], edits[0].end).value
  {
    SpliceOkIff(src, edits, si);
    SpliceOkIff(src, edits[1..], edits[0].end);
  }

  lemma SuffixCompose(head: string, out: string, rest: string, w: int)
    requires Preceded(out, w, rest)
    ensures Preceded(head + out, |head| + w, rest)
  {
    assert (head + out)[|head| + w..] == out[w..];
  }

  lemma {:induction false} FitsSuffix(src: string, edits: seq<Edit>, si: int, k: nat)
    requires Fits(src, edits, si) && 0 < k <= |edits|
    ensures Fits(src, edits[k..], edits[k - 1].end)
    decreases k
  {
    if k > 1 {
      FitsSuffix(src, edits[1..], edits[0].end, k - 1);
      assert edits[1..][k - 1..] == edits[k..];
      assert edits[1..][k - 2] == edits[k - 1];
    }
  }

  /** Where the splice loop stands after the edits: the end of the last one. */
  function LastEnd(edits: seq<Edit>, si: int): int
    decreases |edits|
  {
    if |edits| == 0 then si else LastEnd(edits[1..], edits[0].end)
  }

  /** An edit that starts at or after the end of the last one and ends inside the
      source can be appended. */
  lemma {:induction false} FitsAppend(src: string, edits: seq<Edit>, si: int, e: Edit)
    requires Fits(src, edits, si) && LastEnd(edits, si) <= e.start <= e.end <= |src|
    ensures Fits(src, edits + [e], si) && LastEnd(edits + [e], si) == e.end
    decreases |edits|
  {
    if |edits| > 0 {
      assert (edits + [e])[1..] == edits[1..] + [e];
      FitsAppend(src, edits[1..], edits[0].end, e);
    }
  }

  /** The k-th edit is followed in the output by the source bytes up to the next
      edit (or the end of the source), unchanged. */
  lemma SpliceKeepsGap(src: string, edits: seq<Edit>, k: nat)
    requires Fits(src, edits, 0) && 0 < k <= |edits|
    ensures SpliceFrom(src, edits, 0).Ok?
    ensures var q := edits[k - 1].end;
      var next := if k < |edits| then edits[k].start else |src|;
      var w := q - Removed(edits[..k]) + Inserted(edits[..k]);
      var out := SpliceFrom(src, edits, 0).value;
      0 <= q <= next <= |src| && 0 <= w && w + (next - q) <= |out| &&
      out[w..w + (next - q)] == src[q..next]
  {
    SpliceOkIff(src, edits, 0);
    SpliceSuffix(src, edits, 0, k);
    FitsSuffix(src, edits, 0, k);
    var q := edits[k - 1].end;
    var next := if k < |edits| then edits[k].start else |src|;
    var w := q - Removed(edits[..k]) + Inserted(edits[..k]);
    var out := SpliceFrom(src, edits, 0).value;
    SpliceStartsWithGap(src, edits[k..], q);
    if k < |edits| {
      assert edits[k..][0] == edits[k];
    }
    var rest := SpliceFrom(src, edits[k..], q).value;
    SliceOfSuffix(out, w, rest, next - q);
  }

  lemma SliceOfSuffix(out: string, w: int, rest: string, n: int)
    requires 0 <= w <= |out| && out[w..] == rest && 0 <= n <= |rest|
    ensures w + n <= |out| && out[w..w + n] == rest[..n]
  {
    assert out[w..w + n] == out[w..][..n];
  }

  /** A splice starting at `si` first copies the source up to the first edit. */
  lemma SpliceStartsWithGap(src: string, edits: seq<Edit>, si: int)
    requires Fits(src, edits, si)
    ensures SpliceFrom(src, edits, si).Ok?
    ensures var next := if |edits| > 0 then edits[0].start else |src|;
      si <= next && next - si <= |SpliceFrom(src, edits, si).value| &&
      SpliceFrom(src, edits, si).value[..next - si] == src[si..next]
  {
    SpliceOkIff(src, edits, si);
    if |edits| > 0 {
      SpliceOkIff(src, edits[1..], edits[0].end);
      var tail := SpliceFrom(src, edits[1..], edits[0].end).value;
      var gap := src[si..edits[0].start];
      assert SpliceFrom(src, edits, si).value == gap + (edits[0].value + tail);
    }
  }

  // ---------------------------------------------------------------------------
  // Deletions: the bytes no cut covers, in order.

  predicate Covered(edits: seq<Edit>, k: int)
  {
    exists e :: e in edits && e.start <= k < e.end
  }

  predicate Deletions(edits: seq<Edit>)
  {
    forall e :: e in edits ==> e.value == "" && e.start <= e.end
  }

  lemma DeletionsAppend(edits: seq<Edit>, e: Edit)
    requires Deletions(edits) && e.value == "" && e.start <= e.end
    ensures Deletions(edits + [e])
  {
    forall x | x in edits + [e] ensures x.value == "" && x.start <= x.end {
      assert x in edits || x == e;
    }
  }

  /** A deletion after the last edit keeps a list of deletions in bounds. */
  lemma AppendDeletion(src: string, edits: seq<Edit>, e: Edit)
    requires Fits(src, edits, 0) && Deletions(edits)
    requires e.value == "" && LastEnd(edits, 0) <= e.start <= e.end <= |src|
    ensures Fits(src, edits + [e], 0) && Deletions(edits + [e]) && LastEnd(edits + [e], 0) == e.end
  {
    FitsAppend(src, edits, 0, e);
    DeletionsAppend(edits, e);
  }

  /** The bytes of src[k:] that no cut covers, in their original order. */
  function Keep(src: string, k: nat, edits: seq<Edit>): string
    decreases |src| - k
  {
    if k >= |src| then ""
    else (if Covered(edits, k) then "" else [src[k]]) + Keep(src, k + 1, edits)
  }

  lemma {:induction false} KeepPlain(src: string, a: nat, b: nat, edits: seq<Edit>)
    requires a <= b <= |src|
    requires forall k :: a <= k < b ==> !Covered(edits, k)
    ensures Keep(src, a, edits) == src[a..b] + Keep(src, b, edits)
    decreases b - a
  {
    if a < b {
      KeepPlain(src, a + 1, b, edits);
      assert Keep(src, a, edits) == [src[a]] + Keep(src, a + 1, edits);
      assert src[a..b] == [src[a]] + src[a + 1..b];
    } else {
      assert src[a..b] == "";
    }
  }

  lemma {:induction false} KeepSkip(src: string, a: nat, b: nat, edits: seq<Edit>)
    requires a <= b
    requires forall k :: a <= k < b ==> Covered(edits, k)
    ensures Keep(src, a, edits) == Keep(src, b, edits)
    decreases b - a
  {
    if a < b {
      KeepSkip(src, a + 1, b, edits);
      if a >= |src| {
        assert Keep(src, b, edits) == "";
      }
    }
  }

  lemma {:induction false} KeepSame(src: string, a: nat, e1: seq<Edit>, e2: seq<Edit>)
    requires forall k :: a <= k ==> (Covered(e1, k) <==> Covered(e2, k))
    ensures Keep(src, a, e1) == Keep(src, a, e2)
    decreases |src| - a
  {
    if a < |src| {
      KeepSame(src, a + 1, e1, e2);
    }
  }

  lemma {:induction false} FitsStartsAfter(src: string, edits: seq<Edit>, si: int)
    requires Fits(src, edits, si) && Deletions(edits)
    ensures forall e :: e in edits ==> si <= e.start
    decreases |edits|
  {
    if |edits| > 0 {
      FitsStartsAfter(src, edits[1..], edits[0].end);
      forall e | e in edits ensures si <= e.start {
        if e != edits[0] {
          assert e in edits[1..];
        }
      }
    }
  }

  /** Splicing a list of cuts that fits keeps exactly the bytes outside the cuts. */
  lemma {:induction false} SpliceDeletes(src: string, edits: seq<Edit>, si: nat)
    requires Fits(src, edits, si) && Deletions(edits)
    ensures SpliceFrom(src, edits, si) == Ok(Keep(src, si, edits))
    decreases |edits|
  {
    if |edits| == 0 {
      KeepPlain(src, si, |src|, edits);
      assert Keep(src, |src|, edits) == "";
      assert Keep(src, si, edits) == src[si..|src|] + "" == src[si..];
    } else {
      var e, rest := edits[0], edits[1..];
      assert e in edits;
      assert Deletions(rest) by {
        forall x | x in rest ensures x in edits { }
      }
      FitsStartsAfter(src, rest, e.end);
      SpliceDeletes(src, rest, e.end);
      forall k | si <= k < e.start ensures !Covered(edits, k) {
        forall x | x in edits ensures !(x.start <= k < x.end) {
          if x != e {
            assert x in rest;
          }
        }
      }
      KeepPlain(src, si, e.start, edits);
      forall k | e.start <= k < e.end ensures Covered(edits, k) { }
      KeepSkip(src, e.start, e.end, edits);
      forall k | e.end <= k ensures Covered(edits, k) <==> Covered(rest, k) {
        if Covered(edits, k) {
          var x :| x in edits && x.start <= k < x.end;
          if x != e {
            assert x in rest;
          }
        }
        if Covered(rest, k) {
          var x :| x in rest && x.start <= k < x.end;
          assert x in edits;
        }
      }
      KeepSame(src, e.end, edits, rest);
      assert SpliceFrom(src, edits, si) == Emit(src[si..e.start] + "", SpliceFrom(src, rest, e.end));
      assert src[si..e.start] + "" == src[si..e.start];
    }
  }
}
