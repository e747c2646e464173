/** cut.go: deleting byte ranges [start, end) from a string. The cuts are sorted in
    place with sort.Sort, consecutive duplicates are dropped, and the bytes between
    them are copied out. */
module Cut {
  import opened Wrappers
  import opened Splicing

  datatype Cut = Cut(start: int, end: int)

  const OverlapPanic := "overlapping cuts"

  /** b lies wholly after a, with at least one byte between them. */
  predicate Before(a: Cut, b: Cut)
  {
    a.end < b.start
  }

  /** Pairs Less can order without panicking. */
  predicate Comparable(a: Cut, b: Cut)
  {
    Before(b, a) || Before(a, b) || a == b
  }

  predicate Proper(c: Cut)
  {
    c.start <= c.end
  }

  /** Less: false when a starts after b ends, true when b starts after a ends, false
      for identical cuts; any other pair panics. */
  function Less(a: Cut, b: Cut): (r: Result<bool>)
    ensures r.Err? <==> !Comparable(a, b)
    ensures r.Err? ==> r.msg == OverlapPanic
    ensures r == Ok(true) ==> Before(a, b)
    ensures r == Ok(false) ==> Before(b, a) || a == b
  {
    if a.start > b.end then Ok(false)
    else if b.start > a.end then Ok(true)
    else if a == b then Ok(false)
    else Err(OverlapPanic)
  }

  /** For proper cuts Less is a strict order: irreflexive and asymmetric. */
  lemma LessStrict(a: Cut, b: Cut)
    requires Proper(a) && Proper(b)
    ensures Less(a, a) == Ok(false)
    ensures Less(a, b) == Ok(true) ==> Less(b, a) == Ok(false)
  {
  }

  /** Overlapping cuts, and distinct cuts that only touch at an endpoint, panic in
      either order. */
  lemma LessPanicsOnContact(a: Cut, b: Cut)
    requires Proper(a) && Proper(b) && a != b
    requires a.start <= b.start <= a.end
    ensures Less(a, b) == Err(OverlapPanic) && Less(b, a) == Err(OverlapPanic)
  {
  }

  /** Swap exchanges two elements and leaves the rest untouched. */
  method Swap(cs: array<Cut>, i: int, j: int)
    requires 0 <= i < cs.Length && 0 <= j < cs.Length
    modifies cs
    ensures cs[..] == old(cs[..])[i := old(cs[j])][j := old(cs[i])]
    ensures multiset(cs[..]) == multiset(old(cs[..]))
  {
    cs[i], cs[j] := cs[j], cs[i];
  }

  /** a may stand right before b in a sorted list. */
  predicate Adj(a: Cut, b: Cut)
  {
    a == b || Before(a, b)
  }

  /** Each cut is equal to or wholly before the next one. */
  predicate Sorted(s: seq<Cut>)
  {
    forall k :: 0 < k < |s| ==> Adj(s[k - 1], s[k])
  }

  predicate AllComparable(s: seq<Cut>)
  {
    forall x, y :: x in s && y in s ==> Comparable(x, y)
  }

  predicate AllProper(s: seq<Cut>)
  {
    forall x :: x in s ==> Proper(x)
  }

  /** Two sorted halves with a sorted seam make a sorted whole. */
  lemma SortedJoin(s: seq<Cut>, j: nat)
    requires j <= |s| && Sorted(s[..j]) && Sorted(s[j..])
    requires 0 < j < |s| ==> Adj(s[j - 1], s[j])
    ensures Sorted(s)
  {
    forall k | 0 < k < |s| ensures Adj(s[k - 1], s[k]) {
      if k < j {
        assert s[..j][k - 1] == s[k - 1] && s[..j][k] == s[k];
      } else if k > j {
        assert s[j..][k - 1 - j] == s[k - 1] && s[j..][k - j] == s[k];
      }
    }
  }

  /** The state of the inner loop while cs[i] is moved down to position j: both
      sides of j are sorted, the element at j is before its right neighbour, and
      that neighbour may follow the element left of j. */
  predicate Inserting(s: seq<Cut>, j: int, i: int)
  {
    0 <= j <= i < |s| && Sorted(s[..j]) && Sorted(s[j..i + 1]) &&
    (0 < j < i ==> Adj(s[j - 1], s[j + 1])) &&
    (j < i ==> Before(s[j], s[j + 1]))
  }

  lemma InsertStart(s: seq<Cut>, i: int)
    requires 0 <= i < |s| && Sorted(s[..i])
    ensures Inserting(s, i, i)
  {
    assert Sorted(s[i..i + 1]);
  }

  /** What one swap of the inner loop preserves. */
  lemma SwapDown(s: seq<Cut>, j: nat, i: nat)
    requires 0 < j && Inserting(s, j, i) && Before(s[j], s[j - 1])
    ensures Inserting(s[j := s[j - 1]][j - 1 := s[j]], j - 1, i)
  {
    var t := s[j := s[j - 1]][j - 1 := s[j]];
    var lo, hi := t[..j - 1], t[j - 1..i + 1];
    forall k | 0 < k < |lo| ensures Adj(lo[k - 1], lo[k]) {
      assert s[..j][k - 1] == s[k - 1] && s[..j][k] == s[k];
    }
    if 0 < j - 1 {
      assert s[..j][j - 2] == s[j - 2] && s[..j][j - 1] == s[j - 1];
    }
    forall k | 0 < k < |hi| ensures Adj(hi[k - 1], hi[k]) {
      var m := j - 1 + k;
      assert hi[k - 1] == t[m - 1] && hi[k] == t[m];
      if m > j + 1 {
        assert s[j..i + 1][m - 1 - j] == s[m - 1] && s[j..i + 1][m - j] == s[m];
      }
    }
  }

  /** The loop stops at the front or where the left neighbour may precede. */
  lemma InsertDone(s: seq<Cut>, j: nat, i: nat)
    requires Inserting(s, j, i) && (j == 0 || Adj(s[j - 1], s[j]))
    ensures Sorted(s[..i + 1])
  {
    assert s[..i + 1][..j] == s[..j] && s[..i + 1][j..] == s[j..i + 1];
    SortedJoin(s[..i + 1], j);
  }

  /** Sort: sort.Sort's insertion sort, which moves each element down while it is
      Less than its left neighbour. A panic of Less is returned as Some(message). */
  method Sort(cs: array<Cut>) returns (panicked: Option<string>)
    modifies cs
    ensures multiset(cs[..]) == multiset(old(cs[..]))
    ensures panicked.None? ==> Sorted(cs[..])
    ensures AllComparable(old(cs[..])) ==> panicked.None?
    ensures panicked.Some? ==> panicked.value == OverlapPanic
  {
    var i := 1;
    while i < cs.Length
      invariant multiset(cs[..]) == multiset(old(cs[..]))
      invariant cs.Length == 0 || (1 <= i <= cs.Length && Sorted(cs[..i]))
    {
      panicked := InsertDown(cs, i);
      if panicked.Some? {
        SamePairs(old(cs[..]), cs[..]);
        return;
      }
      i := i + 1;
    }
    assert cs.Length == 0 || cs[..i] == cs[..];
    return None;
  }

  /** The inner loop of the insertion sort: moves cs[i] down into the sorted cs[..i]. */
  method InsertDown(cs: array<Cut>, i: int) returns (panicked: Option<string>)
    requires 1 <= i < cs.Length && Sorted(cs[..i])
    modifies cs
    ensures multiset(cs[..]) == multiset(old(cs[..]))
    ensures panicked.None? ==> Sorted(cs[..i + 1])
    ensures panicked.Some? ==> !AllComparable(cs[..])
    ensures panicked.Some? ==> panicked.value == OverlapPanic
  {
    var j := i;
    var done := false;
    InsertStart(cs[..], i);
    while j > 0 && !done
      invariant Inserting(cs[..], j, i)
      invariant multiset(cs[..]) == multiset(old(cs[..]))
      invariant done ==> 0 < j && Adj(cs[j - 1], cs[j])
      decreases j + (if done then 0 else 1)
    {
      var less := Less(cs[j], cs[j - 1]);
      if less.Err? {
        Incomparable(cs[..], j, j - 1);
        return Some(less.msg);
      }
      if less.value {
        MoveDown(cs, j, i);
        j := j - 1;
      } else {
        done := true;
      }
    }
    InsertDone(cs[..], j, i);
    return None;
  }

  /** One swap of the inner loop. */
  method MoveDown(cs: array<Cut>, j: int, i: int)
    requires 0 < j && Inserting(cs[..], j, i) && Before(cs[j], cs[j - 1])
    modifies cs
    ensures Inserting(cs[..], j - 1, i)
    ensures multiset(cs[..]) == multiset(old(cs[..]))
  {
    SwapDown(cs[..], j, i);
    Swap(cs, j, j - 1);
  }

  lemma Incomparable(s: seq<Cut>, a: int, b: int)
    requires 0 <= a < |s| && 0 <= b < |s| && !Comparable(s[a], s[b])
    ensures !AllComparable(s)
  {
    assert s[a] in s && s[b] in s;
  }

  /** Permutations have the same comparable pairs. */
  lemma SamePairs(a: seq<Cut>, b: seq<Cut>)
    requires multiset(a) == multiset(b)
    ensures AllComparable(a) <==> AllComparable(b)
  {
    SameMembers(a, b);
  }

  /** For proper cuts, sortedness between neighbours extends to every pair. */
  lemma {:induction false} SortedAllPairs(s: seq<Cut>, i: nat, j: nat)
    requires AllProper(s) && Sorted(s) && i < j < |s|
    ensures s[i] == s[j] || Before(s[i], s[j])
    decreases j - i
  {
    if i + 1 < j {
      SortedAllPairs(s, i + 1, j);
      assert s[i] in s && s[i + 1] in s;
    }
  }

  /** A sorted arrangement of proper cuts has no incomparable pair, so neither has
      any permutation of it. */
  lemma SortedComparable(s: seq<Cut>, orig: seq<Cut>)
    requires Sorted(s) && multiset(s) == multiset(orig)
    ensures AllProper(orig) ==> AllComparable(orig)
  {
    if AllProper(orig) {
      SameMembers(s, orig);
      forall x, y | x in orig && y in orig ensures Comparable(x, y) {
        var i :| 0 <= i < |s| && s[i] == x;
        var j :| 0 <= j < |s| && s[j] == y;
        if i < j {
          SortedAllPairs(s, i, j);
        } else if j < i {
          SortedAllPairs(s, j, i);
        }
      }
    }
  }

  // ---------------------------------------------------------------------------
  // Uniq

  /** The list with each element equal to its predecessor dropped. */
  function Dedup(s: seq<Cut>): seq<Cut>
    decreases |s|
  {
    if |s| <= 1 then s
    else if s[|s| - 1] == s[|s| - 2] then Dedup(s[..|s| - 1])
    else Dedup(s[..|s| - 1]) + [s[|s| - 1]]
  }

  /** Uniq: appends each cut that differs from the one before it. */
  method Uniq(cs: seq<Cut>) returns (r: seq<Cut>)
    ensures r == Dedup(cs)
  {
    r := [];
    var i := 0;
    while i < |cs|
      invariant 0 <= i <= |cs|
      invariant r == Dedup(cs[..i])
    {
      assert cs[..i + 1][..i] == cs[..i];
      if i == 0 || cs[i] != cs[i - 1] {
        r := r + [cs[i]];
      }
      i := i + 1;
    }
    assert cs[..i] == cs;
  }

  lemma {:induction false} DedupLast(s: seq<Cut>)
    requires |s| > 0
    ensures |Dedup(s)| > 0 && Dedup(s)[|Dedup(s)| - 1] == s[|s| - 1]
    decreases |s|
  {
    if |s| > 1 && s[|s| - 1] == s[|s| - 2] {
      DedupLast(s[..|s| - 1]);
    }
  }

  /** Uniq drops only consecutive duplicates: the result has none, holds the same
      cuts, and leaves a list without consecutive duplicates as it is. */
  lemma {:induction false} DedupSpec(s: seq<Cut>)
    ensures forall k :: 0 < k < |Dedup(s)| ==> Dedup(s)[k - 1] != Dedup(s)[k]
    ensures forall x :: x in Dedup(s) <==> x in s
    ensures (forall k :: 0 < k < |s| ==> s[k - 1] != s[k]) ==> Dedup(s) == s
    decreases |s|
  {
    if |s| > 1 {
      var p := s[..|s| - 1];
      DedupSpec(p);
      DedupLast(p);
      assert s == p + [s[|s| - 1]];
      assert s[|s| - 2] in p;
    }
  }

  /** After sorting, Uniq leaves every cut wholly before the next. */
  lemma {:induction false} DedupStrict(s: seq<Cut>)
    requires Sorted(s)
    ensures forall k :: 0 < k < |Dedup(s)| ==> Before(Dedup(s)[k - 1], Dedup(s)[k])
    decreases |s|
  {
    if |s| > 1 {
      var p := s[..|s| - 1];
      assert Sorted(p) by {
        forall k | 0 < k < |p| ensures Adj(p[k - 1], p[k]) {
          assert p[k - 1] == s[k - 1] && p[k] == s[k];
        }
      }
      DedupStrict(p);
      DedupLast(p);
    }
  }

  // ---------------------------------------------------------------------------
  // Apply

  function AsEdits(s: seq<Cut>): (r: seq<Edit>)
    ensures |r| == |s|
    ensures forall k :: 0 <= k < |s| ==> r[k] == Edit("", s[k].start, s[k].end)
  {
    if |s| == 0 then [] else [Edit("", s[0].start, s[0].end)] + AsEdits(s[1..])
  }

  predicate InBounds(s: seq<Cut>, n: nat)
  {
    forall x :: x in s ==> 0 <= x.start && x.end <= n
  }

  lemma CoveredByCuts(s: seq<Cut>, k: int)
    ensures Covered(AsEdits(s), k) <==> exists c :: c in s && c.start <= k < c.end
  {
    var e := AsEdits(s);
    if Covered(e, k) {
      var x :| x in e && x.start <= k < x.end;
      var i :| 0 <= i < |e| && e[i] == x;
      assert s[i] in s;
    }
    if exists c :: c in s && c.start <= k < c.end {
      var c :| c in s && c.start <= k < c.end;
      var i :| 0 <= i < |s| && s[i] == c;
      assert e[i] in e;
    }
  }

  /** Strictly ordered proper cuts inside the string fit the splice loop. */
  lemma {:induction false} StrictFits(u: seq<Cut>, s: string, si: int)
    requires forall k :: 0 < k < |u| ==> Before(u[k - 1], u[k])
    requires AllProper(u) && InBounds(u, |s|)
    requires 0 <= si <= |s| && (|u| > 0 ==> si <= u[0].start)
    ensures Fits(s, AsEdits(u), si)
    decreases |u|
  {
    if |u| > 0 {
      assert u[0] in u;
      var rest := u[1..];
      assert AsEdits(u)[1..] == AsEdits(rest);
      forall x | x in rest ensures x in u { }
      if |rest| > 0 {
        assert Before(u[0], u[1]);
      }
      StrictFits(rest, s, u[0].end);
    }
  }

  lemma SameMembers(a: seq<Cut>, b: seq<Cut>)
    requires multiset(a) == multiset(b)
    ensures forall x :: x in a <==> x in b
  {
    forall x ensures x in a <==> x in b {
      assert x in a <==> x in multiset(a);
      assert x in b <==> x in multiset(b);
    }
  }

  lemma CutsAreDeletions(u: seq<Cut>)
    requires AllProper(u)
    ensures Deletions(AsEdits(u))
  {
    var e := AsEdits(u);
    forall x | x in e ensures x.value == "" && x.start <= x.end {
      var i :| 0 <= i < |e| && e[i] == x;
      assert u[i] in u;
    }
  }

  /** Lists of cuts with the same members cover the same bytes. */
  lemma SameCover(a: seq<Cut>, b: seq<Cut>)
    requires forall x :: x in a <==> x in b
    ensures forall k :: Covered(AsEdits(a), k) <==> Covered(AsEdits(b), k)
  {
    forall k ensures Covered(AsEdits(a), k) <==> Covered(AsEdits(b), k) {
      CoveredByCuts(a, k);
      CoveredByCuts(b, k);
    }
  }

  /** The sorted, deduplicated cuts delete what the original cuts cover. */
  lemma ApplyDeletes(orig: seq<Cut>, sorted: seq<Cut>, s: string)
    requires multiset(sorted) == multiset(orig) && Sorted(sorted)
    requires AllProper(orig) && InBounds(orig, |s|)
    ensures SpliceFrom(s, AsEdits(Dedup(sorted)), 0) == Ok(Keep(s, 0, AsEdits(orig)))
  {
    var u := Dedup(sorted);
    DedupSpec(sorted);
    DedupStrict(sorted);
    SameMembers(sorted, orig);
    assert forall x :: x in u <==> x in orig;
    assert AllProper(u) && InBounds(u, |s|);
    if |u| > 0 {
      assert u[0] in u;
    }
    StrictFits(u, s, 0);
    CutsAreDeletions(u);
    SpliceDeletes(s, AsEdits(u), 0);
    SameCover(u, orig);
    KeepSame(s, 0, AsEdits(u), AsEdits(orig));
  }

  /** Apply: sort the cuts in place, drop consecutive duplicates, and copy out the
      bytes between the cuts. For proper cuts inside the string it panics exactly
      when two cuts overlap or touch, and otherwise deletes exactly the covered
      bytes, whatever order the cuts came in. */
  method Apply(cs: array<Cut>, s: string) returns (r: Result<string>)
    modifies cs
    ensures multiset(cs[..]) == multiset(old(cs[..]))
    ensures r.Ok? ==> Sorted(cs[..]) && r == SpliceFrom(s, AsEdits(Dedup(cs[..])), 0)
    ensures AllProper(old(cs[..])) && !AllComparable(old(cs[..])) ==> r == Err(OverlapPanic)
    ensures AllProper(old(cs[..])) && AllComparable(old(cs[..])) && InBounds(old(cs[..]), |s|) ==>
              r == Ok(Keep(s, 0, AsEdits(old(cs[..]))))
  {
    ghost var orig := cs[..];
    var panicked := Sort(cs);
    if panicked.Some? {
      return Err(panicked.value);
    }
    SortedComparable(cs[..], orig);
    var u := Uniq(cs[..]);
    if AllProper(orig) && InBounds(orig, |s|) {
      ApplyDeletes(orig, cs[..], s);
    }
    r := Splice(s, AsEdits(u));
  }

  /** The vectors of cut_test.go: what Apply returns for them by its last ensures. */
  lemma ApplyVectorOne()
    ensures Keep("hello world", 0, AsEdits([Cut(1, 2)])) == "hllo world"
  {
    var src, cs := "hello world", [Cut(1, 2)];
    ApplyDeletes(cs, cs, src);
    assert SpliceFrom(src, AsEdits(cs), 0) == Ok(src[0..1] + "" + src[2..]);
    assert src[0..1] + "" + src[2..] == "hllo world";
  }

  lemma ApplyVectorTwo()
    ensures Keep("hello world", 0, AsEdits([Cut(7, 8), Cut(0, 5)])) == " wrld"
  {
    var src, cs, sorted := "hello world", [Cut(7, 8), Cut(0, 5)], [Cut(0, 5), Cut(7, 8)];
    assert multiset(sorted) == multiset(cs);
    assert Dedup(sorted) == sorted;
    ApplyDeletes(cs, sorted, src);
    SpliceVectorTwo();
  }

  lemma SpliceVectorTwo()
    ensures SpliceFrom("hello world", AsEdits([Cut(0, 5), Cut(7, 8)]), 0) == Ok(" wrld")
  {
    var src, e := "hello world", AsEdits([Cut(0, 5), Cut(7, 8)]);
    assert e[1..] == [Edit("", 7, 8)];
    SpliceVectorTwoTail();
    assert SpliceFrom(src, e, 0) == Emit(src[0..0] + "", SpliceFrom(src, e[1..], 5));
    assert src[0..0] + "" == "";
    EmitNothing(SpliceFrom(src, e[1..], 5));
  }

  lemma SpliceVectorTwoTail()
    ensures SpliceFrom("hello world", [Edit("", 7, 8)], 5) == Ok(" wrld")
  {
    var src, e1 := "hello world", [Edit("", 7, 8)];
    assert e1[1..] == [];
    assert SpliceFrom(src, [], 8) == Ok(src[8..]);
    assert SpliceFrom(src, e1, 5) == Emit(src[5..7] + "", Ok(src[8..]));
    var gap, tail := src[5..7], src[8..];
    assert gap == " w" && tail == "rld";
    assert gap + "" + tail == " wrld";
  }

  lemma ApplyVectorPanic()
    ensures !AllComparable([Cut(1, 5), Cut(3, 7)])
  {
    assert !Comparable(Cut(1, 5), Cut(3, 7));
  }
}
