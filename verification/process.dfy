/** process.go: the older preprocessing pass. It deletes `check ` and `handle err `
    from the source and remembers, in the coordinates of the shortened text, where
    each removed keyword stood: a set of check positions and, for handles, the
    name of the error variable. */
module Process {
  import opened Wrappers
  import opened GoToken
  import opened Splicing

  const EofAfterCheck := "process error: unexpected EOF after check"
  const NotLiteral := "process error: token after handle isn't literal"
  const EofAfterHandle := "process error: unexpected EOF after handle"

  /** A deletion of `length` bytes at byte offset `index` (not cut.go's cut). */
  datatype Cut = Cut(index: int, length: int)

  function AsEdits(cuts: seq<Cut>): (r: seq<Edit>)
    ensures |r| == |cuts|
  {
    if |cuts| == 0 then [] else [Edit("", cuts[0].index, cuts[0].index + cuts[0].length)] + AsEdits(cuts[1..])
  }

  /** What the scan loop accumulates: the cuts, the two maps from token.Pos (one
      more than a byte offset) to what stood there, and the bytes cut so far. */
  datatype Marks = Marks(cuts: seq<Cut>, cm: map<int, bool>, hm: map<int, string>, offset: int)

  const NoMarks := Marks([], map[], map[], 0)

  /** The processed text with its two maps. */
  datatype Output = Output(text: string, cm: map<int, bool>, hm: map<int, string>)

  /** The scanner's position after one Scan from position k. */
  function Next(toks: seq<Token>, k: nat): nat
  {
    if k < |toks| then k + 1 else k
  }

  function Remaining(toks: seq<Token>, k: nat): nat
  {
    if k <= |toks| then |toks| - k else 0
  }

  /** Record one keyword at `t` whose following token is `nt`: cut from the keyword
      up to that token and mark the token's position in the shortened text. */
  function Mark(acc: Marks, t: Token, nt: Token): Marks
  {
    var pos, nextPos := t.offset + 1, nt.offset + 1;
    var diff := nextPos - pos;
    acc.(cuts := acc.cuts + [Cut(pos - 1, diff)], offset := acc.offset + diff)
  }

  /** The scan loop from scanner position k. The token after `check`, and the two
      after `handle`, are consumed without being looked at again. */
  function Collect(toks: seq<Token>, n: nat, k: nat, acc: Marks): (r: Result<Marks>)
    decreases Remaining(toks, k)
  {
    var t := ScanAt(toks, n, k);
    var k1 := Next(toks, k);
    if t.kind.EOF? then Ok(acc)
    else if t.lit == "check" then
      var nt := ScanAt(toks, n, k1);
      if nt.kind.EOF? then Err(EofAfterCheck)
      else
        var m := Mark(acc, t, nt);
        Collect(toks, n, Next(toks, k1), m.(cm := m.cm[nt.offset + 1 - m.offset := true]))
    else if t.lit == "handle" then
      var et := ScanAt(toks, n, k1);
      var k2 := Next(toks, k1);
      if !IsLiteral(et.kind) then Err(NotLiteral)
      else
        var nt := ScanAt(toks, n, k2);
        if nt.kind.EOF? then Err(EofAfterHandle)
        else
          var m := Mark(acc, t, nt);
          Collect(toks, n, Next(toks, k2), m.(hm := m.hm[nt.offset + 1 - m.offset := et.lit]))
    else Collect(toks, n, k1, acc)
  }

  /** process on a source and the tokens the scanner returns for it. */
  function Processed(src: string, toks: seq<Token>): Result<Output>
  {
    match Collect(toks, |src|, 0, NoMarks)
    case Err(m) => Err(m)
    case Ok(acc) =>
      match SpliceFrom(src, AsEdits(acc.cuts), 0)
      case Err(m) => Err(m)
      case Ok(text) => Ok(Output(text, acc.cm, acc.hm))
  }

  /** process: one scan loop filling the maps and the cut list, then the splice. */
  method Process(src: string, toks: seq<Token>) returns (r: Result<Output>)
    ensures r == Processed(src, toks)
  {
    var cuts: seq<Cut> := [];
    var cm: map<int, bool> := map[];
    var hm: map<int, string> := map[];
    var offset := 0;
    var k := 0;
    while true
      invariant Collect(toks, |src|, k, Marks(cuts, cm, hm, offset)) == Collect(toks, |src|, 0, NoMarks)
      decreases Remaining(toks, k)
    {
      var t := ScanAt(toks, |src|, k);
      k := Next(toks, k);
      if t.kind.EOF? {
        break;
      }
      var pos := t.offset + 1;
      if t.lit == "check" {
        var nt := ScanAt(toks, |src|, k);
        k := Next(toks, k);
        if nt.kind.EOF? {
          return Err(EofAfterCheck);
        }
        var nextPos := nt.offset + 1;
        var diff := nextPos - pos;
        offset := offset + diff;
        cm := cm[nextPos - offset := true];
        cuts := cuts + [Cut(pos - 1, diff)];
      } else if t.lit == "handle" {
        var et := ScanAt(toks, |src|, k);
        k := Next(toks, k);
        if !IsLiteral(et.kind) {
          return Err(NotLiteral);
        }
        var nt := ScanAt(toks, |src|, k);
        k := Next(toks, k);
        if nt.kind.EOF? {
          return Err(EofAfterHandle);
        }
        var nextPos := nt.offset + 1;
        var diff := nextPos - pos;
        offset := offset + diff;
        hm := hm[nextPos - offset := et.lit];
        cuts := cuts + [Cut(pos - 1, diff)];
      }
    }
    var text := Splice(src, AsEdits(cuts));
    if text.Err? {
      return Err(text.msg);
    }
    return Ok(Output(text.value, cm, hm));
  }

  // ---------------------------------------------------------------------------
  // Properties.

  /** Tokens from position k on that neither keyword spells. */
  predicate PlainFrom(toks: seq<Token>, k: nat, upto: nat)
  {
    forall j :: k <= j < upto && j < |toks| ==> toks[j].lit != "check" && toks[j].lit != "handle"
  }

  /** A token the scan loop passes over: neither keyword nor EOF. */
  predicate Passed(t: Token)
  {
    t.lit != "check" && t.lit != "handle" && !t.kind.EOF?
  }

  /** Scanning over tokens that are neither keyword nor EOF records nothing. */
  lemma {:induction false} CollectSkips(toks: seq<Token>, n: nat, k: nat, upto: nat, acc: Marks)
    requires k <= upto <= |toks| && forall j :: k <= j < upto ==> Passed(toks[j])
    ensures Collect(toks, n, k, acc) == Collect(toks, n, upto, acc)
    decreases upto - k
  {
    if k < upto {
      CollectSkips(toks, n, k + 1, upto, acc);
    }
  }

  /** Without either keyword the scan records nothing. */
  lemma {:induction false} CollectPlain(toks: seq<Token>, n: nat, k: nat, acc: Marks)
    requires PlainFrom(toks, k, |toks|)
    ensures Collect(toks, n, k, acc) == Ok(acc)
    decreases Remaining(toks, k)
  {
    var t := ScanAt(toks, n, k);
    if !t.kind.EOF? {
      CollectPlain(toks, n, Next(toks, k), acc);
    }
  }

  /** A source with neither keyword comes back unchanged, with two empty maps. */
  lemma NoMarkersUnchanged(src: string, toks: seq<Token>)
    requires PlainFrom(toks, 0, |toks|)
    ensures Processed(src, toks) == Ok(Output(src, map[], map[]))
  {
    CollectPlain(toks, |src|, 0, NoMarks);
    SpliceNoEdits(src);
  }

  lemma RemovedAppend(es: seq<Edit>, e: Edit)
    ensures Removed(es + [e]) == Removed(es) + e.end - e.start
    decreases |es|
  {
    if |es| > 0 {
      assert (es + [e])[1..] == es[1..] + [e];
      RemovedAppend(es[1..], e);
    }
  }

  lemma {:induction false} InsertedNone(cuts: seq<Cut>)
    ensures Inserted(AsEdits(cuts)) == 0
    decreases |cuts|
  {
    if |cuts| > 0 {
      assert AsEdits(cuts)[1..] == AsEdits(cuts[1..]);
      InsertedNone(cuts[1..]);
    }
  }

  lemma {:induction false} AsEditsAppend(cuts: seq<Cut>, c: Cut)
    ensures AsEdits(cuts + [c]) == AsEdits(cuts) + [Edit("", c.index, c.index + c.length)]
    decreases |cuts|
  {
    if |cuts| > 0 {
      assert (cuts + [c])[1..] == cuts[1..] + [c];
      AsEditsAppend(cuts[1..], c);
    }
  }

  /** Where the j-th removed keyword is marked: one more than the offset, in the
      shortened text, of the token that followed it. */
  function MarkerAt(cuts: seq<Cut>, j: int): int
    requires 0 <= j < |cuts|
  {
    cuts[j].index + cuts[j].length + 1 - Removed(AsEdits(cuts)[..j + 1])
  }

  /** The scan loop's invariant: the running offset is the number of bytes cut, and
      the two maps hold exactly one position per cut. */
  ghost predicate Consistent(acc: Marks)
  {
    acc.offset == Removed(AsEdits(acc.cuts)) &&
    (forall key :: key in acc.cm || key in acc.hm <==>
       exists j :: 0 <= j < |acc.cuts| && key == MarkerAt(acc.cuts, j))
  }

  lemma MarkerKept(cuts: seq<Cut>, c: Cut, j: int)
    requires 0 <= j < |cuts|
    ensures MarkerAt(cuts + [c], j) == MarkerAt(cuts, j)
  {
    AsEditsAppend(cuts, c);
    assert AsEdits(cuts + [c])[..j + 1] == AsEdits(cuts)[..j + 1];
  }

  /** Marking one more keyword keeps the invariant. */
  lemma MarkConsistent(acc: Marks, t: Token, nt: Token, key: int, cm: map<int, bool>, hm: map<int, string>)
    requires Consistent(acc)
    requires var m := Mark(acc, t, nt); key == nt.offset + 1 - m.offset
    requires forall x :: x in cm || x in hm <==> x in acc.cm || x in acc.hm || x == key
    ensures var m := Mark(acc, t, nt); Consistent(m.(cm := cm, hm := hm))
  {
    var m := Mark(acc, t, nt);
    var c := Cut(t.offset, nt.offset - t.offset);
    assert m.cuts == acc.cuts + [c];
    AsEditsAppend(acc.cuts, c);
    RemovedAppend(AsEdits(acc.cuts), Edit("", c.index, c.index + c.length));
    var last := |acc.cuts|;
    assert AsEdits(m.cuts)[..last + 1] == AsEdits(m.cuts);
    assert MarkerAt(m.cuts, last) == key;
    forall x ensures (x in cm || x in hm) <==> exists j :: 0 <= j < |m.cuts| && x == MarkerAt(m.cuts, j) {
      if x in acc.cm || x in acc.hm {
        var j :| 0 <= j < |acc.cuts| && x == MarkerAt(acc.cuts, j);
        MarkerKept(acc.cuts, c, j);
      }
      if exists j :: 0 <= j < |m.cuts| && x == MarkerAt(m.cuts, j) {
        var j :| 0 <= j < |m.cuts| && x == MarkerAt(m.cuts, j);
        if j < last {
          MarkerKept(acc.cuts, c, j);
        }
      }
    }
  }

  /** The scan keeps its invariant to the end. */
  lemma {:induction false} CollectConsistent(toks: seq<Token>, n: nat, k: nat, acc: Marks)
    requires Consistent(acc)
    ensures var r := Collect(toks, n, k, acc); r.Ok? ==> Consistent(r.value)
    decreases Remaining(toks, k)
  {
    var t := ScanAt(toks, n, k);
    var k1 := Next(toks, k);
    if t.kind.EOF? {
    } else if t.lit == "check" {
      var nt := ScanAt(toks, n, k1);
      if !nt.kind.EOF? {
        var m := Mark(acc, t, nt);
        var key := nt.offset + 1 - m.offset;
        MarkConsistent(acc, t, nt, key, m.cm[key := true], m.hm);
        CollectConsistent(toks, n, Next(toks, k1), m.(cm := m.cm[key := true]));
      }
    } else if t.lit == "handle" {
      var et := ScanAt(toks, n, k1);
      var k2 := Next(toks, k1);
      var nt := ScanAt(toks, n, k2);
      if IsLiteral(et.kind) && !nt.kind.EOF? {
        var m := Mark(acc, t, nt);
        var key := nt.offset + 1 - m.offset;
        MarkConsistent(acc, t, nt, key, m.cm, m.hm[key := et.lit]);
        CollectConsistent(toks, n, Next(toks, k2), m.(hm := m.hm[key := et.lit]));
      }
    } else {
      CollectConsistent(toks, n, k1, acc);
    }
  }

  /** Scanner offsets never go backwards, EOF included. */
  lemma ScanMonotone(toks: seq<Token>, n: nat, j: nat, k: nat)
    requires Scanned(toks, n) && j <= k
    ensures 0 <= ScanAt(toks, n, j).offset <= ScanAt(toks, n, k).offset <= n
  {
  }

  /** The cuts so far are in order, are deletions, and end no later than the
      token at scanner position k. */
  predicate Ordered(src: string, toks: seq<Token>, k: nat, acc: Marks)
  {
    var es := AsEdits(acc.cuts);
    Fits(src, es, 0) && Deletions(es) && LastEnd(es, 0) <= ScanAt(toks, |src|, k).offset
  }

  lemma MarkOrdered(src: string, acc: Marks, t: Token, nt: Token)
    requires var es := AsEdits(acc.cuts); Fits(src, es, 0) && Deletions(es)
    requires LastEnd(AsEdits(acc.cuts), 0) <= t.offset <= nt.offset <= |src|
    ensures var es := AsEdits(Mark(acc, t, nt).cuts);
      Fits(src, es, 0) && Deletions(es) && LastEnd(es, 0) == nt.offset
  {
    var c := Cut(t.offset, nt.offset - t.offset);
    assert Mark(acc, t, nt).cuts == acc.cuts + [c];
    var es, e := AsEdits(acc.cuts), Edit("", t.offset, nt.offset);
    assert AsEdits(Mark(acc, t, nt).cuts) == es + [e] by {
      AsEditsAppend(acc.cuts, c);
    }
    AppendDeletion(src, es, e);
  }

  lemma MarkInOrder(src: string, toks: seq<Token>, k: nat, j: nat, acc: Marks, t: Token, nt: Token)
    requires Scanned(toks, |src|) && Ordered(src, toks, k, acc) && k <= j
    requires t == ScanAt(toks, |src|, k) && nt == ScanAt(toks, |src|, j)
    ensures Ordered(src, toks, Next(toks, j), Mark(acc, t, nt))
  {
    ScanMonotone(toks, |src|, k, j);
    ScanMonotone(toks, |src|, j, Next(toks, j));
    MarkOrdered(src, acc, t, nt);
  }

  /** The scan keeps the cuts in order, so the splice that follows cannot fail. */
  lemma {:induction false} CollectOrdered(src: string, toks: seq<Token>, k: nat, acc: Marks)
    requires Scanned(toks, |src|) && Ordered(src, toks, k, acc)
    ensures var r := Collect(toks, |src|, k, acc); r.Ok? ==> Ordered(src, toks, |toks|, r.value)
    decreases Remaining(toks, k)
  {
    var n := |src|;
    var t := ScanAt(toks, n, k);
    var k1 := Next(toks, k);
    if t.kind.EOF? {
      ScanMonotone(toks, n, k, k);
    } else if t.lit == "check" {
      var nt := ScanAt(toks, n, k1);
      if !nt.kind.EOF? {
        var m := Mark(acc, t, nt);
        MarkInOrder(src, toks, k, k1, acc, t, nt);
        CollectOrdered(src, toks, Next(toks, k1), m.(cm := m.cm[nt.offset + 1 - m.offset := true]));
      }
    } else if t.lit == "handle" {
      var et := ScanAt(toks, n, k1);
      var k2 := Next(toks, k1);
      var nt := ScanAt(toks, n, k2);
      if IsLiteral(et.kind) && !nt.kind.EOF? {
        var m := Mark(acc, t, nt);
        MarkInOrder(src, toks, k, k2, acc, t, nt);
        CollectOrdered(src, toks, Next(toks, k2), m.(hm := m.hm[nt.offset + 1 - m.offset := et.lit]));
      }
    } else {
      ScanMonotone(toks, n, k, k1);
      CollectOrdered(src, toks, k1, acc);
    }
  }

  lemma {:induction false} AsEditsAt(cuts: seq<Cut>, j: nat)
    requires j < |cuts|
    ensures AsEdits(cuts)[j] == Edit("", cuts[j].index, cuts[j].index + cuts[j].length)
    decreases j
  {
    if j > 0 {
      AsEditsAt(cuts[1..], j - 1);
    }
  }

  lemma {:induction false} AsEditsPrefix(cuts: seq<Cut>, k: nat)
    requires k <= |cuts|
    ensures AsEdits(cuts)[..k] == AsEdits(cuts[..k])
    decreases k
  {
    if k > 0 {
      AsEditsPrefix(cuts[1..], k - 1);
      assert cuts[..k][1..] == cuts[1..][..k - 1];
    }
  }

  /** The scan fails only with one of its three messages. */
  lemma {:induction false} CollectFails(toks: seq<Token>, n: nat, k: nat, acc: Marks)
    ensures var r := Collect(toks, n, k, acc);
      r.Err? ==> r.msg == EofAfterCheck || r.msg == NotLiteral || r.msg == EofAfterHandle
    decreases Remaining(toks, k)
  {
    var t := ScanAt(toks, n, k);
    var k1 := Next(toks, k);
    if t.kind.EOF? {
    } else if t.lit == "check" {
      var nt := ScanAt(toks, n, k1);
      if !nt.kind.EOF? {
        var m := Mark(acc, t, nt);
        CollectFails(toks, n, Next(toks, k1), m.(cm := m.cm[nt.offset + 1 - m.offset := true]));
      }
    } else if t.lit == "handle" {
      var et := ScanAt(toks, n, k1);
      var k2 := Next(toks, k1);
      var nt := ScanAt(toks, n, k2);
      if IsLiteral(et.kind) && !nt.kind.EOF? {
        var m := Mark(acc, t, nt);
        CollectFails(toks, n, Next(toks, k2), m.(hm := m.hm[nt.offset + 1 - m.offset := et.lit]));
      }
    } else {
      CollectFails(toks, n, k1, acc);
    }
  }

  /** On scanner output the splice never fails: process fails only with one of
      the scan's three messages, and otherwise returns the source minus the cut
      bytes, in order, with one map entry per cut. */
  lemma ProcessedSpec(src: string, toks: seq<Token>)
    requires Scanned(toks, |src|)
    ensures var c := Collect(toks, |src|, 0, NoMarks);
      (c.Err? ==>
         Processed(src, toks) == Err(c.msg) &&
         (c.msg == EofAfterCheck || c.msg == NotLiteral || c.msg == EofAfterHandle)) &&
      (c.Ok? ==>
         Consistent(c.value) && Deletions(AsEdits(c.value.cuts)) &&
         Processed(src, toks) == Ok(Output(Keep(src, 0, AsEdits(c.value.cuts)), c.value.cm, c.value.hm)))
  {
    var c := Collect(toks, |src|, 0, NoMarks);
    CollectFails(toks, |src|, 0, NoMarks);
    if c.Ok? {
      CollectConsistent(toks, |src|, 0, NoMarks);
      CollectOrdered(src, toks, 0, NoMarks);
      SpliceDeletes(src, AsEdits(c.value.cuts), 0);
    }
  }

  /** After the j-th cut the spliced text holds the source up to the next cut,
      starting at the marker position minus one. */
  lemma GapAfterCut(src: string, cuts: seq<Cut>, j: nat)
    requires Fits(src, AsEdits(cuts), 0) && j < |cuts|
    ensures SpliceFrom(src, AsEdits(cuts), 0).Ok?
    ensures var key := MarkerAt(cuts, j);
      var q := cuts[j].index + cuts[j].length;
      var next := if j + 1 < |cuts| then cuts[j + 1].index else |src|;
      var text := SpliceFrom(src, AsEdits(cuts), 0).value;
      0 <= q <= next <= |src| && 1 <= key && key - 1 + (next - q) <= |text| &&
      text[key - 1..key - 1 + (next - q)] == src[q..next]
  {
    var es := AsEdits(cuts);
    SpliceKeepsGap(src, es, j + 1);
    AsEditsAt(cuts, j);
    if j + 1 < |cuts| {
      AsEditsAt(cuts, j + 1);
    }
    AsEditsPrefix(cuts, j + 1);
    InsertedNone(cuts[..j + 1]);
  }

  /** Each map key is the token.Pos, in the processed text, of the token that
      followed the removed keyword: from there on the text is the source after
      the cut, up to the next cut. */
  lemma MarkersPointAtNext(src: string, toks: seq<Token>, j: nat)
    requires Scanned(toks, |src|)
    requires var c := Collect(toks, |src|, 0, NoMarks); c.Ok? && j < |c.value.cuts|
    ensures Processed(src, toks).Ok?
    ensures MarkerPoints(src, Collect(toks, |src|, 0, NoMarks).value.cuts, Processed(src, toks).value, j)
  {
    var acc := Collect(toks, |src|, 0, NoMarks).value;
    CollectedFits(src, toks, acc);
    SpliceOkIff(src, AsEdits(acc.cuts), 0);
    ProcessedOf(src, toks, acc);
    MarkerGap(src, acc, Processed(src, toks).value, j);
  }

  /** What the scan collects from scanner output is consistent and fits the source. */
  lemma CollectedFits(src: string, toks: seq<Token>, acc: Marks)
    requires Scanned(toks, |src|) && Collect(toks, |src|, 0, NoMarks) == Ok(acc)
    ensures Consistent(acc) && Fits(src, AsEdits(acc.cuts), 0)
  {
    CollectConsistent(toks, |src|, 0, NoMarks);
    CollectOrdered(src, toks, 0, NoMarks);
  }

  /** The output once the scan has collected acc and its splice succeeds. */
  lemma ProcessedOf(src: string, toks: seq<Token>, acc: Marks)
    requires Collect(toks, |src|, 0, NoMarks) == Ok(acc) && SpliceFrom(src, AsEdits(acc.cuts), 0).Ok?
    ensures Processed(src, toks) == Ok(Output(SpliceFrom(src, AsEdits(acc.cuts), 0).value, acc.cm, acc.hm))
  {
  }

  /** The key of cut j is in one of the output's maps, and from position key - 1
      on the output text holds the source between cut j and the next cut. */
  predicate MarkerPoints(src: string, cuts: seq<Cut>, out: Output, j: nat)
    requires j < |cuts|
  {
    var key := MarkerAt(cuts, j);
    var q := cuts[j].index + cuts[j].length;
    var next := if j + 1 < |cuts| then cuts[j + 1].index else |src|;
    (key in out.cm || key in out.hm) &&
    0 <= q <= next <= |src| && 1 <= key && key - 1 + (next - q) <= |out.text| &&
    out.text[key - 1..key - 1 + (next - q)] == src[q..next]
  }

  /** The marker of cut j in marks that fit the source, in the output built from them. */
  lemma MarkerGap(src: string, acc: Marks, out: Output, j: nat)
    requires Consistent(acc) && Fits(src, AsEdits(acc.cuts), 0) && j < |acc.cuts|
    requires SpliceFrom(src, AsEdits(acc.cuts), 0) == Ok(out.text) && out.cm == acc.cm && out.hm == acc.hm
    ensures MarkerPoints(src, acc.cuts, out, j)
  {
    GapAfterCut(src, acc.cuts, j);
  }

  // ---------------------------------------------------------------------------
  // The cases of process_test.go, one scan step at a time.

  /** One check scanned at position k, with what the scan holds afterwards. */
  lemma CheckStep(toks: seq<Token>, n: nat, k: nat, acc: Marks, after: Marks)
    requires k + 1 < |toks| && toks[k].lit == "check" && !toks[k].kind.EOF? && !toks[k + 1].kind.EOF?
    requires var diff := toks[k + 1].offset - toks[k].offset;
      after == Marks(acc.cuts + [Cut(toks[k].offset, diff)], acc.cm[toks[k + 1].offset + 1 - (acc.offset + diff) := true],
                     acc.hm, acc.offset + diff)
    ensures Collect(toks, n, k, acc) == Collect(toks, n, k + 2, after)
  {
  }

  /** One handle scanned at position k, with what the scan holds afterwards. */
  lemma HandleStep(toks: seq<Token>, n: nat, k: nat, acc: Marks, after: Marks)
    requires k + 2 < |toks| && toks[k].lit == "handle" && !toks[k].kind.EOF?
    requires IsLiteral(toks[k + 1].kind) && !toks[k + 2].kind.EOF?
    requires var diff := toks[k + 2].offset - toks[k].offset;
      after == Marks(acc.cuts + [Cut(toks[k].offset, diff)], acc.cm,
                     acc.hm[toks[k + 2].offset + 1 - (acc.offset + diff) := toks[k + 1].lit], acc.offset + diff)
    ensures Collect(toks, n, k, acc) == Collect(toks, n, k + 3, after)
  {
  }

  /** A token that is neither keyword nor EOF is passed over. */
  lemma SkipStep(toks: seq<Token>, n: nat, k: nat, acc: Marks)
    requires k < |toks| && Passed(toks[k])
    ensures Collect(toks, n, k, acc) == Collect(toks, n, k + 1, acc)
  {
  }

  lemma EndStep(toks: seq<Token>, n: nat, k: nat, acc: Marks)
    requires k < |toks| && toks[k].kind.EOF?
    ensures Collect(toks, n, k, acc) == Ok(acc)
  {
  }

  /** A check, the token after it, then tokens the scan passes over. */
  predicate CheckRun(seg: seq<Token>)
  {
    |seg| >= 2 && seg[0].lit == "check" && !seg[0].kind.EOF? && !seg[1].kind.EOF? &&
    forall i :: 2 <= i < |seg| ==> Passed(seg[i])
  }

  /** A handle, its error variable, the token after it, then tokens the scan passes over. */
  predicate HandleRun(seg: seq<Token>)
  {
    |seg| >= 3 && seg[0].lit == "handle" && !seg[0].kind.EOF? && IsLiteral(seg[1].kind) &&
    !seg[2].kind.EOF? && forall i :: 3 <= i < |seg| ==> Passed(seg[i])
  }

  lemma CheckRunStep(toks: seq<Token>, n: nat, k: nat, seg: seq<Token>, acc: Marks, after: Marks)
    requires k + |seg| <= |toks| && toks[k..k + |seg|] == seg && CheckRun(seg)
    requires var diff := seg[1].offset - seg[0].offset;
      after == Marks(acc.cuts + [Cut(seg[0].offset, diff)], acc.cm[seg[1].offset + 1 - (acc.offset + diff) := true],
                     acc.hm, acc.offset + diff)
    ensures Collect(toks, n, k, acc) == Collect(toks, n, k + |seg|, after)
  {
    assert toks[k] == seg[0] && toks[k + 1] == seg[1];
    CheckStep(toks, n, k, acc, after);
    forall j | k + 2 <= j < k + |seg| ensures Passed(toks[j]) {
      assert toks[j] == seg[j - k];
    }
    CollectSkips(toks, n, k + 2, k + |seg|, after);
  }

  lemma HandleRunStep(toks: seq<Token>, n: nat, k: nat, seg: seq<Token>, acc: Marks, after: Marks)
    requires k + |seg| <= |toks| && toks[k..k + |seg|] == seg && HandleRun(seg)
    requires var diff := seg[2].offset - seg[0].offset;
      after == Marks(acc.cuts + [Cut(seg[0].offset, diff)], acc.cm,
                     acc.hm[seg[2].offset + 1 - (acc.offset + diff) := seg[1].lit], acc.offset + diff)
    ensures Collect(toks, n, k, acc) == Collect(toks, n, k + |seg|, after)
  {
    assert toks[k] == seg[0] && toks[k + 1] == seg[1] && toks[k + 2] == seg[2];
    HandleStep(toks, n, k, acc, after);
    forall j | k + 3 <= j < k + |seg| ensures Passed(toks[j]) {
      assert toks[j] == seg[j - k];
    }
    CollectSkips(toks, n, k + 3, k + |seg|, after);
  }

  /** The tokens of "check nil". */
  function CheckNilTokens(): seq<Token>
  {
    [Token(0, Ident, "check"), Token(6, Ident, "nil"), Token(9, Semicolon, "\n"), Token(9, EOF, "")]
  }

  /** "check nil": one cut of six bytes, the check marked at 1. */
  lemma ProcessVectorCheckNil(src: string, toks: seq<Token>)
    requires src == "check nil" && toks == CheckNilTokens()
    ensures Processed(src, toks) == Ok(Output("nil", map[1 := true], map[]))
  {
    var a1 := Marks([Cut(0, 6)], map[1 := true], map[], 6);
    assert toks[0..3] == toks[..3];
    CheckRunStep(toks, |src|, 0, toks[..3], NoMarks, a1);
    EndStep(toks, |src|, 3, a1);
    assert Collect(toks, |src|, 0, NoMarks) == Ok(a1);
    var es := [Edit("", 0, 6)];
    assert AsEdits(a1.cuts) == es;
    SpliceDeletion(src, es[0], [], 0);
    assert es == [es[0]] + [];
    var tail := src[6..];
    assert tail == "nil";
    EmitNothing(Ok(tail));
  }

  /** The tokens of "check atoi(<arg>)" at byte offset `base`, followed by `last`. */
  function AtoiCall(base: int, arg: string, last: Token): seq<Token>
  {
    [Token(base, Ident, "check"), Token(base + 6, Ident, "atoi"), Token(base + 10, LParen, ""),
     Token(base + 11, Ident, arg), Token(base + 12, RParen, ""), last]
  }

  /** The tokens of "check atoi(a) + check atoi(b) + check atoi(c)". */
  function AtoiTokens(): seq<Token>
  {
    AtoiCall(0, "a", Token(14, Operator("+"), "")) + AtoiCall(16, "b", Token(30, Operator("+"), "")) +
    AtoiCall(32, "c", Token(45, Semicolon, "\n")) + [Token(45, EOF, "")]
  }

  lemma AtoiCallRun(base: int, arg: string, last: Token)
    requires arg != "check" && arg != "handle" && Passed(last)
    ensures var c := AtoiCall(base, arg, last);
      |c| == 6 && CheckRun(c) && c[0].offset == base && c[1].offset == base + 6
  {
  }

  const AtoiFirst := Marks([Cut(0, 6)], map[1 := true], map[], 6)
  const AtoiSecond := Marks([Cut(0, 6), Cut(16, 6)], map[1 := true, 11 := true], map[], 12)
  const AtoiMarks := Marks([Cut(0, 6), Cut(16, 6), Cut(32, 6)], map[1 := true, 11 := true, 21 := true], map[], 18)

  lemma AtoiCollect(toks: seq<Token>, n: nat)
    requires toks == AtoiTokens()
    ensures Collect(toks, n, 0, NoMarks) == Ok(AtoiMarks)
  {
    var c1 := AtoiCall(0, "a", Token(14, Operator("+"), ""));
    var c2 := AtoiCall(16, "b", Token(30, Operator("+"), ""));
    var c3 := AtoiCall(32, "c", Token(45, Semicolon, "\n"));
    assert toks == c1 + c2 + c3 + [Token(45, EOF, "")];
    assert toks[0..6] == c1 && toks[6..12] == c2 && toks[12..18] == c3;
    AtoiCallRun(0, "a", Token(14, Operator("+"), ""));
    AtoiCallRun(16, "b", Token(30, Operator("+"), ""));
    AtoiCallRun(32, "c", Token(45, Semicolon, "\n"));
    AtoiCollectRuns(toks, n, c1, c2, c3);
  }

  lemma AtoiCollectRuns(toks: seq<Token>, n: nat, c1: seq<Token>, c2: seq<Token>, c3: seq<Token>)
    requires |c1| == |c2| == |c3| == 6 && CheckRun(c1) && CheckRun(c2) && CheckRun(c3)
    requires c1[0].offset == 0 && c1[1].offset == 6 && c2[0].offset == 16 && c2[1].offset == 22
    requires c3[0].offset == 32 && c3[1].offset == 38
    requires |toks| == 19 && toks[0..6] == c1 && toks[6..12] == c2 && toks[12..18] == c3
    requires toks[18].kind.EOF?
    ensures Collect(toks, n, 0, NoMarks) == Ok(AtoiMarks)
  {
    assert NoMarks.cuts + [Cut(0, 6)] == AtoiFirst.cuts;
    CheckRunStep(toks, n, 0, c1, NoMarks, AtoiFirst);
    assert AtoiFirst.cuts + [Cut(16, 6)] == AtoiSecond.cuts;
    CheckRunStep(toks, n, 6, c2, AtoiFirst, AtoiSecond);
    assert AtoiSecond.cuts + [Cut(32, 6)] == AtoiMarks.cuts;
    CheckRunStep(toks, n, 12, c3, AtoiSecond, AtoiMarks);
    EndStep(toks, n, 18, AtoiMarks);
  }

  lemma AtoiSplicePieces(src: string)
    requires |src| == 45
    ensures SpliceFrom(src, AsEdits(AtoiMarks.cuts), 0) == Ok(src[6..16] + (src[22..32] + src[38..]))
  {
    var e0, e1, e2 := Edit("", 0, 6), Edit("", 16, 22), Edit("", 32, 38);
    assert AsEdits(AtoiMarks.cuts) == [e0] + [e1, e2];
    assert [e1, e2] == [e1] + [e2];
    assert [e2] == [e2] + [];
    var p1, p2, p3 := src[6..16], src[22..32], src[38..];
    assert SpliceFrom(src, [], 38) == Ok(p3);
    SpliceDeletion(src, e2, [], 22);
    assert SpliceFrom(src, [e2], 22) == Ok(p2 + p3);
    SpliceDeletion(src, e1, [e2], 6);
    assert SpliceFrom(src, [e1, e2], 6) == Ok(p1 + (p2 + p3));
    SpliceDeletion(src, e0, [e1, e2], 0);
    assert src[0..0] + (p1 + (p2 + p3)) == p1 + (p2 + p3);
  }

  lemma AtoiText(src: string)
    requires src == "check " + "atoi(a) + " + "check " + "atoi(b) + " + "check " + "atoi(c)"
    ensures |src| == 45 && src[6..16] + (src[22..32] + src[38..]) == "atoi(a) + " + "atoi(b) + " + "atoi(c)"
  {
    var c, a, b, z := "check ", "atoi(a) + ", "atoi(b) + ", "atoi(c)";
    assert src == c + a + c + b + c + z;
    assert src[6..16] == a;
    assert src[22..32] == b;
    assert src[38..] == z;
  }

  /** "check atoi(a) + check atoi(b) + check atoi(c)", written as its pieces: three
      cuts, the checks marked at 1, 11 and 21 of the shortened text. */
  lemma ProcessVectorAtoi(src: string, toks: seq<Token>)
    requires src == "check " + "atoi(a) + " + "check " + "atoi(b) + " + "check " + "atoi(c)"
    requires toks == AtoiTokens()
    ensures Processed(src, toks) == Ok(Output("atoi(a) + " + "atoi(b) + " + "atoi(c)", map[1 := true, 11 := true, 21 := true], map[]))
  {
    AtoiCollect(toks, |src|);
    AtoiText(src);
    AtoiSplicePieces(src);
  }

  /** The tokens of "check add(1, 1)" at byte offset `base`. */
  function AddCall(base: int): seq<Token>
  {
    [Token(base, Ident, "check"), Token(base + 6, Ident, "add"), Token(base + 9, LParen, ""),
     Token(base + 10, Int, "1"), Token(base + 11, Comma, ""), Token(base + 13, Int, "1"), Token(base + 14, RParen, "")]
  }

  /** The tokens of "check add(check add(1, 1), check add(1, 1))", by check. */
  function NestedOuter(): seq<Token>
  {
    [Token(0, Ident, "check"), Token(6, Ident, "add"), Token(9, LParen, "")]
  }

  function NestedFirst(): seq<Token>
  {
    AddCall(10) + [Token(25, Comma, "")]
  }

  function NestedSecond(): seq<Token>
  {
    AddCall(27) + [Token(42, RParen, ""), Token(43, Semicolon, "\n")]
  }

  function NestedTokens(): seq<Token>
  {
    NestedOuter() + NestedFirst() + NestedSecond() + [Token(43, EOF, "")]
  }

  lemma NestedRuns()
    ensures var a, b, c := NestedOuter(), NestedFirst(), NestedSecond();
      |a| == 3 && |b| == 8 && |c| == 9 && CheckRun(a) && CheckRun(b) && CheckRun(c) &&
      a[0].offset == 0 && a[1].offset == 6 && b[0].offset == 10 && b[1].offset == 16 &&
      c[0].offset == 27 && c[1].offset == 33
  {
  }

  const NestedMarks := Marks([Cut(0, 6), Cut(10, 6), Cut(27, 6)], map[1 := true, 5 := true, 16 := true], map[], 18)

  lemma NestedCollectRuns(toks: seq<Token>, n: nat, a: seq<Token>, b: seq<Token>, c: seq<Token>)
    requires |a| == 3 && |b| == 8 && |c| == 9 && CheckRun(a) && CheckRun(b) && CheckRun(c)
    requires a[0].offset == 0 && a[1].offset == 6 && b[0].offset == 10 && b[1].offset == 16
    requires c[0].offset == 27 && c[1].offset == 33
    requires |toks| == 21 && toks[0..3] == a && toks[3..11] == b && toks[11..20] == c
    requires toks[20].kind.EOF?
    ensures Collect(toks, n, 0, NoMarks) == Ok(NestedMarks)
  {
    var m1 := Marks([Cut(0, 6)], map[1 := true], map[], 6);
    var m2 := Marks([Cut(0, 6), Cut(10, 6)], map[1 := true, 5 := true], map[], 12);
    assert NoMarks.cuts + [Cut(0, 6)] == m1.cuts;
    CheckRunStep(toks, n, 0, a, NoMarks, m1);
    assert m1.cuts + [Cut(10, 6)] == m2.cuts;
    CheckRunStep(toks, n, 3, b, m1, m2);
    assert m2.cuts + [Cut(27, 6)] == NestedMarks.cuts;
    CheckRunStep(toks, n, 11, c, m2, NestedMarks);
    EndStep(toks, n, 20, NestedMarks);
  }

  lemma NestedCollect(toks: seq<Token>, n: nat)
    requires toks == NestedTokens()
    ensures Collect(toks, n, 0, NoMarks) == Ok(NestedMarks)
  {
    var a, b, c := NestedOuter(), NestedFirst(), NestedSecond();
    assert toks == a + b + c + [Token(43, EOF, "")];
    assert toks[0..3] == a && toks[3..11] == b && toks[11..20] == c;
    NestedRuns();
    NestedCollectRuns(toks, n, a, b, c);
  }

  lemma NestedSplicePieces(src: string)
    requires |src| == 43
    ensures SpliceFrom(src, AsEdits(NestedMarks.cuts), 0) == Ok(src[6..10] + (src[16..27] + src[33..]))
  {
    var e0, e1, e2 := Edit("", 0, 6), Edit("", 10, 16), Edit("", 27, 33);
    assert AsEdits(NestedMarks.cuts) == [e0] + [e1, e2];
    assert [e1, e2] == [e1] + [e2];
    assert [e2] == [e2] + [];
    var p1, p2, p3 := src[6..10], src[16..27], src[33..];
    assert SpliceFrom(src, [], 33) == Ok(p3);
    SpliceDeletion(src, e2, [], 16);
    assert SpliceFrom(src, [e2], 16) == Ok(p2 + p3);
    SpliceDeletion(src, e1, [e2], 6);
    assert SpliceFrom(src, [e1, e2], 6) == Ok(p1 + (p2 + p3));
    SpliceDeletion(src, e0, [e1, e2], 0);
    assert src[0..0] + (p1 + (p2 + p3)) == p1 + (p2 + p3);
  }

  lemma NestedText(src: string)
    requires src == "check " + "add(" + "check " + "add(1, 1), " + "check " + "add(1, 1))"
    ensures |src| == 43 && src[6..10] + (src[16..27] + src[33..]) == "add(" + "add(1, 1), " + "add(1, 1))"
  {
    var c, a, b, z := "check ", "add(", "add(1, 1), ", "add(1, 1))";
    assert src == c + a + c + b + c + z;
    assert src[6..10] == a;
    assert src[16..27] == b;
    assert src[33..] == z;
  }

  /** "check add(check add(1, 1), check add(1, 1))", written as its pieces: the checks
      inside the call are cut too, and marked at 1, 5 and 16 of the shortened text. */
  lemma ProcessVectorNested(src: string, toks: seq<Token>)
    requires src == "check " + "add(" + "check " + "add(1, 1), " + "check " + "add(1, 1))"
    requires toks == NestedTokens()
    ensures Processed(src, toks) == Ok(Output("add(" + "add(1, 1), " + "add(1, 1))", map[1 := true, 5 := true, 16 := true], map[]))
  {
    NestedCollect(toks, |src|);
    NestedText(src);
    NestedSplicePieces(src);
  }

  /** The tokens of "handle errFoo { print(errFoo) \n\t os.Exit(1) \n }": the handle
      with its variable and brace, then the body. */
  function HandleTokens(): seq<Token>
  {
    [Token(0, Ident, "handle"), Token(7, Ident, "errFoo"), Token(14, LBrace, "")] +
    [Token(16, Ident, "print"), Token(21, LParen, ""), Token(22, Ident, "errFoo"), Token(28, RParen, ""),
     Token(30, Semicolon, "\n"), Token(33, Ident, "os"), Token(35, Period, ""), Token(36, Ident, "Exit"),
     Token(40, LParen, ""), Token(41, Int, "1"), Token(42, RParen, ""), Token(44, Semicolon, "\n"),
     Token(46, RBrace, ""), Token(47, Semicolon, "\n")] +
    [Token(47, EOF, "")]
  }

  lemma HandleCollect(toks: seq<Token>, n: nat)
    requires toks == HandleTokens()
    ensures Collect(toks, n, 0, NoMarks) == Ok(Marks([Cut(0, 14)], map[], map[1 := "errFoo"], 14))
  {
    var seg := toks[..17];
    assert HandleRun(seg) && seg[0].offset == 0 && seg[1].lit == "errFoo" && seg[2].offset == 14;
    HandleVectorRun(toks, n, seg);
  }

  lemma HandleVectorRun(toks: seq<Token>, n: nat, seg: seq<Token>)
    requires |toks| == 18 && toks[..17] == seg && toks[17].kind.EOF?
    requires HandleRun(seg) && seg[0].offset == 0 && seg[1].lit == "errFoo" && seg[2].offset == 14
    ensures Collect(toks, n, 0, NoMarks) == Ok(Marks([Cut(0, 14)], map[], map[1 := "errFoo"], 14))
  {
    var after := Marks([Cut(0, 14)], map[], map[1 := "errFoo"], 14);
    assert NoMarks.cuts + [Cut(0, 14)] == after.cuts;
    assert toks[0..17] == seg;
    HandleRunStep(toks, n, 0, seg, NoMarks, after);
    EndStep(toks, n, 17, after);
  }

  /** "handle errFoo { ... }", written as its pieces: the handle and its variable are
      cut, and the variable is recorded at 1, the position of the brace. */
  lemma ProcessVectorHandle(src: string, toks: seq<Token>)
    requires src == "handle errFoo " + "{ print(errFoo) \n\t os.Exit(1) \n }"
    requires toks == HandleTokens()
    ensures Processed(src, toks) == Ok(Output("{ print(errFoo) \n\t os.Exit(1) \n }", map[], map[1 := "errFoo"]))
  {
    HandleCollect(toks, |src|);
    var h, body := "handle errFoo ", "{ print(errFoo) \n\t os.Exit(1) \n }";
    assert src[14..] == body;
    var e := Edit("", 0, 14);
    assert AsEdits([Cut(0, 14)]) == [e] + [];
    SpliceDeletion(src, e, [], 0);
    assert src[0..0] + body == body;
  }

  /** The tokens of "check add(1, 2)". */
  function CheckAddTokens(): seq<Token>
  {
    [Token(0, Ident, "check"), Token(6, Ident, "add"), Token(9, LParen, ""), Token(10, Int, "1"),
     Token(11, Comma, ""), Token(13, Int, "2"), Token(14, RParen, ""), Token(15, Semicolon, "\n"),
     Token(15, EOF, "")]
  }

  /** "check add(1, 2)": one cut of six bytes, the check marked at 1. */
  lemma ProcessVectorCheckAdd(src: string, toks: seq<Token>)
    requires src == "check " + "add(1, 2)" && toks == CheckAddTokens()
    ensures Processed(src, toks) == Ok(Output("add(1, 2)", map[1 := true], map[]))
  {
    var a1 := Marks([Cut(0, 6)], map[1 := true], map[], 6);
    var seg := toks[..8];
    assert CheckRun(seg) && toks[0..8] == seg;
    CheckRunStep(toks, |src|, 0, seg, NoMarks, a1);
    EndStep(toks, |src|, 8, a1);
    var e := Edit("", 0, 6);
    assert AsEdits(a1.cuts) == [e] + [];
    SpliceDeletion(src, e, [], 0);
    var tail := src[6..];
    assert tail == "add(1, 2)";
    assert src[0..0] + tail == tail;
  }

  /** "handle" alone: the token after it is the semicolon the scanner inserts at the
      end of the line, not a literal. */
  lemma ProcessVectorHandleAlone(src: string, toks: seq<Token>)
    requires src == "handle" && toks == [Token(0, Ident, "handle"), Token(6, Semicolon, "\n"), Token(6, EOF, "")]
    ensures Processed(src, toks) == Err(NotLiteral)
  {
    assert !IsLiteral(toks[1].kind);
  }
}
