/** typevar.go: turning the spelling of a Go type into an identifier fragment
    (`**foo` becomes `ptrPtrFoo`, `map[int]bool` becomes `mapOfIntToBool`). */
module TypeVar {
  import opened Wrappers
  import opened GoStrings

  /** Upper-cases the first byte and keeps the rest; "" is returned as is. */
  function Capitalize(s: string): string
  {
    if |s| == 0 then s else [ToUpperAscii(s[0])] + s[1..]
  }

  lemma CapitalizeShape(s: string)
    ensures |s| == 0 ==> Capitalize(s) == s
    ensures |Capitalize(s)| == |s|
    ensures |s| > 0 ==> Capitalize(s)[0] == ToUpperAscii(s[0]) && Capitalize(s)[1..] == s[1..]
    ensures Capitalize(Capitalize(s)) == Capitalize(s)
  {
  }

  /** The index of the first `]` met at bracket depth 0 when `t` is scanned from `i`
      with `bracks` brackets open, or -1: the loop of mapTypeToVar. */
  function MapKeyClose(t: string, i: nat, bracks: int): (j: int)
    requires i <= |t|
    ensures j == -1 || (i <= j < |t| && t[j] == ']')
    decreases |t| - i
  {
    if i == |t| then -1
    else if t[i] == '[' then MapKeyClose(t, i + 1, bracks + 1)
    else if t[i] == ']' then (if bracks == 0 then i else MapKeyClose(t, i + 1, bracks - 1))
    else MapKeyClose(t, i + 1, bracks)
  }

  function Prefixed(tag: string, r: Result<string>): Result<string>
  {
    match r
    case Ok(s) => Ok(tag + Capitalize(s))
    case Err(m) => Err(m)
  }

  predicate IsMapSpelling(t: string) { |t| > 4 && t[..4] == "map[" }
  predicate IsSliceSpelling(t: string) { |t| > 2 && t[..2] == "[]" }
  predicate IsArraySpelling(t: string) { |t| > 1 && t[0] == '[' }
  predicate IsPointerSpelling(t: string) { |t| > 1 && t[0] == '*' }

  /** typeToVar: the switch of typevar.go, with the two helpers inlined; a panic
      becomes Err. Every recursive call is on a strictly shorter string. */
  function TypeToVar(t: string): Result<string>
    decreases |t|
  {
    if IsMapSpelling(t) then
      var u := t[4..];
      var k := MapKeyClose(u, 0, 0);
      if k < 0 then Err("invalid map type: " + u)
      else
        match TypeToVar(u[..k])
        case Err(m) => Err(m)
        case Ok(key) =>
          match TypeToVar(u[k + 1..])
          case Err(m) => Err(m)
          case Ok(val) => Ok("mapOf" + Capitalize(key) + "To" + Capitalize(val))
    else if IsSliceSpelling(t) then Prefixed("slc", TypeToVar(t[2..]))
    else if IsArraySpelling(t) then
      var k := IndexOf(t, ']');
      if k < 0 then Err("invalid arr type: " + t) else Prefixed("arr", TypeToVar(t[k + 1..]))
    else if IsPointerSpelling(t) then Prefixed("ptr", TypeToVar(t[1..]))
    else
      var dot := IndexOf(t, '.');
      if dot < 0 then Ok(t) else TypeToVar(t[dot + 1..])
  }

  /** mapTypeToVar: finds the key's closing bracket with a depth counter. */
  method MapTypeToVar(t: string) returns (r: Result<string>)
    requires IsMapSpelling(t)
    ensures r == TypeToVar(t)
  {
    var u := t[4..];
    var bracks := 0;
    var i := 0;
    while i < |u|
      invariant 0 <= i <= |u|
      invariant MapKeyClose(u, i, bracks) == MapKeyClose(u, 0, 0)
    {
      if u[i] == '[' {
        bracks := bracks + 1;
      } else if u[i] == ']' {
        if bracks == 0 {
          var key := TypeToVar(u[..i]);
          if key.Err? {
            return Err(key.msg);
          }
          var val := TypeToVar(u[i + 1..]);
          if val.Err? {
            return Err(val.msg);
          }
          return Ok("mapOf" + Capitalize(key.value) + "To" + Capitalize(val.value));
        }
        bracks := bracks - 1;
      }
      i := i + 1;
    }
    return Err("invalid map type: " + u);
  }

  /** arrTypeToVar: skips to the first `]` and encodes what follows it. */
  method ArrTypeToVar(t: string) returns (r: Result<string>)
    requires IsArraySpelling(t) && !IsMapSpelling(t) && !IsSliceSpelling(t)
    ensures r == TypeToVar(t)
  {
    IndexOfFirst(t, ']');
    var i := 0;
    while i < |t|
      invariant 0 <= i <= |t|
      invariant forall k :: 0 <= k < i ==> t[k] != ']'
    {
      if t[i] == ']' {
        return Prefixed("arr", TypeToVar(t[i + 1..]));
      }
      i := i + 1;
    }
    return Err("invalid arr type: " + t);
  }

  // ---------------------------------------------------------------------------
  // The spelling go/types gives a type, and the encoding it should receive.

  datatype GoType =
    | Named(pkg: string, name: string)
    | Pointer(elem: GoType)
    | Slice(elem: GoType)
    | Array(len: nat, elem: GoType)
    | Map(key: GoType, value: GoType)

  /** types.Type.String(): a named type is qualified by its package path, if any. */
  function Spelling(t: GoType): string
  {
    match t
    case Named(pkg, name) => if pkg == "" then name else pkg + "." + name
    case Pointer(e) => "*" + Spelling(e)
    case Slice(e) => "[]" + Spelling(e)
    case Array(n, e) => "[" + Itoa(n) + "]" + Spelling(e)
    case Map(k, v) => "map[" + Spelling(k) + "]" + Spelling(v)
  }

  /** The identifier fragment each type constructor contributes. */
  function Encoding(t: GoType): string
  {
    match t
    case Named(_, name) => name
    case Pointer(e) => "ptr" + Capitalize(Encoding(e))
    case Slice(e) => "slc" + Capitalize(Encoding(e))
    case Array(_, e) => "arr" + Capitalize(Encoding(e))
    case Map(k, v) => "mapOf" + Capitalize(Encoding(k)) + "To" + Capitalize(Encoding(v))
  }

  predicate NoSpecial(s: string)
  {
    '[' !in s && ']' !in s && '*' !in s
  }

  /** Type names are non-empty and free of `.`, brackets and `*`; package paths
      are free of brackets and `*`. */
  predicate WellFormed(t: GoType)
  {
    match t
    case Named(pkg, name) => name != "" && NoSpecial(name) && '.' !in name && NoSpecial(pkg)
    case Pointer(e) => WellFormed(e)
    case Slice(e) => WellFormed(e)
    case Array(_, e) => WellFormed(e)
    case Map(k, v) => WellFormed(k) && WellFormed(v)
  }

  lemma {:induction false} SpellingNonEmpty(t: GoType)
    requires WellFormed(t)
    ensures |Spelling(t)| > 0
  {
    match t
    case Named(_, _) =>
    case Pointer(e) =>
    case Slice(e) =>
    case Array(_, e) =>
    case Map(k, v) =>
  }

  lemma {:induction false} ScanPlain(s: string, i: nat, n: nat, d: int)
    requires i + n <= |s|
    requires forall k :: i <= k < i + n ==> s[k] != '[' && s[k] != ']'
    ensures MapKeyClose(s, i, d) == MapKeyClose(s, i + n, d)
    decreases n
  {
    if n > 0 {
      ScanPlain(s, i + 1, n - 1, d);
    }
  }

  lemma ScanOpen(s: string, j: nat, d: int)
    requires j < |s| && s[j] == '['
    ensures MapKeyClose(s, j, d) == MapKeyClose(s, j + 1, d + 1)
  {
  }

  lemma ScanClose(s: string, j: nat, d: int)
    requires j < |s| && s[j] == ']' && d > 0
    ensures MapKeyClose(s, j, d) == MapKeyClose(s, j + 1, d - 1)
  {
  }

  /** Scanning across a well-formed spelling at non-negative depth meets no `]`
      at depth 0 and comes out at the same depth. */
  lemma {:induction false} ScanSpelling(t: GoType, s: string, i: nat, d: int)
    requires WellFormed(t) && d >= 0
    requires i + |Spelling(t)| <= |s| && s[i..i + |Spelling(t)|] == Spelling(t)
    ensures MapKeyClose(s, i, d) == MapKeyClose(s, i + |Spelling(t)|, d)
    decreases t, 1
  {
    match t
    case Named(pkg, name) => ScanNamed(t, s, i, d);
    case Pointer(e) => ScanPointer(t, s, i, d);
    case Slice(e) => ScanSlice(t, s, i, d);
    case Array(n, e) => ScanArray(t, s, i, d);
    case Map(k, v) => ScanMap(t, s, i, d);
  }

  lemma SliceAt(s: string, i: nat, sp: string, k: nat)
    requires i + |sp| <= |s| && s[i..i + |sp|] == sp && k < |sp|
    ensures s[i + k] == sp[k]
  {
    assert s[i..i + |sp|][k] == s[i + k];
  }

  lemma SubSlice(s: string, i: nat, sp: string, a: nat, b: nat)
    requires i + |sp| <= |s| && s[i..i + |sp|] == sp && a <= b <= |sp|
    ensures s[i + a..i + b] == sp[a..b]
  {
    forall k | 0 <= k < b - a
      ensures s[i + a..i + b][k] == sp[a..b][k]
    {
      SliceAt(s, i, sp, a + k);
    }
  }

  lemma {:induction false} ScanNamed(t: GoType, s: string, i: nat, d: int)
    requires t.Named? && WellFormed(t) && d >= 0
    requires i + |Spelling(t)| <= |s| && s[i..i + |Spelling(t)|] == Spelling(t)
    ensures MapKeyClose(s, i, d) == MapKeyClose(s, i + |Spelling(t)|, d)
    decreases t, 0
  {
    var sp := Spelling(t);
    assert NoSpecial(sp) by {
      if t.pkg != "" {
        assert forall c :: c in sp ==> c in t.pkg || c == '.' || c in t.name;
      }
    }
    forall k | i <= k < i + |sp| ensures s[k] != '[' && s[k] != ']' {
      SliceAt(s, i, sp, k - i);
      assert sp[k - i] in sp;
    }
    ScanPlain(s, i, |sp|, d);
  }

  lemma {:induction false} ScanPointer(t: GoType, s: string, i: nat, d: int)
    requires t.Pointer? && WellFormed(t) && d >= 0
    requires i + |Spelling(t)| <= |s| && s[i..i + |Spelling(t)|] == Spelling(t)
    ensures MapKeyClose(s, i, d) == MapKeyClose(s, i + |Spelling(t)|, d)
    decreases t, 0
  {
    var sp, se := Spelling(t), Spelling(t.elem);
    SliceAt(s, i, sp, 0);
    ScanPlain(s, i, 1, d);
    SubSlice(s, i, sp, 1, |sp|);
    assert sp[1..] == se;
    ScanSpelling(t.elem, s, i + 1, d);
  }

  lemma {:induction false} ScanSlice(t: GoType, s: string, i: nat, d: int)
    requires t.Slice? && WellFormed(t) && d >= 0
    requires i + |Spelling(t)| <= |s| && s[i..i + |Spelling(t)|] == Spelling(t)
    ensures MapKeyClose(s, i, d) == MapKeyClose(s, i + |Spelling(t)|, d)
    decreases t, 0
  {
    var sp, se := Spelling(t), Spelling(t.elem);
    SliceAt(s, i, sp, 0);
    SliceAt(s, i, sp, 1);
    SubSlice(s, i, sp, 2, |sp|);
    assert sp[2..] == se;
    ScanSpelling(t.elem, s, i + 2, d);
  }

  /** Where the parts of an array spelling sit inside `s`. */
  lemma ArraySpellingAt(t: GoType, s: string, i: nat)
    requires t.Array?
    requires i + |Spelling(t)| <= |s| && s[i..i + |Spelling(t)|] == Spelling(t)
    ensures var m, se := |Itoa(t.len)|, Spelling(t.elem);
      |Spelling(t)| == m + 2 + |se| && s[i] == '[' && s[i + 1 + m] == ']' &&
      (forall k :: i + 1 <= k < i + 1 + m ==> s[k] != '[' && s[k] != ']') &&
      s[i + 2 + m..i + |Spelling(t)|] == se
  {
    var sp, se := Spelling(t), Spelling(t.elem);
    var digits := Itoa(t.len);
    var m := |digits|;
    assert sp == "[" + digits + "]" + se;
    SliceAt(s, i, sp, 0);
    forall k | i + 1 <= k < i + 1 + m ensures s[k] != '[' && s[k] != ']' {
      SliceAt(s, i, sp, k - i);
      assert sp[k - i] == digits[k - i - 1];
      assert IsDigit(digits[k - i - 1]);
    }
    SliceAt(s, i, sp, m + 1);
    SubSlice(s, i, sp, m + 2, |sp|);
    assert sp[m + 2..] == se;
  }

  /** The scan over an array's length and its brackets. */
  lemma ScanArrayHead(t: GoType, s: string, i: nat, d: int)
    requires t.Array? && d >= 0
    requires i + |Spelling(t)| <= |s| && s[i..i + |Spelling(t)|] == Spelling(t)
    ensures var m, se := |Itoa(t.len)|, Spelling(t.elem);
      |Spelling(t)| == m + 2 + |se| && s[i + 2 + m..i + |Spelling(t)|] == se &&
      MapKeyClose(s, i, d) == MapKeyClose(s, i + 2 + m, d)
  {
    var m := |Itoa(t.len)|;
    ArraySpellingAt(t, s, i);
    ScanOpen(s, i, d);
    ScanPlain(s, i + 1, m, d + 1);
    ScanClose(s, i + 1 + m, d + 1);
  }

  lemma {:induction false} ScanArray(t: GoType, s: string, i: nat, d: int)
    requires t.Array? && WellFormed(t) && d >= 0
    requires i + |Spelling(t)| <= |s| && s[i..i + |Spelling(t)|] == Spelling(t)
    ensures MapKeyClose(s, i, d) == MapKeyClose(s, i + |Spelling(t)|, d)
    decreases t, 0
  {
    var m := |Itoa(t.len)|;
    ScanArrayHead(t, s, i, d);
    ScanSpelling(t.elem, s, i + 2 + m, d);
  }

  /** Where the parts of a map spelling sit inside `s`. */
  lemma MapSpellingAt(t: GoType, s: string, i: nat)
    requires t.Map?
    requires i + |Spelling(t)| <= |s| && s[i..i + |Spelling(t)|] == Spelling(t)
    ensures var sk, sv := Spelling(t.key), Spelling(t.value);
      |Spelling(t)| == 5 + |sk| + |sv| &&
      (forall k :: i <= k < i + 3 ==> s[k] != '[' && s[k] != ']') &&
      s[i + 3] == '[' && s[i + 4 + |sk|] == ']' &&
      s[i + 4..i + 4 + |sk|] == sk && s[i + 5 + |sk|..i + |Spelling(t)|] == sv
  {
    var sp, sk, sv := Spelling(t), Spelling(t.key), Spelling(t.value);
    assert sp == "map[" + sk + "]" + sv;
    forall k | i <= k < i + 3 ensures s[k] != '[' && s[k] != ']' {
      SliceAt(s, i, sp, k - i);
    }
    SliceAt(s, i, sp, 3);
    SliceAt(s, i, sp, 4 + |sk|);
    SubSlice(s, i, sp, 4, 4 + |sk|);
    assert sp[4..4 + |sk|] == sk;
    SubSlice(s, i, sp, 5 + |sk|, |sp|);
    assert sp[5 + |sk|..] == sv;
  }

  lemma {:induction false} ScanMap(t: GoType, s: string, i: nat, d: int)
    requires t.Map? && WellFormed(t) && d >= 0
    requires i + |Spelling(t)| <= |s| && s[i..i + |Spelling(t)|] == Spelling(t)
    ensures MapKeyClose(s, i, d) == MapKeyClose(s, i + |Spelling(t)|, d)
    decreases t, 0
  {
    var sk := Spelling(t.key);
    MapSpellingAt(t, s, i);
    ScanPlain(s, i, 3, d);
    ScanOpen(s, i + 3, d);
    ScanSpelling(t.key, s, i + 4, d + 1);
    ScanClose(s, i + 4 + |sk|, d + 1);
    ScanSpelling(t.value, s, i + 5 + |sk|, d);
  }

  /** One unfolding of the default branch of the switch. */
  lemma DefaultStep(t: string)
    requires !IsMapSpelling(t) && !IsSliceSpelling(t) && !IsArraySpelling(t) && !IsPointerSpelling(t)
    requires IndexOf(t, '.') >= 0
    ensures TypeToVar(t) == TypeToVar(t[IndexOf(t, '.') + 1..])
  {
  }

  lemma DotSplit(a: string, b: string)
    requires '.' !in a
    ensures IndexOf(a + "." + b, '.') == |a|
    ensures (a + "." + b)[|a| + 1..] == b
  {
    assert a + "." + b == a + ("." + b);
    IndexOfConcat(a, "." + b, '.');
  }

  /** A string without `[` that does not start with `*` reaches the default branch. */
  lemma NoCompositeSpelling(t: string)
    requires '[' !in t && (|t| > 0 ==> t[0] != '*')
    ensures !IsMapSpelling(t) && !IsSliceSpelling(t) && !IsArraySpelling(t) && !IsPointerSpelling(t)
  {
    if |t| > 4 {
      assert t[..4][3] == t[3];
    }
    if |t| > 1 {
      assert t[0] in t;
    }
  }

  /** Everything through the first `.` is a package path and is dropped. */
  lemma {:induction false} QualifiedNameDropped(pkg: string, rest: string)
    requires NoSpecial(pkg) && '[' !in rest && |rest| > 0 && rest[0] != '*'
    ensures TypeToVar(pkg + "." + rest) == TypeToVar(rest)
    decreases |pkg|
  {
    var t := pkg + "." + rest;
    assert '[' !in t && t[0] != '*' by {
      assert forall c :: c in t ==> c in pkg || c == '.' || c in rest;
      assert t[0] in pkg || t[0] == '.';
    }
    NoCompositeSpelling(t);
    if '.' in pkg {
      IndexOfFirst(pkg, '.');
      var d := IndexOf(pkg, '.');
      var a, b := pkg[..d], pkg[d + 1..];
      assert pkg == a + "." + b;
      assert t == a + "." + (b + "." + rest);
      DotSplit(a, b + "." + rest);
      DefaultStep(t);
      assert forall c :: c in b ==> c in pkg;
      QualifiedNameDropped(b, rest);
    } else {
      DotSplit(pkg, rest);
      DefaultStep(t);
    }
  }

  // One unfolding of each branch of the switch.

  lemma MapStep(t: string)
    requires IsMapSpelling(t) && MapKeyClose(t[4..], 0, 0) >= 0
    ensures var u := t[4..]; var k := MapKeyClose(u, 0, 0);
      TypeToVar(t) == match TypeToVar(u[..k])
        case Err(m) => Err(m)
        case Ok(key) =>
          match TypeToVar(u[k + 1..])
          case Err(m) => Err(m)
          case Ok(val) => Ok("mapOf" + Capitalize(key) + "To" + Capitalize(val))
  {
  }

  lemma SliceStep(t: string)
    requires !IsMapSpelling(t) && IsSliceSpelling(t)
    ensures TypeToVar(t) == Prefixed("slc", TypeToVar(t[2..]))
  {
  }

  lemma ArrayStep(t: string)
    requires !IsMapSpelling(t) && !IsSliceSpelling(t) && IsArraySpelling(t) && IndexOf(t, ']') >= 0
    ensures TypeToVar(t) == Prefixed("arr", TypeToVar(t[IndexOf(t, ']') + 1..]))
  {
  }

  lemma PointerStep(t: string)
    requires !IsMapSpelling(t) && !IsSliceSpelling(t) && !IsArraySpelling(t) && IsPointerSpelling(t)
    ensures TypeToVar(t) == Prefixed("ptr", TypeToVar(t[1..]))
  {
  }

  /** The encoder is correct for every well-formed type: on the spelling go/types
      produces it returns the constructor-by-constructor encoding. */
  lemma {:induction false} TypeToVarOfSpelling(t: GoType)
    requires WellFormed(t)
    ensures TypeToVar(Spelling(t)) == Ok(Encoding(t))
    decreases t, 1
  {
    match t
    case Named(pkg, name) => NamedToVar(t);
    case Pointer(e) => PointerToVar(t);
    case Slice(e) => SliceToVar(t);
    case Array(n, e) => ArrayToVar(t);
    case Map(k, v) => MapToVar(t);
  }

  lemma NamedToVar(t: GoType)
    requires t.Named? && WellFormed(t)
    ensures TypeToVar(Spelling(t)) == Ok(Encoding(t))
    decreases t, 0
  {
    var name := t.name;
    assert !IsMapSpelling(name) && !IsArraySpelling(name) && !IsPointerSpelling(name) by {
      assert name[0] in name;
      if |name| > 3 { assert name[3] in name; }
    }
    PlainNameUnchanged(name);
    if t.pkg != "" {
      QualifiedNameDropped(t.pkg, name);
    }
  }

  lemma {:induction false} PointerToVar(t: GoType)
    requires t.Pointer? && WellFormed(t)
    ensures TypeToVar(Spelling(t)) == Ok(Encoding(t))
    decreases t, 0
  {
    var s := Spelling(t);
    SpellingNonEmpty(t.elem);
    assert s[0] == '*' && s[1..] == Spelling(t.elem);
    PointerStep(s);
    TypeToVarOfSpelling(t.elem);
  }

  lemma {:induction false} SliceToVar(t: GoType)
    requires t.Slice? && WellFormed(t)
    ensures TypeToVar(Spelling(t)) == Ok(Encoding(t))
    decreases t, 0
  {
    var s := Spelling(t);
    SpellingNonEmpty(t.elem);
    assert s[..2] == "[]" && s[2..] == Spelling(t.elem);
    assert s[0] == '[';
    SliceStep(s);
    TypeToVarOfSpelling(t.elem);
  }

  /** An array spelling starts no map or slice, and its first `]` closes the length. */
  lemma ArraySpellingShape(t: GoType)
    requires t.Array?
    ensures var s, m := Spelling(t), |Itoa(t.len)|;
      IsArraySpelling(s) && !IsMapSpelling(s) && !IsSliceSpelling(s) &&
      IndexOf(s, ']') == m + 1 && s[m + 2..] == Spelling(t.elem)
  {
    var s, se := Spelling(t), Spelling(t.elem);
    var digits := Itoa(t.len);
    assert s == ("[" + digits) + ("]" + se);
    assert ']' !in "[" + digits && s[1] == digits[0] by {
      forall k | 0 <= k < |digits| ensures digits[k] != ']' {
        assert IsDigit(digits[k]);
      }
    }
    assert IsDigit(digits[0]);
    IndexOfConcat("[" + digits, "]" + se, ']');
    assert IndexOf("]" + se, ']') == 0;
    assert s[|digits| + 2..] == se;
    assert s[0] == '[' && s[1] != ']';
    NotMapOrSlice(s);
  }

  lemma NotMapOrSlice(s: string)
    requires |s| > 1 && s[0] == '[' && s[1] != ']'
    ensures IsArraySpelling(s) && !IsMapSpelling(s) && !IsSliceSpelling(s)
  {
    if |s| > 4 {
      assert s[..4][0] == '[';
    }
    if |s| > 2 {
      assert s[..2][1] == s[1];
    }
  }

  lemma {:induction false} ArrayToVar(t: GoType)
    requires t.Array? && WellFormed(t)
    ensures TypeToVar(Spelling(t)) == Ok(Encoding(t))
    decreases t, 0
  {
    ArraySpellingShape(t);
    ArrayStep(Spelling(t));
    TypeToVarOfSpelling(t.elem);
  }

  lemma {:induction false} MapToVar(t: GoType)
    requires t.Map? && WellFormed(t)
    ensures TypeToVar(Spelling(t)) == Ok(Encoding(t))
    decreases t, 0
  {
    MapSplit(t);
    TypeToVarOfSpelling(t.key);
    TypeToVarOfSpelling(t.value);
    MapJoin(Spelling(t), Spelling(t.key), Spelling(t.value), Encoding(t.key), Encoding(t.value));
  }

  /** Where the scan of a map spelling finds the key's closing bracket. */
  lemma MapSplit(t: GoType)
    requires t.Map? && WellFormed(t)
    ensures var s, sk, sv := Spelling(t), Spelling(t.key), Spelling(t.value);
      IsMapSpelling(s) && MapKeyClose(s[4..], 0, 0) == |sk| &&
      s[4..][..|sk|] == sk && s[4..][|sk| + 1..] == sv
  {
    var s, sk, sv := Spelling(t), Spelling(t.key), Spelling(t.value);
    MapSpellingAt(t, s, 0);
    var u := s[4..];
    assert u[0..|sk|] == sk && u[|sk|] == ']';
    assert u[..|sk|] == sk && u[|sk| + 1..] == sv;
    ScanSpelling(t.key, u, 0, 0);
    assert s[..4] == "map[";
  }

  lemma MapJoin(s: string, sk: string, sv: string, ek: string, ev: string)
    requires IsMapSpelling(s) && MapKeyClose(s[4..], 0, 0) == |sk|
    requires s[4..][..|sk|] == sk && s[4..][|sk| + 1..] == sv
    requires TypeToVar(sk) == Ok(ek) && TypeToVar(sv) == Ok(ev)
    ensures TypeToVar(s) == Ok("mapOf" + Capitalize(ek) + "To" + Capitalize(ev))
  {
    MapStep(s);
  }

  /** The vectors of typevar_test.go, each obtained from the lemma above. */
  lemma TypeToVarVectorNamed()
    ensures TypeToVar("foo") == Ok("foo")
    ensures TypeToVar("pkg.foo") == Ok("foo")
  {
    NamedToVar(Named("", "foo"));
    QualifiedToVar();
  }

  lemma QualifiedToVar()
    ensures TypeToVar("pkg.foo") == Ok("foo")
  {
    var q := Named("pkg", "foo");
    assert Spelling(q) == "pkg" + "." + "foo" == "pkg.foo";
    NamedToVar(q);
  }

  lemma TypeToVarVectorPointer()
    ensures TypeToVar("*foo") == Ok("ptrFoo")
    ensures TypeToVar("**foo") == Ok("ptrPtrFoo")
  {
    var p := Pointer(Named("", "foo"));
    assert Spelling(p) == "*foo" && Encoding(p) == "ptrFoo";
    TypeToVarOfSpelling(p);
    assert Spelling(Pointer(p)) == "**foo" && Encoding(Pointer(p)) == "ptrPtrFoo";
    TypeToVarOfSpelling(Pointer(p));
  }

  lemma TypeToVarVectorSlice()
    ensures TypeToVar("[]foo") == Ok("slcFoo")
  {
    var t := Slice(Named("", "foo"));
    assert Spelling(t) == "[]foo" && Encoding(t) == "slcFoo";
    TypeToVarOfSpelling(t);
  }

  lemma Itoa123()
    ensures Itoa(123) == "123"
  {
    assert Itoa(12) == "12" by { assert Itoa(1) == "1"; }
  }

  lemma TypeToVarVectorArray()
    ensures TypeToVar("[123]foo") == Ok("arrFoo")
  {
    Itoa123();
    var t := Array(123, Named("", "foo"));
    assert Spelling(t) == "[123]foo" && Encoding(t) == "arrFoo";
    TypeToVarOfSpelling(t);
  }

  lemma TypeToVarVectorMap()
    ensures TypeToVar("map[int]bool") == Ok("mapOfIntToBool")
  {
    var t := Map(Named("", "int"), Named("", "bool"));
    assert Spelling(t) == "map[int]bool" && Encoding(t) == "mapOfIntToBool";
    TypeToVarOfSpelling(t);
  }

  lemma TypeToVarVectorNested()
    ensures TypeToVar("[][][123]**foo") == Ok("slcSlcArrPtrPtrFoo")
  {
    var foo := Named("", "foo");
    FooWellFormed(foo);
    var t := Slice(Slice(Array(123, Pointer(Pointer(foo)))));
    NestedSpelling(t);
    NestedEncoding(t, foo);
    TypeToVarOfSpelling(t);
  }

  lemma FooWellFormed(foo: GoType)
    requires foo == Named("", "foo")
    ensures WellFormed(foo) && Encoding(foo) == "foo"
  {
    assert NoSpecial("foo") && '.' !in "foo";
  }

  lemma CapitalizeJoin(pre: string, rest: string)
    requires |pre| > 0
    ensures Capitalize(pre + rest) == Capitalize(pre) + rest
  {
    assert (pre + rest)[1..] == pre[1..] + rest;
  }

  lemma NestedSpelling(t: GoType)
    requires t == Slice(Slice(Array(123, Pointer(Pointer(Named("", "foo"))))))
    ensures Spelling(t) == "[][][123]**foo"
  {
    Itoa123();
    var a := Array(123, Pointer(Pointer(Named("", "foo"))));
    assert Spelling(a) == "[" + "123" + "]" + ("*" + ("*" + "foo"));
    assert Spelling(t) == "[]" + ("[]" + ("[" + "123" + "]" + ("*" + ("*" + "foo"))));
  }

  lemma NestedEncoding(t: GoType, foo: GoType)
    requires t == Slice(Slice(Array(123, Pointer(Pointer(foo))))) && Encoding(foo) == "foo"
    ensures Encoding(t) == "slcSlcArrPtrPtrFoo"
  {
    CapitalizeSmall();
    var p1 := Pointer(foo);
    WrappedEncoding(p1, "ptr", foo, "foo", "");
    var p2 := Pointer(p1);
    WrappedEncoding(p2, "ptr", p1, "ptr", "Foo" + "");
    var a := Array(123, p2);
    WrappedEncoding(a, "arr", p2, "ptr", "Ptr" + ("Foo" + ""));
    WrappedEncoding(Slice(a), "slc", a, "arr", "Ptr" + ("Ptr" + ("Foo" + "")));
    WrappedEncoding(t, "slc", Slice(a), "slc", "Arr" + ("Ptr" + ("Ptr" + ("Foo" + ""))));
    NestedEncodingText();
  }

  lemma NestedEncodingText()
    ensures "slc" + ("Slc" + ("Arr" + ("Ptr" + ("Ptr" + ("Foo" + ""))))) == "slcSlcArrPtrPtrFoo"
  {
  }

  lemma CapitalizeSmall()
    ensures Capitalize("foo") == "Foo" && Capitalize("ptr") == "Ptr" && Capitalize("arr") == "Arr"
    ensures Capitalize("slc") == "Slc"
  {
  }

  /** A constructor's tag before the capitalized encoding of its element, when that
      encoding starts with a known non-empty head. */
  lemma WrappedEncoding(t: GoType, tag: string, e: GoType, head: string, rest: string)
    requires (t == Pointer(e) && tag == "ptr") || (t == Slice(e) && tag == "slc") || (t.Array? && t.elem == e && tag == "arr")
    requires Encoding(e) == head + rest && |head| > 0
    ensures Encoding(t) == tag + (Capitalize(head) + rest)
  {
    CapitalizeJoin(head, rest);
  }

  lemma TypeToVarVectorMapOfMap()
    ensures TypeToVar("map[map[int]bool][123]*foo") == Ok("mapOfMapOfIntToBoolToArrPtrFoo")
  {
    var intT, boolT, foo := Named("", "int"), Named("", "bool"), Named("", "foo");
    NamesWellFormed(intT, boolT, foo);
    var k, v := Map(intT, boolT), Array(123, Pointer(foo));
    var t := Map(k, v);
    MapOfMapSpelling(t, k, v, intT, boolT, foo);
    KeyEncoding(k, intT, boolT);
    ValueEncoding(v, foo);
    MapOfMapEncoding(t, k, v);
    TypeToVarOfSpelling(t);
  }

  lemma NamesWellFormed(intT: GoType, boolT: GoType, foo: GoType)
    requires intT == Named("", "int") && boolT == Named("", "bool") && foo == Named("", "foo")
    ensures WellFormed(intT) && WellFormed(boolT) && WellFormed(foo)
    ensures Encoding(intT) == Spelling(intT) == "int" && Encoding(boolT) == Spelling(boolT) == "bool"
    ensures Encoding(foo) == Spelling(foo) == "foo"
  {
    FooWellFormed(foo);
    assert NoSpecial("int") && '.' !in "int";
    assert NoSpecial("bool") && '.' !in "bool";
  }

  lemma MapOfMapSpelling(t: GoType, k: GoType, v: GoType, intT: GoType, boolT: GoType, foo: GoType)
    requires t == Map(k, v) && k == Map(intT, boolT) && v == Array(123, Pointer(foo))
    requires Spelling(intT) == "int" && Spelling(boolT) == "bool" && Spelling(foo) == "foo"
    ensures Spelling(t) == "map[map[int]bool][123]*foo"
  {
    KeySpelling(k, intT, boolT);
    ValueSpelling(v, foo);
    MapOfMapSpellingText();
  }

  lemma KeySpelling(k: GoType, intT: GoType, boolT: GoType)
    requires k == Map(intT, boolT) && Spelling(intT) == "int" && Spelling(boolT) == "bool"
    ensures Spelling(k) == "map[" + "int" + "]" + "bool"
  {
  }

  lemma ValueSpelling(v: GoType, foo: GoType)
    requires v == Array(123, Pointer(foo)) && Spelling(foo) == "foo"
    ensures Spelling(v) == "[" + "123" + "]" + ("*" + "foo")
  {
    Itoa123();
  }

  lemma MapOfMapSpellingText()
    ensures "map[" + ("map[" + "int" + "]" + "bool") + "]" + ("[" + "123" + "]" + ("*" + "foo")) ==
      "map[map[int]bool][123]*foo"
  {
  }

  lemma KeyEncoding(k: GoType, intT: GoType, boolT: GoType)
    requires k == Map(intT, boolT) && Encoding(intT) == "int" && Encoding(boolT) == "bool"
    ensures Encoding(k) == "mapOf" + ("Int" + "To" + "Bool")
  {
    assert Capitalize("int") == "Int" && Capitalize("bool") == "Bool";
  }

  lemma ValueEncoding(v: GoType, foo: GoType)
    requires v == Array(123, Pointer(foo)) && Encoding(foo) == "foo"
    ensures Encoding(v) == "arr" + ("Ptr" + ("Foo" + ""))
  {
    CapitalizeSmall();
    var p := Pointer(foo);
    WrappedEncoding(p, "ptr", foo, "foo", "");
    WrappedEncoding(v, "arr", p, "ptr", "Foo" + "");
  }

  lemma MapOfMapEncoding(t: GoType, k: GoType, v: GoType)
    requires t == Map(k, v) && Encoding(k) == "mapOf" + ("Int" + "To" + "Bool")
    requires Encoding(v) == "arr" + ("Ptr" + ("Foo" + ""))
    ensures Encoding(t) == "mapOfMapOfIntToBoolToArrPtrFoo"
  {
    CapitalizeSmall();
    CapitalizeJoin("mapOf", "Int" + "To" + "Bool");
    assert Capitalize("mapOf") == "MapOf";
    CapitalizeJoin("arr", "Ptr" + ("Foo" + ""));
    MapOfMapText();
  }

  lemma MapOfMapText()
    ensures "mapOf" + ("MapOf" + ("Int" + "To" + "Bool")) + "To" + ("Arr" + ("Ptr" + ("Foo" + ""))) ==
      "mapOfMapOfIntToBoolToArrPtrFoo"
  {
  }

  /** The two panics: a `map[` without a depth-0 `]`, and an array spelling with
      no `]` at all. */
  lemma TypeToVarRejects(t: string)
    ensures IsMapSpelling(t) && MapKeyClose(t[4..], 0, 0) < 0 ==> TypeToVar(t).Err?
    ensures !IsMapSpelling(t) && !IsSliceSpelling(t) && IsArraySpelling(t) && ']' !in t
            ==> TypeToVar(t).Err?
  {
    IndexOfFirst(t, ']');
  }

  /** A dot-free name that starts no type constructor comes back unchanged. */
  lemma PlainNameUnchanged(t: string)
    requires '.' !in t && !IsMapSpelling(t) && !IsArraySpelling(t) && !IsPointerSpelling(t)
    ensures TypeToVar(t) == Ok(t)
  {
    assert !IsSliceSpelling(t);
    IndexOfFirst(t, '.');
  }
}
