/**
 * Expansion of dotted/indexed property paths into nested objects and
 * arrays: `objectFromPath` and `expandObjectPaths`.
 */
module PathExpand {
  import opened JsValue

  // ---------------------------------------------------------------------
  // The bracket group `[<digits>]` that all three path regexes look for

  /** `s[q..]` starts with `[`, one or more ASCII digits, then `]`. */
  predicate BracketAt(s: string, q: nat)
  {
    q < |s| && s[q] == '[' &&
    var d := LeadingDigits(s[q + 1..]);
    |d| >= 1 && q + 1 + |d| < |s| && s[q + 1 + |d|] == ']'
  }

  /** The digits between the brackets of the group at `q`. */
  function BracketDigits(s: string, q: nat): (d: string)
    requires BracketAt(s, q)
    ensures |d| >= 1 && forall i :: 0 <= i < |d| ==> IsDigit(d[i])
    ensures q + 2 + |d| <= |s| && s[q + 1 + |d|] == ']'
  {
    LeadingDigits(s[q + 1..])
  }

  /** The largest `q` in `[lo, hi)` at which a bracket group starts: a greedy
      `(.*)` or `([^.]+)` in front of the group backtracks to it. */
  function LastBracket(s: string, lo: nat, hi: nat): (r: Option<nat>)
    requires hi <= |s|
    ensures r.Some? ==> lo <= r.value < hi && BracketAt(s, r.value)
    ensures r.Some? ==> forall q :: r.value < q < hi ==> !BracketAt(s, q)
    ensures r.None? ==> forall q :: lo <= q < hi ==> !BracketAt(s, q)
    decreases hi
  {
    if hi <= lo then None
    else if BracketAt(s, hi - 1) then Some(hi - 1)
    else LastBracket(s, lo, hi - 1)
  }

  // ---------------------------------------------------------------------
  // objectFromPath

  /** One dot-separated piece of a path: `name` or `name[index]`. */
  datatype Segment = Plain(name: string) | Indexed(name: string, index: nat)

  /** `seg.match(/(.*)\[([0-9]+)\]/)`: the last bracket group splits the
      segment; anything after its `]` is ignored. */
  function ParseSegment(seg: string): (r: Segment)
    ensures r.Plain? ==> r.name == seg && forall q :: 0 <= q < |seg| ==> !BracketAt(seg, q)
    ensures r.Indexed? ==> r.name < seg && BracketAt(seg, |r.name|)
  {
    match LastBracket(seg, 0, |seg|)
    case None => Plain(seg)
    case Some(q) => Indexed(seg[..q], DigitsValue(BracketDigits(seg, q)))
  }

  /** `path.split('.')`, each piece parsed. */
  function Segments(path: string): (segs: seq<Segment>)
    ensures |segs| == |Split(path, '.')| >= 1
    ensures forall i :: 0 <= i < |segs| ==> segs[i] == ParseSegment(Split(path, '.')[i])
  {
    ParseAll(Split(path, '.'))
  }

  function ParseAll(parts: seq<string>): (segs: seq<Segment>)
    ensures |segs| == |parts|
    ensures forall i :: 0 <= i < |segs| ==> segs[i] == ParseSegment(parts[i])
  {
    if parts == [] then [] else [ParseSegment(parts[0])] + ParseAll(parts[1..])
  }

  /** `n` unwritten array slots; each reads as `undefined`. */
  function Holes(n: nat): (r: seq<Value>)
    ensures |r| == n && forall i :: 0 <= i < n ==> r[i] == Undefined
  {
    seq(n, i => Undefined)
  }

  /** The fresh container one segment creates around what lies below it. */
  function Wrap(seg: Segment, inner: Value): Value
  {
    match seg
    case Plain(name) => Obj([Field(name, inner)])
    case Indexed(name, i) => Obj([Field(name, Arr(Holes(i) + [inner]))])
  }

  /** The tree `objectFromPath` builds: the last segment receives the value,
      every earlier one a fresh object to walk into. */
  function PathTree(segs: seq<Segment>, value: Value): (t: Value)
    requires |segs| >= 1
    ensures t.Obj?
  {
    if |segs| == 1 then Wrap(segs[0], value) else Wrap(segs[0], PathTree(segs[1..], value))
  }

  /** Walks the cursor of `objectFromPath` forward; each iteration creates
      the container of one segment. The tree is assembled here from the
      innermost segment outwards, which yields the same value. */
  method ObjectFromPath(path: string, value: Value) returns (obj: Value)
    ensures obj == PathTree(Segments(path), value)
  {
    var keys := Split(path, '.');
    ghost var segs := Segments(path);
    obj := value;
    var i := |keys|;
    while i > 0
      invariant 0 <= i <= |keys|
      invariant i < |keys| ==> obj == PathTree(segs[i..], value)
      invariant i == |keys| ==> obj == value
    {
      i := i - 1;
      var seg := ParseSegment(keys[i]);
      assert seg == segs[i];
      PathTreeFrom(segs, i, value);
      if i == |keys| - 1 {
        obj := Wrap(seg, value);
      } else {
        obj := Wrap(seg, obj);
      }
    }
  }

  /** The tree of the segments from `i` on wraps segment `i` around the
      tree of those after it, or around the value at the last one. */
  lemma PathTreeFrom(segs: seq<Segment>, i: nat, value: Value)
    requires i < |segs|
    ensures PathTree(segs[i..], value)
         == Wrap(segs[i], if i == |segs| - 1 then value else PathTree(segs[i + 1..], value))
  {
    assert segs[i..][0] == segs[i];
    if i < |segs| - 1 {
      assert segs[i..][1..] == segs[i + 1..];
    }
  }

  // ---------------------------------------------------------------------
  // Walking a tree along a path

  datatype Step = Key(key: string) | Index(index: nat)

  /** The property accesses a segment stands for: `o[name]`, then `[index]`. */
  function SegmentSteps(seg: Segment): seq<Step>
  {
    match seg
    case Plain(name) => [Key(name)]
    case Indexed(name, i) => [Key(name), Index(i)]
  }

  function Steps(segs: seq<Segment>): seq<Step>
  {
    if segs == [] then [] else SegmentSteps(segs[0]) + Steps(segs[1..])
  }

  /** One property access on a value. */
  function At(v: Value, step: Step): Value
  {
    match step
    case Key(k) => if v.Obj? then Get(v.fields, k) else Undefined
    case Index(i) => if v.Arr? && i < |v.elems| then v.elems[i] else Undefined
  }

  function Walk(v: Value, steps: seq<Step>): Value
    decreases steps
  {
    if steps == [] then v else Walk(At(v, steps[0]), steps[1..])
  }

  lemma {:induction false} WalkAppend(v: Value, a: seq<Step>, b: seq<Step>)
    ensures Walk(v, a + b) == Walk(Walk(v, a), b)
    decreases a
  {
    if a != [] {
      assert (a + b)[1..] == a[1..] + b;
      assert (a + b)[0] == a[0];
      WalkAppend(At(v, a[0]), a[1..], b);
    } else {
      assert a + b == b;
    }
  }

  lemma {:induction false} StepsAppend(a: seq<Segment>, b: seq<Segment>)
    ensures Steps(a + b) == Steps(a) + Steps(b)
  {
    if a != [] {
      assert (a + b)[1..] == a[1..] + b;
      assert (a + b)[0] == a[0];
      StepsAppend(a[1..], b);
    } else {
      assert a + b == b;
    }
  }

  /** Walking the steps of one segment through the container it created
      reaches what was put inside it. */
  lemma WrapWalk(seg: Segment, inner: Value)
    ensures Walk(Wrap(seg, inner), SegmentSteps(seg)) == inner
  {
    match seg
    case Plain(name) =>
      assert Walk(Wrap(seg, inner), [Key(name)]) == Walk(inner, []);
    case Indexed(name, i) =>
      var arr := Arr(Holes(i) + [inner]);
      assert arr.elems[i] == inner;
      assert At(Wrap(seg, inner), Key(name)) == arr;
      assert Walk(Wrap(seg, inner), [Key(name), Index(i)]) == Walk(arr, [Index(i)]);
      assert Walk(arr, [Index(i)]) == Walk(inner, []);
  }

  /** Walking the first `j` segments of the path reaches the tree built
      from the remaining segments. */
  lemma {:induction false} PathTreeSubtree(segs: seq<Segment>, value: Value, j: nat)
    requires j < |segs|
    ensures Walk(PathTree(segs, value), Steps(segs[..j])) == PathTree(segs[j..], value)
  {
    if j > 0 {
      var inner := PathTree(segs[1..], value);
      assert segs[..j] == [segs[0]] + segs[1..][..j - 1];
      StepsAppend([segs[0]], segs[1..][..j - 1]);
      assert Steps([segs[0]]) == SegmentSteps(segs[0]);
      WalkAppend(PathTree(segs, value), SegmentSteps(segs[0]), Steps(segs[1..][..j - 1]));
      WrapWalk(segs[0], inner);
      PathTreeSubtree(segs[1..], value, j - 1);
      assert segs[1..][j - 1..] == segs[j..];
    }
  }

  /** `objectFromPath(path, value)`: walking every segment of the path
      through the tree reaches `value`. */
  lemma PathTreeReachesValue(segs: seq<Segment>, value: Value)
    requires |segs| >= 1
    ensures Walk(PathTree(segs, value), Steps(segs)) == value
  {
    var n := |segs| - 1;
    PathTreeSubtree(segs, value, n);
    assert segs == segs[..n] + [segs[n]];
    StepsAppend(segs[..n], [segs[n]]);
    assert Steps([segs[n]]) == SegmentSteps(segs[n]);
    WalkAppend(PathTree(segs, value), Steps(segs[..n]), SegmentSteps(segs[n]));
    assert segs[n..] == [segs[n]];
    WrapWalk(segs[n], value);
  }

  /** A segment `name[i]` puts under `name` an array of length `i + 1` whose
      slot `i` holds the rest of the tree and whose earlier slots are
      unwritten. */
  lemma PathTreeIndexedSegment(segs: seq<Segment>, value: Value, j: nat)
    requires j < |segs| && segs[j].Indexed?
    ensures var arr := Walk(PathTree(segs, value), Steps(segs[..j]) + [Key(segs[j].name)]);
      && arr.Arr? && |arr.elems| == segs[j].index + 1
      && (forall k :: 0 <= k < segs[j].index ==> arr.elems[k] == Undefined)
      && arr.elems[segs[j].index] == (if j == |segs| - 1 then value else PathTree(segs[j + 1..], value))
  {
    PathTreeSubtree(segs, value, j);
    WalkAppend(PathTree(segs, value), Steps(segs[..j]), [Key(segs[j].name)]);
    if j < |segs| - 1 {
      assert segs[j..][1..] == segs[j + 1..];
    }
  }

  /** A path of three segments splits into them. */
  lemma SplitThree(a: string, b: string, c: string, sep: char)
    requires sep !in a && sep !in b && sep !in c
    ensures Split(a + [sep] + (b + [sep] + c), sep) == [a, b, c]
  {
    SplitCons(b, sep, c);
    SplitCons(a, sep, b + [sep] + c);
  }

  lemma SplitExamplePath()
    ensures Split("nested.test[2].path", '.') == ["nested", "test[2]", "path"]
  {
    assert "nested.test[2].path" == "nested" + "." + ("test[2]" + "." + "path");
    assert '.' !in "nested" && '.' !in "test[2]" && '.' !in "path";
    SplitThree("nested", "test[2]", "path", '.');
  }

  /** Without a `[` there is no bracket group. */
  lemma NoBracketGroup(s: string, lo: nat, hi: nat)
    requires hi <= |s| && '[' !in s
    ensures LastBracket(s, lo, hi) == None
  {
    forall q | lo <= q < hi ensures !BracketAt(s, q) {
      assert s[q] != '[';
    }
  }

  lemma ParseExampleSegments()
    ensures ParseSegment("nested") == Plain("nested")
    ensures ParseSegment("test[2]") == Indexed("test", 2)
    ensures ParseSegment("path") == Plain("path")
  {
    assert '[' !in "nested";
    NoBracketGroup("nested", 0, 6);
    assert '[' !in "path";
    NoBracketGroup("path", 0, 4);
    var t := "test[2]";
    assert t[5..] == "2]";
    assert LeadingDigits("]") == [];
    assert LeadingDigits("2]") == "2";
    assert BracketAt(t, 4);
    assert !BracketAt(t, 5) && !BracketAt(t, 6);
    assert LastBracket(t, 0, 7) == Some(4);
    assert t[..4] == "test";
    assert DigitsValue("2") == 2;
  }

  lemma ParseAllExample()
    ensures ParseAll(["nested", "test[2]", "path"])
         == [Plain("nested"), Indexed("test", 2), Plain("path")]
  {
    ParseExampleSegments();
    assert ["path"][1..] == [];
    assert ParseAll(["path"]) == [Plain("path")];
    assert ["test[2]", "path"][1..] == ["path"];
    assert ParseAll(["test[2]", "path"]) == [Indexed("test", 2), Plain("path")];
    assert ["nested", "test[2]", "path"][1..] == ["test[2]", "path"];
  }

  lemma SegmentsExample()
    ensures Segments("nested.test[2].path") == [Plain("nested"), Indexed("test", 2), Plain("path")]
  {
    SplitExamplePath();
    ParseAllExample();
  }

  lemma PathTreeExample()
    ensures PathTree([Plain("nested"), Indexed("test", 2), Plain("path")], Str("value"))
         == Obj([Field("nested", Obj([Field("test", Arr([Undefined, Undefined,
              Obj([Field("path", Str("value"))])]))]))])
  {
    var segs := [Plain("nested"), Indexed("test", 2), Plain("path")];
    var leaf := Obj([Field("path", Str("value"))]);
    assert segs[1..] == [Indexed("test", 2), Plain("path")];
    assert segs[1..][1..] == [Plain("path")];
    assert PathTree(segs[1..][1..], Str("value")) == leaf;
    assert Holes(2) + [leaf] == [Undefined, Undefined, leaf];
    assert PathTree(segs[1..], Str("value")) == Obj([Field("test", Arr([Undefined, Undefined, leaf]))]);
  }

  /** The example of the source's documentation: `objectFromPath(
      'nested.test[2].path', 'value')`. */
  lemma ObjectFromPathExample()
    ensures PathTree(Segments("nested.test[2].path"), Str("value"))
         == Obj([Field("nested", Obj([Field("test", Arr([Undefined, Undefined,
              Obj([Field("path", Str("value"))])]))]))])
  {
    SegmentsExample();
    PathTreeExample();
  }

  // ---------------------------------------------------------------------
  // Classifying the keys of a flat object

  /** Index of the first `.` or `[` of `s`, or `|s|`. */
  function FirstDotOrBracket(s: string): (i: nat)
    ensures i <= |s|
    ensures forall j :: 0 <= j < i ==> s[j] != '.' && s[j] != '['
    ensures i < |s| ==> s[i] == '.' || s[i] == '['
  {
    if s == [] || s[0] == '.' || s[0] == '[' then 0 else 1 + FirstDotOrBracket(s[1..])
  }

  /** Index of the first `.` of `s`, or `|s|`. */
  function FirstDot(s: string): (i: nat)
    ensures i <= |s|
    ensures forall j :: 0 <= j < i ==> s[j] != '.'
    ensures i < |s| ==> s[i] == '.'
  {
    if s == [] || s[0] == '.' then 0 else 1 + FirstDot(s[1..])
  }

  /** How `expandObjectPaths` treats a key. `Dotted` matched
      `/^([^\[\.]+)\.(.+)?/`; `IndexedKey` matched
      `/^([^\.]+)\[([0-9]+)\](\.)?(.+)?/`, with `dot` for the optional `.`
      after the bracket and `trailing` for the text after that dot. */
  datatype KeyKind =
    | PlainKey
    | Dotted(prop: string)
    | IndexedKey(prop: string, index: nat, dot: bool, trailing: Option<string>)

  function Classify(key: string): (k: KeyKind)
    ensures !k.PlainKey? ==> 1 <= |k.prop| < |key| && k.prop == key[..|k.prop|]
    ensures k.Dotted? ==> '.' !in k.prop && '[' !in k.prop && key[|k.prop|] == '.'
    ensures k.IndexedKey? ==> '.' !in k.prop && BracketAt(key, |k.prop|)
  {
    var i := FirstDotOrBracket(key);
    if 1 <= i < |key| && key[i] == '.' then
      Dotted(key[..i])
    else
      match LastBracket(key, 1, FirstDot(key))
      case None => PlainKey
      case Some(q) =>
        var d := BracketDigits(key, q);
        var close := q + 1 + |d|;
        var dot := close + 1 < |key| && key[close + 1] == '.';
        IndexedKey(key[..q], DigitsValue(d), dot,
                   if dot && close + 2 < |key| then Some(key[close + 2..]) else None)
  }

  /** Which pattern a key matches, and where. The dotted pattern matches
      exactly when the first `.` or `[` is a `.` after at least one
      character. Otherwise the indexed pattern matches exactly when a
      bracket group starts at position 1 or later before the first `.`, and
      it takes the last such group (the greedy prefix backs up to it); the
      optional `.` and the text after it follow that group. Any other key
      matches neither. */
  lemma ClassifyCases(key: string)
    ensures var i := FirstDotOrBracket(key);
      && (Classify(key).Dotted? <==> 1 <= i < |key| && key[i] == '.')
      && (Classify(key).Dotted? ==> Classify(key).prop == key[..i])
    ensures var i := FirstDotOrBracket(key);
      !(1 <= i < |key| && key[i] == '.') ==>
        (Classify(key).IndexedKey? <==> exists q :: 1 <= q < FirstDot(key) && BracketAt(key, q))
    ensures Classify(key).IndexedKey? ==>
      var k := Classify(key);
      var q := |k.prop|;
      var d := BracketDigits(key, q);
      var close := q + 1 + |d|;
      && 1 <= q < FirstDot(key)
      && (forall q' :: q < q' < FirstDot(key) ==> !BracketAt(key, q'))
      && k.index == DigitsValue(d)
      && (k.dot <==> close + 1 < |key| && key[close + 1] == '.')
      && k.trailing == (if k.dot && close + 2 < |key| then Some(key[close + 2..]) else None)
  {
    ClassifyDottedCase(key);
    ClassifyIndexedCase(key);
    ClassifyIndexedParts(key);
  }

  lemma ClassifyDottedCase(key: string)
    ensures var i := FirstDotOrBracket(key);
      && (Classify(key).Dotted? <==> 1 <= i < |key| && key[i] == '.')
      && (Classify(key).Dotted? ==> Classify(key).prop == key[..i])
  {
  }

  lemma ClassifyIndexedCase(key: string)
    ensures var i := FirstDotOrBracket(key);
      !(1 <= i < |key| && key[i] == '.') ==>
        (Classify(key).IndexedKey? <==> LastBracket(key, 1, FirstDot(key)).Some?)
    ensures LastBracket(key, 1, FirstDot(key)).Some? <==>
      exists q :: 1 <= q < FirstDot(key) && BracketAt(key, q)
  {
    var r := LastBracket(key, 1, FirstDot(key));
    if r.Some? {
      assert 1 <= r.value < FirstDot(key) && BracketAt(key, r.value);
    }
  }

  lemma ClassifyIndexedParts(key: string)
    ensures Classify(key).IndexedKey? ==>
      var k := Classify(key);
      var q := |k.prop|;
      var d := BracketDigits(key, q);
      var close := q + 1 + |d|;
      && 1 <= q < FirstDot(key)
      && (forall q' :: q < q' < FirstDot(key) ==> !BracketAt(key, q'))
      && k.index == DigitsValue(d)
      && (k.dot <==> close + 1 < |key| && key[close + 1] == '.')
      && k.trailing == (if k.dot && close + 2 < |key| then Some(key[close + 2..]) else None)
  {
    if Classify(key).IndexedKey? {
      ClassifyIndexedGroup(key);
      ClassifyIndexedTail(key);
    }
  }

  /** An indexed key's prop ends at the last bracket group before the first `.`. */
  lemma ClassifyIndexedGroup(key: string)
    requires Classify(key).IndexedKey?
    ensures var k := Classify(key);
      && LastBracket(key, 1, FirstDot(key)) == Some(|k.prop|)
      && k.index == DigitsValue(BracketDigits(key, |k.prop|))
  {
    match LastBracket(key, 1, FirstDot(key))
    case Some(q) =>
      assert |key[..q]| == q;
  }

  /** The `.` and trailing path of an indexed key follow its bracket group. */
  lemma ClassifyIndexedTail(key: string)
    requires Classify(key).IndexedKey?
    ensures var k := Classify(key);
      var close := |k.prop| + 1 + |BracketDigits(key, |k.prop|)|;
      && (k.dot <==> close + 1 < |key| && key[close + 1] == '.')
      && k.trailing == (if k.dot && close + 2 < |key| then Some(key[close + 2..]) else None)
  {
    ClassifyDot(key);
    ClassifyTrailing(key);
  }

  lemma ClassifyDot(key: string)
    requires Classify(key).IndexedKey?
    ensures var q := |Classify(key).prop|;
      var close := q + 1 + |BracketDigits(key, q)|;
      Classify(key).dot <==> close + 1 < |key| && key[close + 1] == '.'
  {
    ClassifyIndexedGroup(key);
  }

  lemma ClassifyTrailing(key: string)
    requires Classify(key).IndexedKey?
    ensures var q := |Classify(key).prop|;
      var close := q + 1 + |BracketDigits(key, q)|;
      Classify(key).trailing
        == (if Classify(key).dot && close + 2 < |key| then Some(key[close + 2..]) else None)
  {
    ClassifyIndexedGroup(key);
  }

  /** A dotted key `prop.rest` is the path of `prop` followed by that of `rest`. */
  lemma DottedSegments(key: string)
    requires Classify(key).Dotted?
    ensures var n := |Classify(key).prop|;
      Segments(key) == [Plain(Classify(key).prop)] + Segments(key[n + 1..])
  {
    var p := Classify(key).prop;
    var rest := key[|p| + 1..];
    assert key == p + ['.'] + rest;
    SplitCons(p, '.', rest);
    NoBracketGroup(p, 0, |p|);
    var parts := [p] + Split(rest, '.');
    assert parts[1..] == Split(rest, '.');
    assert ParseAll(parts) == [ParseSegment(p)] + ParseAll(Split(rest, '.'));
  }

  /** The leading segment a dotted or indexed key is replaced by. */
  function PropOf(key: string): Option<string>
  {
    var k := Classify(key);
    if k.PlainKey? then None else Some(k.prop)
  }

  // ---------------------------------------------------------------------
  // The merge `extendDeepNoArrays(target, source)` (src/lib/extend.js,
  // which is not part of this model). ASSUMED behaviour, property by
  // property of the source in order: an array is stored by reference,
  // replacing whatever the target held; a plain object is merged
  // recursively into the target's value when that is a plain object and
  // into a fresh `{}` otherwise; `undefined` is skipped; anything else
  // overwrites.

  function MergeFields(dst: seq<Field>, src: seq<Field>): seq<Field>
    decreases src
  {
    if src == [] then dst
    else
      var k := src[0].key;
      var c := src[0].val;
      var dst' :=
        if c.Arr? then Put(dst, k, c)
        else if c.Obj? then
          var cur := Get(dst, k);
          Put(dst, k, Obj(MergeFields(if cur.Obj? then cur.fields else [], c.fields)))
        else if c.Undefined? then dst
        else Put(dst, k, c);
      MergeFields(dst', src[1..])
  }

  /** Errors the source raises or that fall outside this model. */
  datatype Error =
    | TypeError     // a property write on a primitive in strict mode, or `undefined.split`
    | Unmodelled    // a named property written onto an array or a function
    | TooDeep       // the nesting bound of the model was reached

  datatype Result<T> = Ok(value: T) | Throw(error: Error)

  /** True when merging `src` writes no property at all. */
  predicate WritesNothing(src: seq<Field>)
  {
    forall i :: 0 <= i < |src| ==> src[i].val.Undefined?
  }

  /** `extendDeepNoArrays(dst, src)` returning the updated target. */
  function MergeInto(dst: Value, src: seq<Field>): Result<Value>
  {
    if dst.Obj? then Ok(Obj(MergeFields(dst.fields, src)))
    else if WritesNothing(src) then Ok(dst)
    else if dst.Arr? || dst.Fn? then Throw(Unmodelled)
    else Throw(TypeError)
  }

  // ---------------------------------------------------------------------
  // Array-slot access as `data[prop][idx]` performs it

  /** `container[idx]`; on a plain object `idx` names the property `String(idx)`. */
  function ElemAt(container: Value, idx: nat): Value
  {
    match container
    case Arr(es) => if idx < |es| then es[idx] else Undefined
    case Obj(fs) => Get(fs, NatToString(idx))
    case _ => Undefined
  }

  /** `container[idx] = v`: writing past the end of an array leaves
      unwritten slots in between. */
  function SetElem(container: Value, idx: nat, v: Value): (r: Result<Value>)
    ensures container.Arr? ==> r.Ok? && r.value.Arr? && ElemAt(r.value, idx) == v
  {
    match container
    case Arr(es) =>
      Ok(Arr(if idx < |es| then es[idx := v] else es + Holes(idx - |es|) + [v]))
    case Obj(fs) => Ok(Obj(Put(fs, NatToString(idx), v)))
    case Fn(_) => Throw(Unmodelled)
    case _ => Throw(TypeError)
  }

  /** `container[idx] = v` changes slot `idx` only, and keeps the kind of
      the container. */
  lemma SetElemAt(container: Value, idx: nat, v: Value)
    requires SetElem(container, idx, v).Ok?
    ensures var r := SetElem(container, idx, v).value;
      && ElemAt(r, idx) == v && (r.Arr? <==> container.Arr?)
      && forall i :: i != idx ==> ElemAt(r, i) == ElemAt(container, i)
  {
    var r := SetElem(container, idx, v).value;
    if container.Obj? {
      forall i | i != idx
        ensures ElemAt(r, i) == ElemAt(container, i)
      {
        assert DigitsValue(NatToString(i)) != DigitsValue(NatToString(idx));
      }
    }
  }

  // ---------------------------------------------------------------------
  // expandObjectPaths, as a specification

  /** `expandObjectPaths(v)`: a plain object has its keys expanded in place
      (through a snapshot of its keys); anything else is returned as is.
      `fuel` bounds the nesting of recursive expansions. */
  function ExpandSpec(v: Value, fuel: nat): (r: Result<Value>)
    ensures !v.Obj? ==> r == Ok(v)
    ensures r.Ok? ==> r.value.Obj? == v.Obj?
    decreases fuel, 2
  {
    if !v.Obj? then Ok(v)
    else if fuel == 0 then Throw(TooDeep)
    else
      match ExpandKeys(v.fields, Keys(v.fields), fuel)
      case Ok(fs) => Ok(Obj(fs))
      case Throw(e) => Throw(e)
  }

  /** The object after the keys `ks` of the snapshot have been visited in order. */
  function ExpandKeys(fs: seq<Field>, ks: seq<string>, fuel: nat): Result<seq<Field>>
    requires fuel > 0
    decreases fuel, 1, |ks|
  {
    if ks == [] then Ok(fs)
    else
      match ExpandKeys(fs, ks[..|ks| - 1], fuel)
      case Ok(cur) => ExpandKey(cur, ks[|ks| - 1], fuel)
      case Throw(e) => Throw(e)
  }

  /** One iteration of the loop of `expandObjectPaths`, on key `key`. */
  function ExpandKey(fs: seq<Field>, key: string, fuel: nat): Result<seq<Field>>
    requires fuel > 0
    decreases fuel, 0, 1
  {
    if !Has(fs, key) then Ok(fs)
    else
      match Classify(key)
      case PlainKey =>
        (match ExpandSpec(Get(fs, key), fuel - 1)
         case Throw(e) => Throw(e)
         case Ok(e) => Ok(Put(fs, key, e)))
      case Dotted(prop) => ExpandDotted(fs, key, prop, fuel)
      case IndexedKey(prop, idx, dot, trailing) =>
        if dot then ExpandIndexedPath(fs, key, prop, idx, trailing, fuel)
        else ExpandIndexedLeaf(fs, key, prop, idx, fuel)
  }

  /** A dotted key `prop.rest`: its expanded value, placed at `rest`, is
      merged into `data[prop] || {}`. */
  function ExpandDotted(fs: seq<Field>, key: string, prop: string, fuel: nat): Result<seq<Field>>
    requires fuel > 0
    decreases fuel, 0, 0
  {
    match ExpandSpec(Get(fs, key), fuel - 1)
    case Throw(e) => Throw(e)
    case Ok(e) => PlaceDotted(Remove(fs, key), key, prop, e)
  }

  /** Merges `objectFromPath(key, e)[prop]` into `data[prop] || {}`. */
  function PlaceDotted(data: seq<Field>, key: string, prop: string, e: Value): Result<seq<Field>>
  {
    var cur := Get(data, prop);
    var base := if Truthy(cur) then cur else Obj([]);
    var tree := PathTree(Segments(key), e);
    var sub := if tree.Obj? then Get(tree.fields, prop) else Undefined;
    match MergeInto(base, if sub.Obj? then sub.fields else [])
    case Throw(err) => Throw(err)
    case Ok(m) => Ok(Put(data, prop, m))
  }

  /** An indexed key `prop[idx].trailing`: the expanded value, placed at
      `trailing`, is merged into the object at `data[prop][idx]`. */
  function ExpandIndexedPath(fs: seq<Field>, key: string, prop: string, idx: nat,
                             trailing: Option<string>, fuel: nat): Result<seq<Field>>
    requires fuel > 0
    decreases fuel, 0, 0
  {
    var rest := Remove(fs, key);
    var cur := Get(rest, prop);
    var container := if Truthy(cur) then cur else Arr([]);
    var slot := ElemAt(container, idx);
    var dest := if Truthy(slot) then slot else Obj([]);
    match SetElem(container, idx, dest)
    case Throw(err) => Throw(err)
    case Ok(c1) =>
      match ExpandSpec(Get(fs, key), fuel - 1)
      case Throw(e) => Throw(e)
      case Ok(e) =>
        if trailing.None? then Throw(TypeError)
        else
          var tree := PathTree(Segments(trailing.value), e);
          match MergeInto(dest, if tree.Obj? then tree.fields else [])
          case Throw(err) => Throw(err)
          case Ok(m) =>
            match SetElem(c1, idx, m)
            case Throw(err) => Throw(err)
            case Ok(c2) => Ok(Put(rest, prop, c2))
  }

  /** An indexed key `prop[idx]` ending the path: the expanded value is
      stored at `data[prop][idx]`. */
  function ExpandIndexedLeaf(fs: seq<Field>, key: string, prop: string, idx: nat,
                             fuel: nat): Result<seq<Field>>
    requires fuel > 0
    decreases fuel, 0, 0
  {
    match ExpandSpec(Get(fs, key), fuel - 1)
    case Throw(e) => Throw(e)
    case Ok(e) => PlaceLeaf(Remove(fs, key), prop, idx, e)
  }

  /** Stores `e` at `(data[prop] || [])[idx]`. */
  function PlaceLeaf(data: seq<Field>, prop: string, idx: nat, e: Value): Result<seq<Field>>
  {
    var cur := Get(data, prop);
    var container := if Truthy(cur) then cur else Arr([]);
    match SetElem(container, idx, e)
    case Throw(err) => Throw(err)
    case Ok(c) => Ok(Put(data, prop, c))
  }

  /** Once a key throws, the whole expansion throws the same error. */
  lemma {:induction false} ThrowPropagates(fs: seq<Field>, ks: seq<string>, fuel: nat, i: nat)
    requires fuel > 0 && i <= |ks| && ExpandKeys(fs, ks[..i], fuel).Throw?
    ensures ExpandKeys(fs, ks, fuel) == ExpandKeys(fs, ks[..i], fuel)
    decreases |ks|
  {
    if i < |ks| {
      assert ks[..|ks| - 1][..i] == ks[..i];
      ThrowPropagates(fs, ks[..|ks| - 1], fuel, i);
    } else {
      assert ks[..i] == ks;
    }
  }

  /** The loop state after the first `i` keys of the snapshot `ks`
      (`ExpandKeys` under a name that unfolds it only once). */
  function Visited(fs: seq<Field>, ks: seq<string>, i: nat, fuel: nat): Result<seq<Field>>
    requires fuel > 0 && i <= |ks|
  {
    ExpandKeys(fs, ks[..i], fuel)
  }

  /** Visiting one more key of the snapshot is one more step. */
  lemma VisitStep(fs: seq<Field>, ks: seq<string>, i: nat, fuel: nat)
    requires fuel > 0 && i < |ks| && Visited(fs, ks, i, fuel).Ok?
    ensures Visited(fs, ks, i + 1, fuel) == ExpandKey(Visited(fs, ks, i, fuel).value, ks[i], fuel)
  {
    assert ks[..i + 1][..i] == ks[..i];
  }

  // ---------------------------------------------------------------------
  // expandObjectPaths, in place

  /** `expandObjectPaths(data)`: rewrites the object's own keys one by one,
      over a snapshot of its keys, and returns it. */
  method ExpandObjectPaths(data: Value, fuel: nat) returns (r: Result<Value>)
    ensures r == ExpandSpec(data, fuel)
    decreases fuel, 1
  {
    if !data.Obj? {
      return Ok(data);
    }
    if fuel == 0 {
      return Throw(TooDeep);
    }
    var fs := data.fields;
    var keys := Keys(fs);
    var i := 0;
    while i < |keys|
      invariant 0 <= i <= |keys|
      invariant Visited(data.fields, keys, i, fuel) == Ok(fs)
    {
      var step := ExpandEntry(fs, keys[i], fuel);
      VisitStep(data.fields, keys, i, fuel);
      if step.Throw? {
        ThrowPropagates(data.fields, keys, fuel, i + 1);
        return Throw(step.error);
      }
      fs := step.value;
      i := i + 1;
    }
    assert keys[..i] == keys;
    return Ok(Obj(fs));
  }

  /** The body of the loop of `expandObjectPaths` for one key. */
  method ExpandEntry(fs: seq<Field>, key: string, fuel: nat) returns (r: Result<seq<Field>>)
    requires fuel > 0
    ensures r == ExpandKey(fs, key, fuel)
    decreases fuel, 0, 1
  {
    if !Has(fs, key) {
      return Ok(fs);
    }
    match Classify(key)
    case PlainKey =>
      var e := ExpandObjectPaths(Get(fs, key), fuel - 1);
      if e.Throw? {
        return Throw(e.error);
      }
      return Ok(Put(fs, key, e.value));
    case Dotted(prop) =>
      r := ExpandDottedEntry(fs, key, prop, fuel);
    case IndexedKey(prop, idx, dot, trailing) =>
      if dot {
        r := ExpandIndexedPathEntry(fs, key, prop, idx, trailing, fuel);
      } else {
        r := ExpandIndexedLeafEntry(fs, key, prop, idx, fuel);
      }
  }

  method ExpandDottedEntry(fs: seq<Field>, key: string, prop: string, fuel: nat)
    returns (r: Result<seq<Field>>)
    requires fuel > 0
    ensures r == ExpandDotted(fs, key, prop, fuel)
    decreases fuel, 0, 0
  {
    var datum := Get(fs, key);
    var e := ExpandObjectPaths(datum, fuel - 1);
    assert e == ExpandSpec(datum, fuel - 1);
    if e.Throw? {
      return Throw(e.error);
    }
    DottedUnfold(fs, key, prop, fuel);
    r := PlaceDottedEntry(Remove(fs, key), key, prop, e.value);
  }

  lemma DottedUnfold(fs: seq<Field>, key: string, prop: string, fuel: nat)
    requires fuel > 0 && ExpandSpec(Get(fs, key), fuel - 1).Ok?
    ensures ExpandDotted(fs, key, prop, fuel)
         == PlaceDotted(Remove(fs, key), key, prop, ExpandSpec(Get(fs, key), fuel - 1).value)
  {
  }

  method PlaceDottedEntry(data: seq<Field>, key: string, prop: string, e: Value)
    returns (r: Result<seq<Field>>)
    ensures r == PlaceDotted(data, key, prop, e)
  {
    var cur := Get(data, prop);
    var base := if Truthy(cur) then cur else Obj([]);
    var tree := ObjectFromPath(key, e);
    var sub := if tree.Obj? then Get(tree.fields, prop) else Undefined;
    var m := MergeInto(base, if sub.Obj? then sub.fields else []);
    if m.Throw? {
      return Throw(m.error);
    }
    return Ok(Put(data, prop, m.value));
  }

  method ExpandIndexedPathEntry(fs: seq<Field>, key: string, prop: string, idx: nat,
                                trailing: Option<string>, fuel: nat)
    returns (r: Result<seq<Field>>)
    requires fuel > 0
    ensures r == ExpandIndexedPath(fs, key, prop, idx, trailing, fuel)
    decreases fuel, 0, 0
  {
    var datum := Get(fs, key);
    var data := Remove(fs, key);
    var cur := Get(data, prop);
    var container := if Truthy(cur) then cur else Arr([]);
    var slot := ElemAt(container, idx);
    var dest := if Truthy(slot) then slot else Obj([]);
    var c1 := SetElem(container, idx, dest);
    if c1.Throw? {
      return Throw(c1.error);
    }
    var e := ExpandObjectPaths(datum, fuel - 1);
    if e.Throw? {
      return Throw(e.error);
    }
    if trailing.None? {
      return Throw(TypeError);
    }
    var tree := ObjectFromPath(trailing.value, e.value);
    var m := MergeInto(dest, if tree.Obj? then tree.fields else []);
    if m.Throw? {
      return Throw(m.error);
    }
    var c2 := SetElem(c1.value, idx, m.value);
    if c2.Throw? {
      return Throw(c2.error);
    }
    return Ok(Put(data, prop, c2.value));
  }

  method ExpandIndexedLeafEntry(fs: seq<Field>, key: string, prop: string, idx: nat, fuel: nat)
    returns (r: Result<seq<Field>>)
    requires fuel > 0
    ensures r == ExpandIndexedLeaf(fs, key, prop, idx, fuel)
    decreases fuel, 0, 0
  {
    var datum := Get(fs, key);
    var e := ExpandObjectPaths(datum, fuel - 1);
    assert e == ExpandSpec(datum, fuel - 1);
    if e.Throw? {
      return Throw(e.error);
    }
    LeafUnfold(fs, key, prop, idx, fuel);
    r := PlaceLeafEntry(Remove(fs, key), prop, idx, e.value);
  }

  lemma LeafUnfold(fs: seq<Field>, key: string, prop: string, idx: nat, fuel: nat)
    requires fuel > 0 && ExpandSpec(Get(fs, key), fuel - 1).Ok?
    ensures ExpandIndexedLeaf(fs, key, prop, idx, fuel)
         == PlaceLeaf(Remove(fs, key), prop, idx, ExpandSpec(Get(fs, key), fuel - 1).value)
  {
  }

  method PlaceLeafEntry(data: seq<Field>, prop: string, idx: nat, e: Value)
    returns (r: Result<seq<Field>>)
    ensures r == PlaceLeaf(data, prop, idx, e)
  {
    var cur := Get(data, prop);
    var container := if Truthy(cur) then cur else Arr([]);
    var c := SetElem(container, idx, e);
    if c.Throw? {
      return Throw(c.error);
    }
    return Ok(Put(data, prop, c.value));
  }
}
