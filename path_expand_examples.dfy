/**
 * The worked examples in the documentation of `expandObjectPaths`,
 * evaluated on the specification.
 */
module PathExpandExamples {
  import opened JsValue
  import opened PathExpand
  import opened PathExpandProps
  import opened PathExpandPlace

  /** `name[d].rest`, with a one-digit index, is an indexed key with a
      trailing path. */
  lemma ClassifyIndexedPath(name: string, d: char, rest: string)
    requires |name| >= 1 && '.' !in name && '[' !in name && IsDigit(d) && rest != []
    ensures Classify(name + ['[', d, ']', '.'] + rest)
         == IndexedKey(name, DigitValue(d), true, Some(rest))
  {
    var key := name + ['[', d, ']', '.'] + rest;
    var n := |name|;
    IndexedPathScan(name, d, rest);
    assert key[n] == '[' && key[n + 1] == d && key[n + 2] == ']';
    IndexedPathBracket(key, n, d);
    assert DigitsValue([d]) == DigitValue(d) by {
      assert [d][..0] == [];
    }
    assert key[..n] == name && key[n + 4..] == rest;
    assert LastBracket(key, 1, FirstDot(key)) == Some(n);
    assert n + 4 < |key| && key[n + 3] == '.';
    assert Classify(key) == IndexedKey(key[..n], DigitsValue([d]), true, Some(key[n + 4..]));
  }

  /** Where the first `.` or `[` and the first `.` of `name[d].rest` are. */
  lemma IndexedPathScan(name: string, d: char, rest: string)
    requires '.' !in name && '[' !in name && IsDigit(d)
    ensures var key := name + ['[', d, ']', '.'] + rest;
      FirstDotOrBracket(key) == |name| && FirstDot(key) == |name| + 3
  {
    var key := name + ['[', d, ']', '.'] + rest;
    var n := |name|;
    assert key[n] == '[' && key[n + 1] == d && key[n + 2] == ']' && key[n + 3] == '.';
    forall j | 0 <= j < n + 3
      ensures key[j] != '.' && (j < n ==> key[j] != '[')
    {
      if j < n {
        assert key[j] == name[j] && name[j] in name;
      }
    }
    FirstDotOrBracketAt(key, n);
    FirstDotAt(key, n + 3);
  }

  lemma FirstDotOrBracketAt(s: string, n: nat)
    requires n < |s| && (s[n] == '.' || s[n] == '[')
    requires forall j :: 0 <= j < n ==> s[j] != '.' && s[j] != '['
    ensures FirstDotOrBracket(s) == n
  {
  }

  lemma FirstDotAt(s: string, n: nat)
    requires n < |s| && s[n] == '.'
    requires forall j :: 0 <= j < n ==> s[j] != '.'
    ensures FirstDot(s) == n
  {
  }

  /** The bracket group of `name[d].rest` is the one at `|name|`, and holds `d`. */
  lemma IndexedPathBracket(key: string, n: nat, d: char)
    requires n >= 1 && n + 3 < |key| && key[n] == '[' && key[n + 1] == d && key[n + 2] == ']'
    requires IsDigit(d)
    ensures LastBracket(key, 1, n + 3) == Some(n)
    ensures BracketAt(key, n) && BracketDigits(key, n) == [d]
  {
    OneDigit(key[n + 1..]);
    LastBracketHit(key, 1, n + 1);
    LastBracketSkip(key, 1, n + 2);
    LastBracketSkip(key, 1, n + 3);
  }

  /** The backward search stops at a bracket group. */
  lemma LastBracketHit(s: string, lo: nat, hi: nat)
    requires lo < hi <= |s| && BracketAt(s, hi - 1)
    ensures LastBracket(s, lo, hi) == Some(hi - 1)
  {
  }

  /** The backward search passes a position that holds no `[`. */
  lemma LastBracketSkip(s: string, lo: nat, hi: nat)
    requires lo < hi <= |s| && s[hi - 1] != '['
    ensures LastBracket(s, lo, hi) == LastBracket(s, lo, hi - 1)
  {
  }

  /** A text whose first character is the only leading digit. */
  lemma OneDigit(t: string)
    requires |t| >= 2 && IsDigit(t[0]) && !IsDigit(t[1])
    ensures LeadingDigits(t) == [t[0]]
  {
    assert t[1..][0] == t[1];
  }

  /** `name[d]`, a single segment with a one-digit index. */
  lemma ParseIndexedSegment(name: string, d: char)
    requires '[' !in name && IsDigit(d)
    ensures ParseSegment(name + ['[', d, ']']) == Indexed(name, DigitValue(d))
  {
    var s := name + ['[', d, ']'];
    var n := |name|;
    assert s[n] == '[' && s[n + 1] == d && s[n + 2] == ']';
    assert s[n + 2..] == "]";
    assert LeadingDigits(s[n + 2..]) == [];
    assert s[n + 1..] == [d, ']'];
    assert LeadingDigits(s[n + 1..]) == [d];
    assert !BracketAt(s, n + 2) && !BracketAt(s, n + 1) && BracketAt(s, n);
    assert LastBracket(s, 0, n + 3) == Some(n);
    assert DigitsValue([d]) == DigitValue(d) by {
      assert [d][..0] == [];
    }
    assert s[..n] == name;
  }

  /** A path without `.` and `[` is one plain segment. */
  lemma PlainPathTree(name: string, v: Value)
    requires '.' !in name && '[' !in name
    ensures PathTree(Segments(name), v) == Obj([Field(name, v)])
  {
    NoBracketGroup(name, 0, |name|);
  }

  /** Merging `{name: v}` into `{}` for a primitive `v`. */
  lemma MergeOneField(name: string, v: Value)
    requires !v.Arr? && !v.Obj? && !v.Undefined?
    ensures MergeInto(Obj([]), [Field(name, v)]) == Ok(Obj([Field(name, v)]))
  {
    var src := [Field(name, v)];
    assert src[1..] == [];
    assert Put([], name, v) == src;
    assert MergeFields([], src) == MergeFields(src, []);
  }

  /** The step on an indexed key with a trailing path, given the values
      of its intermediate expressions. */
  lemma IndexedPathStep(fs: seq<Field>, key: string, prop: string, idx: nat, trail: string,
                        fuel: nat, container: Value, dest: Value, e: Value, c1: Value,
                        m: Value, c2: Value)
    requires fuel > 0 && Has(fs, key) && Classify(key) == IndexedKey(prop, idx, true, Some(trail))
    requires container == (var cur := Get(Remove(fs, key), prop); if Truthy(cur) then cur else Arr([]))
    requires dest == (var slot := ElemAt(container, idx); if Truthy(slot) then slot else Obj([]))
    requires SetElem(container, idx, dest) == Ok(c1)
    requires ExpandSpec(Get(fs, key), fuel - 1) == Ok(e)
    requires PathTree(Segments(trail), e).Obj?
    requires MergeInto(dest, PathTree(Segments(trail), e).fields) == Ok(m)
    requires SetElem(c1, idx, m) == Ok(c2)
    ensures ExpandKey(fs, key, fuel) == Ok(Put(Remove(fs, key), prop, c2))
  {
  }

  /** Writing slot `idx` of a fresh array, then overwriting it. */
  lemma GrowFromEmpty(idx: nat, x: Value, y: Value)
    ensures SetElem(Arr([]), idx, x) == Ok(Arr(Holes(idx) + [x]))
    ensures SetElem(Arr(Holes(idx) + [x]), idx, y) == Ok(Arr(Holes(idx) + [y]))
  {
    assert [] + Holes(idx) + [x] == Holes(idx) + [x];
    assert (Holes(idx) + [x])[idx := y] == Holes(idx) + [y];
  }

  /** The step on `prop[idx].trail` when `data[prop]` is absent: a fresh
      array with the merged object at `idx`. */
  lemma IndexedPathFresh(fs: seq<Field>, key: string, prop: string, idx: nat, trail: string,
                         fuel: nat, rest: seq<Field>, e: Value, mf: seq<Field>, m: Value)
    requires fuel > 0 && Has(fs, key) && Classify(key) == IndexedKey(prop, idx, true, Some(trail))
    requires Remove(fs, key) == rest && !Has(rest, prop)
    requires ExpandSpec(Get(fs, key), fuel - 1) == Ok(e)
    requires PathTree(Segments(trail), e) == Obj(mf) && MergeInto(Obj([]), mf) == Ok(m)
    ensures ExpandKey(fs, key, fuel) == Ok(Put(rest, prop, Arr(Holes(idx) + [m])))
  {
    var c1 := Arr(Holes(idx) + [Obj([])]);
    GrowFromEmpty(idx, Obj([]), m);
    IndexedPathStep(fs, key, prop, idx, trail, fuel, Arr([]), Obj([]), e, c1, m,
                    Arr(Holes(idx) + [m]));
  }

  /** The step on `prop[idx].trail` when `data[prop]` is an array long
      enough: the merged object replaces slot `idx`. */
  lemma IndexedPathIntoArray(fs: seq<Field>, key: string, prop: string, idx: nat, trail: string,
                             fuel: nat, rest: seq<Field>, es: seq<Value>, e: Value,
                             mf: seq<Field>, m: Value)
    requires fuel > 0 && Has(fs, key) && Classify(key) == IndexedKey(prop, idx, true, Some(trail))
    requires Remove(fs, key) == rest && Get(rest, prop) == Arr(es) && idx < |es|
    requires ExpandSpec(Get(fs, key), fuel - 1) == Ok(e)
    requires PathTree(Segments(trail), e) == Obj(mf)
    requires MergeInto(if Truthy(es[idx]) then es[idx] else Obj([]), mf) == Ok(m)
    ensures ExpandKey(fs, key, fuel) == Ok(Put(rest, prop, Arr(es[idx := m])))
  {
    var dest := if Truthy(es[idx]) then es[idx] else Obj([]);
    SlotWrites(es, idx, dest, m);
    IndexedPathStep(fs, key, prop, idx, trail, fuel, Arr(es), dest, e, Arr(es[idx := dest]), m,
                    Arr(es[idx := m]));
  }

  /** Reading slot `idx` of an array, writing `dest` there and then `m`. */
  lemma SlotWrites(es: seq<Value>, idx: nat, dest: Value, m: Value)
    requires idx < |es|
    ensures Truthy(Arr(es)) && ElemAt(Arr(es), idx) == es[idx]
    ensures SetElem(Arr(es), idx, dest) == Ok(Arr(es[idx := dest]))
    ensures SetElem(Arr(es[idx := dest]), idx, m) == Ok(Arr(es[idx := m]))
  {
    assert es[idx := dest][idx := m] == es[idx := m];
  }

  /** Reading, testing and deleting in a two-field object with distinct
      keys; `other` is a key the second field does not have. */
  lemma TwoFields(f0: Field, f1: Field, other: string)
    requires f0.key != f1.key && other != f1.key
    ensures Has([f0, f1], f0.key) && Get([f0, f1], f0.key) == f0.val
    ensures Remove([f0, f1], f0.key) == [f1]
    ensures Get([f1], f1.key) == f1.val && !Has([f1], other)
  {
    assert Keys([f0, f1]) == [f0.key, f1.key];
    assert [f0, f1][1..] == [f1] && [f1][1..] == [];
    assert Keys([f1]) == [f1.key];
  }

  /** `name[d].leaf`. */
  function IndexedLeafKey(name: string, d: char, leaf: string): string
  {
    name + ['[', d, ']', '.'] + leaf
  }

  /** A name fit to be the leading segment or the leaf of a path. */
  predicate SimpleName(s: string)
  {
    |s| >= 1 && '.' !in s && '[' !in s
  }

  /** A value that merges as a leaf: not an array, object or `undefined`. */
  predicate Scalar(v: Value)
  {
    !v.Arr? && !v.Obj? && !v.Undefined?
  }

  lemma IndexedLeafKeyFacts(name: string, d: char, e: char, leaf: string)
    requires SimpleName(name) && SimpleName(leaf) && IsDigit(d) && IsDigit(e) && d != e
    ensures IndexedLeafKey(name, d, leaf) != IndexedLeafKey(name, e, leaf)
    ensures IndexedLeafKey(name, d, leaf) != name
  {
    var k, j := IndexedLeafKey(name, d, leaf), IndexedLeafKey(name, e, leaf);
    assert k[|name| + 1] == d && j[|name| + 1] == e;
  }

  /** The first key of the parallel pair, `name[1].leaf`, creates the array
      under `name` with its slot 1 filled. */
  lemma ParallelFirst(name: string, leaf: string, a: Value, b: Value, fuel: nat)
    requires SimpleName(name) && SimpleName(leaf) && Scalar(a) && fuel > 0
    ensures var k1, k0 := IndexedLeafKey(name, '1', leaf), IndexedLeafKey(name, '0', leaf);
      ExpandKey([Field(k1, a), Field(k0, b)], k1, fuel)
      == Ok([Field(k0, b), Field(name, Arr([Undefined, Obj([Field(leaf, a)])]))])
  {
    var k1, k0 := IndexedLeafKey(name, '1', leaf), IndexedLeafKey(name, '0', leaf);
    var m := Obj([Field(leaf, a)]);
    IndexedLeafKeyFacts(name, '1', '0', leaf);
    IndexedLeafKeyFacts(name, '0', '1', leaf);
    ClassifyIndexedPath(name, '1', leaf);
    TwoFields(Field(k1, a), Field(k0, b), name);
    PlainPathTree(leaf, a);
    MergeOneField(leaf, a);
    IndexedPathFresh([Field(k1, a), Field(k0, b)], k1, name, 1, leaf, fuel, [Field(k0, b)], a,
                     m.fields, m);
    OneHole(m);
    PutAfterOne(Field(k0, b), name, Arr([Undefined, m]));
  }

  lemma OneHole(m: Value)
    ensures Holes(1) + [m] == [Undefined, m]
  {
  }

  lemma PutAfterOne(f: Field, k: string, v: Value)
    requires f.key != k
    ensures Put([f], k, v) == [f, Field(k, v)]
  {
    assert [f][1..] == [];
  }

  /** The second key, `name[0].leaf`, fills slot 0 of that array and leaves
      slot 1 alone. */
  lemma ParallelSecond(name: string, leaf: string, b: Value, m1: Value, fuel: nat)
    requires SimpleName(name) && SimpleName(leaf) && Scalar(b) && fuel > 0
    ensures var k0 := IndexedLeafKey(name, '0', leaf);
      ExpandKey([Field(k0, b), Field(name, Arr([Undefined, m1]))], k0, fuel)
      == Ok([Field(name, Arr([Obj([Field(leaf, b)]), m1]))])
  {
    var k0 := IndexedLeafKey(name, '0', leaf);
    var f1 := Field(name, Arr([Undefined, m1]));
    var m := Obj([Field(leaf, b)]);
    IndexedLeafKeyFacts(name, '0', '1', leaf);
    ClassifyIndexedPath(name, '0', leaf);
    TwoFields(Field(k0, b), f1, k0);
    PlainPathTree(leaf, b);
    MergeOneField(leaf, b);
    IndexedPathIntoArray([Field(k0, b), f1], k0, name, 0, leaf, fuel, [f1], [Undefined, m1], b,
                         m.fields, m);
    FillFirstSlot(m1, m);
    PutOverOne(name, Arr([Undefined, m1]), Arr([m, m1]));
  }

  lemma FillFirstSlot(m1: Value, m: Value)
    ensures [Undefined, m1][0 := m] == [m, m1]
  {
  }

  /** Parallel indexed keys under one prefix both survive, each at its own
      index: `{'foo[1].bar': 10, 'foo[0].bar': 20}` expands to
      `{foo: [{bar: 20}, {bar: 10}]}`, and so does every instance of that
      shape. */
  lemma ParallelIndexedKeys(name: string, leaf: string, a: Value, b: Value, fuel: nat)
    requires SimpleName(name) && SimpleName(leaf) && Scalar(a) && Scalar(b) && fuel > 0
    ensures ExpandSpec(Obj([Field(IndexedLeafKey(name, '1', leaf), a),
                            Field(IndexedLeafKey(name, '0', leaf), b)]), fuel)
         == Ok(Obj([Field(name, Arr([Obj([Field(leaf, b)]), Obj([Field(leaf, a)])]))]))
  {
    var k1, k0 := IndexedLeafKey(name, '1', leaf), IndexedLeafKey(name, '0', leaf);
    var fs := [Field(k1, a), Field(k0, b)];
    var ks := Keys(fs);
    assert ks == [k1, k0];
    assert ks[..1] == [k1] && ks[..1][..0] == [];
    ExpandKeysStep(fs, ks[..1], fuel);
    ParallelFirst(name, leaf, a, b, fuel);
    ExpandKeysStep(fs, ks, fuel);
    ParallelSecond(name, leaf, b, Obj([Field(leaf, a)]), fuel);
  }

  /** A one-segment path `inner[d]` builds `{inner: [<d holes>, v]}`. */
  lemma IndexedPathTree(inner: string, d: char, v: Value)
    requires SimpleName(inner) && IsDigit(d)
    ensures PathTree(Segments(inner + ['[', d, ']']), v)
         == Obj([Field(inner, Arr(Holes(DigitValue(d)) + [v]))])
  {
    var s := inner + ['[', d, ']'];
    assert s[|inner|] == '[' && s[|inner| + 1] == d && s[|inner| + 2] == ']';
    assert '.' !in s by {
      assert forall j :: 0 <= j < |inner| ==> s[j] == inner[j];
    }
    ParseIndexedSegment(inner, d);
    assert Segments(s) == [Indexed(inner, DigitValue(d))];
  }

  /** `name[1].inner[d]`. */
  function NestedIndexKey(name: string, inner: string, d: char): string
  {
    IndexedLeafKey(name, '1', inner + ['[', d, ']'])
  }

  lemma NestedIndexKeyFacts(name: string, inner: string)
    requires SimpleName(name) && SimpleName(inner)
    ensures NestedIndexKey(name, inner, '1') != NestedIndexKey(name, inner, '0')
    ensures NestedIndexKey(name, inner, '0') != name
    ensures Classify(NestedIndexKey(name, inner, '1'))
         == IndexedKey(name, 1, true, Some(inner + ['[', '1', ']']))
    ensures Classify(NestedIndexKey(name, inner, '0'))
         == IndexedKey(name, 1, true, Some(inner + ['[', '0', ']']))
  {
    var k1, k0 := NestedIndexKey(name, inner, '1'), NestedIndexKey(name, inner, '0');
    assert |k1| == |k0| && k1[|k1| - 2] == '1' && k0[|k0| - 2] == '0';
    assert |k0| > |name|;
    ClassifyIndexedPath(name, '1', inner + ['[', '1', ']']);
    ClassifyIndexedPath(name, '1', inner + ['[', '0', ']']);
  }

  /** Merging `{inner: arr}` into `dst` puts the array in place wholesale. */
  lemma MergeArrayField(dst: seq<Field>, inner: string, arr: seq<Value>)
    ensures MergeInto(Obj(dst), [Field(inner, Arr(arr))]) == Ok(Obj(Put(dst, inner, Arr(arr))))
  {
    var src := [Field(inner, Arr(arr))];
    assert src[1..] == [];
    assert MergeFields(dst, src) == MergeFields(Put(dst, inner, Arr(arr)), []);
  }

  /** The first key, `name[1].inner[1]`, creates `{name: [_, {inner: [_, a]}]}`. */
  lemma OverwriteFirst(name: string, inner: string, a: Value, b: Value, fuel: nat)
    requires SimpleName(name) && SimpleName(inner) && !a.Obj? && fuel > 0
    ensures var k1, k0 := NestedIndexKey(name, inner, '1'), NestedIndexKey(name, inner, '0');
      ExpandKey([Field(k1, a), Field(k0, b)], k1, fuel)
      == Ok([Field(k0, b), Field(name, Arr([Undefined, Obj([Field(inner, Arr([Undefined, a]))])]))])
  {
    var k1, k0 := NestedIndexKey(name, inner, '1'), NestedIndexKey(name, inner, '0');
    var mf := [Field(inner, Arr([Undefined, a]))];
    NestedIndexKeyFacts(name, inner);
    TwoFields(Field(k1, a), Field(k0, b), name);
    IndexedPathTree(inner, '1', a);
    OneHole(a);
    MergeArrayField([], inner, [Undefined, a]);
    assert Put([], inner, Arr([Undefined, a])) == mf;
    IndexedPathFresh([Field(k1, a), Field(k0, b)], k1, name, 1, inner + ['[', '1', ']'], fuel,
                     [Field(k0, b)], a, mf, Obj(mf));
    OneHole(Obj(mf));
    PutAfterOne(Field(k0, b), name, Arr([Undefined, Obj(mf)]));
  }

  lemma PutOverOne(k: string, x: Value, y: Value)
    ensures Put([Field(k, x)], k, y) == [Field(k, y)]
  {
    assert [Field(k, x)][1..] == [];
  }

  lemma OverwriteSecondValues(inner: string, a: Value, b: Value)
    requires SimpleName(inner)
    ensures PathTree(Segments(inner + ['[', '0', ']']), b) == Obj([Field(inner, Arr([b]))])
    ensures MergeInto(Obj([Field(inner, Arr([Undefined, a]))]), [Field(inner, Arr([b]))])
         == Ok(Obj([Field(inner, Arr([b]))]))
    ensures var m1, m2 := Obj([Field(inner, Arr([Undefined, a]))]), Obj([Field(inner, Arr([b]))]);
      Truthy(m1) && [Undefined, m1][1 := m2] == [Undefined, m2]
  {
    var dst := [Field(inner, Arr([Undefined, a]))];
    IndexedPathTree(inner, '0', b);
    assert DigitValue('0') == 0;
    assert Holes(0) + [b] == [b];
    MergeArrayField(dst, inner, [b]);
    assert dst[1..] == [];
    assert Put(dst, inner, Arr([b])) == [Field(inner, Arr([b]))];
  }

  /** The second key, `name[1].inner[0]`, merges `{inner: [b]}` into the
      object at slot 1: the array `[_, a]` is replaced, not combined. */
  lemma OverwriteSecond(name: string, inner: string, a: Value, b: Value, fuel: nat)
    requires SimpleName(name) && SimpleName(inner) && !b.Obj? && fuel > 0
    ensures var k0 := NestedIndexKey(name, inner, '0');
      var m1 := Obj([Field(inner, Arr([Undefined, a]))]);
      ExpandKey([Field(k0, b), Field(name, Arr([Undefined, m1]))], k0, fuel)
      == Ok([Field(name, Arr([Undefined, Obj([Field(inner, Arr([b]))])]))])
  {
    var k0 := NestedIndexKey(name, inner, '0');
    var m1 := Obj([Field(inner, Arr([Undefined, a]))]);
    var f1 := Field(name, Arr([Undefined, m1]));
    var m2 := Obj([Field(inner, Arr([b]))]);
    NestedIndexKeyFacts(name, inner);
    TwoFields(Field(k0, b), f1, k0);
    OverwriteSecondValues(inner, a, b);
    IndexedPathIntoArray([Field(k0, b), f1], k0, name, 1, inner + ['[', '0', ']'], fuel,
                         [f1], [Undefined, m1], b, m2.fields, m2);
    PutOverOne(name, Arr([Undefined, m1]), Arr([Undefined, m2]));
  }

  /** Two keys writing different slots of one nested array under the same
      indexed prefix do not combine: `{'marker[1].range[1]': 5,
      'marker[1].range[0]': 4}` expands to `{marker: [_, {range: [4]}]}`,
      the second array replacing the first wholesale. */
  lemma NestedArraysOverwrite(name: string, inner: string, a: Value, b: Value, fuel: nat)
    requires SimpleName(name) && SimpleName(inner) && !a.Obj? && !b.Obj? && fuel > 0
    ensures ExpandSpec(Obj([Field(NestedIndexKey(name, inner, '1'), a),
                            Field(NestedIndexKey(name, inner, '0'), b)]), fuel)
         == Ok(Obj([Field(name, Arr([Undefined, Obj([Field(inner, Arr([b]))])]))]))
  {
    var k1, k0 := NestedIndexKey(name, inner, '1'), NestedIndexKey(name, inner, '0');
    var fs := [Field(k1, a), Field(k0, b)];
    var ks := Keys(fs);
    assert ks == [k1, k0];
    assert ks[..1] == [k1] && ks[..1][..0] == [];
    ExpandKeysStep(fs, ks[..1], fuel);
    OverwriteFirst(name, inner, a, b, fuel);
    ExpandKeysStep(fs, ks, fuel);
    OverwriteSecond(name, inner, a, b, fuel);
  }

  /** `a.b.c` is a dotted key whose leading property is `a`. */
  lemma ThreePartKey(a: string, b: string, c: string)
    requires SimpleName(a) && SimpleName(b) && SimpleName(c)
    ensures Classify(a + "." + (b + "." + c)) == Dotted(a)
  {
    var key := a + "." + (b + "." + c);
    FirstDotOrBracketAt(key, |a|);
    assert key[..|a|] == a;
  }

  /** `objectFromPath('a.b.c', v)` is `{a: {b: {c: v}}}`. */
  lemma ThreePartTree(a: string, b: string, c: string, v: Value)
    requires SimpleName(a) && SimpleName(b) && SimpleName(c)
    ensures PathTree(Segments(a + "." + (b + "." + c)), v)
         == Obj([Field(a, Obj([Field(b, Obj([Field(c, v)]))]))])
  {
    var segs := Segments(a + "." + (b + "." + c));
    ThreePartSegments(a, b, c);
    assert segs[1..] == [Plain(b), Plain(c)];
    assert PathTree(segs[1..], v) == Obj([Field(b, PathTree([Plain(c)], v))]);
  }

  lemma ThreePartSegments(a: string, b: string, c: string)
    requires SimpleName(a) && SimpleName(b) && SimpleName(c)
    ensures Segments(a + "." + (b + "." + c)) == [Plain(a), Plain(b), Plain(c)]
  {
    SplitThree(a, b, c, '.');
    NoBracketGroup(a, 0, |a|);
    NoBracketGroup(b, 0, |b|);
    NoBracketGroup(c, 0, |c|);
  }

  /** The documented example `{'nested.test.path': 'value'}` expands to
      `{nested: {test: {path: 'value'}}}`, for any three plain names and
      any value other than an object or `undefined`. */
  lemma NestedDottedExample(a: string, b: string, c: string, v: Value, fuel: nat)
    requires SimpleName(a) && SimpleName(b) && SimpleName(c)
    requires !v.Obj? && !v.Undefined? && fuel > 0
    ensures ExpandSpec(Obj([Field(a + "." + (b + "." + c), v)]), fuel)
         == Ok(Obj([Field(a, Obj([Field(b, Obj([Field(c, v)]))]))]))
  {
    ThreePartKey(a, b, c);
    LoneDottedKey(a + "." + (b + "." + c), v, fuel);
    ThreePartTree(a, b, c, v);
  }

  lemma NestedTestPath(fuel: nat)
    requires fuel > 0
    ensures ExpandSpec(Obj([Field("nested.test.path", Str("value"))]), fuel)
         == Ok(Obj([Field("nested", Obj([Field("test", Obj([Field("path", Str("value"))]))]))]))
  {
    assert "nested.test.path" == "nested" + "." + ("test" + "." + "path");
    NestedDottedExample("nested", "test", "path", Str("value"), fuel);
  }
}
