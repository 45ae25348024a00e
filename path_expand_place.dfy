/**
 * Where `expandObjectPaths` puts the expanded value of a dotted or indexed
 * key. When nothing is stored under the key's leading segment yet, the key
 * is replaced by exactly what `objectFromPath(key, value)` builds below
 * that segment, so walking the key's path through the result reaches the
 * expanded value. The merge `extendDeepNoArrays` skips `undefined` and
 * folds repeated keys, so the value must hold neither (`Clean`).
 */
module PathExpandPlace {
  import opened JsValue
  import opened PathExpand
  import opened PathExpandProps
  import opened SeqFacts

  // ---------------------------------------------------------------------
  // Values the merge copies exactly

  /** Not `undefined`, and, in a plain object, no repeated key and only
      clean values, at every depth of plain objects. Arrays are stored by
      reference, so their slots do not matter. */
  ghost predicate Clean(v: Value)
    decreases v, 1
  {
    !v.Undefined? && (v.Obj? ==> CleanFields(v.fields))
  }

  ghost predicate CleanFields(fs: seq<Field>)
    decreases fs, 0
  {
    UniqueKeys(fs) && forall i :: 0 <= i < |fs| ==> Clean(fs[i].val)
  }

  /** A new key is appended. */
  lemma {:induction false} PutNew(fs: seq<Field>, k: string, v: Value)
    requires !Has(fs, k)
    ensures Put(fs, k, v) == fs + [Field(k, v)]
  {
    if fs != [] {
      assert Keys(fs) == [fs[0].key] + Keys(fs[1..]);
      PutNew(fs[1..], k, v);
    }
  }

  /** One field of the merge: a clean value under a new key is appended,
      a plain object as the copy the merge makes of it. */
  lemma MergeStep(dst: seq<Field>, src: seq<Field>)
    requires src != [] && !Has(dst, src[0].key) && Clean(src[0].val)
    requires src[0].val.Obj? ==> MergeFields([], src[0].val.fields) == src[0].val.fields
    ensures MergeFields(dst, src) == MergeFields(dst + [src[0]], src[1..])
  {
    var k, c := src[0].key, src[0].val;
    if c.Obj? {
      PutNew(dst, k, Obj(MergeFields([], c.fields)));
    } else {
      PutNew(dst, k, c);
    }
  }

  /** Merging clean fields under keys the target lacks appends them
      unchanged. */
  lemma {:induction false} CleanMerge(dst: seq<Field>, src: seq<Field>)
    requires CleanFields(src)
    requires forall i :: 0 <= i < |src| ==> !Has(dst, src[i].key)
    ensures MergeFields(dst, src) == dst + src
    decreases src
  {
    if src != [] {
      var c := src[0].val;
      var dst' := dst + [src[0]];
      assert MergeFields(dst, src) == MergeFields(dst', src[1..]) by {
        assert Clean(c);
        if c.Obj? {
          CleanMerge([], c.fields);
          assert [] + c.fields == c.fields;
        }
        MergeStep(dst, src);
      }
      assert MergeFields(dst', src[1..]) == dst' + src[1..] by {
        CleanTail(dst, src);
        CleanMerge(dst', src[1..]);
      }
      ShiftHead(dst, src);
    }
  }

  /** After the first field is appended, the rest of a clean source is
      clean and still new to the target. */
  lemma CleanTail(dst: seq<Field>, src: seq<Field>)
    requires src != [] && CleanFields(src)
    requires forall i :: 0 <= i < |src| ==> !Has(dst, src[i].key)
    ensures CleanFields(src[1..])
    ensures forall i :: 0 <= i < |src[1..]| ==> !Has(dst + [src[0]], src[1..][i].key)
  {
    forall i | 0 <= i < |src[1..]|
      ensures Clean(src[1..][i].val) && !Has(dst + [src[0]], src[1..][i].key)
    {
      assert src[1..][i] == src[i + 1];
      KeysSnoc(dst, src[0]);
    }
  }

  lemma {:induction false} KeysSnoc(fs: seq<Field>, f: Field)
    ensures Keys(fs + [f]) == Keys(fs) + [f.key]
  {
  }

  /** The tree of a path around a clean value is clean: it adds only
      one-field objects and arrays. */
  lemma {:induction false} TreeClean(segs: seq<Segment>, e: Value)
    requires |segs| >= 1 && Clean(e)
    ensures Clean(PathTree(segs, e))
    decreases |segs|
  {
    var inner := if |segs| == 1 then e else PathTree(segs[1..], e);
    if |segs| > 1 {
      TreeClean(segs[1..], e);
    }
    assert Clean(inner);
    var t := PathTree(segs, e);
    assert t == Wrap(segs[0], inner);
    assert |t.fields| == 1;
    assert CleanFields(t.fields);
  }

  /** Merging a clean object into `{}` copies it. */
  lemma MergeCopies(t: Value)
    requires t.Obj? && Clean(t)
    ensures MergeInto(Obj([]), t.fields) == Ok(t)
  {
    CleanMerge([], t.fields);
    assert [] + t.fields == t.fields;
  }

  // ---------------------------------------------------------------------
  // The value a key writes under a fresh leading segment

  /** The keys whose expansion merges into a copy: dotted keys and indexed
      keys with a trailing path. */
  predicate NeedsCopy(key: string)
  {
    var k := Classify(key);
    k.Dotted? || (k.IndexedKey? && k.dot)
  }

  /** `objectFromPath(key, e)[prop]` as the indexed form reads it: for
      `prop.rest` the tree of `rest`; for `prop[idx]` an array whose slot
      `idx` holds `e`, or, with a trailing path, the tree of that path. */
  function FreshValue(key: string, e: Value): (x: Value)
    requires !Classify(key).PlainKey?
    ensures Classify(key).IndexedKey? ==> x.Arr? && |x.elems| == Classify(key).index + 1
  {
    var k := Classify(key);
    if k.Dotted? then
      PathTree(Segments(key[|k.prop| + 1..]), e)
    else
      Arr(Holes(k.index) + [if k.dot && k.trailing.Some? then PathTree(Segments(k.trailing.value), e) else e])
  }

  /** The property accesses that lead from the object to where the key's
      value is stored: `[prop]`, then `StepsBelow`. */
  function PlacedSteps(key: string): seq<Step>
    requires !Classify(key).PlainKey?
  {
    [Key(Classify(key).prop)] + StepsBelow(key)
  }

  /** The accesses below `prop`: the segments after the first dot, or
      `[idx]` followed by the segments of the trailing path. */
  function StepsBelow(key: string): seq<Step>
    requires !Classify(key).PlainKey?
  {
    var k := Classify(key);
    if k.Dotted? then
      Steps(Segments(key[|k.prop| + 1..]))
    else
      [Index(k.index)] + (if k.dot && k.trailing.Some? then Steps(Segments(k.trailing.value)) else [])
  }

  /** For a dotted key the fresh value under `prop` is the whole of
      `objectFromPath(key, e)`, and the placed steps are the steps of the
      key's own segments. */
  lemma DottedFreshTree(key: string, e: Value)
    requires Classify(key).Dotted?
    ensures Obj([Field(Classify(key).prop, FreshValue(key, e))]) == PathTree(Segments(key), e)
    ensures PlacedSteps(key) == Steps(Segments(key))
  {
    var prop := Classify(key).prop;
    var rest := Segments(key[|prop| + 1..]);
    DottedSegments(key);
    DottedValue(key, e);
    DottedSteps(key);
    TreeCons(Plain(prop), rest, e);
    StepsCons(Plain(prop), rest);
  }

  lemma TreeCons(seg: Segment, rest: seq<Segment>, e: Value)
    requires |rest| >= 1
    ensures PathTree([seg] + rest, e) == Wrap(seg, PathTree(rest, e))
  {
    DropHead(seg, rest);
  }

  lemma StepsCons(seg: Segment, rest: seq<Segment>)
    ensures Steps([seg] + rest) == SegmentSteps(seg) + Steps(rest)
  {
    DropHead(seg, rest);
  }

  /** Walking the placed steps through any object holding the fresh value
      under `prop` reaches `e`. */
  lemma FreshValueReaches(fs: seq<Field>, key: string, e: Value)
    requires !Classify(key).PlainKey?
    requires Get(fs, Classify(key).prop) == FreshValue(key, e)
    ensures Walk(Obj(fs), PlacedSteps(key)) == e
  {
    DropHead(Key(Classify(key).prop), StepsBelow(key));
    assert Walk(Obj(fs), PlacedSteps(key)) == Walk(FreshValue(key, e), StepsBelow(key));
    if Classify(key).Dotted? {
      DottedFreshReaches(key, e);
    } else {
      IndexedFreshReaches(key, e);
    }
  }

  /** Below `prop`, the placed steps of a dotted key lead through the tree
      of the rest of the path to `e`. */
  lemma DottedFreshReaches(key: string, e: Value)
    requires Classify(key).Dotted?
    ensures Walk(FreshValue(key, e), StepsBelow(key)) == e
  {
    var segs := DottedShape(key, e);
    TreeReaches(FreshValue(key, e), StepsBelow(key), segs, e);
  }

  /** For a dotted key, the fresh value and the placed steps below `prop`
      are the tree and the steps of the segments after the first dot. */
  lemma DottedShape(key: string, e: Value) returns (segs: seq<Segment>)
    requires Classify(key).Dotted?
    ensures |segs| >= 1 && FreshValue(key, e) == PathTree(segs, e) && StepsBelow(key) == Steps(segs)
  {
    segs := Segments(key[|Classify(key).prop| + 1..]);
    DottedValue(key, e);
    DottedSteps(key);
  }

  lemma DottedValue(key: string, e: Value)
    requires Classify(key).Dotted?
    ensures FreshValue(key, e) == PathTree(Segments(key[|Classify(key).prop| + 1..]), e)
  {
  }

  lemma DottedSteps(key: string)
    requires Classify(key).Dotted?
    ensures StepsBelow(key) == Steps(Segments(key[|Classify(key).prop| + 1..]))
  {
  }

  /** `PathTreeReachesValue` for a tree and steps known only by equations. */
  lemma TreeReaches(t: Value, steps: seq<Step>, segs: seq<Segment>, e: Value)
    requires |segs| >= 1 && t == PathTree(segs, e) && steps == Steps(segs)
    ensures Walk(t, steps) == e
  {
    PathTreeReachesValue(segs, e);
  }

  /** Below `prop`, the placed steps of an indexed key lead through slot
      `idx` of the fresh array to `e`. */
  lemma IndexedFreshReaches(key: string, e: Value)
    requires Classify(key).IndexedKey?
    ensures Walk(FreshValue(key, e), StepsBelow(key)) == e
  {
    var k := Classify(key);
    var inner, tail := IndexedShape(key, e);
    SlotReaches(FreshValue(key, e), StepsBelow(key), k.index, inner, tail, e);
  }

  /** For an indexed key, the fresh value is an array of holes ending in
      `inner` at `idx`, and the placed steps below `prop` are `[idx]`
      followed by steps that lead from `inner` to `e`. */
  lemma IndexedShape(key: string, e: Value) returns (inner: Value, tail: seq<Step>)
    requires Classify(key).IndexedKey?
    ensures FreshValue(key, e) == Arr(Holes(Classify(key).index) + [inner])
    ensures StepsBelow(key) == [Index(Classify(key).index)] + tail
    ensures Walk(inner, tail) == e
    ensures var k := Classify(key);
      inner == if k.dot && k.trailing.Some? then PathTree(Segments(k.trailing.value), e) else e
  {
    var k := Classify(key);
    if k.dot && k.trailing.Some? {
      inner, tail := PathTree(Segments(k.trailing.value), e), Steps(Segments(k.trailing.value));
      PathTreeReachesValue(Segments(k.trailing.value), e);
    } else {
      inner, tail := e, [];
    }
    IndexedSteps(key, tail);
  }

  lemma IndexedSteps(key: string, tail: seq<Step>)
    requires Classify(key).IndexedKey?
    requires tail == if Classify(key).dot && Classify(key).trailing.Some?
                     then Steps(Segments(Classify(key).trailing.value)) else []
    ensures StepsBelow(key) == [Index(Classify(key).index)] + tail
  {
  }

  /** Slot `idx` of an array of holes ending at `idx` holds `inner`. */
  lemma SlotReaches(x: Value, steps: seq<Step>, idx: nat, inner: Value, tail: seq<Step>, e: Value)
    requires x == Arr(Holes(idx) + [inner]) && steps == [Index(idx)] + tail && Walk(inner, tail) == e
    ensures Walk(x, steps) == e
  {
    WalkAppend(x, [Index(idx)], tail);
    assert x.elems[idx] == inner;
    assert Walk(x, [Index(idx)]) == Walk(inner, []);
  }

  // ---------------------------------------------------------------------
  // One step of the loop

  /** A dotted key whose `prop` holds nothing truthy: `prop` receives the
      tree of the rest of the path. */
  lemma FreshDottedPlace(data: seq<Field>, key: string, prop: string, e: Value)
    requires Classify(key) == Dotted(prop) && !Truthy(Get(data, prop)) && Clean(e)
    ensures PlaceDotted(data, key, prop, e) == Ok(Put(data, prop, FreshValue(key, e)))
  {
    var t := PathTree(Segments(key[|prop| + 1..]), e);
    assert FreshValue(key, e) == t;
    TreeClean(Segments(key[|prop| + 1..]), e);
    MergeCopies(t);
    var x := DottedPlaced(data, key, prop, e);
  }

  /** An indexed key ending the path whose `prop` holds nothing truthy:
      `prop` receives a new array holding the value at `idx`. */
  lemma FreshLeafPlace(data: seq<Field>, key: string, prop: string, idx: nat,
                       trailing: Option<string>, e: Value)
    requires Classify(key) == IndexedKey(prop, idx, false, trailing)
    requires !Truthy(Get(data, prop))
    ensures PlaceLeaf(data, prop, idx, e) == Ok(Put(data, prop, FreshValue(key, e)))
  {
    var _, _ := IndexedShape(key, e);
    FreshSlot(idx, e);
  }

  /** Writing slot `idx` of a new array leaves holes before it. */
  lemma FreshSlot(idx: nat, v: Value)
    ensures SetElem(Arr([]), idx, v) == Ok(Arr(Holes(idx) + [v]))
  {
    assert [] + Holes(idx) + [v] == Holes(idx) + [v];
  }

  /** Overwriting the last slot of an array of holes. */
  lemma RefillSlot(idx: nat, v: Value, w: Value)
    ensures SetElem(Arr(Holes(idx) + [v]), idx, w) == Ok(Arr(Holes(idx) + [w]))
  {
    assert (Holes(idx) + [v])[idx := w] == Holes(idx) + [w];
  }

  /** An indexed key with a trailing path whose `prop` holds nothing
      truthy: `prop` receives a new array whose slot `idx` holds the tree
      of that path. */
  lemma FreshPathPlace(fs: seq<Field>, key: string, prop: string, idx: nat,
                       trailing: Option<string>, fuel: nat)
    requires Classify(key) == IndexedKey(prop, idx, true, trailing)
    requires fuel > 0 && ExpandIndexedPath(fs, key, prop, idx, trailing, fuel).Ok?
    requires !Truthy(Get(Remove(fs, key), prop))
    requires ExpandSpec(Get(fs, key), fuel - 1).Ok? ==> Clean(ExpandSpec(Get(fs, key), fuel - 1).value)
    ensures ExpandSpec(Get(fs, key), fuel - 1).Ok?
    ensures ExpandIndexedPath(fs, key, prop, idx, trailing, fuel)
            == Ok(Put(Remove(fs, key), prop, FreshValue(key, ExpandSpec(Get(fs, key), fuel - 1).value)))
  {
    PathOkParts(fs, key, prop, idx, trailing, fuel);
    var e := ExpandSpec(Get(fs, key), fuel - 1).value;
    var t := PathTree(Segments(trailing.value), e);
    TreeClean(Segments(trailing.value), e);
    MergeCopies(t);
    FreshPathValue(fs, key, prop, idx, trailing.value, fuel, e, t);
    var _, _ := IndexedShape(key, e);
  }

  /** The indexed step with a trailing path succeeds only when the value
      expands and the path after the `.` is not empty. */
  lemma PathOkParts(fs: seq<Field>, key: string, prop: string, idx: nat,
                    trailing: Option<string>, fuel: nat)
    requires fuel > 0 && ExpandIndexedPath(fs, key, prop, idx, trailing, fuel).Ok?
    ensures ExpandSpec(Get(fs, key), fuel - 1).Ok? && trailing.Some?
  {
  }

  /** With nothing truthy under `prop`, the indexed step with a trailing
      path stores a fresh array whose slot `idx` holds the merged tree. */
  lemma FreshPathValue(fs: seq<Field>, key: string, prop: string, idx: nat, trail: string,
                       fuel: nat, e: Value, t: Value)
    requires fuel > 0 && ExpandSpec(Get(fs, key), fuel - 1) == Ok(e)
    requires !Truthy(Get(Remove(fs, key), prop))
    requires t == PathTree(Segments(trail), e) && MergeInto(Obj([]), t.fields) == Ok(t)
    ensures ExpandIndexedPath(fs, key, prop, idx, Some(trail), fuel)
            == Ok(Put(Remove(fs, key), prop, Arr(Holes(idx) + [t])))
  {
    FreshSlot(idx, Obj([]));
    RefillSlot(idx, Obj([]), t);
  }

  /** A special key whose leading segment `prop` holds nothing truthy (in
      particular, one that is absent) is replaced by `prop` holding
      `FreshValue`, provided a copied value is clean; walking its path then
      reaches the expanded value. */
  lemma FreshKeyPlaced(cur: seq<Field>, key: string, fuel: nat)
    requires fuel > 0 && Has(cur, key) && !Classify(key).PlainKey?
    requires ExpandKey(cur, key, fuel).Ok?
    requires !Truthy(Get(cur, Classify(key).prop))
    requires NeedsCopy(key) && ExpandSpec(Get(cur, key), fuel - 1).Ok? ==>
               Clean(ExpandSpec(Get(cur, key), fuel - 1).value)
    ensures ExpandSpec(Get(cur, key), fuel - 1).Ok?
    ensures ExpandKey(cur, key, fuel).value
            == Put(Remove(cur, key), Classify(key).prop, FreshValue(key, ExpandSpec(Get(cur, key), fuel - 1).value))
    ensures Walk(Obj(ExpandKey(cur, key, fuel).value), PlacedSteps(key)) == ExpandSpec(Get(cur, key), fuel - 1).value
  {
    var k := Classify(key);
    var rest := Remove(cur, key);
    assert Get(rest, k.prop) == Get(cur, k.prop);
    var e := ExpandSpec(Get(cur, key), fuel - 1);
    if k.Dotted? {
      assert ExpandKey(cur, key, fuel) == ExpandDotted(cur, key, k.prop, fuel);
      assert e.Ok?;
      DottedUnfold(cur, key, k.prop, fuel);
      FreshDottedPlace(rest, key, k.prop, e.value);
    } else if k.dot {
      assert ExpandKey(cur, key, fuel) == ExpandIndexedPath(cur, key, k.prop, k.index, k.trailing, fuel);
      FreshPathPlace(cur, key, k.prop, k.index, k.trailing, fuel);
    } else {
      assert ExpandKey(cur, key, fuel) == ExpandIndexedLeaf(cur, key, k.prop, k.index, fuel);
      assert e.Ok?;
      LeafUnfold(cur, key, k.prop, k.index, fuel);
      FreshLeafPlace(rest, key, k.prop, k.index, k.trailing, e.value);
    }
    FreshValueReaches(ExpandKey(cur, key, fuel).value, key, e.value);
  }

  // ---------------------------------------------------------------------
  // The whole loop

  /** No other key of the snapshot reuses `j`'s leading segment, writes
      into it, or writes `j` itself. */
  ghost predicate Undisturbed(ks: seq<string>, j: string)
    requires !Classify(j).PlainKey?
  {
    forall k :: k in ks && k != j ==>
      k != Classify(j).prop && PropOf(k) != Some(Classify(j).prop) && PropOf(k) != Some(j)
  }

  /** After the keys `ks` are visited, an undisturbed special key `j` that
      was among them has its fresh value under its leading segment; one
      that was not is still present with its old value, and its leading
      segment is untouched. */
  lemma {:induction false} ReachesAfter(fs: seq<Field>, ks: seq<string>, fuel: nat, j: string)
    requires fuel > 0 && ExpandKeys(fs, ks, fuel).Ok?
    requires Distinct(ks) && !Classify(j).PlainKey? && Undisturbed(ks, j)
    requires Has(fs, j) && !Truthy(Get(fs, Classify(j).prop))
    requires NeedsCopy(j) && ExpandSpec(Get(fs, j), fuel - 1).Ok? ==> Clean(ExpandSpec(Get(fs, j), fuel - 1).value)
    ensures var out := ExpandKeys(fs, ks, fuel).value;
      j in ks ==>
        && ExpandSpec(Get(fs, j), fuel - 1).Ok?
        && Get(out, Classify(j).prop) == FreshValue(j, ExpandSpec(Get(fs, j), fuel - 1).value)
    ensures var out := ExpandKeys(fs, ks, fuel).value;
      j !in ks ==>
        Has(out, j) && Get(out, j) == Get(fs, j) && Get(out, Classify(j).prop) == Get(fs, Classify(j).prop)
    decreases |ks|
  {
    if ks != [] {
      var prop := Classify(j).prop;
      var ks' := ks[..|ks| - 1];
      var key := ks[|ks| - 1];
      ButLast(ks);
      ExpandKeysSnoc(fs, ks, fuel);
      var cur := ExpandKeys(fs, ks', fuel).value;
      var nxt := ExpandKeys(fs, ks, fuel).value;
      assert Undisturbed(ks', j) by {
        forall k | k in ks' && k != j
          ensures k != prop && PropOf(k) != Some(prop) && PropOf(k) != Some(j)
        {
          assert k in ks;
        }
      }
      ReachesAfter(fs, ks', fuel, j);
      ExpandKeyValues(cur, key, fuel);
      ExpandKeyKeys(cur, key, fuel);
      if key == j {
        assert j !in ks';
        FreshKeyPlaced(cur, j, fuel);
      } else {
        assert key in ks;
      }
    }
  }

  /** `expandObjectPaths` on an object with unique keys: for a special key
      `j` whose leading segment is not a key and is not disturbed by
      another key, walking `j`'s path through the result reaches `j`'s
      expanded value, and the leading segment holds exactly `FreshValue`. */
  lemma ExpandReaches(v: Value, fuel: nat, j: string)
    requires v.Obj? && UniqueKeys(v.fields) && ExpandSpec(v, fuel).Ok?
    requires j in Keys(v.fields) && !Classify(j).PlainKey? && Undisturbed(Keys(v.fields), j)
    requires NeedsCopy(j) && fuel > 0 && ExpandSpec(Get(v.fields, j), fuel - 1).Ok? ==>
               Clean(ExpandSpec(Get(v.fields, j), fuel - 1).value)
    ensures fuel > 0 && ExpandSpec(Get(v.fields, j), fuel - 1).Ok?
    ensures var e := ExpandSpec(Get(v.fields, j), fuel - 1).value;
      && Get(ExpandSpec(v, fuel).value.fields, Classify(j).prop) == FreshValue(j, e)
      && Walk(ExpandSpec(v, fuel).value, PlacedSteps(j)) == e
  {
    var fs, ks := v.fields, Keys(v.fields);
    var prop := Classify(j).prop;
    assert prop !in ks;
    assert ExpandSpec(v, fuel).value.fields == ExpandKeys(fs, ks, fuel).value;
    ReachesAfter(fs, ks, fuel, j);
    var e := ExpandSpec(Get(fs, j), fuel - 1).value;
    FreshValueReaches(ExpandSpec(v, fuel).value.fields, j, e);
  }

  /** An object holding one dotted key expands to `objectFromPath(key, e)`,
      where `e` is the key's value, itself expanded. */
  lemma LoneDottedKey(key: string, v: Value, fuel: nat)
    requires Classify(key).Dotted? && fuel > 0
    requires ExpandSpec(v, fuel - 1).Ok? && Clean(ExpandSpec(v, fuel - 1).value)
    ensures ExpandSpec(Obj([Field(key, v)]), fuel)
         == Ok(PathTree(Segments(key), ExpandSpec(v, fuel - 1).value))
  {
    var prop := Classify(key).prop;
    var e := ExpandSpec(v, fuel - 1).value;
    LoneDottedStep(key, v, fuel);
    FreshDottedPlace([], key, prop, e);
    assert Put([], prop, FreshValue(key, e)) == [Field(prop, FreshValue(key, e))];
    LoneKey(key, v, fuel);
    DottedFreshTree(key, e);
  }

  /** With one key, the loop of `expandObjectPaths` runs once. */
  lemma LoneKey(key: string, v: Value, fuel: nat)
    requires fuel > 0 && ExpandKey([Field(key, v)], key, fuel).Ok?
    ensures ExpandSpec(Obj([Field(key, v)]), fuel) == Ok(Obj(ExpandKey([Field(key, v)], key, fuel).value))
  {
    var fs := [Field(key, v)];
    assert Keys(fs) == [key];
    assert [key][..0] == [];
    assert ExpandKeys(fs, [], fuel) == Ok(fs);
    assert ExpandKeys(fs, [key], fuel) == ExpandKey(fs, key, fuel);
  }

  lemma LoneDottedStep(key: string, v: Value, fuel: nat)
    requires Classify(key).Dotted? && fuel > 0 && ExpandSpec(v, fuel - 1).Ok?
    ensures ExpandKey([Field(key, v)], key, fuel)
         == PlaceDotted([], key, Classify(key).prop, ExpandSpec(v, fuel - 1).value)
  {
    var fs := [Field(key, v)];
    assert Has(fs, key) && Get(fs, key) == v && Remove(fs, key) == [];
  }
}
