/**
 * What `expandObjectPaths` promises about the keys and values of the
 * object it rewrites, proved about the specification `ExpandSpec`.
 */
module PathExpandProps {
  import opened JsValue
  import opened PathExpand
  import opened SeqFacts

  /** A special (dotted or indexed) key is deleted and its leading segment
      `prop` is (re)assigned; `DottedKeyPlaced` and `IndexedKeyPlaced` say
      which value `x` is written. */
  lemma SpecialKeyPlaced(cur: seq<Field>, key: string, fuel: nat) returns (x: Value)
    requires fuel > 0 && Has(cur, key) && !Classify(key).PlainKey?
    requires ExpandKey(cur, key, fuel).Ok?
    ensures ExpandKey(cur, key, fuel).value == Put(Remove(cur, key), Classify(key).prop, x)
  {
    if Classify(key).Dotted? {
      x := DottedKeyPlaced(cur, key, Classify(key).prop, fuel);
    } else {
      x := IndexedKeyPlaced(cur, key, fuel);
    }
  }

  /** A dotted key `prop.rest` is deleted and `prop` is assigned
      `data[prop] || {}` merged with the tree of `rest` around the key's
      expanded value. */
  lemma DottedKeyPlaced(cur: seq<Field>, key: string, prop: string, fuel: nat) returns (x: Value)
    requires fuel > 0 && Has(cur, key) && Classify(key) == Dotted(prop)
    requires ExpandKey(cur, key, fuel).Ok?
    ensures |prop| < |key|
    ensures ExpandKey(cur, key, fuel).value == Put(Remove(cur, key), prop, x)
    ensures ExpandSpec(Get(cur, key), fuel - 1).Ok?
    ensures var c := Get(Remove(cur, key), prop);
      Ok(x) == MergeInto(if Truthy(c) then c else Obj([]),
                         PathTree(Segments(key[|prop| + 1..]), ExpandSpec(Get(cur, key), fuel - 1).value).fields)
  {
    var e := ExpandSpec(Get(cur, key), fuel - 1);
    var rest := Remove(cur, key);
    assert ExpandKey(cur, key, fuel) == ExpandDotted(cur, key, prop, fuel);
    DottedUnfold(cur, key, prop, fuel);
    x := DottedPlaced(rest, key, prop, e.value);
  }

  /** An indexed key `prop[idx]...` is deleted and `prop` is assigned
      `data[prop] || []` with only slot `idx` changed: it receives the
      expanded value, or, with a trailing path, `data[prop][idx] || {}`
      merged with the tree of that path around it. */
  lemma IndexedKeyPlaced(cur: seq<Field>, key: string, fuel: nat) returns (x: Value)
    requires fuel > 0 && Has(cur, key) && Classify(key).IndexedKey?
    requires ExpandKey(cur, key, fuel).Ok?
    ensures ExpandKey(cur, key, fuel).value == Put(Remove(cur, key), Classify(key).prop, x)
    ensures ExpandSpec(Get(cur, key), fuel - 1).Ok?
    ensures var k, e := Classify(key), ExpandSpec(Get(cur, key), fuel - 1).value;
      var c := Get(Remove(cur, key), k.prop);
      var container := if Truthy(c) then c else Arr([]);
      && (x.Arr? <==> container.Arr?)
      && (forall i :: i != k.index ==> ElemAt(x, i) == ElemAt(container, i))
      && (!k.dot ==> ElemAt(x, k.index) == e)
      && (k.dot ==>
            var slot := ElemAt(container, k.index);
            && k.trailing.Some?
            && Ok(ElemAt(x, k.index)) == MergeInto(if Truthy(slot) then slot else Obj([]),
                                                   PathTree(Segments(k.trailing.value), e).fields))
  {
    var k := Classify(key);
    var e := ExpandSpec(Get(cur, key), fuel - 1);
    if k.dot {
      assert ExpandKey(cur, key, fuel) == ExpandIndexedPath(cur, key, k.prop, k.index, k.trailing, fuel);
      x := IndexedPathPlaced(cur, key, k.prop, k.index, k.trailing, fuel);
    } else {
      assert ExpandKey(cur, key, fuel) == ExpandIndexedLeaf(cur, key, k.prop, k.index, fuel);
      LeafUnfold(cur, key, k.prop, k.index, fuel);
      x := LeafPlaced(Remove(cur, key), k.prop, k.index, e.value);
    }
  }

  /** The value `PlaceDotted` writes under `prop`. */
  lemma DottedPlaced(data: seq<Field>, key: string, prop: string, e: Value) returns (x: Value)
    requires Classify(key) == Dotted(prop) && PlaceDotted(data, key, prop, e).Ok?
    ensures |prop| < |key|
    ensures PlaceDotted(data, key, prop, e).value == Put(data, prop, x)
    ensures var c := Get(data, prop);
      Ok(x) == MergeInto(if Truthy(c) then c else Obj([]), PathTree(Segments(key[|prop| + 1..]), e).fields)
  {
    var c := Get(data, prop);
    var base := if Truthy(c) then c else Obj([]);
    var tree := PathTree(Segments(key), e);
    var sub := Get(tree.fields, prop);
    DottedSegments(key);
    assert Segments(key)[1..] == Segments(key[|prop| + 1..]);
    assert sub == PathTree(Segments(key[|prop| + 1..]), e);
    x := MergeInto(base, sub.fields).value;
  }

  /** The value `PlaceLeaf` writes under `prop`. */
  lemma LeafPlaced(data: seq<Field>, prop: string, idx: nat, e: Value) returns (x: Value)
    requires PlaceLeaf(data, prop, idx, e).Ok?
    ensures PlaceLeaf(data, prop, idx, e).value == Put(data, prop, x)
    ensures var c := Get(data, prop);
      var container := if Truthy(c) then c else Arr([]);
      && (x.Arr? <==> container.Arr?)
      && (forall i :: i != idx ==> ElemAt(x, i) == ElemAt(container, i))
      && ElemAt(x, idx) == e
  {
    var c := Get(data, prop);
    var container := if Truthy(c) then c else Arr([]);
    x := SetElem(container, idx, e).value;
    SetElemAt(container, idx, e);
  }

  /** The value the step on `prop[idx].trailing` writes under `prop`. */
  lemma IndexedPathPlaced(fs: seq<Field>, key: string, prop: string, idx: nat,
                          trailing: Option<string>, fuel: nat) returns (x: Value)
    requires fuel > 0 && ExpandIndexedPath(fs, key, prop, idx, trailing, fuel).Ok?
    ensures ExpandIndexedPath(fs, key, prop, idx, trailing, fuel).value == Put(Remove(fs, key), prop, x)
    ensures ExpandSpec(Get(fs, key), fuel - 1).Ok? && trailing.Some?
    ensures var c := Get(Remove(fs, key), prop);
      var container := if Truthy(c) then c else Arr([]);
      var slot := ElemAt(container, idx);
      && (x.Arr? <==> container.Arr?)
      && (forall i :: i != idx ==> ElemAt(x, i) == ElemAt(container, i))
      && Ok(ElemAt(x, idx)) == MergeInto(if Truthy(slot) then slot else Obj([]),
           PathTree(Segments(trailing.value), ExpandSpec(Get(fs, key), fuel - 1).value).fields)
  {
    var c := Get(Remove(fs, key), prop);
    var container := if Truthy(c) then c else Arr([]);
    var slot := ElemAt(container, idx);
    var dest := if Truthy(slot) then slot else Obj([]);
    var c1 := SetElem(container, idx, dest).value;
    var e := ExpandSpec(Get(fs, key), fuel - 1).value;
    var tree := PathTree(Segments(trailing.value), e);
    var m := MergeInto(dest, tree.fields).value;
    x := SetElem(c1, idx, m).value;
    SetElemAt(container, idx, dest);
    SetElemAt(c1, idx, m);
  }

  /** A leading segment never contains `.` and is shorter than its key. */
  lemma PropShape(key: string)
    requires PropOf(key).Some?
    ensures '.' !in PropOf(key).value && |PropOf(key).value| < |key|
  {
  }

  /** One step of the loop: only the visited key can disappear (and only
      when it is special), and only its leading segment can appear. */
  lemma ExpandKeyKeys(cur: seq<Field>, key: string, fuel: nat)
    requires fuel > 0 && ExpandKey(cur, key, fuel).Ok?
    ensures var nxt := ExpandKey(cur, key, fuel).value;
      && (forall k :: k in Keys(cur) && (k != key || Classify(key).PlainKey?) ==> k in Keys(nxt))
      && (forall k :: k in Keys(nxt) ==> k in Keys(cur) || PropOf(key) == Some(k))
      && (!Classify(key).PlainKey? ==> key !in Keys(nxt))
      && (Has(cur, key) && PropOf(key).Some? ==> PropOf(key).value in Keys(nxt))
  {
    if Has(cur, key) && !Classify(key).PlainKey? {
      var x := SpecialKeyPlaced(cur, key, fuel);
      PutKeys(Remove(cur, key), Classify(key).prop, x);
    } else if Has(cur, key) {
      PutKeys(cur, key, ExpandSpec(Get(cur, key), fuel - 1).value);
    }
  }

  /** One step of the loop leaves the values of other keys alone, except
      the leading segment it assigns; a plain key gets its expanded value. */
  lemma ExpandKeyValues(cur: seq<Field>, key: string, fuel: nat)
    requires fuel > 0 && ExpandKey(cur, key, fuel).Ok?
    ensures var nxt := ExpandKey(cur, key, fuel).value;
      && (forall k :: k != key && PropOf(key) != Some(k) ==> Get(nxt, k) == Get(cur, k))
      && (Classify(key).PlainKey? ==>
            ExpandSpec(Get(cur, key), fuel - 1).Ok? &&
            Get(nxt, key) == ExpandSpec(Get(cur, key), fuel - 1).value)
  {
    if Has(cur, key) && !Classify(key).PlainKey? {
      var x := SpecialKeyPlaced(cur, key, fuel);
    }
  }

  /** The leading segment of some key among `ks` is `k`. */
  predicate IsPropOfSome(ks: seq<string>, k: string)
  {
    exists j :: j in ks && PropOf(j) == Some(k)
  }

  /** The loop state after one more key of the snapshot. */
  lemma ExpandKeysSnoc(fs: seq<Field>, ks: seq<string>, fuel: nat)
    requires fuel > 0 && ks != [] && ExpandKeys(fs, ks, fuel).Ok?
    ensures ExpandKeys(fs, ks[..|ks| - 1], fuel).Ok?
    ensures ExpandKey(ExpandKeys(fs, ks[..|ks| - 1], fuel).value, ks[|ks| - 1], fuel)
            == ExpandKeys(fs, ks, fuel)
  {
  }

  lemma {:induction false} PlainKeyKept(fs: seq<Field>, ks: seq<string>, fuel: nat, k: string)
    requires fuel > 0 && ExpandKeys(fs, ks, fuel).Ok?
    requires k in Keys(fs) && Classify(k).PlainKey?
    ensures k in Keys(ExpandKeys(fs, ks, fuel).value)
  {
    if ks != [] {
      ExpandKeysSnoc(fs, ks, fuel);
      PlainKeyKept(fs, ks[..|ks| - 1], fuel, k);
      ExpandKeyKeys(ExpandKeys(fs, ks[..|ks| - 1], fuel).value, ks[|ks| - 1], fuel);
    }
  }

  lemma {:induction false} KeyOrigin(fs: seq<Field>, ks: seq<string>, fuel: nat, k: string)
    requires fuel > 0 && ExpandKeys(fs, ks, fuel).Ok?
    requires k in Keys(ExpandKeys(fs, ks, fuel).value)
    ensures k in Keys(fs) || IsPropOfSome(ks, k)
  {
    if ks != [] {
      var ks' := ks[..|ks| - 1];
      var key := ks[|ks| - 1];
      ExpandKeysSnoc(fs, ks, fuel);
      var cur := ExpandKeys(fs, ks', fuel).value;
      ExpandKeyKeys(cur, key, fuel);
      if k !in Keys(cur) {
        assert key in ks && PropOf(key) == Some(k);
      } else {
        KeyOrigin(fs, ks', fuel, k);
        if k !in Keys(fs) {
          var j :| j in ks' && PropOf(j) == Some(k);
          assert j in ks;
        }
      }
    }
  }

  lemma {:induction false} MissingKeyVisited(fs: seq<Field>, ks: seq<string>, fuel: nat, k: string)
    requires fuel > 0 && ExpandKeys(fs, ks, fuel).Ok?
    requires k in Keys(fs) && k !in Keys(ExpandKeys(fs, ks, fuel).value)
    ensures k in ks
  {
    if ks != [] {
      var ks' := ks[..|ks| - 1];
      var key := ks[|ks| - 1];
      ExpandKeysSnoc(fs, ks, fuel);
      var cur := ExpandKeys(fs, ks', fuel).value;
      ExpandKeyKeys(cur, key, fuel);
      if k != key {
        MissingKeyVisited(fs, ks', fuel, k);
      }
    }
  }

  lemma {:induction false} SpecialKeyGone(fs: seq<Field>, ks: seq<string>, fuel: nat, j: string)
    requires fuel > 0 && ExpandKeys(fs, ks, fuel).Ok?
    requires j in ks && !Classify(j).PlainKey? && !IsPropOfSome(ks, j)
    ensures j !in Keys(ExpandKeys(fs, ks, fuel).value)
  {
    var ks' := ks[..|ks| - 1];
    var key := ks[|ks| - 1];
    ExpandKeysSnoc(fs, ks, fuel);
    var cur := ExpandKeys(fs, ks', fuel).value;
    ExpandKeyKeys(cur, key, fuel);
    if j != key {
      ButLast(ks);
      assert j in ks';
      SpecialKeyGone(fs, ks', fuel, j);
      assert PropOf(key) != Some(j);
    }
  }

  lemma {:induction false} PlainPropPresent(fs: seq<Field>, ks: seq<string>, fuel: nat, j: string)
    requires fuel > 0 && ExpandKeys(fs, ks, fuel).Ok?
    requires j in ks && j in Keys(fs)
    requires PropOf(j).Some? && Classify(PropOf(j).value).PlainKey?
    ensures PropOf(j).value in Keys(ExpandKeys(fs, ks, fuel).value)
  {
    var ks' := ks[..|ks| - 1];
    var key := ks[|ks| - 1];
    ExpandKeysSnoc(fs, ks, fuel);
    var cur := ExpandKeys(fs, ks', fuel).value;
    ExpandKeyKeys(cur, key, fuel);
    ButLast(ks);
    if j == key && Has(cur, key) {
    } else {
      if j == key {
        MissingKeyVisited(fs, ks', fuel, j);
      }
      assert j in ks';
      PlainPropPresent(fs, ks', fuel, j);
      if PropOf(key).Some? {
        PropShape(key);
      }
    }
  }


  /** No key occurs twice in the snapshot. */
  ghost predicate Distinct(ks: seq<string>)
  {
    forall i, j :: 0 <= i < j < |ks| ==> ks[i] != ks[j]
  }

  lemma {:induction false} PlainValueExpanded(fs: seq<Field>, ks: seq<string>, fuel: nat, k: string)
    requires fuel > 0 && ExpandKeys(fs, ks, fuel).Ok?
    requires Distinct(ks) && Classify(k).PlainKey? && !IsPropOfSome(ks, k)
    ensures k in ks ==> ExpandSpec(Get(fs, k), fuel - 1).Ok? &&
                        Get(ExpandKeys(fs, ks, fuel).value, k) == ExpandSpec(Get(fs, k), fuel - 1).value
    ensures k !in ks ==> Get(ExpandKeys(fs, ks, fuel).value, k) == Get(fs, k)
  {
    if ks != [] {
      var ks' := ks[..|ks| - 1];
      var key := ks[|ks| - 1];
      ButLast(ks);
      ExpandKeysSnoc(fs, ks, fuel);
      var cur := ExpandKeys(fs, ks', fuel).value;
      ExpandKeyValues(cur, key, fuel);
      assert !IsPropOfSome(ks', k) by {
        forall i | i in ks'
          ensures PropOf(i) != Some(k)
        {
          assert i in ks;
        }
      }
      PlainValueExpanded(fs, ks', fuel, k);
      if key == k {
        assert k !in ks';
      } else {
        assert PropOf(key) != Some(k);
      }
    }
  }

  /** No dotted key is the leading segment of any key. */
  lemma DottedNeverProp(ks: seq<string>, j: string)
    requires Classify(j).Dotted?
    ensures !IsPropOfSome(ks, j)
  {
    if IsPropOfSome(ks, j) {
      var i :| i in ks && PropOf(i) == Some(j);
      PropShape(i);
    }
  }

  /** What `expandObjectPaths` does to the keys of a plain object: keys
      matching neither pattern stay, a special key is replaced by its
      leading segment (a dotted key always disappears; any special key
      disappears unless another key's leading segment restores it), and
      nothing else appears. */
  lemma ExpandObjectPathsKeys(v: Value, fuel: nat)
    requires v.Obj? && ExpandSpec(v, fuel).Ok?
    ensures var fs, out := v.fields, ExpandSpec(v, fuel).value.fields;
      && (forall k :: k in Keys(fs) && Classify(k).PlainKey? ==> k in Keys(out))
      && (forall k :: k in Keys(out) ==>
            (k in Keys(fs) && Classify(k).PlainKey?) || IsPropOfSome(Keys(fs), k))
      && (forall j :: j in Keys(fs) && Classify(j).Dotted? ==> j !in Keys(out))
      && (forall j :: j in Keys(fs) && !Classify(j).PlainKey? && !IsPropOfSome(Keys(fs), j) ==>
            j !in Keys(out))
      && (forall j :: j in Keys(fs) && PropOf(j).Some? && Classify(PropOf(j).value).PlainKey? ==>
            PropOf(j).value in Keys(out))
  {
    var fs, ks := v.fields, Keys(v.fields);
    var out := ExpandKeys(fs, ks, fuel).value;
    assert ExpandSpec(v, fuel).value.fields == out;
    forall k | k in Keys(fs) && Classify(k).PlainKey?
      ensures k in Keys(out)
    {
      PlainKeyKept(fs, ks, fuel, k);
    }
    forall k | k in Keys(out)
      ensures (k in Keys(fs) && Classify(k).PlainKey?) || IsPropOfSome(ks, k)
    {
      KeyOrigin(fs, ks, fuel, k);
      if k in Keys(fs) && !Classify(k).PlainKey? && !IsPropOfSome(ks, k) {
        SpecialKeyGone(fs, ks, fuel, k);
      }
    }
    forall j | j in Keys(fs) && !Classify(j).PlainKey? && !IsPropOfSome(ks, j)
      ensures j !in Keys(out)
    {
      SpecialKeyGone(fs, ks, fuel, j);
    }
    forall j | j in Keys(fs) && Classify(j).Dotted?
      ensures j !in Keys(out)
    {
      DottedNeverProp(ks, j);
      SpecialKeyGone(fs, ks, fuel, j);
    }
    forall j | j in Keys(fs) && PropOf(j).Some? && Classify(PropOf(j).value).PlainKey?
      ensures PropOf(j).value in Keys(out)
    {
      PlainPropPresent(fs, ks, fuel, j);
    }
  }

  /** A key matching neither pattern, that no other key's leading segment
      lands on, ends up holding its own value, recursively expanded. */
  lemma ExpandObjectPathsPlainValue(v: Value, fuel: nat, k: string)
    requires v.Obj? && UniqueKeys(v.fields) && ExpandSpec(v, fuel).Ok?
    requires k in Keys(v.fields) && Classify(k).PlainKey? && !IsPropOfSome(Keys(v.fields), k)
    ensures ExpandSpec(Get(v.fields, k), fuel - 1).Ok?
    ensures Get(ExpandSpec(v, fuel).value.fields, k) == ExpandSpec(Get(v.fields, k), fuel - 1).value
  {
    var fs, ks := v.fields, Keys(v.fields);
    assert ExpandSpec(v, fuel).value.fields == ExpandKeys(fs, ks, fuel).value;
    PlainValueExpanded(fs, ks, fuel, k);
  }

  /** No key of any nested plain object matches either pattern. */
  predicate Expanded(v: Value)
  {
    v.Obj? ==> forall i :: 0 <= i < |v.fields| ==>
                 Classify(v.fields[i].key).PlainKey? && Expanded(v.fields[i].val)
  }

  /** `r` is `x` unchanged, or the error raised at the nesting bound of the model. */
  ghost predicate SameOrTooDeep<T>(r: Result<T>, x: T)
  {
    r == Ok(x) || r == Throw(TooDeep)
  }

  /** How deeply plain objects nest in `v`; arrays and primitives are not
      entered by `expandObjectPaths`. */
  function Depth(v: Value): nat
    decreases v, 1
  {
    if v.Obj? then 1 + FieldsDepth(v.fields) else 0
  }

  function FieldsDepth(fs: seq<Field>): nat
    decreases fs, 0
  {
    if fs == [] then 0
    else
      var d := Depth(fs[0].val);
      var rest := FieldsDepth(fs[1..]);
      if d < rest then rest else d
  }

  /** The value of a present key is nested no deeper than its object's fields. */
  lemma {:induction false} FieldsDepthBound(fs: seq<Field>, k: string)
    requires Has(fs, k)
    ensures Depth(Get(fs, k)) <= FieldsDepth(fs)
  {
    if fs[0].key != k {
      assert Keys(fs) == [fs[0].key] + Keys(fs[1..]);
      FieldsDepthBound(fs[1..], k);
    }
  }

  /** Data without dotted or indexed keys passes through unchanged: exactly
      so once the bound of the model exceeds its nesting depth, and below
      that bound the model can only report `TooDeep`. */
  lemma {:induction false} ExpandedIsFixpoint(v: Value, fuel: nat)
    requires Expanded(v)
    ensures SameOrTooDeep(ExpandSpec(v, fuel), v)
    ensures fuel > Depth(v) ==> ExpandSpec(v, fuel) == Ok(v)
    decreases v, 1
  {
    if v.Obj? && fuel > 0 {
      ExpandedKeysFixpoint(v, Keys(v.fields), fuel);
    }
  }

  lemma {:induction false} ExpandedKeysFixpoint(v: Value, ks: seq<string>, fuel: nat)
    requires v.Obj? && Expanded(v) && fuel > 0
    requires forall k :: k in ks ==> k in Keys(v.fields)
    ensures SameOrTooDeep(ExpandKeys(v.fields, ks, fuel), v.fields)
    ensures fuel > Depth(v) ==> ExpandKeys(v.fields, ks, fuel) == Ok(v.fields)
    decreases v, 0, |ks|
  {
    if ks != [] {
      var ks' := ks[..|ks| - 1];
      var key := ks[|ks| - 1];
      assert forall k :: k in ks' ==> k in ks;
      ExpandedKeysFixpoint(v, ks', fuel);
      if ExpandKeys(v.fields, ks', fuel).Ok? {
        ExpandKeysStep(v.fields, ks, fuel);
        ExpandedField(v, key);
        ExpandedKeyFixpoint(v.fields, key, fuel);
      }
    }
  }

  /** The step on one key of data without path-shaped keys changes nothing. */
  lemma {:induction false} ExpandedKeyFixpoint(fs: seq<Field>, key: string, fuel: nat)
    requires fuel > 0 && Has(fs, key) && Classify(key).PlainKey? && Expanded(Get(fs, key))
    ensures SameOrTooDeep(KeyStep(fs, key, fuel), fs)
    ensures fuel > Depth(Get(fs, key)) + 1 ==> KeyStep(fs, key, fuel) == Ok(fs)
    decreases Get(fs, key), 2
  {
    ExpandedIsFixpoint(Get(fs, key), fuel - 1);
    PlainStepFixpoint(fs, key, fuel);
  }

  /** A plain key whose value expands to itself is written back unchanged;
      one nested too deep makes the step throw. */
  lemma PlainStepFixpoint(fs: seq<Field>, key: string, fuel: nat)
    requires fuel > 0
    requires Has(fs, key)
    requires Classify(key).PlainKey?
    requires SameOrTooDeep(ExpandSpec(Get(fs, key), fuel - 1), Get(fs, key))
    ensures SameOrTooDeep(KeyStep(fs, key, fuel), fs)
    ensures ExpandSpec(Get(fs, key), fuel - 1).Ok? ==> KeyStep(fs, key, fuel) == Ok(fs)
  {
    if ExpandSpec(Get(fs, key), fuel - 1).Ok? {
      PutSame(fs, key);
    }
  }

  /** `ExpandKey` under a name that unfolds it only once. */
  function KeyStep(fs: seq<Field>, key: string, fuel: nat): Result<seq<Field>>
    requires fuel > 0
  {
    ExpandKey(fs, key, fuel)
  }

  /** The loop state after one more key, when the earlier keys did not throw. */
  lemma ExpandKeysStep(fs: seq<Field>, ks: seq<string>, fuel: nat)
    requires fuel > 0 && ks != [] && ExpandKeys(fs, ks[..|ks| - 1], fuel).Ok?
    ensures ExpandKeys(fs, ks, fuel)
            == KeyStep(ExpandKeys(fs, ks[..|ks| - 1], fuel).value, ks[|ks| - 1], fuel)
  {
  }

  lemma ExpandedField(v: Value, k: string)
    requires v.Obj? && Expanded(v) && Has(v.fields, k)
    ensures Classify(k).PlainKey? && Expanded(Get(v.fields, k)) && Get(v.fields, k) < v
    ensures Depth(Get(v.fields, k)) < Depth(v)
  {
    var fs := v.fields;
    var j := GetFound(fs, k);
    assert fs[j] in fs;
    FieldsDepthBound(fs, k);
  }
}
