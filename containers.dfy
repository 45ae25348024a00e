/**
 * Helpers that write into containers owned by the caller: `noneOrAll`,
 * `mergeArray` and `fillArray`.
 */
module Containers {
  import opened JsValue

  /** A plain object updated in place. */
  class JsObject {
    var fields: seq<Field>

    constructor (fields: seq<Field>)
      ensures this.fields == fields
    {
      this.fields := fields;
    }
  }

  /** Neither `undefined` nor `null`. */
  predicate Present(v: Value)
  {
    v != Undefined && v != Null
  }

  predicate AnyPresent(fs: seq<Field>, attrs: seq<string>)
  {
    exists i :: 0 <= i < |attrs| && Present(Get(fs, attrs[i]))
  }

  predicate AllPresent(fs: seq<Field>, attrs: seq<string>)
  {
    forall i :: 0 <= i < |attrs| ==> Present(Get(fs, attrs[i]))
  }

  /** `containerIn[a] = containerOut[a]` for each attribute in turn. */
  function CopyAttrs(fs: seq<Field>, from: seq<Field>, attrs: seq<string>): (r: seq<Field>)
  {
    if attrs == [] then fs
    else
      var n := |attrs| - 1;
      Put(CopyAttrs(fs, from, attrs[..n]), attrs[n], Get(from, attrs[n]))
  }

  /** The effect of `noneOrAll` on the input container's properties: when
      some but not all of the attributes are set, all of them are copied
      from the output container. */
  function NoneOrAllSpec(fs: seq<Field>, from: seq<Field>, attrs: seq<string>): seq<Field>
  {
    if AnyPresent(fs, attrs) && !AllPresent(fs, attrs) then CopyAttrs(fs, from, attrs) else fs
  }

  /** After the copy each attribute holds the output container's value, and
      every other property is as before. */
  lemma {:induction false} CopyAttrsValues(fs: seq<Field>, from: seq<Field>, attrs: seq<string>)
    ensures forall i :: 0 <= i < |attrs| ==> Get(CopyAttrs(fs, from, attrs), attrs[i]) == Get(from, attrs[i])
    ensures forall k :: k !in attrs ==> Get(CopyAttrs(fs, from, attrs), k) == Get(fs, k)
  {
    if attrs != [] {
      var n := |attrs| - 1;
      CopyAttrsValues(fs, from, attrs[..n]);
      forall i | 0 <= i < |attrs|
        ensures Get(CopyAttrs(fs, from, attrs), attrs[i]) == Get(from, attrs[i])
      {
        if attrs[i] != attrs[n] {
          assert attrs[i] == attrs[..n][i];
        }
      }
      forall k | k !in attrs
        ensures Get(CopyAttrs(fs, from, attrs), k) == Get(fs, k)
      {
        assert k !in attrs[..n];
      }
    }
  }

  /** The attributes come all together or not at all: when the output
      container sets every one of them, after `noneOrAll` the input
      container sets none of them or all of them. */
  lemma NoneOrAllHolds(fs: seq<Field>, from: seq<Field>, attrs: seq<string>)
    requires AllPresent(from, attrs)
    ensures var r := NoneOrAllSpec(fs, from, attrs);
            !AnyPresent(r, attrs) || AllPresent(r, attrs)
  {
    CopyAttrsValues(fs, from, attrs);
  }

  lemma PresentStep(fs: seq<Field>, attrs: seq<string>, i: nat)
    requires i < |attrs|
    ensures AnyPresent(fs, attrs[..i + 1]) == (AnyPresent(fs, attrs[..i]) || Present(Get(fs, attrs[i])))
    ensures AllPresent(fs, attrs[..i + 1]) == (AllPresent(fs, attrs[..i]) && Present(Get(fs, attrs[i])))
  {
    assert attrs[..i + 1] == attrs[..i] + [attrs[i]];
    if AnyPresent(fs, attrs[..i + 1]) && !Present(Get(fs, attrs[i])) {
      var j :| 0 <= j < i + 1 && Present(Get(fs, attrs[..i + 1][j]));
      assert attrs[..i][j] == attrs[..i + 1][j];
    }
    if AnyPresent(fs, attrs[..i]) {
      var j :| 0 <= j < i && Present(Get(fs, attrs[..i][j]));
      assert attrs[..i + 1][j] == attrs[..i][j];
    }
    if AllPresent(fs, attrs[..i]) && Present(Get(fs, attrs[i])) {
      var longer := attrs[..i + 1];
      forall j | 0 <= j < i + 1
        ensures Present(Get(fs, longer[j]))
      {
        if j < i {
          assert longer[j] == attrs[..i][j];
        }
      }
    }
    if AllPresent(fs, attrs[..i + 1]) {
      forall j | 0 <= j < i
        ensures Present(Get(fs, attrs[..i][j]))
      {
        assert attrs[..i + 1][j] == attrs[..i][j];
      }
      assert attrs[..i + 1][i] == attrs[i];
    }
  }

  /** The first pass of `noneOrAll`: whether some, and whether all, of the
      attributes are set. */
  method Survey(fs: seq<Field>, attrList: seq<string>) returns (hasAny: bool, hasAll: bool)
    ensures hasAny == AnyPresent(fs, attrList)
    ensures hasAll == AllPresent(fs, attrList)
  {
    hasAny := false;
    hasAll := true;
    var i := 0;
    while i < |attrList|
      invariant 0 <= i <= |attrList|
      invariant hasAny == AnyPresent(fs, attrList[..i])
      invariant hasAll == AllPresent(fs, attrList[..i])
    {
      PresentStep(fs, attrList, i);
      var val := Get(fs, attrList[i]);
      if val != Undefined && val != Null {
        hasAny := true;
      } else {
        hasAll := false;
      }
      i := i + 1;
    }
    assert attrList[..i] == attrList;
  }

  /** The second pass of `noneOrAll`: copy every attribute over. */
  method CopyInto(containerIn: JsObject, containerOut: seq<Field>, attrList: seq<string>)
    modifies containerIn
    ensures containerIn.fields == CopyAttrs(old(containerIn.fields), containerOut, attrList)
  {
    var i := 0;
    while i < |attrList|
      invariant 0 <= i <= |attrList|
      invariant containerIn.fields == CopyAttrs(old(containerIn.fields), containerOut, attrList[..i])
    {
      assert attrList[..i + 1][..i] == attrList[..i];
      containerIn.fields := Put(containerIn.fields, attrList[i], Get(containerOut, attrList[i]));
      i := i + 1;
    }
    assert attrList[..i] == attrList;
  }

  /** `noneOrAll(containerIn, containerOut, attrList)`; a falsy
      `containerIn` (here `null`) is left alone. */
  method NoneOrAll(containerIn: JsObject?, containerOut: seq<Field>, attrList: seq<string>)
    modifies containerIn
    ensures containerIn != null ==>
              containerIn.fields == NoneOrAllSpec(old(containerIn.fields), containerOut, attrList)
  {
    if containerIn == null {
      return;
    }
    var hasAny, hasAll := Survey(containerIn.fields, attrList);
    if hasAny && !hasAll {
      CopyInto(containerIn, containerOut, attrList);
    }
  }

  /** `fn(v)` for an optional function, the value itself without one. */
  function Apply(fn: Option<Value -> Value>, v: Value): Value
  {
    if fn.Some? then fn.value(v) else v
  }

  /** `arr[i]`: `undefined` past the end. */
  function ElemOr(es: seq<Value>, i: nat): Value
  {
    if i < |es| then es[i] else Undefined
  }

  /** The calcdata items after `mergeArray(traceAttr, cd, cdAttr, fn)`: for
      an array attribute, the first `min(traceAttr.length, cd.length)`
      items get `cdAttr` set to the attribute's value (through `fn` when it
      is a function); the other items are left alone. */
  function MergeSpec(items: seq<seq<Field>>, traceAttr: Value, cdAttr: string, fn: Option<Value -> Value>): (r: seq<seq<Field>>)
    ensures |r| == |items|
  {
    seq(|items|, i requires 0 <= i < |items| =>
      if traceAttr.Arr? && i < |traceAttr.elems|
      then Put(items[i], cdAttr, Apply(fn, traceAttr.elems[i]))
      else items[i])
  }

  /** The calcdata items after `fillArray(traceAttr, cd, cdAttr, fn)`: for an
      array attribute, every item gets `cdAttr` set to `fn` of the
      attribute's value at its index, `undefined` past the attribute's end;
      `fn` defaults to the identity. */
  function FillSpec(items: seq<seq<Field>>, traceAttr: Value, cdAttr: string, fn: Option<Value -> Value>): (r: seq<seq<Field>>)
    ensures |r| == |items|
  {
    seq(|items|, i requires 0 <= i < |items| =>
      if traceAttr.Arr?
      then Put(items[i], cdAttr, Apply(fn, ElemOr(traceAttr.elems, i)))
      else items[i])
  }

  /** `mergeArray`. */
  method MergeArray(traceAttr: Value, cd: array<seq<Field>>, cdAttr: string, fn: Option<Value -> Value>)
    modifies cd
    ensures cd[..] == MergeSpec(old(cd[..]), traceAttr, cdAttr, fn)
  {
    ghost var want := MergeSpec(cd[..], traceAttr, cdAttr, fn);
    if traceAttr.Arr? {
      var imax := if |traceAttr.elems| < cd.Length then |traceAttr.elems| else cd.Length;
      var i := 0;
      while i < imax
        invariant 0 <= i <= imax
        invariant forall j :: 0 <= j < i ==> cd[j] == want[j]
        invariant forall j :: i <= j < cd.Length ==> cd[j] == old(cd[j])
      {
        var v := traceAttr.elems[i];
        cd[i] := Put(cd[i], cdAttr, Apply(fn, v));
        i := i + 1;
      }
    }
  }

  /** `fillArray`. */
  method FillArray(traceAttr: Value, cd: array<seq<Field>>, cdAttr: string, fn: Option<Value -> Value>)
    modifies cd
    ensures cd[..] == FillSpec(old(cd[..]), traceAttr, cdAttr, fn)
  {
    ghost var want := FillSpec(cd[..], traceAttr, cdAttr, fn);
    if traceAttr.Arr? {
      var i := 0;
      while i < cd.Length
        invariant 0 <= i <= cd.Length
        invariant forall j :: 0 <= j < i ==> cd[j] == want[j]
        invariant forall j :: i <= j < cd.Length ==> cd[j] == old(cd[j])
      {
        cd[i] := Put(cd[i], cdAttr, Apply(fn, ElemOr(traceAttr.elems, i)));
        i := i + 1;
      }
    }
  }

  /** Both helpers keep every calcdata item a well-formed object, write the
      attribute (and only it), and agree wherever the attribute array
      reaches; past its end `mergeArray` leaves an item alone where
      `fillArray` writes `fn(undefined)`. */
  lemma {:induction false} MergeFillAgree(items: seq<seq<Field>>, traceAttr: Value, cdAttr: string, fn: Option<Value -> Value>)
    requires forall i :: 0 <= i < |items| ==> UniqueKeys(items[i])
    ensures forall i :: 0 <= i < |items| ==>
              UniqueKeys(MergeSpec(items, traceAttr, cdAttr, fn)[i]) && UniqueKeys(FillSpec(items, traceAttr, cdAttr, fn)[i])
    ensures forall i, k :: 0 <= i < |items| && k != cdAttr ==>
              Get(MergeSpec(items, traceAttr, cdAttr, fn)[i], k) == Get(items[i], k) &&
              Get(FillSpec(items, traceAttr, cdAttr, fn)[i], k) == Get(items[i], k)
    ensures traceAttr.Arr? ==> forall i :: 0 <= i < |items| && i < |traceAttr.elems| ==>
              MergeSpec(items, traceAttr, cdAttr, fn)[i] == FillSpec(items, traceAttr, cdAttr, fn)[i]
    ensures traceAttr.Arr? ==> forall i :: 0 <= i < |items| && i >= |traceAttr.elems| ==>
              MergeSpec(items, traceAttr, cdAttr, fn)[i] == items[i] &&
              Get(FillSpec(items, traceAttr, cdAttr, fn)[i], cdAttr) == Apply(fn, Undefined)
  {
    var m := MergeSpec(items, traceAttr, cdAttr, fn);
    var f := FillSpec(items, traceAttr, cdAttr, fn);
    forall i | 0 <= i < |items|
      ensures UniqueKeys(m[i]) && UniqueKeys(f[i])
    {
      if traceAttr.Arr? {
        PutKeepsUnique(items[i], cdAttr, Apply(fn, ElemOr(traceAttr.elems, i)));
      }
    }
  }
}
