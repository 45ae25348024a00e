/**
 * `minExtend(obj1, obj2)`: a copy of `obj1` without private keys and
 * functions, with arrays cut down to their first three items, merged with
 * the non-object values of `obj2`.
 */
module MinExtend {
  import opened JsValue

  datatype Extended = Ok(fields: seq<Field>) | TypeError

  /** How many array lengths `minExtend` keeps. */
  const ArrayLen: nat := 3

  // ---------------------------------------------------------------------
  // Size, the measure recursion into nested objects decreases

  function Size(v: Value): nat
  {
    match v
    case Arr(es) => 1 + SizeAll(es)
    case Obj(fs) => 1 + SizeFields(fs)
    case _ => 1
  }

  function SizeAll(es: seq<Value>): nat
  {
    if es == [] then 0 else Size(es[|es| - 1]) + SizeAll(es[..|es| - 1])
  }

  function SizeFields(fs: seq<Field>): nat
  {
    if fs == [] then 0 else Size(fs[|fs| - 1].val) + SizeFields(fs[..|fs| - 1])
  }

  lemma {:induction false} SizeAllBounds(es: seq<Value>, i: nat)
    requires i < |es|
    ensures Size(es[i]) <= SizeAll(es)
  {
    if i < |es| - 1 {
      SizeAllBounds(es[..|es| - 1], i);
    }
  }

  lemma {:induction false} SizeFieldsBounds(fs: seq<Field>, i: nat)
    requires i < |fs|
    ensures Size(fs[i].val) <= SizeFields(fs)
  {
    if i < |fs| - 1 {
      SizeFieldsBounds(fs[..|fs| - 1], i);
    }
  }

  // ---------------------------------------------------------------------
  // Own enumerable properties

  /** An array's or a string's index properties. */
  function IndexFields(es: seq<Value>): (r: seq<Field>)
    ensures |r| == |es|
    ensures forall i :: 0 <= i < |es| ==> r[i] == Field(NatToString(i), es[i])
  {
    seq(|es|, i requires 0 <= i < |es| => Field(NatToString(i), es[i]))
  }

  function Chars(s: string): (r: seq<Value>)
    ensures |r| == |s|
    ensures forall i :: 0 <= i < |s| ==> r[i] == Str([s[i]])
  {
    seq(|s|, i requires 0 <= i < |s| => Str([s[i]]))
  }

  /** `Object.keys(v)` with the values: `null` and `undefined` throw, other
      primitives have no own properties. */
  function OwnFields(v: Value): Option<seq<Field>>
  {
    match v
    case Undefined => None
    case Null => None
    case Obj(fs) => Some(fs)
    case Arr(es) => Some(IndexFields(es))
    case Str(s) => Some(IndexFields(Chars(s)))
    case _ => Some([])
  }

  /** A property holding an object is smaller than its owner. */
  lemma OwnFieldSmaller(v: Value, fs: seq<Field>, i: nat)
    requires OwnFields(v) == Some(fs) && i < |fs|
    ensures fs[i].val.Obj? ==> Size(fs[i].val) < Size(v)
  {
    match v
    case Obj(fs0) => SizeFieldsBounds(fs0, i);
    case Arr(es) => SizeAllBounds(es, i);
    case _ =>
  }

  /** Every nested object among `obj1`'s properties `fs1` is smaller than
      `obj1`, which is what recursion into them decreases. */
  ghost predicate NestedSmaller(obj1: Value, fs1: seq<Field>)
  {
    forall i :: 0 <= i < |fs1| && fs1[i].val.Obj? ==> Size(fs1[i].val) < Size(obj1)
  }

  lemma OwnFieldsSmaller(v: Value, fs: seq<Field>)
    requires OwnFields(v) == Some(fs)
    ensures NestedSmaller(v, fs)
  {
    forall i | 0 <= i < |fs| && fs[i].val.Obj?
      ensures Size(fs[i].val) < Size(v)
    {
      OwnFieldSmaller(v, fs, i);
    }
  }

  /** `obj2` once `typeof obj2 !== 'object'` has replaced it by `{}`; `null`
      stays and throws. */
  function Obj2Fields(obj2: Value): Option<seq<Field>>
  {
    if IsObjectType(obj2) then OwnFields(obj2) else Some([])
  }

  // ---------------------------------------------------------------------
  // The specification

  predicate Private(k: string)
  {
    |k| > 0 && k[0] == '_'
  }

  /** Whether the first pass copies property `k`. */
  predicate Kept(k: string, v: Value)
  {
    !Private(k) && !v.Fn?
  }

  /** The copy of an array: `colorscale` whole, others cut to three items. */
  function Trimmed(k: string, es: seq<Value>): seq<Value>
  {
    if k == "colorscale" || |es| <= ArrayLen then es else es[..ArrayLen]
  }

  /** The result of `minExtend(obj1, obj2)`. */
  function MinExtendSpec(obj1: Value, obj2: Value): (r: Extended)
    ensures obj2 == Null ==> r == TypeError
    ensures obj1 == Null || obj1 == Undefined ==> r == TypeError
    decreases Size(obj1), 1, 0
  {
    match (OwnFields(obj1), Obj2Fields(obj2))
    case (Some(fs1), Some(fs2)) =>
      OwnFieldsSmaller(obj1, fs1);
      (match FirstPass(obj1, fs1, |fs1|, fs2)
       case Ok(out) => Ok(SecondPass(out, fs2, |fs2|))
       case TypeError => TypeError)
    case _ => TypeError
  }

  /** What one iteration of the first loop does with a property. */
  datatype Copying = Skip | Write(val: Value) | Fail

  /** The first loop's iteration on property `i` of `obj1`: private keys
      and functions are skipped, `module` is copied as it is, arrays are
      trimmed, objects are reduced recursively against `obj2[k]`, and
      anything else is copied. */
  function CopyingAt(obj1: Value, fs1: seq<Field>, i: nat, fs2: seq<Field>): Copying
    requires NestedSmaller(obj1, fs1) && i < |fs1|
    decreases Size(obj1), 0, i
  {
    var k := fs1[i].key;
    var v := fs1[i].val;
    if !Kept(k, v) then Skip
    else if k == "module" then Write(v)
    else if v.Arr? then Write(Arr(Trimmed(k, v.elems)))
    else if v.Obj? then
      (match MinExtendSpec(v, Get(fs2, k))
       case Ok(sub) => Write(Obj(sub))
       case TypeError => Fail)
    else Write(v)
  }

  /** The first loop, over the first `n` properties of `obj1`. */
  function FirstPass(obj1: Value, fs1: seq<Field>, n: nat, fs2: seq<Field>): Extended
    requires NestedSmaller(obj1, fs1) && n <= |fs1|
    decreases Size(obj1), 0, n
  {
    if n == 0 then Ok([])
    else
      match FirstPass(obj1, fs1, n - 1, fs2)
      case TypeError => TypeError
      case Ok(prev) =>
        match CopyingAt(obj1, fs1, n - 1, fs2)
        case Skip => Ok(prev)
        case Write(w) => Ok(Put(prev, fs1[n - 1].key, w))
        case Fail => TypeError
  }

  /** Whether the second loop writes `obj2`'s value `v` over `out[k]`. */
  predicate Overrides(out: seq<Field>, k: string, v: Value)
  {
    !IsObjectType(v) || !Has(out, k) || !IsObjectType(Get(out, k))
  }

  /** The second loop, over the first `n` properties of `obj2`. */
  function SecondPass(out: seq<Field>, fs2: seq<Field>, n: nat): seq<Field>
    requires n <= |fs2|
  {
    if n == 0 then out
    else
      var prev := SecondPass(out, fs2, n - 1);
      var k := fs2[n - 1].key;
      var v := fs2[n - 1].val;
      if Overrides(prev, k, v) then Put(prev, k, v) else prev
  }

  // ---------------------------------------------------------------------
  // Properties

  /** What the first loop writes for a kept, non-nested property. */
  function Copy(k: string, v: Value): Value
  {
    if k == "module" then v else if v.Arr? then Arr(Trimmed(k, v.elems)) else v
  }

  /** Only `colorscale` keeps more than three array items. */
  lemma TrimmedShort(k: string, es: seq<Value>)
    ensures k != "colorscale" ==> |Trimmed(k, es)| <= ArrayLen
    ensures Trimmed(k, es) == es[..|Trimmed(k, es)|]
  {
  }

  /** What the first loop leaves after its first `n` iterations: a
      non-recursive name for `FirstPass`, so that the loop invariants and
      the lemmas stated with it do not unfold the recursion at every use. */
  function Copied(obj1: Value, fs1: seq<Field>, n: nat, fs2: seq<Field>): Extended
    requires NestedSmaller(obj1, fs1) && n <= |fs1|
  {
    FirstPass(obj1, fs1, n, fs2)
  }

  /** `k` is the key of one of `obj1`'s first `n` properties that the first
      loop copies. */
  predicate KeptIn(fs1: seq<Field>, n: nat, k: string)
    requires n <= |fs1|
  {
    n > 0 && ((fs1[n - 1].key == k && Kept(k, fs1[n - 1].val)) || KeptIn(fs1, n - 1, k))
  }

  lemma {:induction false} KeptInIff(fs1: seq<Field>, n: nat, k: string)
    requires n <= |fs1|
    ensures KeptIn(fs1, n, k) <==> exists i :: 0 <= i < n && fs1[i].key == k && Kept(k, fs1[i].val)
  {
    if n > 0 {
      KeptInIff(fs1, n - 1, k);
      if fs1[n - 1].key == k && Kept(k, fs1[n - 1].val) {
        assert 0 <= n - 1 < n && fs1[n - 1].key == k && Kept(k, fs1[n - 1].val);
      }
    }
  }

  /** The first loop keeps exactly the public, non-function properties of
      `obj1`. */
  lemma FirstPassHas(obj1: Value, fs1: seq<Field>, n: nat, fs2: seq<Field>, out: seq<Field>, k: string)
    requires NestedSmaller(obj1, fs1) && n <= |fs1|
    requires FirstPass(obj1, fs1, n, fs2) == Ok(out)
    ensures Has(out, k) <==> exists i :: 0 <= i < n && fs1[i].key == k && Kept(k, fs1[i].val)
  {
    KeptInIff(fs1, n, k);
    if KeptIn(fs1, n, k) {
      FirstPassAdds(obj1, fs1, n, fs2, k);
    } else {
      FirstPassSkips(obj1, fs1, n, fs2, k);
    }
  }

  /** A kept property of `obj1` is present once the first loop has passed it. */
  lemma {:induction false} FirstPassAdds(obj1: Value, fs1: seq<Field>, n: nat, fs2: seq<Field>, k: string)
    requires NestedSmaller(obj1, fs1) && n <= |fs1|
    requires Copied(obj1, fs1, n, fs2).Ok? && KeptIn(fs1, n, k)
    ensures Has(Copied(obj1, fs1, n, fs2).fields, k)
  {
    FirstPassHasStep(obj1, fs1, n, fs2, k);
    if !(fs1[n - 1].key == k && Kept(k, fs1[n - 1].val)) {
      FirstPassAdds(obj1, fs1, n - 1, fs2, k);
    }
  }

  /** A key no kept property of `obj1` has is absent after the first loop. */
  lemma {:induction false} FirstPassSkips(obj1: Value, fs1: seq<Field>, n: nat, fs2: seq<Field>, k: string)
    requires NestedSmaller(obj1, fs1) && n <= |fs1|
    requires Copied(obj1, fs1, n, fs2).Ok? && !KeptIn(fs1, n, k)
    ensures !Has(Copied(obj1, fs1, n, fs2).fields, k)
  {
    if n > 0 {
      FirstPassHasStep(obj1, fs1, n, fs2, k);
      FirstPassSkips(obj1, fs1, n - 1, fs2, k);
    }
  }

  /** One iteration of the first loop adds the key of a kept property and
      no other. */
  lemma FirstPassHasStep(obj1: Value, fs1: seq<Field>, n: nat, fs2: seq<Field>, k: string)
    requires NestedSmaller(obj1, fs1) && 0 < n <= |fs1|
    requires Copied(obj1, fs1, n, fs2).Ok?
    ensures Copied(obj1, fs1, n - 1, fs2).Ok?
    ensures Has(Copied(obj1, fs1, n, fs2).fields, k) <==>
              Has(Copied(obj1, fs1, n - 1, fs2).fields, k) || (fs1[n - 1].key == k && Kept(k, fs1[n - 1].val))
  {
    var prev := Copied(obj1, fs1, n - 1, fs2).fields;
    CopyingKept(obj1, fs1, n - 1, fs2);
    if CopyingAt(obj1, fs1, n - 1, fs2).Write? {
      PutHas(prev, fs1[n - 1].key, CopyingAt(obj1, fs1, n - 1, fs2).val, k);
    }
  }

  /** An iteration writes exactly for the kept properties. */
  lemma CopyingKept(obj1: Value, fs1: seq<Field>, i: nat, fs2: seq<Field>)
    requires NestedSmaller(obj1, fs1) && i < |fs1|
    ensures CopyingAt(obj1, fs1, i, fs2).Skip? <==> !Kept(fs1[i].key, fs1[i].val)
  {
  }

  /** What the first loop leaves under the key of `obj1`'s property `i`:
      a module value as it is, an array trimmed, a nested object reduced
      recursively against `obj2`'s property of the same name, anything
      else as it is. */
  lemma FirstPassValue(obj1: Value, fs1: seq<Field>, n: nat, fs2: seq<Field>, out: seq<Field>, i: nat)
    requires NestedSmaller(obj1, fs1) && i < n <= |fs1| && UniqueKeys(fs1)
    requires FirstPass(obj1, fs1, n, fs2) == Ok(out)
    requires Kept(fs1[i].key, fs1[i].val)
    ensures fs1[i].key == "module" || !fs1[i].val.Obj? ==> Get(out, fs1[i].key) == Copy(fs1[i].key, fs1[i].val)
    ensures fs1[i].key != "module" && fs1[i].val.Obj? ==>
              Get(out, fs1[i].key).Obj? && MinExtendSpec(fs1[i].val, Get(fs2, fs1[i].key)) == Ok(Get(out, fs1[i].key).fields)
  {
    var k := fs1[i].key;
    UniqueNotIn(fs1, i);
    KeyInShorter(fs1, i + 1, n, k);
    FirstPassKeeps(obj1, fs1, i + 1, n, fs2, k);
    FirstPassOkBefore(obj1, fs1, i, i + 1, fs2);
    FirstPassStep(obj1, fs1, i, fs2, Copied(obj1, fs1, i, fs2).fields);
  }

  /** Iterations `m` to `n - 1` of the first loop, none of which is for
      `k`, leave its presence and value alone. */
  lemma {:induction false} FirstPassKeeps(obj1: Value, fs1: seq<Field>, m: nat, n: nat, fs2: seq<Field>, k: string)
    requires NestedSmaller(obj1, fs1) && m <= n <= |fs1|
    requires Copied(obj1, fs1, n, fs2).Ok? && !KeyIn(fs1, m, n, k)
    ensures Copied(obj1, fs1, m, fs2).Ok?
    ensures Has(Copied(obj1, fs1, n, fs2).fields, k) == Has(Copied(obj1, fs1, m, fs2).fields, k)
    ensures Get(Copied(obj1, fs1, n, fs2).fields, k) == Get(Copied(obj1, fs1, m, fs2).fields, k)
    decreases n
  {
    if m < n {
      FirstPassStepOther(obj1, fs1, n, fs2, k);
      assert A: !KeyIn(fs1, m, n - 1, k);
      assert B: Copied(obj1, fs1, n - 1, fs2).Ok?;
      FirstPassKeeps(obj1, fs1, m, n - 1, fs2, k);
    }
  }

  /** An iteration of the first loop leaves the other keys alone. */
  lemma FirstPassStepOther(obj1: Value, fs1: seq<Field>, n: nat, fs2: seq<Field>, k: string)
    requires NestedSmaller(obj1, fs1) && 0 < n <= |fs1| && fs1[n - 1].key != k
    requires Copied(obj1, fs1, n, fs2).Ok?
    ensures Copied(obj1, fs1, n - 1, fs2).Ok?
    ensures Has(Copied(obj1, fs1, n, fs2).fields, k) == Has(Copied(obj1, fs1, n - 1, fs2).fields, k)
    ensures Get(Copied(obj1, fs1, n, fs2).fields, k) == Get(Copied(obj1, fs1, n - 1, fs2).fields, k)
  {
    var prev := Copied(obj1, fs1, n - 1, fs2).fields;
    if CopyingAt(obj1, fs1, n - 1, fs2).Write? {
      PutHas(prev, fs1[n - 1].key, CopyingAt(obj1, fs1, n - 1, fs2).val, k);
      PutOther(prev, fs1[n - 1].key, CopyingAt(obj1, fs1, n - 1, fs2).val, k);
    }
  }

  /** The second loop adds `obj2`'s properties, writing over the first
      loop's value unless both are objects, and changes nothing else. */
  lemma SecondPassAt(out: seq<Field>, fs2: seq<Field>, n: nat, k: string)
    requires n <= |fs2| && UniqueKeys(fs2)
    ensures Has(SecondPass(out, fs2, n), k) <==> Has(out, k) || exists i :: 0 <= i < n && fs2[i].key == k
    ensures (forall i :: 0 <= i < n ==> fs2[i].key != k) ==> Get(SecondPass(out, fs2, n), k) == Get(out, k)
    ensures forall i :: 0 <= i < n && fs2[i].key == k ==>
              Get(SecondPass(out, fs2, n), k) == if Overrides(out, k, fs2[i].val) then fs2[i].val else Get(out, k)
  {
    SecondPassHas(out, fs2, n, k);
    KeyInIff(fs2, 0, n, k);
    if !KeyIn(fs2, 0, n, k) {
      SecondPassUntouched(out, fs2, n, k);
    }
    forall i | 0 <= i < n && fs2[i].key == k
      ensures Get(SecondPass(out, fs2, n), k) == if Overrides(out, k, fs2[i].val) then fs2[i].val else Get(out, k)
    {
      SecondPassWrites(out, fs2, n, i);
    }
  }

  /** What the second loop leaves after its first `n` iterations: a
      non-recursive name for `SecondPass`, for the same reason as `Copied`. */
  function Merged(out: seq<Field>, fs2: seq<Field>, n: nat): seq<Field>
    requires n <= |fs2|
  {
    SecondPass(out, fs2, n)
  }

  /** `k` is the key of one of the fields `m` to `n - 1` of `fs`. */
  predicate KeyIn(fs: seq<Field>, m: nat, n: nat, k: string)
    requires n <= |fs|
    decreases n
  {
    m < n && (fs[n - 1].key == k || KeyIn(fs, m, n - 1, k))
  }

  lemma {:induction false} KeyInIff(fs: seq<Field>, m: nat, n: nat, k: string)
    requires n <= |fs|
    ensures KeyIn(fs, m, n, k) <==> exists i :: m <= i < n && fs[i].key == k
    decreases n
  {
    if m < n {
      KeyInIff(fs, m, n - 1, k);
      if fs[n - 1].key == k {
        assert m <= n - 1 < n && fs[n - 1].key == k;
      }
    }
  }

  /** With unique keys, the `i`-th key is not among the others. */
  lemma UniqueNotIn(fs: seq<Field>, i: nat)
    requires UniqueKeys(fs) && i < |fs|
    ensures !KeyIn(fs, 0, i, fs[i].key) && !KeyIn(fs, i + 1, |fs|, fs[i].key)
  {
    KeyInIff(fs, 0, i, fs[i].key);
    KeyInIff(fs, i + 1, |fs|, fs[i].key);
  }

  /** The second loop only ever adds keys, those of `obj2`. */
  lemma SecondPassHas(out: seq<Field>, fs2: seq<Field>, n: nat, k: string)
    requires n <= |fs2|
    ensures Has(Merged(out, fs2, n), k) <==> Has(out, k) || KeyIn(fs2, 0, n, k)
  {
    if KeyIn(fs2, 0, n, k) {
      SecondPassAdds(out, fs2, n, k);
    } else {
      SecondPassUntouched(out, fs2, n, k);
    }
  }

  /** Once the second loop has passed one of `obj2`'s keys, the key is
      present. */
  lemma {:induction false} SecondPassAdds(out: seq<Field>, fs2: seq<Field>, n: nat, k: string)
    requires n <= |fs2| && KeyIn(fs2, 0, n, k)
    ensures Has(Merged(out, fs2, n), k)
  {
    SecondPassHasStep(out, fs2, n, k);
    if fs2[n - 1].key != k {
      SecondPassAdds(out, fs2, n - 1, k);
    }
  }

  /** One iteration of the second loop adds its own key and no other. */
  lemma SecondPassHasStep(out: seq<Field>, fs2: seq<Field>, n: nat, k: string)
    requires 0 < n <= |fs2|
    ensures Has(Merged(out, fs2, n), k) <==> Has(Merged(out, fs2, n - 1), k) || fs2[n - 1].key == k
  {
    var prev := Merged(out, fs2, n - 1);
    if Overrides(prev, fs2[n - 1].key, fs2[n - 1].val) {
      PutHas(prev, fs2[n - 1].key, fs2[n - 1].val, k);
    }
  }

  /** A key `obj2` does not have keeps the first loop's presence and value. */
  lemma SecondPassUntouched(out: seq<Field>, fs2: seq<Field>, n: nat, k: string)
    requires n <= |fs2| && !KeyIn(fs2, 0, n, k)
    ensures Has(Merged(out, fs2, n), k) == Has(out, k)
    ensures Get(Merged(out, fs2, n), k) == Get(out, k)
  {
    SecondPassKeeps(out, fs2, 0, n, k);
  }

  /** Iterations `m` to `n - 1` of the second loop, none of which is for
      `k`, leave its presence and value alone. */
  lemma {:induction false} SecondPassKeeps(out: seq<Field>, fs2: seq<Field>, m: nat, n: nat, k: string)
    requires m <= n <= |fs2| && !KeyIn(fs2, m, n, k)
    ensures Has(Merged(out, fs2, n), k) == Has(Merged(out, fs2, m), k)
    ensures Get(Merged(out, fs2, n), k) == Get(Merged(out, fs2, m), k)
    decreases n
  {
    if m < n {
      SecondPassKeeps(out, fs2, m, n - 1, k);
      SecondPassHasStep(out, fs2, n, k);
      SecondPassGetStep(out, fs2, n, k);
    }
  }

  /** The value under `obj2`'s key `fs2[i].key` once the second loop has
      passed it: `obj2`'s value, unless both it and the first loop's value
      are objects. */
  lemma SecondPassWrites(out: seq<Field>, fs2: seq<Field>, n: nat, i: nat)
    requires UniqueKeys(fs2) && i < n <= |fs2|
    ensures var k := fs2[i].key;
            Get(Merged(out, fs2, n), k) == if Overrides(out, k, fs2[i].val) then fs2[i].val else Get(out, k)
  {
    var k := fs2[i].key;
    UniqueNotIn(fs2, i);
    SecondPassUntouched(out, fs2, i, k);
    SecondPassGetOwn(out, fs2, i + 1);
    KeyInShorter(fs2, i + 1, n, k);
    SecondPassKeeps(out, fs2, i + 1, n, k);
  }

  /** A key outside fields `m` to `|fs| - 1` is outside fields `m` to `n - 1`. */
  lemma {:induction false} KeyInShorter(fs: seq<Field>, m: nat, n: nat, k: string)
    requires n <= |fs| && !KeyIn(fs, m, |fs|, k)
    ensures !KeyIn(fs, m, n, k)
  {
    KeyInIff(fs, m, n, k);
    KeyInIff(fs, m, |fs|, k);
  }

  /** An iteration of the second loop leaves the other keys' values alone. */
  lemma SecondPassGetStep(out: seq<Field>, fs2: seq<Field>, n: nat, k: string)
    requires 0 < n <= |fs2| && fs2[n - 1].key != k
    ensures Get(Merged(out, fs2, n), k) == Get(Merged(out, fs2, n - 1), k)
  {
    var prev := Merged(out, fs2, n - 1);
    if Overrides(prev, fs2[n - 1].key, fs2[n - 1].val) {
      PutOther(prev, fs2[n - 1].key, fs2[n - 1].val, k);
    }
  }

  /** An iteration of the second loop writes its value unless both it and
      the current value are objects. */
  lemma SecondPassGetOwn(out: seq<Field>, fs2: seq<Field>, n: nat)
    requires 0 < n <= |fs2|
    ensures var prev := Merged(out, fs2, n - 1);
            var f := fs2[n - 1];
            Get(Merged(out, fs2, n), f.key) == if Overrides(prev, f.key, f.val) then f.val else Get(prev, f.key)
  {
  }

  /** `minExtend` is its first loop followed by its second. */
  lemma MinExtendSplit(obj1: Value, obj2: Value, fs1: seq<Field>, fs2: seq<Field>, r: seq<Field>) returns (out: seq<Field>)
    requires OwnFields(obj1) == Some(fs1) && Obj2Fields(obj2) == Some(fs2)
    requires MinExtendSpec(obj1, obj2) == Ok(r)
    ensures NestedSmaller(obj1, fs1)
    ensures FirstPass(obj1, fs1, |fs1|, fs2) == Ok(out) && r == SecondPass(out, fs2, |fs2|)
  {
    OwnFieldsSmaller(obj1, fs1);
    out := FirstPass(obj1, fs1, |fs1|, fs2).fields;
  }

  /** A key absent from `obj2`'s properties is none of their keys. */
  lemma NotAmongKeys(fs: seq<Field>, k: string)
    requires !Has(fs, k)
    ensures forall i :: 0 <= i < |fs| ==> fs[i].key != k
  {
    forall i | 0 <= i < |fs|
      ensures fs[i].key != k
    {
      assert Keys(fs)[i] == fs[i].key;
    }
  }

  /** The value the second loop leaves under `k`. */
  lemma SecondPassGet(out: seq<Field>, fs2: seq<Field>, k: string)
    requires UniqueKeys(fs2)
    ensures Get(SecondPass(out, fs2, |fs2|), k) ==
              if Has(fs2, k) && Overrides(out, k, Get(fs2, k)) then Get(fs2, k) else Get(out, k)
  {
    SecondPassAt(out, fs2, |fs2|, k);
    if Has(fs2, k) {
      var j := GetFound(fs2, k);
    } else {
      NotAmongKeys(fs2, k);
    }
  }

  /** The result of `minExtend(obj1, obj2)` holds the public, non-function
      properties of `obj1` and every property of `obj2`. */
  lemma MinExtendKeys(obj1: Value, obj2: Value, fs1: seq<Field>, fs2: seq<Field>, r: seq<Field>, k: string)
    requires OwnFields(obj1) == Some(fs1) && Obj2Fields(obj2) == Some(fs2) && UniqueKeys(fs2)
    requires MinExtendSpec(obj1, obj2) == Ok(r)
    ensures Has(r, k) <==> (exists i :: 0 <= i < |fs1| && fs1[i].key == k && Kept(k, fs1[i].val)) || Has(fs2, k)
  {
    var out := MinExtendSplit(obj1, obj2, fs1, fs2, r);
    FirstPassHas(obj1, fs1, |fs1|, fs2, out, k);
    SecondPassAt(out, fs2, |fs2|, k);
    if Has(fs2, k) {
      var j := GetFound(fs2, k);
    } else {
      NotAmongKeys(fs2, k);
    }
  }

  /** `obj2`'s non-object values always win, and a private key of the
      result comes from `obj2` with its value. */
  lemma MinExtendOverride(obj1: Value, obj2: Value, fs1: seq<Field>, fs2: seq<Field>, r: seq<Field>, k: string)
    requires OwnFields(obj1) == Some(fs1) && Obj2Fields(obj2) == Some(fs2) && UniqueKeys(fs2)
    requires MinExtendSpec(obj1, obj2) == Ok(r)
    ensures Has(fs2, k) && !IsObjectType(Get(fs2, k)) ==> Get(r, k) == Get(fs2, k)
    ensures Private(k) && Has(r, k) ==> Has(fs2, k) && Get(r, k) == Get(fs2, k)
  {
    var out := MinExtendSplit(obj1, obj2, fs1, fs2, r);
    FirstPassHas(obj1, fs1, |fs1|, fs2, out, k);
    SecondPassGet(out, fs2, k);
    MinExtendKeys(obj1, obj2, fs1, fs2, r, k);
  }

  /** Where `obj2` does not override it, an array property of `obj1` comes
      back cut to its first three items (`colorscale` whole), and a nested
      object comes back reduced recursively against `obj2`'s property of
      the same name. */
  lemma MinExtendCopies(obj1: Value, obj2: Value, fs1: seq<Field>, fs2: seq<Field>, r: seq<Field>, i: nat)
    requires OwnFields(obj1) == Some(fs1) && Obj2Fields(obj2) == Some(fs2)
    requires UniqueKeys(fs1) && UniqueKeys(fs2)
    requires MinExtendSpec(obj1, obj2) == Ok(r)
    requires i < |fs1| && Kept(fs1[i].key, fs1[i].val) && fs1[i].key != "module"
    ensures fs1[i].val.Arr? && !Has(fs2, fs1[i].key) ==>
              Get(r, fs1[i].key) == Arr(Trimmed(fs1[i].key, fs1[i].val.elems))
    ensures fs1[i].val.Obj? && (!Has(fs2, fs1[i].key) || IsObjectType(Get(fs2, fs1[i].key))) ==>
              Get(r, fs1[i].key).Obj? &&
              MinExtendSpec(fs1[i].val, Get(fs2, fs1[i].key)) == Ok(Get(r, fs1[i].key).fields)
  {
    var out := MinExtendSplit(obj1, obj2, fs1, fs2, r);
    FirstPassValue(obj1, fs1, |fs1|, fs2, out, i);
    SecondPassGet(out, fs2, fs1[i].key);
  }

  // ---------------------------------------------------------------------
  // The method

  /** One iteration of the first loop. */
  lemma FirstPassStep(obj1: Value, fs1: seq<Field>, i: nat, fs2: seq<Field>, prev: seq<Field>)
    requires NestedSmaller(obj1, fs1) && i < |fs1|
    requires Copied(obj1, fs1, i, fs2) == Ok(prev)
    ensures Copied(obj1, fs1, i + 1, fs2) ==
              match CopyingAt(obj1, fs1, i, fs2)
              case Skip => Ok(prev)
              case Write(w) => Ok(Put(prev, fs1[i].key, w))
              case Fail => TypeError
  {
  }

  lemma SecondPassStep(out: seq<Field>, fs2: seq<Field>, i: nat)
    requires i < |fs2|
    ensures var prev := Merged(out, fs2, i);
            Merged(out, fs2, i + 1) ==
              if Overrides(prev, fs2[i].key, fs2[i].val) then Put(prev, fs2[i].key, fs2[i].val) else prev
  {
  }

  /** A first loop that finishes finished every shorter prefix. */
  lemma FirstPassOkBefore(obj1: Value, fs1: seq<Field>, m: nat, n: nat, fs2: seq<Field>)
    requires NestedSmaller(obj1, fs1) && m <= n <= |fs1|
    ensures Copied(obj1, fs1, n, fs2).Ok? ==> Copied(obj1, fs1, m, fs2).Ok?
  {
    if Copied(obj1, fs1, m, fs2).TypeError? {
      FirstPassFails(obj1, fs1, m, n, fs2);
    }
  }

  /** An error in the first loop stays an error. */
  lemma {:induction false} FirstPassFails(obj1: Value, fs1: seq<Field>, i: nat, n: nat, fs2: seq<Field>)
    requires NestedSmaller(obj1, fs1) && i <= n <= |fs1|
    requires Copied(obj1, fs1, i, fs2) == TypeError
    ensures Copied(obj1, fs1, n, fs2) == TypeError
    decreases n - i
  {
    if i < n {
      FirstPassFailStep(obj1, fs1, i + 1, fs2);
      FirstPassFails(obj1, fs1, i + 1, n, fs2);
    }
  }

  /** An iteration after an error keeps the error. */
  lemma FirstPassFailStep(obj1: Value, fs1: seq<Field>, n: nat, fs2: seq<Field>)
    requires NestedSmaller(obj1, fs1) && 0 < n <= |fs1|
    requires Copied(obj1, fs1, n - 1, fs2) == TypeError
    ensures Copied(obj1, fs1, n, fs2) == TypeError
  {
  }

  /** `minExtend(obj1, obj2)`. */
  method MinExtend(obj1: Value, obj2: Value) returns (r: Extended)
    ensures r == MinExtendSpec(obj1, obj2)
    decreases Size(obj1), 1
  {
    var keys1 := OwnFields(obj1);
    var keys2 := Obj2Fields(obj2);
    if keys1.None? || keys2.None? {
      return TypeError;
    }
    OwnFieldsSmaller(obj1, keys1.value);
    var first := CopyProperties(obj1, keys1.value, keys2.value);
    if first.TypeError? {
      return TypeError;
    }
    var objOut := MergeProperties(first.fields, keys2.value);
    return Ok(objOut);
  }

  /** The first loop of `minExtend`, over the properties of `obj1`. */
  method CopyProperties(obj1: Value, fs1: seq<Field>, fs2: seq<Field>) returns (r: Extended)
    requires NestedSmaller(obj1, fs1)
    ensures r == FirstPass(obj1, fs1, |fs1|, fs2)
    decreases Size(obj1), 0
  {
    r := Ok([]);
    var i := 0;
    while i < |fs1| && r.Ok?
      invariant 0 <= i <= |fs1|
      invariant r.Ok? ==> Copied(obj1, fs1, i, fs2) == r
      invariant r.TypeError? ==> Copied(obj1, fs1, |fs1|, fs2) == TypeError
    {
      r := CopyProperty(obj1, fs1, fs2, i, r.fields);
      i := i + 1;
    }
  }

  /** One iteration of the first loop, on property `i` of `obj1`. */
  method CopyProperty(obj1: Value, fs1: seq<Field>, fs2: seq<Field>, i: nat, objOut: seq<Field>)
    returns (r: Extended)
    requires NestedSmaller(obj1, fs1) && i < |fs1|
    requires Copied(obj1, fs1, i, fs2) == Ok(objOut)
    ensures r == Copied(obj1, fs1, i + 1, fs2)
    ensures r.TypeError? ==> Copied(obj1, fs1, |fs1|, fs2) == TypeError
    decreases Size(obj1), 0, 0
  {
    var k := fs1[i].key;
    var v := fs1[i].val;
    FirstPassStep(obj1, fs1, i, fs2, objOut);
    if Private(k) || v.Fn? {
      r := Ok(objOut);
    } else if k == "module" {
      r := Ok(Put(objOut, k, v));
    } else if v.Arr? {
      if k == "colorscale" {
        r := Ok(Put(objOut, k, Arr(v.elems)));
      } else {
        var cut := if |v.elems| < ArrayLen then |v.elems| else ArrayLen;
        assert v.elems[..cut] == Trimmed(k, v.elems);
        r := Ok(Put(objOut, k, Arr(v.elems[..cut])));
      }
    } else if v.Obj? {
      var sub := MinExtend(v, Get(fs2, k));
      if sub.TypeError? {
        r := TypeError;
        FirstPassFails(obj1, fs1, i + 1, |fs1|, fs2);
      } else {
        r := Ok(Put(objOut, k, Obj(sub.fields)));
      }
    } else {
      r := Ok(Put(objOut, k, v));
    }
  }

  /** The second loop of `minExtend`, over the properties of `obj2`. */
  method MergeProperties(out: seq<Field>, fs2: seq<Field>) returns (objOut: seq<Field>)
    ensures objOut == SecondPass(out, fs2, |fs2|)
  {
    objOut := out;
    var i := 0;
    while i < |fs2|
      invariant 0 <= i <= |fs2|
      invariant objOut == Merged(out, fs2, i)
    {
      var k := fs2[i].key;
      var v := fs2[i].val;
      SecondPassStep(out, fs2, i);
      if !IsObjectType(v) || !Has(objOut, k) || !IsObjectType(Get(objOut, k)) {
        objOut := Put(objOut, k, v);
      }
      i := i + 1;
    }
  }
}
