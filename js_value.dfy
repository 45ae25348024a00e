/**
 * JavaScript values as the plotting library's utility code sees them:
 * plain objects are ordered sequences of own properties (insertion order
 * decides which write wins and where a key sits), arrays are sequences in
 * which an unwritten slot reads as `undefined`, numbers are integers.
 */
module JsValue {

  datatype Option<T> = None | Some(value: T)

  /** A JavaScript value. `Fn` carries the function's source text, which is
      what `String(f)` yields. */
  datatype Value =
    | Undefined
    | Null
    | Bool(b: bool)
    | Num(n: int)
    | Str(s: string)
    | Arr(elems: seq<Value>)
    | Obj(fields: seq<Field>)
    | Fn(source: string)

  /** One own property of a plain object. */
  datatype Field = Field(key: string, val: Value)

  /** JavaScript truthiness: `undefined`, `null`, `false`, `0` and `''` are falsy. */
  predicate Truthy(v: Value)
  {
    match v
    case Undefined => false
    case Null => false
    case Bool(b) => b
    case Num(n) => n != 0
    case Str(s) => s != ""
    case _ => true
  }

  /** `typeof v === 'object'` (true of null and arrays, false of functions). */
  predicate IsObjectType(v: Value)
  {
    v.Null? || v.Arr? || v.Obj?
  }

  // ---------------------------------------------------------------------
  // Ordered objects

  function Keys(fs: seq<Field>): (ks: seq<string>)
    ensures |ks| == |fs|
    ensures forall i :: 0 <= i < |fs| ==> ks[i] == fs[i].key
  {
    if fs == [] then [] else [fs[0].key] + Keys(fs[1..])
  }

  /** `k in obj` for an own property. */
  predicate Has(fs: seq<Field>, k: string)
  {
    k in Keys(fs)
  }

  /** `obj[k]`: the first field named `k`, or `undefined`. */
  function Get(fs: seq<Field>, k: string): (v: Value)
    ensures !Has(fs, k) ==> v == Undefined
  {
    if fs == [] then Undefined
    else if fs[0].key == k then fs[0].val
    else Get(fs[1..], k)
  }

  /** A present key reads the value of one of the fields. */
  lemma {:induction false} GetFound(fs: seq<Field>, k: string) returns (i: nat)
    requires Has(fs, k)
    ensures i < |fs| && fs[i].key == k && fs[i].val == Get(fs, k)
  {
    if fs[0].key == k {
      i := 0;
    } else {
      assert Keys(fs) == [fs[0].key] + Keys(fs[1..]);
      i := GetFound(fs[1..], k);
      i := i + 1;
    }
  }

  /** `obj[k] = v`: an existing property keeps its place, a new one goes last. */
  function Put(fs: seq<Field>, k: string, v: Value): (r: seq<Field>)
    ensures Get(r, k) == v
    ensures forall j :: j != k ==> Get(r, j) == Get(fs, j)
  {
    if fs == [] then [Field(k, v)]
    else if fs[0].key == k then [Field(k, v)] + fs[1..]
    else [fs[0]] + Put(fs[1..], k, v)
  }

  /** After `obj[k] = v` the keys keep their order, and a new key goes last. */
  lemma {:induction false} PutKeys(fs: seq<Field>, k: string, v: Value)
    ensures Keys(Put(fs, k, v)) == if Has(fs, k) then Keys(fs) else Keys(fs) + [k]
  {
    if fs != [] && fs[0].key != k {
      PutKeys(fs[1..], k, v);
      assert Keys([fs[0]] + Put(fs[1..], k, v)) == [fs[0].key] + Keys(Put(fs[1..], k, v));
      assert Keys(fs) == [fs[0].key] + Keys(fs[1..]);
    }
  }

  /** `delete obj[k]`. */
  function Remove(fs: seq<Field>, k: string): (r: seq<Field>)
    ensures forall j :: j in Keys(r) <==> j in Keys(fs) && j != k
    ensures forall j :: j != k ==> Get(r, j) == Get(fs, j)
    ensures |r| <= |fs|
  {
    if fs == [] then []
    else if fs[0].key == k then Remove(fs[1..], k)
    else
      var t := Remove(fs[1..], k);
      assert Keys([fs[0]] + t) == [fs[0].key] + Keys(t);
      assert Keys(fs) == [fs[0].key] + Keys(fs[1..]);
      [fs[0]] + t
  }

  /** After `obj[k] = v` exactly the old keys and `k` are present. */
  lemma PutHas(fs: seq<Field>, k: string, v: Value, j: string)
    ensures Has(Put(fs, k, v), j) <==> Has(fs, j) || j == k
  {
    PutKeys(fs, k, v);
    if !Has(fs, k) {
      assert j in Keys(fs) + [k] <==> j in Keys(fs) || j == k;
    }
  }

  /** `obj[k] = v` leaves every other key's value alone. */
  lemma PutOther(fs: seq<Field>, k: string, v: Value, j: string)
    requires j != k
    ensures Get(Put(fs, k, v), j) == Get(fs, j)
  {
  }

  /** Writing back the value a key already holds changes nothing. */
  lemma {:induction false} PutSame(fs: seq<Field>, k: string)
    requires Has(fs, k)
    ensures Put(fs, k, Get(fs, k)) == fs
  {
    if fs[0].key != k {
      assert Keys(fs) == [fs[0].key] + Keys(fs[1..]);
      PutSame(fs[1..], k);
      assert fs == [fs[0]] + fs[1..];
    }
  }

  /** JavaScript objects never hold one key twice. */
  ghost predicate UniqueKeys(fs: seq<Field>)
  {
    forall i, j :: 0 <= i < j < |fs| ==> fs[i].key != fs[j].key
  }

  lemma {:induction false} PutKeepsUnique(fs: seq<Field>, k: string, v: Value)
    requires UniqueKeys(fs)
    ensures UniqueKeys(Put(fs, k, v))
  {
    if fs != [] && fs[0].key != k {
      PutKeepsUnique(fs[1..], k, v);
      var r := Put(fs[1..], k, v);
      assert !Has(fs[1..], fs[0].key);
      PutHas(fs[1..], k, v, fs[0].key);
    }
  }

  // ---------------------------------------------------------------------
  // Numbers and strings

  predicate IsDigit(c: char)
  {
    '0' <= c <= '9'
  }

  function DigitValue(c: char): nat
    requires IsDigit(c)
  {
    c as int - '0' as int
  }

  /** The longest prefix of `s` made of ASCII digits. */
  function LeadingDigits(s: string): (d: string)
    ensures d <= s
    ensures forall i :: 0 <= i < |d| ==> IsDigit(d[i])
    ensures |d| < |s| ==> !IsDigit(s[|d|])
  {
    if s != [] && IsDigit(s[0]) then [s[0]] + LeadingDigits(s[1..]) else []
  }

  /** `parseInt` of a string of ASCII digits. */
  function DigitsValue(d: string): nat
    requires forall i :: 0 <= i < |d| ==> IsDigit(d[i])
  {
    if d == [] then 0 else 10 * DigitsValue(d[..|d| - 1]) + DigitValue(d[|d| - 1])
  }

  /** `String(n)` for a non-negative integer. */
  function NatToString(n: nat): (s: string)
    ensures |s| >= 1 && forall i :: 0 <= i < |s| ==> IsDigit(s[i])
    ensures DigitsValue(s) == n
  {
    var last := ['0' + (n % 10) as char];
    assert DigitValue(last[0]) == n % 10;
    if n < 10 then
      assert DigitsValue(last) == 10 * DigitsValue([]) + n % 10;
      last
    else
      var s := NatToString(n / 10) + last;
      assert s[..|s| - 1] == NatToString(n / 10);
      s
  }

  /** `String(n)` for an integer. */
  function IntToString(n: int): (s: string)
    ensures n >= 0 ==> s == NatToString(n)
    ensures n < 0 ==> s == "-" + NatToString(-n)
  {
    if n >= 0 then NatToString(n) else "-" + NatToString(-n)
  }

  /** `s.split(sep)` for a one-character separator. */
  function Split(s: string, sep: char): (parts: seq<string>)
    ensures |parts| >= 1
    ensures forall i :: 0 <= i < |parts| ==> sep !in parts[i]
  {
    if sep !in s then [s]
    else
      var i := FirstIndexOf(s, sep);
      [s[..i]] + Split(s[i + 1..], sep)
  }

  /** Splitting at a first separator peels off the text before it. */
  lemma SplitCons(a: string, sep: char, b: string)
    requires sep !in a
    ensures Split(a + [sep] + b, sep) == [a] + Split(b, sep)
  {
    var s := a + [sep] + b;
    assert s[|a|] == sep;
    var i := FirstIndexOf(s, sep);
    assert s[..i] == a;
    assert s[i + 1..] == b;
  }

  function FirstIndexOf(s: string, c: char): (i: nat)
    requires c in s
    ensures i < |s| && s[i] == c && c !in s[..i]
  {
    if s[0] == c then 0 else 1 + FirstIndexOf(s[1..], c)
  }

  /** `parts.join(sep)`, the inverse of `Split`. */
  function Join(parts: seq<string>, sep: char): string
    requires |parts| >= 1
  {
    if |parts| == 1 then parts[0] else parts[0] + [sep] + Join(parts[1..], sep)
  }

  lemma {:induction false} JoinSplit(s: string, sep: char)
    ensures Join(Split(s, sep), sep) == s
  {
    if sep in s {
      var i := FirstIndexOf(s, sep);
      var parts := [s[..i]] + Split(s[i + 1..], sep);
      assert Split(s, sep) == parts;
      assert parts[1..] == Split(s[i + 1..], sep);
      JoinSplit(s[i + 1..], sep);
      assert Join(parts, sep) == s[..i] + [sep] + s[i + 1..];
      assert s == s[..i] + [sep] + s[i + 1..];
    }
  }

  /** `String(v)`: the text a value turns into when spliced into a string. */
  function ToText(v: Value): string
  {
    match v
    case Undefined => "undefined"
    case Null => "null"
    case Bool(b) => if b then "true" else "false"
    case Num(n) => IntToString(n)
    case Str(s) => s
    case Arr(es) => JoinElems(es)
    case Obj(_) => "[object Object]"
    case Fn(src) => src
  }

  /** `Array.prototype.join(',')`: null and undefined elements print as ''. */
  function JoinElems(es: seq<Value>): string
  {
    if es == [] then ""
    else
      var head := if es[0].Undefined? || es[0].Null? then "" else ToText(es[0]);
      if |es| == 1 then head else head + "," + JoinElems(es[1..])
  }
}
