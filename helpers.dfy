/**
 * The small self-contained helpers of the library: `constrain`,
 * `stripTrailingSlash`, `titleCase`, `containsAny`, `isIndex` and `repeat`.
 */
module Helpers {
  import opened JsValue

  function Max(x: int, y: int): int
  {
    if x >= y then x else y
  }

  function Min(x: int, y: int): int
  {
    if x <= y then x else y
  }

  /** `constrain(v, v0, v1)`: `v` restricted to the range between `v0` and
      `v1`, given in either order. */
  function Constrain(v: int, v0: int, v1: int): (r: int)
    ensures Min(v0, v1) <= r <= Max(v0, v1)
    ensures Min(v0, v1) <= v <= Max(v0, v1) ==> r == v
    ensures v < Min(v0, v1) ==> r == Min(v0, v1)
    ensures v > Max(v0, v1) ==> r == Max(v0, v1)
  {
    if v0 > v1 then Max(v1, Min(v0, v)) else Max(v0, Min(v1, v))
  }

  /** Constraining twice is constraining once. */
  lemma ConstrainIdempotent(v: int, v0: int, v1: int)
    ensures Constrain(Constrain(v, v0, v1), v0, v1) == Constrain(v, v0, v1)
  {
  }

  /** `stripTrailingSlash(str)`: one trailing `/` removed. */
  function StripTrailingSlash(s: string): (r: string)
    ensures |s| > 0 && s[|s| - 1] == '/' ==> r + "/" == s
    ensures (|s| == 0 || s[|s| - 1] != '/') ==> r == s
  {
    if |s| > 0 && s[|s| - 1] == '/' then s[..|s| - 1] else s
  }

  /** Only one slash goes: `a//` becomes `a/`. */
  lemma StripOneSlash(s: string)
    ensures StripTrailingSlash(s + "/") == s
  {
    assert (s + "/")[..|s|] == s;
  }

  predicate IsLower(c: char)
  {
    'a' <= c <= 'z'
  }

  /** `toUpperCase` of one character, for the ASCII letters. */
  function UpperChar(c: char): (u: char)
  {
    if IsLower(c) then (c as int - 32) as char else c
  }

  /** `titleCase(s)`: the first character upper-cased, the rest kept. */
  function TitleCase(s: string): (r: string)
    ensures |r| == |s|
    ensures |s| > 0 ==> r[0] == UpperChar(s[0]) && r[1..] == s[1..]
    ensures |s| > 0 && IsLower(s[0]) ==> 'A' <= r[0] <= 'Z' && r[0] as int + 32 == s[0] as int
    ensures |s| > 0 && !IsLower(s[0]) ==> r == s
  {
    if s == [] then [] else [UpperChar(s[0])] + s[1..]
  }

  /** Title-casing twice is title-casing once. */
  lemma TitleCaseIdempotent(s: string)
    ensures TitleCase(TitleCase(s)) == TitleCase(s)
  {
  }

  /** `f` occurs in `s` at index `j`. */
  predicate OccursAt(s: string, f: string, j: int)
  {
    0 <= j && j + |f| <= |s| && s[j..j + |f|] == f
  }

  /** `s.indexOf(f, from)`: the first occurrence at or after `from`, or -1. */
  function IndexOf(s: string, f: string, from: nat): (r: int)
    ensures r == -1 || (from <= r && OccursAt(s, f, r))
    ensures r == -1 ==> forall j :: from <= j <= |s| ==> !OccursAt(s, f, j)
    ensures r != -1 ==> forall j :: from <= j < r ==> !OccursAt(s, f, j)
    decreases |s| + 1 - from
  {
    if from + |f| > |s| then -1
    else if s[from..from + |f|] == f then from
    else IndexOf(s, f, from + 1)
  }

  /** `containsAny(s, fragments)`: some fragment occurs in `s`. */
  method ContainsAny(s: string, fragments: seq<string>) returns (r: bool)
    ensures r <==> exists i, j :: 0 <= i < |fragments| && OccursAt(s, fragments[i], j)
  {
    for i := 0 to |fragments|
      invariant forall i', j :: 0 <= i' < i ==> !OccursAt(s, fragments[i'], j)
    {
      if IndexOf(s, fragments[i], 0) != -1 {
        return true;
      }
    }
    return false;
  }

  /** `isNumeric(v)` and the number it denotes, for numbers and for strings
      of decimal digits. */
  function NumericValue(v: Value): Option<int>
  {
    match v
    case Num(n) => Some(n)
    case Str(s) =>
      if s != [] && forall i :: 0 <= i < |s| ==> IsDigit(s[i]) then Some(DigitsValue(s)) else None
    case _ => None
  }

  /** `isIndex(v, len)`; `v % 1 === 0` always holds of the integers
      modelled here. */
  function IsIndex(v: Value, len: Option<int>): bool
  {
    if len.Some? && NumericValue(v).Some? && NumericValue(v).value >= len.value then false
    else NumericValue(v).Some? && NumericValue(v).value >= 0
  }

  /** A valid index is a non-negative number below the length, if one is
      given. */
  lemma IsIndexIff(v: Value, len: Option<int>)
    ensures IsIndex(v, len) <==>
              NumericValue(v).Some? && 0 <= NumericValue(v).value &&
              (len.None? || NumericValue(v).value < len.value)
  {
  }

  /** `repeat(v, cnt)`: a fresh array of `cnt` copies of `v`; a negative
      count is the RangeError of `new Array(cnt)`. */
  method Repeat(v: Value, cnt: int) returns (out: Option<array<Value>>)
    ensures out.None? <==> cnt < 0
    ensures out.Some? ==> fresh(out.value) && out.value.Length == cnt
    ensures out.Some? ==> forall i :: 0 <= i < out.value.Length ==> out.value[i] == v
  {
    if cnt < 0 {
      return None;
    }
    var a := new Value[cnt];
    var i := 0;
    while i < cnt
      invariant 0 <= i <= cnt
      invariant forall j :: 0 <= j < i ==> a[j] == v
    {
      a[i] := v;
      i := i + 1;
    }
    return Some(a);
  }
}
