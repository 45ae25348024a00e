/**
 * `templateString`: every `%{key}` token, format suffix included, is
 * replaced by the value it names, and a falsy value by the empty string.
 */
module Template {
  import opened JsValue
  import opened TemplateScan

  /** The regex class `\w`. */
  predicate WordChar(c: char)
  {
    ('a' <= c <= 'z') || ('A' <= c <= 'Z') || ('0' <= c <= '9') || c == '_'
  }

  /** `SIMPLE_PROPERTY_REGEX`, `/^\w*$/`. */
  predicate SimpleKey(key: string)
  {
    forall i :: 0 <= i < |key| ==> WordChar(key[i])
  }

  /** `obj.hasOwnProperty(key)`, for plain objects. */
  predicate HasOwn(obj: Value, key: string)
  {
    obj.Obj? && Has(obj.fields, key)
  }

  /** `obj[key]` for an own property, `undefined` otherwise. */
  function Prop(obj: Value, key: string): (v: Value)
    ensures !HasOwn(obj, key) ==> v == Undefined
  {
    if obj.Obj? then Get(obj.fields, key) else Undefined
  }

  /** The value a token names: a simple key is read directly off the data
      object; any other key goes through the path getter `lookup`, which
      stands for `nestedProperty(obj, key).get()`. */
  function KeyValue(obj: Value, lookup: string -> Value, key: string): Value
  {
    if SimpleKey(key) then Prop(obj, key) else lookup(key)
  }

  /** The replacement text, `String(value || '')`. */
  function Replacement(obj: Value, lookup: string -> Value, key: string): string
  {
    var v := KeyValue(obj, lookup, key);
    if Truthy(v) then ToText(v) else ""
  }

  function SubstAll(ps: seq<Piece>, obj: Value, lookup: string -> Value): string
  {
    if ps == [] then ""
    else
      var head := match ps[0]
        case Text(t) => t
        case Token(k, _) => Replacement(obj, lookup, k);
      head + SubstAll(ps[1..], obj, lookup)
  }

  /** `Lib.templateString(string, obj)`. */
  function TemplateString(s: string, obj: Value, lookup: string -> Value): string
  {
    SubstAll(Scan(s), obj, lookup)
  }

  /** A well-formed token at the head of the input scans as one token. */
  lemma ScanToken(key: string, fmt: Option<string>, s: string)
    requires ValidToken(key, fmt)
    ensures Scan(Raw(key, fmt) + s) == [Token(key, fmt)] + Scan(s)
  {
    MatchToken(key, fmt, s);
    var u := Raw(key, fmt) + s;
    assert u[|Raw(key, fmt)|..] == s;
  }

  /** Text containing no `%` is copied unchanged. */
  lemma {:induction false} TemplateStringText(t: string, s: string, obj: Value, lookup: string -> Value)
    requires '%' !in t
    ensures TemplateString(t + s, obj, lookup) == t + TemplateString(s, obj, lookup)
    decreases |t|
  {
    if t != [] {
      var u := t + s;
      assert u[0] == t[0];
      assert MatchAt(u) == None;
      assert u[1..] == t[1..] + s;
      TemplateStringText(t[1..], s, obj, lookup);
      assert t == [t[0]] + t[1..];
    } else {
      assert t + s == s;
    }
  }

  /** A token is replaced by the value its key names, or by `''` when that
      value is falsy (`0`, `''`, `false`, `null`, missing); a `:` format
      suffix is part of the token and is dropped. */
  lemma TemplateStringToken(key: string, fmt: Option<string>, s: string, obj: Value, lookup: string -> Value)
    requires ValidToken(key, fmt)
    ensures var v := if SimpleKey(key) then Prop(obj, key) else lookup(key);
            TemplateString(Raw(key, fmt) + s, obj, lookup) ==
              (if Truthy(v) then ToText(v) else "") + TemplateString(s, obj, lookup)
  {
    MatchToken(key, fmt, s);
    var u := Raw(key, fmt) + s;
    assert u[|Raw(key, fmt)|..] == s;
  }

  /** Literal text followed by one closed token. */
  lemma TextThenToken(t: string, key: string, obj: Value, lookup: string -> Value)
    requires '%' !in t && AllKeyChars(key) && SimpleKey(key)
    requires Prop(obj, key).Str? && Prop(obj, key).s != ""
    ensures TemplateString(t + Raw(key, None), obj, lookup) == t + Prop(obj, key).s
  {
    TemplateStringToken(key, None, "", obj, lookup);
    assert Raw(key, None) + "" == Raw(key, None);
    TemplateStringText(t, Raw(key, None), obj, lookup);
  }

  /** `templateString('name: %{trace}', {trace: 'asdf'})` is `'name: asdf'`. */
  lemma NameTraceExample(s: string, obj: Value, lookup: string -> Value)
    requires s == "name: %{trace}" && obj == Obj([Field("trace", Str("asdf"))])
    ensures TemplateString(s, obj, lookup) == "name: asdf"
  {
    assert Raw("trace", None) == "%{trace}";
    assert s == "name: " + "%{trace}";
    assert AllKeyChars("trace") && SimpleKey("trace");
    assert Prop(obj, "trace") == Str("asdf");
    TextThenToken("name: ", "trace", obj, lookup);
  }

  /** A zero is falsy and so blanks its token. */
  lemma ZeroIsBlanked(key: string, lookup: string -> Value)
    requires AllKeyChars(key) && SimpleKey(key)
    ensures TemplateString(Raw(key, None), Obj([Field(key, Num(0))]), lookup) == ""
  {
    TemplateStringToken(key, None, "", Obj([Field(key, Num(0))]), lookup);
    assert Raw(key, None) + "" == Raw(key, None);
  }
}
