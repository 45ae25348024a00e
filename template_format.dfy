/**
 * `templateFormatString`, shared by `hovertemplateString` and
 * `texttemplateString`: tokens are looked up in several sources in turn,
 * formatted with a number or date format or replaced by a label, and a
 * missing key leaves its token in place and is reported through a
 * throttled warning counter.
 */
module TemplateFormat {
  import opened JsValue
  import opened TemplateScan
  import opened Template
  import opened SeqFacts

  /** The `{max, count, name}` warning state of one template family. The
      warnings passed to `lib.warn` are recorded in `log`. */
  class WarningState {
    var count: int
    const max: int
    const name: string
    ghost var log: seq<string>

    /** `hovertemplateWarnings` and `texttemplateWarnings` start with no
        warnings counted and a limit of ten. */
    constructor (name: string)
      ensures this.name == name && max == 10 && count == 0 && log == []
    {
      this.name := name;
      max := 10;
      count := 0;
      log := [];
    }
  }

  /** The formatters: `number(spec, v)` stands for
      `(d3locale ? d3locale.numberFormat : d3.format)(spec)(v)` and
      `date(spec, v)` for `formatDate(dateTime2ms(v), spec, false, fmt)`. */
  datatype Formatters = Formatters(number: (string, Value) -> string, date: (string, Value) -> string)

  /** Everything a call sees besides the counter: the labels object, the data
      sources (arguments from the fourth on), the path getter standing for
      `nestedProperty(obj, key).get()`, the formatters and the family's
      name and limit. */
  datatype Context = Context(
    labels: Value,
    sources: seq<Value>,
    lookup: (Value, string) -> Value,
    fmts: Formatters,
    name: string,
    max: int)

  /** A source the lookup loop passes over for `key`: falsy, or without the
      key as own property and (for a path key) with an undefined path. */
  predicate Skipped(o: Value, key: string, lookup: (Value, string) -> Value)
  {
    !Truthy(o) || (!HasOwn(o, key) && (SimpleKey(key) || lookup(o, key) == Undefined))
  }

  /** The value a source that is not skipped yields. */
  function HitValue(o: Value, key: string, lookup: (Value, string) -> Value): Value
  {
    if HasOwn(o, key) then Prop(o, key) else lookup(o, key)
  }

  /** The lookup loop without a cache, from source `j` on. */
  function ResolveFrom(sources: seq<Value>, j: nat, key: string, lookup: (Value, string) -> Value): Value
    decreases |sources| - j
  {
    if j >= |sources| then Undefined
    else if Skipped(sources[j], key, lookup) then ResolveFrom(sources, j + 1, key, lookup)
    else HitValue(sources[j], key, lookup)
  }

  function Resolve(sources: seq<Value>, key: string, lookup: (Value, string) -> Value): Value
  {
    ResolveFrom(sources, 0, key, lookup)
  }

  lemma {:induction false} ResolveFromHit(sources: seq<Value>, j: nat, p: nat, key: string, lookup: (Value, string) -> Value)
    requires j <= p < |sources|
    requires forall q :: j <= q < p ==> Skipped(sources[q], key, lookup)
    requires !Skipped(sources[p], key, lookup)
    ensures ResolveFrom(sources, j, key, lookup) == HitValue(sources[p], key, lookup)
    decreases p - j
  {
    if j < p {
      ResolveFromHit(sources, j + 1, p, key, lookup);
    }
  }

  lemma {:induction false} ResolveFromNone(sources: seq<Value>, j: nat, key: string, lookup: (Value, string) -> Value)
    requires j <= |sources|
    requires forall q :: j <= q < |sources| ==> Skipped(sources[q], key, lookup)
    ensures ResolveFrom(sources, j, key, lookup) == Undefined
    decreases |sources| - j
  {
    if j < |sources| {
      ResolveFromNone(sources, j + 1, key, lookup);
    }
  }

  /** Sources are tried in order and falsy ones are skipped: the first
      source owning the key decides, even when its value is undefined. */
  lemma FirstOwnSourceWins(sources: seq<Value>, i: nat, key: string, lookup: (Value, string) -> Value)
    requires i < |sources| && Truthy(sources[i]) && HasOwn(sources[i], key)
    requires forall q :: 0 <= q < i ==> Skipped(sources[q], key, lookup)
    ensures Resolve(sources, key, lookup) == Prop(sources[i], key)
  {
    ResolveFromHit(sources, 0, i, key, lookup);
  }

  /** The text a resolved value becomes: a `:` format goes through the
      number formatter, a `|` format through the date formatter, and with no
      format an own `<key>Label` of `labels` replaces the value. */
  function Formatted(v: Value, key: string, format: Option<string>, labels: Value, fmts: Formatters): string
  {
    match format
    case Some(f) =>
      if |f| > 0 && f[0] == ':' then fmts.number(f[1..], v)
      else if |f| > 0 && f[0] == '|' then fmts.date(f[1..], v)
      else ToText(v)
    case None =>
      if HasOwn(labels, key + "Label") then ToText(Prop(labels, key + "Label")) else ToText(v)
  }

  function NotFound(key: string, name: string): string
  {
    "Variable '" + key + "' in " + name + " could not be found!"
  }

  function TooMany(name: string): string
  {
    "Too many " + name + " warnings - additional warnings will be suppressed"
  }

  /** The warnings of one miss found at counter value `count`. */
  function MissWarnings(name: string, max: int, count: int, key: string): seq<string>
  {
    (if count < max then [NotFound(key, name)] else []) + (if count == max then [TooMany(name)] else [])
  }

  /** Output text, counter and emitted warnings. */
  datatype Run = Run(out: string, count: int, warns: seq<string>)

  function PieceRun(p: Piece, ctx: Context, count: int): Run
  {
    match p
    case Text(t) => Run(t, count, [])
    case Token(k, f) =>
      var v := Resolve(ctx.sources, k, ctx.lookup);
      if v == Undefined then Run(Raw(k, f), count + 1, MissWarnings(ctx.name, ctx.max, count, k))
      else Run(Formatted(v, k, f, ctx.labels, ctx.fmts), count, [])
  }

  /** The cache-free reference: the pieces handled left to right, starting
      from counter value `count`. */
  function FormatRun(ps: seq<Piece>, ctx: Context, count: int): Run
  {
    if ps == [] then Run("", count, [])
    else
      var r := FormatRun(ps[..|ps| - 1], ctx, count);
      var q := PieceRun(ps[|ps| - 1], ctx, r.count);
      Run(r.out + q.out, q.count, r.warns + q.warns)
  }

  /** `getterCache` only ever holds truthy path values, each found at a
      source where the uncached lookup loop would have stopped. */
  ghost predicate FirstHit(sources: seq<Value>, p: nat, key: string, lookup: (Value, string) -> Value)
  {
    p < |sources| && Truthy(sources[p]) && !HasOwn(sources[p], key) && !SimpleKey(key) &&
    Truthy(lookup(sources[p], key)) &&
    forall q :: 0 <= q < p ==> Skipped(sources[q], key, lookup)
  }

  ghost predicate CacheSound(cache: map<string, Value>, hitAt: map<string, nat>, sources: seq<Value>, lookup: (Value, string) -> Value)
  {
    forall k :: k in cache ==>
      k in hitAt && FirstHit(sources, hitAt[k], k, lookup) && cache[k] == lookup(sources[hitAt[k]], k)
  }

  /** A cached value is what the uncached lookup returns. */
  lemma CachedIsResolved(cache: map<string, Value>, hitAt: map<string, nat>, sources: seq<Value>, key: string, lookup: (Value, string) -> Value)
    requires CacheSound(cache, hitAt, sources, lookup) && key in cache
    ensures cache[key] == Resolve(sources, key, lookup)
  {
    ResolveFromHit(sources, 0, hitAt[key], key, lookup);
  }

  /** The lookup loop for one token, with the per-call `getterCache`. */
  method ResolveCached(sources: seq<Value>, key: string, lookup: (Value, string) -> Value,
                       cache: map<string, Value>, ghost hitAt: map<string, nat>)
    returns (value: Value, cache': map<string, Value>, ghost hitAt': map<string, nat>)
    requires CacheSound(cache, hitAt, sources, lookup)
    ensures value == Resolve(sources, key, lookup)
    ensures CacheSound(cache', hitAt', sources, lookup)
  {
    value := Undefined;
    cache', hitAt' := cache, hitAt;
    var i := 0;
    while i < |sources|
      invariant 0 <= i <= |sources|
      invariant value == Undefined
      invariant forall q :: 0 <= q < i ==> Skipped(sources[q], key, lookup)
      invariant CacheSound(cache', hitAt', sources, lookup)
    {
      var obj := sources[i];
      if Truthy(obj) {
        if HasOwn(obj, key) {
          value := Prop(obj, key);
          ResolveFromHit(sources, 0, i, key, lookup);
          return;
        }
        if !SimpleKey(key) {
          if key in cache' && Truthy(cache'[key]) {
            value := cache'[key];
            CachedIsResolved(cache', hitAt', sources, key, lookup);
            return;
          }
          value := lookup(obj, key);
          if Truthy(value) {
            cache' := cache'[key := value];
            hitAt' := hitAt'[key := i];
          }
          if value != Undefined {
            ResolveFromHit(sources, 0, i, key, lookup);
            return;
          }
        }
      }
      i := i + 1;
    }
    ResolveFromNone(sources, 0, key, lookup);
  }

  /** One token of the loop: the lookup through the cache, then on a miss
      the raw token and the throttled warnings, otherwise the formatted text. */
  method ApplyToken(opts: WarningState, key: string, format: Option<string>, ctx: Context,
                     cache: map<string, Value>, ghost hitAt: map<string, nat>)
    returns (text: string, cache': map<string, Value>, ghost hitAt': map<string, nat>)
    modifies opts
    requires ctx.name == opts.name && ctx.max == opts.max
    requires CacheSound(cache, hitAt, ctx.sources, ctx.lookup)
    ensures var q := PieceRun(Token(key, format), ctx, old(opts.count));
            text == q.out && opts.count == q.count && opts.log == old(opts.log) + q.warns
    ensures CacheSound(cache', hitAt', ctx.sources, ctx.lookup)
  {
    var value;
    value, cache', hitAt' := ResolveCached(ctx.sources, key, ctx.lookup, cache, hitAt);
    if value == Undefined {
      if opts.count < opts.max {
        opts.log := opts.log + [NotFound(key, opts.name)];
      }
      if opts.count == opts.max {
        opts.log := opts.log + [TooMany(opts.name)];
      }
      opts.count := opts.count + 1;
      text := Raw(key, format);
    } else if format.Some? {
      var f := format.value;
      text := ToText(value);
      if |f| > 0 && f[0] == ':' {
        text := ctx.fmts.number(f[1..], value);
      }
      if |f| > 0 && f[0] == '|' {
        text := ctx.fmts.date(f[1..], value);
      }
    } else if HasOwn(ctx.labels, key + "Label") {
      text := ToText(Prop(ctx.labels, key + "Label"));
    } else {
      text := ToText(value);
    }
  }

  /** `templateFormatString.apply(opts, [s, labels, d3locale].concat(sources))`:
      the output, the new counter and the new warnings are those of the
      cache-free reference, so the cache changes no result. */
  method TemplateFormatString(opts: WarningState, s: string, labels: Value, sources: seq<Value>,
                              lookup: (Value, string) -> Value, fmts: Formatters)
    returns (out: string)
    modifies opts
    ensures var r := FormatRun(Scan(s), Context(labels, sources, lookup, fmts, opts.name, opts.max), old(opts.count));
            out == r.out && opts.count == r.count && opts.log == old(opts.log) + r.warns
  {
    var ctx := Context(labels, sources, lookup, fmts, opts.name, opts.max);
    var ps := Scan(s);
    var cache: map<string, Value> := map[];
    ghost var hitAt: map<string, nat> := map[];
    out := "";
    var i := 0;
    while i < |ps|
      invariant 0 <= i <= |ps|
      invariant var r := FormatPrefix(ps, i, ctx, old(opts.count));
                out == r.out && opts.count == r.count && opts.log == old(opts.log) + r.warns
      invariant CacheSound(cache, hitAt, sources, lookup)
    {
      ghost var r := FormatPrefix(ps, i, ctx, old(opts.count));
      var text;
      match ps[i] {
        case Text(t) =>
          text := t;
        case Token(key, format) =>
          text, cache, hitAt := ApplyToken(opts, key, format, ctx, cache, hitAt);
      }
      ghost var q := PieceRun(ps[i], ctx, r.count);
      FormatPrefixStep(ps, i, ctx, old(opts.count));
      assert opts.log == old(opts.log) + (r.warns + q.warns) by {
        Assoc3(old(opts.log), r.warns, q.warns);
      }
      out := out + text;
      i := i + 1;
    }
    assert ps[..|ps|] == ps;
  }

  /** `FormatRun` of the first `i` pieces, under a name that unfolds it only once. */
  function FormatPrefix(ps: seq<Piece>, i: nat, ctx: Context, count: int): Run
    requires i <= |ps|
  {
    FormatRun(ps[..i], ctx, count)
  }

  /** One more piece extends the output, counter and warnings by its own. */
  lemma FormatPrefixStep(ps: seq<Piece>, i: nat, ctx: Context, count: int)
    requires i < |ps|
    ensures var r := FormatPrefix(ps, i, ctx, count);
            var q := PieceRun(ps[i], ctx, r.count);
            FormatPrefix(ps, i + 1, ctx, count) == Run(r.out + q.out, q.count, r.warns + q.warns)
  {
    assert ps[..i + 1][..i] == ps[..i];
  }

  /** The warnings of consecutive misses starting at counter value `count`. */
  function Throttle(name: string, max: int, count: int, keys: seq<string>): seq<string>
  {
    if keys == [] then []
    else Throttle(name, max, count, keys[..|keys| - 1]) + MissWarnings(name, max, count + |keys| - 1, keys[|keys| - 1])
  }

  function NotFoundAll(name: string, keys: seq<string>): seq<string>
  {
    if keys == [] then [] else NotFoundAll(name, keys[..|keys| - 1]) + [NotFound(keys[|keys| - 1], name)]
  }

  /** One "could not be found" warning per key, in order. */
  lemma {:induction false} NotFoundAllAt(name: string, keys: seq<string>)
    ensures |NotFoundAll(name, keys)| == |keys|
    ensures forall i :: 0 <= i < |keys| ==> NotFoundAll(name, keys)[i] == NotFound(keys[i], name)
  {
    if keys != [] {
      NotFoundAllAt(name, keys[..|keys| - 1]);
    }
  }

  function Clamp(x: int, n: nat): (r: nat)
    ensures r <= n
  {
    if x < 0 then 0 else if x > n then n else x
  }

  /** The throttle: of the misses met from counter value `count` on, those
      met while the counter is below `max` each warn that the variable could
      not be found, the one that meets `count == max` gives the single
      suppression notice, and all later ones are silent. */
  lemma {:induction false} ThrottleShape(name: string, max: int, count: int, keys: seq<string>)
    ensures Throttle(name, max, count, keys) ==
              NotFoundAll(name, keys[..Clamp(max - count, |keys|)]) +
              (if count <= max < count + |keys| then [TooMany(name)] else [])
  {
    if keys != [] {
      var n := |keys| - 1;
      var init := keys[..n];
      ThrottleShape(name, max, count, init);
      TakeTake(keys, Clamp(max - count, n), n);
      var tail := MissWarnings(name, max, count + n, keys[n]);
      assert Throttle(name, max, count, keys) == Throttle(name, max, count, init) + tail;
      var before := NotFoundAll(name, keys[..Clamp(max - count, n)]);
      if count + n < max {
        assert tail == [NotFound(keys[n], name)];
        assert Clamp(max - count, n) == n && Clamp(max - count, n + 1) == n + 1;
        TakeTake(keys, n, n + 1);
        assert NotFoundAll(name, keys[..n + 1]) == before + tail;
        assert Throttle(name, max, count, init) == before;
      } else if count + n == max {
        assert tail == [TooMany(name)];
        assert Clamp(max - count, n) == n && Clamp(max - count, n + 1) == n;
        assert Throttle(name, max, count, init) == before;
      } else {
        assert tail == [];
        assert Clamp(max - count, n) == Clamp(max - count, n + 1);
        assert (count <= max < count + n) == (count <= max < count + n + 1);
        assert Throttle(name, max, count, keys) == Throttle(name, max, count, init);
      }
    }
  }

  /** A fresh family of ten: after `n` misses, `min(n, 10)` not-found
      warnings and, past ten misses, one suppression notice. */
  lemma FreshThrottle(name: string, keys: seq<string>)
    ensures var w := Throttle(name, 10, 0, keys);
            w == NotFoundAll(name, keys[..if |keys| < 10 then |keys| else 10]) +
                 (if |keys| > 10 then [TooMany(name)] else [])
  {
    ThrottleShape(name, 10, 0, keys);
  }

  /** The keys of the tokens that miss, in order. */
  function MissKeys(ps: seq<Piece>, ctx: Context): seq<string>
  {
    if ps == [] then []
    else
      var last := ps[|ps| - 1];
      MissKeys(ps[..|ps| - 1], ctx) +
      (if last.Token? && Resolve(ctx.sources, last.key, ctx.lookup) == Undefined then [last.key] else [])
  }

  /** Every miss adds one to the counter, and the warnings of a run are the
      throttled warnings of its misses. */
  lemma {:induction false} RunCountsMisses(ps: seq<Piece>, ctx: Context, count: int)
    ensures FormatRun(ps, ctx, count).count == count + |MissKeys(ps, ctx)|
    ensures FormatRun(ps, ctx, count).warns == Throttle(ctx.name, ctx.max, count, MissKeys(ps, ctx))
  {
    if ps != [] {
      var init := ps[..|ps| - 1];
      RunCountsMisses(init, ctx, count);
      var ks := MissKeys(init, ctx);
      var last := ps[|ps| - 1];
      if last.Token? && Resolve(ctx.sources, last.key, ctx.lookup) == Undefined {
        var ks' := ks + [last.key];
        assert ks'[..|ks'| - 1] == ks;
        assert MissKeys(ps, ctx) == ks';
        assert Throttle(ctx.name, ctx.max, count, ks') ==
               Throttle(ctx.name, ctx.max, count, ks) + MissWarnings(ctx.name, ctx.max, count + |ks|, last.key);
      } else {
        assert MissKeys(ps, ctx) == ks + [];
        assert MissKeys(ps, ctx) == ks;
      }
    }
  }

  lemma {:induction false} FormatRunAppend(a: seq<Piece>, b: seq<Piece>, ctx: Context, count: int)
    ensures var ra := FormatRun(a, ctx, count);
            var rb := FormatRun(b, ctx, ra.count);
            FormatRun(a + b, ctx, count) == Run(ra.out + rb.out, rb.count, ra.warns + rb.warns)
    decreases |b|
  {
    if b == [] {
      assert a + b == a;
    } else {
      var n := |b| - 1;
      var b0 := b[..n];
      FormatRunAppend(a, b0, ctx, count);
      var ra := FormatRun(a, ctx, count);
      var r0 := FormatRun(b0, ctx, ra.count);
      var q := PieceRun(b[n], ctx, r0.count);
      assert (a + b)[..|a + b| - 1] == a + b0;
      assert (a + b)[|a + b| - 1] == b[n];
      assert FormatRun(b, ctx, ra.count) == Run(r0.out + q.out, q.count, r0.warns + q.warns);
      assert FormatRun(a + b, ctx, count) == Run(ra.out + r0.out + q.out, q.count, ra.warns + r0.warns + q.warns);
      Assoc3(ra.out, r0.out, q.out);
      Assoc3(ra.warns, r0.warns, q.warns);
    }
  }

  lemma FormatRunSingle(p: Piece, ctx: Context, count: int)
    ensures FormatRun([p], ctx, count) == PieceRun(p, ctx, count)
  {
    assert [p][..0] == [];
    assert "" + PieceRun(p, ctx, count).out == PieceRun(p, ctx, count).out;
  }

  /** A well-formed token at the head of the template is handled on its
      own, and the rest of the template continues from the new counter. */
  lemma FormatToken(key: string, fmt: Option<string>, s: string, ctx: Context, count: int)
    requires ValidToken(key, fmt)
    ensures var head := PieceRun(Token(key, fmt), ctx, count);
            var rest := FormatRun(Scan(s), ctx, head.count);
            FormatRun(Scan(Raw(key, fmt) + s), ctx, count) ==
              Run(head.out + rest.out, rest.count, head.warns + rest.warns)
  {
    ScanToken(key, fmt, s);
    FormatRunAppend([Token(key, fmt)], Scan(s), ctx, count);
    FormatRunSingle(Token(key, fmt), ctx, count);
  }

  /** A key no source resolves leaves its whole token, format included, in
      the output, adds one to the counter and warns as the throttle says. */
  lemma MissLeavesToken(key: string, fmt: Option<string>, s: string, ctx: Context, count: int)
    requires ValidToken(key, fmt)
    requires Resolve(ctx.sources, key, ctx.lookup) == Undefined
    ensures var rest := FormatRun(Scan(s), ctx, count + 1);
            FormatRun(Scan(Raw(key, fmt) + s), ctx, count) ==
              Run(Raw(key, fmt) + rest.out, rest.count, MissWarnings(ctx.name, ctx.max, count, key) + rest.warns)
  {
    FormatToken(key, fmt, s, ctx, count);
  }

  /** A defined falsy value is substituted, not blanked: `0` prints as `0`. */
  lemma ZeroIsSubstituted(key: string, s: string, ctx: Context, count: int)
    requires AllKeyChars(key)
    requires Resolve(ctx.sources, key, ctx.lookup) == Num(0)
    requires !HasOwn(ctx.labels, key + "Label")
    ensures FormatRun(Scan(Raw(key, None) + s), ctx, count).out == "0" + FormatRun(Scan(s), ctx, count).out
  {
    FormatToken(key, None, s, ctx, count);
    assert IntToString(0) == "0";
  }

  /** `labels[key + 'Label']` replaces the value of a token without a
      format, and is ignored by a token with a number format. */
  lemma LabelOnlyWithoutFormat(key: string, f: string, s: string, ctx: Context, count: int)
    requires AllKeyChars(key) && '}' !in f && ':' !in key
    requires Resolve(ctx.sources, key, ctx.lookup) != Undefined
    requires HasOwn(ctx.labels, key + "Label")
    ensures FormatRun(Scan(Raw(key, None) + s), ctx, count).out ==
              ToText(Prop(ctx.labels, key + "Label")) + FormatRun(Scan(s), ctx, count).out
    ensures FormatRun(Scan(Raw(key, Some(":" + f)) + s), ctx, count).out ==
              ctx.fmts.number(f, Resolve(ctx.sources, key, ctx.lookup)) + FormatRun(Scan(s), ctx, count).out
  {
    FormatToken(key, None, s, ctx, count);
    FormatToken(key, Some(":" + f), s, ctx, count);
    assert (":" + f)[1..] == f;
  }

  /** `%{x|%Y}` is the key `x` under the date format `%Y`. */
  lemma DateFormatToken(s: string, ctx: Context, count: int)
    requires s == "%{x|%Y}"
    requires Resolve(ctx.sources, "x", ctx.lookup) != Undefined
    ensures FormatRun(Scan(s), ctx, count).out == ctx.fmts.date("%Y", Resolve(ctx.sources, "x", ctx.lookup))
  {
    BarOpensFormat();
    assert s[7..] == [];
    assert Scan(s) == [Token("x", Some("|%Y"))] + Scan([]);
    assert "|%Y"[1..] == "%Y";
    assert [Token("x", Some("|%Y"))][..0] == [];
  }
}
