/**
 * The token grammar of template strings, `/%{([^\s%{}:]*)([:|\|][^}]*)?}/g`,
 * as an explicit left-to-right scanner.
 */
module TemplateScan {
  import opened JsValue
  import opened SeqFacts

  /** The JavaScript regular-expression class `\s`. */
  predicate IsJsSpace(c: char)
  {
    var n := c as int;
    n == 0x09 || n == 0x0a || n == 0x0b || n == 0x0c || n == 0x0d || n == 0x20 ||
    n == 0xa0 || n == 0x1680 || (0x2000 <= n <= 0x200a) || n == 0x2028 || n == 0x2029 ||
    n == 0x202f || n == 0x205f || n == 0x3000 || n == 0xfeff
  }

  /** The key class `[^\s%{}:]`; note that `|` belongs to it. */
  predicate KeyChar(c: char)
  {
    !IsJsSpace(c) && c != '%' && c != '{' && c != '}' && c != ':'
  }

  predicate AllKeyChars(s: string)
  {
    forall i :: 0 <= i < |s| ==> KeyChar(s[i])
  }

  /** End of the longest run of key characters starting at `p`. */
  function KeyEnd(s: string, p: nat): (e: nat)
    requires p <= |s|
    ensures p <= e <= |s|
    ensures forall j :: p <= j < e ==> KeyChar(s[j])
    ensures e < |s| ==> !KeyChar(s[e])
    decreases |s| - p
  {
    if p == |s| || !KeyChar(s[p]) then p else KeyEnd(s, p + 1)
  }

  /** Index of the first `}` at or after `p`. */
  function FirstClose(s: string, p: nat): (r: Option<nat>)
    requires p <= |s|
    ensures r.Some? ==> p <= r.value < |s| && s[r.value] == '}'
    ensures r.Some? ==> forall j :: p <= j < r.value ==> s[j] != '}'
    ensures r.None? ==> forall j :: p <= j < |s| ==> s[j] != '}'
    decreases |s| - p
  {
    if p == |s| then None else if s[p] == '}' then Some(p) else FirstClose(s, p + 1)
  }

  /** Index of the last `|` in `[lo, hi)`. */
  function LastBar(s: string, lo: nat, hi: nat): (r: Option<nat>)
    requires hi <= |s|
    ensures r.Some? ==> lo <= r.value < hi && s[r.value] == '|'
    ensures r.Some? ==> forall j :: r.value < j < hi ==> s[j] != '|'
    ensures r.None? ==> forall j :: lo <= j < hi ==> s[j] != '|'
    decreases hi
  {
    if hi <= lo then None else if s[hi - 1] == '|' then Some(hi - 1) else LastBar(s, lo, hi - 1)
  }

  /** A match at the start of the input: the key, the optional format
      (with its leading `:` or `|`), and the length of the token. */
  datatype Match = Match(key: string, format: Option<string>, len: nat)

  /** The source text of a token. */
  function Raw(key: string, format: Option<string>): string
  {
    "%{" + key + (if format.Some? then format.value else "") + "}"
  }

  /** A format the regex can end a token with: it holds no `}` and opens
      with `:`, or with a `|` whose following run of key characters ends
      in a character other than `:` and holds no further `|`. (Were the
      run to reach the `}`, the `|` would belong to the key; were it to end
      in `:`, that `:` would open the format; a later `|` in the run would
      open the format instead.) */
  predicate ValidFormat(f: string)
  {
    && |f| >= 1 && '}' !in f
    && (f[0] == ':' ||
        (f[0] == '|' &&
         var j := KeyEnd(f, 1);
         j < |f| && f[j] != ':' && '|' !in f[1..j]))
  }

  /** The key and format of a token the regex matches as such. */
  predicate ValidToken(key: string, format: Option<string>)
  {
    AllKeyChars(key) && (format.Some? ==> ValidFormat(format.value))
  }

  /** What the regex matches at the start of `s`. The greedy key run is
      tried first, followed by `}` or by a `:` format; failing that it
      backtracks to the last `|` inside the run, which then opens the
      format. */
  function MatchAt(s: string): (r: Option<Match>)
    ensures r.Some? ==> 3 <= r.value.len <= |s| && s[..r.value.len] == Raw(r.value.key, r.value.format)
    ensures r.Some? ==> ValidToken(r.value.key, r.value.format)
  {
    if |s| < 2 || s[0] != '%' || s[1] != '{' then None
    else
      var e := KeyEnd(s, 2);
      if e < |s| && s[e] == '}' then
        RawPlain(s, e);
        Some(Match(s[2..e], None, e + 1))
      else
        match FirstClose(s, e)
        case None => None
        case Some(c) =>
          if s[e] == ':' then
            RawFormatted(s, e, c);
            NoCloseBefore(s, e, c);
            Some(Match(s[2..e], Some(s[e..c]), c + 1))
          else
            match LastBar(s, 2, e)
            case None => None
            case Some(p) =>
              RawFormatted(s, p, c);
              NoCloseBefore(s, p, c);
              BarFormatValid(s, p, e, c);
              Some(Match(s[2..p], Some(s[p..c]), c + 1))
  }

  /** The text between `p` and the first `}` after it holds no `}`. */
  lemma NoCloseBefore(s: string, p: nat, c: nat)
    requires p <= c <= |s| && forall j :: p <= j < c ==> s[j] != '}'
    ensures '}' !in s[p..c]
  {
  }

  /** The format the scanner backs up to satisfies `ValidFormat`. */
  lemma BarFormatValid(s: string, p: nat, e: nat, c: nat)
    requires 2 <= p < e < c <= |s| && s[p] == '|' && '}' !in s[p..c]
    requires forall j :: p < j < e ==> KeyChar(s[j]) && s[j] != '|'
    requires !KeyChar(s[e]) && s[e] != ':'
    ensures ValidFormat(s[p..c])
  {
    var f := s[p..c];
    KeyEndRun(f, 1, e - p);
    assert f[e - p] == s[e];
    forall t | 1 <= t < e - p
      ensures f[t] != '|'
    {
      assert f[t] == s[p + t];
    }
  }

  lemma {:induction false} KeyEndRun(s: string, p: nat, e: nat)
    requires p <= e <= |s|
    requires forall j :: p <= j < e ==> KeyChar(s[j])
    requires e == |s| || !KeyChar(s[e])
    ensures KeyEnd(s, p) == e
    decreases e - p
  {
    if p < e {
      KeyEndRun(s, p + 1, e);
    }
  }

  lemma {:induction false} FirstCloseRun(s: string, p: nat, c: nat)
    requires p <= c < |s| && s[c] == '}'
    requires forall j :: p <= j < c ==> s[j] != '}'
    ensures FirstClose(s, p) == Some(c)
    decreases c - p
  {
    if p < c {
      FirstCloseRun(s, p + 1, c);
    }
  }

  lemma {:induction false} LastBarRun(s: string, lo: nat, hi: nat, p: nat)
    requires lo <= p < hi <= |s| && s[p] == '|'
    requires forall j :: p < j < hi ==> s[j] != '|'
    ensures LastBar(s, lo, hi) == Some(p)
    decreases hi
  {
    if p < hi - 1 {
      LastBarRun(s, lo, hi - 1, p);
    }
  }

  /** Where the parts of a token sit in the text `%{key<f>}` + rest. */
  lemma TokenLayout(key: string, f: string, s: string)
    ensures var u, b := "%{" + key + f + "}" + s, 2 + |key|;
      && |u| == b + |f| + 1 + |s| && u[0] == '%' && u[1] == '{' && u[b + |f|] == '}'
      && (forall j :: 2 <= j < b ==> u[j] == key[j - 2])
      && (forall j :: b <= j < b + |f| ==> u[j] == f[j - b])
  {
  }

  /** The key run of `%{key}` ends at the `}`. */
  lemma MatchPlainHead(key: string, s: string)
    requires AllKeyChars(key)
    ensures MatchAt("%{" + key + "" + "}" + s) == Some(Match(key, None, 3 + |key|))
  {
    var u := "%{" + key + "" + "}" + s;
    TokenLayout(key, "", s);
    KeyEndRun(u, 2, 2 + |key|);
    assert u[2..2 + |key|] == key;
  }

  /** The key run of `%{key:f}` ends at the `:`, and the first `}` closes it. */
  lemma MatchColonHead(key: string, f: string, s: string)
    requires AllKeyChars(key) && |f| >= 1 && f[0] == ':' && '}' !in f
    ensures MatchAt("%{" + key + f + "}" + s) == Some(Match(key, Some(f), 3 + |key| + |f|))
  {
    var u, b := "%{" + key + f + "}" + s, 2 + |key|;
    TokenLayout(key, f, s);
    KeyEndRun(u, 2, b);
    FirstCloseRun(u, b, b + |f|);
    assert u[2..b] == key;
    assert u[b..b + |f|] == f;
  }

  /** The key run of `%{key|f'}` runs into the format; the scanner backs up
      to its `|`. */
  lemma MatchBarHead(key: string, f: string, s: string)
    requires AllKeyChars(key) && ValidFormat(f) && f[0] == '|'
    ensures MatchAt("%{" + key + f + "}" + s) == Some(Match(key, Some(f), 3 + |key| + |f|))
  {
    var u, b := "%{" + key + f + "}" + s, 2 + |key|;
    var e, c := b + KeyEnd(f, 1), b + |f|;
    BarKeyEnd(key, f, s);
    BarStops(key, f, s);
    BarClose(key, f, s);
    BarLast(key, f, s);
    BarSlices(key, f, s);
    MatchBarAt(u, e, b, c);
  }

  /** The character that ends the key run of `%{key|f'}` is neither `}` nor `:`. */
  lemma BarStops(key: string, f: string, s: string)
    requires ValidFormat(f) && f[0] == '|'
    ensures var u, e := "%{" + key + f + "}" + s, 2 + |key| + KeyEnd(f, 1);
      && |u| >= 2 && u[0] == '%' && u[1] == '{'
      && e < |u| && u[e] != '}' && u[e] != ':'
  {
    TokenLayout(key, f, s);
  }

  /** The first `}` after the key run of `%{key|f'}` closes the token. */
  lemma BarClose(key: string, f: string, s: string)
    requires ValidFormat(f) && f[0] == '|'
    ensures var u, b := "%{" + key + f + "}" + s, 2 + |key|;
      FirstClose(u, b + KeyEnd(f, 1)) == Some(b + |f|)
  {
    var u, b := "%{" + key + f + "}" + s, 2 + |key|;
    BarSlices(key, f, s);
    CloseAfter(key, f, s);
    CloseWithin(u, b, b + KeyEnd(f, 1), b + |f|);
  }

  lemma CloseAfter(key: string, f: string, s: string)
    ensures var u := "%{" + key + f + "}" + s;
      2 + |key| + |f| < |u| && u[2 + |key| + |f|] == '}'
  {
  }

  /** A `}` at `c` with none in `[lo, c)` is the first one from any `e` in between. */
  lemma CloseWithin(u: string, lo: nat, e: nat, c: nat)
    requires lo <= e <= c < |u| && u[c] == '}' && '}' !in u[lo..c]
    ensures FirstClose(u, e) == Some(c)
  {
    forall j | e <= j < c
      ensures u[j] != '}'
    {
      assert u[lo..c][j - lo] == u[j];
    }
    FirstCloseRun(u, e, c);
  }

  /** The last `|` inside the key run of `%{key|f'}` is the one opening `f`. */
  lemma BarLast(key: string, f: string, s: string)
    requires ValidFormat(f) && f[0] == '|'
    ensures var u, b := "%{" + key + f + "}" + s, 2 + |key|;
      LastBar(u, 2, b + KeyEnd(f, 1)) == Some(b)
  {
    var u, b := "%{" + key + f + "}" + s, 2 + |key|;
    TokenLayout(key, f, s);
    var e := b + KeyEnd(f, 1);
    forall j | b < j < e
      ensures u[j] != '|'
    {
      assert f[1..KeyEnd(f, 1)][j - b - 1] == f[j - b];
    }
    LastBarRun(u, 2, e, b);
  }

  /** In `%{key|f'}`, the key run stops where the key run of `f` after its
      `|` stops. */
  lemma BarKeyEnd(key: string, f: string, s: string)
    requires AllKeyChars(key) && ValidFormat(f) && f[0] == '|'
    ensures KeyEnd("%{" + key + f + "}" + s, 2) == 2 + |key| + KeyEnd(f, 1)
  {
    var u, b := "%{" + key + f + "}" + s, 2 + |key|;
    TokenLayout(key, f, s);
    var e := b + KeyEnd(f, 1);
    forall j | b < j < e
      ensures KeyChar(u[j])
    {
      assert f[1..KeyEnd(f, 1)][j - b - 1] == f[j - b];
    }
    KeyEndRun(u, 2, e);
  }

  lemma BarSlices(key: string, f: string, s: string)
    ensures var u, b := "%{" + key + f + "}" + s, 2 + |key|;
      u[2..b] == key && u[b..b + |f|] == f
  {
    var u, b := "%{" + key + f + "}" + s, 2 + |key|;
    TokenLayout(key, f, s);
    assert u[2..b] == key;
    assert u[b..b + |f|] == f;
  }

  /** `MatchAt` on a text whose key run stops at neither `}` nor `:`. */
  lemma MatchBarAt(u: string, e: nat, b: nat, c: nat)
    requires |u| >= 2 && u[0] == '%' && u[1] == '{'
    requires e == KeyEnd(u, 2) && e < |u| && u[e] != '}' && u[e] != ':'
    requires FirstClose(u, e) == Some(c) && LastBar(u, 2, e) == Some(b)
    ensures MatchAt(u) == Some(Match(u[2..b], Some(u[b..c]), c + 1))
  {
  }

  /** Every valid token at the head of the input is matched whole, with
      its own split into key and format. */
  lemma MatchToken(key: string, fmt: Option<string>, s: string)
    requires ValidToken(key, fmt)
    ensures MatchAt(Raw(key, fmt) + s) == Some(Match(key, fmt, |Raw(key, fmt)|))
  {
    match fmt
    case None =>
      MatchPlainHead(key, s);
    case Some(f) =>
      if f[0] == ':' {
        MatchColonHead(key, f, s);
      } else {
        MatchBarHead(key, f, s);
      }
  }

  /** The text up to a `}` at `c` is the token of key `s[2..c]`. */
  lemma RawPlain(s: string, c: nat)
    requires 2 <= c < |s| && s[0] == '%' && s[1] == '{' && s[c] == '}'
    ensures s[..c + 1] == Raw(s[2..c], None)
  {
    assert s[..c + 1] == "%{" + s[2..c] + "}";
  }

  /** The text up to a `}` at `c` is the token of key `s[2..p]` with
      format `s[p..c]`. */
  lemma RawFormatted(s: string, p: nat, c: nat)
    requires 2 <= p <= c < |s| && s[0] == '%' && s[1] == '{' && s[c] == '}'
    ensures s[..c + 1] == Raw(s[2..p], Some(s[p..c]))
  {
    assert s[..c + 1] == "%{" + s[2..p] + s[p..c] + "}";
  }

  /** A piece of scanned input: literal text or a token. */
  datatype Piece = Text(text: string) | Token(key: string, format: Option<string>)

  function Render(p: Piece): string
  {
    match p
    case Text(t) => t
    case Token(k, f) => Raw(k, f)
  }

  function RenderAll(ps: seq<Piece>): string
  {
    if ps == [] then "" else RenderAll(ps[..|ps| - 1]) + Render(ps[|ps| - 1])
  }

  /** `string.replace(TEMPLATE_STRING_REGEX, ...)` visits the matches left
      to right; a position where no match starts is copied as text. */
  function Scan(s: string): seq<Piece>
    decreases |s|
  {
    if s == [] then []
    else
      match MatchAt(s)
      case Some(m) => [Token(m.key, m.format)] + Scan(s[m.len..])
      case None => [Text([s[0]])] + Scan(s[1..])
  }

  lemma {:induction false} RenderAllCons(p: Piece, ps: seq<Piece>)
    ensures RenderAll([p] + ps) == Render(p) + RenderAll(ps)
    decreases |ps|
  {
    if ps != [] {
      var q := [p] + ps;
      var init := ps[..|ps| - 1];
      assert q[..|q| - 1] == [p] + init;
      assert q[|q| - 1] == ps[|ps| - 1];
      RenderAllCons(p, init);
      Assoc3(Render(p), RenderAll(init), Render(ps[|ps| - 1]));
    }
  }

  /** A first piece spelling the first `n` characters, followed by pieces
      spelling the rest, spells the whole input. */
  lemma RenderSplit(p: Piece, ps: seq<Piece>, s: string, n: nat)
    requires n <= |s| && Render(p) == s[..n] && RenderAll(ps) == s[n..]
    ensures RenderAll([p] + ps) == s
  {
    RenderAllCons(p, ps);
    TakeDrop(s, n);
  }

  /** Scanning loses nothing: the pieces spell out the input again, so the
      text outside tokens is kept as it is. */
  lemma {:induction false} ScanRoundTrip(s: string)
    ensures RenderAll(Scan(s)) == s
    decreases |s|
  {
    if s != [] {
      match MatchAt(s)
      case Some(m) =>
        ScanRoundTrip(s[m.len..]);
        RenderSplit(Token(m.key, m.format), Scan(s[m.len..]), s, m.len);
      case None =>
        ScanRoundTrip(s[1..]);
        RenderSplit(Text([s[0]]), Scan(s[1..]), s, 1);
    }
  }

  /** `|` is a key character: `%{x|Y}` is one key `x|Y` with no format. */
  lemma BarInsideKey()
    ensures MatchAt("%{x|Y}") == Some(Match("x|Y", None, 6))
  {
    var s := "%{x|Y}";
    assert KeyEnd(s, 5) == 5;
    assert KeyEnd(s, 2) == 5;
    assert s[2..5] == "x|Y";
  }

  /** A character outside the key class after the `|` makes the scanner
      back up to the `|`: `%{x|%Y}` is key `x` with the date format `|%Y`. */
  lemma BarOpensFormat()
    ensures MatchAt("%{x|%Y}") == Some(Match("x", Some("|%Y"), 7))
  {
    var s := "%{x|%Y}";
    assert KeyEnd(s, 4) == 4;
    assert KeyEnd(s, 2) == 4;
    assert FirstClose(s, 6) == Some(6);
    assert FirstClose(s, 4) == Some(6);
    assert LastBar(s, 2, 4) == Some(3);
    assert s[2..3] == "x";
    assert s[3..6] == "|%Y";
  }

  /** The key may be empty. */
  lemma EmptyKey()
    ensures MatchAt("%{}") == Some(Match("", None, 3))
  {
    assert KeyEnd("%{}", 2) == 2;
  }

  /** A `:` ends the key and opens a number format running to the first `}`. */
  lemma ColonOpensFormat()
    ensures MatchAt("%{y:.2f}") == Some(Match("y", Some(":.2f"), 8))
  {
    var s := "%{y:.2f}";
    assert KeyEnd(s, 3) == 3;
    assert KeyEnd(s, 2) == 3;
    assert FirstClose(s, 7) == Some(7);
    assert FirstClose(s, 3) == Some(7);
    assert s[2..3] == "y";
    assert s[3..7] == ":.2f";
  }

  /** Whitespace in the key (with no `|` to back up to) is not a token. */
  lemma SpaceIsNoToken()
    ensures MatchAt("%{a b}") == None
  {
    var s := "%{a b}";
    assert KeyEnd(s, 3) == 3;
    assert KeyEnd(s, 2) == 3;
    assert LastBar(s, 2, 2) == None;
    assert LastBar(s, 2, 3) == None;
  }
}
