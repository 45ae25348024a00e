/**
 * `numSeparate`: a number's text with its decimal point replaced and its
 * integer digits grouped in threes.
 */
module NumSeparate {
  import opened JsValue
  import opened SeqFacts

  datatype Outcome = Ok(text: string) | Throw(message: string)

  const SeparatorError := "Separator string required for formatting!"
  /** The TypeError of calling `split` on a value that is neither a number nor a string. */
  const SplitError := "value.split is not a function"

  predicate AllDigits(d: string)
  {
    forall i :: 0 <= i < |d| ==> IsDigit(d[i])
  }

  /** A run of digits with `sep` before every group of three counted from
      the right. */
  function Grouped(d: string, sep: char): (r: string)
    ensures |r| >= |d|
    ensures |d| >= 4 ==> |r| > |d|
    decreases |d|
  {
    if |d| <= 3 then d else Grouped(d[..|d| - 3], sep) + [sep] + d[|d| - 3..]
  }

  /** The reference grouping: every maximal run of digits of `x` grouped. */
  function GroupAll(x: string, sep: char): (r: string)
    ensures |r| >= |x|
    decreases |x|
  {
    if x == [] then []
    else if !IsDigit(x[0]) then [x[0]] + GroupAll(x[1..], sep)
    else
      var d := LeadingDigits(x);
      assert d[0] == x[0];
      Grouped(d, sep) + GroupAll(x[|d|..], sep)
  }

  /** `/(\d+)(\d{3})/.test(x)`: some run of four or more digits. */
  predicate HasLongRun(x: string)
    decreases |x|
  {
    x != [] &&
    if !IsDigit(x[0]) then HasLongRun(x[1..])
    else
      var n := |LeadingDigits(x)|;
      assert LeadingDigits(x)[0] == x[0];
      n >= 4 || HasLongRun(x[n..])
  }

  /** The intended effect of `x.replace(/(\d+)(\d{3})/, '$1' + sep + '$2')`:
      the first run of four or more digits gets `sep` before its last three.
      For every `sep` but `$` this is what the call does (`AsWrittenAgrees`);
      with `$` the call as written differs (`InsertOnceAsWritten`). */
  function InsertOnce(x: string, sep: char): (r: string)
    requires HasLongRun(x)
    ensures |r| == |x| + 1
    ensures !IsDigit(x[0]) ==> r[0] == x[0]
    decreases |x|
  {
    if !IsDigit(x[0]) then [x[0]] + InsertOnce(x[1..], sep)
    else
      var n := |LeadingDigits(x)|;
      assert LeadingDigits(x)[0] == x[0];
      if n >= 4 then x[..n - 3] + [sep] + x[n - 3..]
      else x[..n] + InsertOnce(x[n..], sep)
  }

  lemma {:induction false} LeadingDigitsOf(d: string, b: string)
    requires AllDigits(d)
    requires b == [] || !IsDigit(b[0])
    ensures LeadingDigits(d + b) == d
    decreases |d|
  {
    if d != [] {
      assert (d + b)[1..] == d[1..] + b;
      LeadingDigitsOf(d[1..], b);
      assert d == [d[0]] + d[1..];
    } else {
      assert d + b == b;
    }
  }

  lemma GroupAllDigits(d: string, b: string, sep: char)
    requires d != [] && AllDigits(d)
    requires b == [] || !IsDigit(b[0])
    ensures GroupAll(d + b, sep) == Grouped(d, sep) + GroupAll(b, sep)
  {
    LeadingDigitsOf(d, b);
    assert (d + b)[|d|..] == b;
  }

  lemma GroupAllOther(c: char, b: string, sep: char)
    requires !IsDigit(c)
    ensures GroupAll([c] + b, sep) == [c] + GroupAll(b, sep)
  {
    assert ([c] + b)[1..] == b;
  }

  /** Inserting `sep` before the last three digits of a run does not
      change the run's grouping. */
  lemma SplitRun(hi: string, lo: string, rest: string, sep: char, t: string, u: string)
    requires hi != [] && AllDigits(hi) && |lo| == 3 && AllDigits(lo) && !IsDigit(sep)
    requires rest == [] || !IsDigit(rest[0])
    requires t == lo + rest && u == [sep] + t
    ensures GroupAll(hi + u, sep) == Grouped(hi, sep) + [sep] + lo + GroupAll(rest, sep)
  {
    var g := GroupAll(rest, sep);
    assert GroupAll(t, sep) == lo + g by {
      GroupAllDigits(lo, rest, sep);
    }
    assert GroupAll(u, sep) == [sep] + (lo + g) by {
      GroupAllOther(sep, t, sep);
    }
    assert GroupAll(hi + u, sep) == Grouped(hi, sep) + ([sep] + (lo + g)) by {
      GroupAllDigits(hi, u, sep);
    }
    Assoc4(Grouped(hi, sep), [sep], lo, g);
  }

  lemma GroupedSplit(hi: string, lo: string, sep: char)
    requires hi != [] && |lo| == 3
    ensures Grouped(hi + lo, sep) == Grouped(hi, sep) + [sep] + lo
  {
    var d := hi + lo;
    assert d[..|d| - 3] == hi && d[|d| - 3..] == lo;
  }

  lemma InsertOnceHere(x: string, sep: char)
    requires x != [] && IsDigit(x[0]) && |LeadingDigits(x)| >= 4 && !IsDigit(sep)
    ensures HasLongRun(x)
    ensures GroupAll(InsertOnce(x, sep), sep) == GroupAll(x, sep)
  {
    var n := |LeadingDigits(x)|;
    var hi, lo, rest := x[..n - 3], x[n - 3..n], x[n..];
    RunGrouping(x, sep);
    RunInsertion(x, sep);
    SplitRun(hi, lo, rest, sep, lo + rest, [sep] + (lo + rest));
  }

  /** The grouping of a text that starts with a run of four or more digits,
      cut before the run's last three. */
  lemma RunGrouping(x: string, sep: char)
    requires x != [] && IsDigit(x[0]) && |LeadingDigits(x)| >= 4
    ensures var n := |LeadingDigits(x)|;
      GroupAll(x, sep) == Grouped(x[..n - 3], sep) + [sep] + x[n - 3..n] + GroupAll(x[n..], sep)
  {
    var d := LeadingDigits(x);
    var n := |d|;
    var hi, lo, rest := x[..n - 3], x[n - 3..n], x[n..];
    assert x == d + rest;
    GroupAllDigits(d, rest, sep);
    assert hi + lo == d;
    GroupedSplit(hi, lo, sep);
  }

  /** The intended step on a text that starts with a run of four or more
      digits, in the shape `SplitRun` takes. */
  lemma RunInsertion(x: string, sep: char)
    requires x != [] && IsDigit(x[0]) && |LeadingDigits(x)| >= 4
    ensures HasLongRun(x)
    ensures var n := |LeadingDigits(x)|;
      InsertOnce(x, sep) == x[..n - 3] + ([sep] + (x[n - 3..n] + x[n..]))
  {
    var n := |LeadingDigits(x)|;
    assert x[n - 3..] == x[n - 3..n] + x[n..];
    Assoc3(x[..n - 3], [sep], x[n - 3..]);
  }

  /** One replacement step leaves the reference grouping unchanged. */
  lemma {:induction false} InsertOnceGroups(x: string, sep: char)
    requires HasLongRun(x) && !IsDigit(sep)
    ensures GroupAll(InsertOnce(x, sep), sep) == GroupAll(x, sep)
    decreases |x|
  {
    if !IsDigit(x[0]) {
      InsertOnceGroups(x[1..], sep);
      GroupAllOther(x[0], InsertOnce(x[1..], sep), sep);
      GroupAllOther(x[0], x[1..], sep);
      assert x == [x[0]] + x[1..];
    } else {
      var d := LeadingDigits(x);
      var n := |d|;
      assert d[0] == x[0];
      if n >= 4 {
        InsertOnceHere(x, sep);
      } else {
        assert x == d + x[n..];
        InsertOnceGroups(x[n..], sep);
        GroupAllDigits(d, x[n..], sep);
        GroupAllDigits(d, InsertOnce(x[n..], sep), sep);
        assert x[..n] == d;
      }
    }
  }

  /** Without a run of four digits there is nothing to group. */
  lemma {:induction false} NoLongRunFixed(x: string, sep: char)
    requires !HasLongRun(x)
    ensures GroupAll(x, sep) == x
    decreases |x|
  {
    if x != [] {
      if !IsDigit(x[0]) {
        NoLongRunFixed(x[1..], sep);
        assert x == [x[0]] + x[1..];
      } else {
        var d := LeadingDigits(x);
        assert d[0] == x[0];
        NoLongRunFixed(x[|d|..], sep);
        assert x == d + x[|d|..];
      }
    }
  }

  /** A run of four digits makes the grouping longer, so the replacement
      loop ends. */
  lemma {:induction false} LongRunLengthens(x: string, sep: char)
    requires HasLongRun(x)
    ensures |GroupAll(x, sep)| > |x|
    decreases |x|
  {
    if !IsDigit(x[0]) {
      LongRunLengthens(x[1..], sep);
    } else {
      var d := LeadingDigits(x);
      assert d[0] == x[0];
      if |d| < 4 {
        LongRunLengthens(x[|d|..], sep);
      }
    }
  }

  /** `numSeparate(value, separators, separatethousands)`. A number is
      written with `String`; the text is split at `.`; the decimal part gets
      `separators[0]`; and when there is a thousands separator and a
      decimal part, an integer part longer than four characters or the
      flag, the integer part is grouped. */
  function NumSeparateSpec(value: Value, separators: Value, separatethousands: bool): Outcome
  {
    if !separators.Str? || |separators.s| == 0 then Throw(SeparatorError)
    else if !(value.Num? || value.Str?) then Throw(SplitError)
    else
      var text := if value.Num? then IntToString(value.n) else value.s;
      var x := Split(text, '.');
      var x1 := x[0];
      var x2 := if |x| > 1 then [separators.s[0]] + x[1] else "";
      if |separators.s| >= 2 && (|x| > 1 || |x1| > 4 || separatethousands) then
        Ok(GroupAll(x1, separators.s[1]) + x2)
      else Ok(x1 + x2)
  }

  /** The source's `while` loop with its replacement step taken as
      `InsertOnce`, proved to produce the reference grouping. That step is
      the source's own for every separator but `$`; with `$` this method
      computes the intended grouping, not the source's result. A digit as
      thousands separator makes the loop run forever, so it is excluded. */
  method NumSeparate(value: Value, separators: Value, separatethousands: bool) returns (r: Outcome)
    requires separators.Str? && |separators.s| >= 2 ==> !IsDigit(separators.s[1])
    ensures r == NumSeparateSpec(value, separators, separatethousands)
  {
    if !separators.Str? || |separators.s| == 0 {
      return Throw(SeparatorError);
    }
    var text: string;
    if value.Num? {
      text := IntToString(value.n);
    } else if value.Str? {
      text := value.s;
    } else {
      return Throw(SplitError);
    }
    var decimalSep := separators.s[0];
    var x := Split(text, '.');
    var x1 := x[0];
    var x2 := if |x| > 1 then [decimalSep] + x[1] else "";
    if |separators.s| >= 2 && (|x| > 1 || |x1| > 4 || separatethousands) {
      var thouSep := separators.s[1];
      ghost var target := GroupAll(x1, thouSep);
      while HasLongRun(x1)
        invariant GroupAll(x1, thouSep) == target
        decreases |target| - |x1|
      {
        LongRunLengthens(x1, thouSep);
        InsertOnceGroups(x1, thouSep);
        x1 := InsertOnce(x1, thouSep);
      }
      NoLongRunFixed(x1, thouSep);
    }
    r := Ok(x1 + x2);
  }

  /** `s` with every `c` removed. */
  function Strip(s: string, c: char): (r: string)
    ensures c !in r
  {
    if s == [] then [] else (if s[0] == c then [] else [s[0]]) + Strip(s[1..], c)
  }

  lemma {:induction false} StripAppend(a: string, b: string, c: char)
    ensures Strip(a + b, c) == Strip(a, c) + Strip(b, c)
    decreases |a|
  {
    if a == [] {
      assert a + b == b;
    } else {
      var h := if a[0] == c then [] else [a[0]];
      assert (a + b)[1..] == a[1..] + b;
      assert Strip(a + b, c) == h + Strip(a[1..] + b, c);
      StripAppend(a[1..], b, c);
      Assoc3(h, Strip(a[1..], c), Strip(b, c));
    }
  }

  lemma {:induction false} StripGrouped(d: string, sep: char)
    requires AllDigits(d) && !IsDigit(sep)
    ensures Strip(Grouped(d, sep), sep) == d
    decreases |d|
  {
    if |d| <= 3 {
      StripNone(d, sep);
    } else {
      var hi, lo := d[..|d| - 3], d[|d| - 3..];
      var g := Grouped(hi, sep);
      assert Grouped(d, sep) == g + [sep] + lo;
      assert Strip(g + [sep], sep) == hi by {
        StripAppend(g, [sep], sep);
        assert Strip([sep], sep) == [] by {
          assert [sep][1..] == [];
        }
        StripGrouped(hi, sep);
        assert hi + [] == hi;
      }
      assert Strip(lo, sep) == lo by {
        assert sep !in lo;
        StripNone(lo, sep);
      }
      StripAppend(g + [sep], lo, sep);
      assert hi + lo == d;
    }
  }

  lemma {:induction false} StripNone(s: string, c: char)
    requires c !in s
    ensures Strip(s, c) == s
    decreases |s|
  {
    if s != [] {
      StripNone(s[1..], c);
      assert s == [s[0]] + s[1..];
    }
  }

  /** Removing the separators gives back the integer part: grouping only
      inserts separators. */
  lemma {:induction false} StripGroupAll(x: string, sep: char)
    requires !IsDigit(sep) && sep !in x
    ensures Strip(GroupAll(x, sep), sep) == x
    decreases |x|
  {
    if x != [] {
      if !IsDigit(x[0]) {
        StripGroupAll(x[1..], sep);
        StripAppend([x[0]], GroupAll(x[1..], sep), sep);
        assert Strip([x[0]], sep) == [x[0]];
        assert x == [x[0]] + x[1..];
      } else {
        var d := LeadingDigits(x);
        assert d[0] == x[0];
        assert x == d + x[|d|..];
        StripGroupAll(x[|d|..], sep);
        StripGrouped(d, sep);
        StripAppend(Grouped(d, sep), GroupAll(x[|d|..], sep), sep);
      }
    }
  }

  /** Only a non-empty separator string is accepted. */
  lemma SeparatorsRequired(value: Value, separators: Value, separatethousands: bool)
    requires value.Num? || value.Str?
    ensures NumSeparateSpec(value, separators, separatethousands) == Throw(SeparatorError) <==>
              !separators.Str? || separators.s == []
    ensures NumSeparateSpec(value, separators, separatethousands).Throw? ==>
              NumSeparateSpec(value, separators, separatethousands) == Throw(SeparatorError)
  {
  }

  /** A text with one `.`: the `.` becomes `separators[0]`, the integer
      part is grouped when there is a thousands separator, and the decimal
      digits are kept as they are. */
  lemma DecimalPoint(a: string, b: string, separators: string, separatethousands: bool)
    requires '.' !in a && '.' !in b && separators != []
    ensures NumSeparateSpec(Str(a + "." + b), Str(separators), separatethousands) ==
              Ok((if |separators| >= 2 then GroupAll(a, separators[1]) else a) + [separators[0]] + b)
  {
    var text := a + "." + b;
    assert Split(text, '.') == [a, b] by {
      SplitCons(a, '.', b);
      assert text == a + ['.'] + b;
      assert Split(b, '.') == [b];
    }
    var pre := if |separators| >= 2 then GroupAll(a, separators[1]) else a;
    assert NumSeparateSpec(Str(text), Str(separators), separatethousands) == Ok(pre + ([separators[0]] + b));
    Assoc3(pre, [separators[0]], b);
  }

  /** Up to four characters without a `.` and without the flag are left
      alone, so years print without a separator. */
  lemma ShortIntegersKept(text: string, separators: string)
    requires '.' !in text && |text| <= 4 && separators != []
    ensures NumSeparateSpec(Str(text), Str(separators), false) == Ok(text)
  {
    assert text + "" == text;
  }

  /** `numSeparate(2016, '.,')` is `'2016'`. */
  lemma YearExample(value: Value, separators: Value)
    requires value == Num(2016) && separators == Str(".,")
    ensures NumSeparateSpec(value, separators, false) == Ok("2016")
  {
    NatStep(2016);
    NatStep(201);
    NatStep(20);
    assert IntToString(2016) == "2016";
    ShortIntegersKept("2016", ".,");
  }

  lemma NatStep(n: nat)
    requires n >= 10
    ensures NatToString(n) == NatToString(n / 10) + ['0' + (n % 10) as char]
  {
  }

  /** `numSeparate(3000, '.,', true)` is `'3,000'`. */
  lemma FlagExample(value: Value, separators: Value)
    requires value == Num(3000) && separators == Str(".,")
    ensures NumSeparateSpec(value, separators, true) == Ok("3,000")
  {
    var t := "3000";
    ThreeThousandText();
    assert Split(t, '.') == [t];
    ThreeThousandGrouped();
    assert NumSeparateSpec(value, separators, true) == Ok("3,000" + "");
    assert "3,000" + "" == "3,000";
  }

  lemma ThreeThousandText()
    ensures IntToString(3000) == "3000"
  {
    NatStep(3000);
    NatStep(300);
    NatStep(30);
  }

  lemma ThreeThousandGrouped()
    ensures GroupAll("3000", ',') == "3,000"
  {
    var t := "3000";
    GroupDigitsOnly(t, ',');
    assert t[..1] == "3" && t[1..] == "000";
  }

  /** The grouping of a text that is one run of digits. */
  lemma GroupDigitsOnly(d: string, sep: char)
    requires d != [] && AllDigits(d)
    ensures GroupAll(d, sep) == Grouped(d, sep)
  {
    GroupAllDigits(d, [], sep);
    assert d + [] == d;
  }

  /** A four-digit integer part with a decimal part. */
  lemma FourDigitsWithDecimals(d: string, b: string, dec: char, thou: char)
    requires |d| == 4 && AllDigits(d) && '.' !in b
    ensures NumSeparateSpec(Str(d + "." + b), Str([dec, thou]), false) ==
              Ok([d[0], thou] + d[1..] + [dec] + b)
  {
    DecimalPoint(d, b, [dec, thou], false);
    assert GroupAll(d, thou) == [d[0], thou] + d[1..] by {
      GroupDigitsOnly(d, thou);
      assert d[..1] == [d[0]] && d[1..] == d[|d| - 3..];
    }
  }

  /** `numSeparate('1234.56', '|,')` is `'1,234|56'`; the source documents
      this with the number `1234.56`, whose `String` is the same text. */
  lemma DecimalExample(value: Value, separators: Value)
    requires value == Str("1234.56") && separators == Str("|,")
    ensures NumSeparateSpec(value, separators, false) == Ok("1,234|56")
  {
    var d, b := "1234", "56";
    assert value.s == d + "." + b;
    DecimalPoint(d, b, "|,", false);
    DecimalGrouped();
    DecimalJoined();
  }

  lemma DecimalGrouped()
    ensures GroupAll("1234", ',') == "1,234"
  {
    var d := "1234";
    GroupDigitsOnly(d, ',');
    assert d[..1] == "1" && d[1..] == "234";
  }

  lemma DecimalJoined()
    ensures "1,234" + ['|'] + "56" == "1,234|56"
  {
  }

  // The replacement string `'$1' + thouSep + '$2'` is itself a pattern of
  // `String.prototype.replace`: with `$` as thousands separator it reads
  // `$1$$2`, where `$$` is a literal `$` and the `2` after it plain text.

  /** The substitution of a replacement pattern limited to `$$`, `$1` and
      `$2`, the only forms `'$1' + c + '$2'` can hold for a non-digit `c`. */
  function ExpandReplacement(t: string, g1: string, g2: string): string
    decreases |t|
  {
    if t == [] then []
    else if t[0] == '$' && |t| >= 2 && t[1] == '$' then "$" + ExpandReplacement(t[2..], g1, g2)
    else if t[0] == '$' && |t| >= 2 && t[1] == '1' then g1 + ExpandReplacement(t[2..], g1, g2)
    else if t[0] == '$' && |t| >= 2 && t[1] == '2' then g2 + ExpandReplacement(t[2..], g1, g2)
    else [t[0]] + ExpandReplacement(t[1..], g1, g2)
  }

  /** The replacement step as the source writes it. */
  function InsertOnceAsWritten(x: string, sep: char): string
    requires HasLongRun(x)
    decreases |x|
  {
    if !IsDigit(x[0]) then [x[0]] + InsertOnceAsWritten(x[1..], sep)
    else
      var n := |LeadingDigits(x)|;
      assert LeadingDigits(x)[0] == x[0];
      if n >= 4 then ExpandReplacement("$1" + [sep] + "$2", x[..n - 3], x[n - 3..n]) + x[n..]
      else x[..n] + InsertOnceAsWritten(x[n..], sep)
  }

  lemma ExpandGroup(k: char, rest: string, g1: string, g2: string)
    requires k == '1' || k == '2'
    ensures ExpandReplacement(['$', k] + rest, g1, g2) == (if k == '1' then g1 else g2) + ExpandReplacement(rest, g1, g2)
  {
    assert (['$', k] + rest)[2..] == rest;
  }

  lemma ExpandDollar(rest: string, g1: string, g2: string)
    ensures ExpandReplacement(['$', '$'] + rest, g1, g2) == "$" + ExpandReplacement(rest, g1, g2)
  {
    assert (['$', '$'] + rest)[2..] == rest;
  }

  lemma ExpandOther(c: char, rest: string, g1: string, g2: string)
    requires c != '$'
    ensures ExpandReplacement([c] + rest, g1, g2) == [c] + ExpandReplacement(rest, g1, g2)
  {
    assert ([c] + rest)[1..] == rest;
  }

  lemma ReplacementPlain(sep: char, g1: string, g2: string)
    requires sep != '$'
    ensures ExpandReplacement("$1" + [sep] + "$2", g1, g2) == g1 + [sep] + g2
  {
    var tail := ['$', '2'] + [];
    assert "$1" + [sep] + "$2" == ['$', '1'] + ([sep] + tail);
    ExpandGroup('1', [sep] + tail, g1, g2);
    ExpandOther(sep, tail, g1, g2);
    ExpandGroup('2', [], g1, g2);
  }

  /** With `$` as separator the pattern is `$1$$2`. */
  lemma ReplacementDollar(g1: string, g2: string)
    ensures ExpandReplacement("$1" + ['$'] + "$2", g1, g2) == g1 + "$2"
  {
    var tail := ['2'] + [];
    assert "$1" + ['$'] + "$2" == ['$', '1'] + (['$', '$'] + tail);
    ExpandGroup('1', ['$', '$'] + tail, g1, g2);
    ExpandDollar(tail, g1, g2);
    ExpandOther('2', [], g1, g2);
  }

  /** For every separator but `$` the step as written is the intended one. */
  lemma {:induction false} AsWrittenAgrees(x: string, sep: char)
    requires HasLongRun(x) && sep != '$'
    ensures InsertOnceAsWritten(x, sep) == InsertOnce(x, sep)
    decreases |x|
  {
    if !IsDigit(x[0]) {
      AsWrittenAgrees(x[1..], sep);
    } else {
      var n := |LeadingDigits(x)|;
      assert LeadingDigits(x)[0] == x[0];
      if n >= 4 {
        AsWrittenHere(x, sep);
      } else {
        AsWrittenAgrees(x[n..], sep);
      }
    }
  }

  lemma AsWrittenHere(x: string, sep: char)
    requires x != [] && IsDigit(x[0]) && |LeadingDigits(x)| >= 4 && sep != '$'
    ensures HasLongRun(x)
    ensures InsertOnceAsWritten(x, sep) == InsertOnce(x, sep)
  {
    var n := |LeadingDigits(x)|;
    var g1, g2, rest := x[..n - 3], x[n - 3..n], x[n..];
    assert InsertOnceAsWritten(x, sep) == g1 + [sep] + g2 + rest by {
      ReplacementPlain(sep, g1, g2);
    }
    assert InsertOnce(x, sep) == g1 + [sep] + (g2 + rest) by {
      assert x[n - 3..] == g2 + rest;
    }
    Assoc3(g1 + [sep], g2, rest);
  }

  /** With `$` as separator, a run of four to six digits loses its last
      three and gets `$2` in their place, leaving no run of four digits. */
  lemma DollarStep(hi: string, lo: string)
    requires hi != [] && |hi| <= 3 && AllDigits(hi) && |lo| == 3 && AllDigits(lo)
    ensures HasLongRun(hi + lo)
    ensures InsertOnceAsWritten(hi + lo, '$') == hi + "$2"
    ensures !HasLongRun(hi + "$2")
  {
    var x := hi + lo;
    LeadingDigitsOf(x, []);
    assert x + [] == x;
    assert x[..|x| - 3] == hi && x[|x| - 3..|x|] == lo && x[|x|..] == [];
    ReplacementDollar(hi, lo);
    var y := hi + "$2";
    LeadingDigitsOf(hi, "$2");
    var z := "$2";
    assert y[|hi|..] == z;
    assert z[1..] == "2";
    LeadingDigitsOf("2", []);
    assert "2" + [] == "2" && "2"[1..] == [];
  }

  /** `numSeparate(12345, '.$')` runs one step as written and returns
      `'12$2'`; the intended step gives `'12$345'`, which still spells out
      the digits. */
  lemma DollarSeparatorLosesDigits(x: string)
    requires x == "12345"
    ensures HasLongRun(x)
    ensures InsertOnceAsWritten(x, '$') == "12$2" && !HasLongRun("12$2")
    ensures GroupAll(x, '$') == "12$345" && Strip(GroupAll(x, '$'), '$') == x
  {
    var hi, lo := "12", "345";
    assert HasLongRun(x) && InsertOnceAsWritten(x, '$') == "12$2" && !HasLongRun("12$2") by {
      assert x == hi + lo;
      DollarStep(hi, lo);
      assert hi + "$2" == "12$2";
    }
    DollarGrouped();
    StripGroupAll(x, '$');
  }

  lemma DollarGrouped()
    ensures GroupAll("12345", '$') == "12$345"
  {
    var x := "12345";
    GroupDigitsOnly(x, '$');
    assert x[..2] == "12" && x[2..] == "345";
  }
}
