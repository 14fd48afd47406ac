/**
  The comma separated slices that select time steps: printing, parsing, and testing a step. Text is split the way the
  regular expression iterator does: an empty token at the end is not produced.
 */
module TimeSlices {
  import opened Arith

  const UINT32 := 0x1_0000_0000
  const ULONG := 0x1_0000_0000_0000_0000
  const OPEN_END := 0xFFFF_FFFF

  datatype Slice = Slice(begin: nat, end: nat, period: nat)

  datatype Result<T> = Ok(value: T) | Err

  // ----- numbers -----

  predicate IsDigit(c: char) {
    '0' <= c <= '9'
  }

  predicate IsNumber(s: string) {
    forall i :: 0 <= i < |s| ==> IsDigit(s[i])
  }

  function DigitChar(d: nat): (c: char)
    requires d < 10
    ensures IsDigit(c)
  {
    '0' + d as char
  }

  /** The decimal digits of n. */
  function Decimal(n: nat): (s: string)
    ensures s != "" && IsNumber(s)
  {
    if n < 10 then [DigitChar(n)] else Decimal(n / 10) + [DigitChar(n % 10)]
  }

  /** The number that a string of digits stands for. */
  function Number(s: string): nat
    requires IsNumber(s)
  {
    if s == "" then 0 else Number(s[..|s| - 1]) * 10 + (s[|s| - 1] - '0') as nat
  }

  lemma {:induction false} NumberOfDecimal(n: nat)
    ensures Number(Decimal(n)) == n
  {
    if n >= 10 {
      NumberOfDecimal(n / 10);
      assert Decimal(n)[..|Decimal(n)| - 1] == Decimal(n / 10);
    } else {
      assert Number(Decimal(n)[..0]) == 0;
    }
  }

  // ----- splitting -----

  /** The part of s before the first d. */
  function Upto(s: string, d: char): (t: string)
    ensures t <= s && d !in t && (d in s ==> |t| < |s| && s[|t|] == d) && (d !in s ==> t == s)
  {
    if s == "" then ""
    else if s[0] == d then ""
    else
      assert s == [s[0]] + s[1..];
      [s[0]] + Upto(s[1..], d)
  }

  function Tokens(s: string, d: char): (ts: seq<string>)
    ensures s != "" ==> ts != []
    decreases |s|
  {
    if s == "" then []
    else if d !in s then [s]
    else [Upto(s, d)] + Tokens(s[|Upto(s, d)| + 1..], d)
  }

  /** splitString: a text without any separator is its own only token, even if it is empty. */
  function Split(s: string, d: char): seq<string> {
    if s == "" then [""] else Tokens(s, d)
  }

  lemma {:induction false} UptoFirst(a: string, b: string, d: char)
    requires d !in a
    ensures Upto(a + [d] + b, d) == a
  {
    var s := a + [d] + b;
    if a == "" {
      assert s[0] == d;
    } else {
      assert s[1..] == a[1..] + [d] + b;
      UptoFirst(a[1..], b, d);
    }
  }

  lemma TokensAfter(a: string, b: string, d: char)
    requires d !in a
    ensures Tokens(a + [d] + b, d) == [a] + Tokens(b, d)
  {
    var s := a + [d] + b;
    assert s[|a|] == d;
    UptoFirst(a, b, d);
    assert s[|a| + 1..] == b;
  }

  lemma TokensOfOne(a: string, d: char)
    requires d !in a && a != ""
    ensures Tokens(a, d) == [a]
  {
  }

  // ----- parsing -----

  /** std::stoul followed by a cast to 32 bits; a text that is no number has no value, "-1" wraps round. */
  function Parsed(s: string): Result<nat>
    requires s != "" && (IsNumber(s) || s == "-1")
  {
    if s == "-1" then Ok(OPEN_END)
    else if Number(s) >= ULONG then Err
    else Ok(Number(s) % UINT32)
  }

  function WithValue(s: Slice, idx: nat, v: nat): Slice {
    if idx == 0 then s.(begin := v) else if idx == 1 then s.(end := v) else s.(period := v)
  }

  /** An empty component keeps the default; a period must not be zero. */
  function SetValue(s: Slice, idx: nat, text: string): Result<Slice>
    requires text == "" || IsNumber(text) || text == "-1"
  {
    if text == "" then Ok(s)
    else match Parsed(text)
      case Err => Err
      case Ok(v) => if idx == 2 && v == 0 then Err else Ok(WithValue(s, idx, v))
  }

  predicate Allowed(idx: nat, text: string) {
    text == "" || IsNumber(text) || (idx == 1 && text == "-1")
  }

  /** The first k components applied to the default slice. */
  function Components(texts: seq<string>, k: nat, fill: Slice -> Slice): Result<Slice>
    requires k <= |texts|
  {
    if k == 0 then Ok(Slice(0, OPEN_END, 1))
    else match Components(texts, k - 1, fill)
      case Err => Err
      case Ok(s) =>
        if !Allowed(k - 1, texts[k - 1]) then Err
        else match SetValue(s, k - 1, texts[k - 1])
          case Err => Err
          case Ok(t) => Ok(if |texts| == 1 then fill(t) else t)
  }

  /** One slice; components after the third are ignored. */
  function ParseSlice(text: string, fill: Slice -> Slice): Result<Slice> {
    var texts := Split(text + ":", ':');
    Components(texts, if |texts| < 3 then |texts| else 3, fill)
  }

  /** The slices of the first k texts; empty texts are skipped. */
  function ParseAll(texts: seq<string>, k: nat, fill: Slice -> Slice): Result<seq<Slice>>
    requires k <= |texts|
  {
    if k == 0 then Ok([])
    else match ParseAll(texts, k - 1, fill)
      case Err => Err
      case Ok(slices) =>
        if texts[k - 1] == "" then Ok(slices)
        else match ParseSlice(texts[k - 1], fill)
          case Err => Err
          case Ok(s) => Ok(slices + [s])
  }

  function Parse(text: string, fill: Slice -> Slice): Result<seq<Slice>> {
    ParseAll(Split(text, ','), |Split(text, ',')|, fill)
  }

  lemma {:induction false} ErrorStays(texts: seq<string>, k: nat, m: nat, fill: Slice -> Slice)
    requires k <= m <= |texts| && ParseAll(texts, k, fill).Err?
    ensures ParseAll(texts, m, fill).Err?
  {
    if k < m {
      ErrorStays(texts, k, m - 1, fill);
    }
  }

  lemma {:induction false} ComponentErrorStays(texts: seq<string>, k: nat, m: nat, fill: Slice -> Slice)
    requires k <= m <= |texts| && Components(texts, k, fill).Err?
    ensures Components(texts, m, fill).Err?
  {
    if k < m {
      ComponentErrorStays(texts, k, m - 1, fill);
    }
  }

  /** The inner loop of toSlice over the components of one slice. */
  method ReadComponents(texts: seq<string>, fill: Slice -> Slice) returns (r: Result<Slice>)
    requires texts != []
    ensures r == Components(texts, if |texts| < 3 then |texts| else 3, fill)
  {
    ghost var last := if |texts| < 3 then |texts| else 3;
    var n: nat := 0;
    var sliceOnly := |texts| == 1;
    var rangeSlice := Slice(0, OPEN_END, 1);
    while n < |texts|
      invariant n <= last && Components(texts, n, fill) == Ok(rangeSlice)
    {
      if n == 3 {
        break;
      }
      if !Allowed(n, texts[n]) {
        ComponentErrorStays(texts, n + 1, last, fill);
        return Err;
      }
      var updated := SetValue(rangeSlice, n, texts[n]);
      if updated.Err? {
        ComponentErrorStays(texts, n + 1, last, fill);
        return Err;
      }
      rangeSlice := updated.value;
      if sliceOnly {
        rangeSlice := fill(rangeSlice);
      }
      n := n + 1;
    }
    r := Ok(rangeSlice);
  }

  /** toSlice; the error result stands for the exceptions of the checks and of the number conversion. */
  method ToSlice(text: string, fill: Slice -> Slice) returns (r: Result<seq<Slice>>)
    ensures r == Parse(text, fill)
  {
    hide Components;
    var texts := Split(text, ',');
    var slices: seq<Slice> := [];
    for i := 0 to |texts|
      invariant ParseAll(texts, i, fill) == Ok(slices)
    {
      if texts[i] != "" {
        var s := ReadComponents(Split(texts[i] + ":", ':'), fill);
        if s.Err? {
          ErrorStays(texts, i + 1, |texts|, fill);
          return Err;
        }
        slices := slices + [s.value];
      }
    }
    r := Ok(slices);
  }

  /** A single number is a period. */
  function TimeFill(s: Slice): Slice {
    Slice(0, OPEN_END, s.begin)
  }

  /** A single number N is N:N+1:1. */
  function RangeFill(s: Slice): Slice {
    Slice(s.begin, (s.begin + 1) % UINT32, 1)
  }

  function ToTimeSlice(text: string): Result<seq<Slice>> {
    Parse(text, TimeFill)
  }

  function ToRangeSlice(text: string): Result<seq<Slice>> {
    Parse(text, RangeFill)
  }

  // ----- printing and reading back -----

  predicate Valid(s: Slice) {
    s.begin < UINT32 && s.end < UINT32 && 0 < s.period < UINT32
  }

  function ToString(s: Slice): string {
    Decimal(s.begin) + ":" + Decimal(s.end) + ":" + Decimal(s.period)
  }

  /** The slices, printed and separated by commas. */
  function Joined(slices: seq<Slice>): string {
    if slices == [] then ""
    else if |slices| == 1 then ToString(slices[0])
    else ToString(slices[0]) + "," + Joined(slices[1..])
  }

  lemma NoSeparators(s: string)
    requires IsNumber(s)
    ensures ':' !in s && ',' !in s && s != "-1"
  {
    if s != "" {
      assert IsDigit(s[0]);
    }
  }

  lemma ComponentsOfPrinted(s: Slice)
    ensures Split(ToString(s) + ":", ':') == [Decimal(s.begin), Decimal(s.end), Decimal(s.period)]
    ensures ',' !in ToString(s) && ToString(s) != ""
  {
    var a, b, c := Decimal(s.begin), Decimal(s.end), Decimal(s.period);
    NoSeparators(a);
    NoSeparators(b);
    NoSeparators(c);
    assert ToString(s) + ":" == a + ":" + (b + ":" + (c + ":" + ""));
    TokensAfter(a, b + ":" + (c + ":" + ""), ':');
    TokensAfter(b, c + ":" + "", ':');
    TokensAfter(c, "", ':');
    assert Tokens("", ':') == [];
  }

  lemma ParseDecimal(n: nat)
    requires n < UINT32
    ensures Parsed(Decimal(n)) == Ok(n)
  {
    hide Decimal, Number, IsNumber;
    NoSeparators(Decimal(n));
    NumberOfDecimal(n);
  }

  /** What is printed for a slice is read as that slice. */
  lemma SliceRoundTrip(s: Slice, fill: Slice -> Slice)
    requires Valid(s)
    ensures ParseSlice(ToString(s), fill) == Ok(s)
  {
    hide Decimal, Parsed;
    ComponentsOfPrinted(s);
    ParseDecimal(s.begin);
    ParseDecimal(s.end);
    ParseDecimal(s.period);
    var texts := [Decimal(s.begin), Decimal(s.end), Decimal(s.period)];
    assert Components(texts, 0, fill) == Ok(Slice(0, OPEN_END, 1));
    assert Components(texts, 1, fill) == Ok(Slice(s.begin, OPEN_END, 1));
    assert Components(texts, 2, fill) == Ok(Slice(s.begin, s.end, 1));
    assert Components(texts, 3, fill) == Ok(s);
  }

  function Printed(slices: seq<Slice>): (ts: seq<string>)
    ensures |ts| == |slices| && forall i :: 0 <= i < |slices| ==> ts[i] == ToString(slices[i])
  {
    seq(|slices|, i requires 0 <= i < |slices| => ToString(slices[i]))
  }

  lemma {:induction false} TokensOfJoined(slices: seq<Slice>)
    requires slices != []
    ensures Joined(slices) != "" && Tokens(Joined(slices), ',') == Printed(slices)
    decreases |slices|
  {
    hide ToString, Tokens, Split;
    ComponentsOfPrinted(slices[0]);
    if |slices| == 1 {
      TokensOfOne(ToString(slices[0]), ',');
    } else {
      TokensOfJoined(slices[1..]);
      TokensAfter(ToString(slices[0]), Joined(slices[1..]), ',');
      assert Printed(slices) == [ToString(slices[0])] + Printed(slices[1..]);
    }
  }

  lemma {:induction false} ParsePrinted(slices: seq<Slice>, k: nat, fill: Slice -> Slice)
    requires k <= |slices| && forall i :: 0 <= i < |slices| ==> Valid(slices[i])
    ensures ParseAll(Printed(slices), k, fill) == Ok(slices[..k])
  {
    hide ToString, ParseSlice;
    if k > 0 {
      ParsePrinted(slices, k - 1, fill);
      ComponentsOfPrinted(slices[k - 1]);
      SliceRoundTrip(slices[k - 1], fill);
      assert slices[..k] == slices[..k - 1] + [slices[k - 1]];
    }
  }

  /** Reading the printed form of any list of slices with non-zero period gives back that list. */
  lemma RoundTrip(slices: seq<Slice>, fill: Slice -> Slice)
    requires forall i :: 0 <= i < |slices| ==> Valid(slices[i])
    ensures Parse(Joined(slices), fill) == Ok(slices)
  {
    hide ToString, ParseSlice;
    if slices == [] {
      assert Split("", ',') == [""];
      assert ParseAll([""], 0, fill) == Ok([]);
    } else {
      TokensOfJoined(slices);
      ParsePrinted(slices, |slices|, fill);
      assert slices[..|slices|] == slices;
    }
  }

  // ----- testing a step -----

  predicate Accepts(s: Slice, step: nat)
    requires s.period > 0
  {
    s.begin <= step <= s.end && (step - s.begin) % s.period == 0
  }

  method ContainsStep(slices: seq<Slice>, timeStep: nat) returns (contained: bool)
    requires forall i :: 0 <= i < |slices| ==> slices[i].period > 0
    ensures contained <==> exists i :: 0 <= i < |slices| && Accepts(slices[i], timeStep)
  {
    for i := 0 to |slices|
      invariant forall j :: 0 <= j < i ==> !Accepts(slices[j], timeStep)
    {
      var s := slices[i];
      if timeStep >= s.begin && timeStep <= s.end {
        var timeRelativeToStart := timeStep - s.begin;
        if timeRelativeToStart % s.period == 0 {
          assert Accepts(slices[i], timeStep);
          return true;
        }
      }
    }
    contained := false;
  }

  lemma NumberAlone(d: string)
    requires d != "" && IsNumber(d)
    ensures Parsed(d).Err? ==> ToTimeSlice(d) == Err
    ensures Parsed(d).Ok? ==> ToTimeSlice(d) == Ok([Slice(0, OPEN_END, Parsed(d).value)])
  {
    hide Parsed, IsNumber;
    var texts := [d];
    OneText(d);
    assert Components(texts, 0, TimeFill) == Ok(Slice(0, OPEN_END, 1));
    var r := Components(texts, 1, TimeFill);
    assert Allowed(0, texts[0]);
    assert Parsed(d).Ok? ==> r == Ok(Slice(0, OPEN_END, Parsed(d).value));
    assert ParseSlice(d, TimeFill) == r;
    SingleText(d, TimeFill);
  }

  lemma SingleText(text: string, fill: Slice -> Slice)
    requires text != "" && Split(text, ',') == [text]
    ensures Parse(text, fill)
            == match ParseSlice(text, fill) case Err => Err case Ok(s) => Ok([s])
  {
    var none: seq<Slice> := [];
    assert ParseAll([text], 0, fill) == Ok(none);
    match ParseSlice(text, fill) {
      case Err =>
      case Ok(s) => assert none + [s] == [s];
    }
  }

  lemma NumberAsPeriod(d: string)
    requires d != "" && IsNumber(d)
    ensures Parsed(d) == Err || Parsed(d) == Ok(0) ==> ToTimeSlice("::" + d) == Err
    ensures Parsed(d).Ok? && Parsed(d) != Ok(0) ==> ToTimeSlice("::" + d) == Ok([Slice(0, OPEN_END, Parsed(d).value)])
  {
    hide Parsed, IsNumber;
    var text, texts := "::" + d, ["", "", d];
    assert Split(text + ":", ':') == texts && Split(text, ',') == [text] by {
      NoSeparators(d);
      TokensOfOne(text, ',');
      assert text + ":" == "" + ":" + ("" + ":" + (d + ":" + ""));
      TokensAfter("", "" + ":" + (d + ":" + ""), ':');
      TokensAfter("", d + ":" + "", ':');
      TokensAfter(d, "", ':');
      assert Tokens("", ':') == [];
    }
    assert Components(texts, 0, TimeFill) == Ok(Slice(0, OPEN_END, 1));
    assert Components(texts, 1, TimeFill) == Ok(Slice(0, OPEN_END, 1));
    assert Components(texts, 2, TimeFill) == Ok(Slice(0, OPEN_END, 1));
    var r := Components(texts, 3, TimeFill);
    assert Allowed(2, texts[2]);
    assert Parsed(d) == Err || Parsed(d) == Ok(0) ==> r == Err;
    assert Parsed(d).Ok? && Parsed(d) != Ok(0) ==> r == Ok(Slice(0, OPEN_END, Parsed(d).value));
    assert ParseSlice(text, TimeFill) == r;
    SingleText(text, TimeFill);
  }

  /**
    A lone number means the same as the period of an open slice, exactly unless its 32-bit value is zero: "::N" then
    is an error, while N alone gives a slice with period zero.
   */
  lemma LoneNumberIsPeriod(d: string)
    requires d != "" && IsNumber(d)
    ensures ToTimeSlice(d) == ToTimeSlice("::" + d) <==> Number(d) >= ULONG || Number(d) % UINT32 != 0
    ensures Number(d) < ULONG && Number(d) % UINT32 == 0 ==>
              ToTimeSlice("::" + d).Err? && ToTimeSlice(d).Ok? && ToTimeSlice(d).value[0].period == 0
  {
    hide Parse;
    NumberAlone(d);
    NumberAsPeriod(d);
    NoSeparators(d);
  }

  // ----- which steps a text selects -----

  /** The m-th step from the beginning of the slice on. */
  function StepNumber(s: Slice, m: nat): nat {
    s.begin + m * s.period
  }

  /** The accepted steps are begin, begin + period, begin + 2 period and so on, up to the end. */
  lemma AcceptsEveryPeriod(s: Slice, step: nat)
    requires s.period > 0
    ensures Accepts(s, step) <==> step <= s.end && exists m: nat :: StepNumber(s, m) == step
  {
    if Accepts(s, step) {
      var m := (step - s.begin) / s.period;
      assert step - s.begin == m * s.period;
      assert StepNumber(s, m) == step;
    }
    if m: nat :| StepNumber(s, m) == step {
      ProductGrows(0, m, s.period);
      QuotientIs(m * s.period, s.period, m, 0);
    }
  }

  lemma OpenEndTexts(x: string, y: string)
    requires IsNumber(x) && IsNumber(y) && y != ""
    ensures var text := x + ":-1:" + y;
            text != "" && Split(text + ":", ':') == [x, "-1", y] && Split(text, ',') == [text]
  {
    hide IsNumber, Tokens;
    var text := x + ":-1:" + y;
    NoSeparators(x);
    NoSeparators(y);
    assert text + ":" == x + ":" + ("-1" + ":" + (y + ":" + ""));
    TokensAfter(x, "-1" + ":" + (y + ":" + ""), ':');
    TokensAfter("-1", y + ":" + "", ':');
    TokensAfter(y, "", ':');
    NoTokens(':');
    assert ',' !in text;
    TokensOfOne(text, ',');
  }

  lemma NoTokens(d: char)
    ensures Tokens("", d) == []
  {
  }

  /** The text b:-1:p selects b, b + p, b + 2 p and so on up to the largest 32-bit step, and nothing else. */
  lemma OpenEndSelects(b: nat, p: nat, step: nat)
    requires b <= 4294967295 && 0 < p <= 4294967295
    ensures ToTimeSlice(Decimal(b) + ":-1:" + Decimal(p)) == Ok([Slice(b, 4294967295, p)])
    ensures Accepts(Slice(b, 4294967295, p), step)
            <==> step <= 4294967295 && exists m: nat :: StepNumber(Slice(b, 4294967295, p), m) == step
  {
    hide Decimal, IsNumber, Split;
    var text, texts := Decimal(b) + ":-1:" + Decimal(p), [Decimal(b), "-1", Decimal(p)];
    OpenEndTexts(Decimal(b), Decimal(p));
    ParseDecimal(b);
    ParseDecimal(p);
    assert Parsed("-1") == Ok(4294967295) by { MinusOneWraps(); }
    assert Components(texts, 0, TimeFill) == Ok(Slice(0, OPEN_END, 1));
    assert Components(texts, 1, TimeFill) == Ok(Slice(b, OPEN_END, 1));
    assert Components(texts, 2, TimeFill) == Ok(Slice(b, 4294967295, 1));
    assert Components(texts, 3, TimeFill) == Ok(Slice(b, 4294967295, p));
    SingleText(text, TimeFill);
    AcceptsEveryPeriod(Slice(b, 4294967295, p), step);
  }

  lemma MinusOneWraps()
    ensures Parsed("-1") == Ok(4294967295)
  {
  }

  /** A number N read as a range selects N and N + 1; the largest 32-bit number selects nothing, as N + 1 wraps to 0. */
  lemma RangeOfNumberSelects(n: nat, step: nat)
    requires n <= 4294967295
    ensures ToRangeSlice(Decimal(n)).Ok? && |ToRangeSlice(Decimal(n)).value| == 1
    ensures var s := ToRangeSlice(Decimal(n)).value[0];
            s.period == 1 && (Accepts(s, step) <==> n < 4294967295 && (step == n || step == n + 1))
  {
    hide Decimal, Parsed, IsNumber, Split;
    var d := Decimal(n);
    OneText(d);
    ParseDecimal(n);
    assert Components([d], 0, RangeFill) == Ok(Slice(0, OPEN_END, 1));
    assert Components([d], 1, RangeFill) == Ok(Slice(n, (n + 1) % UINT32, 1));
    SingleText(d, RangeFill);
  }

  lemma OneText(d: string)
    requires d != "" && IsNumber(d)
    ensures Split(d + ":", ':') == [d] && Split(d, ',') == [d]
  {
    NoSeparators(d);
    TokensOfOne(d, ',');
    TokensAfter(d, "", ':');
    assert d + ":" == d + ":" + "";
    assert Tokens("", ':') == [];
  }
}
