/**
 * The argument payloads of the diagnostic-source activity events read by
 * dotnet-dtracer's trace correlator: each payload is a list of key/value
 * pairs, scanned in order into one local per recognised key, with the time
 * key parsed as a 64-bit tick count at every occurrence.
 */
module TraceArguments {
  import opened Common

  /** long.MinValue and long.MaxValue. */
  const LongMin: int := -0x8000_0000_0000_0000
  const LongMax: int := 0x7FFF_FFFF_FFFF_FFFF

  /** DateTime.MaxValue.Ticks; DateTime.MinValue.Ticks is 0. */
  const MaxDateTicks: int := 3155378975999999999

  // ---------------------------------------------------------------------------
  // long.Parse

  predicate IsDigit(c: char) {
    '0' <= c <= '9'
  }

  predicate AllDigits(s: string) {
    forall i :: 0 <= i < |s| ==> IsDigit(s[i])
  }

  /** The value of a string of decimal digits, most significant first. */
  function DigitsValue(s: string): nat
    requires AllDigits(s)
    decreases |s|
  {
    if s == [] then 0 else DigitsValue(s[..|s| - 1]) * 10 + (s[|s| - 1] as int - '0' as int)
  }

  /**
   * long.Parse(v) with the current culture, read as ASCII `+`/`-` signs and
   * digits (see the README for what this leaves out): an optional sign followed by
   * one or more digits. Null is an ArgumentNullException, any other shape a
   * FormatException, and a value outside the 64-bit range an
   * OverflowException.
   */
  function ParseLong(v: Option<string>): (r: Result<int>)
    ensures v.None? <==> r == Failure(ArgumentNull)
    ensures r.Success? ==> LongMin <= r.value <= LongMax
    ensures v.Some? && (v.value == [] || !IsDigit(v.value[|v.value| - 1])) ==> r == Failure(FormatError)
  {
    match v
    case None => Failure(ArgumentNull)
    case Some(s) =>
      var negative := |s| > 0 && s[0] == '-';
      var body := if |s| > 0 && (s[0] == '-' || s[0] == '+') then s[1..] else s;
      if body == [] || !AllDigits(body) then Failure(FormatError)
      else
        var n: int := if negative then -(DigitsValue(body) as int) else DigitsValue(body);
        if n < LongMin || LongMax < n then Failure(Overflow) else Success(n)
  }

  function DigitChar(d: nat): (c: char)
    requires d < 10
    ensures IsDigit(c) && c as int - '0' as int == d
  {
    ('0' as int + d) as char
  }

  /** The decimal digits of `n`, without leading zeros. */
  function Digits(n: nat): (s: string)
    ensures s != [] && AllDigits(s)
    decreases n
  {
    if n < 10 then [DigitChar(n)] else Digits(n / 10) + [DigitChar(n % 10)]
  }

  /** long.ToString() in the current culture, with an ASCII minus sign. */
  function FormatLong(n: int): string {
    if n < 0 then "-" + Digits(-n) else Digits(n)
  }

  lemma {:induction false} DigitsValueOfDigits(n: nat)
    ensures DigitsValue(Digits(n)) == n
    decreases n
  {
    if n >= 10 {
      DigitsValueOfDigits(n / 10);
      var s := Digits(n);
      assert s[..|s| - 1] == Digits(n / 10);
    }
  }

  /** Every 64-bit value reads back from its decimal text. */
  lemma ParseFormatLong(n: int)
    requires LongMin <= n <= LongMax
    ensures ParseLong(Some(FormatLong(n))) == Success(n)
  {
    if n < 0 {
      DigitsValueOfDigits(-n);
      assert ("-" + Digits(-n))[1..] == Digits(-n);
    } else {
      DigitsValueOfDigits(n);
      assert IsDigit(Digits(n)[0]);
    }
  }

  // ---------------------------------------------------------------------------
  // Times

  /** The two time values a payload carries. */
  datatype TimeKind = StartTime | Duration

  /**
   * `new DateTime(long.Parse(v))` or `new TimeSpan(long.Parse(v))`, as
   * ticks: a DateTime must lie between 0 and DateTime.MaxValue.Ticks, a
   * TimeSpan takes any 64-bit value.
   */
  function ParseTicks(kind: TimeKind, v: Option<string>): (r: Result<int>)
    ensures r.Success? <==>
      ParseLong(v).Success? && (kind == StartTime ==> 0 <= ParseLong(v).value <= MaxDateTicks)
    ensures r.Success? ==> r.value == ParseLong(v).value
    ensures ParseLong(v).Failure? ==> r == ParseLong(v)
    ensures ParseLong(v).Success? && r.Failure? ==> r.error == ArgumentOutOfRange
  {
    match ParseLong(v)
    case Failure(e) => Failure(e)
    case Success(n) =>
      if kind == StartTime && (n < 0 || MaxDateTicks < n) then Failure(ArgumentOutOfRange)
      else Success(n)
  }

  // ---------------------------------------------------------------------------
  // Scanning a payload

  /** One `{ "Key": key, "Value": value }` entry of an Arguments payload. */
  datatype Arg = Arg(key: string, value: Option<string>)

  /** The keys a scan recognises: the ones copied as text, and the time key. */
  datatype Schema = Schema(textKeys: set<string>, timeKey: string, kind: TimeKind)

  predicate WellFormed(sc: Schema) {
    sc.timeKey !in sc.textKeys
  }

  /** Microsoft.AspNetCore.Hosting.BeginRequest. */
  const BeginRequest: Schema :=
    Schema({"ActivityId", "ActivityParentId", "ActivityOperationName", "Method", "Host", "Path"},
           "ActivityStartTime", StartTime)

  /** System.Net.Http.HttpRequestOut.Start. */
  const HttpRequestOutStart: Schema :=
    Schema({"ActivityId", "ActivityParentId"}, "ActivityStartTime", StartTime)

  /** Microsoft.AspNetCore.Hosting.EndRequest and System.Net.Http.HttpRequestOut.Stop. */
  const ActivityStop: Schema :=
    Schema({"ActivityId"}, "ActivityDuration", Duration)

  /** The scan's locals: the text locals assigned so far, and the time (default 0). */
  datatype Fields = Fields(text: map<string, Option<string>>, ticks: int)

  /** A text local: null unless some entry assigned it. */
  function Text(f: Fields, key: string): Option<string> {
    if key in f.text then f.text[key] else None
  }

  const NoFields: Fields := Fields(map[], 0)

  /** The effect of one entry on the locals; an unparsable time throws. */
  function Step(sc: Schema, f: Fields, a: Arg): Result<Fields> {
    if a.key in sc.textKeys then Success(f.(text := f.text[a.key := a.value]))
    else if a.key == sc.timeKey then
      match ParseTicks(sc.kind, a.value)
      case Failure(e) => Failure(e)
      case Success(t) => Success(f.(ticks := t))
    else Success(f)
  }

  /** The scan of a payload, entry by entry; the first failure ends it. */
  function Scan(sc: Schema, args: seq<Arg>): Result<Fields>
    decreases |args|
  {
    if args == [] then Success(NoFields)
    else match Scan(sc, args[..|args| - 1])
      case Failure(e) => Failure(e)
      case Success(f) => Step(sc, f, args[|args| - 1])
  }

  /** A failed prefix fails the whole scan with the same exception. */
  lemma {:induction false} ScanFailureSticks(sc: Schema, args: seq<Arg>, i: nat)
    requires i <= |args| && Scan(sc, args[..i]).Failure?
    ensures Scan(sc, args) == Scan(sc, args[..i])
    decreases |args| - i
  {
    if i < |args| {
      assert args[..i + 1][..i] == args[..i];
      ScanFailureSticks(sc, args, i + 1);
    } else {
      assert args[..i] == args;
    }
  }

  /** The loop over a payload; it stops at the first time that does not parse. */
  method ReadArguments(sc: Schema, args: seq<Arg>) returns (r: Result<Fields>)
    ensures r == Scan(sc, args)
  {
    var f := NoFields;
    for i := 0 to |args|
      invariant Scan(sc, args[..i]) == Success(f)
    {
      assert args[..i + 1][..i] == args[..i];
      var a := args[i];
      if a.key in sc.textKeys {
        f := f.(text := f.text[a.key := a.value]);
      } else if a.key == sc.timeKey {
        var t := ParseTicks(sc.kind, a.value);
        if t.Failure? {
          ScanFailureSticks(sc, args, i + 1);
          return Failure(t.error);
        }
        f := f.(ticks := t.value);
      }
    }
    assert args[..|args|] == args;
    return Success(f);
  }

  // ---------------------------------------------------------------------------
  // What a scan yields

  /** A scan fails exactly when some occurrence of the time key does not
      parse, even one that a later occurrence would override. */
  lemma {:induction false} ScanFails(sc: Schema, args: seq<Arg>)
    requires WellFormed(sc)
    ensures Scan(sc, args).Failure? <==>
      exists i :: 0 <= i < |args| && args[i].key == sc.timeKey && ParseTicks(sc.kind, args[i].value).Failure?
    decreases |args|
  {
    if args != [] {
      var n := |args| - 1;
      var init := args[..n];
      ScanFails(sc, init);
      if Scan(sc, args).Failure? && Scan(sc, init).Success? {
        assert args[n].key == sc.timeKey && ParseTicks(sc.kind, args[n].value).Failure?;
      }
      if Scan(sc, init).Failure? {
        var i :| 0 <= i < n && init[i].key == sc.timeKey && ParseTicks(sc.kind, init[i].value).Failure?;
        assert args[i] == init[i];
      }
      if Scan(sc, args).Success? {
        forall i | 0 <= i < |args| && args[i].key == sc.timeKey
          ensures ParseTicks(sc.kind, args[i].value).Success?
        {
          if i < n {
            assert init[i] == args[i];
          }
        }
      }
    }
  }

  /** A text local holds the value of the key's last occurrence. */
  lemma {:induction false} ScanTextLastWins(sc: Schema, args: seq<Arg>, key: string, i: nat)
    requires WellFormed(sc) && key in sc.textKeys && Scan(sc, args).Success?
    requires i < |args| && args[i].key == key
    requires forall j :: i < j < |args| ==> args[j].key != key
    ensures Text(Scan(sc, args).value, key) == args[i].value
    decreases |args|
  {
    var n := |args| - 1;
    var init := args[..n];
    if i < n {
      ScanTextLastWins(sc, init, key, i);
    }
  }

  /** A text local whose key does not occur stays null. */
  lemma {:induction false} ScanTextAbsent(sc: Schema, args: seq<Arg>, key: string)
    requires key in sc.textKeys && Scan(sc, args).Success?
    requires forall j :: 0 <= j < |args| ==> args[j].key != key
    ensures Text(Scan(sc, args).value, key) == None
    decreases |args|
  {
    if args != [] {
      ScanTextAbsent(sc, args[..|args| - 1], key);
    }
  }

  /** The time is the parsed value of the time key's last occurrence. */
  lemma {:induction false} ScanTicksLastWins(sc: Schema, args: seq<Arg>, i: nat)
    requires WellFormed(sc) && Scan(sc, args).Success?
    requires i < |args| && args[i].key == sc.timeKey
    requires forall j :: i < j < |args| ==> args[j].key != sc.timeKey
    ensures ParseTicks(sc.kind, args[i].value).Success?
    ensures Scan(sc, args).value.ticks == ParseTicks(sc.kind, args[i].value).value
    decreases |args|
  {
    var n := |args| - 1;
    if i < n {
      ScanTicksLastWins(sc, args[..n], i);
    }
  }

  /** Without the time key the time keeps its default, 0. */
  lemma {:induction false} ScanTicksAbsent(sc: Schema, args: seq<Arg>)
    requires Scan(sc, args).Success?
    requires forall j :: 0 <= j < |args| ==> args[j].key != sc.timeKey
    ensures Scan(sc, args).value.ticks == 0
    decreases |args|
  {
    if args != [] {
      ScanTicksAbsent(sc, args[..|args| - 1]);
    }
  }

  /** An entry with a key the scan does not recognise changes nothing,
      wherever it stands. */
  lemma {:induction false} ScanIgnoresUnknownKey(sc: Schema, a: seq<Arg>, x: Arg, b: seq<Arg>)
    requires x.key !in sc.textKeys && x.key != sc.timeKey
    ensures Scan(sc, a + [x] + b) == Scan(sc, a + b)
    decreases |b|
  {
    if b == [] {
      assert (a + [x] + b)[..|a|] == a;
      assert a + b == a;
    } else {
      var n := |b| - 1;
      ScanIgnoresUnknownKey(sc, a, x, b[..n]);
      assert (a + [x] + b)[..|a| + 1 + n] == a + [x] + b[..n];
      assert (a + b)[..|a| + n] == a + b[..n];
    }
  }

  // ---------------------------------------------------------------------------
  // Descriptions

  /** A string local as it appears in an interpolated string: null is empty. */
  function OrEmpty(s: Option<string>): string {
    if s.Some? then s.value else ""
  }

  /** `$"{httpMethod} {host} {path}"`. */
  function RequestDescription(httpMethod: Option<string>, host: Option<string>, path: Option<string>): (d: string)
    ensures |d| == |OrEmpty(httpMethod)| + |OrEmpty(host)| + |OrEmpty(path)| + 2
  {
    OrEmpty(httpMethod) + " " + OrEmpty(host) + " " + OrEmpty(path)
  }

  /** The description of an outgoing HTTP request. */
  const HttpClientDescription: string := "HttpClient"

  /** The text before the first space and the text after it. */
  function SplitAtSpace(s: string): (r: (string, string))
    ensures ' ' !in r.0
    decreases |s|
  {
    if s == [] then ("", "")
    else if s[0] == ' ' then ("", s[1..])
    else var rest := SplitAtSpace(s[1..]); ([s[0]] + rest.0, rest.1)
  }

  lemma {:induction false} SplitAtSpaceAppend(a: string, b: string)
    requires ' ' !in a
    ensures SplitAtSpace(a + " " + b) == (a, b)
    decreases |a|
  {
    if a == [] {
      assert a + " " + b == [' '] + b;
    } else {
      assert (a + " " + b)[1..] == a[1..] + " " + b;
      SplitAtSpaceAppend(a[1..], b);
      assert [a[0]] + a[1..] == a;
    }
  }

  /** A request description splits back into method, host and path when the
      method and host contain no space. */
  lemma RequestDescriptionSplits(httpMethod: Option<string>, host: Option<string>, path: Option<string>)
    requires ' ' !in OrEmpty(httpMethod) && ' ' !in OrEmpty(host)
    ensures var d := RequestDescription(httpMethod, host, path);
      var first := SplitAtSpace(d);
      && first.0 == OrEmpty(httpMethod)
      && SplitAtSpace(first.1) == (OrEmpty(host), OrEmpty(path))
  {
    var m, h, p := OrEmpty(httpMethod), OrEmpty(host), OrEmpty(path);
    assert m + " " + h + " " + p == m + " " + (h + " " + p);
    SplitAtSpaceAppend(m, h + " " + p);
    SplitAtSpaceAppend(h, p);
  }
}
