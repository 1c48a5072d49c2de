/** The statsd line protocol as the client writes it: `[prefix.]stat:value|type[|@rate]`.
    This module holds the value formatters of `incr`, `decr`, `set` and `timing`, the encoder
    `_prepare` with its sampling gate, the forwarding rule of `_after`, and a reader for the
    lines, used to state what an encoded line carries. */
module Protocol {
  import opened Wrappers
  import opened Decimal

  /** A sample rate: its numeric value, and the text `'%s' % rate` gives for it. */
  datatype Rate = Rate(value: real, text: string)

  /** The default rate, `rate=1`. */
  const FullRate := Rate(1.0, "1")

  /** `'%s|c' % count`. */
  function CounterValue(count: int): (v: string)
    ensures |v| >= 3 && v[|v| - 2..] == "|c"
    ensures ParseInt(v[..|v| - 2]) == Some(count)
  {
    IntRoundTrip(count);
    var s := IntToString(count);
    assert (s + "|c")[..|s|] == s;
    s + "|c"
  }

  /** `'%s|s' % value`, for a value whose `%s` text is given. */
  function SetValue(value: string): (v: string)
    ensures |v| == |value| + 2 && v[..|value|] == value && v[|value|..] == "|s"
  {
    value + "|s"
  }

  /** `'%0.6f|ms' % delta`, for a delta in whole milliseconds. */
  function TimingValue(delta: int): (v: string)
    ensures |v| >= 11 && v[|v| - 10..] == ".000000|ms"
    ensures ParseInt(v[..|v| - 10]) == Some(delta)
  {
    FixedSixShape(delta);
    var s := FixedSix(delta);
    assert s[..|s| - 7] + ".000000" == s;
    assert (s + "|ms")[..|s| - 7] == s[..|s| - 7];
    s + "|ms"
  }

  /** A rate below 1 consults the random source. */
  predicate Sampling(rate: Rate)
    ensures rate == FullRate ==> !Sampling(rate)
  {
    rate.value < 1.0
  }

  /** The sampling gate lets a line through unless the rate is below 1 and the draw is strictly greater. */
  predicate Admitted(rate: Rate, draw: real)
    ensures !Sampling(rate) ==> Admitted(rate, draw)
    ensures Sampling(rate) ==> (Admitted(rate, draw) <==> draw <= rate.value)
  {
    !(Sampling(rate) && draw > rate.value)
  }

  /** The number of random draws `_prepare` takes for a rate. */
  function DrawsFor(rate: Rate): (n: nat)
    ensures n <= 1 && (n == 1 <==> Sampling(rate))
  {
    if Sampling(rate) then 1 else 0
  }

  /** The stat name with the prefix in front, when the prefix is truthy (present and non-empty). */
  function Qualify(prefix: Option<string>, stat: string): (name: string)
    ensures |name| >= |stat| && name[|name| - |stat|..] == stat
    ensures prefix.Some? && prefix.value != "" ==>
              |name| == |prefix.value| + 1 + |stat| && name[..|prefix.value| + 1] == prefix.value + "."
    ensures prefix.None? || prefix.value == "" ==> name == stat
  {
    if prefix.Some? && prefix.value != "" then prefix.value + "." + stat else stat
  }

  /** `_prepare(stat, value, rate)` given the draw `random.random()` would return. */
  function EncodeLine(prefix: Option<string>, stat: string, value: string, rate: Rate, draw: real): (line: Option<string>)
    ensures line.Some? <==> Admitted(rate, draw)
  {
    if Sampling(rate) && draw > rate.value then None
    else
      var v := if Sampling(rate) then value + "|@" + rate.text else value;
      Some(Qualify(prefix, stat) + ":" + v)
  }

  /** The lines `_after(data)` hands to the transport: the data itself when it is truthy. */
  function Outbound(data: Option<string>): (lines: seq<string>)
    ensures |lines| <= 1
    ensures |lines| == 1 <==> data.Some? && data.value != ""
    ensures forall k :: 0 <= k < |lines| ==> lines[k] == data.value
  {
    if data.Some? && data.value != "" then [data.value] else []
  }

  /** At full rate the draw plays no part, and the line is the (prefixed) stat, a colon and the value. */
  lemma FullRateLine(prefix: Option<string>, stat: string, value: string, rate: Rate, draw: real, other: real)
    requires !Sampling(rate)
    ensures EncodeLine(prefix, stat, value, rate, draw) == EncodeLine(prefix, stat, value, rate, other)
    ensures prefix == None || prefix == Some("") ==>
              EncodeLine(prefix, stat, value, rate, draw) == Some(stat + ":" + value)
    ensures prefix.Some? && prefix.value != "" ==>
              EncodeLine(prefix, stat, value, rate, draw) == Some(prefix.value + "." + stat + ":" + value)
  {
  }

  /** Below full rate a draw strictly above the rate suppresses the line, and nothing is sent. */
  lemma SuppressedLine(prefix: Option<string>, stat: string, value: string, rate: Rate, draw: real)
    requires Sampling(rate) && draw > rate.value
    ensures EncodeLine(prefix, stat, value, rate, draw) == None
    ensures Outbound(EncodeLine(prefix, stat, value, rate, draw)) == []
  {
  }

  /** Below full rate a draw no greater than the rate yields the line with `|@rate` after the type. */
  lemma SampledLine(prefix: Option<string>, stat: string, value: string, rate: Rate, draw: real)
    requires Sampling(rate) && draw <= rate.value
    ensures EncodeLine(prefix, stat, value, rate, draw) == Some(Qualify(prefix, stat) + ":" + value + "|@" + rate.text)
    ensures Outbound(EncodeLine(prefix, stat, value, rate, draw)) == [Qualify(prefix, stat) + ":" + value + "|@" + rate.text]
  {
    var q := Qualify(prefix, stat);
    assert q + ":" + (value + "|@" + rate.text) == q + ":" + value + "|@" + rate.text;
  }

  /** An encoded line is never empty, so `_after` forwards exactly the admitted lines, one each. */
  lemma SentIffAdmitted(prefix: Option<string>, stat: string, value: string, rate: Rate, draw: real)
    ensures |Outbound(EncodeLine(prefix, stat, value, rate, draw))| == (if Admitted(rate, draw) then 1 else 0)
  {
  }

  /** `incr('foo')` and `incr('foo', 10, rate=0.5)` with the draw below the rate. */
  lemma IncrExamples()
    ensures EncodeLine(None, "foo", CounterValue(1), FullRate, 0.0) == Some("foo:1|c")
    ensures EncodeLine(None, "foo", CounterValue(10), Rate(0.5, "0.5"), -1.0) == Some("foo:10|c|@0.5")
  {
    assert IntToString(1) == "1";
    assert "foo" + ":" + ("1" + "|c") == "foo:1|c";
    assert IntToString(10) == NatToString(1) + ['0'] == "10";
    assert "foo" + ":" + ("10" + "|c" + "|@" + "0.5") == "foo:10|c|@0.5";
  }

  /** `decr('foo')` and `decr('foo', 10)`. */
  lemma DecrExamples()
    ensures EncodeLine(None, "foo", CounterValue(-1), FullRate, 0.0) == Some("foo:-1|c")
    ensures EncodeLine(None, "foo", CounterValue(-10), FullRate, 0.0) == Some("foo:-10|c")
  {
    assert IntToString(-1) == "-" + "1";
    assert "foo" + ":" + ("-" + "1" + "|c") == "foo:-1|c";
    assert IntToString(-10) == "-" + (NatToString(1) + ['0']) == "-" + "10";
    assert "foo" + ":" + ("-" + "10" + "|c") == "foo:-10|c";
  }

  /** `incr('bar')` on a client with prefix 'foo', and `incr('foo', rate=0.5)` with the draw 2. */
  lemma PrefixAndSuppressExamples()
    ensures EncodeLine(Some("foo"), "bar", CounterValue(1), FullRate, 0.0) == Some("foo.bar:1|c")
    ensures EncodeLine(None, "foo", CounterValue(1), Rate(0.5, "0.5"), 2.0) == None
  {
    assert IntToString(1) == "1";
    assert "foo" + "." + "bar" + ":" + ("1" + "|c") == "foo.bar:1|c";
  }

  /** `set('foo', 'bar')` and `timing('foo', 100)`, at full rate and at rate 0.5. */
  lemma SetTimingExamples()
    ensures EncodeLine(None, "foo", SetValue("bar"), FullRate, 0.0) == Some("foo:bar|s")
    ensures EncodeLine(None, "foo", TimingValue(100), FullRate, 0.0) == Some("foo:100.000000|ms")
    ensures EncodeLine(None, "foo", TimingValue(100), Rate(0.5, "0.5"), -1.0) == Some("foo:100.000000|ms|@0.5")
  {
    assert "foo" + ":" + ("bar" + "|s") == "foo:bar|s";
    assert IntToString(100) == (NatToString(1) + ['0']) + ['0'] == "100";
    assert "foo" + ":" + ("100" + ".000000" + "|ms") == "foo:100.000000|ms";
    assert "foo" + ":" + ("100" + ".000000" + "|ms" + "|@" + "0.5") == "foo:100.000000|ms|@0.5";
  }

  lemma AppendDigit(m: nat, d: nat)
    requires 0 < m && d < 10
    ensures NatToString(m * 10 + d) == NatToString(m) + [DigitChar(d)]
  {
  }

  /** 1234568901234 is rendered digit for digit. */
  lemma BigDigits()
    ensures IntToString(1234568901234) == "1234568901234"
  {
    assert NatToString(1) == "1";
    AppendDigit(1, 2);  assert NatToString(12) == "12";
    AppendDigit(12, 3);  assert NatToString(123) == "123";
    AppendDigit(123, 4);  assert NatToString(1234) == "1234";
    AppendDigit(1234, 5);  assert NatToString(12345) == "12345";
    AppendDigit(12345, 6);  assert NatToString(123456) == "123456";
    AppendDigit(123456, 8);  assert NatToString(1234568) == "1234568";
    AppendDigit(1234568, 9);  assert NatToString(12345689) == "12345689";
    AppendDigit(12345689, 0);  assert NatToString(123456890) == "123456890";
    AppendDigit(123456890, 1);  assert NatToString(1234568901) == "1234568901";
    AppendDigit(1234568901, 2);  assert NatToString(12345689012) == "12345689012";
    AppendDigit(12345689012, 3);  assert NatToString(123456890123) == "123456890123";
    AppendDigit(123456890123, 4);  assert NatToString(1234568901234) == "1234568901234";
  }

  /** The big-number case: 1234568901234 is rendered digit for digit, with no exponent. */
  lemma BigValues()
    ensures CounterValue(1234568901234) == "1234568901234|c"
    ensures TimingValue(1234568901234) == "1234568901234.000000|ms"
  {
    BigDigits();
  }

  lemma BigCounterExample()
    ensures EncodeLine(None, "foo", CounterValue(1234568901234), FullRate, 0.0) == Some("foo:1234568901234|c")
  {
    BigValues();
    assert "foo" + ":" + "1234568901234|c" == "foo:1234568901234|c";
  }

  /** The full-rate timing line of `foo`, in terms of the delta's digits. */
  lemma FooTimingLine(delta: int, digits: string)
    requires IntToString(delta) == digits
    ensures EncodeLine(None, "foo", TimingValue(delta), FullRate, 0.0) == Some("foo:" + digits + ".000000|ms")
  {
    assert "foo" + ":" + (digits + ".000000" + "|ms") == "foo:" + digits + ".000000|ms";
  }

  lemma BigTimingExample()
    ensures EncodeLine(None, "foo", TimingValue(1234568901234), FullRate, 0.0) == Some("foo:1234568901234.000000|ms")
  {
    BigDigits();
    FooTimingLine(1234568901234, "1234568901234");
    assert "foo:" + "1234568901234" + ".000000|ms" == "foo:1234568901234.000000|ms";
  }

  /** One datagram as a statsd daemon reads it. */
  datatype Datagram = Datagram(name: string, value: string, kind: string, rate: Option<string>)

  /** The index of the first `c` in `s`, or `|s|` when there is none. */
  function Find(s: string, c: char): (k: nat)
    ensures k <= |s|
    ensures k < |s| ==> s[k] == c
    ensures forall j :: 0 <= j < k ==> s[j] != c
  {
    if s == [] || s[0] == c then 0 else 1 + Find(s[1..], c)
  }

  /** The text before and after the first `c` in `s`, if there is one. */
  function Split(s: string, c: char): Option<(string, string)>
  {
    var k := Find(s, c);
    if k == |s| then None else Some((s[..k], s[k + 1..]))
  }

  /** Reads `name:value|type[|@rate]`, splitting at the first ':' and then at the first two '|'. */
  function ParseLine(line: string): Option<Datagram>
  {
    match Split(line, ':')
    case None => None
    case Some((name, body)) =>
      match Split(body, '|')
      case None => None
      case Some((value, tail)) =>
        match Split(tail, '|')
        case None => Some(Datagram(name, value, tail, None))
        case Some((kind, annotation)) =>
          if |annotation| > 0 && annotation[0] == '@' && Split(annotation, '|').None?
          then Some(Datagram(name, value, kind, Some(annotation[1..])))
          else None
  }

  lemma SplitFirst(a: string, c: char, b: string)
    requires c !in a
    ensures Split(a + [c] + b, c) == Some((a, b))
  {
    var s := a + [c] + b;
    assert s[|a|] == c;
    assert forall j :: 0 <= j < |a| ==> s[j] == a[j];
    assert s[..|a|] == a && s[|a| + 1..] == b;
  }

  lemma SplitNone(a: string, c: char)
    requires c !in a
    ensures Split(a, c) == None
  {
    assert forall j :: 0 <= j < |a| ==> a[j] != c;
  }

  /** The text of a datagram, `name:value|type` followed by `|@rate` when a rate is present. */
  function Render(d: Datagram): string
  {
    d.name + ":" + d.value + "|" + d.kind + (if d.rate.Some? then "|@" + d.rate.value else "")
  }

  /** Reading the text of a datagram gives it back, when the name has no ':' and the other parts no '|'. */
  lemma ParseRender(d: Datagram)
    requires ':' !in d.name && '|' !in d.value && '|' !in d.kind
    requires d.rate.Some? ==> '|' !in d.rate.value
    ensures ParseLine(Render(d)) == Some(d)
  {
    var tail := d.kind + (if d.rate.Some? then "|@" + d.rate.value else "");
    var body := d.value + "|" + tail;
    assert Render(d) == d.name + [':'] + body;
    SplitFirst(d.name, ':', body);
    assert body == d.value + ['|'] + tail;
    SplitFirst(d.value, '|', tail);
    if d.rate.Some? {
      var annotation := "@" + d.rate.value;
      assert tail == d.kind + ['|'] + annotation;
      SplitFirst(d.kind, '|', annotation);
      assert '|' !in annotation;
      SplitNone(annotation, '|');
      assert annotation[1..] == d.rate.value;
    } else {
      assert tail == d.kind;
      SplitNone(d.kind, '|');
    }
  }

  /** An admitted line is the text of the datagram with the (prefixed) stat, the value, the type
      and the rate annotation, present exactly when sampling was active. */
  lemma EncodedDatagram(prefix: Option<string>, stat: string, value: string, kind: string, rate: Rate, draw: real)
    requires Admitted(rate, draw)
    ensures EncodeLine(prefix, stat, value + "|" + kind, rate, draw).value
         == Render(Datagram(Qualify(prefix, stat), value, kind, if Sampling(rate) then Some(rate.text) else None))
  {
    var name := Qualify(prefix, stat);
    if Sampling(rate) {
      assert name + ":" + (value + "|" + kind + "|@" + rate.text)
          == name + ":" + value + "|" + kind + ("|@" + rate.text);
    } else {
      assert name + ":" + (value + "|" + kind) == name + ":" + value + "|" + kind + "";
    }
  }

  /** Reading an encoded line gives back the (prefixed) stat, the value, the type and the rate
      annotation, present exactly when sampling was active. Stat and prefix must not contain ':',
      nor value, type and rate text '|', for the line to be unambiguous. */
  lemma ParseEncoded(prefix: Option<string>, stat: string, value: string, kind: string, rate: Rate, draw: real)
    requires ':' !in stat && (prefix.Some? ==> ':' !in prefix.value)
    requires '|' !in value && '|' !in kind && '|' !in rate.text
    requires Admitted(rate, draw)
    ensures ParseLine(EncodeLine(prefix, stat, value + "|" + kind, rate, draw).value)
         == Some(Datagram(Qualify(prefix, stat), value, kind, if Sampling(rate) then Some(rate.text) else None))
  {
    var d := Datagram(Qualify(prefix, stat), value, kind, if Sampling(rate) then Some(rate.text) else None);
    assert ':' !in d.name;
    EncodedDatagram(prefix, stat, value, kind, rate, draw);
    ParseRender(d);
  }

  /** A counter line reads back as type `c` with the count itself as its value. */
  lemma CounterRoundTrip(prefix: Option<string>, stat: string, count: int, rate: Rate, draw: real)
    requires ':' !in stat && (prefix.Some? ==> ':' !in prefix.value) && '|' !in rate.text
    requires Admitted(rate, draw)
    ensures var d := ParseLine(EncodeLine(prefix, stat, CounterValue(count), rate, draw).value);
      d.Some? && d.value.name == Qualify(prefix, stat) && d.value.kind == "c" &&
      ParseInt(d.value.value) == Some(count) &&
      d.value.rate == (if Sampling(rate) then Some(rate.text) else None)
  {
    IntRoundTrip(count);
    var s := IntToString(count);
    assert forall k :: 0 <= k < |s| ==> s[k] != '|';
    assert CounterValue(count) == s + "|" + "c";
    ParseEncoded(prefix, stat, s, "c", rate, draw);
  }

  /** A set line reads back as type `s` with the value's text unchanged. */
  lemma SetRoundTrip(prefix: Option<string>, stat: string, value: string, rate: Rate, draw: real)
    requires ':' !in stat && (prefix.Some? ==> ':' !in prefix.value) && '|' !in rate.text
    requires '|' !in value
    requires Admitted(rate, draw)
    ensures ParseLine(EncodeLine(prefix, stat, SetValue(value), rate, draw).value)
         == Some(Datagram(Qualify(prefix, stat), value, "s", if Sampling(rate) then Some(rate.text) else None))
  {
    assert SetValue(value) == value + "|" + "s";
    ParseEncoded(prefix, stat, value, "s", rate, draw);
  }

  /** A timing line reads back as type `ms` with six zero decimals after the delta itself. */
  lemma TimingRoundTrip(prefix: Option<string>, stat: string, delta: int, rate: Rate, draw: real)
    requires ':' !in stat && (prefix.Some? ==> ':' !in prefix.value) && '|' !in rate.text
    requires Admitted(rate, draw)
    ensures var d := ParseLine(EncodeLine(prefix, stat, TimingValue(delta), rate, draw).value);
      d.Some? && d.value.name == Qualify(prefix, stat) && d.value.kind == "ms" &&
      |d.value.value| >= 8 && d.value.value[|d.value.value| - 7..] == ".000000" &&
      ParseInt(d.value.value[..|d.value.value| - 7]) == Some(delta) &&
      d.value.rate == (if Sampling(rate) then Some(rate.text) else None)
  {
    FixedSixShape(delta);
    var s := FixedSix(delta);
    assert forall k :: 0 <= k < |s| ==> s[k] != '|';
    assert TimingValue(delta) == s + "|" + "ms";
    ParseEncoded(prefix, stat, s, "ms", rate, draw);
  }

  /** `decr` renders the negated count: the line differs from `incr`'s only by a leading minus on the value. */
  lemma DecrNegatesCount(count: int)
    requires count > 0
    ensures CounterValue(-count) == "-" + CounterValue(count)
    ensures ParseInt(IntToString(-count)) == Some(-count)
  {
    IntRoundTrip(-count);
  }
}
