// The three-line text a sample is written as, and a reader of the text-based exposition format
// (Prometheus exposition formats, section "Text format details").

module Exposition {
  import opened AlertModel
  import Text
  import Wire

  /** A value printed with two decimals: a sign and a number of hundredths. A small negative value
      prints as "-0.00". */
  datatype Fixed = Fixed(negative: bool, hundredths: nat)

  /** What one payload says: two labels, three values, one millisecond timestamp. */
  datatype Entry = Entry(id: string, ip: string, cpu: Fixed, mem: Fixed, disk: Fixed, millis: int)

  // ---- Writing --------------------------------------------------------------------------------

  function Digit(d: nat): char
    requires d < 10
  {
    ('0' as int + d) as char
  }

  function Digits(n: nat): (s: string)
    ensures s != ""
  {
    if n < 10 then [Digit(n)] else Digits(n / 10) + [Digit(n % 10)]
  }

  function ShowInt(n: int): string { if n < 0 then "-" + Digits(-n) else Digits(n) }

  function Decimals(h: nat): string { ['.', Digit(h / 10 % 10), Digit(h % 10)] }

  function ShowFixed(x: Fixed): string {
    (if x.negative then "-" else "") + (Digits(x.hundredths / 100) + Decimals(x.hundredths))
  }

  function Labels(id: string, ip: string): string { "{machine_id=\"" + (id + ("\",ip=\"" + (ip + "\"} "))) }

  function Line(name: string, e: Entry, x: Fixed): string {
    name + (Labels(e.id, e.ip) + (ShowFixed(x) + (" " + ShowInt(e.millis))))
  }

  function Render(e: Entry): string {
    var memAndDisk := Line("host_mem_usage", e, e.mem) + ("\n" + Line("host_disk_usage", e, e.disk));
    Line("host_cpu_usage", e, e.cpu) + ("\n" + memAndDisk)
  }

  // ---- Reading --------------------------------------------------------------------------------

  datatype Read<T> = Read(value: T, rest: string)

  predicate IsDigit(c: char) { '0' <= c <= '9' }

  function DigitValue(c: char): nat
    requires IsDigit(c)
  {
    c as int - '0' as int
  }

  function Expect(lit: string, s: string): Option<string> {
    if lit <= s then Some(s[|lit|..]) else None
  }

  /** A label value up to its closing quote. Backslash, quote and line feed are escaped in it; a
      raw line feed or another escape is an error. */
  function LabelValue(s: string): Option<Read<string>> {
    if s == "" || s[0] == '\n' then None
    else if s[0] == '"' then Some(Read("", s[1..]))
    else if s[0] != '\\' then
      match LabelValue(s[1..])
      case None => None
      case Some(r) => Some(Read([s[0]] + r.value, r.rest))
    else if |s| < 2 || s[1] !in {'\\', '"', 'n'} then None
    else
      match LabelValue(s[2..])
      case None => None
      case Some(r) => Some(Read([if s[1] == 'n' then '\n' else s[1]] + r.value, r.rest))
  }

  function ReadDigits(acc: nat, s: string): Read<nat>
    decreases |s|
  {
    if s == "" || !IsDigit(s[0]) then Read(acc, s) else ReadDigits(acc * 10 + DigitValue(s[0]), s[1..])
  }

  function ReadNat(s: string): Option<Read<nat>> {
    if s == "" || !IsDigit(s[0]) then None else Some(ReadDigits(0, s))
  }

  function Sign(s: string): Read<bool> {
    if s != "" && s[0] == '-' then Read(true, s[1..]) else Read(false, s)
  }

  function ReadInt(s: string): Option<Read<int>> {
    var sign := Sign(s);
    match ReadNat(sign.rest)
    case None => None
    case Some(r) =>
      var n: int := r.value;
      Some(Read(if sign.value then -n else n, r.rest))
  }

  function ReadFixed(s: string): Option<Read<Fixed>> {
    var sign := Sign(s);
    ReadUnsigned(sign.value, sign.rest)
  }

  function ReadUnsigned(negative: bool, s: string): Option<Read<Fixed>> {
    match ReadNat(s)
    case None => None
    case Some(r) =>
      if |r.rest| >= 3 && r.rest[0] == '.' && IsDigit(r.rest[1]) && IsDigit(r.rest[2]) then
        Some(Read(Fixed(negative, r.value * 100 + DigitValue(r.rest[1]) * 10 + DigitValue(r.rest[2])), r.rest[3..]))
      else None
  }

  datatype Metric = Metric(id: string, ip: string, value: Fixed, millis: int)

  function ReadMetric(name: string, s: string): Option<Read<Metric>> {
    match Expect(name + "{machine_id=\"", s)
    case None => None
    case Some(a) =>
      match LabelValue(a)
      case None => None
      case Some(id) =>
        match Expect(",ip=\"", id.rest)
        case None => None
        case Some(b) =>
          match LabelValue(b)
          case None => None
          case Some(ip) =>
            match Expect("} ", ip.rest)
            case None => None
            case Some(c) => ReadNumbers(id.value, ip.value, c)
  }

  function ReadNumbers(id: string, ip: string, s: string): Option<Read<Metric>> {
    match ReadFixed(s)
    case None => None
    case Some(x) =>
      match Expect(" ", x.rest)
      case None => None
      case Some(t) =>
        match ReadInt(t)
        case None => None
        case Some(ms) => Some(Read(Metric(id, ip, x.value, ms.value), ms.rest))
  }

  /** Three metrics that agree on labels and timestamp. */
  function Decode(text: string): Option<Entry> {
    match ReadMetric("host_cpu_usage", text)
    case None => None
    case Some(cpu) =>
      match Expect("\n", cpu.rest)
      case None => None
      case Some(second) =>
        match ReadMetric("host_mem_usage", second)
        case None => None
        case Some(mem) =>
          match Expect("\n", mem.rest)
          case None => None
          case Some(third) =>
            match ReadMetric("host_disk_usage", third)
            case None => None
            case Some(disk) =>
              var a, b, c := cpu.value, mem.value, disk.value;
              if disk.rest == "" && a.id == b.id == c.id && a.ip == b.ip == c.ip && a.millis == b.millis == c.millis
              then Some(Entry(a.id, a.ip, a.value, b.value, c.value, a.millis)) else None
  }

  // ---- Numbers are read back --------------------------------------------------------------------

  /** acc followed by the digits of n, as a number. */
  function Shifted(acc: nat, n: nat): nat {
    if n < 10 then acc * 10 + n else Shifted(acc, n / 10) * 10 + n % 10
  }

  lemma {:induction false} ShiftedZero(n: nat)
    ensures Shifted(0, n) == n
  {
    if n >= 10 {
      ShiftedZero(n / 10);
    }
  }

  lemma {:induction false} DigitsReadBack(acc: nat, n: nat, rest: string)
    ensures ReadDigits(acc, Digits(n) + rest) == ReadDigits(Shifted(acc, n), rest)
    ensures IsDigit(Digits(n)[0])
    decreases n
  {
    if n < 10 {
      assert (Digits(n) + rest)[1..] == rest;
    } else {
      var last := [Digit(n % 10)];
      assert Digits(n) + rest == Digits(n / 10) + (last + rest);
      DigitsReadBack(acc, n / 10, last + rest);
      assert (last + rest)[1..] == rest;
    }
  }

  /** The text goes on with something that is not a digit. */
  predicate Ends(rest: string) { rest == "" || !IsDigit(rest[0]) }

  lemma NatReadBack(n: nat, rest: string)
    requires Ends(rest)
    ensures ReadNat(Digits(n) + rest) == Some(Read(n, rest))
    ensures (Digits(n) + rest)[0] != '-'
  {
    DigitsReadBack(0, n, rest);
    ShiftedZero(n);
  }

  lemma IntReadBack(n: int, rest: string)
    requires Ends(rest)
    ensures ReadInt(ShowInt(n) + rest) == Some(Read(n, rest))
  {
    var text := ShowInt(n) + rest;
    if n < 0 {
      NatReadBack(-n, rest);
      assert text == "-" + (Digits(-n) + rest);
      assert Sign(text) == Read(true, Digits(-n) + rest);
    } else {
      NatReadBack(n, rest);
      assert Sign(text) == Read(false, text);
    }
  }

  lemma DigitReadBack(d: nat)
    requires d < 10
    ensures IsDigit(Digit(d)) && DigitValue(Digit(d)) == d
  {
  }

  lemma LastTwoDigits(h: nat)
    ensures h / 100 * 100 + h / 10 % 10 * 10 + h % 10 == h
  {
  }

  lemma DecimalsReadBack(h: nat, rest: string)
    ensures var tail := Decimals(h) + rest;
            && tail[0] == '.' && IsDigit(tail[1]) && IsDigit(tail[2]) && tail[3..] == rest
            && h / 100 * 100 + DigitValue(tail[1]) * 10 + DigitValue(tail[2]) == h
  {
    LastTwoDigits(h);
    DigitReadBack(h / 10 % 10);
    DigitReadBack(h % 10);
  }

  lemma UnsignedReadBack(x: Fixed, rest: string)
    ensures var body := Digits(x.hundredths / 100) + (Decimals(x.hundredths) + rest);
            ReadUnsigned(x.negative, body) == Some(Read(x, rest)) && body[0] != '-'
  {
    NatReadBack(x.hundredths / 100, Decimals(x.hundredths) + rest);
    DecimalsReadBack(x.hundredths, rest);
  }

  lemma SignReadBack(negative: bool, body: string)
    requires body != "" && body[0] != '-'
    ensures Sign((if negative then "-" else "") + body) == Read(negative, body)
  {
    if negative {
      assert ("-" + body)[1..] == body;
    } else {
      assert "" + body == body;
    }
  }

  lemma FixedParts(x: Fixed, rest: string)
    ensures ShowFixed(x) + rest ==
            (if x.negative then "-" else "") + (Digits(x.hundredths / 100) + (Decimals(x.hundredths) + rest))
  {
  }

  lemma FixedReadBack(x: Fixed, rest: string)
    ensures ReadFixed(ShowFixed(x) + rest) == Some(Read(x, rest))
  {
    var body := Digits(x.hundredths / 100) + (Decimals(x.hundredths) + rest);
    UnsignedReadBack(x, rest);
    SignReadBack(x.negative, body);
    FixedParts(x, rest);
  }

  // ---- Labels are read back exactly when they need no escaping ----------------------------------

  /** Free of quotes, backslashes and line feeds. */
  predicate Clean(s: string) { forall i :: 0 <= i < |s| ==> s[i] !in {'"', '\\', '\n'} }

  lemma {:induction false} CleanLabelReadBack(s: string, rest: string)
    requires Clean(s)
    ensures LabelValue(s + ("\"" + rest)) == Some(Read(s, rest))
  {
    var text := s + ("\"" + rest);
    if s == "" {
      assert text[1..] == rest;
    } else {
      assert text[1..] == s[1..] + ("\"" + rest);
      assert Clean(s[1..]);
      CleanLabelReadBack(s[1..], rest);
      assert s == [s[0]] + s[1..];
    }
  }

  function Backslashes(j: nat): string { seq(j, _ => '\\') }

  /** A reader that has fallen behind by some escapes never catches up. */
  lemma {:induction false} NeverCatchesUp(s: string, j: nat, rest: string)
    requires j > 0
    ensures var r := LabelValue(s + ("\"" + rest)); r.Some? ==> r.value.value != Backslashes(j) + s
  {
    var text := s + ("\"" + rest);
    if |s| >= 2 && s[0] == '\\' && s[1] == '\\' {
      assert text[2..] == s[2..] + ("\"" + rest);
      NeverCatchesUp(s[2..], j + 1, rest);
      var r := LabelValue(text);
      if r.Some? {
        assert r.value.value[1..] == LabelValue(text[2..]).value.value;
        assert (Backslashes(j) + s)[1..] == Backslashes(j + 1) + s[2..];
      }
    } else {
      assert (Backslashes(j) + s)[0] == '\\';
    }
  }

  /** An ordinary first character is read as itself. */
  lemma OrdinaryFirst(s: string, rest: string)
    requires s != "" && s[0] !in {'"', '\\', '\n'} && LabelValue(s + ("\"" + rest)).Some?
    ensures var r := LabelValue(s[1..] + ("\"" + rest));
            r.Some? && LabelValue(s + ("\"" + rest)).value.value == [s[0]] + r.value.value
  {
    assert (s + ("\"" + rest))[1..] == s[1..] + ("\"" + rest);
  }

  /** A label that starts with a backslash is not read back. */
  lemma BackslashFirst(s: string, rest: string)
    requires s != "" && s[0] == '\\'
    ensures var r := LabelValue(s + ("\"" + rest)); r.Some? ==> r.value.value != s
  {
    var text := s + ("\"" + rest);
    if |s| >= 2 && s[1] == '\\' {
      var tail := s[2..];
      assert text[2..] == tail + ("\"" + rest);
      NeverCatchesUp(tail, 1, rest);
      assert s[1..] == Backslashes(1) + tail;
    }
  }

  lemma {:induction false} OnlyCleanLabelReadsBack(s: string, rest: string)
    requires LabelValue(s + ("\"" + rest)).Some? && LabelValue(s + ("\"" + rest)).value.value == s
    ensures Clean(s)
  {
    if s != "" {
      if s[0] == '\\' {
        BackslashFirst(s, rest);
        assert false;
      }
      OrdinaryFirst(s, rest);
      assert s == [s[0]] + s[1..];
      OnlyCleanLabelReadsBack(s[1..], rest);
    }
  }

  // ---- A line -----------------------------------------------------------------------------------

  lemma ExpectOwn(lit: string, rest: string)
    ensures Expect(lit, lit + rest) == Some(rest)
  {
  }

  lemma NumbersReadBack(id: string, ip: string, x: Fixed, millis: int, rest: string)
    requires Ends(rest)
    ensures ReadNumbers(id, ip, ShowFixed(x) + (" " + (ShowInt(millis) + rest)))
         == Some(Read(Metric(id, ip, x, millis), rest))
  {
    FixedReadBack(x, " " + (ShowInt(millis) + rest));
    ExpectOwn(" ", ShowInt(millis) + rest);
    IntReadBack(millis, rest);
  }

  /** The parts of a line, as its reader meets them. */
  lemma LineParts(name: string, e: Entry, x: Fixed, rest: string)
    ensures var numbers := ShowFixed(x) + (" " + (ShowInt(e.millis) + rest));
            var fromIp := e.ip + ("\"" + ("} " + numbers));
            var fromId := e.id + ("\"" + (",ip=\"" + fromIp));
            Line(name, e, x) + rest == (name + "{machine_id=\"") + fromId
  {
    var numbers := ShowFixed(x) + (" " + ShowInt(e.millis));
    assert numbers + rest == ShowFixed(x) + (" " + (ShowInt(e.millis) + rest));
    LabelParts(e.id, e.ip, numbers + rest);
    assert Line(name, e, x) + rest == name + (Labels(e.id, e.ip) + (numbers + rest));
  }

  lemma LabelParts(id: string, ip: string, rest: string)
    ensures Labels(id, ip) + rest == "{machine_id=\"" + (id + ("\"" + (",ip=\"" + (ip + ("\"" + ("} " + rest))))))
  {
  }

  lemma CleanLineReadBack(name: string, e: Entry, x: Fixed, rest: string)
    requires Clean(e.id) && Clean(e.ip) && Ends(rest)
    ensures ReadMetric(name, Line(name, e, x) + rest) == Some(Read(Metric(e.id, e.ip, x, e.millis), rest))
  {
    LineParts(name, e, x, rest);
    var numbers := ShowFixed(x) + (" " + (ShowInt(e.millis) + rest));
    var fromIp := e.ip + ("\"" + ("} " + numbers));
    var fromId := e.id + ("\"" + (",ip=\"" + fromIp));
    ExpectOwn(name + "{machine_id=\"", fromId);
    CleanLabelReadBack(e.id, ",ip=\"" + fromIp);
    ExpectOwn(",ip=\"", fromIp);
    CleanLabelReadBack(e.ip, "} " + numbers);
    ExpectOwn("} ", numbers);
    NumbersReadBack(e.id, e.ip, x, e.millis, rest);
  }

  lemma OnlyCleanLineReadsBack(name: string, e: Entry, x: Fixed, rest: string)
    requires var r := ReadMetric(name, Line(name, e, x) + rest);
             r.Some? && r.value.value.id == e.id && r.value.value.ip == e.ip
    ensures Clean(e.id) && Clean(e.ip)
  {
    LineParts(name, e, x, rest);
    var numbers := ShowFixed(x) + (" " + (ShowInt(e.millis) + rest));
    var fromIp := e.ip + ("\"" + ("} " + numbers));
    var fromId := e.id + ("\"" + (",ip=\"" + fromIp));
    ExpectOwn(name + "{machine_id=\"", fromId);
    OnlyCleanLabelReadsBack(e.id, ",ip=\"" + fromIp);
    CleanLabelReadBack(e.id, ",ip=\"" + fromIp);
    ExpectOwn(",ip=\"", fromIp);
    OnlyCleanLabelReadsBack(e.ip, "} " + numbers);
  }

  /** The text is read back as what was written exactly when neither label holds a quote, a
      backslash or a line feed: the writer escapes nothing. */
  lemma DecodesIffClean(e: Entry)
    ensures Decode(Render(e)) == Some(e) <==> Clean(e.id) && Clean(e.ip)
  {
    var third := Line("host_disk_usage", e, e.disk);
    var second := Line("host_mem_usage", e, e.mem) + ("\n" + third);
    assert third + "" == third;
    if Clean(e.id) && Clean(e.ip) {
      CleanLineReadBack("host_cpu_usage", e, e.cpu, "\n" + second);
      ExpectOwn("\n", second);
      CleanLineReadBack("host_mem_usage", e, e.mem, "\n" + third);
      ExpectOwn("\n", third);
      CleanLineReadBack("host_disk_usage", e, e.disk, "");
    }
    if Decode(Render(e)) == Some(e) {
      OnlyCleanLineReadsBack("host_cpu_usage", e, e.cpu, "\n" + second);
    }
  }

  /** Distinct entries with clean labels never render alike. */
  lemma RenderIsInjective(a: Entry, b: Entry)
    requires Clean(a.id) && Clean(a.ip) && Clean(b.id) && Clean(b.ip)
    requires Render(a) == Render(b)
    ensures a == b
  {
    DecodesIffClean(a);
    DecodesIffClean(b);
  }

  /** With a quote in a label two different machines can render alike. */
  lemma QuotesCollide(x: Fixed, millis: int)
    ensures var a := Entry("a\",ip=\"b", "c", x, x, x, millis);
            var b := Entry("a", "b\",ip=\"c", x, x, x, millis);
            a != b && Render(a) == Render(b)
  {
    var a := Entry("a\",ip=\"b", "c", x, x, x, millis);
    var b := Entry("a", "b\",ip=\"c", x, x, x, millis);
    assert Labels(a.id, a.ip) == Labels(b.id, b.ip);
  }

  // ---- From a sample ----------------------------------------------------------------------------

  /** To the nearest hundredth, ties to the even one. */
  function Hundredths(x: real): nat
    requires x >= 0.0
  {
    var y := x * 100.0;
    var low := y.Floor;
    var part := y - low as real;
    if part < 0.5 || (part == 0.5 && low % 2 == 0) then low else low + 1
  }

  function Rounded(x: real): Fixed { if x < 0.0 then Fixed(true, Hundredths(-x)) else Fixed(false, Hundredths(x)) }

  const TWO_TO_63: int := 0x8000_0000_0000_0000

  /** Seconds to milliseconds in 64-bit arithmetic that wraps around. */
  function Millis(seconds: int): int { (seconds * 1000 + TWO_TO_63) % (2 * TWO_TO_63) - TWO_TO_63 }

  function EntryOf(s: Sample): Entry {
    Entry(s.machine, s.ip, Rounded(s.cpu), Rounded(s.mem), Rounded(s.disk), Millis(s.timestamp))
  }

  lemma MillisExact(seconds: int)
    ensures Millis(seconds) == seconds * 1000 <==> -TWO_TO_63 <= seconds * 1000 < TWO_TO_63
  {
  }

  /** The number a printed value stands for. */
  function ValueOf(x: Fixed): real {
    if x.negative then -(x.hundredths as real / 100.0) else x.hundredths as real / 100.0
  }

  /** v is printed as x: the sign is that of v, no printed value is nearer, and of two equally
      near ones it is the even one. */
  predicate PrintedAs(v: real, x: Fixed) {
    && (x.negative <==> v < 0.0)
    && -0.005 <= ValueOf(x) - v <= 0.005
    && (ValueOf(x) - v == 0.005 || ValueOf(x) - v == -0.005 ==> x.hundredths % 2 == 0)
  }

  lemma HundredthsNear(x: real)
    requires x >= 0.0
    ensures var h := Hundredths(x) as real;
            -0.5 <= h - x * 100.0 <= 0.5
            && (h - x * 100.0 == 0.5 || h - x * 100.0 == -0.5 ==> Hundredths(x) % 2 == 0)
  {
    var low := (x * 100.0).Floor;
    assert (low + 1) as real == low as real + 1.0;
    assert (low + 1) % 2 == 0 || low % 2 == 0;
  }

  lemma RoundedIsPrinted(v: real)
    ensures PrintedAs(v, Rounded(v))
  {
    HundredthsNear(if v < 0.0 then -v else v);
    var x := Rounded(v);
    assert ValueOf(x) * 100.0 == if x.negative then -(x.hundredths as real) else x.hundredths as real;
  }

  /** A value is printed in one way only. */
  lemma PrintedOnce(v: real, x: Fixed, y: Fixed)
    requires PrintedAs(v, x) && PrintedAs(v, y)
    ensures x == y
  {
    var d := x.hundredths - y.hundredths;
    assert -1.0 <= d as real <= 1.0;
  }

  /** A reader of the text learns the labels, the three printed values, each under its own metric
      name, and the milliseconds modulo 2^64. */
  predicate Tells(text: string, s: Sample) {
    match Decode(text)
    case None => false
    case Some(e) =>
      && e.id == s.machine && e.ip == s.ip
      && PrintedAs(s.cpu, e.cpu) && PrintedAs(s.mem, e.mem) && PrintedAs(s.disk, e.disk)
      && -0x8000_0000_0000_0000 <= e.millis <= 0x7fff_ffff_ffff_ffff
      && (e.millis - s.timestamp * 1000) % 0x1_0000_0000_0000_0000 == 0
  }

  lemma MillisWrap(seconds: int)
    ensures -0x8000_0000_0000_0000 <= Millis(seconds) <= 0x7fff_ffff_ffff_ffff
    ensures (Millis(seconds) - seconds * 1000) % 0x1_0000_0000_0000_0000 == 0
  {
  }

  lemma EntryTells(text: string, s: Sample)
    requires Decode(text) == Some(EntryOf(s))
    ensures Tells(text, s)
  {
    RoundedIsPrinted(s.cpu);
    RoundedIsPrinted(s.mem);
    RoundedIsPrinted(s.disk);
    MillisWrap(s.timestamp);
  }

  /** Three lines in the format of the writer, for any labels, clean or not. */
  ghost predicate Formats(text: string, s: Sample, cpu: Fixed, mem: Fixed, disk: Fixed, millis: int) {
    && PrintedAs(s.cpu, cpu) && PrintedAs(s.mem, mem) && PrintedAs(s.disk, disk)
    && -0x8000_0000_0000_0000 <= millis <= 0x7fff_ffff_ffff_ffff
    && (millis - s.timestamp * 1000) % 0x1_0000_0000_0000_0000 == 0
    && var labels := "{machine_id=\"" + s.machine + "\",ip=\"" + s.ip + "\"} ";
    text == "host_cpu_usage" + labels + ShowFixed(cpu) + " " + ShowInt(millis) + "\n"
          + "host_mem_usage" + labels + ShowFixed(mem) + " " + ShowInt(millis) + "\n"
          + "host_disk_usage" + labels + ShowFixed(disk) + " " + ShowInt(millis)
  }

  lemma LineFormat(name: string, e: Entry, x: Fixed)
    ensures Line(name, e, x) ==
            name + ("{machine_id=\"" + e.id + "\",ip=\"" + e.ip + "\"} ") + ShowFixed(x) + " " + ShowInt(e.millis)
  {
  }

  lemma ThreeLines(a: string, b: string, c: string, name: string, labels: string, x: string, t: string,
                   name': string, y: string, name'': string, z: string)
    requires a == name + labels + x + " " + t && b == name' + labels + y + " " + t && c == name'' + labels + z + " " + t
    ensures a + ("\n" + (b + ("\n" + c))) ==
            name + labels + x + " " + t + "\n" + name' + labels + y + " " + t + "\n" + name'' + labels + z + " " + t
  {
  }

  /** What is written for a sample, whatever its labels hold. */
  lemma SampleTextFormat(s: Sample)
    ensures exists cpu, mem, disk, millis :: Formats(Render(EntryOf(s)), s, cpu, mem, disk, millis)
  {
    var e := EntryOf(s);
    var labels := "{machine_id=\"" + s.machine + "\",ip=\"" + s.ip + "\"} ";
    RoundedIsPrinted(s.cpu);
    RoundedIsPrinted(s.mem);
    RoundedIsPrinted(s.disk);
    MillisWrap(s.timestamp);
    LineFormat("host_cpu_usage", e, e.cpu);
    LineFormat("host_mem_usage", e, e.mem);
    LineFormat("host_disk_usage", e, e.disk);
    ThreeLines(Line("host_cpu_usage", e, e.cpu), Line("host_mem_usage", e, e.mem), Line("host_disk_usage", e, e.disk),
               "host_cpu_usage", labels, ShowFixed(e.cpu), ShowInt(e.millis),
               "host_mem_usage", ShowFixed(e.mem), "host_disk_usage", ShowFixed(e.disk));
    assert Formats(Render(e), s, e.cpu, e.mem, e.disk, e.millis);
  }

  /** The text written for a sample tells it and, exactly when the multiplication does not
      overflow, its time. */
  lemma SampleTextIsDecodable(s: Sample)
    requires Clean(s.machine) && Clean(s.ip)
    ensures Tells(Render(EntryOf(s)), s)
    ensures Decode(Render(EntryOf(s))).value.millis == s.timestamp * 1000 <==>
            -0x8000_0000_0000_0000 <= s.timestamp * 1000 <= 0x7fff_ffff_ffff_ffff
  {
    DecodesIffClean(EntryOf(s));
    EntryTells(Render(EntryOf(s)), s);
    MillisExact(s.timestamp);
  }

  const TWO_TO_61: int := 0x2000_0000_0000_0000

  /** The inverse of 125 modulo 2^61, and what its product with 125 carries over. */
  const INVERSE: int := 2066035336255469781
  const CARRY: int := 112

  lemma LargeMultiple(n: int, k: int)
    requires n > 0 && k != 0
    ensures n * k >= n || n * k <= -n
  {
  }

  lemma Congruent(x: int, y: int, n: int, k: int)
    requires n > 0 && x == y + n * k
    ensures x % n == y % n
  {
    var j := k - x / n + y / n;
    assert x % n - y % n == n * j by {
      assert x == n * (x / n) + x % n && y == n * (y / n) + y % n;
      assert n * j == n * k - n * (x / n) + n * (y / n);
    }
    if j != 0 {
      LargeMultiple(n, j);
    }
  }

  /** 1000 is 8 times an odd number, so the multiplication forgets exactly the top three bits. */
  lemma MillisCollideIff(a: int, b: int)
    ensures Millis(a) == Millis(b) <==> (a - b) % TWO_TO_61 == 0
  {
    var d := a - b;
    if Millis(a) == Millis(b) {
      var k := (a * 1000 + TWO_TO_63) / (2 * TWO_TO_63) - (b * 1000 + TWO_TO_63) / (2 * TWO_TO_63);
      assert 125 * d == k * TWO_TO_61;
      assert d == 0 + TWO_TO_61 * (INVERSE * k - CARRY * d);
      Congruent(d, 0, TWO_TO_61, INVERSE * k - CARRY * d);
    }
    if d % TWO_TO_61 == 0 {
      var k := d / TWO_TO_61;
      Congruent(a * 1000 + TWO_TO_63, b * 1000 + TWO_TO_63, 2 * TWO_TO_63, 125 * k);
    }
  }

  lemma SameMillis(seconds: int)
    ensures Millis(seconds) == Millis(seconds + TWO_TO_61)
  {
    Congruent(TWO_TO_61, 0, TWO_TO_61, 1);
    MillisCollideIff(seconds + TWO_TO_61, seconds);
  }

  ghost predicate PrintAlike(u: real, v: real) { exists x :: PrintedAs(u, x) && PrintedAs(v, x) }

  lemma PrintAlikeIff(u: real, v: real)
    ensures PrintAlike(u, v) <==> Rounded(u) == Rounded(v)
  {
    RoundedIsPrinted(u);
    RoundedIsPrinted(v);
    if x :| PrintedAs(u, x) && PrintedAs(v, x) {
      PrintedOnce(u, x, Rounded(u));
      PrintedOnce(v, x, Rounded(v));
    }
  }

  /** Exactly which samples with clean labels are written alike: those with the same labels and
      printed values whose timestamps are a multiple of 2^61 seconds apart. */
  lemma SamplesCollideIff(a: Sample, b: Sample)
    requires Clean(a.machine) && Clean(a.ip) && Clean(b.machine) && Clean(b.ip)
    ensures Render(EntryOf(a)) == Render(EntryOf(b)) <==>
            && a.machine == b.machine && a.ip == b.ip
            && PrintAlike(a.cpu, b.cpu) && PrintAlike(a.mem, b.mem) && PrintAlike(a.disk, b.disk)
            && (a.timestamp - b.timestamp) % 0x2000_0000_0000_0000 == 0
  {
    MillisCollideIff(a.timestamp, b.timestamp);
    PrintAlikeIff(a.cpu, b.cpu);
    PrintAlikeIff(a.mem, b.mem);
    PrintAlikeIff(a.disk, b.disk);
    if Render(EntryOf(a)) == Render(EntryOf(b)) {
      RenderIsInjective(EntryOf(a), EntryOf(b));
    }
  }

  lemma RenderedAlike(a: Sample, b: Sample)
    requires b == a.(timestamp := b.timestamp) && Millis(a.timestamp) == Millis(b.timestamp)
    ensures Render(EntryOf(a)) == Render(EntryOf(b))
  {
    assert EntryOf(a) == EntryOf(b);
  }

  lemma AdmittedUnchanged(s: Sample, now: int)
    requires s.timestamp > 0 && Wire.IsInt64(s.timestamp) && !Text.Blank(s.machine)
    ensures Wire.Admit(Wire.Encode(Wire.PAYLOAD_NAMES, s), now) == Some(s)
  {
    Wire.RoundTrip(Wire.PAYLOAD_NAMES, s);
  }

  /** Two different samples that both pass the handler unchanged and are written alike. */
  lemma OverflowCollides(a: Sample, now: int)
    requires 0 < a.timestamp < TWO_TO_61 && !Text.Blank(a.machine)
    ensures var b := a.(timestamp := a.timestamp + TWO_TO_61);
            && Wire.Admit(Wire.Encode(Wire.PAYLOAD_NAMES, a), now) == Some(a)
            && Wire.Admit(Wire.Encode(Wire.PAYLOAD_NAMES, b), now) == Some(b)
            && a != b && Render(EntryOf(a)) == Render(EntryOf(b))
  {
    var b := a.(timestamp := a.timestamp + TWO_TO_61);
    AdmittedUnchanged(a, now);
    AdmittedUnchanged(b, now);
    SameMillis(a.timestamp);
    RenderedAlike(a, b);
  }
}
