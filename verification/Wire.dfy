// How a sample travels: the field names of each hop, and what a handler admits.

module Text {
  /** The white space that trimming removes. */
  predicate IsSpace(c: char) {
    || '\t' <= c <= '\r'
    || c in {' ', '\U{0085}', '\U{00A0}', '\U{1680}', '\U{2028}', '\U{2029}', '\U{202F}', '\U{205F}', '\U{3000}'}
    || '\U{2000}' <= c <= '\U{200A}'
  }

  /** Nothing is left after trimming. */
  predicate Blank(s: string) { forall i :: 0 <= i < |s| ==> IsSpace(s[i]) }

  /** The code points with the property White_Space (PropList of the Unicode Character Database). */
  const WHITE_SPACE: set<int> :=
    {0x09, 0x0A, 0x0B, 0x0C, 0x0D, 0x20, 0x85, 0xA0, 0x1680, 0x2000, 0x2001, 0x2002, 0x2003, 0x2004, 0x2005,
     0x2006, 0x2007, 0x2008, 0x2009, 0x200A, 0x2028, 0x2029, 0x202F, 0x205F, 0x3000}

  lemma SpacesAreWhiteSpace(c: char)
    ensures IsSpace(c) <==> c as int in WHITE_SPACE
  {
  }

  lemma NotBlankIff(s: string)
    ensures !Blank(s) <==> exists i :: 0 <= i < |s| && s[i] as int !in WHITE_SPACE
  {
    forall i | 0 <= i < |s| ensures IsSpace(s[i]) <==> s[i] as int in WHITE_SPACE {
      SpacesAreWhiteSpace(s[i]);
    }
  }
}

module Wire {
  import opened AlertModel
  import Text

  datatype Json = Str(s: string) | Num(n: real)

  /** A message or a body: a JSON object, or bytes that are none. */
  datatype Body = Object(fields: map<string, Json>) | Garbage

  /** The names one hop gives to the fields of a sample. */
  datatype Names = Names(machine: string, ip: string, cpu: string, mem: string, disk: string, timestamp: string)

  /** The names on the topic: the Go field names of the event type. */
  const EVENT_NAMES := Names("MachineID", "IP", "CPUUsage", "MemUsage", "DiskUsage", "Timestamp")

  /** The names on the HTTP interface. */
  const PAYLOAD_NAMES := Names("machine_id", "ip", "cpu_usage", "mem_usage", "disk_usage", "timestamp")

  predicate IsInt64(n: int) { -0x8000_0000_0000_0000 <= n <= 0x7fff_ffff_ffff_ffff }

  function Encode(n: Names, s: Sample): Body {
    Object(map[n.machine := Str(s.machine), n.ip := Str(s.ip), n.cpu := Num(s.cpu), n.mem := Num(s.mem),
               n.disk := Num(s.disk), n.timestamp := Num(s.timestamp as real)])
  }

  /** A missing field decodes to its zero value, a field of the wrong kind to an error. */
  function StringField(fields: map<string, Json>, name: string): Option<string> {
    if name !in fields then Some("") else match fields[name] { case Str(s) => Some(s) case Num(_) => None }
  }

  function RealField(fields: map<string, Json>, name: string): Option<real> {
    if name !in fields then Some(0.0) else match fields[name] { case Str(_) => None case Num(n) => Some(n) }
  }

  function Int64Field(fields: map<string, Json>, name: string): Option<int> {
    match RealField(fields, name)
    case None => None
    case Some(n) => if n.Floor as real == n && IsInt64(n.Floor) then Some(n.Floor) else None
  }

  function Decode(n: Names, b: Body): Option<Sample> {
    match b
    case Garbage => None
    case Object(f) =>
      match (StringField(f, n.machine), StringField(f, n.ip), RealField(f, n.cpu), RealField(f, n.mem),
             RealField(f, n.disk), Int64Field(f, n.timestamp))
      case (Some(machine), Some(ip), Some(cpu), Some(mem), Some(disk), Some(ts)) =>
        Some(Sample(machine, ip, cpu, mem, disk, ts))
      case _ => None
  }

  /** What the worker puts into the body it forwards. */
  function Forwarded(message: Body): Option<Body> {
    match Decode(EVENT_NAMES, message)
    case None => None
    case Some(s) => Some(Encode(PAYLOAD_NAMES, s))
  }

  /** A handler refuses a blank machine id and stamps a missing timestamp. */
  function Admit(b: Body, now: int): Option<Sample> {
    match Decode(PAYLOAD_NAMES, b)
    case None => None
    case Some(s) =>
      if Text.Blank(s.machine) then None
      else Some(if s.timestamp <= 0 then s.(timestamp := now) else s)
  }

  // ---- Which JSON field is which field of a sample ---------------------------------------------

  /** The string under the key; an absent key means the empty string. */
  ghost predicate HasString(f: map<string, Json>, key: string, s: string) {
    if key in f then f[key] == Str(s) else s == ""
  }

  /** The number under the key; an absent key means zero. */
  ghost predicate HasNumber(f: map<string, Json>, key: string, n: real) {
    if key in f then f[key] == Num(n) else n == 0.0
  }

  /** What a request body says, key by key. */
  ghost predicate BodySays(b: Body, s: Sample) {
    && b.Object?
    && HasString(b.fields, "machine_id", s.machine)
    && HasString(b.fields, "ip", s.ip)
    && HasNumber(b.fields, "cpu_usage", s.cpu)
    && HasNumber(b.fields, "mem_usage", s.mem)
    && HasNumber(b.fields, "disk_usage", s.disk)
    && HasNumber(b.fields, "timestamp", s.timestamp as real)
    && -0x8000_0000_0000_0000 <= s.timestamp <= 0x7fff_ffff_ffff_ffff
  }

  /** What a message of the topic says, key by key. */
  ghost predicate MessageSays(b: Body, s: Sample) {
    && b.Object?
    && HasString(b.fields, "MachineID", s.machine)
    && HasString(b.fields, "IP", s.ip)
    && HasNumber(b.fields, "CPUUsage", s.cpu)
    && HasNumber(b.fields, "MemUsage", s.mem)
    && HasNumber(b.fields, "DiskUsage", s.disk)
    && HasNumber(b.fields, "Timestamp", s.timestamp as real)
    && -0x8000_0000_0000_0000 <= s.timestamp <= 0x7fff_ffff_ffff_ffff
  }

  lemma StringFieldIs(f: map<string, Json>, key: string, s: string)
    ensures StringField(f, key) == Some(s) <==> HasString(f, key, s)
  {
  }

  lemma RealFieldIs(f: map<string, Json>, key: string, n: real)
    ensures RealField(f, key) == Some(n) <==> HasNumber(f, key, n)
  {
  }

  lemma Int64FieldIs(f: map<string, Json>, key: string, n: int)
    ensures Int64Field(f, key) == Some(n) <==>
            HasNumber(f, key, n as real) && -0x8000_0000_0000_0000 <= n <= 0x7fff_ffff_ffff_ffff
  {
    RealFieldIs(f, key, n as real);
  }

  /** Each field of a decoded sample is what its own key says. */
  lemma DecodedFields(n: Names, b: Body, s: Sample)
    ensures Decode(n, b) == Some(s) <==>
            && b.Object?
            && HasString(b.fields, n.machine, s.machine) && HasString(b.fields, n.ip, s.ip)
            && HasNumber(b.fields, n.cpu, s.cpu) && HasNumber(b.fields, n.mem, s.mem)
            && HasNumber(b.fields, n.disk, s.disk) && HasNumber(b.fields, n.timestamp, s.timestamp as real)
            && -0x8000_0000_0000_0000 <= s.timestamp <= 0x7fff_ffff_ffff_ffff
  {
    if b.Object? {
      StringFieldIs(b.fields, n.machine, s.machine);
      StringFieldIs(b.fields, n.ip, s.ip);
      RealFieldIs(b.fields, n.cpu, s.cpu);
      RealFieldIs(b.fields, n.mem, s.mem);
      RealFieldIs(b.fields, n.disk, s.disk);
      Int64FieldIs(b.fields, n.timestamp, s.timestamp);
    }
  }

  /** A time the sender left out is filled in with the server's own. */
  function Stamped(said: Sample, now: int): Sample {
    said.(timestamp := if said.timestamp > 0 then said.timestamp else now)
  }

  /** A request is admitted as s exactly when its body says s, up to a missing time, and its
      machine id holds a character that is not white space. */
  lemma AdmittedIff(b: Body, now: int, s: Sample)
    ensures Admit(b, now) == Some(s) <==>
            && (exists said :: BodySays(b, said) && s == Stamped(said, now))
            && exists i :: 0 <= i < |s.machine| && s.machine[i] as int !in Text.WHITE_SPACE
  {
    Text.NotBlankIff(s.machine);
    if said :| BodySays(b, said) && s == Stamped(said, now) {
      DecodedFields(PAYLOAD_NAMES, b, said);
    }
    if Admit(b, now) == Some(s) {
      var said := Decode(PAYLOAD_NAMES, b).value;
      DecodedFields(PAYLOAD_NAMES, b, said);
      assert BodySays(b, said) && s == Stamped(said, now);
    }
  }

  /** The message published for a sample, key by key. */
  lemma PublishedMessage(s: Sample)
    ensures Encode(EVENT_NAMES, s) ==
            Object(map["MachineID" := Str(s.machine), "IP" := Str(s.ip), "CPUUsage" := Num(s.cpu),
                       "MemUsage" := Num(s.mem), "DiskUsage" := Num(s.disk), "Timestamp" := Num(s.timestamp as real)])
  {
  }

  /** The worker forwards a body exactly for a message that says a sample, and the body says the
      same sample under the keys of the process entrance. */
  lemma ForwardedIff(message: Body, body: Body)
    ensures Forwarded(message) == Some(body) <==>
            exists said :: MessageSays(message, said) &&
              body == Object(map["machine_id" := Str(said.machine), "ip" := Str(said.ip), "cpu_usage" := Num(said.cpu),
                                 "mem_usage" := Num(said.mem), "disk_usage" := Num(said.disk),
                                 "timestamp" := Num(said.timestamp as real)])
  {
    if Forwarded(message) == Some(body) {
      var said := Decode(EVENT_NAMES, message).value;
      DecodedFields(EVENT_NAMES, message, said);
      assert MessageSays(message, said);
    }
    forall said | MessageSays(message, said) ensures Decode(EVENT_NAMES, message) == Some(said) {
      DecodedFields(EVENT_NAMES, message, said);
    }
  }

  lemma RoundTrip(n: Names, s: Sample)
    requires n == EVENT_NAMES || n == PAYLOAD_NAMES
    requires IsInt64(s.timestamp)
    ensures Decode(n, Encode(n, s)) == Some(s)
  {
  }

  lemma DecodedTimestampFits(n: Names, b: Body)
    ensures Decode(n, b).Some? ==> IsInt64(Decode(n, b).value.timestamp)
  {
  }

  /** A sample one handler admitted and published reaches the next handler unchanged. */
  lemma SampleUnchangedEndToEnd(b: Body, now: int, later: int)
    requires 0 < now && IsInt64(now) && Admit(b, now).Some?
    ensures var s := Admit(b, now).value;
            var body := Forwarded(Encode(EVENT_NAMES, s));
            body.Some? && Admit(body.value, later) == Some(s)
  {
    DecodedTimestampFits(PAYLOAD_NAMES, b);
    var s := Admit(b, now).value;
    RoundTrip(EVENT_NAMES, s);
    RoundTrip(PAYLOAD_NAMES, s);
  }

  /** The worker changes nothing in a message it can decode, whoever wrote it. */
  lemma ForwardKeepsSample(message: Body)
    requires Decode(EVENT_NAMES, message).Some?
    ensures Forwarded(message).Some?
    ensures Decode(PAYLOAD_NAMES, Forwarded(message).value) == Decode(EVENT_NAMES, message)
  {
  }
}
