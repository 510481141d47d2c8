/** One line of the request audit: what an invocation says about itself, what the
    ledger accepts, and why everything that is captured fits on a line. */
module AuditEvent {
  import opened Ledger

  const MAX_EVENT := 8192

  type U8 = n: int | 0 <= n < 0x100
  type U32 = n: int | 0 <= n < 0x1_0000_0000
  type U64 = n: int | 0 <= n < 0x1_0000_0000_0000_0000

  datatype Arguments = Arguments(sha256: string, bytes: U64, items: U64)

  datatype Output = Output(durable: Option<bool>, sha256: string, bytes: U64, count: Option<U64>, ids: seq<Id>,
                           receipt: Option<string>)

  /** `month` is the month number of `observedAt`; `operation` is split at its dots. */
  datatype Event = Event(schemaVersion: U8, id: Id, month: nat, observedAt: string, duration: U64, surface: string,
                         operation: seq<string>, project: Option<string>, role: Option<string>,
                         process: Option<string>, pid: U32, actor: Option<string>, lane: Option<string>,
                         instance: Option<string>, session: Option<string>, outcome: string, domainOutcome: string,
                         errorClass: Option<string>, arguments: Arguments, output: Output)

  // ---------------------------------------------------------------------
  // What capture lets through
  // ---------------------------------------------------------------------

  predicate HexDigit(c: char) {
    '0' <= c <= '9' || 'a' <= c <= 'f'
  }

  predicate HexDigest(s: string) {
    |s| == 64 && forall i :: 0 <= i < |s| ==> HexDigit(s[i])
  }

  predicate StartsWith(s: string, prefix: string) {
    |prefix| <= |s| && s[..|prefix|] == prefix
  }

  predicate DigestReference(s: string) {
    StartsWith(s, "sha256:") && HexDigest(s[7..])
  }

  predicate Plain(c: char) {
    'a' <= c <= 'z' || 'A' <= c <= 'Z' || '0' <= c <= '9' || c == '.' || c == '_' || c == '-'
  }

  /** Short, plain, and not the beginning of a credential. */
  predicate Readable(s: string) {
    && 0 < |s| <= 64 && (forall i :: 0 <= i < |s| ==> Plain(s[i]))
    && !StartsWith(s, "sk-") && !StartsWith(s, "ghp_") && !StartsWith(s, "github_pat_") && !StartsWith(s, "xox")
    && !StartsWith(s, "AKIA") && !StartsWith(s, "ASIA") && !StartsWith(s, "eyJ")
  }

  predicate Coordinate(s: string) {
    DigestReference(s) || Readable(s)
  }

  /** `isPublic` is the credential scanner, `sha` the digest in hexadecimal. */
  function CoordinateOf(value: string, isPublic: string -> bool, sha: string -> string): string {
    if Readable(value) && isPublic(value) then value else "sha256:" + sha(value)
  }

  predicate Known(word: string) {
    || word == "init" || word == "record" || word == "import" || word == "compact" || word == "doctor"
    || word == "schema" || word == "profile" || word == "selector" || word == "context" || word == "status"
    || word == "search" || word == "vector" || word == "get" || word == "revoke" || word == "mcp" || word == "owner"
    || word == "grant" || word == "reader" || word == "rebuild" || word == "list" || word == "show"
    || word == "register" || word == "export" || word == "configure" || word == "disable" || word == "sync"
    || word == "drain" || word == "transfer" || word == "add" || word == "schema_list" || word == "schema_show"
    || word == "hook_context" || word == "initialize" || word == "ping" || word == "tools/list"
    || word == "tools/call" || word == "notifications/initialized"
  }

  /** The commands and the methods of the protocol, by name. */
  lemma KnownWords(word: string)
    ensures Known(word) <==>
      word in {"init", "record", "import", "compact", "doctor", "schema", "profile", "selector", "context", "status",
               "search", "vector", "get", "revoke", "mcp", "owner", "grant", "reader", "rebuild", "list", "show",
               "register", "export", "configure", "disable", "sync", "drain", "transfer", "add", "schema_list",
               "schema_show", "hook_context", "initialize", "ping", "tools/list", "tools/call",
               "notifications/initialized"}
  {
  }

  /** Unknown input is a classification, never a caller's string. */
  function OperationOf(word: string): string {
    if Known(word) then word else "invalid"
  }

  predicate KnownClass(class': string) {
    || class' == "io" || class' == "validation" || class' == "authorization" || class' == "post_commit"
    || class' == "audit" || class' == "integrity" || class' == "execution" || class' == "transport"
    || class' == "interrupted"
  }

  function ErrorClassOf(class': string): string {
    if KnownClass(class') then class' else "execution"
  }

  // ---------------------------------------------------------------------
  // What the ledger accepts
  // ---------------------------------------------------------------------

  predicate Absent(value: Option<string>) {
    value.None? || Coordinate(value.value)
  }

  /** What is asked of each field. */
  predicate Accepted(e: Event, f: Field) {
    match f
    case SchemaVersion => e.schemaVersion == 1
    case Surface => e.surface == "cli" || e.surface == "mcp"
    case Operation => e.operation != [] && forall word :: word in e.operation ==> OperationOf(word) == word
    case Duration => e.duration <= 0x7FFF_FFFF_FFFF_FFFF
    case Project => Absent(e.project)
    case Role => Absent(e.role)
    case Process => Absent(e.process)
    case Actor => Absent(e.actor)
    case Lane => Absent(e.lane)
    case Instance => Absent(e.instance)
    case Session => Absent(e.session)
    case OutcomeField => e.outcome == "success" || e.outcome == "error"
    case DomainOutcome => e.domainOutcome == "success" || e.domainOutcome == "error" || e.domainOutcome == "unknown"
    case ErrorClass => e.errorClass.Some? ==> ErrorClassOf(e.errorClass.value) == e.errorClass.value
    case ArgumentsField => HexDigest(e.arguments.sha256)
    case OutputField =>
      && HexDigest(e.output.sha256) && (e.output.receipt.Some? ==> HexDigest(e.output.receipt.value))
      && |e.output.ids| <= 16
    case _ => true
  }

  /** Event::valid. */
  predicate ValidEvent(e: Event) {
    forall f: Field :: Accepted(e, f)
  }

  predicate StampChar(c: char) {
    '0' <= c <= '9' || c == '-' || c == '+' || c == ':' || c == '.' || c == 'T' || c == 'Z'
  }

  /** What holds of every event by the way it is made: a command and at most one
      subcommand, and a formatted timestamp. */
  predicate Bounded(e: Event) {
    |e.operation| <= 2 && |e.observedAt| <= 40 && forall i :: 0 <= i < |e.observedAt| ==> StampChar(e.observedAt[i])
  }

  predicate Captured(e: Event) {
    ValidEvent(e) && Bounded(e)
  }

  /** What recovery writes for an invocation nobody finished. */
  function Interrupted(e: Event): Event {
    e.(outcome := "error", errorClass := Some("interrupted"))
  }

  /** The event says its invocation was cut off, and otherwise what `from` said. */
  ghost predicate WrittenOff(e: Event, from: Event) {
    e.outcome == "error" && e.errorClass == Some("interrupted")
    && e == from.(outcome := e.outcome, errorClass := e.errorClass)
  }

  // ---------------------------------------------------------------------
  // Its line
  // ---------------------------------------------------------------------

  function Digit(n: nat): char
    requires n < 10
  {
    '0' + n as char
  }

  function Decimal(n: nat): string {
    if n < 10 then [Digit(n)] else Decimal(n / 10) + [Digit(n % 10)]
  }

  function Hex(n: nat, width: nat): string {
    if width == 0 then ""
    else Hex(n / 16, width - 1) + [if n % 16 < 10 then '0' + (n % 16) as char else 'a' + (n % 16 - 10) as char]
  }

  function Uuid(id: Id): string {
    var low := id % 0x1_0000_0000_0000_0000;
    var high := id / 0x1_0000_0000_0000_0000;
    Hex(high / 0x1_0000_0000, 8) + "-" + Hex(high / 0x1_0000, 4) + "-" + Hex(high, 4) + "-"
    + Hex(low / 0x1_0000_0000_0000, 4) + "-" + Hex(low, 12)
  }

  /** The strings of an accepted event need no escapes. */
  function Quote(s: string): string {
    "\"" + s + "\""
  }

  function Optional(s: Option<string>): string {
    if s.None? then "null" else Quote(s.value)
  }

  function Number(n: Option<U64>): string {
    if n.None? then "null" else Decimal(n.value)
  }

  function Flag(b: Option<bool>): string {
    if b.None? then "null" else if b.value then "true" else "false"
  }

  function Dotted(words: seq<string>): string {
    if words == [] then "" else if |words| == 1 then words[0] else words[0] + "." + Dotted(words[1..])
  }

  function Ids(ids: seq<Id>): string {
    if ids == [] then "" else Ids(ids[..|ids| - 1]) + (if |ids| == 1 then "" else ",") + Quote(Uuid(ids[|ids| - 1]))
  }

  function ArgumentsJson(a: Arguments): string {
    "{\"sha256\":" + Quote(a.sha256) + ",\"bytes\":" + Decimal(a.bytes) + ",\"items\":" + Decimal(a.items) + "}"
  }

  function OutputJson(o: Output): string {
    ("{\"durable\":" + Flag(o.durable) + ",\"sha256\":" + Quote(o.sha256) + ",\"bytes\":" + Decimal(o.bytes))
    + (",\"count\":" + Number(o.count) + ",\"ids\":[" + Ids(o.ids)
       + "],\"receipt_sha256\":" + Optional(o.receipt) + "}")
  }

  datatype Field =
    | SchemaVersion | EventId | ObservedAt | Duration | Surface | Operation | Project | Role | Process | Pid | Actor
    | Lane | Instance | Session | OutcomeField | DomainOutcome | ErrorClass | ArgumentsField | OutputField

  const FIELDS: seq<Field> := [
    SchemaVersion, EventId, ObservedAt, Duration, Surface, Operation, Project, Role, Process, Pid, Actor,
    Lane, Instance, Session, OutcomeField, DomainOutcome, ErrorClass, ArgumentsField, OutputField]

  function Name(f: Field): string {
    match f
    case SchemaVersion => "schema_version"
    case EventId => "id"
    case ObservedAt => "observed_at"
    case Duration => "duration_us"
    case Surface => "surface"
    case Operation => "operation"
    case Project => "project"
    case Role => "role"
    case Process => "process"
    case Pid => "pid"
    case Actor => "actor_claimed"
    case Lane => "lane_claimed"
    case Instance => "instance"
    case Session => "session"
    case OutcomeField => "outcome"
    case DomainOutcome => "domain_outcome"
    case ErrorClass => "error_class"
    case ArgumentsField => "arguments"
    case OutputField => "output"
  }

  function Value(e: Event, f: Field): string {
    match f
    case SchemaVersion => Decimal(e.schemaVersion)
    case EventId => Quote(Uuid(e.id))
    case ObservedAt => Quote(e.observedAt)
    case Duration => Decimal(e.duration)
    case Surface => Quote(e.surface)
    case Operation => Quote(Dotted(e.operation))
    case Project => Optional(e.project)
    case Role => Optional(e.role)
    case Process => Optional(e.process)
    case Pid => Decimal(e.pid)
    case Actor => Optional(e.actor)
    case Lane => Optional(e.lane)
    case Instance => Optional(e.instance)
    case Session => Optional(e.session)
    case OutcomeField => Quote(e.outcome)
    case DomainOutcome => Quote(e.domainOutcome)
    case ErrorClass => Optional(e.errorClass)
    case ArgumentsField => ArgumentsJson(e.arguments)
    case OutputField => OutputJson(e.output)
  }

  function Member(e: Event, f: Field): string {
    Quote(Name(f)) + ":" + Value(e, f)
  }

  function Members(e: Event, fields: seq<Field>): string {
    if fields == [] then ""
    else
      Members(e, fields[..|fields| - 1]) + (if |fields| == 1 then "" else ",") + Member(e, fields[|fields| - 1])
  }

  function Line(e: Event): (line: string)
    ensures |line| > 0 && line[|line| - 1] == '\n'
  {
    "{" + Members(e, FIELDS) + "}\n"
  }

  predicate Fits(e: Event) {
    ValidEvent(e) && |Line(e)| <= MAX_EVENT
  }

  // ---------------------------------------------------------------------
  // Everything captured fits
  // ---------------------------------------------------------------------

  function Ten(k: nat): nat {
    if k == 0 then 1 else 10 * Ten(k - 1)
  }

  lemma {:induction false} DecimalLength(n: nat, k: nat)
    requires k > 0 && n < Ten(k)
    ensures 0 < |Decimal(n)| <= k
  {
    if n >= 10 {
      DecimalLength(n / 10, k - 1);
    }
  }

  lemma NumberLength(n: U64)
    ensures 0 < |Decimal(n)| <= 20
  {
    assert Ten(5) == 10_0000;
    assert Ten(10) == 100_0000_0000;
    assert Ten(15) == 1000_0000_0000_0000;
    assert Ten(20) == 1_0000_0000_0000_0000_0000;
    DecimalLength(n, 20);
  }

  lemma {:induction false} HexLength(n: nat, width: nat)
    ensures |Hex(n, width)| == width
    ensures forall i :: 0 <= i < width ==> HexDigit(Hex(n, width)[i])
  {
    if width > 0 {
      HexLength(n / 16, width - 1);
    }
  }

  lemma UuidLength(id: Id)
    ensures |Uuid(id)| == 36 && forall i :: 0 <= i < 36 ==> HexDigit(Uuid(id)[i]) || Uuid(id)[i] == '-'
    ensures HexDigit(Uuid(id)[0]) && HexDigit(Uuid(id)[1])
  {
    var low, high := id % 0x1_0000_0000_0000_0000, id / 0x1_0000_0000_0000_0000;
    HexLength(high / 0x1_0000_0000, 8);
    HexLength(high / 0x1_0000, 4);
    HexLength(high, 4);
    HexLength(low / 0x1_0000_0000_0000, 4);
    HexLength(low, 12);
  }

  lemma {:induction false} IdsLength(ids: seq<Id>)
    ensures |Ids(ids)| <= 39 * |ids|
  {
    if ids != [] {
      IdsLength(ids[..|ids| - 1]);
      UuidLength(ids[|ids| - 1]);
    }
  }

  lemma WordLength(word: string)
    requires OperationOf(word) == word
    ensures |word| <= 25
  {
  }

  lemma DottedLength(words: seq<string>)
    requires |words| <= 2 && forall word :: word in words ==> OperationOf(word) == word
    ensures |Dotted(words)| <= 51
  {
    forall word | word in words ensures |word| <= 25 {
      WordLength(word);
    }
    if |words| == 2 {
      assert words[0] in words && words[1] in words;
      assert words[1..] == [words[1]];
    } else if |words| == 1 {
      assert words[0] in words;
    }
  }

  lemma OutputLength(o: Output)
    requires HexDigest(o.sha256) && (o.receipt.Some? ==> HexDigest(o.receipt.value)) && |o.ids| <= 16
    ensures |OutputJson(o)| <= 1000
  {
    NumberLength(o.bytes);
    if o.count.Some? {
      NumberLength(o.count.value);
    }
    IdsLength(o.ids);
    assert |"{\"durable\":" + Flag(o.durable) + ",\"sha256\":" + Quote(o.sha256)
            + ",\"bytes\":" + Decimal(o.bytes)| <= 140;
  }

  lemma ArgumentsLength(a: Arguments)
    requires HexDigest(a.sha256)
    ensures |ArgumentsJson(a)| <= 180
  {
    NumberLength(a.bytes);
    NumberLength(a.items);
  }

  /** No value but the two nested ones exceeds a digest reference in quotes. */
  function Most(f: Field): nat {
    if f == OutputField then 1000 else if f == ArgumentsField then 180 else 80
  }

  lemma ValueLength(e: Event, f: Field)
    requires Captured(e)
    ensures |Value(e, f)| <= Most(f)
  {
    assert Accepted(e, f);
    match f
    case SchemaVersion => NumberLength(e.schemaVersion);
    case EventId => UuidLength(e.id);
    case Duration => NumberLength(e.duration);
    case Operation => DottedLength(e.operation);
    case Pid => NumberLength(e.pid);
    case ArgumentsField => ArgumentsLength(e.arguments);
    case OutputField => OutputLength(e.output);
    case _ =>
  }

  function Room(fields: seq<Field>): nat {
    if fields == [] then 0 else Room(fields[..|fields| - 1]) + 20 + Most(fields[|fields| - 1])
  }

  lemma {:induction false} MembersLength(e: Event, fields: seq<Field>)
    requires Captured(e)
    ensures |Members(e, fields)| <= Room(fields)
  {
    if fields != [] {
      MembersLength(e, fields[..|fields| - 1]);
      ValueLength(e, fields[|fields| - 1]);
    }
  }

  lemma RoomStep(fields: seq<Field>, f: Field)
    ensures Room(fields + [f]) == Room(fields) + 20 + Most(f)
  {
    assert (fields + [f])[..|fields|] == fields;
  }

  lemma {:induction false} RoomOfSmall(fields: seq<Field>)
    requires forall i :: 0 <= i < |fields| ==> Most(fields[i]) == 80
    ensures Room(fields) == 100 * |fields|
  {
    if fields != [] {
      RoomOfSmall(fields[..|fields| - 1]);
    }
  }

  lemma RoomForAll()
    ensures Room(FIELDS) == 2920
  {
    var small := FIELDS[..17];
    RoomOfSmall(small);
    RoomStep(small, ArgumentsField);
    RoomStep(small + [ArgumentsField], OutputField);
    assert FIELDS == small + [ArgumentsField] + [OutputField];
  }

  lemma LineIsShort(e: Event)
    requires Captured(e)
    ensures |Line(e)| <= MAX_EVENT
  {
    MembersLength(e, FIELDS);
    RoomForAll();
  }

  /** Whatever is captured can be written down, as it is and as interrupted. */
  lemma CapturedFits(e: Event)
    requires Captured(e)
    ensures Fits(e) && Captured(Interrupted(e)) && Fits(Interrupted(e))
  {
    InterruptedIsCaptured(e);
    LineIsShort(e);
    LineIsShort(Interrupted(e));
  }

  lemma InterruptedIsCaptured(e: Event)
    requires Captured(e)
    ensures Captured(Interrupted(e))
  {
    forall f ensures Accepted(Interrupted(e), f) {
      assert Accepted(e, f);
    }
  }

  // ---------------------------------------------------------------------
  // A line is one line
  // ---------------------------------------------------------------------

  predicate Unbroken(s: string) {
    '\n' !in s
  }

  lemma {:induction false} DecimalUnbroken(n: nat)
    ensures Unbroken(Decimal(n))
  {
    if n >= 10 {
      DecimalUnbroken(n / 10);
    }
  }

  lemma {:induction false} IdsUnbroken(ids: seq<Id>)
    ensures Unbroken(Ids(ids))
  {
    if ids != [] {
      IdsUnbroken(ids[..|ids| - 1]);
      UuidLength(ids[|ids| - 1]);
    }
  }

  lemma WordUnbroken(word: string)
    requires OperationOf(word) == word
    ensures Unbroken(word)
  {
  }

  lemma DottedUnbroken(words: seq<string>)
    requires |words| <= 2 && forall word :: word in words ==> OperationOf(word) == word
    ensures Unbroken(Dotted(words))
  {
    forall word | word in words ensures Unbroken(word) {
      WordUnbroken(word);
    }
    if |words| == 2 {
      assert words[0] in words && words[1] in words;
      assert words[1..] == [words[1]];
    } else if |words| == 1 {
      assert words[0] in words;
    }
  }

  lemma TextUnbroken(value: Option<string>)
    requires Absent(value)
    ensures Unbroken(Optional(value))
  {
    if value.Some? && DigestReference(value.value) {
      var s := value.value;
      assert s == "sha256:" + s[7..];
    }
  }

  lemma ArgumentsUnbroken(a: Arguments)
    requires HexDigest(a.sha256)
    ensures Unbroken(ArgumentsJson(a))
  {
    DecimalUnbroken(a.bytes);
    DecimalUnbroken(a.items);
  }

  lemma DigestUnbroken(s: string)
    requires HexDigest(s)
    ensures Unbroken(Quote(s))
  {
  }

  lemma OutputUnbroken(o: Output)
    requires HexDigest(o.sha256) && (o.receipt.Some? ==> HexDigest(o.receipt.value))
    ensures Unbroken(OutputJson(o))
  {
    DecimalUnbroken(o.bytes);
    DigestUnbroken(o.sha256);
    IdsUnbroken(o.ids);
    assert Unbroken(Number(o.count)) by {
      if o.count.Some? { DecimalUnbroken(o.count.value); }
    }
    assert Unbroken(Optional(o.receipt)) by {
      if o.receipt.Some? { DigestUnbroken(o.receipt.value); }
    }
    OutputParts(Flag(o.durable), Quote(o.sha256), Decimal(o.bytes), Number(o.count), Ids(o.ids), Optional(o.receipt));
  }

  lemma OutputParts(durable: string, sha: string, bytes: string, count: string, ids: string, receipt: string)
    requires Unbroken(durable) && Unbroken(sha) && Unbroken(bytes)
    requires Unbroken(count) && Unbroken(ids) && Unbroken(receipt)
    ensures Unbroken(("{\"durable\":" + durable + ",\"sha256\":" + sha + ",\"bytes\":" + bytes)
      + (",\"count\":" + count + ",\"ids\":[" + ids + "],\"receipt_sha256\":" + receipt + "}"))
  {
  }

  lemma StampUnbroken(stamp: string)
    requires forall i :: 0 <= i < |stamp| ==> StampChar(stamp[i])
    ensures Unbroken(Quote(stamp))
  {
  }

  lemma OutcomesUnbroken(e: Event)
    requires ValidEvent(e)
    ensures Unbroken(Quote(e.surface)) && Unbroken(Quote(e.outcome)) && Unbroken(Quote(e.domainOutcome))
  {
    assert Accepted(e, Surface) && Accepted(e, OutcomeField) && Accepted(e, DomainOutcome);
  }

  lemma ClassUnbroken(class': string)
    requires ErrorClassOf(class') == class'
    ensures Unbroken(Quote(class'))
  {
  }

  lemma ValueUnbroken(e: Event, f: Field)
    requires Captured(e)
    ensures Unbroken(Value(e, f))
  {
    assert Accepted(e, f);
    match f
    case ArgumentsField => ArgumentsUnbroken(e.arguments);
    case OutputField => OutputUnbroken(e.output);
    case Project => TextUnbroken(e.project);
    case Role => TextUnbroken(e.role);
    case Process => TextUnbroken(e.process);
    case Actor => TextUnbroken(e.actor);
    case Lane => TextUnbroken(e.lane);
    case Instance => TextUnbroken(e.instance);
    case Session => TextUnbroken(e.session);
    case ObservedAt => StampUnbroken(e.observedAt);
    case ErrorClass => if e.errorClass.Some? { ClassUnbroken(e.errorClass.value); }
    case SchemaVersion => DecimalUnbroken(e.schemaVersion);
    case EventId => UuidLength(e.id);
    case Duration => DecimalUnbroken(e.duration);
    case Operation => DottedUnbroken(e.operation);
    case Pid => DecimalUnbroken(e.pid);
    case _ => OutcomesUnbroken(e);
  }

  lemma NameUnbroken(f: Field)
    ensures Unbroken(Quote(Name(f)) + ":")
  {
  }

  lemma MemberUnbroken(e: Event, f: Field)
    requires Captured(e)
    ensures Unbroken(Member(e, f))
  {
    NameUnbroken(f);
    ValueUnbroken(e, f);
    Joined(Quote(Name(f)) + ":", Value(e, f));
  }

  lemma Joined(a: string, b: string)
    requires Unbroken(a) && Unbroken(b)
    ensures Unbroken(a + b)
  {
  }

  lemma {:induction false} MembersUnbroken(e: Event, fields: seq<Field>)
    requires Captured(e)
    ensures Unbroken(Members(e, fields))
  {
    if fields != [] {
      var front, last := Members(e, fields[..|fields| - 1]), fields[|fields| - 1];
      MembersUnbroken(e, fields[..|fields| - 1]);
      MemberUnbroken(e, last);
      var comma := if |fields| == 1 then "" else ",";
      Joined(front, comma);
      Joined(front + comma, Member(e, last));
    }
  }

  /** No field can end the line early or hide another one in it. */
  lemma LineIsOneLine(e: Event)
    requires Captured(e)
    ensures forall i :: 0 <= i < |Line(e)| ==> (Line(e)[i] == '\n' <==> i == |Line(e)| - 1)
  {
    MembersUnbroken(e, FIELDS);
  }
}
