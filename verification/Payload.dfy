/** Job payloads: what the server validates and stores, and what the agent's handlers read back. */
module JobPayload {
  import opened Base

  /** What Python's int() makes of a value: a number, a TypeError/ValueError, or an OverflowError. */
  datatype IntResult = IsInt(n: int) | NotInt | Overflows

  /**
   * A JSON value as both programs see it. `Other` stands for booleans, fractions, null, lists and
   * objects: it carries what str() and int() return for the value on the server and what a Go
   * float64 assertion yields on the agent.
   */
  datatype Json =
    | Text(s: string)
    | Number(n: int)
    | Other(asStr: string, asInt: IntResult, asFloat: Option<real>)

  /** A payload's keys; `OtherKey` is any name no handler knows. */
  datatype Key = Subnet | LineCount | ServiceName | OtherKey(name: string)

  type Payload = map<Key, Json>

  /** ALLOWED_JOB_TYPES, and every other type name a request may carry. */
  datatype JobType =
    | Ping
    | RefreshInventory
    | CollectAgentLogs
    | GetServiceStatus
    | NetworkDiscovery
    | ArpScan
    | DnsDiscovery
    | SnmpDiscovery
    | Unsupported(name: string)
  {
    predicate Allowed() { !Unsupported? }
    predicate TakesNothing() { Ping? || RefreshInventory? }
    predicate Discovers() { NetworkDiscovery? || ArpScan? || DnsDiscovery? || SnmpDiscovery? }
  }

  datatype Checked = Accepted(payload: Payload) | BadRequest | ServerError

  // ---- The server's conversions and character classes ----

  function PyStr(v: Json): string {
    match v
    case Text(s) => s
    case Number(n) => Decimal(n)
    case Other(s, _, _) => s
  }

  function PyInt(v: Json): IntResult {
    match v
    case Text(s) => ParseInt(s)
    case Number(n) => IsInt(n)
    case Other(_, i, _) => i
  }

  function Decimal(n: int): string {
    if n < 0 then "-" + Digits(-n) else Digits(n)
  }

  function Digits(n: nat): string {
    if n < 10 then [DigitChar(n)] else Digits(n / 10) + [DigitChar(n % 10)]
  }

  function DigitChar(d: nat): char
    requires d < 10
  {
    ('0' as int + d) as char
  }

  predicate IsDigit(c: char) { '0' <= c <= '9' }

  predicate IsSpace(c: char) { c in " \t\n\r" }

  /** int() on text: blanks around it, one optional sign, digits with single underscores between. */
  function ParseInt(s: string): IntResult {
    var t := Strip(s);
    if t != "" && t[0] == '-' then
      match ParseDigits(t[1..], 0, false) { case IsInt(n) => IsInt(-n) case r => r }
    else if t != "" && t[0] == '+' then ParseDigits(t[1..], 0, false)
    else ParseDigits(t, 0, false)
  }

  function Strip(s: string): string {
    if s != "" && IsSpace(s[0]) then Strip(s[1..])
    else if s != "" && IsSpace(s[|s| - 1]) then Strip(s[..|s| - 1])
    else s
  }

  function ParseDigits(s: string, acc: int, afterDigit: bool): IntResult {
    if s == "" then (if afterDigit then IsInt(acc) else NotInt)
    else if IsDigit(s[0]) then ParseDigits(s[1..], 10 * acc + (s[0] as int - '0' as int), true)
    else if s[0] == '_' && afterDigit && |s| > 1 then ParseDigits(s[1..], acc, false)
    else NotInt
  }

  predicate IsWord(c: char) { 'A' <= c <= 'Z' || 'a' <= c <= 'z' || IsDigit(c) }

  /** fullmatch of `[A-Za-z0-9_./:-]{1,128}`. */
  predicate SubnetText(s: string) {
    1 <= |s| <= 128 && forall i | 0 <= i < |s| :: IsWord(s[i]) || s[i] in "_./:-"
  }

  /** fullmatch of `[A-Za-z0-9_. -]{1,128}`. */
  predicate ServiceText(s: string) {
    1 <= |s| <= 128 && forall i | 0 <= i < |s| :: IsWord(s[i]) || s[i] in "_. -"
  }

  function Get(p: Payload, key: Key, default: Json): Json {
    if key in p then p[key] else default
  }

  // ---- validate_job_payload ----

  function Validate(jobType: JobType, payload: Payload): Checked {
    if !jobType.Allowed() then BadRequest
    else if jobType.TakesNothing() then
      if payload != map[] then BadRequest else Accepted(map[])
    else if jobType.Discovers() then
      var subnet := PyStr(Get(payload, Subnet, Text("local")));
      if !SubnetText(subnet) then BadRequest else Accepted(map[Subnet := Text(subnet)])
    else if jobType.CollectAgentLogs? then
      CheckLineCount(PyInt(Get(payload, LineCount, Number(100))))
    else
      var name := PyStr(Get(payload, ServiceName, Text("")));
      if !ServiceText(name) then BadRequest else Accepted(map[ServiceName := Text(name)])
  }

  function CheckLineCount(count: IntResult): Checked {
    match count
    case NotInt => BadRequest
    case Overflows => ServerError
    case IsInt(n) => if n < 1 || n > 200 then BadRequest else Accepted(map[LineCount := Number(n)])
  }

  /** The payloads a stored job can carry, described without running the validator. */
  predicate Normal(jobType: JobType, p: Payload) {
    if jobType.TakesNothing() then p == map[]
    else if jobType.Discovers() then p.Keys == {Subnet} && p[Subnet].Text? && SubnetText(p[Subnet].s)
    else if jobType.CollectAgentLogs? then
      p.Keys == {LineCount} && p[LineCount].Number? && 1 <= p[LineCount].n <= 200
    else if jobType.GetServiceStatus? then
      p.Keys == {ServiceName} && p[ServiceName].Text? && ServiceText(p[ServiceName].s)
    else false
  }

  /** Validation is a retraction onto the normal payloads: its image is exactly its fixed points. */
  lemma ValidateRetracts(jobType: JobType, payload: Payload)
    ensures var r := Validate(jobType, payload);
            r.Accepted? ==> Normal(jobType, r.payload) && Validate(jobType, r.payload) == r
    ensures Normal(jobType, payload) <==> Validate(jobType, payload) == Accepted(payload)
  {
    if Normal(jobType, payload) {
      if jobType.Discovers() {
        assert payload == map[Subnet := payload[Subnet]];
      } else if jobType.CollectAgentLogs? {
        assert payload == map[LineCount := payload[LineCount]];
      } else if jobType.GetServiceStatus? {
        assert payload == map[ServiceName := payload[ServiceName]];
      }
    }
  }

  // ---- The agent's handlers ----

  /** A Go string assertion: the text, or the empty string when the value is missing or not text. */
  function GoString(p: Payload, key: Key): string {
    if key in p && p[key].Text? then p[key].s else ""
  }

  function GoFloat(p: Payload, key: Key): Option<real> {
    if key !in p then None
    else match p[key] {
      case Text(_) => None
      case Number(n) => Some(n as real)
      case Other(_, _, f) => f
    }
  }

  /** collectAgentLogs: the number of lines it announces, 100 unless a number in (0, 200] is given. */
  function LogLines(p: Payload): int {
    var f := GoFloat(p, LineCount);
    if f.Some? && f.value > 0.0 && f.value <= 200.0 then f.value.Floor else 100
  }

  /** safeDiscoverySummary: the subnet it reports. */
  function DiscoverySubnet(p: Payload): string {
    var s := GoString(p, Subnet);
    if s == "" then "local" else s
  }

  /** What the host answers while a handler runs: everything the agent cannot decide by itself. */
  datatype Host = Host(clock: string, inventory: Option<string>, serviceStatus: map<string, string>,
                       interfaces: string, failure: string)

  /** The handler's report: which handler ran, on which input, and how it ended. */
  datatype Outcome = Outcome(succeeded: bool, output: Output, error: Option<string>, exitCode: int, handler: JobType)

  /** The output text, kept as the arguments of its format string. */
  datatype Output =
    | NoOutput
    | Pong(clock: string)
    | InventoryJson(text: string)
    | LogSummary(lines: int)
    | ServiceReport(name: string, status: string)
    | DiscoverySummary(jobType: JobType, subnet: string, interfaces: string)

  function FailedJobResult(jobType: JobType, message: string): Outcome {
    Outcome(false, NoOutput, Some(message), 1, jobType)
  }

  /** What each handler reports. */
  function Handled(jobType: JobType, p: Payload, host: Host): (r: Outcome)
    ensures r.handler == jobType
    ensures r.succeeded <==> r.error.None?
    ensures r.succeeded ==> jobType.Allowed()
  {
    match jobType
    case Ping => Outcome(true, Pong(host.clock), None, 0, jobType)
    case RefreshInventory =>
      if host.inventory.None? then FailedJobResult(jobType, host.failure)
      else Outcome(true, InventoryJson(host.inventory.value), None, 0, jobType)
    case CollectAgentLogs => Outcome(true, LogSummary(LogLines(p)), None, 0, jobType)
    case GetServiceStatus =>
      var name := GoString(p, ServiceName);
      if name !in host.serviceStatus then FailedJobResult(jobType, host.failure)
      else Outcome(true, ServiceReport(name, host.serviceStatus[name]), None, 0, jobType)
    case Unsupported(_) => FailedJobResult(jobType, "unsupported job type")
    case _ => Outcome(true, DiscoverySummary(jobType, DiscoverySubnet(p), host.interfaces), None, 0, jobType)
  }

  /** ExecuteJob: a result filled in branch by branch; the default branch rejects the job type. */
  method ExecuteJob(jobType: JobType, p: Payload, host: Host) returns (result: Outcome)
    ensures result == Handled(jobType, p, host)
  {
    result := Outcome(true, NoOutput, None, 0, jobType);
    match jobType
    case Ping =>
      result := result.(output := Pong(host.clock));
    case RefreshInventory =>
      if host.inventory.None? {
        return FailedJobResult(jobType, host.failure);
      }
      result := result.(output := InventoryJson(host.inventory.value));
    case CollectAgentLogs =>
      result := result.(output := LogSummary(LogLines(p)));
    case GetServiceStatus =>
      var name := GoString(p, ServiceName);
      if name !in host.serviceStatus {
        return FailedJobResult(jobType, host.failure);
      }
      result := result.(output := ServiceReport(name, host.serviceStatus[name]));
    case NetworkDiscovery | ArpScan | DnsDiscovery | SnmpDiscovery =>
      result := result.(output := DiscoverySummary(jobType, DiscoverySubnet(p), host.interfaces));
    case Unsupported(_) =>
      return FailedJobResult(jobType, "unsupported job type");
  }

  /**
   * Both sides agree on every stored payload: the agent recognises the type and its handler works on
   * exactly the value the server stored, never on its own fallback.
   */
  lemma StoredPayloadIsUsedVerbatim(jobType: JobType, request: Payload, host: Host)
    requires Validate(jobType, request).Accepted?
    ensures var p := Validate(jobType, request).payload;
            var r := Handled(jobType, p, host);
            && jobType.Allowed()
            && (jobType.TakesNothing() ==> p == map[])
            && (jobType.CollectAgentLogs? ==>
                 p.Keys == {LineCount} && p[LineCount].Number? && r.output == LogSummary(p[LineCount].n))
            && (jobType.Discovers() ==>
                  p.Keys == {Subnet} && p[Subnet].Text?
                    && r.output == DiscoverySummary(jobType, p[Subnet].s, host.interfaces))
            && (jobType.GetServiceStatus? ==>
                  p.Keys == {ServiceName} && p[ServiceName].Text?
                  && (r.succeeded <==> p[ServiceName].s in host.serviceStatus)
                  && (r.succeeded ==>
                       r.output == ServiceReport(p[ServiceName].s, host.serviceStatus[p[ServiceName].s])))
  {
    ValidateRetracts(jobType, request);
  }
}
