/** What validation stores and what the handlers report, on the payload's own fields. */
module PayloadMeaning {
  import opened Base
  import opened JobPayload

  // ---- Text that int() accepts ----

  /** Digits with single underscores between them. */
  predicate Grouped(s: string) {
    && |s| > 0 && IsDigit(s[0]) && IsDigit(s[|s| - 1])
    && (forall i | 0 <= i < |s| :: IsDigit(s[i]) || s[i] == '_')
    && (forall i | 0 < i < |s| :: s[i] == '_' ==> s[i - 1] != '_')
  }

  /** The number the digits write, underscores aside. */
  function Value(s: string): int {
    if s == [] then 0
    else
      var front, last := Value(s[..|s| - 1]), s[|s| - 1];
      if last == '_' then front else 10 * front + (last as int - 48)
  }

  predicate Continues(s: string, afterDigit: bool) {
    if s == [] then afterDigit
    else
      && (afterDigit || s[0] != '_') && IsDigit(s[|s| - 1])
      && (forall i | 0 <= i < |s| :: IsDigit(s[i]) || s[i] == '_')
      && (forall i | 0 < i < |s| :: s[i] == '_' ==> s[i - 1] != '_')
  }

  lemma {:induction false} DigitsAccepted(s: string, acc: int, afterDigit: bool)
    ensures ParseDigits(s, acc, afterDigit).IsInt? <==> Continues(s, afterDigit)
    ensures !ParseDigits(s, acc, afterDigit).Overflows?
  {
    if s != [] && IsDigit(s[0]) {
      var next := 10 * acc + (s[0] as int - '0' as int);
      DigitsAccepted(s[1..], next, true);
      ContinuesMore(s, true, afterDigit);
    } else if |s| > 1 && s[0] == '_' && afterDigit {
      DigitsAccepted(s[1..], acc, false);
      ContinuesMore(s, false, afterDigit);
    }
  }

  lemma ContinuesMore(s: string, digit: bool, afterDigit: bool)
    requires s != [] && digit == IsDigit(s[0]) && (!digit ==> s[0] == '_' && |s| > 1 && afterDigit)
    ensures Continues(s, afterDigit) <==> Continues(s[1..], digit)
  {
    var t := s[1..];
    if Continues(t, digit) {
      forall i | 0 <= i < |s| ensures IsDigit(s[i]) || s[i] == '_' {
        assert i > 0 ==> s[i] == t[i - 1];
      }
      forall i | 0 < i < |s| ensures s[i] == '_' ==> s[i - 1] != '_' {
        assert s[i] == t[i - 1];
        assert i > 1 ==> s[i - 1] == t[i - 2];
      }
    }
  }

  lemma {:induction false} DigitsCarry(s: string, k: nat)
    requires Grouped(s) && k <= |s|
    ensures ParseDigits(s, 0, false) == ParseDigits(s[k..], Value(s[..k]), k > 0 && IsDigit(s[k - 1]))
  {
    if k == 0 {
      assert s[0..] == s;
    } else {
      DigitsCarry(s, k - 1);
      assert s[..k][..k - 1] == s[..k - 1] && s[k - 1..][1..] == s[k..];
    }
  }

  lemma GroupedValue(s: string)
    ensures ParseDigits(s, 0, false) == if Grouped(s) then IsInt(Value(s)) else NotInt
  {
    DigitsAccepted(s, 0, false);
    assert Continues(s, false) <==> Grouped(s);
    if Grouped(s) {
      DigitsCarry(s, |s|);
      assert s[..|s|] == s;
    }
  }

  predicate Blank(s: string) { forall i | 0 <= i < |s| :: IsSpace(s[i]) }

  /** s[a..b] is what is left between blanks. */
  predicate Between(s: string, a: nat, b: nat) {
    && a <= b <= |s| && Blank(s[..a]) && Blank(s[b..])
    && (a < b ==> !IsSpace(s[a]) && !IsSpace(s[b - 1]))
  }

  lemma BlankBefore(c: char, t: string, a: nat, b: nat)
    requires IsSpace(c) && Between(t, a, b)
    ensures Between([c] + t, a + 1, b + 1) && ([c] + t)[a + 1..b + 1] == t[a..b]
  {
    var s := [c] + t;
    assert s[..a + 1] == [c] + t[..a] && s[b + 1..] == t[b..];
    hide IsSpace;
  }

  lemma BlankAfter(t: string, c: char, a: nat, b: nat)
    requires IsSpace(c) && Between(t, a, b)
    ensures Between(t + [c], a, b) && (t + [c])[a..b] == t[a..b]
  {
    var s := t + [c];
    assert s[..a] == t[..a] && s[b..] == t[b..] + [c];
    hide IsSpace;
  }

  lemma {:induction false} StripSplits(s: string) returns (a: nat, b: nat)
    ensures Between(s, a, b) && Strip(s) == s[a..b]
    decreases |s|
  {
    hide IsSpace, Between;
    if s != "" && IsSpace(s[0]) {
      a, b := StripSplits(s[1..]);
      BlankBefore(s[0], s[1..], a, b);
      assert s == [s[0]] + s[1..];
      a, b := a + 1, b + 1;
    } else if s != "" && IsSpace(s[|s| - 1]) {
      a, b := StripSplits(s[..|s| - 1]);
      BlankAfter(s[..|s| - 1], s[|s| - 1], a, b);
      assert s == s[..|s| - 1] + [s[|s| - 1]];
    } else {
      a, b := 0, |s|;
      assert s[0..|s|] == s;
      AllBetween(s);
    }
  }

  lemma AllBetween(s: string)
    requires s == [] || (!IsSpace(s[0]) && !IsSpace(s[|s| - 1]))
    ensures Between(s, 0, |s|)
  {
  }

  /**
   * int() on text: what is between the blanks, less one sign, must be digits with single underscores between
   * them; the number is theirs, negated by a minus.
   */
  lemma IntegerTexts(s: string) returns (a: nat, b: nat)
    ensures Between(s, a, b)
    ensures var signed := a < b && s[a] in {'-', '+'};
            var body := if signed then s[a + 1..b] else s[a..b];
            ParseInt(s)
            == if !Grouped(body) then NotInt else IsInt(if signed && s[a] == '-' then -Value(body) else Value(body))
  {
    hide ParseDigits, Grouped, Value, Strip;
    a, b := StripSplits(s);
    GroupedValue(s[a..b]);
    if a < b {
      GroupedValue(s[a + 1..b]);
      assert s[a..b][1..] == s[a + 1..b];
    }
  }

  lemma {:induction false} DigitsWrite(n: nat)
    ensures Grouped(Digits(n)) && Value(Digits(n)) == n && forall i | 0 <= i < |Digits(n)| :: IsDigit(Digits(n)[i])
  {
    if n >= 10 {
      DigitsWrite(n / 10);
      assert Digits(n)[..|Digits(n)| - 1] == Digits(n / 10);
    }
  }

  /** str() writes a number as int() reads it. */
  lemma DecimalReadsBack(n: int)
    ensures ParseInt(Decimal(n)) == IsInt(n)
  {
    DigitsWrite(if n < 0 then -n else n);
    GroupedValue(Digits(if n < 0 then -n else n));
    if n < 0 {
      assert Decimal(n)[1..] == Digits(-n);
    }
  }

  lemma {:induction false} DigitsLead(n: nat)
    ensures |Digits(n)| > 0 && (n > 0 ==> Digits(n)[0] != '0') && (n == 0 ==> Digits(n) == "0")
  {
    if n >= 10 {
      DigitsLead(n / 10);
    }
  }

  /** A number is written with a minus exactly if it is negative, and without leading zeros. */
  lemma DecimalForm(n: int)
    ensures n < 0 ==> |Decimal(n)| > 1 && Decimal(n)[0] == '-' && '1' <= Decimal(n)[1] <= '9'
    ensures n > 0 ==> |Decimal(n)| > 0 && '1' <= Decimal(n)[0] <= '9'
    ensures n == 0 ==> Decimal(n) == "0"
  {
    DigitsLead(if n < 0 then -n else n);
    DigitsWrite(if n < 0 then -n else n);
  }

  // ---- What validation stores ----

  predicate Listed(c: char, others: string) {
    'A' <= c <= 'Z' || 'a' <= c <= 'z' || '0' <= c <= '9' || exists k | 0 <= k < |others| :: others[k] == c
  }

  /** One to 128 letters, digits or characters of this list. */
  predicate Plain(s: string, others: string) { 0 < |s| < 129 && forall i | 0 <= i < |s| :: Listed(s[i], others) }

  /** What str() makes of the value is this text. */
  predicate WritesAs(v: Json, s: string) {
    (v.Text? && v.s == s) || (v.Number? && Decimal(v.n) == s) || (v.Other? && v.asStr == s)
  }

  /** What int() makes of the value. */
  predicate ReadsAs(v: Json, r: IntResult) {
    (v.Text? && ParseInt(v.s) == r) || (v.Number? && r == IsInt(v.n)) || (v.Other? && v.asInt == r)
  }

  /** A discovery's stored subnet is the text given, or `local` where none is, and must be plain. */
  lemma SubnetStored(jobType: JobType, payload: Payload, text: string)
    requires jobType in {NetworkDiscovery, ArpScan, DnsDiscovery, SnmpDiscovery}
    requires if Subnet in payload then WritesAs(payload[Subnet], text) else text == "local"
    ensures Validate(jobType, payload)
         == if Plain(text, "_./:-") then Accepted(map[Subnet := Text(text)]) else BadRequest
    ensures Subnet !in payload ==> Validate(jobType, payload) == Accepted(map[Subnet := Text("local")])
  {
    assert Plain("local", "_./:-");
    assert SubnetText(text) <==> Plain(text, "_./:-");
  }

  /** A service name must be given, and be plain. */
  lemma ServiceStored(payload: Payload, text: string)
    requires ServiceName in payload ==> WritesAs(payload[ServiceName], text)
    ensures Validate(GetServiceStatus, payload)
         == if ServiceName in payload && Plain(text, "_. -") then Accepted(map[ServiceName := Text(text)])
           else BadRequest
  {
    assert SubnetText([]) == ServiceText([]) == false;
    assert ServiceText(text) <==> Plain(text, "_. -");
  }

  /** The number of lines is the whole number given, or 100 where none is, and must be from 1 to 200. */
  lemma LineCountStored(payload: Payload, count: IntResult)
    requires if LineCount in payload then ReadsAs(payload[LineCount], count) else count == IsInt(100)
    ensures Validate(CollectAgentLogs, payload)
         == (match count
             case IsInt(n) => if 0 < n < 201 then Accepted(map[LineCount := Number(n)]) else BadRequest
             case NotInt => BadRequest
             case Overflows => ServerError)
    ensures LineCount !in payload ==> Validate(CollectAgentLogs, payload) == Accepted(map[LineCount := Number(100)])
  {
  }

  /** The other two types take no payload at all, and unknown types are refused whatever they carry. */
  lemma NothingStored(jobType: JobType, payload: Payload)
    ensures jobType in {Ping, RefreshInventory} ==>
              Validate(jobType, payload) == if |payload| == 0 then Accepted(map[]) else BadRequest
    ensures jobType.Unsupported? ==> Validate(jobType, payload) == BadRequest
  {
    if |payload| == 0 {
      assert payload == map[];
    }
  }

  // ---- What the handlers report ----

  /** The text a handler finds under a key: none where the key is missing or is not text. */
  predicate FindsText(p: Payload, key: Key, text: string) {
    if key in p && p[key].Text? then p[key].s == text else text == []
  }

  /**
   * Every handler's report: which ones can fail, on what, and what the successful ones put into it. Failures carry
   * exit code 1, an error and no output; successes exit code 0, no error and the handler's own output.
   */
  lemma HandlerReports(jobType: JobType, p: Payload, host: Host, name: string, subnet: string)
    requires FindsText(p, ServiceName, name) && FindsText(p, Subnet, subnet)
    ensures var r := Handled(jobType, p, host);
            && r.handler == jobType
            && (!r.succeeded <==>
                  || jobType.Unsupported?
                  || (jobType == RefreshInventory && host.inventory == None)
                  || (jobType == GetServiceStatus && name !in host.serviceStatus))
            && (r.succeeded ==> r.exitCode == 0 && r.error == None)
            && (!r.succeeded ==> r.exitCode == 1 && r.output == NoOutput)
            && (!r.succeeded ==>
                  r.error == Some(if jobType.Unsupported? then "unsupported job type" else host.failure))
            && (r.succeeded && jobType == Ping ==> r.output == Pong(host.clock))
            && (r.succeeded && jobType == RefreshInventory ==> Some(r.output) == InventoryOf(host))
            && (r.succeeded && jobType == GetServiceStatus ==>
                  r.output == ServiceReport(name, host.serviceStatus[name]))
            && (jobType in {NetworkDiscovery, ArpScan, DnsDiscovery, SnmpDiscovery} ==>
                  r.output == DiscoverySummary(jobType, if subnet == [] then "local" else subnet, host.interfaces))
  {
  }

  function InventoryOf(host: Host): Option<Output> {
    match host.inventory
    case None => None
    case Some(text) => Some(InventoryJson(text))
  }

  /** The log handler announces the whole part of a number above 0 and at most 200, and 100 lines otherwise. */
  lemma LogsReport(p: Payload, host: Host)
    ensures var r := Handled(CollectAgentLogs, p, host);
            && r.output.LogSummary? && 0 <= r.output.lines <= 200
            && (LineCount in p && p[LineCount].Number? && 0 < p[LineCount].n <= 200 ==>
                 r.output.lines == p[LineCount].n)
            && (LineCount in p && p[LineCount].Number? && !(0 < p[LineCount].n <= 200) ==> r.output.lines == 100)
            && (LineCount !in p || p[LineCount].Text? ==> r.output.lines == 100)
            && (LineCount in p && p[LineCount].Other? ==>
                 match p[LineCount].asFloat
                 case None => r.output.lines == 100
                 case Some(x) =>
                   if 0.0 < x <= 200.0 then r.output.lines as real <= x < r.output.lines as real + 1.0
                   else r.output.lines == 100)
  {
  }
}
