/** The command channel: JSON lines printed by the bridge, read back by the proxy's
    substring-search extractor, framed by newlines. */
module Commands {
  import opened Text
  import opened PolicyTables
  import opened TableRuns

  datatype Command =
    | Block(ip: string, domain: string, duration: Option<int>, until: Option<int>)
    | Unblock(ip: string, domain: string)
    | Throttle(ip: string, domain: string, delayMs: int, duration: Option<int>)
    | Unthrottle(ip: string, domain: string)

  function OrZero(n: Option<int>): int {
    if n.Some? then n.value else 0
  }

  /** What a command asks for. Empty addresses and empty patterns are ignored; a positive duration
      takes precedence over an absolute end. */
  function Execute(t: Tables, c: Command, now: int): Tables {
    if c.ip == "" || c.domain == "" then t else
    match c
    case Block(ip, domain, dur, until) =>
      Update(t, TableRuns.AddBlock(ip, domain, if OrZero(dur) > 0 then now + OrZero(dur) else OrZero(until)))
    case Unblock(ip, domain) => Update(t, TableRuns.RemoveBlock(ip, domain))
    case Throttle(ip, domain, ms, dur) =>
      Update(t, TableRuns.AddThrottle(ip, domain, ms, if OrZero(dur) > 0 then now + OrZero(dur) else 0))
    case Unthrottle(ip, domain) => Update(t, TableRuns.RemoveThrottle(ip, domain))
  }

  function UntilOf(c: Command): Option<int> {
    if c.Block? then c.until else None
  }

  function DurationOf(c: Command): Option<int> {
    if c.Block? || c.Throttle? then c.duration else None
  }

  function ExecuteAll(t: Tables, cs: seq<Command>, now: int): Tables
    decreases |cs|
  {
    if cs == [] then t else ExecuteAll(Execute(t, cs[0], now), cs[1..], now)
  }

  // ---- the printer ----

  datatype Value = Str(s: string) | Num(n: int)
  datatype Field = Field(key: string, value: Value)

  const FIELD_NAMES: set<string> := {"cmd", "ip", "domain", "until", "duration_seconds", "delay_ms"}
  const QUOTE := "\""

  function OptionalField(key: string, n: Option<int>): seq<Field> {
    if n.Some? then [Field(key, Num(n.value))] else []
  }

  function Name(c: Command): string {
    match c
    case Block(_, _, _, _) => "block"
    case Unblock(_, _) => "unblock"
    case Throttle(_, _, _, _) => "throttle"
    case Unthrottle(_, _) => "unthrottle"
  }

  /** The payload map, as a list of fields. */
  function Fields(c: Command): seq<Field> {
    [Field("cmd", Str(Name(c))), Field("ip", Str(c.ip)), Field("domain", Str(c.domain))]
    + match c
      case Block(_, _, dur, until) => OptionalField("duration_seconds", dur) + OptionalField("until", until)
      case Throttle(_, _, ms, dur) => [Field("delay_ms", Num(ms))] + OptionalField("duration_seconds", dur)
      case _ => []
  }

  function Digits(n: nat): (r: string)
    ensures |r| > 0 && forall i :: 0 <= i < |r| ==> '0' <= r[i] <= '9'
  {
    if n < 10 then ["0123456789"[n]] else Digits(n / 10) + ["0123456789"[n % 10]]
  }

  function Decimal(n: int): string {
    if n < 0 then "-" + Digits(-n) else Digits(n)
  }

  function PrintValue(v: Value): string {
    match v
    case Str(s) => QUOTE + s + QUOTE
    case Num(n) => Decimal(n)
  }

  function PrintField(f: Field): string {
    QUOTE + f.key + QUOTE + ":" + PrintValue(f.value)
  }

  function PrintFields(fs: seq<Field>): string {
    if fs == [] then ""
    else PrintField(fs[0]) + (if |fs| > 1 then "," else "") + PrintFields(fs[1..])
  }

  function Print(fs: seq<Field>): string {
    "{" + PrintFields(fs) + "}"
  }

  // ---- the reader ----

  /** The string value that follows position `from`: past a colon, between the next two quotes. */
  function StringAfter(buf: string, from: nat): string {
    var cp := Find(buf, ":", from);
    if cp.None? then "" else
    var vp := Find(buf, QUOTE, cp.value + 1);
    if vp.None? then "" else
    var ep := Find(buf, QUOTE, vp.value + 1);
    if ep.None? then "" else
    buf[vp.value + 1..ep.value]
  }

  /** Where the search for the quoted key ends: just past its first occurrence. */
  function AfterKey(buf: string, key: string): Option<nat> {
    var search := QUOTE + key + QUOTE;
    var kp := Find(buf, search, 0);
    if kp.None? then None else Some(kp.value + |search|)
  }

  function JsonStr(buf: string, key: string): string {
    var from := AfterKey(buf, key);
    if from.None? then "" else StringAfter(buf, from.value)
  }

  predicate IsDigit(c: char) { '0' <= c <= '9' }

  predicate IsSpace(c: char) { c == ' ' || '\t' <= c <= '\r' }

  /** The value of the digits at the front of s, continuing from acc. */
  function ReadDigits(s: string, acc: nat): nat {
    if s == "" || !IsDigit(s[0]) then acc
    else ReadDigits(s[1..], 10 * acc + (s[0] as int - '0' as int))
  }

  const INT64_MIN := -0x8000_0000_0000_0000
  const INT64_MAX := 0x7FFF_FFFF_FFFF_FFFF

  /** stoll: optional spaces, an optional sign, digits up to the first other character; it throws
      when there is no digit or the value needs more than 64 bits. */
  function Stoll(s: string): Option<int>
    decreases |s|
  {
    if s != "" && IsSpace(s[0]) then Stoll(s[1..]) else
    var negative := s != "" && s[0] == '-';
    var digits := if s != "" && (s[0] == '-' || s[0] == '+') then s[1..] else s;
    if digits == "" || !IsDigit(digits[0]) then None else
    var size: int := ReadDigits(digits, 0);
    var n := if negative then -size else size;
    if INT64_MIN <= n <= INT64_MAX then Some(n) else None
  }

  /** The integer that follows position `from`, past a colon. */
  function IntAfter(buf: string, from: nat, def: int): int {
    var cp := Find(buf, ":", from);
    if cp.None? then def else
    var n := Stoll(buf[cp.value + 1..]);
    if n.None? then def else n.value
  }

  function JsonInt(buf: string, key: string, def: int): int {
    var from := AfterKey(buf, key);
    if from.None? then def else IntAfter(buf, from.value, def)
  }

  /** The conversion from 64 to 32 bits keeps the low bits, read as a signed value. */
  function ToInt32(n: int): int {
    (n + 0x8000_0000) % 0x1_0000_0000 - 0x8000_0000
  }

  /** The fields the command handler extracts from a line. */
  datatype Line = Line(cmd: string, ip: string, domain: string, until: int, duration: int, delayMs: int)

  function Extract(line: string): Line {
    Line(JsonStr(line, "cmd"), JsonStr(line, "ip"), JsonStr(line, "domain"),
         JsonInt(line, "until", 0), JsonInt(line, "duration_seconds", 0),
         ToInt32(JsonInt(line, "delay_ms", 500)))
  }

  function Act(t: Tables, l: Line, now: int): Tables {
    if l.ip == "" || l.domain == "" then t
    else if l.cmd == "block" then
      Update(t, TableRuns.AddBlock(l.ip, l.domain, if l.duration > 0 then now + l.duration else l.until))
    else if l.cmd == "unblock" then Update(t, TableRuns.RemoveBlock(l.ip, l.domain))
    else if l.cmd == "throttle" then
      Update(t, TableRuns.AddThrottle(l.ip, l.domain, l.delayMs, if l.duration > 0 then now + l.duration else 0))
    else if l.cmd == "unthrottle" then Update(t, TableRuns.RemoveThrottle(l.ip, l.domain))
    else t
  }

  function HandleLine(t: Tables, line: string, now: int): Tables {
    Act(t, Extract(line), now)
  }

  method Dispatch(store: PolicyStore, l: Line, now: int)
    modifies store
    ensures Tables(store.blocks, store.throttles)
         == Act(Tables(old(store.blocks), old(store.throttles)), l, now)
  {
    if l.cmd == "block" {
      var until := l.until;
      if l.duration > 0 { until := now + l.duration; }
      if l.ip != "" && l.domain != "" { store.AddBlock(l.ip, l.domain, until); }
    } else if l.cmd == "unblock" {
      if l.ip != "" && l.domain != "" { store.RemoveBlock(l.ip, l.domain); }
    } else if l.cmd == "throttle" {
      var until := if l.duration > 0 then now + l.duration else 0;
      if l.ip != "" && l.domain != "" { store.AddThrottle(l.ip, l.domain, l.delayMs, until); }
    } else if l.cmd == "unthrottle" {
      if l.ip != "" && l.domain != "" { store.RemoveThrottle(l.ip, l.domain); }
    }
  }

  method HandleCommand(store: PolicyStore, line: string, now: int)
    modifies store
    ensures Tables(store.blocks, store.throttles)
         == HandleLine(Tables(old(store.blocks), old(store.throttles)), line, now)
  {
    var l := Extract(line);
    Dispatch(store, l, now);
  }

  /** The tables after a connection delivered `stream`, with `pending` already buffered: each newline
      completes a line, what follows the last one is dropped. The n-th line is handled at clock(n). */
  function Serve(t: Tables, pending: string, stream: string, clock: nat -> int, n: nat): Tables
    decreases |stream|
  {
    if stream == "" then t
    else if stream[0] == '\n' then Serve(HandleLine(t, pending, clock(n)), "", stream[1..], clock, n + 1)
    else Serve(t, pending + [stream[0]], stream[1..], clock, n)
  }

  method ServeConnection(store: PolicyStore, stream: string, clock: nat -> int)
    modifies store
    ensures Tables(store.blocks, store.throttles)
         == Serve(Tables(old(store.blocks), old(store.throttles)), "", stream, clock, 0)
  {
    var buf, n := "", 0;
    for i := 0 to |stream|
      invariant Serve(Tables(store.blocks, store.throttles), buf, stream[i..], clock, n)
             == Serve(Tables(old(store.blocks), old(store.throttles)), "", stream, clock, 0)
    {
      assert stream[i..][1..] == stream[i + 1..];
      var ch := stream[i];
      if ch == '\n' {
        HandleCommand(store, buf, clock(n));
        buf, n := "", n + 1;
      } else {
        buf := buf + [ch];
      }
    }
  }
}
