/** The policy pipeline as a whole: admin requests, the replicated rule table, the resync over the
    command channel, and the lookups of a freshly started proxy. */
module EndToEnd {
  import opened Text
  import opened PolicyTables
  import opened TableRuns
  import opened Commands
  import opened CommandChannel
  import opened RuleEngine
  import opened PushedRules
  import opened RuleReplicas

  /** Patterns that the reader would take for a field of the commands that the rule sends. */
  function MisreadPatterns(rule: Rule): set<string> {
    match rule.action
    case BlockNow => {"cmd", "ip"}
    case BlockAfterMinutes => {"cmd", "ip", "duration_seconds"}
    case ThrottleNow =>
      {"cmd", "ip"} + (if Delay(rule) > 0 then {"duration_seconds"} else {})
      + (if Delay(rule) != 500 then {"delay_ms"} else {})
    case OtherAction => {}
  }

  /** The rule's commands can be sent over the command channel. */
  predicate RuleCarried(rule: Rule) {
    rule.action.OtherAction?
    || (Plain(rule.domain) && rule.domain !in MisreadPatterns(rule)
        && (rule.action.ThrottleNow? ==> -0x8000_0000 <= Delay(rule) < 0x8000_0000))
  }

  /** So can the clients' addresses. */
  predicate ClientsCarried(w: World) {
    forall ip <- w.clients :: Plain(ip) && ip !in FIELD_NAMES
  }

  lemma GlobalCarried()
    ensures Plain(GLOBAL) && GLOBAL !in FIELD_NAMES
  {
  }

  lemma CommandCarried(rule: Rule, w: World, e: nat, c: Command)
    requires RuleCarried(rule) && ClientsCarried(w) && c in RuleCommands(rule, w, e)
    ensures Sendable(c)
  {
    hide RuleCommands, Plain;
    GlobalCarried();
    CommandForm(rule, w, e, c);
  }

  lemma SpreadCarried(rules: seq<Rule>, w: World, readings: seq<Reading>, i: nat)
    requires |readings| == PushSize(rules, w) && i < |readings|
    requires ClientsCarried(w) && forall r <- rules :: RuleCarried(r)
    ensures Sendable(SpreadCommands(rules, w, readings)[i])
  {
    hide Sendable, RuleCarried;
    var c, e := SpreadCommands(rules, w, readings)[i], readings[i].engine;
    assert c in PushCommands(rules, w, e);
    PushMember(rules, w, e, c);
    var r :| r in rules && c in RuleCommands(r, w, e);
    CommandCarried(r, w, e, c);
  }

  /** A clock that always shows the same time. */
  function Always(now: int): nat -> int {
    n => now
  }

  /** The bridge opens a connection for every command: the tables after these connections, each
      serving its one line at its own clock reading. */
  function Connections(t: Tables, streams: seq<string>, readings: seq<Reading>): Tables
    requires |streams| == |readings|
    decreases |streams|
  {
    if streams == [] then t
    else Connections(Serve(t, "", streams[0], Always(readings[0].proxy), 0), streams[1..], readings[1..])
  }

  /** A stream carries a command: its payload with the fields in some order, ended by a newline. */
  ghost predicate Carries(stream: string, c: Command) {
    exists fs :: InSomeOrder(fs, c) && stream == Print(fs) + "\n"
  }

  lemma {:induction false} OneConnection(t: Tables, stream: string, c: Command, now: int)
    requires Sendable(c) && Carries(stream, c)
    ensures Serve(t, "", stream, Always(now), 0) == Execute(t, c, now)
  {
    hide Execute, Sendable, InSomeOrder, Print;
    var fs :| InSomeOrder(fs, c) && stream == Print(fs) + "\n";
    OneCommand(c, fs, "", t, Always(now), 0);
    assert Print(fs) + "\n" + "" == stream;
  }

  lemma {:induction false} ConnectionsExecute(
      t: Tables, streams: seq<string>, cs: seq<Command>, readings: seq<Reading>)
    requires |streams| == |cs| == |readings|
    requires forall i :: 0 <= i < |cs| ==> Sendable(cs[i]) && Carries(streams[i], cs[i])
    ensures Connections(t, streams, readings) == ExecuteEach(t, cs, readings)
    decreases |cs|
  {
    hide Carries, Sendable, Serve, Execute;
    if cs != [] {
      OneConnection(t, streams[0], cs[0], readings[0].proxy);
      ConnectionsExecute(Execute(t, cs[0], readings[0].proxy), streams[1..], cs[1..], readings[1..]);
    }
  }

  /** The rules listed from a table, in any order. */
  ghost predicate Lists(rules: seq<Rule>, t: RuleTable) {
    forall r :: r in rules <==> r.id in t && t[r.id] == r
  }

  /** The table lists the same rules as the admin's stored list. */
  lemma ListedAreStored(start: seq<Rule>, table: RuleTable, qs: seq<Request>, rules: seq<Rule>)
    requires UniqueIds(start) && Shows(table, start) && Lists(rules, ConsumedAll(table, Channel(qs)))
    ensures forall r :: r in rules <==> r in StoredAfter(start, qs)
  {
    ReplicasConverge(start, table, qs);
    var t := ConsumedAll(table, Channel(qs));
    forall r ensures r in rules <==> r in StoredAfter(start, qs) {
      if r in rules { assert t[r.id] in StoredAfter(start, qs); }
    }
  }

  /** What a resync over the channel leaves in a proxy that starts empty: what the push's commands leave
      when they are executed at once. */
  lemma {:induction false} ResyncDelivered(
      rules: seq<Rule>, w: World, streams: seq<string>, readings: seq<Reading>, day: Reading)
    requires ClientsCarried(w) && forall r <- rules :: RuleCarried(r)
    requires |streams| == |readings| == PushSize(rules, w) && forall r <- readings :: SameDay(day, r)
    requires forall i :: 0 <= i < |streams| ==> Carries(streams[i], SpreadCommands(rules, w, readings)[i])
    ensures Connections(EMPTY, streams, readings)
         == ExecuteAll(EMPTY, PushCommands(rules, w, day.engine), day.proxy)
  {
    hide Sendable, Carries;
    forall i: nat | i < |streams| ensures Sendable(SpreadCommands(rules, w, readings)[i]) {
      SpreadCarried(rules, w, readings, i);
    }
    ConnectionsExecute(EMPTY, streams, SpreadCommands(rules, w, readings), readings);
    SpreadPushSame(EMPTY, rules, w, readings, day);
  }

  /** End to end: the admin's requests reach the engine's table; a proxy that starts empty receives
      one resync, a connection per command, with its fields in any order and at any time of one day;
      until the next midnight it then reports a domain as blocked for an address exactly when a rule
      of the admin's list says so. */
  lemma {:induction false} PolicyEnforced(
      start: seq<Rule>, table: RuleTable, qs: seq<Request>, rules: seq<Rule>, w: World, streams: seq<string>,
      readings: seq<Reading>, day: Reading, q: int, ip: string, domain: string)
    requires UniqueIds(start) && Shows(table, start)
    requires Lists(rules, ConsumedAll(table, Channel(qs)))
    requires forall r <- StoredAfter(start, qs) :: RuleCarried(r) && (Blocking(r) ==> SharedPattern(r.domain))
    requires ClientsCarried(w) && ProperClients(w) && ':' !in ip
    requires |streams| == |readings| == PushSize(rules, w) && forall r <- readings :: SameDay(day, r)
    requires forall i :: 0 <= i < |streams| ==> Carries(streams[i], SpreadCommands(rules, w, readings)[i])
    requires 0 <= day.proxy && q < day.proxy + UntilMidnight(day.engine)
    ensures Blocked(Connections(EMPTY, streams, readings).blocks, ip, domain, q)
       <==> exists r <- StoredAfter(start, qs) :: Says(r, w, ip, domain)
  {
    hide RuleCarried, SharedPattern, Carries, Says;
    ListedAreStored(start, table, qs, rules);
    ResyncDelivered(rules, w, streams, readings, day);
    FreshPushMatchesRules(rules, w, day.engine, day.proxy, q, ip, domain);
  }

  /** And at any time, after the midnight too: exactly when a listed rule covers the address and the domain
      and the last rule that wrote its entry blocks at once, or the midnight is still ahead. */
  lemma {:induction false} PolicyAtAnyTime(
      rules: seq<Rule>, w: World, streams: seq<string>, readings: seq<Reading>, day: Reading, q: int, ip: string,
      domain: string)
    requires ClientsCarried(w) && ProperClients(w) && ':' !in ip && forall r <- rules :: RuleCarried(r)
    requires |streams| == |readings| == PushSize(rules, w) && forall r <- readings :: SameDay(day, r)
    requires forall i :: 0 <= i < |streams| ==> Carries(streams[i], SpreadCommands(rules, w, readings)[i])
    ensures Blocked(Connections(EMPTY, streams, readings).blocks, ip, domain, q)
       <==> StillCovered(rules, w, day.proxy + UntilMidnight(day.engine), ip, domain, q)
  {
    hide RuleCarried, Carries, StillCovered;
    ResyncDelivered(rules, w, streams, readings, day);
    FreshPushAlways(rules, w, day.engine, day.proxy, q, ip, domain);
  }
}
