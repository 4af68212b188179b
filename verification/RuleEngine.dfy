/** The rule engine: which clients and domains a rule matches, the commands it pushes to the
    proxy, and the commands that withdraw it. */
module RuleEngine {
  import opened Text
  import opened PolicyTables
  import opened TableRuns
  import opened Commands
  import Cidr

  /** A subnet is the network text and prefix length around its slash, None when the text does not
      split that way. */
  datatype Scope = Global | SingleIp(target: string) | Subnet(cidr: Option<(string, int)>) | OtherScope

  datatype Action = BlockNow | ThrottleNow | BlockAfterMinutes | OtherAction

  datatype Rule = Rule(id: string, scope: Scope, domain: string, action: Action,
                       minutes: Option<int>, delayMs: Option<int>)

  /** What the engine looks up while it pushes: the registered clients, the seconds each spent on a
      domain, and the texts that parse as IPv4 addresses. */
  datatype World = World(clients: seq<string>, seconds: map<(string, string), int>,
                         addresses: map<string, Cidr.Address>)

  const DAY := 86400

  // ---- matching ----

  predicate IpMatches(rule: Rule, w: World, ip: string) {
    match rule.scope
    case Global => true
    case SingleIp(target) => target == ip
    case Subnet(Some((net, prefix))) =>
      net in w.addresses && ip in w.addresses && Cidr.Contains(w.addresses[net], prefix, w.addresses[ip])
    case _ => false
  }

  /** The engine's own domain matching, for patterns that are not regular expressions. */
  predicate DomainMatches(pattern: string, domain: string)
    requires !StartsWith(pattern, "~")
  {
    if StartsWith(pattern, "*.") then domain == pattern[2..] || EndsWith(domain, "." + pattern[2..])
    else domain == pattern
  }

  function SecondsSpent(w: World, ip: string, domain: string): int {
    if (ip, domain) in w.seconds then w.seconds[(ip, domain)] else 0
  }

  function LimitSeconds(rule: Rule): int {
    (if rule.minutes.Some? then rule.minutes.value else 30) * 60
  }

  function Delay(rule: Rule): int {
    if rule.delayMs.Some? then rule.delayMs.value else 1000
  }

  function UntilMidnight(e: nat): int {
    DAY - e % DAY
  }

  // ---- pushing ----

  /** The command a rule sends for one registered client, if any. */
  function ClientCommands(rule: Rule, w: World, ip: string, e: nat): seq<Command> {
    if !IpMatches(rule, w, ip) then [] else
    match rule.action
    case BlockNow => [Block(ip, rule.domain, None, None)]
    case ThrottleNow => [Throttle(ip, rule.domain, Delay(rule), None)]
    case BlockAfterMinutes =>
      if SecondsSpent(w, ip, rule.domain) >= LimitSeconds(rule)
      then [Block(ip, rule.domain, Some(UntilMidnight(e)), None)] else []
    case OtherAction => []
  }

  function ForClients(rule: Rule, w: World, clients: seq<string>, e: nat): seq<Command> {
    if clients == [] then []
    else ClientCommands(rule, w, clients[0], e) + ForClients(rule, w, clients[1..], e)
  }

  /** Everything a rule sends when it is applied at the engine's time e. */
  function RuleCommands(rule: Rule, w: World, e: nat): seq<Command> {
    if rule.scope.Global? && rule.action.BlockNow? then [Block(GLOBAL, rule.domain, None, None)]
    else if rule.scope.Global? && rule.action.ThrottleNow? then [Throttle(GLOBAL, rule.domain, Delay(rule), None)]
    else ForClients(rule, w, w.clients, e)
  }

  function PushCommands(rules: seq<Rule>, w: World, e: nat): seq<Command> {
    if rules == [] then [] else RuleCommands(rules[0], w, e) + PushCommands(rules[1..], w, e)
  }

  function View(store: PolicyStore): Tables
    reads store
  {
    Tables(store.blocks, store.throttles)
  }

  method Deliver(store: PolicyStore, c: Command, now: int)
    modifies store
    ensures View(store) == Execute(old(View(store)), c, now)
  {
    if c.ip == "" || c.domain == "" { return; }
    match c
    case Block(ip, domain, dur, until) =>
      store.AddBlock(ip, domain, if OrZero(dur) > 0 then now + OrZero(dur) else OrZero(until));
    case Unblock(ip, domain) => store.RemoveBlock(ip, domain);
    case Throttle(ip, domain, ms, dur) =>
      store.AddThrottle(ip, domain, ms, if OrZero(dur) > 0 then now + OrZero(dur) else 0);
    case Unthrottle(ip, domain) => store.RemoveThrottle(ip, domain);
  }

  lemma {:induction false} ExecuteConcat(t: Tables, a: seq<Command>, b: seq<Command>, now: int)
    ensures ExecuteAll(t, a + b, now) == ExecuteAll(ExecuteAll(t, a, now), b, now)
    decreases |a|
  {
    if a == [] {
      assert a + b == b;
    } else {
      assert (a + b)[1..] == a[1..] + b;
      ExecuteConcat(Execute(t, a[0], now), a[1..], b, now);
    }
  }

  /** Applies one rule to the registered clients, command by command. */
  method ApplyRule(store: PolicyStore, rule: Rule, w: World, e: nat, now: int)
    modifies store
    ensures View(store) == ExecuteAll(old(View(store)), RuleCommands(rule, w, e), now)
  {
    ghost var t := View(store);
    if rule.scope.Global? && (rule.action.BlockNow? || rule.action.ThrottleNow?) {
      var c := if rule.action.BlockNow? then Block(GLOBAL, rule.domain, None, None)
               else Throttle(GLOBAL, rule.domain, Delay(rule), None);
      Deliver(store, c, now);
      assert ExecuteAll(t, [c], now) == Execute(t, c, now);
    } else {
      for i := 0 to |w.clients|
        invariant ExecuteAll(View(store), ForClients(rule, w, w.clients[i..], e), now)
               == ExecuteAll(t, RuleCommands(rule, w, e), now)
      {
        var cs := ClientCommands(rule, w, w.clients[i], e);
        assert w.clients[i..][1..] == w.clients[i + 1..];
        ExecuteConcat(View(store), cs, ForClients(rule, w, w.clients[i + 1..], e), now);
        if cs != [] {
          assert cs == [cs[0]];
          assert ExecuteAll(View(store), [cs[0]], now) == Execute(View(store), cs[0], now);
          Deliver(store, cs[0], now);
        }
      }
    }
  }

  /** Re-sends every rule, in the order the table lists them. */
  method PushAll(store: PolicyStore, rules: seq<Rule>, w: World, e: nat, now: int)
    modifies store
    ensures View(store) == ExecuteAll(old(View(store)), PushCommands(rules, w, e), now)
  {
    for i := 0 to |rules|
      invariant ExecuteAll(View(store), PushCommands(rules[i..], w, e), now)
             == ExecuteAll(old(View(store)), PushCommands(rules, w, e), now)
    {
      assert rules[i..][1..] == rules[i + 1..];
      ExecuteConcat(View(store), RuleCommands(rules[i], w, e), PushCommands(rules[i + 1..], w, e), now);
      ApplyRule(store, rules[i], w, e, now);
    }
  }

  // ---- what additions leave in the tables ----

  const EMPTY := Tables(map[], map[])

  predicate AddOnly(cs: seq<Command>) {
    forall c <- cs :: c.Block? || c.Throttle?
  }

  function Over(t: Tables, u: Tables): Tables {
    Tables(t.blocks + u.blocks, t.throttles + u.throttles)
  }

  lemma ExecuteOver(t: Tables, c: Command, now: int)
    requires c.Block? || c.Throttle?
    ensures Execute(t, c, now) == Over(t, Execute(EMPTY, c, now))
  {
  }

  lemma OverAssociative(t: Tables, u: Tables, v: Tables)
    ensures Over(Over(t, u), v) == Over(t, Over(u, v))
  {
    assert (t.blocks + u.blocks) + v.blocks == t.blocks + (u.blocks + v.blocks);
    assert (t.throttles + u.throttles) + v.throttles == t.throttles + (u.throttles + v.throttles);
  }

  /** Additions overwrite the entries they name and leave the rest of the tables alone. */
  lemma {:induction false} AdditionsOverwrite(t: Tables, cs: seq<Command>, now: int)
    requires AddOnly(cs)
    ensures ExecuteAll(t, cs, now) == Over(t, ExecuteAll(EMPTY, cs, now))
    decreases |cs|
  {
    if cs != [] {
      assert cs[0] in cs;
      ExecuteOver(t, cs[0], now);
      AdditionsOverwrite(Execute(t, cs[0], now), cs[1..], now);
      AdditionsOverwrite(Execute(EMPTY, cs[0], now), cs[1..], now);
      OverAssociative(t, Execute(EMPTY, cs[0], now), ExecuteAll(EMPTY, cs[1..], now));
    }
  }

  predicate Effective(c: Command) {
    c.ip != "" && c.domain != ""
  }

  function EndOf(c: Command, now: int): int
    requires c.Block?
  {
    if OrZero(c.duration) > 0 then now + OrZero(c.duration) else OrZero(c.until)
  }

  /** After additions to empty tables, the block table holds a key exactly when some command added
      it, with the end that one such command gave. */
  lemma {:induction false} AddedBlocks(cs: seq<Command>, now: int, k: string)
    requires AddOnly(cs)
    ensures var t := ExecuteAll(EMPTY, cs, now).blocks;
            && (k in t <==> exists c <- cs :: c.Block? && Effective(c) && k == Key(c.ip, c.domain))
            && (k in t ==> exists c <- cs :: c.Block? && t[k].until == EndOf(c, now))
    decreases |cs|
  {
    if cs != [] {
      assert cs[0] in cs;
      AddedBlocks(cs[1..], now, k);
      AdditionsOverwrite(Execute(EMPTY, cs[0], now), cs[1..], now);
      assert forall c :: c in cs <==> c == cs[0] || c in cs[1..];
      var t, rest := ExecuteAll(EMPTY, cs, now).blocks, ExecuteAll(EMPTY, cs[1..], now).blocks;
      if k in t && k !in rest {
        assert k in Execute(EMPTY, cs[0], now).blocks;
        assert cs[0].Block? && Effective(cs[0]) && k == Key(cs[0].ip, cs[0].domain);
        assert t[k].until == EndOf(cs[0], now);
      }
    }
  }

  // ---- which commands a push contains ----

  lemma {:induction false} ForClientsMember(rule: Rule, w: World, clients: seq<string>, e: nat, c: Command)
    ensures c in ForClients(rule, w, clients, e) <==> exists ip <- clients :: c in ClientCommands(rule, w, ip, e)
  {
    if clients != [] {
      ForClientsMember(rule, w, clients[1..], e, c);
      assert forall ip :: ip in clients <==> ip == clients[0] || ip in clients[1..];
    }
  }

  lemma {:induction false} PushMember(rules: seq<Rule>, w: World, e: nat, c: Command)
    ensures c in PushCommands(rules, w, e) <==> exists r <- rules :: c in RuleCommands(r, w, e)
  {
    if rules != [] {
      PushMember(rules[1..], w, e, c);
      assert forall r :: r in rules <==> r == rules[0] || r in rules[1..];
    }
  }

  /** The forms of the commands that a rule sends. */
  lemma CommandForm(rule: Rule, w: World, e: nat, c: Command)
    requires c in RuleCommands(rule, w, e)
    ensures c.domain == rule.domain && (c.ip == GLOBAL || c.ip in w.clients)
    ensures match rule.action
            case BlockNow => c == Block(c.ip, c.domain, None, None)
            case BlockAfterMinutes => c == Block(c.ip, c.domain, Some(UntilMidnight(e)), None)
            case ThrottleNow => c == Throttle(c.ip, c.domain, Delay(rule), None)
            case OtherAction => false
  {
    hide IpMatches;
    ForClientsMember(rule, w, w.clients, e, c);
  }

  lemma RuleMember(rule: Rule, w: World, e: nat, c: Command)
    requires c in RuleCommands(rule, w, e)
    ensures c.domain == rule.domain && (c.Block? || c.Throttle?)
    ensures c.Block? ==> OrZero(c.until) == 0 && (c.duration == None || c.duration == Some(UntilMidnight(e)))
    ensures c.ip == GLOBAL || c.ip in w.clients
  {
    hide RuleCommands;
    CommandForm(rule, w, e, c);
  }

  lemma PushAddsOnly(rules: seq<Rule>, w: World, e: nat)
    ensures AddOnly(PushCommands(rules, w, e))
  {
    forall c | c in PushCommands(rules, w, e) ensures c.Block? || c.Throttle? {
      PushMember(rules, w, e, c);
      var r :| r in rules && c in RuleCommands(r, w, e);
      RuleMember(r, w, e, c);
    }
  }

  // ---- a fresh proxy after one push agrees with the rules ----

  /** Registered clients are addresses: no colon, and not the word that stands for everyone. */
  predicate ProperClients(w: World) {
    forall ip <- w.clients :: ':' !in ip && ip != GLOBAL
  }

  /** What a blocking rule says about an address and a domain, given how patterns cover domains. */
  predicate Applies(rule: Rule, w: World, ip: string) {
    || (rule.action.BlockNow? && rule.scope.Global?)
    || (ip in w.clients && ip != "" && IpMatches(rule, w, ip)
        && (rule.action.BlockNow?
            || (rule.action.BlockAfterMinutes? && SecondsSpent(w, ip, rule.domain) >= LimitSeconds(rule))))
  }

  predicate Covered(rule: Rule, w: World, ip: string, domain: string) {
    rule.domain != "" && PatternCovers(rule.domain, domain) && Applies(rule, w, ip)
  }

  /** The block command that an applicable rule sends. */
  function BlockingIp(rule: Rule, ip: string): string {
    if rule.action.BlockNow? && rule.scope.Global? then GLOBAL else ip
  }

  lemma AppliedRuleSends(rule: Rule, w: World, e: nat, ip: string)
    requires Applies(rule, w, ip)
    ensures exists c <- RuleCommands(rule, w, e) :: c.Block? && c.ip == BlockingIp(rule, ip) && c.domain == rule.domain
    ensures BlockingIp(rule, ip) != ""
  {
    if rule.action.BlockNow? && rule.scope.Global? {
      assert RuleCommands(rule, w, e)[0] in RuleCommands(rule, w, e);
    } else {
      var c := Block(ip, rule.domain, if rule.action.BlockNow? then None else Some(UntilMidnight(e)), None);
      assert c in ClientCommands(rule, w, ip, e);
      ForClientsMember(rule, w, w.clients, e, c);
    }
  }

  lemma SentRuleApplies(rule: Rule, w: World, e: nat, c: Command, ip: string)
    requires ProperClients(w) && c in RuleCommands(rule, w, e) && c.Block? && Effective(c)
    requires c.ip == ip || c.ip == GLOBAL
    ensures Applies(rule, w, ip)
  {
    ForClientsMember(rule, w, w.clients, e, c);
  }

  /** From empty tables, after one push, and until the next midnight, a lookup is answered "blocked"
      exactly when some rule covers the address and the domain. */
  lemma {:induction false} FreshPushAgrees(
        rules: seq<Rule>, w: World, e: nat, now: nat, q: int, ip: string, domain: string)
    requires ProperClients(w) && ':' !in ip && q < now + UntilMidnight(e)
    ensures Blocked(ExecuteAll(EMPTY, PushCommands(rules, w, e), now).blocks, ip, domain, q)
       <==> exists r <- rules :: Covered(r, w, ip, domain)
  {
    var cs := PushCommands(rules, w, e);
    var t := ExecuteAll(EMPTY, cs, now).blocks;
    PushAddsOnly(rules, w, e);
    if Blocked(t, ip, domain, q) {
      var k :| k in t && Live(t[k], q) && Hit(k, ip, domain);
      AddedBlocks(cs, now, k);
      var c :| c in cs && c.Block? && Effective(c) && k == Key(c.ip, c.domain);
      PushMember(rules, w, e, c);
      var r :| r in rules && c in RuleCommands(r, w, e);
      RuleMember(r, w, e, c);
      HitIff(c.ip, c.domain, ip, domain);
      SentRuleApplies(r, w, e, c, ip);
    }
    if r :| r in rules && Covered(r, w, ip, domain) {
      AppliedRuleSends(r, w, e, ip);
      var c :| c in RuleCommands(r, w, e) && c.Block? && c.ip == BlockingIp(r, ip) && c.domain == r.domain;
      PushMember(rules, w, e, c);
      var k := Key(c.ip, c.domain);
      AddedBlocks(cs, now, k);
      PushedEntryLive(rules, w, e, now, q, k);
      HitIff(c.ip, c.domain, ip, domain);
    }
  }

  lemma PushedEntryLive(rules: seq<Rule>, w: World, e: nat, now: nat, q: int, k: string)
    requires q < now + UntilMidnight(e)
    requires k in ExecuteAll(EMPTY, PushCommands(rules, w, e), now).blocks
    ensures Live(ExecuteAll(EMPTY, PushCommands(rules, w, e), now).blocks[k], q)
  {
    var cs := PushCommands(rules, w, e);
    PushAddsOnly(rules, w, e);
    AddedBlocks(cs, now, k);
    var t := ExecuteAll(EMPTY, cs, now).blocks;
    var c :| c in cs && c.Block? && t[k].until == EndOf(c, now);
    PushMember(rules, w, e, c);
    var r :| r in rules && c in RuleCommands(r, w, e);
    RuleMember(r, w, e, c);
  }

  lemma WildcardStarts(pattern: string)
    requires IsWildcard(pattern)
    ensures StartsWith(pattern, "*.")
  {
    assert pattern[..2] == "*.";
  }

  /** A stored pattern covers the domains the engine says it matches, exactly when it is neither
      empty nor a wildcard with nothing behind it. */
  lemma {:induction false} PatternAgreement(pattern: string)
    requires !StartsWith(pattern, "~")
    ensures (forall d :: (pattern != "" && PatternCovers(pattern, d)) <==> DomainMatches(pattern, d))
       <==> pattern != "" && pattern != "*."
  {
    if pattern == "" {
      assert DomainMatches("", "");
    } else if pattern == "*." {
      assert DomainMatches("*.", "");
      assert !PatternCovers("*.", "");
    } else if StartsWith(pattern, "*.") {
      assert pattern[..2] == "*.";
      assert pattern[0] == '*' && pattern[1] == '.';
      assert pattern[1..] == "." + pattern[2..];
      assert EndsWith(pattern, pattern[1..]);
    } else {
      if IsWildcard(pattern) { WildcardStarts(pattern); }
    }
  }

  predicate Blocking(rule: Rule) {
    rule.action.BlockNow? || rule.action.BlockAfterMinutes?
  }

  /** The pattern means the same to the engine and to the table. */
  predicate SharedPattern(pattern: string) {
    !StartsWith(pattern, "~") && pattern != "" && pattern != "*."
  }

  /** Whom a scope means, with blocks of addresses as intervals of 32-bit values: for a prefix in range
      the address has the network's quotient by the block size; past 32 it has the same low bits. */
  predicate InScope(scope: Scope, w: World, ip: string) {
    match scope
    case Global => true
    case SingleIp(target) => ip == target
    case Subnet(Some((net, prefix))) =>
      net in w.addresses && ip in w.addresses
      && var a, b := Cidr.TupleToInt(w.addresses[net]), Cidr.TupleToInt(w.addresses[ip]);
         if 0 <= prefix <= 32 then a / Cidr.Pow2(32 - prefix) == b / Cidr.Pow2(32 - prefix)
         else prefix < 0 || prefix > 64 || a % Cidr.Pow2(64 - prefix) == b % Cidr.Pow2(64 - prefix)
    case _ => false
  }

  lemma InScopeIff(rule: Rule, w: World, ip: string)
    ensures IpMatches(rule, w, ip) <==> InScope(rule.scope, w, ip)
  {
    if rule.scope.Subnet? && rule.scope.cidr.Some? {
      var (net, prefix) := rule.scope.cidr.value;
      if net in w.addresses && ip in w.addresses {
        if 0 <= prefix <= 32 {
          Cidr.ContainsIffSameQuotient(w.addresses[net], prefix, w.addresses[ip]);
        } else {
          Cidr.ContainsOutOfRange(w.addresses[net], prefix, w.addresses[ip]);
        }
      }
    }
  }

  /** The rule blocks the domain for the address: at once for everyone, or for a registered client in its
      scope, at once or when the time spent under the pattern has reached the limit. */
  predicate Says(rule: Rule, w: World, ip: string, domain: string)
    requires Blocking(rule) ==> SharedPattern(rule.domain)
  {
    Blocking(rule) && DomainMatches(rule.domain, domain)
    && ((rule.action.BlockNow? && rule.scope.Global?)
        || (ip in w.clients && ip != "" && InScope(rule.scope, w, ip)
            && (rule.action.BlockNow?
                || (if (ip, rule.domain) in w.seconds then w.seconds[(ip, rule.domain)] else 0)
                   >= (if rule.minutes.Some? then rule.minutes.value else 30) * 60)))
  }

  lemma CoveredIffSays(rule: Rule, w: World, ip: string, domain: string)
    requires Blocking(rule) ==> SharedPattern(rule.domain)
    ensures Covered(rule, w, ip, domain) <==> Says(rule, w, ip, domain)
  {
    InScopeIff(rule, w, ip);
    if Blocking(rule) { PatternAgreement(rule.domain); }
  }

  /** The same agreement with the engine's own matching, when the blocking rules have patterns that mean
      the same to both. */
  lemma {:induction false} FreshPushMatchesRules(
      rules: seq<Rule>, w: World, e: nat, now: nat, q: int, ip: string, domain: string)
    requires ProperClients(w) && ':' !in ip && q < now + UntilMidnight(e)
    requires forall r <- rules :: Blocking(r) ==> SharedPattern(r.domain)
    ensures Blocked(ExecuteAll(EMPTY, PushCommands(rules, w, e), now).blocks, ip, domain, q)
       <==> exists r <- rules :: Says(r, w, ip, domain)
  {
    FreshPushAgrees(rules, w, e, now, q, ip, domain);
    forall r | r in rules ensures Covered(r, w, ip, domain) <==> Says(r, w, ip, domain) {
      CoveredIffSays(r, w, ip, domain);
    }
  }

  // ---- resynchronisation ----

  /** A clock reading of a push: the engine's time and the proxy's. */
  datatype Reading = Reading(engine: nat, proxy: int)

  /** Two pushes of one UTC day between which the two clocks keep their distance. */
  predicate SameDay(a: Reading, b: Reading) {
    a.engine / 86400 == b.engine / 86400 && a.proxy - a.engine == b.proxy - b.engine
  }

  /** The end a timed block gets is the next midnight, whenever in the day it is pushed. */
  lemma {:induction false} EndIsNextMidnight(a: Reading, b: Reading)
    requires SameDay(a, b)
    ensures a.proxy + UntilMidnight(a.engine) == b.proxy + UntilMidnight(b.engine)
    ensures a.proxy + UntilMidnight(a.engine) == (a.proxy - a.engine) + (a.engine / 86400 + 1) * 86400
  {
  }

  /** Two commands that differ at most in when their timed block was computed. */
  predicate SameButTime(c: Command, d: Command, ec: nat, ed: nat) {
    || (c == d && DurationOf(c).None?)
    || (c.Block? && c.duration == Some(UntilMidnight(ec))
        && d == Block(c.ip, c.domain, Some(UntilMidnight(ed)), c.until))
  }

  predicate AllSame(cs: seq<Command>, ds: seq<Command>, ec: nat, ed: nat) {
    |cs| == |ds| && forall i :: 0 <= i < |cs| ==> SameButTime(cs[i], ds[i], ec, ed)
  }

  lemma SameEffect(t: Tables, c: Command, d: Command, a: Reading, b: Reading)
    requires SameDay(a, b) && SameButTime(c, d, a.engine, b.engine)
    ensures Execute(t, c, a.proxy) == Execute(t, d, b.proxy)
  {
    EndIsNextMidnight(a, b);
  }

  lemma SameConcat(xs: seq<Command>, ys: seq<Command>, cs: seq<Command>, ds: seq<Command>, ec: nat, ed: nat)
    requires AllSame(xs, cs, ec, ed) && AllSame(ys, ds, ec, ed)
    ensures AllSame(xs + ys, cs + ds, ec, ed)
  {
    hide SameButTime;
  }

  lemma RuleSame(rule: Rule, w: World, ec: nat, ed: nat)
    ensures AllSame(RuleCommands(rule, w, ec), RuleCommands(rule, w, ed), ec, ed)
  {
    ClientsSame(rule, w, w.clients, ec, ed);
  }

  lemma {:induction false} ClientsSame(rule: Rule, w: World, clients: seq<string>, ec: nat, ed: nat)
    ensures AllSame(ForClients(rule, w, clients, ec), ForClients(rule, w, clients, ed), ec, ed)
  {
    if clients != [] {
      ClientsSame(rule, w, clients[1..], ec, ed);
      SameConcat(ClientCommands(rule, w, clients[0], ec), ForClients(rule, w, clients[1..], ec),
                 ClientCommands(rule, w, clients[0], ed), ForClients(rule, w, clients[1..], ed), ec, ed);
    }
  }

  /** A push sends the same commands whenever it runs, but for the durations. */
  lemma {:induction false} PushSame(rules: seq<Rule>, w: World, ec: nat, ed: nat)
    ensures AllSame(PushCommands(rules, w, ec), PushCommands(rules, w, ed), ec, ed)
  {
    hide RuleCommands, SameButTime;
    if rules != [] {
      PushSame(rules[1..], w, ec, ed);
      RuleSame(rules[0], w, ec, ed);
      SameConcat(RuleCommands(rules[0], w, ec), PushCommands(rules[1..], w, ec),
                 RuleCommands(rules[0], w, ed), PushCommands(rules[1..], w, ed), ec, ed);
    }
  }

  /** A push sends as many commands at any time. */
  function PushSize(rules: seq<Rule>, w: World): nat {
    |PushCommands(rules, w, 0)|
  }

  lemma PushSizeIs(rules: seq<Rule>, w: World)
    ensures forall e: nat :: |PushCommands(rules, w, e)| == PushSize(rules, w)
  {
    forall e: nat ensures |PushCommands(rules, w, e)| == PushSize(rules, w) { PushSame(rules, w, 0, e); }
  }

  /** A push that takes its time: command i is computed, and executed, at its own clock readings. */
  function SpreadCommands(rules: seq<Rule>, w: World, readings: seq<Reading>): (cs: seq<Command>)
    requires |readings| == PushSize(rules, w)
    ensures |cs| == |readings|
    ensures forall i :: 0 <= i < |cs| ==>
      i < |PushCommands(rules, w, readings[i].engine)| && cs[i] == PushCommands(rules, w, readings[i].engine)[i]
  {
    PushSizeIs(rules, w);
    seq(|readings|, i requires 0 <= i < |readings| => PushCommands(rules, w, readings[i].engine)[i])
  }

  function ExecuteEach(t: Tables, cs: seq<Command>, readings: seq<Reading>): Tables
    requires |cs| == |readings|
    decreases |cs|
  {
    if cs == [] then t else ExecuteEach(Execute(t, cs[0], readings[0].proxy), cs[1..], readings[1..])
  }

  lemma {:induction false} EachSame(t: Tables, cs: seq<Command>, readings: seq<Reading>, ds: seq<Command>, day: Reading)
    requires |cs| == |ds| == |readings|
    requires forall i :: 0 <= i < |cs| ==>
               SameDay(day, readings[i]) && SameButTime(ds[i], cs[i], day.engine, readings[i].engine)
    ensures ExecuteEach(t, cs, readings) == ExecuteAll(t, ds, day.proxy)
    decreases |cs|
  {
    hide SameDay, SameButTime, Execute;
    if cs != [] {
      SameEffect(t, ds[0], cs[0], day, readings[0]);
      EachSame(Execute(t, ds[0], day.proxy), cs[1..], readings[1..], ds[1..], day);
    }
  }

  /** A push spread over a day is as good as one that happens all at once. */
  lemma {:induction false} SpreadPushSame(t: Tables, rules: seq<Rule>, w: World, readings: seq<Reading>, day: Reading)
    requires |readings| == PushSize(rules, w) && forall r <- readings :: SameDay(day, r)
    ensures ExecuteEach(t, SpreadCommands(rules, w, readings), readings)
         == ExecuteAll(t, PushCommands(rules, w, day.engine), day.proxy)
  {
    hide SameDay, SameButTime;
    var cs, ds := SpreadCommands(rules, w, readings), PushCommands(rules, w, day.engine);
    PushSizeIs(rules, w);
    forall i | 0 <= i < |cs|
      ensures SameDay(day, readings[i]) && SameButTime(ds[i], cs[i], day.engine, readings[i].engine)
    {
      assert readings[i] in readings;
      PushSame(rules, w, day.engine, readings[i].engine);
    }
    EachSame(t, cs, readings, ds, day);
  }

  predicate WithinDay(rules: seq<Rule>, w: World, pushes: seq<seq<Reading>>, day: Reading) {
    forall p <- pushes :: |p| == PushSize(rules, w) && forall r <- p :: SameDay(day, r)
  }

  /** The tables after the pushes, each at its own readings. */
  function Resync(t: Tables, rules: seq<Rule>, w: World, pushes: seq<seq<Reading>>): Tables
    requires forall p <- pushes :: |p| == PushSize(rules, w)
    decreases |pushes|
  {
    if pushes == [] then t
    else Resync(ExecuteEach(t, SpreadCommands(rules, w, pushes[0]), pushes[0]), rules, w, pushes[1..])
  }

  /** Any number of pushes within one day, each taking its time, leaves the tables as a single push
      leaves them, whatever they held before and even when rules collide on a key. */
  lemma {:induction false} ResyncIdempotent(
        t: Tables, rules: seq<Rule>, w: World, pushes: seq<seq<Reading>>, day: Reading)
    requires pushes != [] && WithinDay(rules, w, pushes, day)
    ensures Resync(t, rules, w, pushes) == ExecuteAll(t, PushCommands(rules, w, day.engine), day.proxy)
    decreases |pushes|
  {
    var cs := PushCommands(rules, w, day.engine);
    var once := ExecuteAll(t, cs, day.proxy);
    assert pushes[0] in pushes;
    SpreadPushSame(t, rules, w, pushes[0], day);
    if |pushes| > 1 {
      ResyncIdempotent(once, rules, w, pushes[1..], day);
      PushAddsOnly(rules, w, day.engine);
      AdditionsOverwrite(t, cs, day.proxy);
      AdditionsOverwrite(once, cs, day.proxy);
      OverTwice(t, ExecuteAll(EMPTY, cs, day.proxy));
    }
  }

  lemma OverTwice(t: Tables, u: Tables)
    ensures Over(Over(t, u), u) == Over(t, u)
  {
  }

  // ---- withdrawing a rule ----

  predicate Withdrawable(rule: Rule) {
    rule.action.BlockNow? || rule.action.BlockAfterMinutes? || rule.action.ThrottleNow?
  }

  function UnblockOne(rule: Rule, ip: string): Command {
    if rule.action.ThrottleNow? then Unthrottle(ip, rule.domain) else Unblock(ip, rule.domain)
  }

  function UnblockForClients(rule: Rule, w: World, clients: seq<string>): seq<Command> {
    if clients == [] then []
    else (if IpMatches(rule, w, clients[0]) then [UnblockOne(rule, clients[0])] else [])
         + UnblockForClients(rule, w, clients[1..])
  }

  function UnblockCommands(rule: Rule, w: World): seq<Command> {
    if !Withdrawable(rule) then []
    else if rule.scope.Global? then [UnblockOne(rule, GLOBAL)]
    else UnblockForClients(rule, w, w.clients)
  }

  method UnblockForRule(store: PolicyStore, rule: Rule, w: World, now: int)
    modifies store
    ensures View(store) == ExecuteAll(old(View(store)), UnblockCommands(rule, w), now)
  {
    if !Withdrawable(rule) { return; }
    ghost var t := View(store);
    if rule.scope.Global? {
      assert ExecuteAll(t, [UnblockOne(rule, GLOBAL)], now) == Execute(t, UnblockOne(rule, GLOBAL), now);
      Deliver(store, UnblockOne(rule, GLOBAL), now);
    } else {
      for i := 0 to |w.clients|
        invariant ExecuteAll(View(store), UnblockForClients(rule, w, w.clients[i..]), now)
               == ExecuteAll(t, UnblockCommands(rule, w), now)
      {
        assert w.clients[i..][1..] == w.clients[i + 1..];
        if IpMatches(rule, w, w.clients[i]) {
          var c := UnblockOne(rule, w.clients[i]);
          ExecuteConcat(View(store), [c], UnblockForClients(rule, w, w.clients[i + 1..]), now);
          assert ExecuteAll(View(store), [c], now) == Execute(View(store), c, now);
          Deliver(store, c, now);
        } else {
          ExecuteConcat(View(store), [], UnblockForClients(rule, w, w.clients[i + 1..]), now);
        }
      }
    }
  }

  predicate RemoveOnly(cs: seq<Command>, throttles: bool) {
    forall c <- cs :: if throttles then c.Unthrottle? else c.Unblock?
  }

  /** Some command of the list withdraws the key. */
  predicate Removes(cs: seq<Command>, k: string) {
    exists c <- cs :: Effective(c) && Withdrawn(c.ip, c.domain, k)
  }

  function Minus<T>(t: Table<T>, cs: seq<Command>): Table<T> {
    map k | k in t && !Removes(cs, k) :: t[k]
  }

  lemma {:induction false} RemovalsFilter(t: Tables, cs: seq<Command>, throttles: bool, now: int)
    requires RemoveOnly(cs, throttles)
    ensures ExecuteAll(t, cs, now)
         == if throttles then t.(throttles := Minus(t.throttles, cs)) else t.(blocks := Minus(t.blocks, cs))
    decreases |cs|
  {
    if cs == [] {
      assert Minus(t.throttles, cs) == t.throttles && Minus(t.blocks, cs) == t.blocks;
    } else {
      assert cs[0] in cs;
      var t1 := Execute(t, cs[0], now);
      RemovalsFilter(t1, cs[1..], throttles, now);
      forall k
        ensures Removes(cs, k)
           <==> (Effective(cs[0]) && Withdrawn(cs[0].ip, cs[0].domain, k)) || Removes(cs[1..], k)
      {
        assert forall c :: c in cs <==> c == cs[0] || c in cs[1..];
      }
      assert Minus(t1.throttles, cs[1..]) == if throttles then Minus(t.throttles, cs) else Minus(t1.throttles, cs[1..]);
      assert Minus(t1.blocks, cs[1..]) == if throttles then Minus(t1.blocks, cs[1..]) else Minus(t.blocks, cs);
    }
  }

  lemma {:induction false} UnblockMember(rule: Rule, w: World, clients: seq<string>, c: Command)
    ensures c in UnblockForClients(rule, w, clients)
       <==> exists ip <- clients :: IpMatches(rule, w, ip) && c == UnblockOne(rule, ip)
  {
    if clients != [] {
      UnblockMember(rule, w, clients[1..], c);
      assert forall ip :: ip in clients <==> ip == clients[0] || ip in clients[1..];
    }
  }

  lemma UnblockRemovesOnly(rule: Rule, w: World)
    ensures RemoveOnly(UnblockCommands(rule, w), rule.action.ThrottleNow?)
  {
    forall c | c in UnblockCommands(rule, w) ensures if rule.action.ThrottleNow? then c.Unthrottle? else c.Unblock? {
      UnblockMember(rule, w, w.clients, c);
    }
  }

  lemma WithdrawsItself(ip: string, pattern: string)
    ensures Withdrawn(ip, pattern, Key(ip, pattern))
  {
    var key := Key(ip, pattern);
    assert key[..|ip| + 1] == ip + ":" && key[|ip| + 1..] == pattern;
    if IsWildcard(pattern) {
      assert pattern[|pattern| - |pattern[1..]|..] == pattern[1..];
    }
  }

  predicate WritesThrottle(c: Command, k: string, e: Entry<int>) {
    c.Throttle? && Effective(c) && k == Key(c.ip, c.domain)
    && e.load == c.delayMs && (c.duration.None? ==> e.until == 0)
  }

  /** After additions to empty tables, the throttle table holds a key exactly when some command
      added it, with the value that one such command gave. */
  lemma {:induction false} AddedThrottles(cs: seq<Command>, now: int, k: string)
    requires AddOnly(cs)
    ensures var t := ExecuteAll(EMPTY, cs, now).throttles;
            && (k in t <==> exists c <- cs :: c.Throttle? && Effective(c) && k == Key(c.ip, c.domain))
            && (k in t ==> exists c <- cs :: WritesThrottle(c, k, t[k]))
    decreases |cs|
  {
    if cs != [] {
      assert cs[0] in cs;
      AddedThrottles(cs[1..], now, k);
      AdditionsOverwrite(Execute(EMPTY, cs[0], now), cs[1..], now);
      assert forall c :: c in cs <==> c == cs[0] || c in cs[1..];
    }
  }

  /** Unless a rule is global and timed, each key it writes is one its withdrawal removes. */
  lemma WrittenIsWithdrawn(rule: Rule, w: World, e: nat, c: Command)
    requires c in RuleCommands(rule, w, e) && Effective(c)
    requires !(rule.scope.Global? && rule.action.BlockAfterMinutes?)
    ensures Removes(UnblockCommands(rule, w), Key(c.ip, c.domain))
    ensures c.Throttle? <==> rule.action.ThrottleNow?
  {
    WithdrawsItself(c.ip, c.domain);
    var u := UnblockOne(rule, c.ip);
    if rule.scope.Global? && (rule.action.BlockNow? || rule.action.ThrottleNow?) {
      assert UnblockCommands(rule, w) == [u];
    } else {
      ForClientsMember(rule, w, w.clients, e, c);
      UnblockMember(rule, w, w.clients, u);
    }
    assert u in UnblockCommands(rule, w);
  }

  /** No key of the tables is one the rule's withdrawal removes. */
  predicate Untouched(t: Tables, rule: Rule, w: World) {
    var us := UnblockCommands(rule, w);
    if rule.action.ThrottleNow? then forall k <- t.throttles :: !Removes(us, k)
    else forall k <- t.blocks :: !Removes(us, k)
  }

  ghost function ApplyThenUnblock(t: Tables, rule: Rule, w: World, e: nat, now: int, later: int): Tables {
    ExecuteAll(ExecuteAll(t, RuleCommands(rule, w, e), now), UnblockCommands(rule, w), later)
  }

  /** What applying and then withdrawing a rule leaves: the additions over the old tables, less
      everything the withdrawal removes. */
  lemma ApplyThenUnblockIs(t: Tables, rule: Rule, w: World, e: nat, now: int, later: int)
    ensures var r := ApplyThenUnblock(t, rule, w, e, now, later);
            var a := ExecuteAll(EMPTY, RuleCommands(rule, w, e), now);
            var us := UnblockCommands(rule, w);
            if rule.action.ThrottleNow?
            then r == Tables(t.blocks + a.blocks, Minus(t.throttles + a.throttles, us))
            else r == Tables(Minus(t.blocks + a.blocks, us), t.throttles + a.throttles)
  {
    forall c | c in RuleCommands(rule, w, e) ensures c.Block? || c.Throttle? { RuleMember(rule, w, e, c); }
    AdditionsOverwrite(t, RuleCommands(rule, w, e), now);
    UnblockRemovesOnly(rule, w);
    var applied := ExecuteAll(t, RuleCommands(rule, w, e), now);
    RemovalsFilter(applied, UnblockCommands(rule, w), rule.action.ThrottleNow?, later);
  }

  lemma WrittenKeys(rule: Rule, w: World, e: nat, now: int)
    requires !(rule.scope.Global? && rule.action.BlockAfterMinutes?)
    ensures var a := ExecuteAll(EMPTY, RuleCommands(rule, w, e), now);
            && (forall k <- a.blocks :: !rule.action.ThrottleNow? && Removes(UnblockCommands(rule, w), k))
            && (forall k <- a.throttles :: rule.action.ThrottleNow? && Removes(UnblockCommands(rule, w), k))
  {
    var cs := RuleCommands(rule, w, e);
    var a := ExecuteAll(EMPTY, cs, now);
    forall c | c in cs ensures c.Block? || c.Throttle? { RuleMember(rule, w, e, c); }
    forall k | k in a.blocks ensures !rule.action.ThrottleNow? && Removes(UnblockCommands(rule, w), k) {
      AddedBlocks(cs, now, k);
      var c :| c in cs && c.Block? && Effective(c) && k == Key(c.ip, c.domain);
      WrittenIsWithdrawn(rule, w, e, c);
    }
    forall k | k in a.throttles ensures rule.action.ThrottleNow? && Removes(UnblockCommands(rule, w), k) {
      AddedThrottles(cs, now, k);
      var c :| c in cs && c.Throttle? && Effective(c) && k == Key(c.ip, c.domain);
      WrittenIsWithdrawn(rule, w, e, c);
    }
  }

  /** Applying a rule and withdrawing it with the same clients gives back the original tables,
      exactly when they held no key that the withdrawal removes. */
  lemma {:induction false} ApplyThenUnblockRestores(t: Tables, rule: Rule, w: World, e: nat, now: int, later: int)
    requires !(rule.scope.Global? && rule.action.BlockAfterMinutes?)
    ensures ApplyThenUnblock(t, rule, w, e, now, later) == t <==> Untouched(t, rule, w)
  {
    ApplyThenUnblockIs(t, rule, w, e, now, later);
    WrittenKeys(rule, w, e, now);
    var a := ExecuteAll(EMPTY, RuleCommands(rule, w, e), now);
    var us := UnblockCommands(rule, w);
    if rule.action.ThrottleNow? {
      assert a.blocks == map[] by { assert forall k :: k !in a.blocks; }
      assert Minus(t.throttles + a.throttles, us) == Minus(t.throttles, us);
      MinusIdentity(t.throttles, us);
    } else {
      assert a.throttles == map[] by { assert forall k :: k !in a.throttles; }
      assert Minus(t.blocks + a.blocks, us) == Minus(t.blocks, us);
      MinusIdentity(t.blocks, us);
    }
  }

  lemma MinusIdentity<T>(t: Table<T>, us: seq<Command>)
    ensures Minus(t, us) == t <==> forall k <- t :: !Removes(us, k)
  {
    if k :| k in t && Removes(us, k) {
      assert k !in Minus(t, us);
    }
  }

  lemma OverThenMinus<T>(t: Table<T>, written: Table<T>, us: seq<Command>)
    ensures Minus(t + written, us) == t
       <==> (forall k <- t :: !Removes(us, k))
            && forall k <- written :: Removes(us, k) || (k in t && t[k] == written[k])
  {
    var r := Minus(t + written, us);
    if r == t {
      forall k | k in t ensures !Removes(us, k) { assert k in r; }
      forall k | k in written && !Removes(us, k) ensures k in t && t[k] == written[k] { assert k in r; }
    }
  }

  /** A global timed rule is applied per client but withdrawn only under the global scope, so its
      entries stay: the tables come back exactly when the withdrawal removes none of their keys and
      every entry the rule writes was already there. */
  lemma {:induction false} GlobalTimedRuleRestores(t: Tables, rule: Rule, w: World, e: nat, now: int, later: int)
    requires rule.scope.Global? && rule.action.BlockAfterMinutes? && ProperClients(w)
    ensures ApplyThenUnblock(t, rule, w, e, now, later) == t
       <==> Untouched(t, rule, w)
            && var a := ExecuteAll(EMPTY, RuleCommands(rule, w, e), now).blocks;
               forall k <- a :: k in t.blocks && t.blocks[k] == a[k]
  {
    ApplyThenUnblockIs(t, rule, w, e, now, later);
    var cs, us := RuleCommands(rule, w, e), UnblockCommands(rule, w);
    var a := ExecuteAll(EMPTY, cs, now);
    forall c | c in cs ensures c.Block? { ForClientsMember(rule, w, w.clients, e, c); }
    forall k ensures k !in a.throttles { AddedThrottles(cs, now, k); }
    assert a.throttles == map[];
    forall k | k in a.blocks ensures !Removes(us, k) {
      AddedBlocks(cs, now, k);
      var c :| c in cs && c.Block? && Effective(c) && k == Key(c.ip, c.domain);
      ForClientsMember(rule, w, w.clients, e, c);
      NotUnderGlobal(c.ip, c.domain, rule.domain);
    }
    OverThenMinus(t.blocks, a.blocks, us);
  }

  lemma NotUnderGlobal(ip: string, domain: string, pattern: string)
    requires ':' !in ip && ip != GLOBAL
    ensures !Withdrawn(GLOBAL, pattern, Key(ip, domain))
  {
    var key := Key(ip, domain);
    FirstColon(ip, domain);
    FirstColon(GLOBAL, pattern);
    if StartsWith(key, GLOBAL + ":") {
      assert key == Key(GLOBAL, key[|GLOBAL| + 1..]);
      FirstColon(GLOBAL, key[|GLOBAL| + 1..]);
    }
  }

  // ---- what a push does to throttling ----

  predicate Throttles(rule: Rule, w: World, ip: string, domain: string) {
    rule.action.ThrottleNow? && !rule.scope.Global? && rule.domain == domain
    && ip in w.clients && IpMatches(rule, w, ip)
  }

  /** The delay of the last rule, in push order, that throttles the client on exactly this domain. */
  function LastDelay(rules: seq<Rule>, w: World, ip: string, domain: string): Option<int> {
    if rules == [] then None else
    var rest := LastDelay(rules[1..], w, ip, domain);
    if rest.Some? then rest
    else if Throttles(rules[0], w, ip, domain) then Some(Delay(rules[0]))
    else None
  }

  lemma SentThrottle(rule: Rule, w: World, e: nat, c: Command, ip: string, domain: string)
    requires ProperClients(w) && ':' !in ip && ip != GLOBAL
    requires c in RuleCommands(rule, w, e) && c.Throttle? && Key(ip, domain) == Key(c.ip, c.domain)
    ensures Throttles(rule, w, ip, domain) && c == Throttle(ip, domain, Delay(rule), None)
  {
    hide IpMatches, Find;
    RuleMember(rule, w, e, c);
    ForClientsMember(rule, w, w.clients, e, c);
    assert ':' !in c.ip;
    FirstColon(ip, domain);
    FirstColon(c.ip, c.domain);
  }

  lemma ThrottlesSends(rule: Rule, w: World, e: nat, ip: string, domain: string)
    requires Throttles(rule, w, ip, domain)
    ensures Throttle(ip, domain, Delay(rule), None) in RuleCommands(rule, w, e)
  {
    var c := Throttle(ip, domain, Delay(rule), None);
    assert c in ClientCommands(rule, w, ip, e);
    ForClientsMember(rule, w, w.clients, e, c);
  }

  lemma RuleThrottles(rule: Rule, w: World, e: nat, now: int, ip: string, domain: string)
    requires ProperClients(w) && ':' !in ip && ip != GLOBAL && ip != "" && domain != ""
    ensures var t, k := ExecuteAll(EMPTY, RuleCommands(rule, w, e), now).throttles, Key(ip, domain);
            if Throttles(rule, w, ip, domain) then k in t && t[k] == Entry(Delay(rule), 0) else k !in t
  {
    hide RuleCommands, Throttles, ExecuteAll;
    var cs, k := RuleCommands(rule, w, e), Key(ip, domain);
    forall c | c in cs ensures c.Block? || c.Throttle? { RuleMember(rule, w, e, c); }
    AddedThrottles(cs, now, k);
    forall c | c in cs && c.Throttle? && k == Key(c.ip, c.domain)
      ensures Throttles(rule, w, ip, domain) && c == Throttle(ip, domain, Delay(rule), None)
    {
      SentThrottle(rule, w, e, c, ip, domain);
    }
    if Throttles(rule, w, ip, domain) { ThrottlesSends(rule, w, e, ip, domain); }
  }

  /** After one push to empty tables, the delay applied to a client on a domain is that of the last
      rule throttling it on exactly that domain, and zero if there is none: global and wildcard
      throttle rules have no effect. */
  lemma {:induction false} FreshPushThrottles(
        rules: seq<Rule>, w: World, e: nat, now: int, q: int, ip: string, domain: string)
    requires ProperClients(w) && ':' !in ip && ip != GLOBAL && ip != "" && domain != ""
    ensures var t, k := ExecuteAll(EMPTY, PushCommands(rules, w, e), now).throttles, Key(ip, domain);
            var d := LastDelay(rules, w, ip, domain);
            && (k in t <==> d.Some?) && (d.Some? ==> t[k] == Entry(d.value, 0))
            && ThrottleMs(t, ip, domain, q) == if d.Some? then d.value else 0
  {
    if rules != [] {
      var r0, rest := RuleCommands(rules[0], w, e), PushCommands(rules[1..], w, e);
      RuleThrottles(rules[0], w, e, now, ip, domain);
      FreshPushThrottles(rules[1..], w, e, now, q, ip, domain);
      ExecuteConcat(EMPTY, r0, rest, now);
      PushAddsOnly(rules[1..], w, e);
      AdditionsOverwrite(ExecuteAll(EMPTY, r0, now), rest, now);
    }
  }

  // ---- a push over tables that hold entries already ----

  /** Overlaying entries that are all live adds exactly the lookups that they answer. */
  lemma OverlaidLookup(t: BlockTable, a: BlockTable, ip: string, domain: string, q: int)
    requires forall j <- a :: Live(a[j], q)
    ensures Blocked(t + a, ip, domain, q) <==> Blocked(t, ip, domain, q) || Blocked(a, ip, domain, q)
  {
    hide Hit, Live;
    if Blocked(t + a, ip, domain, q) {
      var j :| j in t + a && Live((t + a)[j], q) && Hit(j, ip, domain);
      assert if j in a then Live(a[j], q) else j in t && Live(t[j], q);
    }
    if Blocked(t, ip, domain, q) {
      var j :| j in t && Live(t[j], q) && Hit(j, ip, domain);
      assert j in t + a && Live((t + a)[j], q);
    }
    if Blocked(a, ip, domain, q) {
      var j :| j in a && Live(a[j], q) && Hit(j, ip, domain);
      assert j in t + a && Live((t + a)[j], q);
    }
  }

  /** After one push over any tables, and until the next midnight, a lookup is answered "blocked" exactly
      when it was before or some rule covers the address and the domain. */
  lemma {:induction false} PushBlocks(
      t: Tables, rules: seq<Rule>, w: World, e: nat, now: nat, q: int, ip: string, domain: string)
    requires ProperClients(w) && ':' !in ip && q < now + UntilMidnight(e)
    ensures Blocked(ExecuteAll(t, PushCommands(rules, w, e), now).blocks, ip, domain, q)
       <==> Blocked(t.blocks, ip, domain, q) || exists r <- rules :: Covered(r, w, ip, domain)
  {
    hide Blocked, Covered, Live, PushCommands;
    var cs := PushCommands(rules, w, e);
    var a := ExecuteAll(EMPTY, cs, now).blocks;
    forall j | j in a ensures Live(a[j], q) { PushedEntryLive(rules, w, e, now, q, j); }
    PushAddsOnly(rules, w, e);
    AdditionsOverwrite(t, cs, now);
    OverlaidLookup(t.blocks, a, ip, domain, q);
    FreshPushAgrees(rules, w, e, now, q, ip, domain);
  }

  /** And a client's delay is that of the last rule throttling it on exactly that domain, or as before
      if there is none. */
  lemma {:induction false} PushThrottles(
      t: Tables, rules: seq<Rule>, w: World, e: nat, now: int, q: int, ip: string, domain: string)
    requires ProperClients(w) && ':' !in ip && ip != GLOBAL && ip != "" && domain != ""
    ensures var d := LastDelay(rules, w, ip, domain);
            ThrottleMs(ExecuteAll(t, PushCommands(rules, w, e), now).throttles, ip, domain, q)
            == if d.Some? then d.value else ThrottleMs(t.throttles, ip, domain, q)
  {
    hide PushCommands, LastDelay;
    PushAddsOnly(rules, w, e);
    AdditionsOverwrite(t, PushCommands(rules, w, e), now);
    FreshPushThrottles(rules, w, e, now, q, ip, domain);
  }

  lemma OneRulePush(rule: Rule, w: World, e: nat)
    ensures PushCommands([rule], w, e) == RuleCommands(rule, w, e)
  {
    assert RuleCommands(rule, w, e) + [] == RuleCommands(rule, w, e);
  }
}
