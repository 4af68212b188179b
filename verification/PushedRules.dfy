/** What a push of rules leaves for lookups at any later time, and what one rule means to pushes and to
    withdrawals, spelled out in terms of addresses, domains, seconds and delays. */
module PushedRules {
  import opened Text
  import opened PolicyTables
  import opened TableRuns
  import opened Commands
  import opened RuleEngine
  import Cidr

  // ---- at any time after a push ----

  /** How long the entries that a command leaves count: until the end it gives, or forever when that is
      zero. */
  lemma TimedEntriesLast(ip: string, domain: string, ms: int, dur: Option<int>, until: Option<int>, now: int, q: int)
    requires ip != "" && domain != ""
    ensures var end := if dur.Some? && dur.value > 0 then now + dur.value
                       else if until.Some? then until.value else 0;
            Blocked(Execute(EMPTY, Block(ip, domain, dur, until), now).blocks, ip, domain, q) <==> end == 0 || q < end
    ensures var end := if dur.Some? && dur.value > 0 then now + dur.value else 0;
            ThrottleMs(Execute(EMPTY, Throttle(ip, domain, ms, dur), now).throttles, ip, domain, q)
            == if end == 0 || q < end then ms else 0
  {
    hide Find, WildcardHit;
    assert Hit(Key(ip, domain), ip, domain);
  }

  /** The rule writes the block entry of this address and pattern. */
  predicate SendsBlock(rule: Rule, w: World, keyIp: string, pattern: string) {
    rule.domain == pattern && pattern != ""
    && if rule.scope.Global? && rule.action.BlockNow? then keyIp == GLOBAL
       else keyIp != "" && keyIp in w.clients && IpMatches(rule, w, keyIp)
            && (rule.action.BlockNow?
                || (rule.action.BlockAfterMinutes? && SecondsSpent(w, keyIp, pattern) >= LimitSeconds(rule)))
  }

  /** The end that the last rule, in push order, gives the entry of this address and pattern. */
  function LastEnd(rules: seq<Rule>, w: World, midnight: int, keyIp: string, pattern: string): Option<int> {
    if rules == [] then None else
    var rest := LastEnd(rules[1..], w, midnight, keyIp, pattern);
    if rest.Some? then rest
    else if SendsBlock(rules[0], w, keyIp, pattern) then Some(if rules[0].action.BlockNow? then 0 else midnight)
    else None
  }

  lemma SentBlock(rule: Rule, w: World, e: nat, c: Command, keyIp: string, pattern: string)
    requires ProperClients(w) && ':' !in keyIp
    requires c in RuleCommands(rule, w, e) && c.Block? && Effective(c) && Key(keyIp, pattern) == Key(c.ip, c.domain)
    ensures SendsBlock(rule, w, keyIp, pattern)
  {
    hide IpMatches, Find;
    CommandForm(rule, w, e, c);
    ForClientsMember(rule, w, w.clients, e, c);
    assert ':' !in c.ip;
    FirstColon(keyIp, pattern);
    FirstColon(c.ip, c.domain);
  }

  lemma BlockIsSent(rule: Rule, w: World, e: nat, keyIp: string, pattern: string)
    requires SendsBlock(rule, w, keyIp, pattern)
    ensures exists c <- RuleCommands(rule, w, e) :: c.Block? && Effective(c) && c.ip == keyIp && c.domain == pattern
  {
    if rule.scope.Global? && rule.action.BlockNow? {
      assert RuleCommands(rule, w, e)[0] in RuleCommands(rule, w, e);
    } else {
      var c := Block(keyIp, pattern, if rule.action.BlockNow? then None else Some(UntilMidnight(e)), None);
      assert c in ClientCommands(rule, w, keyIp, e);
      ForClientsMember(rule, w, w.clients, e, c);
    }
  }

  lemma RuleBlockEntry(rule: Rule, w: World, e: nat, now: int, keyIp: string, pattern: string)
    requires ProperClients(w) && ':' !in keyIp
    ensures var t, k := ExecuteAll(EMPTY, RuleCommands(rule, w, e), now).blocks, Key(keyIp, pattern);
            if SendsBlock(rule, w, keyIp, pattern)
            then k in t && t[k].until == (if rule.action.BlockNow? then 0 else now + UntilMidnight(e)) else k !in t
  {
    hide RuleCommands, SendsBlock, ExecuteAll, UntilMidnight;
    var cs, k := RuleCommands(rule, w, e), Key(keyIp, pattern);
    forall c | c in cs ensures c.Block? || c.Throttle? { RuleMember(rule, w, e, c); }
    AddedBlocks(cs, now, k);
    forall c | c in cs && c.Block?
      ensures EndOf(c, now) == if rule.action.BlockNow? then 0 else now + UntilMidnight(e)
      ensures Effective(c) && k == Key(c.ip, c.domain) ==> SendsBlock(rule, w, keyIp, pattern)
    {
      CommandForm(rule, w, e, c);
      MidnightAhead(e);
      if Effective(c) && k == Key(c.ip, c.domain) { SentBlock(rule, w, e, c, keyIp, pattern); }
    }
    if SendsBlock(rule, w, keyIp, pattern) { BlockIsSent(rule, w, e, keyIp, pattern); }
  }

  lemma MidnightAhead(e: nat)
    ensures UntilMidnight(e) > 0
  {
  }

  /** Every block entry after one push to empty tables: it is there exactly when a rule writes it, with the
      end that the last such rule gives. */
  lemma {:induction false} FreshPushEntries(
      rules: seq<Rule>, w: World, e: nat, now: int, keyIp: string, pattern: string)
    requires ProperClients(w) && ':' !in keyIp
    ensures var t, k := ExecuteAll(EMPTY, PushCommands(rules, w, e), now).blocks, Key(keyIp, pattern);
            var end := LastEnd(rules, w, now + UntilMidnight(e), keyIp, pattern);
            (k in t <==> end.Some?) && (k in t ==> t[k].until == end.value)
  {
    hide SendsBlock, UntilMidnight, RuleCommands;
    if rules != [] {
      var r0, rest := RuleCommands(rules[0], w, e), PushCommands(rules[1..], w, e);
      RuleBlockEntry(rules[0], w, e, now, keyIp, pattern);
      FreshPushEntries(rules[1..], w, e, now, keyIp, pattern);
      ExecuteConcat(EMPTY, r0, rest, now);
      PushAddsOnly(rules[1..], w, e);
      AdditionsOverwrite(ExecuteAll(EMPTY, r0, now), rest, now);
    }
  }

  /** Some rule covers the address and the domain, and the entry it writes still counts: the last rule
      that writes it blocks at once, or the midnight is still ahead. */
  predicate StillCovered(rules: seq<Rule>, w: World, midnight: int, ip: string, domain: string, q: int) {
    exists r <- rules ::
      Covered(r, w, ip, domain)
      && var end := LastEnd(rules, w, midnight, BlockingIp(r, ip), r.domain);
         end.Some? && (end.value == 0 || q < end.value)
  }

  /** After one push to empty tables a lookup at any later time is answered "blocked" exactly when some
      rule covers the address and the domain and the entry it writes still counts. */
  lemma {:induction false} FreshPushAlways(
      rules: seq<Rule>, w: World, e: nat, now: int, q: int, ip: string, domain: string)
    requires ProperClients(w) && ':' !in ip
    ensures Blocked(ExecuteAll(EMPTY, PushCommands(rules, w, e), now).blocks, ip, domain, q)
       <==> StillCovered(rules, w, now + UntilMidnight(e), ip, domain, q)
  {
    hide Hit, PushCommands, RuleCommands, LastEnd, Covered, UntilMidnight, ExecuteAll;
    var cs, midnight := PushCommands(rules, w, e), now + UntilMidnight(e);
    var t := ExecuteAll(EMPTY, cs, now).blocks;
    PushAddsOnly(rules, w, e);
    if Blocked(t, ip, domain, q) {
      var k :| k in t && Live(t[k], q) && Hit(k, ip, domain);
      AddedBlocks(cs, now, k);
      var c :| c in cs && c.Block? && Effective(c) && k == Key(c.ip, c.domain);
      PushMember(rules, w, e, c);
      var r :| r in rules && c in RuleCommands(r, w, e);
      WriterCovers(r, w, e, c, ip, domain);
      FreshPushEntries(rules, w, e, now, c.ip, c.domain);
    }
    if r :| r in rules && Covered(r, w, ip, domain)
            && var end := LastEnd(rules, w, midnight, BlockingIp(r, ip), r.domain);
               end.Some? && (end.value == 0 || q < end.value) {
      var keyIp := BlockingIp(r, ip);
      FreshPushEntries(rules, w, e, now, keyIp, r.domain);
      CoveringKeyHits(r, w, ip, domain);
    }
  }

  lemma WriterCovers(rule: Rule, w: World, e: nat, c: Command, ip: string, domain: string)
    requires ProperClients(w) && ':' !in ip && c in RuleCommands(rule, w, e) && c.Block? && Effective(c)
    requires Hit(Key(c.ip, c.domain), ip, domain)
    ensures Covered(rule, w, ip, domain) && c.ip == BlockingIp(rule, ip) && c.domain == rule.domain && ':' !in c.ip
  {
    hide IpMatches, PatternCovers, Hit;
    CommandForm(rule, w, e, c);
    ForClientsMember(rule, w, w.clients, e, c);
    HitIff(c.ip, c.domain, ip, domain);
    SentRuleApplies(rule, w, e, c, ip);
  }

  lemma CoveringKeyHits(rule: Rule, w: World, ip: string, domain: string)
    requires ':' !in ip && Covered(rule, w, ip, domain)
    ensures Hit(Key(BlockingIp(rule, ip), rule.domain), ip, domain) && ':' !in BlockingIp(rule, ip)
  {
    hide IpMatches, PatternCovers, Hit;
    HitIff(BlockingIp(rule, ip), rule.domain, ip, domain);
  }

  // ---- one rule, spelled out ----

  lemma OneRuleStill(rule: Rule, w: World, midnight: int, ip: string, domain: string, q: int)
    requires ProperClients(w) && midnight != 0
    ensures StillCovered([rule], w, midnight, ip, domain, q)
       <==> Covered(rule, w, ip, domain) && (rule.action.BlockNow? || q < midnight)
  {
    hide IpMatches, PatternCovers;
    assert forall r :: r in [rule] <==> r == rule;
    assert [rule][1..] == [];
    var keyIp := BlockingIp(rule, ip);
    var sends := SendsBlock(rule, w, keyIp, rule.domain);
    assert LastEnd([rule], w, midnight, keyIp, rule.domain)
        == if sends then Some(if rule.action.BlockNow? then 0 else midnight) else None;
    assert Covered(rule, w, ip, domain) ==> SendsBlock(rule, w, keyIp, rule.domain);
  }

  /** What a push of one blocking rule blocks at any time, spelled out: the domains that its pattern
      matches, for good for everyone if it blocks everyone at once, and else for the registered clients in
      its scope, for good if it blocks at once, or until the next midnight if the minutes (30 if the rule
      gives none) were spent. */
  lemma {:induction false} OneRuleBlocks(
      rule: Rule, w: World, e: nat, now: nat, q: int, ip: string, domain: string)
    requires ProperClients(w) && ':' !in ip && Blocking(rule) && SharedPattern(rule.domain)
    ensures Blocked(ExecuteAll(EMPTY, PushCommands([rule], w, e), now).blocks, ip, domain, q)
       <==> DomainMatches(rule.domain, domain)
            && ((rule.scope == Global && rule.action == BlockNow)
                || (ip in w.clients && ip != ""
                    && (match rule.scope
                        case Global => true
                        case SingleIp(target) => ip == target
                        case Subnet(None) => false
                        case Subnet(Some(cidr)) =>
                          cidr.0 in w.addresses && ip in w.addresses
                          && var a, b := Cidr.TupleToInt(w.addresses[cidr.0]), Cidr.TupleToInt(w.addresses[ip]);
                             if 0 <= cidr.1 <= 32 then a / Cidr.Pow2(32 - cidr.1) == b / Cidr.Pow2(32 - cidr.1)
                             else cidr.1 < 0 || cidr.1 > 64 || a % Cidr.Pow2(64 - cidr.1) == b % Cidr.Pow2(64 - cidr.1)
                        case OtherScope => false)
                    && (rule.action == BlockNow
                        || (q < now + (86400 - e % 86400)
                            && (if (ip, rule.domain) in w.seconds then w.seconds[(ip, rule.domain)] else 0)
                               >= 60 * (match rule.minutes case Some(n) => n case None => 30)))))
  {
    hide PushCommands, Blocked, DomainMatches, IpMatches, ExecuteAll, SharedPattern, PatternCovers, StillCovered;
    FreshPushAlways([rule], w, e, now, q, ip, domain);
    OneRuleStill(rule, w, now + UntilMidnight(e), ip, domain, q);
    CoveredIffSays(rule, w, ip, domain);
  }

  /** What a push of one rule throttles, spelled out: exactly its own domain, for the registered clients in
      its scope unless that is everyone, by its own delay or 1000 ms. */
  lemma {:induction false} OneRuleDelays(
      rule: Rule, w: World, e: nat, now: int, q: int, ip: string, domain: string)
    requires ProperClients(w) && ':' !in ip && ip != "global" && ip != "" && domain != ""
    ensures ThrottleMs(ExecuteAll(EMPTY, PushCommands([rule], w, e), now).throttles, ip, domain, q)
         == if rule.action == ThrottleNow && rule.scope != Global && rule.domain == domain
               && ip in w.clients && InScope(rule.scope, w, ip)
            then (match rule.delayMs case Some(ms) => ms case None => 1000) else 0
  {
    hide PushCommands, ThrottleMs, IpMatches, InScope, ExecuteAll;
    FreshPushThrottles([rule], w, e, now, q, ip, domain);
    InScopeIff(rule, w, ip);
    assert [rule][1..] == [];
  }

  /** What the withdrawal of a rule does to an entry of a registered client. */
  lemma {:induction false} ClientEntryRemoved(rule: Rule, w: World, ip: string, domain: string)
    requires ProperClients(w) && ip in w.clients && ip != "" && rule.domain != ""
    ensures Removes(UnblockCommands(rule, w), Key(ip, domain))
       <==> !rule.action.OtherAction? && rule.scope != Global && InScope(rule.scope, w, ip)
            && Erases(rule.domain, domain)
  {
    hide IpMatches, InScope, Withdrawn, Erases;
    var us, k := UnblockCommands(rule, w), Key(ip, domain);
    InScopeIff(rule, w, ip);
    if Withdrawable(rule) {
      if rule.scope.Global? {
        NotUnderGlobal(ip, domain, rule.domain);
      } else {
        forall c | c in us
          ensures Withdrawn(c.ip, c.domain, k) <==> c.ip == ip && Erases(rule.domain, domain)
          ensures c.ip in w.clients && IpMatches(rule, w, c.ip)
        {
          UnblockMember(rule, w, w.clients, c);
          WithdrawnIff(c.ip, c.domain, ip, domain);
        }
        UnblockMember(rule, w, w.clients, UnblockOne(rule, ip));
      }
    }
  }

  lemma {:induction false} GlobalEntryRemoved(rule: Rule, w: World, domain: string)
    requires ProperClients(w) && rule.domain != ""
    ensures Removes(UnblockCommands(rule, w), Key("global", domain))
       <==> !rule.action.OtherAction? && rule.scope == Global && Erases(rule.domain, domain)
  {
    hide IpMatches, Withdrawn, Erases;
    var us, k := UnblockCommands(rule, w), Key("global", domain);
    if Withdrawable(rule) {
      forall c | c in us
        ensures Withdrawn(c.ip, c.domain, k) <==> c.ip == GLOBAL && Erases(rule.domain, domain)
        ensures c.ip == GLOBAL <==> rule.scope.Global?
      {
        UnblockMember(rule, w, w.clients, c);
        WithdrawnIff(c.ip, c.domain, GLOBAL, domain);
      }
      if rule.scope.Global? { assert us[0] in us; }
    }
  }

  /** What the withdrawal of one rule removes, spelled out: from the block table for a blocking rule, from
      the throttle table for a throttle rule, and nothing for any other; under "global" alone for a rule for
      everyone, and else under each registered client in its scope; there the patterns that its own erases. */
  lemma {:induction false} OneRuleWithdraws(t: Tables, rule: Rule, w: World, now: int, ip: string, domain: string)
    requires ProperClients(w) && rule.domain != "" && ((ip in w.clients && ip != "") || ip == "global")
    ensures var k, r := Key(ip, domain), ExecuteAll(t, UnblockCommands(rule, w), now);
            var meant := Erases(rule.domain, domain)
                         && if rule.scope == Global then ip == "global"
                            else ip in w.clients && InScope(rule.scope, w, ip);
            && (k in r.blocks <==>
                  k in t.blocks && !(meant && (rule.action == BlockNow || rule.action == BlockAfterMinutes)))
            && (k in r.throttles <==> k in t.throttles && !(meant && rule.action == ThrottleNow))
  {
    hide UnblockCommands, Erases, InScope, Removes, ExecuteAll;
    UnblockRemovesOnly(rule, w);
    RemovalsFilter(t, UnblockCommands(rule, w), rule.action.ThrottleNow?, now);
    if ip == "global" { GlobalEntryRemoved(rule, w, domain); } else { ClientEntryRemoved(rule, w, ip, domain); }
  }
}
