/** A client's worker: each event updates the client's statistics and then enforces the rules that
    match it, so that limits take effect between two resynchronisations. */
module ClientWorker {
  import opened Text
  import opened PolicyTables
  import opened TableRuns
  import opened Commands
  import opened RuleEngine
  import opened PushedRules
  import SessionTime

  /** What the libraries answer at the time of the event: the rules whose time window contains it,
      and the (regular expression pattern, domain) pairs that match. */
  datatype Moment = Moment(inWindow: set<string>, regexMatches: set<(string, string)>)

  predicate Matches(rule: Rule, w: World, m: Moment, ip: string, domain: string) {
    && IpMatches(rule, w, ip)
    && (if StartsWith(rule.domain, "~") then (rule.domain, domain) in m.regexMatches
        else DomainMatches(rule.domain, domain))
    && rule.id in m.inWindow
  }

  /** The rule blocks a domain on which the client spent this many seconds. Without a number of
      minutes a timed rule does nothing here. */
  predicate Fires(rule: Rule, seconds: int) {
    || rule.action.BlockNow?
    || (rule.action.BlockAfterMinutes? && rule.minutes.Some? && seconds >= rule.minutes.value * 60)
  }

  /** The command a matching rule sends for the observed domain, if any. */
  function EventCommand(rule: Rule, ip: string, domain: string, seconds: int, e: nat): seq<Command> {
    match rule.action
    case BlockNow => [Block(ip, domain, None, None)]
    case ThrottleNow => [Throttle(ip, domain, Delay(rule), None)]
    case BlockAfterMinutes =>
      if Fires(rule, seconds) then [Block(ip, domain, Some(UntilMidnight(e)), None)] else []
    case OtherAction => []
  }

  function CheckCommands(
        rules: seq<Rule>, w: World, m: Moment, ip: string, domain: string, seconds: int, e: nat): seq<Command>
  {
    if rules == [] then [] else
    (if Matches(rules[0], w, m, ip, domain) then EventCommand(rules[0], ip, domain, seconds, e) else [])
    + CheckCommands(rules[1..], w, m, ip, domain, seconds, e)
  }

  /** Everything the worker sends for an event. */
  function EventCommands(domains: map<string, SessionTime.Stats>, rules: seq<Rule>, w: World, m: Moment,
                         ip: string, domain: string, ts: int, e: nat): seq<Command> {
    var stats := SessionTime.UpdateDomain(domains, domain, ts)[domain];
    CheckCommands(rules, w, m, ip, domain, stats.totalSeconds, e)
  }

  /** Handles one event: the new statistics, and the commands of the matching rules one by one. */
  method HandleEvent(store: PolicyStore, domains: map<string, SessionTime.Stats>, rules: seq<Rule>, w: World, m: Moment,
                     ip: string, domain: string, ts: int, e: nat, now: int)
    returns (updated: map<string, SessionTime.Stats>)
    modifies store
    ensures updated == SessionTime.UpdateDomain(domains, domain, ts)
    ensures RuleEngine.View(store)
         == ExecuteAll(old(RuleEngine.View(store)), EventCommands(domains, rules, w, m, ip, domain, ts, e), now)
  {
    updated := SessionTime.UpdateDomain(domains, domain, ts);
    var seconds := updated[domain].totalSeconds;
    for i := 0 to |rules|
      invariant ExecuteAll(RuleEngine.View(store), CheckCommands(rules[i..], w, m, ip, domain, seconds, e), now)
             == ExecuteAll(old(RuleEngine.View(store)), EventCommands(domains, rules, w, m, ip, domain, ts, e), now)
    {
      assert rules[i..][1..] == rules[i + 1..];
      var later := CheckCommands(rules[i + 1..], w, m, ip, domain, seconds, e);
      if Matches(rules[i], w, m, ip, domain) {
        var cs := EventCommand(rules[i], ip, domain, seconds, e);
        ExecuteConcat(RuleEngine.View(store), cs, later, now);
        if cs != [] {
          assert cs == [cs[0]];
          assert ExecuteAll(RuleEngine.View(store), [cs[0]], now) == Execute(RuleEngine.View(store), cs[0], now);
          Deliver(store, cs[0], now);
        }
      } else {
        ExecuteConcat(RuleEngine.View(store), [], later, now);
      }
    }
  }

  // ---- what an event changes ----

  lemma {:induction false} CheckMember(
        rules: seq<Rule>, w: World, m: Moment, ip: string, domain: string, seconds: int, e: nat, c: Command)
    ensures c in CheckCommands(rules, w, m, ip, domain, seconds, e)
       <==> exists r <- rules :: Matches(r, w, m, ip, domain) && c in EventCommand(r, ip, domain, seconds, e)
  {
    if rules != [] {
      CheckMember(rules[1..], w, m, ip, domain, seconds, e, c);
      assert forall r :: r in rules <==> r == rules[0] || r in rules[1..];
    }
  }

  /** Some rule that matches the event fires. */
  predicate SomeFires(rules: seq<Rule>, w: World, m: Moment, ip: string, domain: string, seconds: int) {
    exists r <- rules :: Matches(r, w, m, ip, domain) && Fires(r, seconds)
  }

  /** The event adds at most the block entry of its own address and domain, and does so exactly when
      some matching rule fires; the entry lasts at least until midnight. */
  lemma AddedByEvent(
        rules: seq<Rule>, w: World, m: Moment, ip: string, domain: string, seconds: int, e: nat, now: nat,
        q: int, k: string)
    requires q < now + UntilMidnight(e)
    ensures var cs := CheckCommands(rules, w, m, ip, domain, seconds, e);
            var a := ExecuteAll(EMPTY, cs, now).blocks;
            && AddOnly(cs)
            && (k in a <==>
                  k == Key(ip, domain) && ip != "" && domain != "" && SomeFires(rules, w, m, ip, domain, seconds))
            && (k in a ==> Live(a[k], q))
  {
    var cs := CheckCommands(rules, w, m, ip, domain, seconds, e);
    var a := ExecuteAll(EMPTY, cs, now).blocks;
    forall c | c in cs
      ensures (c.Block? || c.Throttle?) && c.ip == ip && c.domain == domain
      ensures c.Block? ==> SomeFires(rules, w, m, ip, domain, seconds) && (EndOf(c, now) == 0 || q < EndOf(c, now))
    {
      CheckMember(rules, w, m, ip, domain, seconds, e, c);
    }
    AddedBlocks(cs, now, k);
    if r :| r in rules && Matches(r, w, m, ip, domain) && Fires(r, seconds) {
      var c := Block(ip, domain, if r.action.BlockNow? then None else Some(UntilMidnight(e)), None);
      assert c in EventCommand(r, ip, domain, seconds, e);
      CheckMember(rules, w, m, ip, domain, seconds, e, c);
    }
  }

  /** After an event, and until the next midnight, a lookup is answered "blocked" exactly when it was
      before, or it asks for the event's address and a domain that the event's covers, and a rule
      that matches the event fires. No other lookup notices the event. */
  lemma {:induction false} EventEnforced(
        t: Tables, rules: seq<Rule>, w: World, m: Moment, ip: string, domain: string, seconds: int, e: nat,
        now: nat, q: int, asked: string, name: string)
    requires ':' !in ip && ip != GLOBAL && ':' !in asked && q < now + UntilMidnight(e)
    ensures Blocked(ExecuteAll(t, CheckCommands(rules, w, m, ip, domain, seconds, e), now).blocks, asked, name, q)
       <==> Blocked(t.blocks, asked, name, q)
            || (asked == ip && ip != "" && domain != "" && PatternCovers(domain, name)
                && SomeFires(rules, w, m, ip, domain, seconds))
  {
    var cs, k := CheckCommands(rules, w, m, ip, domain, seconds, e), Key(ip, domain);
    var a := ExecuteAll(EMPTY, cs, now).blocks;
    forall j ensures j in a ==> j == k && Live(a[j], q) {
      AddedByEvent(rules, w, m, ip, domain, seconds, e, now, q, j);
    }
    AddedByEvent(rules, w, m, ip, domain, seconds, e, now, q, k);
    AdditionsOverwrite(t, cs, now);
    HitIff(ip, domain, asked, name);
    OverlaidLookup(t.blocks, a, asked, name, q);
  }

  /** The delay of the last rule, in the table's order, that matches the event and throttles. */
  function LastMatchingDelay(rules: seq<Rule>, w: World, m: Moment, ip: string, domain: string): Option<int> {
    if rules == [] then None else
    var rest := LastMatchingDelay(rules[1..], w, m, ip, domain);
    if rest.Some? then rest
    else if rules[0].action.ThrottleNow? && Matches(rules[0], w, m, ip, domain) then Some(Delay(rules[0]))
    else None
  }

  /** After an event a client's delay on a domain is that of the last throttle rule that matches the
      event, if the lookup asks for the event's address and domain and there is such a rule, and what it
      was before otherwise: a global or wildcard throttle rule takes effect here, domain by domain. */
  lemma {:induction false} EventThrottles(
      t: Tables, rules: seq<Rule>, w: World, m: Moment, ip: string, domain: string, seconds: int, e: nat,
      now: int, q: int, asked: string, name: string)
    requires ':' !in ip && ':' !in asked
    ensures var d := LastMatchingDelay(rules, w, m, ip, domain);
            ThrottleMs(
              ExecuteAll(t, CheckCommands(rules, w, m, ip, domain, seconds, e), now).throttles, asked, name, q)
            == if asked == ip && name == domain && ip != "" && domain != "" && d.Some? then d.value
               else ThrottleMs(t.throttles, asked, name, q)
    decreases |rules|
  {
    hide Matches;
    if rules != [] {
      var cs := if Matches(rules[0], w, m, ip, domain) then EventCommand(rules[0], ip, domain, seconds, e) else [];
      var rest := CheckCommands(rules[1..], w, m, ip, domain, seconds, e);
      ExecuteConcat(t, cs, rest, now);
      EventThrottles(ExecuteAll(t, cs, now), rules[1..], w, m, ip, domain, seconds, e, now, q, asked, name);
      OneRuleThrottles(t, rules[0], w, m, ip, domain, seconds, e, now, q, asked, name);
    }
  }

  lemma OneRuleThrottles(
      t: Tables, rule: Rule, w: World, m: Moment, ip: string, domain: string, seconds: int, e: nat,
      now: int, q: int, asked: string, name: string)
    requires ':' !in ip && ':' !in asked
    ensures var cs := if Matches(rule, w, m, ip, domain) then EventCommand(rule, ip, domain, seconds, e) else [];
            ThrottleMs(ExecuteAll(t, cs, now).throttles, asked, name, q)
            == if asked == ip && name == domain && ip != "" && domain != ""
                  && rule.action.ThrottleNow? && Matches(rule, w, m, ip, domain) then Delay(rule)
               else ThrottleMs(t.throttles, asked, name, q)
  {
    hide Matches, Find;
    var cs := if Matches(rule, w, m, ip, domain) then EventCommand(rule, ip, domain, seconds, e) else [];
    FirstColon(ip, domain);
    FirstColon(asked, name);
    if cs != [] {
      assert cs == [cs[0]];
      assert ExecuteAll(t, [cs[0]], now) == Execute(t, cs[0], now);
    }
  }

  /** What one rule does on an event from empty tables, for lookups at any time, spelled out: if the client
      is in its scope, the domain is one that its pattern matches (by the library's answer for a regular
      expression), and its time window contains the event, then it blocks for good, or until the next
      midnight when the seconds counted for the domain reach its minutes, or throttles by its own delay or
      1000 ms. */
  lemma {:induction false} OneRuleOnEvent(
        rule: Rule, w: World, m: Moment, ip: string, domain: string, seconds: int, e: nat, now: nat, q: int)
    requires ip != "" && domain != ""
    ensures var u := ExecuteAll(EMPTY, CheckCommands([rule], w, m, ip, domain, seconds, e), now);
            var meant := InScope(rule.scope, w, ip) && rule.id in m.inWindow
                         && (if StartsWith(rule.domain, "~") then (rule.domain, domain) in m.regexMatches
                             else DomainMatches(rule.domain, domain));
            && (Blocked(u.blocks, ip, domain, q) <==>
                  meant && (rule.action == BlockNow
                            || (rule.action == BlockAfterMinutes && rule.minutes.Some?
                                && seconds >= 60 * rule.minutes.value && q < now + (86400 - e % 86400))))
            && ThrottleMs(u.throttles, ip, domain, q)
               == if meant && rule.action == ThrottleNow
                  then (match rule.delayMs case Some(ms) => ms case None => 1000) else 0
  {
    hide Blocked, ThrottleMs, InScope, IpMatches, DomainMatches;
    InScopeIff(rule, w, ip);
    NothingBlocked(ip, domain, q);
    NoDelay(ip, domain, q);
    var cs := CheckCommands([rule], w, m, ip, domain, seconds, e);
    var one := if Matches(rule, w, m, ip, domain) then EventCommand(rule, ip, domain, seconds, e) else [];
    OneRuleChecks(rule, w, m, ip, domain, seconds, e);
    if cs != [] {
      assert cs == [cs[0]];
      assert ExecuteAll(EMPTY, [cs[0]], now) == Execute(EMPTY, cs[0], now);
      TimedEntriesLast(ip, domain, Delay(rule), if rule.action.BlockNow? || rule.action.ThrottleNow? then None
                                                else Some(UntilMidnight(e)), None, now, q);
    }
  }

  lemma OneRuleChecks(rule: Rule, w: World, m: Moment, ip: string, domain: string, seconds: int, e: nat)
    ensures CheckCommands([rule], w, m, ip, domain, seconds, e)
         == if Matches(rule, w, m, ip, domain) then EventCommand(rule, ip, domain, seconds, e) else []
  {
    hide Matches, EventCommand;
    assert CheckCommands([rule][1..], w, m, ip, domain, seconds, e) == [];
  }

  lemma NoDelay(ip: string, domain: string, q: int)
    ensures ThrottleMs(map[], ip, domain, q) == 0
  {
  }

  /** A rule that matches the latest event has its limit reached by the time measured from the events. */
  ghost predicate LimitReached(rules: seq<Rule>, w: World, m: Moment, ip: string, domain: string, times: seq<int>)
    requires times != []
  {
    exists r <- rules ::
      Matches(r, w, m, ip, domain)
      && (r.action.BlockNow?
          || (r.action.BlockAfterMinutes? && r.minutes.Some?
              && |SessionTime.CoveredSeconds(times)| >= r.minutes.value * 60))
  }

  /** Limits are enforced on measured time: for every stream of a client's events, in any order of
      their times, handling the latest one makes its domain blocked until the next midnight exactly
      when it was blocked before, or a matching rule blocks outright, or the covered seconds of this
      domain's events reach a matching rule's limit. */
  lemma {:induction false} LimitEnforced(
        t: Tables, events: seq<SessionTime.Event>, rules: seq<Rule>, w: World, m: Moment, ip: string, e: nat,
        now: nat, q: int)
    requires events != [] && events[|events| - 1].domain != ""
    requires ':' !in ip && ip != GLOBAL && ip != "" && q < now + UntilMidnight(e)
    ensures var n := |events| - 1;
            var domain, ts := events[n].domain, events[n].ts;
            var cs := EventCommands(SessionTime.TrackAll(events[..n]), rules, w, m, ip, domain, ts, e);
            var times := SessionTime.Times(events, domain);
            times != []
            && (Blocked(ExecuteAll(t, cs, now).blocks, ip, domain, q)
                <==> Blocked(t.blocks, ip, domain, q) || LimitReached(rules, w, m, ip, domain, times))
  {
    var n := |events| - 1;
    var domain, ts := events[n].domain, events[n].ts;
    SessionTime.DomainsIndependent(events, domain);
    var times := SessionTime.Times(events, domain);
    SessionTime.TotalIsMeasure(times);
    var seconds := SessionTime.TrackAll(events)[domain].totalSeconds;
    EventEnforced(t, rules, w, m, ip, domain, seconds, e, now, q, ip, domain);
  }

  // ---- the two paths of enforcement ----

  /** The two tables answer alike for the address and the domain. */
  ghost predicate AnswerAlike(t: Tables, u: Tables, ip: string, domain: string, q: int) {
    && (Blocked(t.blocks, ip, domain, q) <==> Blocked(u.blocks, ip, domain, q))
    && ThrottleMs(t.throttles, ip, domain, q) == ThrottleMs(u.throttles, ip, domain, q)
  }

  /** Whatever the tables hold, sending the rule in a resynchronisation and enforcing it on the event
      leave the same answers for the event's address and domain. */
  ghost predicate PathsAlike(
      rule: Rule, w: World, m: Moment, ip: string, domain: string, seconds: int, e: nat, now: int, q: int)
  {
    forall t ::
      AnswerAlike(ExecuteAll(t, RuleCommands(rule, w, e), now),
                  ExecuteAll(t, CheckCommands([rule], w, m, ip, domain, seconds, e), now), ip, domain, q)
  }

  /** Seconds are counted per domain: the event's, against those under the pattern itself. */
  predicate SameEnforcement(rule: Rule, w: World, ip: string, domain: string, seconds: int) {
    match rule.action
    case BlockNow => PatternCovers(rule.domain, domain)
    case ThrottleNow => !rule.scope.Global? && rule.domain == domain
    case BlockAfterMinutes =>
      Fires(rule, seconds)
      == (PatternCovers(rule.domain, domain) && SecondsSpent(w, ip, rule.domain) >= LimitSeconds(rule))
    case OtherAction => true
  }

  /** What the resynchronisation of one rule answers for a client and a domain. */
  lemma ResyncAnswers(t: Tables, rule: Rule, w: World, ip: string, domain: string, e: nat, now: nat, q: int)
    requires ProperClients(w) && ip in w.clients && ip != "" && domain != "" && q < now + UntilMidnight(e)
    ensures var u := ExecuteAll(t, RuleCommands(rule, w, e), now);
            && (Blocked(u.blocks, ip, domain, q) <==> Blocked(t.blocks, ip, domain, q) || Covered(rule, w, ip, domain))
            && ThrottleMs(u.throttles, ip, domain, q)
               == if Throttles(rule, w, ip, domain) then Delay(rule) else ThrottleMs(t.throttles, ip, domain, q)
  {
    hide Blocked, ThrottleMs, Covered, Throttles, RuleCommands;
    OneRulePush(rule, w, e);
    PushBlocks(t, [rule], w, e, now, q, ip, domain);
    PushThrottles(t, [rule], w, e, now, q, ip, domain);
    assert [rule][1..] == [];
    assert [rule][0] == rule;
  }

  /** What the client's event answers when its engine holds just this rule. */
  lemma EventAnswers(
      t: Tables, rule: Rule, w: World, m: Moment, ip: string, domain: string, seconds: int, e: nat, now: nat,
      q: int)
    requires Matches(rule, w, m, ip, domain) && ':' !in ip && ip != GLOBAL && ip != "" && domain != ""
    requires q < now + UntilMidnight(e)
    ensures var u := ExecuteAll(t, CheckCommands([rule], w, m, ip, domain, seconds, e), now);
            && (Blocked(u.blocks, ip, domain, q) <==> Blocked(t.blocks, ip, domain, q) || Fires(rule, seconds))
            && ThrottleMs(u.throttles, ip, domain, q)
               == if rule.action.ThrottleNow? then Delay(rule) else ThrottleMs(t.throttles, ip, domain, q)
  {
    hide Blocked, ThrottleMs, Matches, CheckCommands, Fires;
    EventEnforced(t, [rule], w, m, ip, domain, seconds, e, now, q, ip, domain);
    EventThrottles(t, [rule], w, m, ip, domain, seconds, e, now, q, ip, domain);
    assert [rule][1..] == [];
    assert SomeFires([rule], w, m, ip, domain, seconds) <==> Fires(rule, seconds) by {
      assert [rule][0] == rule;
    }
  }

  lemma AlikeAt(
      t: Tables, rule: Rule, w: World, m: Moment, ip: string, domain: string, seconds: int, e: nat, now: nat,
      q: int)
    requires Matches(rule, w, m, ip, domain) && ProperClients(w) && ip in w.clients
    requires ip != "" && domain != "" && q < now + UntilMidnight(e)
    ensures AnswerAlike(ExecuteAll(t, RuleCommands(rule, w, e), now),
                        ExecuteAll(t, CheckCommands([rule], w, m, ip, domain, seconds, e), now), ip, domain, q)
       <==> (Blocked(t.blocks, ip, domain, q) || (Covered(rule, w, ip, domain) <==> Fires(rule, seconds)))
            && (Throttles(rule, w, ip, domain) || !rule.action.ThrottleNow?
                || ThrottleMs(t.throttles, ip, domain, q) == Delay(rule))
  {
    hide Blocked, ThrottleMs, CheckCommands, RuleCommands, IpMatches, Matches, Covered, Fires, ExecuteAll;
    ResyncAnswers(t, rule, w, ip, domain, e, now, q);
    EventAnswers(t, rule, w, m, ip, domain, seconds, e, now, q);
  }

  /** The two paths of enforcement, the resynchronisation and the client's own events, agree on a rule
      that matches the event exactly when SameEnforcement says: a block rule whose pattern covers the
      domain as stored, a throttle rule for exactly this domain and not for everyone, a timed rule on
      which both counts of time decide alike. */
  lemma {:induction false} PathsAgree(
      rule: Rule, w: World, m: Moment, ip: string, domain: string, seconds: int, e: nat, now: nat, q: int)
    requires Matches(rule, w, m, ip, domain) && ProperClients(w) && ip in w.clients
    requires ip != "" && domain != "" && q < now + UntilMidnight(e)
    ensures PathsAlike(rule, w, m, ip, domain, seconds, e, now, q)
       <==> SameEnforcement(rule, w, ip, domain, seconds)
  {
    hide Blocked, ThrottleMs, CheckCommands, RuleCommands, IpMatches, Matches, Covered, Fires, ExecuteAll,
         AnswerAlike, SameEnforcement, Throttles;
    MatchedRuleSays(rule, w, m, ip, domain, seconds);
    if SameEnforcement(rule, w, ip, domain, seconds) {
      forall t
        ensures AnswerAlike(ExecuteAll(t, RuleCommands(rule, w, e), now),
                            ExecuteAll(t, CheckCommands([rule], w, m, ip, domain, seconds, e), now), ip, domain, q)
      {
        AlikeAt(t, rule, w, m, ip, domain, seconds, e, now, q);
      }
    } else {
      var t := Tables(map[], map[Key(ip, domain) := Entry(Delay(rule) + 1, 0)]);
      NothingBlocked(ip, domain, q);
      OneThrottle(ip, domain, Delay(rule) + 1, q);
      AlikeAt(t, rule, w, m, ip, domain, seconds, e, now, q);
    }
  }

  lemma MatchedRuleSays(rule: Rule, w: World, m: Moment, ip: string, domain: string, seconds: int)
    requires Matches(rule, w, m, ip, domain) && ip in w.clients && ip != "" && domain != ""
    ensures SameEnforcement(rule, w, ip, domain, seconds)
       <==> (Covered(rule, w, ip, domain) <==> Fires(rule, seconds))
            && (rule.action.ThrottleNow? ==> Throttles(rule, w, ip, domain))
  {
    hide IpMatches, PatternCovers;
  }

  lemma NothingBlocked(ip: string, domain: string, q: int)
    ensures !Blocked(map[], ip, domain, q)
  {
  }

  lemma OneThrottle(ip: string, domain: string, ms: int, q: int)
    ensures ThrottleMs(map[Key(ip, domain) := Entry(ms, 0)], ip, domain, q) == ms
  {
  }

  /** For a rule on exactly the event's domain, with its time counted alike, the paths differ in two cases
      only: a throttle rule for everyone has an effect on events alone, and a timed rule without a number
      of minutes means 30 minutes to the engine and nothing to the worker. */
  lemma {:induction false} ExactPathsAgree(
      rule: Rule, w: World, m: Moment, ip: string, e: nat, now: nat, q: int)
    requires Matches(rule, w, m, ip, rule.domain) && ProperClients(w) && ip in w.clients
    requires ip != "" && rule.domain != "" && q < now + UntilMidnight(e)
    ensures var seconds := SecondsSpent(w, ip, rule.domain);
            PathsAlike(rule, w, m, ip, rule.domain, seconds, e, now, q)
            <==> !(rule.scope.Global? && rule.action.ThrottleNow?)
                 && !(rule.action.BlockAfterMinutes? && rule.minutes.None? && seconds >= 1800)
  {
    hide PathsAlike, Matches;
    PathsAgree(rule, w, m, ip, rule.domain, SecondsSpent(w, ip, rule.domain), e, now, q);
  }
}
