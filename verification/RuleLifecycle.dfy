/** A rule over its whole life: it is added, enforced on the clients' events, and removed. What the
    events wrote is keyed by the domains that were observed, not by the rule's pattern. */
module RuleLifecycle {
  import opened PolicyTables
  import opened TableRuns
  import opened Commands
  import opened RuleEngine
  import opened PushedRules
  import opened RuleReplicas
  import opened ClientWorker

  /** A client's event as its worker sees it: the seconds counted for the domain, what the libraries
      answer, and the clocks. */
  datatype Observed = Observed(ip: string, domain: string, seconds: int, moment: Moment, at: Reading)

  /** What the workers do on the events, with these rules in the engine's table. */
  function AfterEvents(t: Tables, rules: seq<Rule>, w: World, seen: seq<Observed>): Tables
    decreases |seen|
  {
    if seen == [] then t else
    var o := seen[0];
    var cs := CheckCommands(rules, w, o.moment, o.ip, o.domain, o.seconds, o.at.engine);
    AfterEvents(ExecuteAll(t, cs, o.at.proxy), rules, w, seen[1..])
  }

  /** The proxy's tables after a rule is added, events happen, and the rule is removed. */
  function AddEventsRemove(table: RuleTable, tables: Tables, rule: Rule, rules: seq<Rule>, w: World,
                           added: Reading, seen: seq<Observed>, removed: Reading): Tables {
    var s1 := Effects(table, tables, Add(rule), w, added.engine, added.proxy);
    var s2 := AfterEvents(s1, rules, w, seen);
    Effects(Consumed(table, Add(rule)), s2, Remove(rule.id), w, removed.engine, removed.proxy)
  }

  lemma EventAddsOnly(rules: seq<Rule>, w: World, m: Moment, ip: string, domain: string, seconds: int, e: nat)
    ensures AddOnly(CheckCommands(rules, w, m, ip, domain, seconds, e))
  {
    var cs := CheckCommands(rules, w, m, ip, domain, seconds, e);
    forall c | c in cs ensures c.Block? || c.Throttle? {
      CheckMember(rules, w, m, ip, domain, seconds, e, c);
    }
  }

  /** Events overwrite the entries they name and leave the rest of the tables alone. */
  lemma {:induction false} EventsOverwrite(t: Tables, rules: seq<Rule>, w: World, seen: seq<Observed>)
    ensures AfterEvents(t, rules, w, seen) == Over(t, AfterEvents(EMPTY, rules, w, seen))
    decreases |seen|
  {
    hide CheckCommands, ExecuteAll;
    if seen != [] {
      var o := seen[0];
      var cs := CheckCommands(rules, w, o.moment, o.ip, o.domain, o.seconds, o.at.engine);
      var one := ExecuteAll(EMPTY, cs, o.at.proxy);
      EventAddsOnly(rules, w, o.moment, o.ip, o.domain, o.seconds, o.at.engine);
      AdditionsOverwrite(t, cs, o.at.proxy);
      EventsOverwrite(Over(t, one), rules, w, seen[1..]);
      EventsOverwrite(one, rules, w, seen[1..]);
      OverAssociative(t, one, AfterEvents(EMPTY, rules, w, seen[1..]));
    }
  }

  /** After adding a rule, any events of any clients, and removing the rule, the proxy's tables are back
      exactly when they held no key that the withdrawal removes, and every entry that the rule or an
      event wrote is removed by the withdrawal or was there from the start. */
  lemma {:induction false} EventsOutliveRule(
      table: RuleTable, tables: Tables, rule: Rule, rules: seq<Rule>, w: World, added: Reading,
      seen: seq<Observed>, removed: Reading)
    ensures AddEventsRemove(table, tables, rule, rules, w, added, seen, removed) == tables
       <==> Restored(tables, Over(Written(rule, w, added), AfterEvents(EMPTY, rules, w, seen)), rule, w)
  {
    hide RuleCommands, UnblockCommands, ExecuteAll, Written, Restored, AfterEvents;
    var events := AfterEvents(EMPTY, rules, w, seen);
    assert table[rule.id := rule][rule.id] == rule;
    RuleWrites(tables, rule, w, added);
    EventsOverwrite(Over(tables, Written(rule, w, added)), rules, w, seen);
    OverAssociative(tables, Written(rule, w, added), events);
    BackAfterUnblock(tables, Over(Written(rule, w, added), events), rule, w, removed.proxy);
  }

  // ---- one client ----

  /** A client stays blocked after the rule is gone: from empty tables, a rule is added, an event of a
      registered client makes it fire, and the rule is removed. Until the midnight after the event the
      client is still blocked on the domain exactly when the rule was for everyone, or the withdrawal's
      pattern does not erase the domain, as with a wildcard rule and a visit to its bare domain. */
  lemma {:induction false} ClientStaysBlocked(
      table: RuleTable, rule: Rule, w: World, added: Reading, o: Observed, removed: Reading, q: int)
    requires ProperClients(w) && o.ip in w.clients && o.ip != "" && o.domain != "" && rule.domain != ""
    requires Matches(rule, w, o.moment, o.ip, o.domain) && Fires(rule, o.seconds)
    requires o.at.proxy >= 0 && q < o.at.proxy + UntilMidnight(o.at.engine)
    ensures Blocked(AddEventsRemove(table, EMPTY, rule, [rule], w, added, [o], removed).blocks, o.ip, o.domain, q)
       <==> rule.scope.Global? || !Erases(rule.domain, o.domain)
  {
    hide RuleCommands, UnblockCommands, ExecuteAll, Matches, CheckCommands, Removes, Erases, Hit, Live;
    var us, k := UnblockCommands(rule, w), Key(o.ip, o.domain);
    var b := AfterEvents(EMPTY, [rule], w, [o]).blocks;
    var final := AddEventsRemove(table, EMPTY, rule, [rule], w, added, [o], removed).blocks;
    FinalBlocks(table, rule, w, added, o, removed);
    EventEntry(rule, w, o, q);
    MatchesAddress(rule, w, o.moment, o.ip, o.domain);
    InScopeIff(rule, w, o.ip);
    ClientEntryRemoved(rule, w, o.ip, o.domain);
    HitIff(o.ip, o.domain, o.ip, o.domain);
    if rule.scope.Global? || !Erases(rule.domain, o.domain) {
      assert k in final && Live(final[k], q) && Hit(k, o.ip, o.domain);
    } else {
      WrittenKeys(rule, w, added.engine, added.proxy);
      assert forall j :: j !in final;
    }
  }

  lemma MatchesAddress(rule: Rule, w: World, m: Moment, ip: string, domain: string)
    requires Matches(rule, w, m, ip, domain)
    ensures IpMatches(rule, w, ip)
  {
  }

  lemma FinalBlocks(table: RuleTable, rule: Rule, w: World, added: Reading, o: Observed, removed: Reading)
    requires rule.action.BlockNow? || rule.action.BlockAfterMinutes?
    ensures AddEventsRemove(table, EMPTY, rule, [rule], w, added, [o], removed).blocks
         == Minus(Written(rule, w, added).blocks + AfterEvents(EMPTY, [rule], w, [o]).blocks, UnblockCommands(rule, w))
  {
    hide RuleCommands, UnblockCommands, ExecuteAll, AfterEvents;
    assert table[rule.id := rule][rule.id] == rule;
    EventsOverwrite(Written(rule, w, added), [rule], w, [o]);
    UnblockRemovesOnly(rule, w);
    var enforced := AfterEvents(Written(rule, w, added), [rule], w, [o]);
    RemovalsFilter(enforced, UnblockCommands(rule, w), false, removed.proxy);
  }

  /** The event leaves exactly the entry of its own address and domain, live until midnight. */
  lemma EventEntry(rule: Rule, w: World, o: Observed, q: int)
    requires Matches(rule, w, o.moment, o.ip, o.domain) && Fires(rule, o.seconds) && o.ip != "" && o.domain != ""
    requires o.at.proxy >= 0 && q < o.at.proxy + UntilMidnight(o.at.engine)
    ensures var b, k := AfterEvents(EMPTY, [rule], w, [o]).blocks, Key(o.ip, o.domain);
            b.Keys == {k} && Live(b[k], q)
  {
    hide Matches, Live, CheckCommands, ExecuteAll, Fires;
    var k := Key(o.ip, o.domain);
    var cs := CheckCommands([rule], w, o.moment, o.ip, o.domain, o.seconds, o.at.engine);
    var b := ExecuteAll(EMPTY, cs, o.at.proxy).blocks;
    assert [o][1..] == [];
    assert SomeFires([rule], w, o.moment, o.ip, o.domain, o.seconds) by { assert rule in [rule]; }
    forall j ensures (j in b <==> j == k) && (j in b ==> Live(b[j], q)) {
      AddedByEvent([rule], w, o.moment, o.ip, o.domain, o.seconds, o.at.engine, o.at.proxy, q, j);
    }
  }
}
