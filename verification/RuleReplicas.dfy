/** The rule list and its replicas: the admin backend's stored list, the engine's table and the
    aggregator's cache, fed by messages on one channel. */
module RuleReplicas {
  import opened Text
  import opened PolicyTables
  import opened TableRuns
  import opened Commands
  import opened RuleEngine

  datatype Message = Add(rule: Rule) | Remove(id: string) | ReloadAll(rules: seq<Rule>) | Unknown

  type RuleTable = map<string, Rule>

  // ---- the primary copy ----

  /** An admin request; a created rule without an id gets the new one. */
  datatype Request =
    | Create(rule: Rule, newId: string)
    | Change(id: string, rule: Rule)
    | Delete(id: string)

  function Without(rules: seq<Rule>, id: string): seq<Rule> {
    if rules == [] then []
    else (if rules[0].id != id then [rules[0]] else []) + Without(rules[1..], id)
  }

  function Named(rule: Rule, id: string): Rule {
    rule.(id := id)
  }

  function Created(rule: Rule, newId: string): Rule {
    if rule.id == "" then Named(rule, newId) else rule
  }

  /** The stored list after a request. */
  function Stored(rules: seq<Rule>, q: Request): seq<Rule> {
    match q
    case Create(rule, newId) => Without(rules, Created(rule, newId).id) + [Created(rule, newId)]
    case Change(id, rule) => Without(rules, id) + [Named(rule, id)]
    case Delete(id) => Without(rules, id)
  }

  /** The message a request publishes. */
  function Published(q: Request): Message {
    match q
    case Create(rule, newId) => Add(Created(rule, newId))
    case Change(id, rule) => Add(Named(rule, id))
    case Delete(id) => Remove(id)
  }

  class AdminBackend {
    var stored: seq<Rule>
    var channel: seq<Message>

    constructor (rules: seq<Rule>)
      ensures stored == rules && channel == []
    {
      stored, channel := rules, [];
    }

    method Handle(q: Request)
      modifies this
      ensures stored == Stored(old(stored), q)
      ensures channel == old(channel) + [Published(q)]
    {
      match q
      case Create(r, newId) =>
        var rule := r;
        if rule.id == "" { rule := rule.(id := newId); }
        var rules := FilterOut(stored, rule.id);
        stored := rules + [rule];
        channel := channel + [Add(rule)];
      case Change(id, r) =>
        var updated := r.(id := id);
        var rules := FilterOut(stored, id);
        stored := rules + [updated];
        channel := channel + [Add(updated)];
      case Delete(id) =>
        var rules := FilterOut(stored, id);
        stored := rules;
        channel := channel + [Remove(id)];
    }
  }

  method FilterOut(rules: seq<Rule>, id: string) returns (r: seq<Rule>)
    ensures r == Without(rules, id)
  {
    r := [];
    for i := 0 to |rules|
      invariant r + Without(rules[i..], id) == Without(rules, id)
    {
      assert rules[i..][1..] == rules[i + 1..];
      if rules[i].id != id { r := r + [rules[i]]; }
    }
  }

  /** The rule that a request puts into the list, if any: a created rule keeps an id that it brings. */
  function Entered(q: Request): Option<Rule> {
    match q
    case Create(rule, newId) => Some(Rule(if rule.id == "" then newId else rule.id, rule.scope, rule.domain,
                                          rule.action, rule.minutes, rule.delayMs))
    case Change(id, rule) => Some(Rule(id, rule.scope, rule.domain, rule.action, rule.minutes, rule.delayMs))
    case Delete(_) => None
  }

  /** What a request does: the rules under other ids stay, the one under its id goes, and the rule it
      brings is listed last and published under that id; a deletion is published as such. */
  lemma {:induction false} StoredMeans(rules: seq<Rule>, q: Request)
    ensures match Entered(q)
            case Some(rule) =>
              var after := Stored(rules, q);
              && after != [] && after[|after| - 1] == rule && Published(q) == Add(rule)
              && (forall x :: x in after <==> x == rule || (x in rules && x.id != rule.id))
            case None =>
              && Published(q) == Remove(q.id)
              && (forall x :: x in Stored(rules, q) <==> x in rules && x.id != q.id)
  {
    WithoutIs(rules, match Entered(q) case Some(rule) => rule.id case None => q.id);
  }

  // ---- the replicas ----

  function Inserted(t: RuleTable, rules: seq<Rule>): RuleTable
    decreases |rules|
  {
    if rules == [] then t else Inserted(t[rules[0].id := rules[0]], rules[1..])
  }

  /** A replica's table after a message. */
  function Consumed(t: RuleTable, m: Message): RuleTable {
    match m
    case Add(rule) => t[rule.id := rule]
    case Remove(id) => t - {id}
    case ReloadAll(rules) => Inserted(t, rules)
    case Unknown => t
  }

  /** The aggregator's cache, which also counts its changes. */
  class RuleCache {
    var rules: RuleTable
    var revision: int

    method OnMessage(m: Message)
      modifies this
      ensures rules == Consumed(old(rules), m)
      ensures revision == old(revision) + match m { case ReloadAll(rs) => |rs| case Unknown => 0 case _ => 1 }
    {
      match m
      case Add(rule) => Put(rule);
      case Remove(id) => rules := rules - {id}; revision := revision + 1;
      case ReloadAll(rs) =>
        for i := 0 to |rs|
          invariant Inserted(rules, rs[i..]) == Inserted(old(rules), rs)
          invariant revision == old(revision) + i
        {
          assert rs[i..][1..] == rs[i + 1..];
          Put(rs[i]);
        }
      case Unknown =>
    }

    method Put(rule: Rule)
      modifies this
      ensures rules == old(rules)[rule.id := rule] && revision == old(revision) + 1
    {
      rules := rules[rule.id := rule];
      revision := revision + 1;
    }
  }

  /** The proxy's tables after the engine's subscriber handled a message. */
  function Effects(t: RuleTable, tables: Tables, m: Message, w: World, e: nat, now: int): Tables {
    match m
    case Add(rule) => ExecuteAll(tables, RuleCommands(rule, w, e), now)
    case Remove(id) => if id in t then ExecuteAll(tables, UnblockCommands(t[id], w), now) else tables
    case _ => tables
  }

  /** The engine's table and its subscriber. */
  class RuleSubscriber {
    var table: RuleTable
    const store: PolicyStore

    constructor (store: PolicyStore)
      ensures this.store == store && table == map[]
    {
      this.store := store;
      table := map[];
    }

    method HandleMessage(m: Message, w: World, e: nat, now: int)
      modifies this, store
      ensures table == Consumed(old(table), m)
      ensures RuleEngine.View(store) == Effects(old(table), old(RuleEngine.View(store)), m, w, e, now)
    {
      match m
      case Add(rule) =>
        table := table[rule.id := rule];
        ApplyRule(store, rule, w, e, now);
      case Remove(id) =>
        if id in table { UnblockForRule(store, table[id], w, now); }
        table := table - {id};
      case ReloadAll(rs) =>
        for i := 0 to |rs|
          invariant Inserted(table, rs[i..]) == Inserted(old(table), rs)
          invariant RuleEngine.View(store) == old(RuleEngine.View(store))
        {
          assert rs[i..][1..] == rs[i + 1..];
          table := table[rs[i].id := rs[i]];
        }
      case Unknown =>
    }
  }

  // ---- convergence ----

  predicate UniqueIds(rules: seq<Rule>) {
    forall i, j :: 0 <= i < j < |rules| ==> rules[i].id != rules[j].id
  }

  /** The table shows the list: the same rules, each under its id. */
  predicate Shows(t: RuleTable, rules: seq<Rule>) {
    && (forall r <- rules :: r.id in t && t[r.id] == r)
    && (forall id <- t :: t[id] in rules && t[id].id == id)
  }

  function StoredAfter(rules: seq<Rule>, qs: seq<Request>): seq<Rule>
    decreases |qs|
  {
    if qs == [] then rules else StoredAfter(Stored(rules, qs[0]), qs[1..])
  }

  function Channel(qs: seq<Request>): seq<Message> {
    if qs == [] then [] else [Published(qs[0])] + Channel(qs[1..])
  }

  function ConsumedAll(t: RuleTable, ms: seq<Message>): RuleTable
    decreases |ms|
  {
    if ms == [] then t else ConsumedAll(Consumed(t, ms[0]), ms[1..])
  }

  lemma {:induction false} WithoutIs(rules: seq<Rule>, id: string)
    ensures forall x :: x in Without(rules, id) <==> x in rules && x.id != id
    ensures UniqueIds(rules) ==> UniqueIds(Without(rules, id))
  {
    if rules != [] {
      var rest := Without(rules[1..], id);
      WithoutIs(rules[1..], id);
      assert forall x :: x in rules <==> x == rules[0] || x in rules[1..];
      if UniqueIds(rules) {
        assert UniqueIds(rules[1..]);
        assert forall x <- rest :: x.id != rules[0].id;
      }
    }
  }

  lemma ShowsWithout(rules: seq<Rule>, t: RuleTable, id: string)
    requires UniqueIds(rules) && Shows(t, rules)
    ensures UniqueIds(Without(rules, id)) && Shows(t - {id}, Without(rules, id))
  {
    WithoutIs(rules, id);
  }

  lemma ShowsAppended(rest: seq<Rule>, t: RuleTable, rule: Rule)
    requires UniqueIds(rest) && Shows(t, rest) && rule.id !in t
    ensures UniqueIds(rest + [rule]) && Shows(t[rule.id := rule], rest + [rule])
  {
    forall i, j | 0 <= i < j < |rest + [rule]| ensures (rest + [rule])[i].id != (rest + [rule])[j].id {
      assert rest[i] in rest;
    }
    assert forall r :: r in rest + [rule] <==> r in rest || r == rule;
  }

  lemma {:induction false} OneRequest(rules: seq<Rule>, t: RuleTable, q: Request)
    requires UniqueIds(rules) && Shows(t, rules)
    ensures UniqueIds(Stored(rules, q)) && Shows(Consumed(t, Published(q)), Stored(rules, q))
  {
    if q.Delete? {
      ShowsWithout(rules, t, q.id);
    } else {
      var rule := Published(q).rule;
      ShowsWithout(rules, t, rule.id);
      ShowsAppended(Without(rules, rule.id), t - {rule.id}, rule);
      assert (t - {rule.id})[rule.id := rule] == t[rule.id := rule];
    }
  }

  /** Replicas converge: with one writer and in-order lossless delivery, a replica that started
      equal shows, after consuming the messages of the requests so far, exactly the list that those
      requests left; and the list's ids stay unique. */
  lemma {:induction false} ReplicasConverge(rules: seq<Rule>, t: RuleTable, qs: seq<Request>)
    requires UniqueIds(rules) && Shows(t, rules)
    ensures UniqueIds(StoredAfter(rules, qs))
    ensures Shows(ConsumedAll(t, Channel(qs)), StoredAfter(rules, qs))
    decreases |qs|
  {
    if qs != [] {
      OneRequest(rules, t, qs[0]);
      ReplicasConverge(Stored(rules, qs[0]), Consumed(t, Published(qs[0])), qs[1..]);
      assert Channel(qs)[1..] == Channel(qs[1..]);
    }
  }

  /** Two replicas showing one list are equal. */
  lemma {:induction false} ShownTablesEqual(t: RuleTable, u: RuleTable, rules: seq<Rule>)
    requires Shows(t, rules) && Shows(u, rules)
    ensures t == u
  {
    forall id | id in t ensures id in u && u[id] == t[id] { assert t[id] in rules; }
    forall id | id in u ensures id in t { assert u[id] in rules; }
  }

  lemma {:induction false} InsertedShows(t: RuleTable, rules: seq<Rule>)
    requires UniqueIds(rules)
    ensures forall id :: id in Inserted(t, rules) <==> id in t || exists r <- rules :: r.id == id
    ensures forall r <- rules :: Inserted(t, rules)[r.id] == r
    ensures forall id <- t :: (forall r <- rules :: r.id != id) ==> Inserted(t, rules)[id] == t[id]
    decreases |rules|
  {
    if rules != [] {
      assert forall r <- rules[1..] :: r.id != rules[0].id;
      InsertedShows(t[rules[0].id := rules[0]], rules[1..]);
      assert forall r :: r in rules <==> r == rules[0] || r in rules[1..];
    }
  }

  /** A bulk reload only inserts: the replica then shows the reloaded list exactly when it held no
      rule whose id the list lacks. */
  lemma {:induction false} ReloadConverges(t: RuleTable, rules: seq<Rule>)
    requires UniqueIds(rules)
    ensures Shows(Consumed(t, ReloadAll(rules)), rules) <==> forall id <- t :: exists r <- rules :: r.id == id
  {
    InsertedShows(t, rules);
    var u := Inserted(t, rules);
    if Shows(u, rules) {
      forall id | id in t ensures exists r <- rules :: r.id == id { assert u[id] in rules && u[id].id == id; }
    }
  }

  // ---- what the messages do to the proxy ----

  /** Adding a rule with a new id and removing it again gives back both the rule table and the
      proxy's tables, exactly when the latter held no key that the withdrawal removes. */
  lemma {:induction false} AddThenRemove(
        t: RuleTable, tables: Tables, rule: Rule, w: World, e: nat, now: int, later: int)
    requires rule.id !in t && !(rule.scope.Global? && rule.action.BlockAfterMinutes?)
    ensures var t1, s1 := Consumed(t, Add(rule)), Effects(t, tables, Add(rule), w, e, now);
            && Consumed(t1, Remove(rule.id)) == t
            && (Effects(t1, s1, Remove(rule.id), w, e, later) == tables <==> Untouched(tables, rule, w))
  {
    ApplyThenUnblockRestores(tables, rule, w, e, now, later);
    assert t[rule.id := rule] - {rule.id} == t;
  }

  /** The proxy's tables after a rule is added, changed and removed, each at its own time. */
  ghost function AddChangeRemove(t: RuleTable, tables: Tables, before: Rule, after: Rule, w: World,
                                 added: Reading, changed: Reading, removed: Reading): Tables {
    var t1, s1 := Consumed(t, Add(before)), Effects(t, tables, Add(before), w, added.engine, added.proxy);
    var t2, s2 := Consumed(t1, Add(after)), Effects(t1, s1, Add(after), w, changed.engine, changed.proxy);
    Effects(t2, s2, Remove(after.id), w, removed.engine, removed.proxy)
  }

  /** What applying a rule writes. */
  function Written(rule: Rule, w: World, at: Reading): Tables {
    ExecuteAll(EMPTY, RuleCommands(rule, w, at.engine), at.proxy)
  }

  /** Every entry written is removed by the withdrawal, or was there from the start. */
  ghost predicate LeavesNothing<T>(t: Table<T>, written: Table<T>, us: seq<Command>) {
    forall k <- written :: Removes(us, k) || (k in t && t[k] == written[k])
  }

  /** Withdrawing the rule from tables over which these entries were written restores the tables: they
      held no key that the withdrawal removes, and each written entry is removed or was there. */
  ghost predicate Restored(tables: Tables, written: Tables, rule: Rule, w: World) {
    var us := UnblockCommands(rule, w);
    && Untouched(tables, rule, w)
    && if rule.action.ThrottleNow?
       then LeavesNothing(tables.throttles, written.throttles, us) && LeavesNothing(tables.blocks, written.blocks, [])
       else LeavesNothing(tables.blocks, written.blocks, us) && LeavesNothing(tables.throttles, written.throttles, [])
  }

  lemma {:induction false} BackAfterUnblock(tables: Tables, written: Tables, rule: Rule, w: World, later: int)
    ensures ExecuteAll(Over(tables, written), UnblockCommands(rule, w), later) == tables
       <==> Restored(tables, written, rule, w)
  {
    hide UnblockCommands, ExecuteAll, Removes, LeavesNothing;
    var us := UnblockCommands(rule, w);
    UnblockRemovesOnly(rule, w);
    RemovalsFilter(Over(tables, written), us, rule.action.ThrottleNow?, later);
    if rule.action.ThrottleNow? {
      BackAfter(tables.throttles, written.throttles, us);
      BackAfterNothing(tables.blocks, written.blocks);
    } else {
      BackAfter(tables.blocks, written.blocks, us);
      BackAfterNothing(tables.throttles, written.throttles);
    }
  }

  lemma BackAfter<T>(t: Table<T>, written: Table<T>, us: seq<Command>)
    ensures Minus(t + written, us) == t <==> (forall k <- t :: !Removes(us, k)) && LeavesNothing(t, written, us)
  {
    OverThenMinus(t, written, us);
  }

  lemma BackAfterNothing<T>(t: Table<T>, written: Table<T>)
    ensures t + written == t <==> LeavesNothing(t, written, [])
  {
    BackAfter(t, written, []);
    assert Minus(t + written, []) == t + written;
  }

  lemma RuleAddsOnly(rule: Rule, w: World, e: nat)
    ensures AddOnly(RuleCommands(rule, w, e))
  {
    forall c | c in RuleCommands(rule, w, e) ensures c.Block? || c.Throttle? { RuleMember(rule, w, e, c); }
  }

  lemma RuleWrites(tables: Tables, rule: Rule, w: World, at: Reading)
    ensures ExecuteAll(tables, RuleCommands(rule, w, at.engine), at.proxy) == Over(tables, Written(rule, w, at))
  {
    RuleAddsOnly(rule, w, at.engine);
    AdditionsOverwrite(tables, RuleCommands(rule, w, at.engine), at.proxy);
  }

  /** Changing a rule does not withdraw what its old version wrote. After adding a rule, changing it
      in any way and removing it, the proxy's tables are back exactly when they held no key that the
      new version's withdrawal removes, and every entry that either version wrote is removed by that
      withdrawal or was there from the start. */
  lemma {:induction false} ChangeLeavesOldKeys(
      t: RuleTable, tables: Tables, before: Rule, after: Rule, w: World, added: Reading, changed: Reading,
      removed: Reading)
    requires before.id == after.id
    ensures AddChangeRemove(t, tables, before, after, w, added, changed, removed) == tables
       <==> Restored(tables, Over(Written(before, w, added), Written(after, w, changed)), after, w)
  {
    hide RuleCommands, UnblockCommands, ExecuteAll, Written, Restored;
    var t2 := t[before.id := before][after.id := after];
    assert after.id in t2 && t2[after.id] == after;
    RuleWrites(tables, before, w, added);
    RuleWrites(Over(tables, Written(before, w, added)), after, w, changed);
    OverAssociative(tables, Written(before, w, added), Written(after, w, changed));
    BackAfterUnblock(tables, Over(Written(before, w, added), Written(after, w, changed)), after, w, removed.proxy);
  }
}
