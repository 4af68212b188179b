/** The aggregation store: upserts in two database round trips, deletions, and the sums that the
    queries report. */
module EventStore {
  import opened Text

  datatype EventKey = EventKey(ip: string, domain: string, bucket: int)

  datatype Row = Row(id: nat, key: EventKey, count: int, seconds: int)

  /** The table and the next value of its auto-increment id. */
  datatype Db = Db(rows: seq<Row>, nextId: nat)

  datatype Upsert = Upsert(key: EventKey, count: int, seconds: int)

  // ---- the two round trips of an upsert ----

  /** The first row with the key. */
  function FindRow(rows: seq<Row>, key: EventKey): Option<Row> {
    if rows == [] then None
    else if rows[0].key == key then Some(rows[0])
    else FindRow(rows[1..], key)
  }

  /** Every row with the id is replaced. */
  function Replace(rows: seq<Row>, id: nat, row: Row): seq<Row> {
    if rows == [] then []
    else [if rows[0].id == id then row else rows[0]] + Replace(rows[1..], id, row)
  }

  /** The write that follows a read: the copy read, increased, or a new row. */
  function Write(db: Db, u: Upsert, found: Option<Row>): Db {
    match found
    case Some(r) =>
      db.(rows := Replace(db.rows, r.id, r.(count := r.count + u.count, seconds := r.seconds + u.seconds)))
    case None => Db(db.rows + [Row(db.nextId, u.key, u.count, u.seconds)], db.nextId + 1)
  }

  function WithoutIp(rows: seq<Row>, ip: string): seq<Row> {
    if rows == [] then []
    else (if rows[0].key.ip == ip then [] else [rows[0]]) + WithoutIp(rows[1..], ip)
  }

  lemma ReplaceStep(out: seq<Row>, rows: seq<Row>, id: nat, row: Row)
    requires rows != []
    ensures out + Replace(rows, id, row)
         == out + [if rows[0].id == id then row else rows[0]] + Replace(rows[1..], id, row)
  {
  }

  lemma WithoutStep(out: seq<Row>, rows: seq<Row>, ip: string)
    requires rows != []
    ensures out + WithoutIp(rows, ip)
         == (if rows[0].key.ip != ip then out + [rows[0]] else out) + WithoutIp(rows[1..], ip)
  {
  }

  class Repository {
    var rows: seq<Row>
    var nextId: nat

    constructor ()
      ensures View() == Db([], 1)
    {
      rows, nextId := [], 1;
    }

    function View(): Db
      reads this
    {
      Db(rows, nextId)
    }

    method ReadHead(key: EventKey) returns (found: Option<Row>)
      ensures found == FindRow(rows, key)
    {
      for i := 0 to |rows|
        invariant FindRow(rows, key) == FindRow(rows[i..], key)
      {
        assert rows[i..][1..] == rows[i + 1..];
        if rows[i].key == key { return Some(rows[i]); }
      }
      return None;
    }

    method UpdateById(id: nat, row: Row)
      modifies this
      ensures View() == Db(Replace(old(rows), id, row), old(nextId))
    {
      var out := [];
      for i := 0 to |rows|
        invariant rows == old(rows) && nextId == old(nextId)
        invariant out + Replace(rows[i..], id, row) == Replace(rows, id, row)
      {
        assert rows[i..][1..] == rows[i + 1..];
        ReplaceStep(out, rows[i..], id, row);
        out := out + [if rows[i].id == id then row else rows[i]];
      }
      rows := out;
    }

    /** The write half of an upsert. */
    method WriteBack(u: Upsert, found: Option<Row>)
      modifies this
      ensures View() == Write(old(View()), u, found)
    {
      match found
      case Some(r) =>
        UpdateById(r.id, r.(count := r.count + u.count, seconds := r.seconds + u.seconds));
      case None =>
        rows := rows + [Row(nextId, u.key, u.count, u.seconds)];
        nextId := nextId + 1;
    }

    method UpsertRow(u: Upsert)
      modifies this
      ensures View() == Apply(old(View()), Put(u))
    {
      var found := ReadHead(u.key);
      WriteBack(u, found);
    }

    method DeleteByIp(ip: string)
      modifies this
      ensures View() == Apply(old(View()), DeleteIp(ip))
    {
      var out := [];
      for i := 0 to |rows|
        invariant rows == old(rows) && nextId == old(nextId)
        invariant out + WithoutIp(rows[i..], ip) == WithoutIp(rows, ip)
      {
        assert rows[i..][1..] == rows[i + 1..];
        WithoutStep(out, rows[i..], ip);
        if rows[i].key.ip != ip { out := out + [rows[i]]; }
      }
      rows := out;
    }
  }

  // ---- what the table holds ----

  datatype Amount = Amount(count: int, seconds: int)

  function Held(rows: seq<Row>, key: EventKey): Option<Amount> {
    var r := FindRow(rows, key);
    if r.Some? then Some(Amount(r.value.count, r.value.seconds)) else None
  }

  function Plus(a: Option<Amount>, u: Upsert): Option<Amount> {
    if a.Some? then Some(Amount(a.value.count + u.count, a.value.seconds + u.seconds))
    else Some(Amount(u.count, u.seconds))
  }

  predicate UniqueKeys(rows: seq<Row>) {
    forall i, j :: 0 <= i < j < |rows| ==> rows[i].key != rows[j].key
  }

  predicate IdsUnique(rows: seq<Row>) {
    forall i, j :: 0 <= i < j < |rows| ==> rows[i].id != rows[j].id
  }

  predicate ValidDb(db: Db) {
    && IdsUnique(db.rows)
    && (forall i :: 0 <= i < |db.rows| ==> db.rows[i].id < db.nextId)
  }

  lemma {:induction false} FindRowIs(rows: seq<Row>, key: EventKey)
    ensures FindRow(rows, key).Some? ==> FindRow(rows, key).value in rows && FindRow(rows, key).value.key == key
    ensures FindRow(rows, key).None? <==> forall i :: 0 <= i < |rows| ==> rows[i].key != key
  {
    if rows != [] { FindRowIs(rows[1..], key); }
  }

  lemma {:induction false} ReplaceIs(rows: seq<Row>, id: nat, row: Row)
    ensures var r := Replace(rows, id, row);
            |r| == |rows| && forall i :: 0 <= i < |rows| ==> r[i] == if rows[i].id == id then row else rows[i]
  {
    if rows != [] { ReplaceIs(rows[1..], id, row); }
  }

  /** Replacing a row by one with its own key changes what is found under that key only. */
  lemma {:induction false} FindReplaced(rows: seq<Row>, id: nat, row: Row, key: EventKey)
    requires forall i :: 0 <= i < |rows| && rows[i].id == id ==> rows[i].key == row.key
    ensures var old_ := FindRow(rows, key);
            FindRow(Replace(rows, id, row), key) == if old_.Some? && old_.value.id == id then Some(row) else old_
  {
    if rows != [] {
      FindReplaced(rows[1..], id, row, key);
      assert Replace(rows, id, row)[1..] == Replace(rows[1..], id, row);
    }
  }

  lemma {:induction false} FindAppended(rows: seq<Row>, row: Row, key: EventKey)
    ensures FindRow(rows + [row], key)
         == if FindRow(rows, key).Some? then FindRow(rows, key) else if row.key == key then Some(row) else None
  {
    if rows != [] {
      FindAppended(rows[1..], row, key);
      assert (rows + [row])[1..] == rows[1..] + [row];
    } else {
      assert rows + [row] == [row];
    }
  }

  lemma OneRowWithId(rows: seq<Row>, r: Row)
    requires r in rows && IdsUnique(rows)
    ensures forall i :: 0 <= i < |rows| && rows[i].id == r.id ==> rows[i] == r
  {
    var i :| 0 <= i < |rows| && rows[i] == r;
  }

  lemma ReplaceValid(rows: seq<Row>, id: nat, row: Row)
    requires IdsUnique(rows) && UniqueKeys(rows) && row.id == id
    requires forall i :: 0 <= i < |rows| && rows[i].id == id ==> rows[i].key == row.key
    ensures IdsUnique(Replace(rows, id, row)) && UniqueKeys(Replace(rows, id, row))
    ensures forall r <- Replace(rows, id, row) :: exists i :: 0 <= i < |rows| && rows[i].id == r.id
  {
    ReplaceIs(rows, id, row);
  }

  lemma RowKeyOfId(rows: seq<Row>, r: Row, key: EventKey)
    requires IdsUnique(rows) && r in rows && r.key != key
    ensures FindRow(rows, key).Some? ==> FindRow(rows, key).value.id != r.id
  {
    FindRowIs(rows, key);
    OneRowWithId(rows, r);
  }

  lemma UpdateAdds(db: Db, u: Upsert, r: Row, key: EventKey)
    requires ValidDb(db) && UniqueKeys(db.rows) && FindRow(db.rows, u.key) == Some(r)
    ensures ValidDb(Write(db, u, Some(r))) && UniqueKeys(Write(db, u, Some(r)).rows)
    ensures key != u.key ==> FindRow(Write(db, u, Some(r)).rows, key) == FindRow(db.rows, key)
    ensures Held(Write(db, u, Some(r)).rows, u.key) == Plus(Held(db.rows, u.key), u)
  {
    hide Replace, FindRow;
    var row := r.(count := r.count + u.count, seconds := r.seconds + u.seconds);
    FindRowIs(db.rows, u.key);
    OneRowWithId(db.rows, r);
    ReplaceValid(db.rows, r.id, row);
    FindReplaced(db.rows, r.id, row, u.key);
    if key != u.key {
      FindReplaced(db.rows, r.id, row, key);
      RowKeyOfId(db.rows, r, key);
    }
  }

  lemma InsertAdds(db: Db, u: Upsert, key: EventKey)
    requires ValidDb(db) && UniqueKeys(db.rows) && FindRow(db.rows, u.key) == None
    ensures ValidDb(Write(db, u, None)) && UniqueKeys(Write(db, u, None).rows)
    ensures key != u.key ==> FindRow(Write(db, u, None).rows, key) == FindRow(db.rows, key)
    ensures Held(Write(db, u, None).rows, u.key) == Plus(Held(db.rows, u.key), u)
  {
    hide FindRow;
    var row := Row(db.nextId, u.key, u.count, u.seconds);
    FindRowIs(db.rows, u.key);
    FindAppended(db.rows, row, key);
    FindAppended(db.rows, row, u.key);
  }

  /** A write whose read is still current adds the amounts under its key and nothing else. */
  lemma {:induction false} WriteAdds(db: Db, u: Upsert, found: Option<Row>, key: EventKey)
    requires ValidDb(db) && UniqueKeys(db.rows) && found == FindRow(db.rows, u.key)
    ensures ValidDb(Write(db, u, found)) && UniqueKeys(Write(db, u, found).rows)
    ensures key != u.key ==> FindRow(Write(db, u, found).rows, key) == FindRow(db.rows, key)
    ensures Held(Write(db, u, found).rows, u.key) == Plus(Held(db.rows, u.key), u)
  {
    match found
    case Some(r) => UpdateAdds(db, u, r, key);
    case None => InsertAdds(db, u, key);
  }

  // ---- interleaved upserts ----

  datatype Progress = Todo | HasRead(found: Option<Row>) | Done

  /** Upserts started together: the database, and how far each one is. */
  datatype Batch = Batch(db: Db, progress: seq<Progress>)

  function StartBatch(db: Db, us: seq<Upsert>): Batch {
    Batch(db, seq(|us|, _ => Todo))
  }

  /** Upsert i performs its next round trip. */
  function Advance(s: Batch, us: seq<Upsert>, i: nat): Batch
    requires i < |us| == |s.progress|
  {
    match s.progress[i]
    case Todo => s.(progress := s.progress[i := HasRead(FindRow(s.db.rows, us[i].key))])
    case HasRead(found) => Batch(Write(s.db, us[i], found), s.progress[i := Done])
    case Done => s
  }

  predicate Schedule(order: seq<nat>, n: nat) {
    forall i :: 0 <= i < |order| ==> order[i] < n
  }

  /** The batch after the round trips in the given order. */
  function Interleave(s: Batch, us: seq<Upsert>, order: seq<nat>): (r: Batch)
    requires |us| == |s.progress| && Schedule(order, |us|)
    ensures |r.progress| == |us|
    decreases |order|
  {
    if order == [] then s
    else Interleave(Advance(s, us, order[0]), us, order[1..])
  }

  predicate Complete(s: Batch) {
    forall i :: 0 <= i < |s.progress| ==> s.progress[i].Done?
  }

  predicate DistinctKeys(us: seq<Upsert>) {
    forall i, j :: 0 <= i < j < |us| ==> us[i].key != us[j].key
  }

  /** What upsert i has done so far, against the table before the batch. */
  ghost predicate OnTrack(before: seq<Row>, rows: seq<Row>, u: Upsert, p: Progress) {
    match p
    case Todo => FindRow(rows, u.key) == FindRow(before, u.key)
    case HasRead(found) => FindRow(rows, u.key) == FindRow(before, u.key) == found
    case Done => Held(rows, u.key) == Plus(Held(before, u.key), u)
  }

  ghost predicate BatchInv(before: Db, s: Batch, us: seq<Upsert>)
    requires |us| == |s.progress|
  {
    && ValidDb(s.db) && UniqueKeys(s.db.rows)
    && (forall i :: 0 <= i < |us| ==> OnTrack(before.rows, s.db.rows, us[i], s.progress[i]))
    && (forall k :: (forall i :: 0 <= i < |us| ==> us[i].key != k) ==> FindRow(s.db.rows, k) == FindRow(before.rows, k))
  }

  lemma AdvanceKeeps(before: Db, s: Batch, us: seq<Upsert>, i: nat)
    requires i < |us| == |s.progress| && DistinctKeys(us) && BatchInv(before, s, us)
    ensures BatchInv(before, Advance(s, us, i), us)
  {
    var s' := Advance(s, us, i);
    if s.progress[i].HasRead? {
      var found := s.progress[i].found;
      assert OnTrack(before.rows, s.db.rows, us[i], s.progress[i]);
      WriteAdds(s.db, us[i], found, us[i].key);
      forall k | k != us[i].key ensures FindRow(s'.db.rows, k) == FindRow(s.db.rows, k) {
        WriteAdds(s.db, us[i], found, k);
      }
      forall j | 0 <= j < |us| ensures OnTrack(before.rows, s'.db.rows, us[j], s'.progress[j]) {
        assert OnTrack(before.rows, s.db.rows, us[j], s.progress[j]);
        assert j != i ==> us[j].key != us[i].key;
      }
    } else {
      assert OnTrack(before.rows, s.db.rows, us[i], s.progress[i]);
    }
  }

  lemma {:induction false} InterleaveKeeps(before: Db, s: Batch, us: seq<Upsert>, order: seq<nat>)
    requires |us| == |s.progress| && Schedule(order, |us|) && DistinctKeys(us) && BatchInv(before, s, us)
    ensures BatchInv(before, Interleave(s, us, order), us)
    decreases |order|
  {
    if order != [] {
      AdvanceKeeps(before, s, us, order[0]);
      InterleaveKeeps(before, Advance(s, us, order[0]), us, order[1..]);
    }
  }

  // ---- sequential runs ----

  datatype Op = Put(u: Upsert) | DeleteIp(ip: string)

  function Apply(db: Db, op: Op): Db {
    match op
    case Put(u) => Write(db, u, FindRow(db.rows, u.key))
    case DeleteIp(ip) => db.(rows := WithoutIp(db.rows, ip))
  }

  function ApplyAll(db: Db, ops: seq<Op>): Db {
    if ops == [] then db else Apply(ApplyAll(db, ops[..|ops| - 1]), ops[|ops| - 1])
  }

  /** The amounts upserted to a key since its address was last deleted, on top of what it held. */
  function Expected(start: Option<Amount>, ops: seq<Op>, key: EventKey): Option<Amount> {
    if ops == [] then start else
    var before := Expected(start, ops[..|ops| - 1], key);
    match ops[|ops| - 1]
    case Put(u) => if u.key == key then Plus(before, u) else before
    case DeleteIp(ip) => if key.ip == ip then None else before
  }

  lemma {:induction false} FindAfterDelete(rows: seq<Row>, ip: string, key: EventKey)
    ensures FindRow(WithoutIp(rows, ip), key) == if key.ip == ip then None else FindRow(rows, key)
  {
    if rows != [] {
      FindAfterDelete(rows[1..], ip, key);
      var rest := WithoutIp(rows[1..], ip);
      if rows[0].key.ip == ip {
        assert WithoutIp(rows, ip) == rest;
      } else {
        assert ([rows[0]] + rest)[1..] == rest;
      }
    }
  }

  lemma UniquePrepended(r: Row, rest: seq<Row>)
    requires UniqueKeys(rest) && IdsUnique(rest)
    requires forall x <- rest :: x.key != r.key && x.id != r.id
    ensures UniqueKeys([r] + rest) && IdsUnique([r] + rest)
  {
    var all := [r] + rest;
    assert forall j :: 1 <= j < |all| ==> all[j] == rest[j - 1] && all[j] in rest;
  }

  lemma {:induction false} DeleteKeepsRows(rows: seq<Row>, ip: string)
    requires UniqueKeys(rows) && IdsUnique(rows)
    ensures forall r <- WithoutIp(rows, ip) :: r in rows
    ensures UniqueKeys(WithoutIp(rows, ip)) && IdsUnique(WithoutIp(rows, ip))
  {
    if rows != [] {
      var tail, rest := rows[1..], WithoutIp(rows[1..], ip);
      DeleteKeepsRows(tail, ip);
      assert forall x <- tail :: x.key != rows[0].key && x.id != rows[0].id;
      if rows[0].key.ip == ip {
        assert WithoutIp(rows, ip) == rest;
      } else {
        UniquePrepended(rows[0], rest);
      }
    }
  }

  /** Conservation: after any sequential run of upserts and deletions, each key holds exactly the
      sum of what was upserted to it since its address was last deleted, in a single row. */
  lemma {:induction false} StoreConserves(db: Db, ops: seq<Op>, key: EventKey)
    requires ValidDb(db) && UniqueKeys(db.rows)
    ensures ValidDb(ApplyAll(db, ops)) && UniqueKeys(ApplyAll(db, ops).rows)
    ensures Held(ApplyAll(db, ops).rows, key) == Expected(Held(db.rows, key), ops, key)
  {
    if ops != [] {
      StoreConserves(db, ops[..|ops| - 1], key);
      var d := ApplyAll(db, ops[..|ops| - 1]);
      match ops[|ops| - 1]
      case Put(u) => WriteAdds(d, u, FindRow(d.rows, u.key), key);
      case DeleteIp(ip) =>
        FindAfterDelete(d.rows, ip, key);
        DeleteKeepsRows(d.rows, ip);
        var rest := WithoutIp(d.rows, ip);
        assert forall i :: 0 <= i < |rest| ==> rest[i] in d.rows;
    }
  }

  function Puts(us: seq<Upsert>): (ops: seq<Op>)
    ensures |ops| == |us| && forall i :: 0 <= i < |us| ==> ops[i] == Put(us[i])
  {
    seq(|us|, i requires 0 <= i < |us| => Put(us[i]))
  }

  lemma {:induction false} ExpectedOfPuts(start: Option<Amount>, us: seq<Upsert>, key: EventKey)
    requires DistinctKeys(us)
    ensures forall i :: 0 <= i < |us| && us[i].key == key ==> Expected(start, Puts(us), key) == Plus(start, us[i])
    ensures (forall i :: 0 <= i < |us| ==> us[i].key != key) ==> Expected(start, Puts(us), key) == start
  {
    if us != [] {
      var n := |us| - 1;
      ExpectedOfPuts(start, us[..n], key);
      assert Puts(us)[..n] == Puts(us[..n]);
      assert forall i :: 0 <= i < n ==> us[..n][i] == us[i];
    }
  }

  /** Interleaving does not matter: for upserts with pairwise distinct keys, whatever the order of
      their reads and writes, once all are done the table holds under every key what running them
      one after the other gives, and keys stay unique. */
  lemma {:induction false} InterleavingHarmless(db: Db, us: seq<Upsert>, order: seq<nat>, key: EventKey)
    requires ValidDb(db) && UniqueKeys(db.rows) && DistinctKeys(us) && Schedule(order, |us|)
    requires Complete(Interleave(StartBatch(db, us), us, order))
    ensures var end := Interleave(StartBatch(db, us), us, order).db;
            UniqueKeys(end.rows) && Held(end.rows, key) == Held(ApplyAll(db, Puts(us)).rows, key)
  {
    var end := Interleave(StartBatch(db, us), us, order);
    assert BatchInv(db, StartBatch(db, us), us);
    InterleaveKeeps(db, StartBatch(db, us), us, order);
    StoreConserves(db, Puts(us), key);
    ExpectedOfPuts(Held(db.rows, key), us, key);
    if i :| 0 <= i < |us| && us[i].key == key {
      assert OnTrack(db.rows, end.db.rows, us[i], end.progress[i]);
    }
  }

  // ---- two upserts to one key ----

  /** Whatever the interleaving of two upserts, the outcome is as if they ran one after the other. */
  ghost predicate PairSafe(db: Db, u: Upsert, v: Upsert) {
    forall order: seq<nat> | Schedule(order, 2) && Complete(Interleave(StartBatch(db, [u, v]), [u, v], order)) ::
      var end := Interleave(StartBatch(db, [u, v]), [u, v], order).db;
      UniqueKeys(end.rows) && Held(end.rows, u.key) == Held(ApplyAll(db, Puts([u, v])).rows, u.key)
  }

  predicate AddsNothing(u: Upsert) {
    u.count == 0 && u.seconds == 0
  }

  lemma {:induction false} FourSteps(s: Batch, us: seq<Upsert>, a: nat, b: nat, c: nat, d: nat)
    requires |us| == |s.progress| && a < |us| && b < |us| && c < |us| && d < |us|
    ensures Interleave(s, us, [a, b, c, d])
         == Advance(Advance(Advance(Advance(s, us, a), us, b), us, c), us, d)
  {
    var s1 := Advance(s, us, a);
    var s2 := Advance(s1, us, b);
    var s3 := Advance(s2, us, c);
    assert [a, b, c, d][1..] == [b, c, d] && [b, c, d][1..] == [c, d] && [c, d][1..] == [d] && [d][1..] == [];
    assert Interleave(s3, us, [d]) == Advance(s3, us, d);
    assert Interleave(s2, us, [c, d]) == Interleave(s3, us, [d]);
    assert Interleave(s1, us, [b, c, d]) == Interleave(s2, us, [c, d]);
  }

  /** Both upserts read before either writes; the second one writes first if swap. */
  function RacingOrder(swap: bool): (order: seq<nat>)
    ensures Schedule(order, 2)
  {
    if swap then [0, 1, 1, 0] else [0, 1, 0, 1]
  }

  lemma BothReadFirst(db: Db, u: Upsert, v: Upsert, swap: bool)
    requires ValidDb(db) && UniqueKeys(db.rows) && u.key == v.key
    ensures var f := FindRow(db.rows, u.key);
            Interleave(StartBatch(db, [u, v]), [u, v], RacingOrder(swap))
              == Batch(if swap then Write(Write(db, v, f), u, f) else Write(Write(db, u, f), v, f), [Done, Done])
  {
    var us, s := [u, v], StartBatch(db, [u, v]);
    var f := FindRow(db.rows, u.key);
    assert s.progress == [Todo, Todo];
    if swap { FourSteps(s, us, 0, 1, 1, 0); } else { FourSteps(s, us, 0, 1, 0, 1); }
    var s2 := Advance(Advance(s, us, 0), us, 1);
    assert s2.progress == [HasRead(f), HasRead(f)];
  }

  lemma LostUpdate(db: Db, x: Upsert, y: Upsert, r: Row)
    requires ValidDb(db) && UniqueKeys(db.rows) && x.key == y.key && FindRow(db.rows, x.key) == Some(r)
    ensures Held(Write(Write(db, x, Some(r)), y, Some(r)).rows, x.key) == Plus(Held(db.rows, x.key), y)
  {
    var rx := r.(count := r.count + x.count, seconds := r.seconds + x.seconds);
    var ry := r.(count := r.count + y.count, seconds := r.seconds + y.seconds);
    FindRowIs(db.rows, x.key);
    OneRowWithId(db.rows, r);
    ReplaceIs(db.rows, r.id, rx);
    FindReplaced(db.rows, r.id, rx, x.key);
    FindReplaced(Replace(db.rows, r.id, rx), r.id, ry, x.key);
  }

  lemma SequentialPair(db: Db, u: Upsert, v: Upsert)
    requires ValidDb(db) && UniqueKeys(db.rows) && u.key == v.key
    ensures Held(ApplyAll(db, Puts([u, v])).rows, u.key) == Plus(Plus(Held(db.rows, u.key), u), v)
  {
    var ops := Puts([u, v]);
    StoreConserves(db, ops, u.key);
    var start := Held(db.rows, u.key);
    assert ops[..1] == [Put(u)] && [Put(u)][..0] == [];
    assert Expected(start, [Put(u)], u.key) == Plus(start, u);
    assert Expected(start, ops, u.key) == Plus(Expected(start, ops[..1], u.key), v);
  }

  lemma {:induction false} ReplaceSame(rows: seq<Row>, r: Row)
    requires forall i :: 0 <= i < |rows| && rows[i].id == r.id ==> rows[i] == r
    ensures Replace(rows, r.id, r) == rows
  {
    if rows != [] { ReplaceSame(rows[1..], r); }
  }

  lemma {:induction false} ZeroUpsertsKeepTable(s: Batch, us: seq<Upsert>, order: seq<nat>, r: Row)
    requires |us| == |s.progress| && Schedule(order, |us|) && ValidDb(s.db)
    requires forall i :: 0 <= i < |us| ==> AddsNothing(us[i]) && FindRow(s.db.rows, us[i].key) == Some(r)
    requires forall i :: 0 <= i < |us| && s.progress[i].HasRead? ==> s.progress[i].found == Some(r)
    ensures Interleave(s, us, order).db == s.db
    decreases |order|
  {
    if order != [] {
      var i := order[0];
      FindRowIs(s.db.rows, us[i].key);
      OneRowWithId(s.db.rows, r);
      ReplaceSame(s.db.rows, r);
      assert Advance(s, us, i).db == s.db;
      ZeroUpsertsKeepTable(Advance(s, us, i), us, order[1..], r);
    }
  }

  /** Two concurrent upserts are safe under every interleaving exactly when their keys differ, or
      the row is already there and neither adds anything. */
  lemma {:induction false} PairSafeIff(db: Db, u: Upsert, v: Upsert)
    requires ValidDb(db) && UniqueKeys(db.rows)
    ensures PairSafe(db, u, v)
       <==> u.key != v.key || (FindRow(db.rows, u.key).Some? && AddsNothing(u) && AddsNothing(v))
  {
    var us := [u, v];
    if u.key != v.key {
      forall order: seq<nat> | Schedule(order, 2) && Complete(Interleave(StartBatch(db, us), us, order))
        ensures var end := Interleave(StartBatch(db, us), us, order).db;
                UniqueKeys(end.rows) && Held(end.rows, u.key) == Held(ApplyAll(db, Puts(us)).rows, u.key)
      {
        InterleavingHarmless(db, us, order, u.key);
      }
    } else {
      SequentialPair(db, u, v);
      if FindRow(db.rows, u.key).Some? && AddsNothing(u) && AddsNothing(v) {
        forall order: seq<nat> | Schedule(order, 2)
          ensures Interleave(StartBatch(db, us), us, order).db == db
        {
          ZeroUpsertsKeepTable(StartBatch(db, us), us, order, FindRow(db.rows, u.key).value);
        }
      } else {
        PairUnsafe(db, u, v);
      }
    }
  }

  lemma PairUnsafe(db: Db, u: Upsert, v: Upsert)
    requires ValidDb(db) && UniqueKeys(db.rows) && u.key == v.key
    requires !(FindRow(db.rows, u.key).Some? && AddsNothing(u) && AddsNothing(v))
    ensures !PairSafe(db, u, v)
  {
    var f := FindRow(db.rows, u.key);
    var swap := f.Some? && AddsNothing(u);
    var order := RacingOrder(swap);
    BothReadFirst(db, u, v, swap);
    SequentialPair(db, u, v);
    var end := Interleave(StartBatch(db, [u, v]), [u, v], order).db;
    match f
    case Some(r) =>
      if swap { LostUpdate(db, v, u, r); } else { LostUpdate(db, u, v, r); }
      assert Held(end.rows, u.key) != Plus(Plus(Held(db.rows, u.key), u), v);
    case None =>
      var n := |db.rows|;
      assert end.rows[n].key == end.rows[n + 1].key;
      assert !UniqueKeys(end.rows);
  }

  // ---- ingestion ----

  /** The start of the hour of a timestamp; the division truncates towards zero. */
  function Bucket(ts: int): int {
    if ts >= 0 then ts / 3600 * 3600 else -(-ts / 3600 * 3600)
  }

  datatype DomainStat = DomainStat(domain: string, count: int, seconds: int)

  /** The upserts that one ingested payload starts without waiting for any of them. */
  function Ingest(ip: string, ts: int, stats: seq<DomainStat>): (us: seq<Upsert>)
    ensures |us| == |stats|
  {
    seq(|stats|, i requires 0 <= i < |stats| =>
      Upsert(EventKey(ip, stats[i].domain, Bucket(ts)), stats[i].count, stats[i].seconds))
  }

  predicate DistinctDomains(stats: seq<DomainStat>) {
    forall i, j :: 0 <= i < j < |stats| ==> stats[i].domain != stats[j].domain
  }

  /** A payload made from a map of domains is ingested as if its upserts ran one after the other. */
  lemma {:induction false} IngestHarmless(
        db: Db, ip: string, ts: int, stats: seq<DomainStat>, order: seq<nat>, key: EventKey)
    requires ValidDb(db) && UniqueKeys(db.rows) && DistinctDomains(stats) && Schedule(order, |stats|)
    requires Complete(Interleave(StartBatch(db, Ingest(ip, ts, stats)), Ingest(ip, ts, stats), order))
    ensures var us := Ingest(ip, ts, stats);
            var end := Interleave(StartBatch(db, us), us, order).db;
            UniqueKeys(end.rows) && Held(end.rows, key) == Held(ApplyAll(db, Puts(us)).rows, key)
  {
    InterleavingHarmless(db, Ingest(ip, ts, stats), order, key);
  }

  /** What a row under the key says, zero without one. */
  function Stored(rows: seq<Row>, key: EventKey): Amount {
    match FindRow(rows, key)
    case Some(r) => Amount(r.count, r.seconds)
    case None => Amount(0, 0)
  }

  /** The hour's start is the nearest multiple of 3600 on the way to zero. */
  lemma HourOf(ts: int)
    ensures Bucket(ts) == if ts >= 0 then ts - ts % 3600 else ts + (-ts) % 3600
  {
    var size := if ts >= 0 then ts else -ts;
    assert size == 3600 * (size / 3600) + size % 3600;
  }

  /** What a payload stores: whatever the interleaving of its upserts, once all are done each domain's
      count and seconds are added to the client's row for that domain and the payload's hour, and no
      other key has changed. */
  lemma {:induction false} IngestStores(
        db: Db, ip: string, ts: int, stats: seq<DomainStat>, order: seq<nat>, i: nat, other: EventKey)
    requires ValidDb(db) && UniqueKeys(db.rows) && DistinctDomains(stats) && Schedule(order, |stats|)
    requires i < |stats|
    requires Complete(Interleave(StartBatch(db, Ingest(ip, ts, stats)), Ingest(ip, ts, stats), order))
    requires other.ip != ip || other.bucket != (if ts >= 0 then ts - ts % 3600 else ts + (-ts) % 3600)
             || forall j :: 0 <= j < |stats| ==> stats[j].domain != other.domain
    ensures var us := Ingest(ip, ts, stats);
            var end := Interleave(StartBatch(db, us), us, order).db.rows;
            var hour := if ts >= 0 then ts - ts % 3600 else ts + (-ts) % 3600;
            var key := EventKey(ip, stats[i].domain, hour);
            && Stored(end, key) == Amount(Stored(db.rows, key).count + stats[i].count,
                                          Stored(db.rows, key).seconds + stats[i].seconds)
            && FindRow(end, key).Some?
            && Stored(end, other) == Stored(db.rows, other)
            && (FindRow(end, other).Some? <==> FindRow(db.rows, other).Some?)
  {
    hide FindRow, Interleave, Bucket, ApplyAll, Complete, UniqueKeys, ValidDb, Schedule;
    var us := Ingest(ip, ts, stats);
    HourOf(ts);
    InterleavingHarmless(db, us, order, us[i].key);
    InterleavingHarmless(db, us, order, other);
    StoreConserves(db, Puts(us), us[i].key);
    StoreConserves(db, Puts(us), other);
    ExpectedOfPuts(Held(db.rows, us[i].key), us, us[i].key);
    ExpectedOfPuts(Held(db.rows, other), us, other);
  }

  // ---- the sums that queries report ----

  datatype Group = Group(name: string, count: int, seconds: int)

  predicate InRange(r: Row, from: int, to: int) {
    from <= r.key.bucket <= to
  }

  /** Adds a row's amounts to the group of that name, or starts one. */
  function AddToGroup(gs: seq<Group>, name: string, r: Row): seq<Group> {
    if gs == [] then [Group(name, r.count, r.seconds)]
    else if gs[0].name == name
    then [gs[0].(count := gs[0].count + r.count, seconds := gs[0].seconds + r.seconds)] + gs[1..]
    else [gs[0]] + AddToGroup(gs[1..], name, r)
  }

  /** The groups by domain of one client's rows in the range. */
  function DomainGroups(rows: seq<Row>, ip: string, from: int, to: int): seq<Group> {
    if rows == [] then [] else
    var r, gs := rows[|rows| - 1], DomainGroups(rows[..|rows| - 1], ip, from, to);
    if r.key.ip == ip && InRange(r, from, to) then AddToGroup(gs, r.key.domain, r) else gs
  }

  /** The groups by client of all rows in the range. */
  function ClientGroups(rows: seq<Row>, from: int, to: int): seq<Group> {
    if rows == [] then [] else
    var r, gs := rows[|rows| - 1], ClientGroups(rows[..|rows| - 1], from, to);
    if InRange(r, from, to) then AddToGroup(gs, r.key.ip, r) else gs
  }

  /** What a query over one client and a range adds up to. */
  function SumFor(rows: seq<Row>, ip: string, from: int, to: int): Amount {
    if rows == [] then Amount(0, 0) else
    var r, a := rows[|rows| - 1], SumFor(rows[..|rows| - 1], ip, from, to);
    if r.key.ip == ip && from <= r.key.bucket <= to then Amount(a.count + r.count, a.seconds + r.seconds) else a
  }

  function SumGroups(gs: seq<Group>): Amount {
    if gs == [] then Amount(0, 0)
    else Amount(gs[0].count + SumGroups(gs[1..]).count, gs[0].seconds + SumGroups(gs[1..]).seconds)
  }

  function GroupNamed(gs: seq<Group>, name: string): Option<Group> {
    if gs == [] then None else if gs[0].name == name then Some(gs[0]) else GroupNamed(gs[1..], name)
  }

  lemma {:induction false} AddedToSum(gs: seq<Group>, name: string, r: Row)
    ensures SumGroups(AddToGroup(gs, name, r))
         == Amount(SumGroups(gs).count + r.count, SumGroups(gs).seconds + r.seconds)
  {
    if gs != [] && gs[0].name != name {
      AddedToSum(gs[1..], name, r);
      assert AddToGroup(gs, name, r)[1..] == AddToGroup(gs[1..], name, r);
    }
  }

  lemma {:induction false} AddedToNamed(gs: seq<Group>, name: string, r: Row, other: string)
    ensures var g := GroupNamed(gs, other);
            GroupNamed(AddToGroup(gs, name, r), other) ==
              if other != name then g
              else if g.Some? then Some(Group(name, g.value.count + r.count, g.value.seconds + r.seconds))
              else Some(Group(name, r.count, r.seconds))
  {
    if gs != [] && gs[0].name != name {
      AddedToNamed(gs[1..], name, r, other);
      assert AddToGroup(gs, name, r)[1..] == AddToGroup(gs[1..], name, r);
    }
  }

  /** What one domain's rows of a client add up to in the range, if there are any. */
  function SumWhere(rows: seq<Row>, ip: string, domain: string, from: int, to: int): Option<Amount> {
    if rows == [] then None else
    var r, a := rows[|rows| - 1], SumWhere(rows[..|rows| - 1], ip, domain, from, to);
    if r.key.ip != ip || r.key.domain != domain || r.key.bucket < from || r.key.bucket > to then a
    else if a.Some? then Some(Amount(a.value.count + r.count, a.value.seconds + r.seconds))
    else Some(Amount(r.count, r.seconds))
  }

  predicate NamesUnique(gs: seq<Group>) {
    forall i, j :: 0 <= i < j < |gs| ==> gs[i].name != gs[j].name
  }

  lemma {:induction false} AddedNames(gs: seq<Group>, name: string, r: Row)
    ensures forall g <- AddToGroup(gs, name, r) :: g.name == name || exists h <- gs :: h.name == g.name
  {
    if gs != [] { AddedNames(gs[1..], name, r); }
  }

  lemma UniqueTail(gs: seq<Group>)
    requires gs != [] && NamesUnique(gs)
    ensures NamesUnique(gs[1..]) && forall h <- gs[1..] :: h.name != gs[0].name
  {
    forall i, j | 0 <= i < j < |gs[1..]| ensures gs[1..][i].name != gs[1..][j].name {
      assert gs[i + 1].name != gs[j + 1].name;
    }
  }

  lemma UniquePrefixed(g: Group, gs: seq<Group>)
    requires NamesUnique(gs) && forall h <- gs :: h.name != g.name
    ensures NamesUnique([g] + gs)
  {
    var all := [g] + gs;
    forall i, j | 0 <= i < j < |all| ensures all[i].name != all[j].name {
      assert all[j] == gs[j - 1] && gs[j - 1] in gs;
    }
  }

  lemma {:induction false} NamesStayUnique(gs: seq<Group>, name: string, r: Row)
    requires NamesUnique(gs)
    ensures NamesUnique(AddToGroup(gs, name, r))
  {
    hide NamesUnique;
    if gs == [] {
      OneName(Group(name, r.count, r.seconds));
    } else {
      UniqueTail(gs);
      if gs[0].name == name {
        UniquePrefixed(AddToGroup(gs, name, r)[0], gs[1..]);
      } else {
        NamesStayUnique(gs[1..], name, r);
        AddedNames(gs[1..], name, r);
        UniquePrefixed(gs[0], AddToGroup(gs[1..], name, r));
      }
    }
  }

  lemma OneName(g: Group)
    ensures NamesUnique([g])
  {
  }

  lemma EmptyListing(domain: string)
    ensures NamesUnique([]) && GroupNamed([], domain) == None
  {
  }

  /** A client's listing has one group per domain with rows in the range, holding their sums. */
  lemma {:induction false} ListingIs(rows: seq<Row>, ip: string, from: int, to: int, domain: string)
    ensures NamesUnique(DomainGroups(rows, ip, from, to))
    ensures var a := SumWhere(rows, ip, domain, from, to);
            GroupNamed(DomainGroups(rows, ip, from, to), domain) ==
              if a.None? then None else Some(Group(domain, a.value.count, a.value.seconds))
  {
    hide AddToGroup, NamesUnique, GroupNamed;
    if rows == [] {
      EmptyListing(domain);
    } else {
      var r, gs := rows[|rows| - 1], DomainGroups(rows[..|rows| - 1], ip, from, to);
      ListingIs(rows[..|rows| - 1], ip, from, to, domain);
      NamesStayUnique(gs, r.key.domain, r);
      AddedToNamed(gs, r.key.domain, r, domain);
    }
  }

  /** Grouping conserves: a client's line in the summary of all clients is the sum over all groups
      of its own domain listing, and a client without a line has no groups. */
  lemma {:induction false} SummaryIsSumOfDomains(rows: seq<Row>, ip: string, from: int, to: int)
    ensures SumGroups(DomainGroups(rows, ip, from, to)) == SumFor(rows, ip, from, to)
    ensures match GroupNamed(ClientGroups(rows, from, to), ip)
            case Some(g) => Amount(g.count, g.seconds) == SumGroups(DomainGroups(rows, ip, from, to))
            case None => DomainGroups(rows, ip, from, to) == []
  {
    if rows != [] {
      var r, rest := rows[|rows| - 1], rows[..|rows| - 1];
      SummaryIsSumOfDomains(rest, ip, from, to);
      if InRange(r, from, to) {
        AddedToNamed(ClientGroups(rest, from, to), r.key.ip, r, ip);
        if r.key.ip == ip { AddedToSum(DomainGroups(rest, ip, from, to), r.key.domain, r); }
      }
    }
  }

  function Both(a: Option<Amount>, b: Option<Amount>): Option<Amount> {
    if a.None? then b else if b.None? then a
    else Some(Amount(a.value.count + b.value.count, a.value.seconds + b.value.seconds))
  }

  /** Adjacent ranges add up, for each of a client's domains and in total; two consecutive days, for
      instance. */
  lemma {:induction false} RangesAddUp(rows: seq<Row>, ip: string, domain: string, from: int, mid: int, to: int)
    requires from <= mid + 1 && mid <= to
    ensures SumWhere(rows, ip, domain, from, to)
         == Both(SumWhere(rows, ip, domain, from, mid), SumWhere(rows, ip, domain, mid + 1, to))
    ensures var a, b := SumFor(rows, ip, from, mid), SumFor(rows, ip, mid + 1, to);
            SumFor(rows, ip, from, to) == Amount(a.count + b.count, a.seconds + b.seconds)
  {
    if rows != [] { RangesAddUp(rows[..|rows| - 1], ip, domain, from, mid, to); }
  }

  /** The daily breakdowns of two consecutive days add up, domain by domain, to the breakdown of both:
      a domain is listed for both days exactly when one of the days lists it, with the sums. */
  lemma {:induction false} DaysAddUp(rows: seq<Row>, ip: string, dayStart: int, domain: string)
    ensures var day1 := GroupNamed(DomainGroups(rows, ip, dayStart, dayStart + 86399), domain);
            var day2 := GroupNamed(DomainGroups(rows, ip, dayStart + 86400, dayStart + 172799), domain);
            var both := GroupNamed(DomainGroups(rows, ip, dayStart, dayStart + 172799), domain);
            && (both.Some? <==> day1.Some? || day2.Some?)
            && (both.Some? ==> AmountOf(both) == Amount(AmountOf(day1).count + AmountOf(day2).count,
                                                        AmountOf(day1).seconds + AmountOf(day2).seconds))
  {
    ListingIs(rows, ip, dayStart, dayStart + 86399, domain);
    ListingIs(rows, ip, dayStart + 86400, dayStart + 172799, domain);
    ListingIs(rows, ip, dayStart, dayStart + 172799, domain);
    RangesAddUp(rows, ip, domain, dayStart, dayStart + 86399, dayStart + 172799);
  }

  function AmountOf(g: Option<Group>): Amount {
    if g.Some? then Amount(g.value.count, g.value.seconds) else Amount(0, 0)
  }

  // ---- pages ----

  /** Page number `page` of a sorted listing: drop page * size, take size. */
  function Page(sorted: seq<Group>, page: nat, size: nat): seq<Group> {
    var start := Min(page * size, |sorted|);
    sorted[start..Min(start + size, |sorted|)]
  }

  function FirstPages(sorted: seq<Group>, pages: nat, size: nat): seq<Group> {
    if pages == 0 then [] else FirstPages(sorted, pages - 1, size) + Page(sorted, pages - 1, size)
  }

  lemma OnePageMore(pages: nat, size: nat)
    requires pages > 0
    ensures pages * size == (pages - 1) * size + size
  {
  }

  /** A page that starts where the front ends extends the front. */
  lemma FrontExtended(sorted: seq<Group>, from: nat, size: nat)
    ensures var start := Min(from, |sorted|);
            sorted[..start] + sorted[start..Min(start + size, |sorted|)] == sorted[..Min(from + size, |sorted|)]
  {
  }

  /** The first pages in order are the front of the listing. */
  lemma {:induction false} PagesAreFront(sorted: seq<Group>, pages: nat, size: nat)
    ensures FirstPages(sorted, pages, size) == sorted[..Min(pages * size, |sorted|)]
  {
    hide Min;
    if pages > 0 {
      PagesAreFront(sorted, pages - 1, size);
      OnePageMore(pages, size);
      FrontExtended(sorted, (pages - 1) * size, size);
    } else {
      assert Min(0, |sorted|) == 0 by { MinZero(|sorted|); }
    }
  }

  lemma MinZero(n: nat)
    ensures Min(0, n) == 0
  {
  }

  /** Under one fixed order, the pages of a client's listing, enough to hold `total` entries,
      concatenate to the whole listing, and their sums add up to the client's. */
  lemma {:induction false} PagesCoverListing(
        rows: seq<Row>, ip: string, from: int, to: int, sorted: seq<Group>, pages: nat, size: nat)
    requires multiset(sorted) == multiset(DomainGroups(rows, ip, from, to))
    requires pages * size >= |DomainGroups(rows, ip, from, to)|
    ensures FirstPages(sorted, pages, size) == sorted
    ensures |FirstPages(sorted, pages, size)| == |DomainGroups(rows, ip, from, to)|
    ensures SumGroups(FirstPages(sorted, pages, size)) == SumFor(rows, ip, from, to)
  {
    var gs := DomainGroups(rows, ip, from, to);
    assert |sorted| == |multiset(sorted)| == |multiset(gs)| == |gs|;
    PagesAreFront(sorted, pages, size);
    SumOfPermutation(sorted, gs);
    SummaryIsSumOfDomains(rows, ip, from, to);
  }

  lemma RemoveAt(ys: seq<Group>, i: nat)
    requires i < |ys|
    ensures multiset(ys) == multiset(ys[..i] + ys[i + 1..]) + multiset{ys[i]}
  {
    assert ys == ys[..i] + [ys[i]] + ys[i + 1..];
  }

  lemma CancelSame(a: multiset<Group>, b: multiset<Group>, c: multiset<Group>)
    requires a + c == b + c
    ensures a == b
  {
    assert a == a + c - c == b + c - c == b;
  }

  /** The same group is somewhere in any arrangement; without it the rests are arrangements too. */
  lemma FindFirst(xs: seq<Group>, ys: seq<Group>) returns (i: nat)
    requires xs != [] && multiset(xs) == multiset(ys)
    ensures i < |ys| && ys[i] == xs[0]
    ensures multiset(xs[1..]) == multiset(ys[..i] + ys[i + 1..])
  {
    assert xs[0] in multiset(xs);
    i :| 0 <= i < |ys| && ys[i] == xs[0];
    RemoveAt(ys, i);
    assert xs == [xs[0]] + xs[1..];
    assert multiset(xs) == multiset(xs[1..]) + multiset{xs[0]};
    CancelSame(multiset(xs[1..]), multiset(ys[..i] + ys[i + 1..]), multiset{xs[0]});
  }

  lemma {:induction false} SumOfPermutation(xs: seq<Group>, ys: seq<Group>)
    requires multiset(xs) == multiset(ys)
    ensures SumGroups(xs) == SumGroups(ys)
    decreases |xs|
  {
    if xs == [] {
      assert |multiset(ys)| == 0;
    } else {
      var i := FindFirst(xs, ys);
      SumOfPermutation(xs[1..], ys[..i] + ys[i + 1..]);
      SumWithout(ys, i);
    }
  }

  lemma {:induction false} SumWithout(ys: seq<Group>, i: nat)
    requires i < |ys|
    ensures var rest := SumGroups(ys[..i] + ys[i + 1..]);
            SumGroups(ys) == Amount(rest.count + ys[i].count, rest.seconds + ys[i].seconds)
  {
    if i == 0 {
      assert ys[..0] + ys[1..] == ys[1..];
    } else {
      SumWithout(ys[1..], i - 1);
      assert (ys[..i] + ys[i + 1..])[1..] == ys[1..][..i - 1] + ys[1..][i..];
    }
  }
}
