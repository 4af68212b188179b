/** The proxy's block and throttle tables: string keys "ip:pattern", wildcard patterns, and timed
    entries that queries erase lazily and a cleanup pass sweeps. */
module PolicyTables {
  import opened Text

  /** A table entry; until == 0 means permanent, otherwise Unix seconds. */
  datatype Entry<+T> = Entry(load: T, until: int)

  type Table<T> = map<string, Entry<T>>
  type BlockTable = Table<()>
  type ThrottleTable = Table<int>

  const GLOBAL := "global"

  function Key(ip: string, domain: string): string {
    ip + ":" + domain
  }

  predicate Live<T>(e: Entry<T>, now: int) {
    e.until == 0 || now < e.until
  }

  /** The pattern is "*." followed by at least one character. */
  predicate IsWildcard(pattern: string) {
    |pattern| > 2 && pattern[0] == '*' && pattern[1] == '.'
  }

  /** How a stored pattern covers a domain: literally, or as a wildcard for its subdomains and
      its apex. */
  predicate PatternCovers(pattern: string, domain: string) {
    domain == pattern
    || (IsWildcard(pattern) && (EndsWith(domain, pattern[1..]) || domain == pattern[2..]))
  }

  /** The wildcard branch of a lookup: split the key at its first colon, compare the address part,
      then the pattern part. */
  predicate WildcardHit(key: string, ip: string, domain: string) {
    var colon := Find(key, ":", 0);
    colon.Some?
    && var keyIp, pattern := key[..colon.value], key[colon.value + 1..];
       (keyIp == ip || keyIp == GLOBAL) && IsWildcard(pattern)
       && (EndsWith(domain, pattern[1..]) || domain == pattern[2..])
  }

  predicate Hit(key: string, ip: string, domain: string) {
    key == Key(ip, domain) || key == Key(GLOBAL, domain) || WildcardHit(key, ip, domain)
  }

  /** The readings of the system clock during one operation, by the key of the entry examined: a
      lookup reads the clock anew for each timed entry, and examines no key twice. */
  type Clock = string -> int

  /** The meaning of a block lookup: some entry hits that is live when it is examined. */
  ghost predicate BlockedBy(t: BlockTable, ip: string, domain: string, clock: Clock) {
    exists k :: k in t && Live(t[k], clock(k)) && Hit(k, ip, domain)
  }

  /** The meaning of a block lookup at one instant: some live entry hits. */
  ghost predicate Blocked(t: BlockTable, ip: string, domain: string, now: int) {
    exists k :: k in t && Live(t[k], now) && Hit(k, ip, domain)
  }

  function ThrottleMs(t: ThrottleTable, ip: string, domain: string, now: int): int {
    if Key(ip, domain) in t && Live(t[Key(ip, domain)], now) then t[Key(ip, domain)].load else 0
  }

  /** An expired entry under the key is erased. */
  function Probe<T>(t: Table<T>, key: string, now: int): Table<T> {
    if key in t && !Live(t[key], now) then t - {key} else t
  }

  /** What a block lookup leaves behind. */
  function AfterLookup(t: BlockTable, ip: string, domain: string, clock: Clock): BlockTable {
    var t1 := Probe(t, Key(ip, domain), clock(Key(ip, domain)));
    if Key(ip, domain) in t1 then t1 else Probe(t1, Key(GLOBAL, domain), clock(Key(GLOBAL, domain)))
  }

  /** A withdrawal of (ip, pattern) removes this key: for a wildcard, every key under that address
      that ends with the suffix; otherwise the key itself. */
  predicate Withdrawn(ip: string, pattern: string, key: string) {
    if IsWildcard(pattern) then
      StartsWith(key, ip + ":") && EndsWith(key[|ip| + 1..], pattern[1..])
    else key == Key(ip, pattern)
  }

  function Withdraw<T>(t: Table<T>, ip: string, pattern: string): Table<T> {
    map k | k in t && !Withdrawn(ip, pattern, k) :: t[k]
  }

  function Purge<T>(t: Table<T>, now: int): Table<T> {
    map k | k in t && Live(t[k], now) :: t[k]
  }

  lemma FirstColon(ip: string, pattern: string)
    requires ':' !in ip
    ensures Find(Key(ip, pattern), ":", 0) == Some(|ip|)
    ensures Key(ip, pattern)[..|ip|] == ip && Key(ip, pattern)[|ip| + 1..] == pattern
  {
    var key := Key(ip, pattern);
    forall i: nat | i < |ip| ensures !At(key, ":", i) {
      assert key[i] == ip[i];
      AtIff(key, ":", i);
    }
    assert key[|ip|..|ip| + 1] == ":";
    FindIs(key, ":", 0, |ip|);
  }

  /** A key of a colon-free address hits exactly when the address is the queried one or everyone,
      and its pattern covers the domain. */
  lemma {:induction false} HitIff(keyIp: string, pattern: string, ip: string, domain: string)
    requires ':' !in keyIp && ':' !in ip
    ensures Hit(Key(keyIp, pattern), ip, domain)
       <==> (keyIp == ip || keyIp == "global") && PatternCovers(pattern, domain)
  {
    FirstColon(keyIp, pattern);
    FirstColon(ip, domain);
    FirstColon(GLOBAL, domain);
  }

  /** A lookup that takes its time answers between the instants of its first and last reading: what is
      blocked at the last one is reported, and what is reported was blocked at the first. */
  lemma LookupWithinReadings(t: BlockTable, ip: string, domain: string, clock: Clock, first: int, last: int)
    requires forall k <- t :: first <= clock(k) <= last
    ensures Blocked(t, ip, domain, last) ==> BlockedBy(t, ip, domain, clock)
    ensures BlockedBy(t, ip, domain, clock) ==> Blocked(t, ip, domain, first)
  {
    hide Hit;
    if Blocked(t, ip, domain, last) {
      var k :| k in t && Live(t[k], last) && Hit(k, ip, domain);
      assert Live(t[k], clock(k));
    }
  }

  lemma HitHasColon(key: string, ip: string, domain: string)
    requires Hit(key, ip, domain)
    ensures ':' in key
  {
    if key == Key(ip, domain) {
      assert key[|ip|] == ':';
    } else if key == Key(GLOBAL, domain) {
      assert key[|GLOBAL|] == ':';
    } else {
      var i := Find(key, ":", 0).value;
      assert key[i..i + 1][0] == ':';
    }
  }

  /** What a withdrawal erases among the patterns stored for its address. */
  predicate Erases(pattern: string, stored: string) {
    if IsWildcard(pattern) then EndsWith(stored, pattern[1..]) else stored == pattern
  }

  /** A withdrawal touches the keys of its own address only, and among them exactly the patterns it
      erases. */
  lemma {:induction false} WithdrawnIff(ip: string, pattern: string, keyIp: string, stored: string)
    requires ':' !in ip && ':' !in keyIp
    ensures Withdrawn(ip, pattern, Key(keyIp, stored)) <==> keyIp == ip && Erases(pattern, stored)
  {
    var key := Key(keyIp, stored);
    FirstColon(keyIp, stored);
    if StartsWith(key, ip + ":") {
      assert key == Key(ip, key[|ip| + 1..]);
      FirstColon(ip, key[|ip| + 1..]);
    }
    if keyIp == ip { assert key[..|ip| + 1] == ip + ":"; }
    FirstColon(ip, pattern);
  }

  lemma KeySplits(key: string) returns (ip: string, pattern: string)
    requires ':' in key
    ensures ':' !in ip && key == Key(ip, pattern)
  {
    var i :| 0 <= i < |key| && key[i] == ':' && ':' !in key[..i] by { FirstIndex(key, ':'); }
    ip, pattern := key[..i], key[i + 1..];
  }

  lemma {:induction false} FirstIndex(s: string, c: char)
    requires c in s
    ensures exists i :: 0 <= i < |s| && s[i] == c && c !in s[..i]
  {
    if s[0] == c {
      assert c !in s[..0];
    } else {
      FirstIndex(s[1..], c);
      var i :| 0 <= i < |s[1..]| && s[1..][i] == c && c !in s[1..][..i];
      assert s[..i + 1] == [s[0]] + s[1..][..i];
      assert s[i + 1] == c && c !in s[..i + 1];
    }
  }

  /** The entry stored for an address and a pattern is live, concerns the lookup, and is not one that
      the withdrawal erases. */
  ghost predicate Remains(t: BlockTable, keyIp: string, stored: string, ip: string, pattern: string,
                          asked: string, domain: string, now: int) {
    && ':' !in keyIp && Key(keyIp, stored) in t && Live(t[Key(keyIp, stored)], now)
    && (keyIp == asked || keyIp == GLOBAL) && PatternCovers(stored, domain)
    && !(keyIp == ip && Erases(pattern, stored))
  }

  /** What a withdrawal means for lookups: afterwards a domain is blocked for an address exactly when
      an entry for that address or for everyone covers it and was not erased. A wildcard withdrawal
      thus also erases narrower entries of other rules, but neither the entry of the bare domain nor
      a broader wildcard. */
  lemma {:induction false} WithdrawalMeans(
        t: BlockTable, ip: string, pattern: string, asked: string, domain: string, now: int)
    requires ':' !in ip && ':' !in asked && forall k <- t :: ':' in k
    ensures Blocked(Withdraw(t, ip, pattern), asked, domain, now)
       <==> exists keyIp, stored :: Remains(t, keyIp, stored, ip, pattern, asked, domain, now)
  {
    hide Hit, Withdrawn, Erases, PatternCovers;
    var r := Withdraw(t, ip, pattern);
    if Blocked(r, asked, domain, now) {
      var k :| k in r && Live(r[k], now) && Hit(k, asked, domain);
      var keyIp, stored := KeySplits(k);
      HitIff(keyIp, stored, asked, domain);
      WithdrawnIff(ip, pattern, keyIp, stored);
      assert Remains(t, keyIp, stored, ip, pattern, asked, domain, now);
    }
    if keyIp, stored :| Remains(t, keyIp, stored, ip, pattern, asked, domain, now) {
      HitIff(keyIp, stored, asked, domain);
      WithdrawnIff(ip, pattern, keyIp, stored);
      assert Key(keyIp, stored) in r;
    }
  }

  /** Collects the keys a wildcard withdrawal erases, then erases them. */
  method EraseMatching<T>(t: Table<T>, ip: string, pattern: string) returns (r: Table<T>)
    requires IsWildcard(pattern)
    ensures r == Withdraw(t, ip, pattern)
  {
    var suffix, prefix := pattern[1..], ip + ":";
    var toErase: set<string> := {};
    var rest := t.Keys;
    while rest != {}
      invariant rest <= t.Keys
      invariant forall k :: k in toErase <==> k in t && k !in rest && Withdrawn(ip, pattern, k)
    {
      var k :| k in rest;
      rest := rest - {k};
      if StartsWith(k, prefix) {
        var blocked := k[|prefix|..];
        if EndsWith(blocked, suffix) {
          toErase := toErase + {k};
        }
      }
    }
    r := t - toErase;
  }

  /** The cleanup sweep over one table. */
  method Sweep<T>(t: Table<T>, now: int) returns (r: Table<T>)
    ensures r == Purge(t, now)
  {
    r := t;
    var rest := t.Keys;
    while rest != {}
      invariant rest <= t.Keys
      invariant r == map k | k in t && (k in rest || Live(t[k], now)) :: t[k]
    {
      var k :| k in rest;
      rest := rest - {k};
      if t[k].until != 0 && now >= t[k].until {
        r := r - {k};
      }
    }
  }

  class PolicyStore {
    var blocks: BlockTable
    var throttles: ThrottleTable

    constructor ()
      ensures blocks == map[] && throttles == map[]
    {
      blocks, throttles := map[], map[];
    }

    /** One keyed lookup, erasing the entry when it has expired. */
    method Check(key: string, clock: Clock) returns (hit: bool)
      modifies this`blocks
      ensures hit == (key in old(blocks) && Live(old(blocks)[key], clock(key)))
      ensures blocks == Probe(old(blocks), key, clock(key))
    {
      if key !in blocks { return false; }
      if blocks[key].until == 0 { return true; }
      if clock(key) >= blocks[key].until {
        blocks := blocks - {key};
        return false;
      }
      return true;
    }

    /** The scan over the wildcard patterns of the address and of the global scope. */
    method ScanWildcards(ip: string, domain: string, clock: Clock) returns (b: bool)
      ensures b <==> exists k :: k in blocks && Live(blocks[k], clock(k)) && WildcardHit(k, ip, domain)
    {
      var rest := blocks.Keys;
      while rest != {}
        invariant rest <= blocks.Keys
        invariant forall k :: k in blocks && k !in rest && Live(blocks[k], clock(k)) ==> !WildcardHit(k, ip, domain)
      {
        var key :| key in rest;
        rest := rest - {key};
        var colon := Find(key, ":", 0);
        if colon.None? { continue; }
        var keyIp, pattern := key[..colon.value], key[colon.value + 1..];
        if keyIp != ip && keyIp != GLOBAL { continue; }
        if |pattern| < 3 || pattern[0] != '*' || pattern[1] != '.' { continue; }
        var suffix, apex := pattern[1..], pattern[2..];
        if EndsWith(domain, suffix) || domain == apex {
          if blocks[key].until == 0 { return true; }
          if clock(key) < blocks[key].until { return true; }
        }
      }
      return false;
    }

    method IsBlocked(ip: string, domain: string, clock: Clock) returns (b: bool)
      modifies this`blocks
      ensures b <==> BlockedBy(old(blocks), ip, domain, clock)
      ensures blocks == AfterLookup(old(blocks), ip, domain, clock)
    {
      ghost var before := blocks;
      b := Check(Key(ip, domain), clock);
      if b { assert Hit(Key(ip, domain), ip, domain); return; }
      b := Check(Key(GLOBAL, domain), clock);
      if b { assert Hit(Key(GLOBAL, domain), ip, domain); return; }
      assert forall k :: k in before && Live(before[k], clock(k)) && Hit(k, ip, domain)
                    <==> k in blocks && Live(blocks[k], clock(k)) && WildcardHit(k, ip, domain);
      b := ScanWildcards(ip, domain, clock);
    }

    method GetThrottleMs(ip: string, domain: string, now: int) returns (ms: int)
      modifies this`throttles
      ensures ms == ThrottleMs(old(throttles), ip, domain, now)
      ensures throttles == Probe(old(throttles), Key(ip, domain), now)
    {
      var key := Key(ip, domain);
      if key !in throttles { return 0; }
      if throttles[key].until != 0 && now >= throttles[key].until {
        throttles := throttles - {key};
        return 0;
      }
      return throttles[key].load;
    }

    method AddBlock(ip: string, domain: string, until: int)
      modifies this`blocks
      ensures blocks == old(blocks)[Key(ip, domain) := Entry((), until)]
    {
      blocks := blocks[ip + ":" + domain := Entry((), until)];
    }

    method RemoveBlock(ip: string, domain: string)
      modifies this`blocks
      ensures blocks == Withdraw(old(blocks), ip, domain)
    {
      if IsWildcard(domain) {
        blocks := EraseMatching(blocks, ip, domain);
      } else {
        blocks := blocks - {ip + ":" + domain};
      }
    }

    method AddThrottle(ip: string, domain: string, delayMs: int, until: int)
      modifies this`throttles
      ensures throttles == old(throttles)[Key(ip, domain) := Entry(delayMs, until)]
    {
      throttles := throttles[ip + ":" + domain := Entry(delayMs, until)];
    }

    method RemoveThrottle(ip: string, domain: string)
      modifies this`throttles
      ensures throttles == Withdraw(old(throttles), ip, domain)
    {
      if IsWildcard(domain) {
        throttles := EraseMatching(throttles, ip, domain);
      } else {
        throttles := throttles - {ip + ":" + domain};
      }
    }

    /** The first half of the cleanup. */
    method SweepBlocks(now: int)
      modifies this`blocks
      ensures blocks == Purge(old(blocks), now)
    {
      blocks := Sweep(blocks, now);
    }

    /** The second half, under its own lock. */
    method SweepThrottles(now: int)
      modifies this`throttles
      ensures throttles == Purge(old(throttles), now)
    {
      throttles := Sweep(throttles, now);
    }

    /** Each table is swept at its own reading of the clock. */
    method CleanupExpired(now: int, later: int)
      modifies this
      ensures blocks == Purge(old(blocks), now) && throttles == Purge(old(throttles), later)
    {
      SweepBlocks(now);
      SweepThrottles(later);
    }
  }
}
