/** Session-time accounting of a client: per domain, the seconds between events that are at most
    five minutes apart, in streams whose events may arrive out of order. */
module SessionTime {

  const SESSION_GAP := 300

  datatype Stats = Stats(count: nat, totalSeconds: int, sessionStart: int, last: int)

  function Max(a: int, b: int): int {
    if a < b then b else a
  }

  function Initial(ts: int): Stats {
    Stats(0, 0, ts, ts)
  }

  function Update(s: Stats, ts: int): Stats {
    var gap := ts - s.last;
    var secs := if gap < 0 then 0 else if gap > SESSION_GAP then 0 else gap;
    Stats(s.count + 1, Max(0, s.totalSeconds + secs),
          if gap > SESSION_GAP || gap < 0 then ts else s.sessionStart, Max(s.last, ts))
  }

  function UpdateDomain(domains: map<string, Stats>, domain: string, ts: int): map<string, Stats> {
    var existing := if domain in domains then domains[domain] else Initial(ts);
    domains[domain := Update(existing, ts)]
  }

  /** The statistics after a stream of events on one domain. */
  function Track(es: seq<int>): Stats
    requires es != []
  {
    var n := |es| - 1;
    Update(if n == 0 then Initial(es[0]) else Track(es[..n]), es[n])
  }

  function RunningMax(es: seq<int>): int
    requires es != []
  {
    var n := |es| - 1;
    if n == 0 then es[0] else Max(RunningMax(es[..n]), es[n])
  }

  // ---- the measure ----

  /** Event i raises the running maximum past second t by a short gap. */
  predicate CoversAt(es: seq<int>, i: nat, t: int)
    requires 0 < i < |es|
  {
    RunningMax(es[..i]) <= t < es[i] <= RunningMax(es[..i]) + 300
  }

  /** Second t lies in a gap of at most five minutes between a running maximum and the event that
      raised it. */
  ghost predicate Covered(es: seq<int>, t: int) {
    exists i :: 0 < i < |es| && CoversAt(es, i, t)
  }

  ghost function CoveredSeconds(es: seq<int>): set<int>
    requires es != []
  {
    set t: int | es[0] <= t < RunningMax(es) && Covered(es, t)
  }

  /** The seconds from a up to b. */
  ghost function Interval(a: int, b: int): (r: set<int>)
    ensures forall t :: t in r <==> a <= t < b
    ensures a <= b ==> |r| == b - a
    decreases b - a
  {
    if a >= b then {} else Interval(a, b - 1) + {b - 1}
  }

  lemma {:induction false} TrackIs(es: seq<int>)
    requires es != []
    ensures Track(es).count == |es| && Track(es).last == RunningMax(es)
    ensures es[0] <= RunningMax(es) && Track(es).totalSeconds >= 0
  {
    if |es| > 1 { TrackIs(es[..|es| - 1]); }
  }

  lemma {:induction false} MaxGrows(es: seq<int>, i: nat)
    requires 0 < i <= |es|
    ensures RunningMax(es[..i]) <= RunningMax(es)
    ensures forall j :: 0 <= j < |es| ==> es[j] <= RunningMax(es)
    decreases |es|
  {
    var n := |es| - 1;
    if i == |es| { assert es[..i] == es; }
    if n > 0 {
      MaxGrows(es[..n], if i <= n then i else n);
      if i <= n { assert es[..n][..i] == es[..i]; }
      assert forall j :: 0 <= j < n ==> es[j] == es[..n][j];
    }
  }

  lemma CoveredSnoc(xs: seq<int>, e: int, t: int)
    requires xs != []
    ensures var m := RunningMax(xs);
            Covered(xs + [e], t) <==> Covered(xs, t) || m <= t < e <= m + SESSION_GAP
    ensures Covered(xs, t) ==> t < RunningMax(xs)
  {
    var es, n := xs + [e], |xs|;
    assert es[..n] == xs;
    assert forall i :: 0 < i < n ==> es[..i] == xs[..i];
    assert CoversAt(es, n, t) <==> RunningMax(xs) <= t < e <= RunningMax(xs) + SESSION_GAP;
    assert forall i :: 0 < i < n ==> (CoversAt(es, i, t) <==> CoversAt(xs, i, t));
    if Covered(xs, t) {
      var i :| 0 < i < n && CoversAt(xs, i, t);
      MaxGrows(xs, i);
      assert CoversAt(es, i, t);
    }
  }

  /** The covered seconds grow by the gap the last event closes, if it is in order and short. */
  lemma {:induction false} CoveredStep(xs: seq<int>, e: int)
    requires xs != []
    ensures var m := RunningMax(xs);
            CoveredSeconds(xs + [e]) == CoveredSeconds(xs) + if m <= e <= m + SESSION_GAP then Interval(m, e) else {}
  {
    TrackIs(xs);
    TrackSnoc(xs, e);
    forall t { CoveredSnoc(xs, e, t); }
  }

  /** Session time is a measure: for every stream of events, late ones included, the total is the
      number of covered seconds. */
  lemma {:induction false} TotalIsMeasure(es: seq<int>)
    requires es != []
    ensures Track(es).totalSeconds == |CoveredSeconds(es)|
  {
    if |es| == 1 {
      assert CoveredSeconds(es) == {};
    } else {
      var xs, e := es[..|es| - 1], es[|es| - 1];
      assert es == xs + [e];
      TotalIsMeasure(xs);
      MeasureStep(xs, e);
    }
  }

  lemma MeasureStep(xs: seq<int>, e: int)
    requires xs != [] && Track(xs).totalSeconds == |CoveredSeconds(xs)|
    ensures Track(xs + [e]).totalSeconds == |CoveredSeconds(xs + [e])|
  {
    hide Covered;
    var m := RunningMax(xs);
    TrackIs(xs);
    TrackSnoc(xs, e);
    CoveredStep(xs, e);
    assert CoveredSeconds(xs) !! Interval(m, e);
  }

  /** The total is bounded by the time the stream spans and by five minutes per event. */
  lemma {:induction false} TotalBounds(es: seq<int>)
    requires es != []
    ensures 0 <= Track(es).totalSeconds <= RunningMax(es) - es[0]
    ensures Track(es).totalSeconds <= 300 * (|es| - 1) && Track(es).count == |es|
  {
    TrackIs(es);
    if |es| > 1 {
      TotalBounds(es[..|es| - 1]);
      TrackIs(es[..|es| - 1]);
    }
  }

  // ---- late and inserted events ----

  lemma TrackSnoc(es: seq<int>, e: int)
    requires es != []
    ensures Track(es + [e]) == Update(Track(es), e)
    ensures RunningMax(es + [e]) == Max(RunningMax(es), e)
  {
    assert (es + [e])[..|es|] == es;
  }

  /** An event that is late or repeats the latest time changes neither the total nor what any later
      event adds, wherever in the stream it falls. */
  lemma {:induction false} LateEventChangesNothing(xs: seq<int>, e: int, ys: seq<int>)
    requires xs != [] && e <= RunningMax(xs)
    ensures Track(xs + [e] + ys).totalSeconds == Track(xs + ys).totalSeconds
    ensures Track(xs + [e] + ys).last == Track(xs + ys).last
    decreases |ys|
  {
    TrackIs(xs);
    if ys == [] {
      TrackSnoc(xs, e);
      assert xs + [e] + ys == xs + [e] && xs + ys == xs;
    } else {
      var n := |ys| - 1;
      LateEventChangesNothing(xs, e, ys[..n]);
      TrackSnoc(xs + ys[..n], ys[n]);
      TrackSnoc(xs + [e] + ys[..n], ys[n]);
      assert xs + ys == xs + ys[..n] + [ys[n]];
      assert xs + [e] + ys == xs + [e] + ys[..n] + [ys[n]];
      TrackIs(xs + ys[..n]);
      TrackIs(xs + [e] + ys[..n]);
    }
  }

  /** e falls between the latest event of xs and the next event of ys that is later than it. */
  ghost predicate InOrder(xs: seq<int>, e: int, ys: seq<int>)
    requires xs != []
  {
    RunningMax(xs) <= e
    && forall i :: 0 <= i < |ys| && RunningMax(xs) < ys[i] < e ==> exists j :: 0 <= j < i && ys[j] >= e
  }

  predicate AllUpTo(ys: seq<int>, m: int) {
    forall i :: 0 <= i < |ys| ==> ys[i] <= m
  }

  lemma AllUpToSnoc(ys: seq<int>, y: int, m: int)
    ensures AllUpTo(ys + [y], m) <==> AllUpTo(ys, m) && y <= m
  {
    var zs := ys + [y];
    assert zs[|ys|] == y;
    assert forall i :: 0 <= i < |ys| ==> zs[i] == ys[i];
    if AllUpTo(zs, m) {
      forall i | 0 <= i < |ys| ensures ys[i] <= m { assert zs[i] <= m; }
    }
  }

  /** With the event inserted, the stream is either still waiting for a later event, or level. */
  ghost predicate Ahead(m: int, e: int, ys: seq<int>, plain: Stats, inserted: Stats) {
    if AllUpTo(ys, m) then
      plain.last == m && inserted.last == e
      && inserted.totalSeconds == plain.totalSeconds + if e - m <= SESSION_GAP then e - m else 0
    else plain.last == inserted.last && plain.totalSeconds <= inserted.totalSeconds
  }

  lemma AheadStep(m: int, e: int, ys: seq<int>, y: int, plain: Stats, inserted: Stats)
    requires m <= e && plain.totalSeconds >= 0 && inserted.totalSeconds >= 0
    requires Ahead(m, e, ys, plain, inserted)
    requires AllUpTo(ys, m) && m < y ==> e <= y
    ensures Ahead(m, e, ys + [y], Update(plain, y), Update(inserted, y))
  {
    AllUpToSnoc(ys, y, m);
  }

  lemma InOrderPrefix(xs: seq<int>, e: int, zs: seq<int>, y: int)
    requires xs != [] && InOrder(xs, e, zs + [y])
    ensures InOrder(xs, e, zs)
    ensures AllUpTo(zs, RunningMax(xs)) && RunningMax(xs) < y ==> e <= y
  {
    var ys := zs + [y];
    forall i | 0 <= i < |zs| && RunningMax(xs) < zs[i] < e ensures exists j :: 0 <= j < i && zs[j] >= e {
      assert ys[i] == zs[i];
      var j :| 0 <= j < i && ys[j] >= e;
      assert zs[j] == ys[j];
    }
    assert ys[|zs|] == y;
    assert forall j :: 0 <= j < |zs| ==> ys[j] == zs[j];
  }

  lemma {:induction false} InsertedAhead(xs: seq<int>, e: int, ys: seq<int>)
    requires xs != [] && RunningMax(xs) <= e && InOrder(xs, e, ys)
    ensures Ahead(RunningMax(xs), e, ys, Track(xs + ys), Track(xs + [e] + ys))
    decreases |ys|
  {
    hide Ahead, InOrder, Track, RunningMax;
    if ys == [] {
      InsertedLast(xs, e);
      assert xs + [e] + ys == xs + [e] && xs + ys == xs;
    } else {
      var n := |ys| - 1;
      var zs, y := ys[..n], ys[n];
      assert ys == zs + [y];
      InOrderPrefix(xs, e, zs, y);
      InsertedAhead(xs, e, zs);
      TrackSnoc(xs + zs, y);
      TrackSnoc(xs + [e] + zs, y);
      assert xs + ys == xs + zs + [y] && xs + [e] + ys == xs + [e] + zs + [y];
      TrackIs(xs + zs);
      TrackIs(xs + [e] + zs);
      AheadStep(RunningMax(xs), e, zs, y, Track(xs + zs), Track(xs + [e] + zs));
    }
  }

  lemma InsertedLast(xs: seq<int>, e: int)
    requires xs != [] && RunningMax(xs) <= e
    ensures Ahead(RunningMax(xs), e, [], Track(xs), Track(xs + [e]))
  {
    TrackIs(xs);
    TrackSnoc(xs, e);
  }

  /** Inserting an event in order never lowers the total. */
  lemma {:induction false} InsertingNeverLowers(xs: seq<int>, e: int, ys: seq<int>)
    requires xs != [] && InOrder(xs, e, ys)
    ensures Track(xs + ys).totalSeconds <= Track(xs + [e] + ys).totalSeconds
  {
    InsertedAhead(xs, e, ys);
  }

  // ---- where a session starts ----

  /** Event i starts a session: it is the first one, late, or more than five minutes after the latest. */
  predicate Starts(es: seq<int>, i: nat)
    requires i < |es|
  {
    i == 0 || es[i] < RunningMax(es[..i]) || es[i] > RunningMax(es[..i]) + 300
  }

  /** The session start is the time of the last event that starts one, and the latest time is the
      running maximum. */
  lemma {:induction false} SessionStartIs(es: seq<int>, i: nat)
    requires i < |es| && Starts(es, i) && forall j :: i < j < |es| ==> !Starts(es, j)
    ensures Track(es).sessionStart == es[i] && Track(es).last == RunningMax(es)
    decreases |es|
  {
    TrackIs(es);
    var n := |es| - 1;
    if n > 0 {
      TrackIs(es[..n]);
      assert es == es[..n] + [es[n]];
      if i < n {
        assert !Starts(es, n);
        forall j: nat | j < n ensures Starts(es[..n], j) <==> Starts(es, j) { assert es[..n][..j] == es[..j]; }
        SessionStartIs(es[..n], i);
      }
    }
  }

  // ---- several domains ----

  datatype Event = Event(domain: string, ts: int)

  function TrackAll(events: seq<Event>): map<string, Stats> {
    if events == [] then map[] else
    var n := |events| - 1;
    UpdateDomain(TrackAll(events[..n]), events[n].domain, events[n].ts)
  }

  /** The times of a domain's events. */
  function Times(events: seq<Event>, domain: string): seq<int> {
    if events == [] then [] else
    var n := |events| - 1;
    Times(events[..n], domain) + if events[n].domain == domain then [events[n].ts] else []
  }

  /** Domains do not disturb each other: the map holds, for each domain with an event, the
      statistics of that domain's own events. */
  lemma {:induction false} DomainsIndependent(events: seq<Event>, domain: string)
    ensures domain in TrackAll(events) <==> Times(events, domain) != []
    ensures domain in TrackAll(events) ==> TrackAll(events)[domain] == Track(Times(events, domain))
  {
    hide Track, Update;
    if events != [] {
      var n := |events| - 1;
      var d, ts := events[n].domain, events[n].ts;
      var before := Times(events[..n], domain);
      DomainsIndependent(events[..n], domain);
      if d != domain {
        assert Times(events, domain) == before;
      } else if before != [] {
        TrackSnoc(before, ts);
      } else {
        assert Times(events, domain) == [ts];
        TrackOne(ts);
      }
    }
  }

  lemma TrackOne(ts: int)
    ensures Track([ts]) == Update(Initial(ts), ts)
  {
  }
}
