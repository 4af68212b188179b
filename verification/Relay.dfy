/** The full-duplex relay between two sockets: it forwards what it reads on each side, passes a FIN
    on as a write shutdown, and gives up on both sides when a send fails. */
module Relay {
  import opened Text
  import opened Bytes

  /** One side's history: bytes read from it, bytes it accepted, and write shutdowns issued to it. */
  datatype Side = Side(received: seq<byte>, delivered: seq<byte>, shutdowns: nat)

  /** A readable socket: the chunk one receive returns (empty at the end of the stream or on error)
      and what the sends of that chunk return, in order; when they run out the rest is accepted. */
  datatype Ready = Ready(chunk: seq<byte>, sends: seq<int>)

  /** One round of select: a timeout or an error, or the sockets that are readable. */
  datatype Round = Stop | Turn(a: Option<Ready>, b: Option<Ready>)

  datatype State = State(a: Side, b: Side, aOpen: bool, bOpen: bool, failed: bool, stopped: bool)

  /** How many of n bytes the sends accept before one fails. */
  function Accepted(n: nat, sends: seq<int>): (k: nat)
    ensures k <= n
    decreases |sends|
  {
    if n == 0 then 0
    else if sends == [] then n
    else if sends[0] <= 0 then 0
    else if sends[0] >= n then n
    else sends[0] + Accepted(n - sends[0], sends[1..])
  }

  predicate Sent(r: Ready) {
    Accepted(|r.chunk|, r.sends) == |r.chunk|
  }

  function Read(src: Side, r: Ready): Side {
    src.(received := src.received + r.chunk)
  }

  function Written(dst: Side, r: Ready): Side {
    if r.chunk == [] then dst.(shutdowns := dst.shutdowns + 1)
    else dst.(delivered := dst.delivered + r.chunk[..Accepted(|r.chunk|, r.sends)])
  }

  function FromA(s: State, r: Ready): State {
    if r.chunk == [] then s.(b := Written(s.b, r), aOpen := false)
    else if Sent(r) then s.(a := Read(s.a, r), b := Written(s.b, r))
    else s.(a := Read(s.a, r), b := Written(s.b, r), aOpen := false, bOpen := false, failed := true)
  }

  function FromB(s: State, r: Ready): State {
    if r.chunk == [] then s.(a := Written(s.a, r), bOpen := false)
    else if Sent(r) then s.(b := Read(s.b, r), a := Written(s.a, r))
    else s.(b := Read(s.b, r), a := Written(s.a, r), aOpen := false, bOpen := false, failed := true)
  }

  function Step(s: State, round: Round): State {
    if s.stopped || (!s.aOpen && !s.bOpen) then s else
    match round
    case Stop => s.(stopped := true)
    case Turn(ra, rb) =>
      var s1 := if s.aOpen && ra.Some? then FromA(s, ra.value) else s;
      if s1.bOpen && rb.Some? then FromB(s1, rb.value) else s1
  }

  function Run(s: State, rounds: seq<Round>): State
    decreases |rounds|
  {
    if rounds == [] then s else Run(Step(s, rounds[0]), rounds[1..])
  }

  const START := State(Side([], [], 0), Side([], [], 0), true, true, false, false)

  // ---- the loop ----

  class Socket {
    var received: seq<byte>
    var delivered: seq<byte>
    var shutdowns: nat

    constructor ()
      ensures View() == Side([], [], 0)
    {
      received, delivered, shutdowns := [], [], 0;
    }

    function View(): Side
      reads this
    {
      Side(received, delivered, shutdowns)
    }

    method Shutdown()
      modifies this
      ensures View() == old(View()).(shutdowns := old(shutdowns) + 1)
    {
      shutdowns := shutdowns + 1;
    }
  }

  /** The inner loop: sends the chunk piece by piece until all of it is accepted or a send fails. */
  method SendAll(dst: Socket, chunk: seq<byte>, sends: seq<int>) returns (ok: bool)
    modifies dst
    ensures dst.View() == old(dst.View()).(delivered := old(dst.delivered) + chunk[..Accepted(|chunk|, sends)])
    ensures ok <==> Accepted(|chunk|, sends) == |chunk|
  {
    var sent, i := 0, 0;
    while sent < |chunk|
      invariant 0 <= sent <= |chunk| && 0 <= i <= |sends|
      invariant sent + Accepted(|chunk| - sent, sends[i..]) == Accepted(|chunk|, sends)
      invariant dst.delivered == old(dst.delivered) + chunk[..sent]
      invariant dst.received == old(dst.received) && dst.shutdowns == old(dst.shutdowns)
      decreases |chunk| - sent
    {
      var w := if i == |sends| || sends[i] > |chunk| - sent then |chunk| - sent else sends[i];
      if w <= 0 { return false; }
      if i < |sends| {
        assert sends[i..][1..] == sends[i + 1..];
        i := i + 1;
      }
      dst.delivered := dst.delivered + chunk[sent..sent + w];
      assert chunk[..sent] + chunk[sent..sent + w] == chunk[..sent + w];
      sent := sent + w;
    }
    return true;
  }

  method RelayLoop(a: Socket, b: Socket, rounds: seq<Round>) returns (end: State)
    requires a != b
    modifies a, b
    ensures end == Run(State(old(a.View()), old(b.View()), true, true, false, false), rounds)
    ensures end.a == a.View() && end.b == b.View()
  {
    var aOpen, bOpen, failed, i := true, true, false, 0;
    ghost var start := State(a.View(), b.View(), true, true, false, false);
    while (aOpen || bOpen) && i < |rounds|
      invariant 0 <= i <= |rounds|
      invariant Run(State(a.View(), b.View(), aOpen, bOpen, failed, false), rounds[i..]) == Run(start, rounds)
    {
      assert rounds[i..][1..] == rounds[i + 1..];
      var round := rounds[i];
      i := i + 1;
      if round.Stop? {
        end := State(a.View(), b.View(), aOpen, bOpen, failed, true);
        RunAfterEnd(end, rounds[i..]);
        return;
      }
      if aOpen && round.a.Some? {
        var r := round.a.value;
        if r.chunk == [] {
          b.Shutdown();
          aOpen := false;
        } else {
          a.received := a.received + r.chunk;
          var ok := SendAll(b, r.chunk, r.sends);
          if !ok { aOpen, bOpen, failed := false, false, true; }
        }
      }
      if bOpen && round.b.Some? {
        var r := round.b.value;
        if r.chunk == [] {
          a.Shutdown();
          bOpen := false;
        } else {
          b.received := b.received + r.chunk;
          var ok := SendAll(a, r.chunk, r.sends);
          if !ok { aOpen, bOpen, failed := false, false, true; }
        }
      }
    }
    end := State(a.View(), b.View(), aOpen, bOpen, failed, false);
    if i < |rounds| {
      RunAfterEnd(end, rounds[i..]);
    } else {
      assert rounds[i..] == [];
    }
  }

  lemma {:induction false} RunAfterEnd(s: State, rounds: seq<Round>)
    requires s.stopped || (!s.aOpen && !s.bOpen)
    ensures Run(s, rounds) == s
    decreases |rounds|
  {
    if rounds != [] { RunAfterEnd(s, rounds[1..]); }
  }

  // ---- conservation ----

  /** Between two rounds: unless a send failed, everything read on one side was delivered to the
      other, and a side that stopped reading has shut the other down exactly once. */
  ghost predicate Inv(s: State) {
    && s.b.delivered <= s.a.received && s.a.delivered <= s.b.received
    && s.b.shutdowns <= 1 && s.a.shutdowns <= 1
    && (s.failed ==> !s.aOpen && !s.bOpen)
    && (s.aOpen ==> s.b.shutdowns == 0)
    && (s.bOpen ==> s.a.shutdowns == 0)
    && (!s.failed ==>
          && s.b.delivered == s.a.received && s.a.delivered == s.b.received
          && (!s.aOpen ==> s.b.shutdowns == 1)
          && (!s.bOpen ==> s.a.shutdowns == 1))
  }

  lemma FromAKeeps(s: State, r: Ready)
    requires Inv(s) && s.aOpen
    ensures Inv(FromA(s, r))
  {
    var k := Accepted(|r.chunk|, r.sends);
    assert r.chunk[..k] <= r.chunk && r.chunk[..|r.chunk|] == r.chunk;
  }

  lemma FromBKeeps(s: State, r: Ready)
    requires Inv(s) && s.bOpen
    ensures Inv(FromB(s, r))
  {
    var k := Accepted(|r.chunk|, r.sends);
    assert r.chunk[..k] <= r.chunk && r.chunk[..|r.chunk|] == r.chunk;
  }

  lemma {:induction false} RunKeeps(s: State, rounds: seq<Round>)
    requires Inv(s)
    ensures Inv(Run(s, rounds))
    decreases |rounds|
  {
    if rounds != [] {
      var round := rounds[0];
      if round.Turn? {
        if s.aOpen && round.a.Some? { FromAKeeps(s, round.a.value); }
        var s1 := if s.aOpen && round.a.Some? then FromA(s, round.a.value) else s;
        if s1.bOpen && round.b.Some? { FromBKeeps(s1, round.b.value); }
      }
      RunKeeps(Step(s, round), rounds[1..]);
    }
  }

  /** Conservation: in every run, with arbitrary partial sends, failures and half-closes, what each
      side was given is a prefix of what was read from the other; while one direction is closed and
      the other open, the closed one delivered everything and its shutdown was issued exactly once. */
  lemma {:induction false} RelayConserves(rounds: seq<Round>)
    ensures var s := Run(START, rounds);
            && s.b.delivered <= s.a.received && s.a.delivered <= s.b.received
            && (!s.aOpen && s.bOpen ==> s.b.delivered == s.a.received && s.b.shutdowns == 1 && s.a.shutdowns == 0)
            && (s.aOpen && !s.bOpen ==> s.a.delivered == s.b.received && s.a.shutdowns == 1 && s.b.shutdowns == 0)
    ensures var s := Run(START, rounds);
            !s.failed ==> s.b.delivered == s.a.received && s.a.delivered == s.b.received
    ensures var s := Run(START, rounds);
            !s.failed && !s.aOpen && !s.bOpen ==> s.a.shutdowns == 1 && s.b.shutdowns == 1
  {
    RunKeeps(START, rounds);
  }

  // ---- partial sends do not show ----

  /** Every send accepts something. */
  predicate Progress(r: Option<Ready>) {
    r.Some? ==> forall i :: 0 <= i < |r.value.sends| ==> r.value.sends[i] > 0
  }

  predicate AllProgress(rounds: seq<Round>) {
    forall r <- rounds :: r.Turn? ==> Progress(r.a) && Progress(r.b)
  }

  function WholeReady(r: Option<Ready>): Option<Ready> {
    if r.Some? then Some(Ready(r.value.chunk, [])) else None
  }

  /** The same rounds with each chunk accepted by one send. */
  function WholeSends(rounds: seq<Round>): seq<Round> {
    if rounds == [] then [] else
    [match rounds[0] case Stop => Stop case Turn(a, b) => Turn(WholeReady(a), WholeReady(b))]
    + WholeSends(rounds[1..])
  }

  lemma {:induction false} ProgressSendsAll(n: nat, sends: seq<int>)
    requires forall i :: 0 <= i < |sends| ==> sends[i] > 0
    ensures Accepted(n, sends) == n
    decreases |sends|
  {
    if n > 0 && sends != [] && sends[0] < n { ProgressSendsAll(n - sends[0], sends[1..]); }
  }

  lemma WholeReadySame(s: State, r: Option<Ready>)
    requires r.Some? && Progress(r)
    ensures FromA(s, r.value) == FromA(s, WholeReady(r).value)
    ensures FromB(s, r.value) == FromB(s, WholeReady(r).value)
  {
    ProgressSendsAll(|r.value.chunk|, r.value.sends);
  }

  /** How the sends split the chunks never matters: as long as each send accepts something, the run
      ends in the same state as with one send per chunk. */
  lemma {:induction false} PartialSendsInvisible(s: State, rounds: seq<Round>)
    requires AllProgress(rounds)
    ensures Run(s, rounds) == Run(s, WholeSends(rounds))
    decreases |rounds|
  {
    if rounds != [] {
      var round, whole := rounds[0], WholeSends(rounds)[0];
      assert round in rounds;
      assert WholeSends(rounds)[1..] == WholeSends(rounds[1..]);
      if round.Turn? {
        if round.a.Some? { WholeReadySame(s, round.a); }
        var s1 := if s.aOpen && round.a.Some? then FromA(s, round.a.value) else s;
        if round.b.Some? { WholeReadySame(s1, round.b); }
      }
      PartialSendsInvisible(Step(s, round), rounds[1..]);
    }
  }

  // ---- a send that fails ----

  /** How many bytes these sends accept together. */
  function Sum(ws: seq<int>): int {
    if ws == [] then 0 else ws[0] + Sum(ws[1..])
  }

  predicate AllPositive(ws: seq<int>) {
    forall i :: 0 <= i < |ws| ==> ws[i] > 0
  }

  lemma {:induction false} SumNotNegative(ws: seq<int>)
    requires AllPositive(ws)
    ensures Sum(ws) >= 0
  {
    if ws != [] { SumNotNegative(ws[1..]); }
  }

  /** Sends that accept something but not everything, and then one that fails: what was accepted before
      the failure is their sum, whatever would have come after. */
  lemma {:induction false} AcceptedBeforeFailure(n: nat, good: seq<int>, w: int, rest: seq<int>)
    requires AllPositive(good) && Sum(good) < n && w <= 0
    ensures Accepted(n, good + [w] + rest) == Sum(good)
    decreases |good|
  {
    var sends := good + [w] + rest;
    if good == [] {
      assert sends[0] == w;
    } else {
      assert sends[0] == good[0] && sends[1..] == good[1..] + [w] + rest;
      SumNotNegative(good[1..]);
      AcceptedBeforeFailure(n - good[0], good[1..], w, rest);
    }
  }

  /** Once the chunk is accepted, no later send is made: a failure behind it is not noticed. */
  lemma {:induction false} AcceptedInFull(n: nat, good: seq<int>, rest: seq<int>)
    requires AllPositive(good) && Sum(good) >= n
    ensures Accepted(n, good + rest) == n
    decreases |good|
  {
    var sends := good + rest;
    if good != [] && n > 0 && good[0] < n {
      assert sends[0] == good[0] && sends[1..] == good[1..] + rest;
      AcceptedInFull(n - good[0], good[1..], rest);
    }
  }

  /** A round serves side a first, and side b in the state that this leaves. */
  lemma OneSideAfterTheOther(s: State, ra: Option<Ready>, rb: Option<Ready>)
    ensures Step(s, Turn(ra, rb)) == Step(Step(s, Turn(ra, None)), Turn(None, rb))
  {
  }

  /** A failing send ends the relay: the round that reads the chunk delivers exactly what was accepted
      before the failure, closes both directions without a shutdown, reads nothing from the other side,
      and no later round changes either side. */
  lemma {:induction false} FailureFromA(
      s: State, chunk: seq<byte>, good: seq<int>, w: int, rest: seq<int>, rb: Option<Ready>, later: seq<Round>)
    requires !s.stopped && s.aOpen && AllPositive(good) && Sum(good) < |chunk| && w <= 0
    ensures var k := Sum(good);
            var end := Step(s, Turn(Some(Ready(chunk, good + [w] + rest)), rb));
            && 0 <= k < |chunk|
            && end.a == Side(s.a.received + chunk, s.a.delivered, s.a.shutdowns)
            && end.b == Side(s.b.received, s.b.delivered + chunk[..k], s.b.shutdowns)
            && !end.aOpen && !end.bOpen
            && Run(end, later) == end
  {
    hide Run;
    SumNotNegative(good);
    AcceptedBeforeFailure(|chunk|, good, w, rest);
    RunAfterEnd(Step(s, Turn(Some(Ready(chunk, good + [w] + rest)), rb)), later);
  }

  lemma {:induction false} FailureFromB(
      s: State, chunk: seq<byte>, good: seq<int>, w: int, rest: seq<int>, later: seq<Round>)
    requires !s.stopped && s.bOpen && AllPositive(good) && Sum(good) < |chunk| && w <= 0
    ensures var k := Sum(good);
            var end := Step(s, Turn(None, Some(Ready(chunk, good + [w] + rest))));
            && 0 <= k < |chunk|
            && end.b == Side(s.b.received + chunk, s.b.delivered, s.b.shutdowns)
            && end.a == Side(s.a.received, s.a.delivered + chunk[..k], s.a.shutdowns)
            && !end.aOpen && !end.bOpen
            && Run(end, later) == end
  {
    hide Run;
    SumNotNegative(good);
    AcceptedBeforeFailure(|chunk|, good, w, rest);
    RunAfterEnd(Step(s, Turn(None, Some(Ready(chunk, good + [w] + rest)))), later);
  }

  /** A timeout or an error of select stops the relay where it is. */
  lemma {:induction false} StopEndsRelay(s: State, later: seq<Round>)
    ensures var end := Run(s, [Stop] + later);
            end.a == s.a && end.b == s.b && end.aOpen == s.aOpen && end.bOpen == s.bOpen
  {
    assert ([Stop] + later)[1..] == later;
    RunAfterEnd(Step(s, Stop), later);
  }

  // ---- what is read ----

  /** What a direction forwards, round by round, until its stream ends: the bytes of side a. */
  function StreamA(rounds: seq<Round>): seq<byte> {
    if rounds == [] || rounds[0].Stop? then []
    else if rounds[0].a.None? then StreamA(rounds[1..])
    else if rounds[0].a.value.chunk == [] then []
    else rounds[0].a.value.chunk + StreamA(rounds[1..])
  }

  function StreamB(rounds: seq<Round>): seq<byte> {
    if rounds == [] || rounds[0].Stop? then []
    else if rounds[0].b.None? then StreamB(rounds[1..])
    else if rounds[0].b.value.chunk == [] then []
    else rounds[0].b.value.chunk + StreamB(rounds[1..])
  }

  /** What a chunk adds to a direction's stream. */
  function StreamOf(chunk: Option<Ready>, rest: seq<byte>): seq<byte> {
    if chunk.None? then rest else if chunk.value.chunk == [] then [] else chunk.value.chunk + rest
  }

  ghost predicate Forwards(s: State, e: State, rounds: seq<Round>) {
    && !e.failed
    && e.b.delivered == s.b.delivered + (if s.aOpen then StreamA(rounds) else [])
    && e.a.delivered == s.a.delivered + (if s.bOpen then StreamB(rounds) else [])
  }

  lemma RoundForwards(s: State, m: State, e: State, rounds: seq<Round>)
    requires rounds != [] && rounds[0].Turn? && m == Step(s, rounds[0])
    requires !s.failed && !s.stopped && (s.aOpen || s.bOpen) && Progress(rounds[0].a) && Progress(rounds[0].b)
    requires Forwards(m, e, rounds[1..])
    ensures Forwards(s, e, rounds)
  {
    hide Step, Progress;
    var ra, rb := rounds[0].a, rounds[0].b;
    StepForwards(s, rounds[0]);
    var restA, restB := StreamA(rounds[1..]), StreamB(rounds[1..]);
    assert StreamA(rounds) == StreamOf(ra, restA) && StreamB(rounds) == StreamOf(rb, restB);
    Regroup(s.b.delivered, if s.aOpen && ra.Some? then ra.value.chunk else [], if m.aOpen then restA else []);
    Regroup(s.a.delivered, if s.bOpen && rb.Some? then rb.value.chunk else [], if m.bOpen then restB else []);
  }

  lemma Regroup(x: seq<byte>, y: seq<byte>, z: seq<byte>)
    ensures x + y + z == x + (y + z)
    ensures [] + z == z && y + [] == y && x + [] == x
  {
  }

  lemma {:induction false} StreamsForwarded(s: State, rounds: seq<Round>)
    requires !s.failed && !s.stopped && AllProgress(rounds)
    ensures Forwards(s, Run(s, rounds), rounds)
    decreases |rounds|
  {
    if rounds == [] || (!s.aOpen && !s.bOpen) {
      NothingLeft(s, rounds);
    } else {
      var round := rounds[0];
      assert round in rounds;
      if round.Stop? {
        RunAfterEnd(Step(s, round), rounds[1..]);
      } else {
        StepForwards(s, round);
        StreamsForwarded(Step(s, round), rounds[1..]);
        RoundForwards(s, Step(s, round), Run(s, rounds), rounds);
      }
    }
  }

  lemma NothingLeft(s: State, rounds: seq<Round>)
    requires rounds == [] || (!s.aOpen && !s.bOpen)
    ensures Run(s, rounds) == s
    ensures !s.failed ==> Forwards(s, s, rounds)
  {
    if rounds != [] { RunAfterEnd(s, rounds); }
  }

  lemma StepForwards(s: State, round: Round)
    requires !s.failed && !s.stopped && (s.aOpen || s.bOpen) && round.Turn? && Progress(round.a) && Progress(round.b)
    ensures var e := Step(s, round);
            && !e.failed && !e.stopped
            && e.b.delivered == s.b.delivered + (if s.aOpen && round.a.Some? then round.a.value.chunk else [])
            && e.a.delivered == s.a.delivered + (if s.bOpen && round.b.Some? then round.b.value.chunk else [])
            && (e.aOpen <==> s.aOpen && !(round.a.Some? && round.a.value.chunk == []))
            && (e.bOpen <==> s.bOpen && !(round.b.Some? && round.b.value.chunk == []))
  {
    if round.a.Some? { ProgressSendsAll(|round.a.value.chunk|, round.a.value.sends); }
    if round.b.Some? { ProgressSendsAll(|round.b.value.chunk|, round.b.value.sends); }
  }

  /** When no send fails, each side receives exactly the other's stream up to its end or to the
      moment the relay stopped, and a half-close in one direction never cuts the other short. */
  lemma {:induction false} BothStreamsDelivered(rounds: seq<Round>)
    requires AllProgress(rounds)
    ensures var s := Run(START, rounds);
            s.b.delivered == StreamA(rounds) && s.a.delivered == StreamB(rounds)
  {
    hide Run, StreamA, StreamB, Step;
    StreamsForwarded(START, rounds);
    assert [] + StreamA(rounds) == StreamA(rounds) && [] + StreamB(rounds) == StreamB(rounds);
  }
}
