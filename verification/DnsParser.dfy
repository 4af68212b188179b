/** The queried name of a DNS message: the labels of the first question's QNAME
    (sections 3.1 and 4.1.2 of RFC 1035). */
module DnsParser {
  import opened Text
  import opened Bytes

  const DOT: byte := 46

  /** A name found: its text, and the position of the byte that ended it. */
  datatype Found = Found(domain: seq<byte>, end: nat)

  function DropTrailingDot(domain: seq<byte>): seq<byte> {
    if domain != [] && domain[|domain| - 1] == DOT then domain[..|domain| - 1] else domain
  }

  /** The walk over the labels from pos, with `domain` read so far. */
  function Walk(data: seq<byte>, pos: nat, domain: seq<byte>): (r: Option<Found>)
    ensures r.Some? ==> pos <= r.value.end < |data|
    decreases |data| - pos
  {
    if pos >= |data| then None else
    var n := data[pos] as int;
    if n == 0 || n >= 0xC0 then Some(Found(DropTrailingDot(domain), pos))
    else if pos + 1 + n > |data| then None
    else Walk(data, pos + 1 + n, domain + data[pos + 1..pos + 1 + n] + [DOT])
  }

  function QueryName(data: seq<byte>): (r: Option<Found>)
    ensures r.Some? ==> 12 <= r.value.end < |data|
  {
    if |data| < 12 || U16(data, 4) == 0 then None else Walk(data, 12, [])
  }

  function QueryDomain(data: seq<byte>): seq<byte> {
    var r := QueryName(data);
    if r.None? then [] else r.value.domain
  }

  lemma WalkEnds(data: seq<byte>, pos: nat, domain: seq<byte>)
    requires pos < |data| && (data[pos] == 0 || data[pos] >= 0xC0)
    ensures Walk(data, pos, domain) == Some(Found(DropTrailingDot(domain), pos))
  {
  }

  lemma WalkStep(data: seq<byte>, pos: nat, domain: seq<byte>)
    requires pos < |data| && 0 < data[pos] < 0xC0
    ensures var next := pos + 1 + data[pos] as int;
            Walk(data, pos, domain) == if next > |data| then None
                                       else Walk(data, next, domain + data[pos + 1..next] + [DOT])
  {
  }

  method ExtractQueryDomain(data: seq<byte>) returns (result: seq<byte>)
    ensures result == QueryDomain(data)
  {
    hide Walk;
    if |data| < 12 { return []; }
    var qdcount := U16(data, 4);
    if qdcount == 0 { return []; }
    var pos := 12;
    var domain := [];
    while pos < |data|
      invariant QueryName(data) == Walk(data, pos, domain)
      decreases |data| - pos
    {
      var labelLen := data[pos] as int;
      if labelLen == 0 {
        WalkEnds(data, pos, domain);
        if domain != [] && domain[|domain| - 1] == DOT { domain := domain[..|domain| - 1]; }
        return domain;
      }
      // The two top bits mark a compression pointer, which is not followed.
      if labelLen / 64 == 3 {
        WalkEnds(data, pos, domain);
        if domain != [] && domain[|domain| - 1] == DOT { domain := domain[..|domain| - 1]; }
        return domain;
      }
      WalkStep(data, pos, domain);
      pos := pos + 1;
      if pos + labelLen > |data| { return []; }
      domain := domain + data[pos..pos + labelLen];
      domain := domain + [DOT];
      pos := pos + labelLen;
    }
    return [];
  }

  // ---- truncation, for any bytes ----

  lemma {:induction false} WalkTruncated(data: seq<byte>, pos: nat, domain: seq<byte>, k: nat)
    requires k <= |data|
    ensures var r := Walk(data, pos, domain);
            Walk(data[..k], pos, domain) == if r.Some? && r.value.end < k then r else None
    decreases |data| - pos
  {
    if pos < |data| {
      var n := data[pos] as int;
      if 0 < n < 0xC0 && pos + 1 + n <= |data| {
        WalkTruncated(data, pos + 1 + n, domain + data[pos + 1..pos + 1 + n] + [DOT], k);
        if pos + 1 + n <= k {
          assert data[..k][pos + 1..pos + 1 + n] == data[pos + 1..pos + 1 + n];
        }
      }
    }
  }

  /** Whatever the bytes, the first k of them give what all of them give when the byte that ends the
      name is among them, and nothing otherwise. */
  lemma {:induction false} TruncationAllOrNothing(data: seq<byte>, k: nat)
    requires k <= |data|
    ensures var r := QueryName(data);
            QueryName(data[..k]) == if r.Some? && r.value.end < k then r else None
    ensures QueryDomain(data[..k]) == QueryDomain(data) || QueryDomain(data[..k]) == []
  {
    if k >= 12 {
      assert U16(data[..k], 4) == U16(data, 4);
      WalkTruncated(data, 12, [], k);
    }
  }

  // ---- the printer ----

  /** Labels the walk reads: one byte of length below the pointer mark. The lengths 1 to 63 that the
      standard allows are among them. */
  predicate ValidLabels(labels: seq<seq<byte>>) {
    forall l <- labels :: 0 < |l| < 0xC0
  }

  function EncodeLabel(l: seq<byte>): (s: seq<byte>)
    requires 0 < |l| < 0xC0
    ensures |s| == 1 + |l|
  {
    [|l| as byte] + l
  }

  function EncodeLabels(labels: seq<seq<byte>>): seq<byte>
    requires ValidLabels(labels)
  {
    if labels == [] then [] else EncodeLabel(labels[0]) + EncodeLabels(labels[1..])
  }

  /** The labels, each followed by a dot. */
  function Dotted(labels: seq<seq<byte>>): seq<byte> {
    if labels == [] then [] else labels[0] + [DOT] + Dotted(labels[1..])
  }

  function JoinDots(labels: seq<seq<byte>>): seq<byte> {
    if labels == [] then [] else if |labels| == 1 then labels[0] else labels[0] + [DOT] + JoinDots(labels[1..])
  }

  lemma {:induction false} JoinIsDottedLessOne(labels: seq<seq<byte>>)
    requires labels != []
    ensures Dotted(labels) == JoinDots(labels) + [DOT]
  {
    if |labels| > 1 {
      JoinIsDottedLessOne(labels[1..]);
    } else {
      assert Dotted(labels[1..]) == [];
      assert labels[0] + [DOT] + [] == labels[0] + [DOT];
    }
  }

  lemma TrailingDotDropped(labels: seq<seq<byte>>)
    ensures DropTrailingDot(Dotted(labels)) == JoinDots(labels)
  {
    if labels != [] { JoinIsDottedLessOne(labels); }
  }

  // ---- the round trip ----

  lemma {:induction false} WalkLabels(data: seq<byte>, pos: nat, domain: seq<byte>, labels: seq<seq<byte>>)
    requires ValidLabels(labels) && Holds(data, pos, EncodeLabels(labels))
    ensures Walk(data, pos, domain) == Walk(data, pos + |EncodeLabels(labels)|, domain + Dotted(labels))
    decreases |labels|
  {
    hide Walk, EncodeLabel, Holds;
    if labels == [] {
      assert domain + Dotted(labels) == domain;
    } else {
      var l, rest := labels[0], labels[1..];
      assert l in labels;
      HoldsConcat(data, pos, EncodeLabel(l), EncodeLabels(rest));
      WalkLabel(data, pos, domain, l);
      WalkLabels(data, pos + 1 + |l|, domain + l + [DOT], rest);
      assert domain + l + [DOT] + Dotted(rest) == domain + (l + [DOT] + Dotted(rest));
    }
  }

  lemma WalkLabel(data: seq<byte>, pos: nat, domain: seq<byte>, l: seq<byte>)
    requires 0 < |l| < 0xC0 && Holds(data, pos, EncodeLabel(l))
    ensures Walk(data, pos, domain) == Walk(data, pos + 1 + |l|, domain + l + [DOT])
  {
    HoldsConcat(data, pos, [|l| as byte], l);
    HoldsAt(data, pos, [|l| as byte], 0);
  }

  /** The round trip: a message with a question, whose name is the encoded labels and whose next byte
      ends it (a zero, or a compression pointer), gives the labels joined by dots; every cut before
      that byte gives nothing. */
  lemma {:induction false} NameRoundTrip(
        header: seq<byte>, labels: seq<seq<byte>>, last: byte, trailing: seq<byte>, k: nat)
    requires |header| == 12 && U16(header, 4) > 0 && ValidLabels(labels)
    requires last == 0 || last >= 0xC0
    requires k <= |header + EncodeLabels(labels) + [last] + trailing|
    ensures var data := header + EncodeLabels(labels) + [last] + trailing;
            var end := 12 + |EncodeLabels(labels)|;
            && QueryName(data) == Some(Found(JoinDots(labels), end))
            && QueryDomain(data[..k]) == if k > end then JoinDots(labels) else []
  {
    hide Walk, EncodeLabels, QueryName;
    var data := header + EncodeLabels(labels) + [last] + trailing;
    WholeNameRead(header, labels, last, trailing);
    TruncationAllOrNothing(data, k);
  }

  lemma WholeNameRead(header: seq<byte>, labels: seq<seq<byte>>, last: byte, trailing: seq<byte>)
    requires |header| == 12 && U16(header, 4) > 0 && ValidLabels(labels)
    requires last == 0 || last >= 0xC0
    ensures QueryName(header + EncodeLabels(labels) + [last] + trailing)
         == Some(Found(JoinDots(labels), 12 + |EncodeLabels(labels)|))
  {
    hide Walk, EncodeLabels, U16, Holds;
    var enc := EncodeLabels(labels);
    var data := header + enc + [last] + trailing;
    MessageParts(header, enc, last, trailing);
    WalkLabels(data, 12, [], labels);
    WalkEnds(data, 12 + |enc|, [] + Dotted(labels));
    assert [] + Dotted(labels) == Dotted(labels);
    TrailingDotDropped(labels);
  }

  lemma MessageParts(header: seq<byte>, enc: seq<byte>, last: byte, trailing: seq<byte>)
    requires |header| == 12
    ensures var data := header + enc + [last] + trailing;
            U16(data, 4) == U16(header, 4) && Holds(data, 12, enc) && data[12 + |enc|] == last
  {
  }

  /** The converse: whatever bytes give a name, they hold labels that join to it, from the end of the
      header up to the byte that ended the walk. */
  lemma {:induction false} NameComesFromLabels(data: seq<byte>) returns (labels: seq<seq<byte>>)
    requires QueryName(data).Some?
    ensures ValidLabels(labels) && QueryDomain(data) == JoinDots(labels)
    ensures data[12..QueryName(data).value.end] == EncodeLabels(labels)
  {
    labels := LabelsWalked(data, 12, []);
    assert [] + Dotted(labels) == Dotted(labels);
    TrailingDotDropped(labels);
  }

  lemma {:induction false} LabelsWalked(data: seq<byte>, pos: nat, domain: seq<byte>) returns (labels: seq<seq<byte>>)
    requires Walk(data, pos, domain).Some?
    ensures ValidLabels(labels)
    ensures Walk(data, pos, domain).value.domain == DropTrailingDot(domain + Dotted(labels))
    ensures data[pos..Walk(data, pos, domain).value.end] == EncodeLabels(labels)
    decreases |data| - pos
  {
    var n := data[pos] as int;
    if n == 0 || n >= 0xC0 {
      labels := [];
      assert domain + Dotted(labels) == domain;
    } else {
      var l := data[pos + 1..pos + 1 + n];
      var rest := LabelsWalked(data, pos + 1 + n, domain + l + [DOT]);
      labels := [l] + rest;
      LabelPrepended(data, pos, n, Walk(data, pos, domain).value.end, domain, rest);
    }
  }

  lemma LabelPrepended(data: seq<byte>, pos: nat, n: nat, end: nat, domain: seq<byte>, rest: seq<seq<byte>>)
    requires pos + 1 + n <= end <= |data| && 0 < n < 0xC0 && data[pos] as int == n
    requires ValidLabels(rest) && data[pos + 1 + n..end] == EncodeLabels(rest)
    ensures var l := data[pos + 1..pos + 1 + n];
            && ValidLabels([l] + rest) && data[pos..end] == EncodeLabels([l] + rest)
            && domain + l + [DOT] + Dotted(rest) == domain + Dotted([l] + rest)
  {
    var l := data[pos + 1..pos + 1 + n];
    assert ([l] + rest)[1..] == rest;
    LabelThenRest(data, pos, n, end);
  }

  lemma LabelThenRest(data: seq<byte>, pos: nat, n: nat, end: nat)
    requires pos + 1 + n <= end <= |data| && 0 < n < 0xC0 && data[pos] as int == n
    ensures data[pos..end] == EncodeLabel(data[pos + 1..pos + 1 + n]) + data[pos + 1 + n..end]
  {
  }

  /** The message holds a question whose name is these labels, ended by the byte at `end`. */
  ghost predicate NamedBy(data: seq<byte>, labels: seq<seq<byte>>, end: nat) {
    && 12 <= end < |data| && (data[4] != 0 || data[5] != 0)
    && ValidLabels(labels) && data[12..end] == EncodeLabels(labels)
    && (data[end] == 0 || data[end] >= 0xC0)
  }

  /** Exactly which messages give a name, and which one: those with a question, labels behind the header
      and a byte that ends them. Anything else gives nothing. */
  lemma {:induction false} NameFoundIff(data: seq<byte>, name: seq<byte>, end: nat)
    ensures QueryName(data) == Some(Found(name, end))
       <==> exists labels :: NamedBy(data, labels, end) && name == JoinDots(labels)
  {
    hide Walk, EncodeLabels, JoinDots;
    if QueryName(data) == Some(Found(name, end)) {
      var labels := NameComesFromLabels(data);
      EndsAtMark(data, 12, []);
      assert NamedBy(data, labels, end);
    }
    if labels :| NamedBy(data, labels, end) && name == JoinDots(labels) {
      assert data == data[..12] + data[12..end] + [data[end]] + data[end + 1..];
      WholeNameRead(data[..12], labels, data[end], data[end + 1..]);
    }
  }

  lemma {:induction false} EndsAtMark(data: seq<byte>, pos: nat, domain: seq<byte>)
    requires Walk(data, pos, domain).Some?
    ensures var end := Walk(data, pos, domain).value.end; data[end] == 0 || data[end] >= 0xC0
    decreases |data| - pos
  {
    var n := data[pos] as int;
    if 0 < n < 0xC0 { EndsAtMark(data, pos + 1 + n, domain + data[pos + 1..pos + 1 + n] + [DOT]); }
  }

  // ---- injectivity ----

  predicate DotFree(labels: seq<seq<byte>>) {
    forall l <- labels :: DOT !in l
  }

  lemma DotSplit(a: seq<byte>, b: seq<byte>, x: seq<byte>, y: seq<byte>)
    requires DOT !in a && DOT !in b && a + [DOT] + x == b + [DOT] + y
    ensures a == b && x == y
  {
    var s, t := a + [DOT] + x, b + [DOT] + y;
    assert s[|a|] == DOT && t[|b|] == DOT;
    assert forall i :: 0 <= i < |a| ==> s[i] == a[i] && a[i] != DOT;
    assert forall i :: 0 <= i < |b| ==> t[i] == b[i] && b[i] != DOT;
    assert |a| == |b|;
    assert s[..|a|] == a && t[..|b|] == b && s[|a| + 1..] == x && t[|b| + 1..] == y;
  }

  lemma {:induction false} DottedInjective(xs: seq<seq<byte>>, ys: seq<seq<byte>>)
    requires DotFree(xs) && DotFree(ys) && Dotted(xs) == Dotted(ys)
    ensures xs == ys
  {
    if xs != [] && ys != [] {
      assert xs[0] in xs && ys[0] in ys;
      DotSplit(xs[0], ys[0], Dotted(xs[1..]), Dotted(ys[1..]));
      DottedInjective(xs[1..], ys[1..]);
      assert xs == [xs[0]] + xs[1..] && ys == [ys[0]] + ys[1..];
    }
  }

  /** Dot-free labels are recovered from the decoded name: two messages that give the same non-empty
      name hold the same labels. */
  lemma {:induction false} DecodingInjective(xs: seq<seq<byte>>, ys: seq<seq<byte>>)
    requires ValidLabels(xs) && ValidLabels(ys) && DotFree(xs) && DotFree(ys)
    requires JoinDots(xs) == JoinDots(ys)
    ensures xs == ys
  {
    if xs != [] && ys != [] {
      JoinIsDottedLessOne(xs);
      JoinIsDottedLessOne(ys);
      DottedInjective(xs, ys);
    } else {
      JoinNonEmpty(xs);
      JoinNonEmpty(ys);
    }
  }

  lemma JoinNonEmpty(labels: seq<seq<byte>>)
    requires ValidLabels(labels)
    ensures JoinDots(labels) == [] <==> labels == []
  {
    if labels != [] { assert labels[0] in labels; }
  }
}
