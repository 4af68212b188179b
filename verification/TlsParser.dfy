/** The server name of a TLS ClientHello: the first host_name of the server_name extension
    (section 4.1.2 of RFC 8446, section 3 of RFC 6066). */
module TlsParser {
  import opened Text
  import opened Bytes

  /** Where a name lies in the buffer. */
  datatype Span = Span(start: nat, end: nat)

  /** The server_name extension's body at pos, cut off at end. */
  function NameSpan(data: seq<byte>, pos: nat, end: nat): (r: Option<Span>)
    requires end <= |data|
    ensures r.Some? ==> pos + 5 == r.value.start <= r.value.end <= end
  {
    if pos + 5 > end || data[pos + 2] != 0 then None else
    var n := U16(data, pos + 3);
    if pos + 5 + n > end then None else Some(Span(pos + 5, pos + 5 + n))
  }

  /** The walk over the extensions from pos, cut off at end. */
  function WalkSpan(data: seq<byte>, pos: nat, end: nat): (r: Option<Span>)
    requires end <= |data|
    ensures r.Some? ==> pos + 4 < r.value.start <= r.value.end <= end
    decreases end - pos
  {
    if pos + 4 > end then None
    else if U16(data, pos) == 0 then NameSpan(data, pos + 4, end)
    else WalkSpan(data, pos + 4 + U16(data, pos + 2), end)
  }

  /** Where the extension list starts, and where its length field says it ends. */
  function Extensions(data: seq<byte>): (r: Option<Span>)
    ensures r.Some? ==> 43 < r.value.start <= |data| && r.value.start <= r.value.end
  {
    if |data| < 43 || data[0] != 0x16 || data[1] != 3 || data[5] != 1 || |data| == 43 then None else
    var ciphers := 44 + data[43] as int;
    if ciphers + 2 > |data| then None else
    var comp := ciphers + 2 + U16(data, ciphers);
    if comp + 1 > |data| then None else
    var exts := comp + 1 + data[comp] as int;
    if exts + 2 > |data| then None else
    Some(Span(exts + 2, exts + 2 + U16(data, exts)))
  }

  function SniSpan(data: seq<byte>): (r: Option<Span>)
    ensures r.Some? ==> 43 < r.value.start <= r.value.end <= |data|
  {
    var exts := Extensions(data);
    if exts.None? then None else WalkSpan(data, exts.value.start, Min(exts.value.end, |data|))
  }

  function NameAt(data: seq<byte>, span: Option<Span>): seq<byte>
    requires span.Some? ==> span.value.start <= span.value.end <= |data|
  {
    if span.None? then [] else data[span.value.start..span.value.end]
  }

  function Sni(data: seq<byte>): seq<byte> {
    NameAt(data, SniSpan(data))
  }

  /** The name the walk returns, given where it starts and ends. */
  method WalkExtensions(data: seq<byte>, start: nat, extEnd: nat) returns (name: seq<byte>)
    requires extEnd <= |data|
    ensures name == NameAt(data, WalkSpan(data, start, extEnd))
  {
    var pos := start;
    while pos + 4 <= extEnd
      invariant WalkSpan(data, start, extEnd) == WalkSpan(data, pos, extEnd)
      decreases extEnd - pos
    {
      var extType, extLen := U16(data, pos), U16(data, pos + 2);
      pos := pos + 4;
      if extType == 0 {
        if pos + 5 > extEnd { return []; }
        pos := pos + 2;
        var nameType := data[pos];
        pos := pos + 1;
        if nameType != 0 { return []; }
        var nameLen := U16(data, pos);
        pos := pos + 2;
        if pos + nameLen > extEnd { return []; }
        return data[pos..pos + nameLen];
      }
      pos := pos + extLen;
    }
    return [];
  }

  method ExtractSni(data: seq<byte>) returns (name: seq<byte>)
    ensures name == Sni(data)
  {
    if |data| < 43 { return []; }
    if data[0] != 0x16 { return []; }
    if data[1] != 3 { return []; }
    if data[5] != 1 { return []; }
    var pos := 43;
    if pos >= |data| { return []; }
    var sessionIdLen := data[pos] as int;
    pos := pos + 1 + sessionIdLen;
    if pos + 2 > |data| { return []; }
    var cipherSuitesLen := U16(data, pos);
    pos := pos + 2 + cipherSuitesLen;
    if pos + 1 > |data| { return []; }
    var compLen := data[pos] as int;
    pos := pos + 1 + compLen;
    if pos + 2 > |data| { return []; }
    var extensionsLen := U16(data, pos);
    pos := pos + 2;
    var extEnd := pos + extensionsLen;
    assert Extensions(data) == Some(Span(pos, extEnd));
    if extEnd > |data| { extEnd := |data|; }
    name := WalkExtensions(data, pos, extEnd);
  }

  // ---- truncation, for any bytes ----

  /** What remains of a result when the buffer is cut at k. */
  function Cut(span: Option<Span>, k: nat): Option<Span> {
    if span.Some? && span.value.end <= k then span else None
  }

  lemma {:induction false} WalkTruncated(data: seq<byte>, pos: nat, end: nat, k: nat)
    requires end <= |data| && k <= |data|
    ensures WalkSpan(data[..k], pos, Min(end, k)) == Cut(WalkSpan(data, pos, end), k)
    decreases end - pos
  {
    if pos + 4 <= Min(end, k) && U16(data, pos) != 0 {
      WalkTruncated(data, pos + 4 + U16(data, pos + 2), end, k);
    }
  }

  lemma ExtensionsTruncated(data: seq<byte>, k: nat)
    requires k <= |data|
    ensures var full := Extensions(data);
            Extensions(data[..k]) == if full.Some? && full.value.start <= k then full else None
  {
  }

  /** All or nothing: whatever the bytes, the parser finds on the first k of them exactly what it
      finds on all of them if the name ends within those k, and nothing otherwise. */
  lemma {:induction false} TruncationAllOrNothing(data: seq<byte>, k: nat)
    requires k <= |data|
    ensures SniSpan(data[..k]) == Cut(SniSpan(data), k)
    ensures Sni(data[..k]) == if Cut(SniSpan(data), k).Some? then Sni(data) else []
  {
    ExtensionsTruncated(data, k);
    var exts := Extensions(data);
    if exts.Some? {
      var end := Min(exts.value.end, |data|);
      if exts.value.start <= k {
        WalkTruncated(data, exts.value.start, end, k);
        assert Min(end, k) == Min(exts.value.end, k);
      }
    }
  }

  // ---- the printer ----

  datatype Extension = Extension(kind: nat, body: seq<byte>)

  /** A ClientHello whose extensions hold one server_name with a host_name first in its list;
      the record and handshake lengths may be any values. */
  datatype Hello = Hello(
    minor: byte,
    recordLength: nat,
    handshakeLength: seq<byte>,
    version: seq<byte>,
    random: seq<byte>,
    sessionId: seq<byte>,
    cipherSuites: seq<byte>,
    compression: seq<byte>,
    before: seq<Extension>,
    listLength: nat,
    name: seq<byte>,
    otherNames: seq<byte>,
    after: seq<Extension>)

  predicate ValidExtensions(es: seq<Extension>) {
    forall e <- es :: e.kind < 0x1_0000 && |e.body| < 0x1_0000
  }

  function Prefixed(body: seq<byte>): (s: seq<byte>)
    requires |body| < 256
    ensures |s| == 1 + |body|
  {
    [|body| as byte] + body
  }

  function Prefixed16(body: seq<byte>): (s: seq<byte>)
    requires |body| < 0x1_0000
    ensures |s| == 2 + |body|
  {
    Be16(|body|) + body
  }

  function EncodeExtension(e: Extension): (s: seq<byte>)
    requires e.kind < 0x1_0000 && |e.body| < 0x1_0000
    ensures |s| == 4 + |e.body|
  {
    Be16(e.kind) + Prefixed16(e.body)
  }

  function EncodeExtensions(es: seq<Extension>): seq<byte>
    requires ValidExtensions(es)
  {
    if es == [] then [] else EncodeExtension(es[0]) + EncodeExtensions(es[1..])
  }

  predicate ValidName(h: Hello) {
    h.listLength < 0x1_0000 && 5 + |h.name| + |h.otherNames| < 0x1_0000
  }

  /** The server_name body up to and including the name. */
  function NameBytes(h: Hello): (s: seq<byte>)
    requires ValidName(h)
    ensures |s| == 5 + |h.name|
  {
    Be16(h.listLength) + [0] + Be16(|h.name|) + h.name
  }

  function NameHead(h: Hello): (s: seq<byte>)
    requires ValidName(h)
    ensures |s| == 4
  {
    Be16(0) + Be16(5 + |h.name| + |h.otherNames|)
  }

  /** The server_name extension up to the end of the name. */
  function HostName(h: Hello): (s: seq<byte>)
    requires ValidName(h)
    ensures |s| == 9 + |h.name|
  {
    NameHead(h) + NameBytes(h)
  }

  predicate ValidHello(h: Hello) {
    && h.recordLength < 0x1_0000 && |h.handshakeLength| == 3 && |h.version| == 2 && |h.random| == 32
    && |h.sessionId| < 256 && |h.cipherSuites| < 0x1_0000 && |h.compression| < 256
    && ValidExtensions(h.before) && ValidExtensions(h.after) && ValidName(h)
    && (forall e <- h.before :: e.kind != 0)
    && |EncodeExtensions(h.before)| + 4 + 5 + |h.name| + |h.otherNames| + |EncodeExtensions(h.after)| < 0x1_0000
  }

  function Prologue(h: Hello): (s: seq<byte>)
    requires ValidHello(h)
    ensures |s| == 43
  {
    [0x16, 3, h.minor] + Be16(h.recordLength) + [1] + h.handshakeLength + h.version + h.random
  }

  /** The extension list up to the end of the name. */
  function ToName(h: Hello): seq<byte>
    requires ValidHello(h)
  {
    EncodeExtensions(h.before) + HostName(h)
  }

  function ExtensionList(h: Hello): seq<byte>
    requires ValidHello(h)
  {
    ToName(h) + (h.otherNames + EncodeExtensions(h.after))
  }

  /** Everything before the extension list. */
  function Lead(h: Hello): seq<byte>
    requires ValidHello(h)
  {
    Prologue(h) + Prefixed(h.sessionId) + Prefixed16(h.cipherSuites) + Prefixed(h.compression)
    + Be16(|ExtensionList(h)|)
  }

  function Encode(h: Hello): seq<byte>
    requires ValidHello(h)
  {
    Lead(h) + ExtensionList(h)
  }

  function EndOfName(h: Hello): nat
    requires ValidHello(h)
  {
    |Lead(h)| + |ToName(h)|
  }

  // ---- reading printed pieces ----

  lemma WalkPastOne(data: seq<byte>, pos: nat, end: nat, e: Extension)
    requires 0 < e.kind < 0x1_0000 && |e.body| < 0x1_0000
    requires Holds(data, pos, EncodeExtension(e)) && pos + 4 + |e.body| <= end <= |data|
    ensures WalkSpan(data, pos, end) == WalkSpan(data, pos + 4 + |e.body|, end)
  {
    HoldsConcat(data, pos, Be16(e.kind), Prefixed16(e.body));
    U16Reads(data, pos, e.kind);
    Prefixed16Reads(data, pos + 2, e.body);
  }

  lemma {:induction false} WalkPast(data: seq<byte>, pos: nat, end: nat, es: seq<Extension>)
    requires ValidExtensions(es) && forall e <- es :: e.kind != 0
    requires pos + |EncodeExtensions(es)| <= end <= |data| && Holds(data, pos, EncodeExtensions(es))
    ensures WalkSpan(data, pos, end) == WalkSpan(data, pos + |EncodeExtensions(es)|, end)
    decreases |es|
  {
    hide WalkSpan, EncodeExtension, Holds, Prefixed16;
    if es != [] {
      var e, rest := es[0], EncodeExtensions(es[1..]);
      assert e in es;
      HoldsConcat(data, pos, EncodeExtension(e), rest);
      WalkPastOne(data, pos, end, e);
      WalkPast(data, pos + 4 + |e.body|, end, es[1..]);
    }
  }

  lemma PrefixedReads(data: seq<byte>, pos: nat, body: seq<byte>)
    requires |body| < 256 && Holds(data, pos, Prefixed(body))
    ensures pos < |data| && data[pos] as int == |body|
  {
    HoldsAt(data, pos, Prefixed(body), 0);
  }

  lemma Prefixed16Reads(data: seq<byte>, pos: nat, body: seq<byte>)
    requires |body| < 0x1_0000 && Holds(data, pos, Prefixed16(body))
    ensures pos + 2 <= |data| && U16(data, pos) == |body|
  {
    HoldsConcat(data, pos, Be16(|body|), body);
    U16Reads(data, pos, |body|);
  }

  // ---- exactly which bytes give a name ----

  /** What stands before a name that the parser finds. */
  datatype Parts = Parts(sessionId: seq<byte>, cipherSuites: seq<byte>, compression: seq<byte>, total: nat,
                         before: seq<Extension>, length: nat, listLength: nat, name: seq<byte>)

  predicate ValidParts(p: Parts) {
    && |p.sessionId| < 256 && |p.cipherSuites| < 0x1_0000 && |p.compression| < 256 && p.total < 0x1_0000
    && ValidExtensions(p.before) && (forall e <- p.before :: e.kind != 0)
    && p.length < 0x1_0000 && p.listLength < 0x1_0000 && |p.name| < 0x1_0000
  }

  /** The lengths and fields before the extension list. */
  function LeadOf(p: Parts): seq<byte>
    requires ValidParts(p)
  {
    Prefixed(p.sessionId) + Prefixed16(p.cipherSuites) + Prefixed(p.compression) + Be16(p.total)
  }

  /** The extension list up to the end of the name. */
  function ListOf(p: Parts): seq<byte>
    requires ValidParts(p)
  {
    EncodeExtensions(p.before) + (Be16(0) + Be16(p.length) + (Be16(p.listLength) + [0] + Be16(|p.name|) + p.name))
  }

  /** A handshake record of major version 3 with a ClientHello whose extension list, as long as it
      claims to be, reaches the end of the name. */
  ghost predicate MadeOf(data: seq<byte>, p: Parts, end: nat) {
    && ValidParts(p) && 43 <= end <= |data|
    && data[0] == 0x16 && data[1] == 3 && data[5] == 1
    && data[43..end] == LeadOf(p) + ListOf(p) && |ListOf(p)| <= p.total
  }

  lemma SliceAsU16(data: seq<byte>, pos: nat)
    requires pos + 2 <= |data|
    ensures data[pos..pos + 2] == Be16(U16(data, pos))
  {
  }

  lemma {:induction false} WalkedFrom(data: seq<byte>, pos: nat, end: nat)
    returns (before: seq<Extension>, length: nat, listLength: nat)
    requires end <= |data| && WalkSpan(data, pos, end).Some?
    ensures ValidExtensions(before) && (forall e <- before :: e.kind != 0) && length < 0x1_0000 && listLength < 0x1_0000
    ensures var span := WalkSpan(data, pos, end).value;
            var name := data[span.start..span.end];
            && |name| < 0x1_0000 && pos <= span.end
            && data[pos..span.end] == EncodeExtensions(before)
                 + (Be16(0) + Be16(length) + (Be16(listLength) + [0] + Be16(|name|) + name))
    decreases end - pos
  {
    hide EncodeExtension, U16, Be16;
    var n := U16(data, pos + 2);
    if U16(data, pos) == 0 {
      before, length, listLength := [], n, U16(data, pos + 4);
      NamePieces(data, pos, end);
      var span := WalkSpan(data, pos, end).value;
      assert EncodeExtensions(before) == [];
      assert [] + data[pos..span.end] == data[pos..span.end];
    } else {
      var rest;
      rest, length, listLength := WalkedFrom(data, pos + 4 + n, end);
      var span := WalkSpan(data, pos, end).value;
      var e := Extension(U16(data, pos), data[pos + 4..pos + 4 + n]);
      before := [e] + rest;
      ExtensionPiece(data, pos, n);
      assert before[1..] == rest;
      SliceSplit(data, pos, pos + 4 + n, span.end);
      assert forall x <- before :: x == e || x in rest;
      Regroup(EncodeExtension(e), EncodeExtensions(rest), data[pos + 4 + n..span.end],
              data[pos + 4 + n..span.end][|EncodeExtensions(rest)|..]);
    }
  }

  lemma Regroup(a: seq<byte>, b: seq<byte>, bc: seq<byte>, c: seq<byte>)
    requires bc == b + c
    ensures a + bc == a + b + c
  {
  }

  lemma ExtensionPiece(data: seq<byte>, pos: nat, n: nat)
    requires pos + 4 + n <= |data| && U16(data, pos + 2) == n
    ensures n < 0x1_0000
    ensures data[pos..pos + 4 + n] == EncodeExtension(Extension(U16(data, pos), data[pos + 4..pos + 4 + n]))
  {
    SliceAsU16(data, pos);
    SliceAsU16(data, pos + 2);
    SliceSplit(data, pos, pos + 2, pos + 4 + n);
    SliceSplit(data, pos + 2, pos + 4, pos + 4 + n);
  }

  lemma NamePieces(data: seq<byte>, pos: nat, end: nat)
    requires end <= |data| && pos + 4 <= end && U16(data, pos) == 0 && NameSpan(data, pos + 4, end).Some?
    ensures var span := NameSpan(data, pos + 4, end).value;
            var name := data[span.start..span.end];
            && |name| < 0x1_0000
            && data[pos..span.end]
               == Be16(0) + Be16(U16(data, pos + 2)) + (Be16(U16(data, pos + 4)) + [0] + Be16(|name|) + name)
  {
    hide U16, Be16;
    var span := NameSpan(data, pos + 4, end).value;
    var name := data[span.start..span.end];
    SliceAsU16(data, pos);
    SliceAsU16(data, pos + 2);
    SliceAsU16(data, pos + 4);
    SliceAsU16(data, pos + 7);
    assert |name| == U16(data, pos + 7);
    assert data[pos + 6..pos + 7] == [data[pos + 6]] == [0];
    SliceSplit(data, pos, pos + 4, span.end);
    SliceSplit(data, pos, pos + 2, pos + 4);
    SliceSplit(data, pos + 4, pos + 9, span.end);
    SliceSplit(data, pos + 4, pos + 7, pos + 9);
    SliceSplit(data, pos + 4, pos + 6, pos + 7);
  }

  lemma PrefixedPiece(data: seq<byte>, pos: nat, end: nat)
    requires pos < end <= |data| && end == pos + 1 + data[pos] as int
    ensures data[pos..end] == Prefixed(data[pos + 1..end])
  {
  }

  lemma Prefixed16Piece(data: seq<byte>, pos: nat, end: nat)
    requires pos + 2 <= end <= |data| && end == pos + 2 + U16(data, pos)
    ensures data[pos..end] == Prefixed16(data[pos + 2..end])
  {
    SliceAsU16(data, pos);
    SliceSplit(data, pos, pos + 2, end);
  }

  lemma LeadPieces(data: seq<byte>) returns (sid: seq<byte>, ciphers: seq<byte>, comp: seq<byte>)
    requires Extensions(data).Some?
    ensures |sid| < 256 && |ciphers| < 0x1_0000 && |comp| < 256
    ensures var x := Extensions(data).value;
            && x.end - x.start < 0x1_0000
            && data[43..x.start] == Prefixed(sid) + Prefixed16(ciphers) + Prefixed(comp) + Be16(x.end - x.start)
  {
    hide U16, Be16;
    var p := 44 + data[43] as int;
    var q := p + 2 + U16(data, p);
    var r := q + 1 + data[q] as int;
    sid, ciphers, comp := data[44..p], data[p + 2..q], data[q + 1..r];
    SliceAsU16(data, r);
    PrefixedPiece(data, 43, p);
    Prefixed16Piece(data, p, q);
    PrefixedPiece(data, q, r);
    SliceSplit(data, 43, r, r + 2);
    SliceSplit(data, 43, q, r);
    SliceSplit(data, 43, p, q);
  }

  /** Exactly which bytes give a name: whatever the parser finds a name in starts like a handshake record
      with a ClientHello, and its fields, the extensions of other kinds and the server_name entry account
      for every byte up to the name's end; everything of that form is found. Anything else gives nothing. */
  lemma {:induction false} NameFoundIff(data: seq<byte>, name: seq<byte>, end: nat)
    ensures (SniSpan(data).Some? && SniSpan(data).value.end == end && Sni(data) == name)
       <==> exists p :: MadeOf(data, p, end) && p.name == name
  {
    hide WalkSpan, Extensions, EncodeExtensions, Be16, U16, MadeOf;
    if SniSpan(data).Some? && SniSpan(data).value.end == end && Sni(data) == name {
      var p := FoundParts(data);
      assert MadeOf(data, p, end) && p.name == name;
    }
    if p :| MadeOf(data, p, end) && p.name == name { PartsFound(data, p, end); }
  }

  lemma FoundParts(data: seq<byte>) returns (p: Parts)
    requires SniSpan(data).Some?
    ensures MadeOf(data, p, SniSpan(data).value.end) && p.name == Sni(data)
  {
    hide WalkSpan, EncodeExtensions, Be16, U16;
    var x, end := Extensions(data).value, SniSpan(data).value.end;
    var sid, ciphers, comp := LeadPieces(data);
    var before, length, listLength := WalkedFrom(data, x.start, Min(x.end, |data|));
    p := Parts(sid, ciphers, comp, x.end - x.start, before, length, listLength, Sni(data));
    SliceSplit(data, 43, x.start, end);
    assert |ListOf(p)| == end - x.start;
  }

  lemma PartsFound(data: seq<byte>, p: Parts, end: nat)
    requires MadeOf(data, p, end)
    ensures SniSpan(data) == Some(Span(end - |p.name|, end)) && Sni(data) == p.name
  {
    hide WalkSpan, EncodeExtensions, Be16, U16;
    var start := 43 + |LeadOf(p)|;
    assert data[43..end][..|LeadOf(p)|] == LeadOf(p) && data[43..end][|LeadOf(p)|..] == ListOf(p);
    assert Holds(data, 43, LeadOf(p)) by { assert data[43..start] == data[43..end][..|LeadOf(p)|]; }
    assert Holds(data, start, ListOf(p)) by { assert data[start..end] == data[43..end][|LeadOf(p)|..]; }
    LeadOfFound(data, p);
    ListOfFound(data, start, Min(start + p.total, |data|), p);
    FoundFrom(data, start, start + p.total, end - |p.name|, p.name);
  }

  lemma FoundFrom(data: seq<byte>, start: nat, claimed: nat, at: nat, name: seq<byte>)
    requires Extensions(data) == Some(Span(start, claimed)) && at + |name| <= |data|
    requires WalkSpan(data, start, Min(claimed, |data|)) == Some(Span(at, at + |name|)) && data[at..at + |name|] == name
    ensures SniSpan(data) == Some(Span(at, at + |name|)) && Sni(data) == name
  {
    hide WalkSpan, Extensions;
  }

  lemma LeadOfFound(data: seq<byte>, p: Parts)
    requires ValidParts(p) && Holds(data, 43, LeadOf(p)) && data[0] == 0x16 && data[1] == 3 && data[5] == 1
    ensures Extensions(data) == Some(Span(43 + |LeadOf(p)|, 43 + |LeadOf(p)| + p.total))
  {
    hide U16, Be16;
    var sid, ciphers, comp := Prefixed(p.sessionId), Prefixed16(p.cipherSuites), Prefixed(p.compression);
    HoldsConcat(data, 43, sid + ciphers + comp, Be16(p.total));
    HoldsConcat(data, 43, sid + ciphers, comp);
    HoldsConcat(data, 43, sid, ciphers);
    var q := 43 + |sid|;
    var r := q + |ciphers|;
    PrefixedReads(data, 43, p.sessionId);
    Prefixed16Reads(data, q, p.cipherSuites);
    PrefixedReads(data, r, p.compression);
    U16Reads(data, r + |comp|, p.total);
  }

  lemma ListOfFound(data: seq<byte>, start: nat, end: nat, p: Parts)
    requires ValidParts(p) && Holds(data, start, ListOf(p)) && start + |ListOf(p)| <= end <= |data|
    ensures var at := start + |ListOf(p)| - |p.name|;
            WalkSpan(data, start, end) == Some(Span(at, at + |p.name|)) && data[at..at + |p.name|] == p.name
  {
    hide WalkSpan, EncodeExtensions, Holds;
    HoldsConcat(data, start, EncodeExtensions(p.before),
                Be16(0) + Be16(p.length) + (Be16(p.listLength) + [0] + Be16(|p.name|) + p.name));
    WalkPast(data, start, end, p.before);
    EntryFound(data, start + |EncodeExtensions(p.before)|, end, p);
  }

  lemma EntryFound(data: seq<byte>, pos: nat, end: nat, p: Parts)
    requires ValidParts(p) && pos + 9 + |p.name| <= end <= |data|
    requires Holds(data, pos, Be16(0) + Be16(p.length) + (Be16(p.listLength) + [0] + Be16(|p.name|) + p.name))
    ensures WalkSpan(data, pos, end) == Some(Span(pos + 9, pos + 9 + |p.name|))
    ensures data[pos + 9..pos + 9 + |p.name|] == p.name
  {
    HoldsConcat(data, pos, Be16(0) + Be16(p.length), Be16(p.listLength) + [0] + Be16(|p.name|) + p.name);
    HoldsConcat(data, pos, Be16(0), Be16(p.length));
    U16Reads(data, pos, 0);
    var at := pos + 4;
    HoldsConcat(data, at, Be16(p.listLength) + [0] + Be16(|p.name|), p.name);
    HoldsConcat(data, at, Be16(p.listLength) + [0], Be16(|p.name|));
    HoldsConcat(data, at, Be16(p.listLength), [0]);
    HoldsAt(data, at + 2, [0], 0);
    U16Reads(data, at + 3, |p.name|);
  }

  // ---- the round trip ----

  function PartsOf(h: Hello): Parts
    requires ValidHello(h)
  {
    Parts(h.sessionId, h.cipherSuites, h.compression, |ExtensionList(h)|, h.before,
          5 + |h.name| + |h.otherNames|, h.listLength, h.name)
  }

  lemma HelloIsMadeOf(h: Hello, trailing: seq<byte>)
    requires ValidHello(h)
    ensures MadeOf(Encode(h) + trailing, PartsOf(h), EndOfName(h))
  {
    hide EncodeExtensions, Be16;
    var data, p, end := Encode(h) + trailing, PartsOf(h), EndOfName(h);
    assert ListOf(p) == ToName(h);
    var rest := h.otherNames + EncodeExtensions(h.after) + trailing;
    assert Lead(h) == Prologue(h) + LeadOf(p);
    assert data == Prologue(h) + (LeadOf(p) + ListOf(p)) + rest;
    assert data[..43] == Prologue(h);
    assert data[43..end] == LeadOf(p) + ListOf(p);
    assert data[0] == Prologue(h)[0] && data[1] == Prologue(h)[1] && data[5] == Prologue(h)[5];
  }

  lemma {:induction false} FullHelloFound(h: Hello, trailing: seq<byte>)
    requires ValidHello(h)
    ensures var data := Encode(h) + trailing;
            SniSpan(data) == Some(Span(EndOfName(h) - |h.name|, EndOfName(h))) && Sni(data) == h.name
  {
    hide MadeOf, Encode, Sni, SniSpan;
    HelloIsMadeOf(h, trailing);
    PartsFound(Encode(h) + trailing, PartsOf(h), EndOfName(h));
  }

  /** The round trip: for every such ClientHello, with any extensions around a non-empty name, any
      bytes after it and any cut, the parser returns the whole name exactly when the cut leaves the
      name's last byte, and nothing otherwise. */
  lemma {:induction false} SniRoundTrip(h: Hello, trailing: seq<byte>, k: nat)
    requires ValidHello(h) && h.name != [] && k <= |Encode(h) + trailing|
    ensures Sni((Encode(h) + trailing)[..k]) == if k >= EndOfName(h) then h.name else []
    ensures Sni((Encode(h) + trailing)[..k]) == h.name <==> k >= EndOfName(h)
  {
    FullHelloFound(h, trailing);
    TruncationAllOrNothing(Encode(h) + trailing, k);
  }
}
