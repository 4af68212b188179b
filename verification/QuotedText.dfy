/** Searching a text through its quote marks: where the reader's searches for a quoted key, a colon and
    the next quote marks end. */
module QuotedText {
  import opened Text
  import opened Commands

  predicate QuoteFree(s: string) { '\"' !in s }

  /** Segments separated by quote marks. */
  ghost function Join(segs: seq<string>): string {
    if segs == [] then "" else if |segs| == 1 then segs[0] else segs[0] + QUOTE + Join(segs[1..])
  }

  ghost predicate AllQuoteFree(segs: seq<string>) {
    forall i :: 0 <= i < |segs| ==> QuoteFree(segs[i])
  }

  /** The segments after the first segment that lies between two quote marks and equals key. */
  ghost function After(segs: seq<string>, key: string): (r: Option<seq<string>>)
    ensures r.Some? ==> r.value != []
  {
    if |segs| < 3 then None
    else if segs[1] == key then Some(segs[2..])
    else After(segs[1..], key)
  }

  lemma AtInSuffix(s: string, p: string, m: nat, i: nat)
    requires m <= i && m <= |s|
    ensures At(s, p, i) <==> At(s[m..], p, i - m)
  {
    if i + |p| <= |s| { assert s[i..i + |p|] == s[m..][i - m..i - m + |p|]; }
  }

  lemma {:induction false} FindInSuffix(s: string, p: string, m: nat, from: nat)
    requires m <= from && m <= |s| && p != ""
    ensures var r := Find(s[m..], p, from - m);
            Find(s, p, from) == if r.None? then None else Some(m + r.value)
    decreases |s| - from
  {
    hide At;
    AtInSuffix(s, p, m, from);
    var i := from - m;
    assert |s[m..]| - i == |s| - from;
    if !At(s, p, from) && from < |s| {
      FindInSuffix(s, p, m, from + 1);
      assert Find(s[m..], p, i) == Find(s[m..], p, i + 1);
    }
  }

  lemma FirstQuoteAt(s: string, x: string)
    requires QuoteFree(x) && At(s, x + QUOTE, 0)
    ensures Find(s, QUOTE, 0) == Some(|x|) && s[..|x|] == x
  {
    var w := s[0..|x| + 1];
    assert w == x + QUOTE && w[|x|] == '\"';
    assert s[|x|..|x| + 1] == [s[|x|]] == QUOTE;
    forall i: nat | i < |x| ensures !At(s, QUOTE, i) {
      assert s[i] == w[i] == x[i];
      AtIff(s, QUOTE, i);
    }
    FindIs(s, QUOTE, 0, |x|);
    assert s[..|x|] == w[..|x|] == x;
  }

  lemma AtPastQuote(a: string, tail: string, key: string)
    ensures At(a + QUOTE + tail, QUOTE + key + QUOTE, |a|) <==> At(tail, key + QUOTE, 0)
  {
    var buf, n, p, q := a + QUOTE + tail, |a|, QUOTE + key + QUOTE, key + QUOTE;
    assert p == QUOTE + q;
    if |q| <= |tail| {
      var w := tail[0..|q|];
      assert buf[n..n + |p|] == QUOTE + w;
      assert (QUOTE + w)[1..] == w && p[1..] == q;
    }
  }

  /** A quoted key starting right after a quote-free prefix is the whole next segment. */
  lemma QuotedAt(segs: seq<string>, key: string)
    requires |segs| >= 2 && AllQuoteFree(segs) && QuoteFree(key)
    ensures At(Join(segs), QUOTE + key + QUOTE, |segs[0]|) <==> |segs| >= 3 && segs[1] == key
  {
    var tail := Join(segs[1..]);
    AtPastQuote(segs[0], tail, key);
    if |segs| >= 3 {
      var x := segs[1] + QUOTE;
      assert tail == x + Join(segs[2..]);
      assert tail[0..|x|] == x;
      FirstQuoteAt(tail, segs[1]);
      if At(tail, key + QUOTE, 0) { FirstQuoteAt(tail, key); }
    } else {
      assert tail == segs[1];
      NoQuoteInside(tail, key);
    }
  }

  lemma NoQuoteInside(s: string, key: string)
    requires QuoteFree(s)
    ensures !At(s, key + QUOTE, 0)
  {
    AtIff(s, key + QUOTE, 0);
    assert (key + QUOTE)[|key|] == '\"';
  }

  lemma NotAtBefore(segs: seq<string>, p: string, i: nat)
    requires |segs| >= 1 && AllQuoteFree(segs) && i < |segs[0]|
    requires p != "" && p[0] == '\"'
    ensures !At(Join(segs), p, i)
  {
    assert Join(segs)[i] == segs[0][i];
    AtIff(Join(segs), p, i);
  }

  /** The search for a quoted key in the segments ends where `After` says: nowhere, or just before
      the segments it returns. */
  ghost predicate SearchEnds(segs: seq<string>, key: string)
    requires segs != []
  {
    var r := AfterKey(Join(segs), key);
    match After(segs, key)
    case None => r.None?
    case Some(rest) => r.Some? && r.value <= |Join(segs)| && Join(segs)[r.value..] == Join(rest)
  }

  lemma SearchHere(segs: seq<string>, key: string)
    requires |segs| >= 3 && AllQuoteFree(segs) && segs[1] == key
    ensures SearchEnds(segs, key)
  {
    var p, buf, n := QUOTE + key + QUOTE, Join(segs), |segs[0]|;
    forall i: nat | i < n ensures !At(buf, p, i) { NotAtBefore(segs, p, i); }
    QuotedAt(segs, key);
    FindIs(buf, p, 0, n);
    assert buf == (segs[0] + p) + Join(segs[2..]);
  }

  lemma AfterKeyShift(buf: string, key: string, m: nat)
    requires m <= |buf| && forall i: nat :: i < m ==> !At(buf, QUOTE + key + QUOTE, i)
    ensures var r := AfterKey(buf[m..], key);
            AfterKey(buf, key) == if r.None? then None else Some(m + r.value)
  {
    var p := QUOTE + key + QUOTE;
    SkipTo(buf, p, m);
    FindInSuffix(buf, p, m, m);
  }

  lemma SearchFurther(segs: seq<string>, key: string)
    requires |segs| >= 2 && AllQuoteFree(segs) && QuoteFree(key) && (|segs| == 2 || segs[1] != key)
    requires SearchEnds(segs[1..], key)
    ensures SearchEnds(segs, key)
  {
    var buf, tail, m := Join(segs), Join(segs[1..]), |segs[0]| + 1;
    forall i: nat | i < m ensures !At(buf, QUOTE + key + QUOTE, i) {
      if i < |segs[0]| { NotAtBefore(segs, QUOTE + key + QUOTE, i); } else { QuotedAt(segs, key); }
    }
    assert buf[m..] == tail;
    AfterKeyShift(buf, key, m);
    assert After(segs, key) == After(segs[1..], key);
    var r := AfterKey(tail, key);
    if r.Some? {
      assert buf[m + r.value..] == tail[r.value..];
    }
  }

  /** Searching for a quoted key finds the first segment between quote marks that equals it. */
  lemma {:induction false} FindQuoted(segs: seq<string>, key: string)
    requires segs != [] && AllQuoteFree(segs) && QuoteFree(key)
    ensures SearchEnds(segs, key)
  {
    if |segs| == 1 {
      var p := QUOTE + key + QUOTE;
      forall i: nat ensures !At(Join(segs), p, i) {
        if i < |segs[0]| { NotAtBefore(segs, p, i); }
      }
    } else if |segs| >= 3 && segs[1] == key {
      SearchHere(segs, key);
    } else {
      FindQuoted(segs[1..], key);
      SearchFurther(segs, key);
    }
  }

  lemma {:induction false} SkipTo(s: string, p: string, m: nat)
    requires forall i: nat :: i < m ==> !At(s, p, i)
    ensures Find(s, p, 0) == Find(s, p, m)
  {
    var r := Find(s, p, m);
    if r.Some? { FindIs(s, p, 0, r.value); }
  }

  lemma FindQuoteAfter(segs: seq<string>)
    requires |segs| >= 2 && AllQuoteFree(segs)
    ensures Find(Join(segs), QUOTE, 0) == Some(|segs[0]|)
    ensures Join(segs)[..|segs[0]|] == segs[0] && Join(segs)[|segs[0]| + 1..] == Join(segs[1..])
  {
    var buf, n := Join(segs), |segs[0]|;
    forall i: nat | i < n ensures !At(buf, QUOTE, i) { NotAtBefore(segs, QUOTE, i); }
    assert buf[n..n + 1] == QUOTE;
    FindIs(buf, QUOTE, 0, n);
  }

  lemma NextQuote(buf: string, m: nat, segs: seq<string>)
    requires m <= |buf| && |segs| >= 2 && AllQuoteFree(segs) && buf[m..] == Join(segs)
    ensures var e := m + |segs[0]|;
            Find(buf, QUOTE, m) == Some(e) && At(buf, QUOTE, e)
            && buf[m..e] == segs[0] && buf[e + 1..] == Join(segs[1..])
  {
    FindQuoteAfter(segs);
    FindInSuffix(buf, QUOTE, m, m);
    var e := m + |segs[0]|;
    assert buf[m..e] == buf[m..][..|segs[0]|];
    assert buf[e + 1..] == buf[m..][|segs[0]| + 1..];
  }

  lemma {:induction false} AfterQuoteFree(segs: seq<string>, key: string)
    requires AllQuoteFree(segs)
    ensures After(segs, key).Some? ==> AllQuoteFree(After(segs, key).value)
  {
    if |segs| >= 3 && segs[1] != key { AfterQuoteFree(segs[1..], key); }
  }

  lemma FindChar(s: string, c: char, from: nat, i: nat)
    requires from <= i < |s| && s[i] == c && c !in s[from..i]
    ensures Find(s, [c], from) == Some(i)
  {
    forall j: nat | from <= j < i ensures !At(s, [c], j) {
      assert s[from..i][j - from] == s[j];
      AtIff(s, [c], j);
    }
    AtIff(s, [c], i);
    FindIs(s, [c], from, i);
  }

  lemma SplitAt(buf: string, m: nat, a: string, b: string)
    requires m <= |buf| && buf[m..] == a + b
    ensures m + |a| <= |buf| && buf[m..m + |a|] == a && buf[m + |a|..] == b
  {
    assert buf[m..m + |a|] == buf[m..][..|a|];
    assert buf[m + |a|..] == buf[m..][|a|..];
  }

  lemma NoQuoteAfter(buf: string, m: nat)
    requires m <= |buf| && QuoteFree(buf[m..])
    ensures Find(buf, QUOTE, m) == None
  {
    forall j: nat | m <= j ensures !At(buf, QUOTE, j) {
      AtIff(buf, QUOTE, j);
      if j < |buf| { assert buf[j] == buf[m..][j - m]; }
    }
  }

  lemma NoColonAfter(buf: string, m: nat)
    requires m <= |buf| && ':' !in buf[m..]
    ensures Find(buf, ":", m) == None
  {
    forall j: nat | m <= j ensures !At(buf, ":", j) {
      AtIff(buf, ":", j);
      if j < |buf| { assert buf[j] == buf[m..][j - m]; }
    }
  }

  /** The segments start with the colon that precedes a value. */
  ghost predicate StartsWithColon(vs: seq<string>) {
    vs != [] && vs[0] != "" && vs[0][0] == ':'
  }

  lemma JoinFromColon(vs: seq<string>)
    requires StartsWithColon(vs) && AllQuoteFree(vs)
    ensures Join(vs) != "" && Join(vs)[0] == ':'
    ensures var after := [vs[0][1..]] + vs[1..];
            AllQuoteFree(after) && Join(vs)[1..] == Join(after)
  {
    var after := [vs[0][1..]] + vs[1..];
    assert after[1..] == vs[1..];
    assert forall i :: 0 < i < |vs| ==> after[i] == vs[i];
    if |vs| == 1 { assert after == [vs[0][1..]]; }
  }

  /** After some text without a colon, the colon found is the one that starts the segments. */
  lemma ColonFound(buf: string, m: nat, skip: string, vs: seq<string>)
    requires m <= |buf| && buf[m..] == skip + Join(vs) && ':' !in skip && StartsWithColon(vs) && AllQuoteFree(vs)
    ensures m + |skip| < |buf| && Find(buf, ":", m) == Some(m + |skip|)
    ensures buf[m + |skip| + 1..] == Join(vs)[1..]
  {
    JoinFromColon(vs);
    SplitAt(buf, m, skip, Join(vs));
    assert buf[m + |skip|..][0] == ':';
    FindChar(buf, ':', m, m + |skip|);
    assert buf[m + |skip| + 1..] == buf[m + |skip|..][1..];
  }

  /** What stands between the next two quote marks: the second segment, if there is a third. */
  lemma BetweenQuotes(buf: string, m: nat, segs: seq<string>)
    requires m <= |buf| && segs != [] && AllQuoteFree(segs) && buf[m..] == Join(segs)
    ensures var vp := Find(buf, QUOTE, m);
            if |segs| < 3 then vp.None? || Find(buf, QUOTE, vp.value + 1).None?
            else vp.Some? && vp.value < |buf| && var ep := Find(buf, QUOTE, vp.value + 1);
                 ep.Some? && ep.value <= |buf| && buf[vp.value + 1..ep.value] == segs[1]
  {
    hide Find;
    if |segs| == 1 {
      NoQuoteAfter(buf, m);
    } else {
      NextQuote(buf, m, segs);
      var e := m + |segs[0]|;
      assert e < |buf| by { assert buf[e..e + 1] == QUOTE; }
      if |segs| == 2 {
        assert Join(segs[1..]) == segs[1];
        NoQuoteAfter(buf, e + 1);
      } else {
        NextQuote(buf, e + 1, segs[1..]);
      }
    }
  }

  lemma StringReadFrom(buf: string, m: nat, colon: nat, segs: seq<string>)
    requires Find(buf, ":", m) == Some(colon) && colon < |buf|
    requires segs != [] && AllQuoteFree(segs) && buf[colon + 1..] == Join(segs)
    ensures StringAfter(buf, m) == if |segs| < 3 then "" else segs[1]
  {
    hide Find, Join, AllQuoteFree;
    BetweenQuotes(buf, colon + 1, segs);
  }

  /** Past text without a colon, the string read from segments that start with one is their second, or
      empty if there are fewer than three. */
  lemma StringRead(buf: string, m: nat, skip: string, vs: seq<string>)
    requires m <= |buf| && ':' !in skip && StartsWithColon(vs) && AllQuoteFree(vs) && buf[m..] == skip + Join(vs)
    ensures StringAfter(buf, m) == if |vs| < 3 then "" else vs[1]
  {
    hide Find, Join, AllQuoteFree, StringAfter;
    ColonFound(buf, m, skip, vs);
    JoinFromColon(vs);
    var after := [vs[0][1..]] + vs[1..];
    assert |vs| >= 3 ==> after[1] == vs[1];
    StringReadFrom(buf, m, m + |skip|, after);
  }

  /** Likewise the integer read is what stoll makes of the text after the colon. */
  lemma IntRead(buf: string, m: nat, skip: string, vs: seq<string>, def: int)
    requires m <= |buf| && ':' !in skip && StartsWithColon(vs) && AllQuoteFree(vs) && buf[m..] == skip + Join(vs)
    ensures Join(vs) != ""
    ensures var n := Stoll(Join(vs)[1..]);
            IntAfter(buf, m, def) == if n.None? then def else n.value
  {
    hide Find, Join, AllQuoteFree;
    ColonFound(buf, m, skip, vs);
    JoinFromColon(vs);
  }
}
