/** The command channel end to end: what the reader extracts from a printed payload, for which commands
    printing and reading back is the intended update in every field order, and newline framing. */
module CommandChannel {
  import opened Text
  import opened PolicyTables
  import opened TableRuns
  import opened Commands
  import opened QuotedText

  // ---- the printed text, seen through its quote marks ----

  ghost function Segs(pre: string, fs: seq<Field>): (r: seq<string>)
    ensures r != []
    decreases |fs|
  {
    if fs == [] then [pre + "}"] else
    var f, sep := fs[0], if |fs| > 1 then "," else "";
    match f.value
    case Str(s) => [pre, f.key, ":", s] + Segs(sep, fs[1..])
    case Num(n) => [pre, f.key] + Segs(":" + Decimal(n) + sep, fs[1..])
  }

  lemma JoinCons(x: string, t: seq<string>)
    requires t != []
    ensures Join([x] + t) == x + QUOTE + Join(t)
  {
    assert ([x] + t)[1..] == t;
  }

  lemma Regroup(pre: string, x: string, y: string, sep: string, body: string)
    ensures pre + x + ((y + sep) + body + "}") == pre + ((x + y) + sep + body) + "}"
  {
  }

  lemma PrintedString(pre: string, key: string, s: string, t: seq<string>, sep: string, body: string)
    requires t != [] && Join(t) == sep + body + "}"
    ensures Join([pre, key, ":", s] + t) == pre + (PrintField(Field(key, Str(s))) + sep + body) + "}"
  {
    assert [pre, key, ":", s] + t == [pre] + ([key] + ([":"] + ([s] + t)));
    JoinCons(s, t);
    JoinCons(":", [s] + t);
    JoinCons(key, [":"] + ([s] + t));
    JoinCons(pre, [key] + ([":"] + ([s] + t)));
    var x := PrintField(Field(key, Str(s)));
    assert Join([pre, key, ":", s] + t) == pre + x + Join(t);
    Regroup(pre, x, "", sep, body);
    assert x + "" == x && "" + sep == sep;
  }

  lemma {:induction false} PrintedNumber(pre: string, key: string, n: int, t: seq<string>, sep: string, body: string)
    requires t != [] && Join(t) == (":" + Decimal(n) + sep) + body + "}"
    ensures Join([pre, key] + t) == pre + (PrintField(Field(key, Num(n))) + sep + body) + "}"
  {
    hide Join, Decimal;
    assert [pre, key] + t == [pre] + ([key] + t);
    JoinCons(key, t);
    JoinCons(pre, [key] + t);
    var x, y := QUOTE + key + QUOTE, ":" + Decimal(n);
    assert Join([pre, key] + t) == pre + x + Join(t);
    assert x + y == PrintField(Field(key, Num(n)));
    Regroup(pre, x, y, sep, body);
  }

  lemma {:induction false} PrintedSegs(pre: string, fs: seq<Field>)
    ensures Join(Segs(pre, fs)) == pre + PrintFields(fs) + "}"
    decreases |fs|
  {
    if fs != [] {
      var f, sep := fs[0], if |fs| > 1 then "," else "";
      var body := PrintFields(fs[1..]);
      match f.value
      case Str(s) =>
        PrintedSegs(sep, fs[1..]);
        PrintedString(pre, f.key, s, Segs(sep, fs[1..]), sep, body);
      case Num(n) =>
        var mid := ":" + Decimal(n) + sep;
        PrintedSegs(mid, fs[1..]);
        PrintedNumber(pre, f.key, n, Segs(mid, fs[1..]), sep, body);
    }
  }

  /** No quote mark, backslash or control character: such a string is printed as it is. */
  predicate Plain(s: string) {
    forall i :: 0 <= i < |s| ==> s[i] != '\"' && s[i] != '\\' && s[i] >= ' '
  }

  /** Every key is a field name, and every string value is plain. */
  predicate PlainFields(fs: seq<Field>) {
    forall f <- fs :: f.key in FIELD_NAMES && (f.value.Str? ==> Plain(f.value.s))
  }

  /** Text that can stand between a closing and an opening quote mark. */
  predicate Between(pre: string) {
    QuoteFree(pre) && (pre == "" || pre[0] in {'{', ',', ':'})
  }

  lemma DecimalQuoteFree(n: int)
    ensures QuoteFree(Decimal(n))
  {
  }

  lemma QuoteFreeConcat(a: seq<string>, b: seq<string>)
    requires AllQuoteFree(a) && AllQuoteFree(b)
    ensures AllQuoteFree(a + b)
  {
  }

  lemma {:induction false} SegsQuoteFree(pre: string, fs: seq<Field>)
    requires PlainFields(fs) && Between(pre)
    ensures AllQuoteFree(Segs(pre, fs))
    decreases |fs|
  {
    if fs != [] {
      assert PlainFields(fs[1..]);
      var f, sep := fs[0], if |fs| > 1 then "," else "";
      assert f in fs;
      FieldNameShape(f.key);
      match f.value
      case Str(s) =>
        SegsQuoteFree(sep, fs[1..]);
        QuoteFreeConcat([pre, f.key, ":", s], Segs(sep, fs[1..]));
      case Num(n) =>
        DecimalQuoteFree(n);
        SegsQuoteFree(":" + Decimal(n) + sep, fs[1..]);
        QuoteFreeConcat([pre, f.key], Segs(":" + Decimal(n) + sep, fs[1..]));
    }
  }

  lemma FieldNameShape(key: string)
    requires key in FIELD_NAMES
    ensures QuoteFree(key) && key != "" && key[0] !in {'{', ',', ':', '}'}
  {
  }

  lemma FirstSeg(pre: string, fs: seq<Field>, key: string)
    requires Between(pre) && key in FIELD_NAMES
    ensures Segs(pre, fs)[0] != key
  {
    FieldNameShape(key);
    if fs == [] { assert (pre + "}")[0] in {'{', ',', ':', '}'}; }
  }

  /** A segment that is not the key is skipped. */
  lemma SkipSegment(x: string, y: string, t: seq<string>, key: string)
    requires t != [] && y != key
    ensures After([x, y] + t, key) == After([y] + t, key)
  {
    assert ([x, y] + t)[1..] == [y] + t;
  }

  lemma SkipHead(x: string, t: seq<string>, key: string)
    requires t != [] && t[0] != key
    ensures After([x] + t, key) == After(t, key)
  {
    assert ([x] + t)[1..] == t;
  }

  lemma SkipStringField(pre: string, name: string, s: string, t: seq<string>, key: string)
    requires t != [] && t[0] != key && name != key && s != key && key in FIELD_NAMES
    ensures After([pre, name, ":", s] + t, key) == After(t, key)
  {
    FieldNameShape(key);
    assert [pre, name, ":", s] + t == [pre, name] + ([":", s] + t);
    SkipSegment(pre, name, [":", s] + t, key);
    assert [name] + ([":", s] + t) == [name, ":"] + ([s] + t);
    SkipSegment(name, ":", [s] + t, key);
    assert [":"] + ([s] + t) == [":", s] + t;
    SkipSegment(":", s, t, key);
    SkipHead(s, t, key);
  }

  lemma SkipNumberField(pre: string, name: string, t: seq<string>, key: string)
    requires t != [] && t[0] != key && name != key
    ensures After([pre, name] + t, key) == After(t, key)
  {
    SkipSegment(pre, name, t, key);
    SkipHead(name, t, key);
  }

  lemma BetweenNumber(n: int, sep: string)
    requires sep in {"", ","}
    ensures Between(":" + Decimal(n) + sep)
  {
    DecimalQuoteFree(n);
  }

  lemma FoundSecond(x: string, key: string, t: seq<string>)
    requires t != []
    ensures After([x, key] + t, key) == Some(t)
  {
    assert ([x, key] + t)[2..] == t;
  }

  // ---- numbers ----

  lemma ReadOneDigit(d: nat, rest: string, acc: nat)
    requires d < 10
    ensures ReadDigits(["0123456789"[d]] + rest, acc) == ReadDigits(rest, 10 * acc + d)
  {
    assert (["0123456789"[d]] + rest)[1..] == rest;
  }

  lemma DigitsSplit(n: nat, rest: string)
    ensures Digits(n) + rest == (if n < 10 then "" else Digits(n / 10)) + (["0123456789"[n % 10]] + rest)
  {
  }

  lemma {:induction false} ReadDigitsOf(n: nat, rest: string)
    ensures ReadDigits(Digits(n) + rest, 0) == ReadDigits(rest, n)
  {
    hide Digits, ReadDigits;
    var d := ["0123456789"[n % 10]];
    DigitsSplit(n, rest);
    ReadOneDigit(n % 10, rest, n / 10);
    if n >= 10 {
      ReadDigitsOf(n / 10, d + rest);
    } else {
      assert "" + (d + rest) == d + rest;
    }
  }

  function Fit(n: int, def: int): int {
    if INT64_MIN <= n <= INT64_MAX then n else def
  }

  lemma StollOnDigits(s: string, n: nat)
    requires s != "" && IsDigit(s[0]) && ReadDigits(s, 0) == n
    ensures Stoll(s) == if n <= INT64_MAX then Some(n) else None
  {
  }

  lemma StollOnMinus(s: string, n: int)
    requires s != "" && IsDigit(s[0]) && ReadDigits(s, 0) == n
    ensures Stoll("-" + s) == if INT64_MIN <= -n then Some(-n) else None
  {
    assert ("-" + s)[1..] == s;
  }

  lemma DigitsThen(n: nat, rest: string)
    requires rest == "" || !IsDigit(rest[0])
    ensures ReadDigits(Digits(n) + rest, 0) == n
    ensures Digits(n) + rest != "" && IsDigit((Digits(n) + rest)[0])
  {
    ReadDigitsOf(n, rest);
    assert (Digits(n) + rest)[0] == Digits(n)[0];
  }

  lemma DecimalThen(n: int, rest: string)
    ensures Decimal(n) + rest == if n < 0 then "-" + (Digits(-n) + rest) else Digits(n) + rest
  {
  }

  /** A printed integer is parsed back when it has 64 bits, and rejected otherwise. */
  lemma {:induction false} StollReads(n: int, rest: string)
    requires rest == "" || !IsDigit(rest[0])
    ensures Stoll(Decimal(n) + rest)
         == if -0x8000_0000_0000_0000 <= n < 0x8000_0000_0000_0000 then Some(n) else None
  {
    DecimalThen(n, rest);
    var size: nat := if n < 0 then -n else n;
    DigitsThen(size, rest);
    if n < 0 {
      StollOnMinus(Digits(size) + rest, size);
    } else {
      StollOnDigits(Digits(size) + rest, size);
    }
  }

  lemma {:induction false} StollSkipsSpaces(spaces: string, s: string)
    requires forall c <- spaces :: c as int == 32 || 9 <= c as int <= 13
    ensures Stoll(spaces + s) == Stoll(s)
    decreases |spaces|
  {
    if spaces == "" {
      assert spaces + s == s;
    } else {
      assert spaces[0] in spaces && (spaces + s)[1..] == spaces[1..] + s;
      assert forall c <- spaces[1..] :: c in spaces;
      StollSkipsSpaces(spaces[1..], s);
    }
  }

  /** Besides what the bridge prints, leading white space and a plus sign are accepted; text that starts
      with anything but these, a minus sign or a digit is not a number. */
  lemma {:induction false} StollForms(spaces: string, n: nat, rest: string, other: string)
    requires forall c <- spaces :: c as int == 32 || 9 <= c as int <= 13
    requires rest == "" || !('0' <= rest[0] <= '9')
    requires other == "" || !(other[0] in {'+', '-'} || '0' <= other[0] <= '9'
                              || other[0] as int == 32 || 9 <= other[0] as int <= 13)
    ensures Stoll(spaces + ("+" + (Digits(n) + rest))) == if n < 0x8000_0000_0000_0000 then Some(n) else None
    ensures Stoll(spaces + other) == None
  {
    StollSkipsSpaces(spaces, "+" + (Digits(n) + rest));
    StollSkipsSpaces(spaces, other);
    DigitsThen(n, rest);
    assert ("+" + (Digits(n) + rest))[1..] == Digits(n) + rest;
  }

  /** The narrowing to 32 bits wraps around: the result is in range and congruent. */
  lemma NarrowingWraps(n: int)
    ensures -0x8000_0000 <= ToInt32(n) < 0x8000_0000
    ensures (n - ToInt32(n)) % 0x1_0000_0000 == 0
  {
  }

  // ---- what the reader sees ----

  /** The fields from which the value of a key is read: they start with the field of that name or, if a
      text value equal to the key comes earlier, with the field after that value. */
  function Source(fs: seq<Field>, key: string): seq<Field> {
    if fs == [] then []
    else if fs[0].key == key then fs
    else if fs[0].value == Str(key) then fs[1..]
    else Source(fs[1..], key)
  }

  lemma {:induction false} SourceWithin(fs: seq<Field>, key: string)
    ensures forall f <- Source(fs, key) :: f in fs
  {
    if fs != [] { SourceWithin(fs[1..], key); }
  }

  /** The text read there: the field's text, or the name of the field that follows a number. */
  function TextOf(gs: seq<Field>): string {
    if gs == [] then "" else
    match gs[0].value
    case Str(s) => s
    case Num(_) => if |gs| > 1 then gs[1].key else ""
  }

  /** The number read there: the field's number if it has 64 bits, or the default. */
  function NumberOf(gs: seq<Field>, def: int): int {
    if gs == [] then def else
    match gs[0].value
    case Str(_) => def
    case Num(n) => Fit(n, def)
  }

  function Seen(fs: seq<Field>): Line {
    Line(TextOf(Source(fs, "cmd")), TextOf(Source(fs, "ip")), TextOf(Source(fs, "domain")),
         NumberOf(Source(fs, "until"), 0), NumberOf(Source(fs, "duration_seconds"), 0),
         ToInt32(NumberOf(Source(fs, "delay_ms"), 500)))
  }

  function Separator(fs: seq<Field>): string {
    if |fs| > 1 then "," else ""
  }

  /** The segments after the name of the first field. */
  ghost function ValueSegs(gs: seq<Field>): (vs: seq<string>)
    requires gs != []
    ensures StartsWithColon(vs)
  {
    match gs[0].value
    case Str(s) => [":", s] + Segs(Separator(gs), gs[1..])
    case Num(n) =>
      var mid := ":" + Decimal(n) + Separator(gs);
      SegsStart(mid, gs[1..]);
      Segs(mid, gs[1..])
  }

  lemma SegsStart(pre: string, fs: seq<Field>)
    requires pre != ""
    ensures Segs(pre, fs)[0] != "" && Segs(pre, fs)[0][0] == pre[0]
  {
  }

  lemma SegsSplit(pre: string, fs: seq<Field>)
    requires fs != []
    ensures Segs(pre, fs) == [pre, fs[0].key] + ValueSegs(fs)
  {
  }

  /** The segments are those behind the name of the first of these fields, or behind the value before
      them. */
  ghost predicate Follows(r: Option<seq<string>>, gs: seq<Field>) {
    if gs == [] then r.None? || r.value == ["}"]
    else r.Some? && (r.value == ValueSegs(gs) || r.value == [",", gs[0].key] + ValueSegs(gs))
  }

  lemma ValueFound(pre: string, name: string, key: string, t: seq<string>)
    requires t != [] && name != key && key != ":"
    ensures After([pre, name, ":", key] + t, key) == Some(t)
  {
    hide After;
    assert [pre, name, ":", key] + t == [pre, name] + ([":", key] + t);
    SkipSegment(pre, name, [":", key] + t, key);
    assert [name] + ([":", key] + t) == [name, ":"] + ([key] + t);
    SkipSegment(name, ":", [key] + t, key);
    assert [":"] + ([key] + t) == [":", key] + t;
    FoundSecond(":", key, t);
  }

  lemma FoundAsValue(pre: string, fs: seq<Field>, key: string)
    requires fs != [] && fs[0].key != key && fs[0].value == Str(key) && key in FIELD_NAMES
    ensures Follows(After(Segs(pre, fs), key), fs[1..])
  {
    hide After, ValueSegs;
    FieldNameShape(key);
    ValueFound(pre, fs[0].key, key, Segs(Separator(fs), fs[1..]));
    if |fs| > 1 { SegsSplit(",", fs[1..]); } else { assert "" + "}" == "}"; }
  }

  lemma FoundAsName(pre: string, fs: seq<Field>)
    requires fs != []
    ensures Follows(After(Segs(pre, fs), fs[0].key), fs)
  {
    hide After, Segs;
    SegsSplit(pre, fs);
    FoundSecond(pre, fs[0].key, ValueSegs(fs));
  }

  lemma NothingFound(x: string, key: string)
    ensures After([x], key) == None
  {
  }

  /** In the printed text the first match of a quoted field name is where Source says. */
  lemma {:induction false} FieldFound(pre: string, fs: seq<Field>, key: string)
    requires PlainFields(fs) && Between(pre) && key in FIELD_NAMES
    ensures Follows(After(Segs(pre, fs), key), Source(fs, key))
    decreases |fs|
  {
    hide Follows, Decimal, After;
    if fs == [] {
      NothingFound(pre + "}", key);
      assert Follows(None, []) by { NoneFollows(); }
    } else if fs[0].key == key {
      FoundAsName(pre, fs);
    } else if fs[0].value == Str(key) {
      FoundAsValue(pre, fs, key);
    } else {
      assert fs[0] in fs && PlainFields(fs[1..]);
      match fs[0].value
      case Str(s) =>
        FirstSeg(Separator(fs), fs[1..], key);
        FieldFound(Separator(fs), fs[1..], key);
        SkipStringField(pre, fs[0].key, s, Segs(Separator(fs), fs[1..]), key);
      case Num(n) =>
        var mid := ":" + Decimal(n) + Separator(fs);
        BetweenNumber(n, Separator(fs));
        FirstSeg(mid, fs[1..], key);
        FieldFound(mid, fs[1..], key);
        SkipNumberField(pre, fs[0].key, Segs(mid, fs[1..]), key);
    }
  }

  lemma NoneFollows()
    ensures Follows(None, [])
  {
  }

  lemma ValueText(gs: seq<Field>)
    requires gs != []
    ensures var vs := ValueSegs(gs); TextOf(gs) == if |vs| < 3 then "" else vs[1]
  {
    match gs[0].value
    case Str(s) =>
    case Num(n) =>
      if |gs| > 1 { SegsSplit(":" + Decimal(n) + ",", gs[1..]); }
  }

  lemma StollOnQuote(s: string)
    requires s != "" && s[0] == '\"'
    ensures Stoll(s) == None
  {
  }

  lemma AfterColon(d: string, sep: string, body: string)
    ensures ((":" + d + sep) + body + "}")[1..] == d + (sep + body + "}")
  {
  }

  lemma BodyStart(fs: seq<Field>)
    ensures PrintFields(fs) == "" || PrintFields(fs)[0] == '\"'
  {
    if fs != [] { assert PrintField(fs[0])[0] == '\"'; }
  }

  lemma ValueNumber(gs: seq<Field>, def: int)
    requires gs != []
    ensures Join(ValueSegs(gs)) != ""
    ensures var n := Stoll(Join(ValueSegs(gs))[1..]); NumberOf(gs, def) == if n.None? then def else n.value
  {
    var sep := Separator(gs);
    match gs[0].value
    case Str(s) =>
      var t := Segs(sep, gs[1..]);
      assert [":", s] + t == [":"] + ([s] + t);
      JoinCons(":", [s] + t);
      assert Join(ValueSegs(gs))[1..] == QUOTE + Join([s] + t);
      StollOnQuote(QUOTE + Join([s] + t));
    case Num(n) =>
      var body := PrintFields(gs[1..]);
      PrintedSegs(":" + Decimal(n) + sep, gs[1..]);
      AfterColon(Decimal(n), sep, body);
      BodyStart(gs[1..]);
      StollReads(n, sep + body + "}");
  }

  lemma BehindName(name: string, vs: seq<string>)
    requires name in FIELD_NAMES && vs != []
    ensures var skip := "," + QUOTE + name + QUOTE;
            ':' !in skip && Join([",", name] + vs) == skip + Join(vs)
  {
    hide Join;
    assert [",", name] + vs == [","] + ([name] + vs);
    JoinCons(name, vs);
    JoinCons(",", [name] + vs);
  }

  /** What stands between the key found and the colon of the value read. */
  lemma SkipToColon(rest: seq<string>, gs: seq<Field>) returns (skip: string)
    requires gs != [] && gs[0].key in FIELD_NAMES && AllQuoteFree(rest) && Follows(Some(rest), gs)
    ensures ':' !in skip && Join(rest) == skip + Join(ValueSegs(gs)) && AllQuoteFree(ValueSegs(gs))
  {
    hide Join, ValueSegs;
    var vs := ValueSegs(gs);
    if rest == vs {
      skip := "";
    } else {
      skip := "," + QUOTE + gs[0].key + QUOTE;
      BehindName(gs[0].key, vs);
      assert forall i :: 0 <= i < |vs| ==> vs[i] == rest[i + 2];
    }
  }

  lemma PrintIsJoin(fs: seq<Field>)
    requires PlainFields(fs)
    ensures Print(fs) == Join(Segs("{", fs)) && AllQuoteFree(Segs("{", fs))
  {
    PrintedSegs("{", fs);
    SegsQuoteFree("{", fs);
  }

  /** The search ends at some position, from where the text is that of the segments. */
  lemma ReadFrom(buf: string, m: nat, rest: seq<string>, gs: seq<Field>, def: int)
    requires m <= |buf| && buf[m..] == Join(rest) && AllQuoteFree(rest) && Follows(Some(rest), gs)
    requires gs != [] ==> gs[0].key in FIELD_NAMES
    ensures StringAfter(buf, m) == TextOf(gs) && IntAfter(buf, m, def) == NumberOf(gs, def)
  {
    hide Join, Follows, ValueSegs, AllQuoteFree, StringAfter, IntAfter, TextOf, NumberOf;
    if gs == [] {
      LastValue(buf, m, rest, def);
    } else {
      var skip := SkipToColon(rest, gs);
      StringRead(buf, m, skip, ValueSegs(gs));
      IntRead(buf, m, skip, ValueSegs(gs), def);
      ValueText(gs);
      ValueNumber(gs, def);
    }
  }

  lemma LastValue(buf: string, m: nat, rest: seq<string>, def: int)
    requires m <= |buf| && buf[m..] == Join(rest) && Follows(Some(rest), [])
    ensures StringAfter(buf, m) == TextOf([]) && IntAfter(buf, m, def) == NumberOf([], def)
  {
    assert Join(["}"]) == "}";
    NoColonAfter(buf, m);
  }

  /** What the reader extracts for a key from a printed payload, whatever its plain values are. */
  lemma {:induction false} ReaderIs(fs: seq<Field>, key: string, def: int)
    requires PlainFields(fs) && key in FIELD_NAMES
    ensures JsonStr(Print(fs), key) == TextOf(Source(fs, key))
    ensures JsonInt(Print(fs), key, def) == NumberOf(Source(fs, key), def)
  {
    hide Join, Segs, After, Source, Print, Follows, StringAfter, IntAfter, TextOf, NumberOf, AfterKey;
    var segs, gs := Segs("{", fs), Source(fs, key);
    PrintIsJoin(fs);
    FieldNameShape(key);
    FieldFound("{", fs, key);
    FindQuoted(segs, key);
    AfterQuoteFree(segs, key);
    SourceWithin(fs, key);
    if gs != [] { assert gs[0] in gs; }
    var r := After(segs, key);
    if r.Some? {
      ReadFrom(Join(segs), AfterKey(Join(segs), key).value, r.value, gs, def);
    } else {
      NoneRead(gs, def);
    }
  }

  lemma NoneRead(gs: seq<Field>, def: int)
    requires Follows(None, gs)
    ensures TextOf(gs) == "" && NumberOf(gs, def) == def
  {
  }

  /** The reader on every printed payload: each field is read from where Source says. */
  lemma {:induction false} ReaderSees(fs: seq<Field>)
    requires PlainFields(fs)
    ensures Extract(Print(fs)) == Seen(fs)
  {
    hide JsonStr, JsonInt, Print, Source, TextOf, NumberOf;
    ReaderIs(fs, "cmd", 0);
    ReaderIs(fs, "ip", 0);
    ReaderIs(fs, "domain", 0);
    ReaderIs(fs, "until", 0);
    ReaderIs(fs, "duration_seconds", 0);
    ReaderIs(fs, "delay_ms", 500);
  }

  // ---- payloads in any order ----

  /** The payload's fields, in any order. */
  ghost predicate InSomeOrder(fs: seq<Field>, c: Command) {
    multiset(fs) == multiset(Fields(c))
  }

  function DelayOf(c: Command): Option<int> {
    if c.Throttle? then Some(c.delayMs) else None
  }

  /** What a payload's field holds, by its name. */
  lemma FieldIs(c: Command, f: Field)
    requires f in Fields(c)
    ensures f.key in FIELD_NAMES
    ensures f.key == "cmd" ==> f.value == Str(Name(c))
    ensures f.key == "ip" ==> f.value == Str(c.ip)
    ensures f.key == "domain" ==> f.value == Str(c.domain)
    ensures f.key == "until" ==> UntilOf(c).Some? && f.value == Num(UntilOf(c).value)
    ensures f.key == "duration_seconds" ==> DurationOf(c).Some? && f.value == Num(DurationOf(c).value)
    ensures f.key == "delay_ms" ==> DelayOf(c).Some? && f.value == Num(DelayOf(c).value)
  {
  }

  lemma FieldsThere(c: Command)
    ensures Field("cmd", Str(Name(c))) in Fields(c)
    ensures Field("ip", Str(c.ip)) in Fields(c)
    ensures Field("domain", Str(c.domain)) in Fields(c)
    ensures UntilOf(c).Some? ==> Field("until", Num(UntilOf(c).value)) in Fields(c)
    ensures DurationOf(c).Some? ==> Field("duration_seconds", Num(DurationOf(c).value)) in Fields(c)
    ensures DelayOf(c).Some? ==> Field("delay_ms", Num(DelayOf(c).value)) in Fields(c)
  {
    var fs := Fields(c);
    assert fs[0] in fs && fs[1] in fs && fs[2] in fs;
    match c
    case Block(_, _, dur, until) =>
      if dur.Some? { assert fs[3] in fs; }
      if until.Some? { assert fs[|fs| - 1] in fs; }
    case Throttle(_, _, ms, dur) =>
      assert fs[3] in fs;
      if dur.Some? { assert fs[4] in fs; }
    case _ =>
  }

  lemma SameFields(fs: seq<Field>, c: Command)
    requires InSomeOrder(fs, c)
    ensures forall f :: f in fs <==> f in Fields(c)
  {
    assert forall f :: f in fs <==> f in multiset(fs);
    assert forall f :: f in Fields(c) <==> f in multiset(Fields(c));
  }

  /** Without another value equal to the key, reading starts at the field of that name. */
  lemma {:induction false} SourceOwn(fs: seq<Field>, key: string)
    requires forall f <- fs :: f.value == Str(key) ==> f.key == key
    ensures var gs := Source(fs, key);
            if exists f <- fs :: f.key == key then gs != [] && gs[0] in fs && gs[0].key == key else gs == []
  {
    if fs != [] {
      assert fs[0] in fs;
      if fs[0].key != key {
        assert forall f :: f in fs <==> f == fs[0] || f in fs[1..];
        SourceOwn(fs[1..], key);
      }
    }
  }

  lemma NameIsPlain(c: Command)
    ensures Plain(Name(c)) && Name(c) !in FIELD_NAMES && Name(c) != ""
  {
  }

  lemma NoOtherValue(fs: seq<Field>, c: Command, key: string)
    requires InSomeOrder(fs, c) && c.ip !in FIELD_NAMES && key in FIELD_NAMES && (key == "domain" || c.domain != key)
    ensures forall f <- fs :: f.value == Str(key) ==> f.key == key
  {
    hide Fields, InSomeOrder, Plain;
    SameFields(fs, c);
    NameIsPlain(c);
    forall f | f in fs && f.value == Str(key) ensures f.key == key { FieldIs(c, f); }
  }

  lemma TextSeen(fs: seq<Field>, c: Command, key: string)
    requires InSomeOrder(fs, c) && c.ip !in FIELD_NAMES && key in {"cmd", "ip", "domain"}
    requires key == "domain" || c.domain != key
    ensures TextOf(Source(fs, key)) == if key == "cmd" then Name(c) else if key == "ip" then c.ip else c.domain
  {
    hide Fields, Source, InSomeOrder;
    NoOtherValue(fs, c, key);
    SourceOwn(fs, key);
    SameFields(fs, c);
    FieldsThere(c);
    var gs := Source(fs, key);
    FieldIs(c, gs[0]);
  }

  function NumberNamed(c: Command, key: string): Option<int> {
    if key == "until" then UntilOf(c) else if key == "duration_seconds" then DurationOf(c) else DelayOf(c)
  }

  lemma NumberSeen(fs: seq<Field>, c: Command, key: string, def: int)
    requires InSomeOrder(fs, c) && c.ip !in FIELD_NAMES && key in {"until", "duration_seconds", "delay_ms"}
    requires c.domain != key
    ensures var n := NumberNamed(c, key);
            NumberOf(Source(fs, key), def) == if n.None? then def else Fit(n.value, def)
  {
    hide Fields, Source, InSomeOrder;
    NoOtherValue(fs, c, key);
    SourceOwn(fs, key);
    SameFields(fs, c);
    FieldsThere(c);
    var gs := Source(fs, key);
    if gs != [] { FieldIs(c, gs[0]); }
  }

  /** The payload prints this number. */
  predicate PrintsNumber(c: Command, n: int) {
    UntilOf(c) == Some(n) || DurationOf(c) == Some(n) || DelayOf(c) == Some(n)
  }

  predicate HasNumber(c: Command) {
    UntilOf(c).Some? || DurationOf(c).Some? || DelayOf(c).Some?
  }

  /** Whatever a number is read from, it is the default or one of the numbers printed. */
  lemma SomeNumberSeen(fs: seq<Field>, c: Command, key: string, def: int)
    requires InSomeOrder(fs, c)
    ensures var n := NumberOf(Source(fs, key), def);
            n == def || exists m :: PrintsNumber(c, m) && n == Fit(m, def)
  {
    hide Fields, InSomeOrder;
    SameFields(fs, c);
    var gs := Source(fs, key);
    SourceWithin(fs, key);
    if gs != [] && gs[0].value.Num? {
      assert gs[0] in gs;
      FieldIs(c, gs[0]);
      assert PrintsNumber(c, gs[0].value.n);
    }
  }

  /** The line's content as the proxy's integer types hold it. */
  function AsLine(c: Command): Line {
    Line(Name(c), c.ip, c.domain, Fit(OrZero(UntilOf(c)), 0), Fit(OrZero(DurationOf(c)), 0),
         ToInt32(if c.Throttle? then Fit(c.delayMs, 500) else 500))
  }

  /** Apart from the field that the pattern names, the reader sees the command's own fields. */
  lemma SeenElsewhere(fs: seq<Field>, c: Command)
    requires InSomeOrder(fs, c) && c.ip !in FIELD_NAMES
    ensures var l, a := Seen(fs), AsLine(c);
            && (c.domain != "cmd" ==> l.cmd == a.cmd)
            && (c.domain != "ip" ==> l.ip == a.ip)
            && l.domain == a.domain
            && (c.domain != "until" ==> l.until == a.until)
            && (c.domain != "duration_seconds" ==> l.duration == a.duration)
            && (c.domain != "delay_ms" ==> l.delayMs == a.delayMs)
  {
    hide InSomeOrder, Source, TextOf, NumberOf, ToInt32;
    if c.domain != "cmd" { TextSeen(fs, c, "cmd"); }
    if c.domain != "ip" { TextSeen(fs, c, "ip"); }
    TextSeen(fs, c, "domain");
    if c.domain != "until" { NumberSeen(fs, c, "until", 0); }
    if c.domain != "duration_seconds" { NumberSeen(fs, c, "duration_seconds", 0); }
    if c.domain != "delay_ms" { NumberSeen(fs, c, "delay_ms", 500); }
  }

  // ---- the proxy's integer types ----

  /** The command's numbers survive the proxy's integer types. */
  predicate Fits(c: Command) {
    match c
    case Block(_, _, dur, until) =>
      OrZero(dur) <= INT64_MAX && (OrZero(dur) > 0 || INT64_MIN <= OrZero(until) <= INT64_MAX)
    case Throttle(_, _, ms, dur) => OrZero(dur) <= INT64_MAX && -0x8000_0000 <= ms < 0x8000_0000
    case _ => true
  }

  lemma ToInt32Identity(n: int)
    ensures ToInt32(n) == n <==> -0x8000_0000 <= n < 0x8000_0000
  {
  }

  /** The proxy's narrowing is harmless on every table and at every time exactly when the numbers
      fit, or the command is ignored anyway. */
  lemma {:induction false} NarrowingHarmless(c: Command)
    ensures (forall t, now :: Act(t, AsLine(c), now) == Execute(t, c, now))
       <==> Fits(c) || c.ip == "" || c.domain == ""
  {
    if c.Throttle? { ToInt32Identity(c.delayMs); }
    if !Fits(c) && c.ip != "" && c.domain != "" {
      var t := Tables(map[], map[]);
      var got, want := Act(t, AsLine(c), 0), Execute(t, c, 0);
      var k := Key(c.ip, c.domain);
      if c.Block? {
        assert got.blocks[k].until != want.blocks[k].until;
      } else {
        assert got.throttles[k] != want.throttles[k];
      }
    }
  }

  // ---- patterns that look like a field name ----

  /** There is an order of the payload's fields in which the reader takes the pattern for the field that
      it names, and the command has another effect on some tables at some time. */
  predicate Misread(c: Command) {
    || (c.domain == "ip" && (HasNumber(c) || c.ip != Name(c)))
    || (c.ip != ""
        && (|| (c.domain == "cmd" && (HasNumber(c) || c.ip != Name(c)))
            || (c.domain == "until" && c.Block? && OrZero(c.duration) <= 0
                && (OrZero(c.until) != 0 || Fit(OrZero(c.duration), 0) != 0))
            || (c.domain == "duration_seconds"
                && (OrZero(DurationOf(c)) > 0 || OrZero(UntilOf(c)) > 0 || OrZero(DelayOf(c)) > 0))
            || (c.domain == "delay_ms" && c.Throttle?
                && (c.delayMs != 500 || (c.duration.Some? && ToInt32(Fit(c.duration.value, 500)) != 500)))))
  }

  predicate Ignored(c: Command) {
    c.ip == "" || c.domain == ""
  }

  /** The address is printed as it is and is no field's name, the pattern is printed as it is and is not
      misread, and the numbers fit. */
  predicate Sendable(c: Command) {
    Addressed(c) && (Fits(c) || Ignored(c)) && !Misread(c)
  }

  predicate Addressed(c: Command) {
    Plain(c.ip) && c.ip !in FIELD_NAMES && Plain(c.domain)
  }

  lemma PayloadPlain(c: Command, fs: seq<Field>)
    requires Plain(c.ip) && Plain(c.domain) && InSomeOrder(fs, c)
    ensures PlainFields(fs)
  {
    hide Plain, Fields, InSomeOrder;
    SameFields(fs, c);
    NameIsPlain(c);
    forall f | f in fs ensures f.key in FIELD_NAMES && (f.value.Str? ==> Plain(f.value.s)) { FieldIs(c, f); }
  }

  // ---- harmless misreadings ----

  /** Keys do not repeat, so a field is not followed by itself. */
  lemma {:induction false} NotRepeated(fs: seq<Field>, i: nat)
    requires i + 1 < |fs| && fs[i] == fs[i + 1]
    ensures multiset(fs)[fs[i]] >= 2
  {
    var x := fs[i];
    assert fs == fs[..i] + [x, x] + fs[i + 2..];
    assert multiset([x, x])[x] == 2;
  }

  lemma TextFieldsOnly(c: Command)
    requires !HasNumber(c)
    ensures multiset(Fields(c))[Field("domain", Str(c.domain))] == 1
    ensures Fields(c) == [Field("cmd", Str(Name(c))), Field("ip", Str(c.ip)), Field("domain", Str(c.domain))]
  {
  }

  /** Reading starts at the field of that name, or right after a value equal to it. */
  lemma {:induction false} SourceAt(fs: seq<Field>, f: Field, key: string) returns (i: nat)
    requires f in fs && f.key == key
    ensures i < |fs| && Source(fs, key) == fs[i..]
    ensures fs[i].key == key || (i > 0 && fs[i - 1].value == Str(key) && fs[i - 1].key != key)
  {
    if fs[0].key == key {
      i := 0;
    } else {
      assert fs == [fs[0]] + fs[1..];
      if fs[0].value == Str(key) {
        i := 1;
      } else {
        var j := SourceAt(fs[1..], f, key);
        i := j + 1;
        TailIndex(fs, j);
        if j > 0 { TailIndex(fs, j - 1); }
      }
    }
  }

  lemma TailIndex(fs: seq<Field>, j: nat)
    requires j + 1 < |fs|
    ensures fs[1..][j] == fs[j + 1] && fs[1..][j..] == fs[j + 1..]
  {
  }

  lemma NeverTwice(fs: seq<Field>, c: Command, i: nat)
    requires InSomeOrder(fs, c) && !HasNumber(c) && i + 1 < |fs| && fs[i].key == "domain"
    ensures fs[i + 1].key != "domain"
  {
    hide Fields;
    SameFields(fs, c);
    TextFieldsOnly(c);
    FieldIs(c, fs[i]);
    FieldIs(c, fs[i + 1]);
    if fs[i + 1] == fs[i] { NotRepeated(fs, i); }
  }

  /** An address equal to the command's own name is read right even where the pattern is misread. */
  lemma HarmlessText(fs: seq<Field>, c: Command, key: string)
    requires InSomeOrder(fs, c) && c.ip !in FIELD_NAMES
    requires c.domain == key && key in {"cmd", "ip"} && !HasNumber(c) && c.ip == Name(c)
    ensures TextOf(Source(fs, key)) == c.ip
  {
    hide Fields, Source, InSomeOrder, Plain;
    SameFields(fs, c);
    FieldsThere(c);
    var i := SourceAt(fs, Field(key, Str(Name(c))), key);
    assert fs[i] in fs;
    if fs[i].key != key {
      FollowsPattern(fs, c, i, key);
    }
    FieldIs(c, fs[i]);
    NoNumberField(c, fs[i]);
  }

  lemma FollowsPattern(fs: seq<Field>, c: Command, i: nat, key: string)
    requires InSomeOrder(fs, c) && c.ip !in FIELD_NAMES && key in FIELD_NAMES && !HasNumber(c)
    requires 0 < i < |fs| && fs[i - 1].value == Str(key) && fs[i - 1].key != key
    ensures fs[i].key != "domain"
  {
    hide Fields, InSomeOrder, Plain;
    SameFields(fs, c);
    assert fs[i - 1] in fs;
    FieldIs(c, fs[i - 1]);
    NoNumberField(c, fs[i - 1]);
    NameIsPlain(c);
    NeverTwice(fs, c, i - 1);
  }

  lemma NoNumberField(c: Command, f: Field)
    requires !HasNumber(c) && f in Fields(c)
    ensures f.key in {"cmd", "ip", "domain"}
  {
  }

  /** If the pattern is not misread, the line seen has the command's effect in every order. */
  lemma {:induction false} SeenHarmless(c: Command, fs: seq<Field>, t: Tables, now: int)
    requires InSomeOrder(fs, c) && Sendable(c)
    ensures Act(t, Seen(fs), now) == Execute(t, c, now)
  {
    hide InSomeOrder, Fields, Source, TextOf, NumberOf, Execute, Plain;
    SeenElsewhere(fs, c);
    var l := Seen(fs);
    if c.ip == "" {
      IgnoredCommand(t, c, now);
    } else {
      NarrowingHarmless(c);
      if c.domain == "cmd" || c.domain == "ip" {
        HarmlessText(fs, c, c.domain);
        assert l == AsLine(c);
      } else if c.domain in {"until", "duration_seconds", "delay_ms"} {
        SomeNumberSeen(fs, c, c.domain, if c.domain == "delay_ms" then 500 else 0);
        HarmlessNumber(c, l, t, now);
      } else {
        assert l == AsLine(c);
      }
    }
  }

  lemma IgnoredCommand(t: Tables, c: Command, now: int)
    requires c.ip == ""
    ensures Execute(t, c, now) == t
  {
  }

  /** The line seen holds, in the place of one number, another printed one or the default. */
  lemma HarmlessNumber(c: Command, l: Line, t: Tables, now: int)
    requires c.domain in {"until", "duration_seconds", "delay_ms"} && Fits(c) && !Misread(c) && c.ip != ""
    requires var a := AsLine(c);
             && l.cmd == a.cmd && l.ip == a.ip && l.domain == a.domain
             && (c.domain != "until" ==> l.until == a.until)
             && (c.domain != "duration_seconds" ==> l.duration == a.duration)
             && (c.domain != "delay_ms" ==> l.delayMs == a.delayMs)
    requires c.domain == "until" ==> l.until == 0 || exists m :: PrintsNumber(c, m) && l.until == Fit(m, 0)
    requires c.domain == "duration_seconds" ==>
               l.duration == 0 || exists m :: PrintsNumber(c, m) && l.duration == Fit(m, 0)
    requires c.domain == "delay_ms" ==>
               l.delayMs == 500 || exists m :: PrintsNumber(c, m) && l.delayMs == ToInt32(Fit(m, 500))
    ensures Act(t, l, now) == Act(t, AsLine(c), now)
  {
    hide Update;
  }

  // ---- harmful orders ----

  function DomainField(c: Command): Field {
    Field("domain", Str(c.domain))
  }

  /** The fields besides the first three: the numbers. */
  function Rest(c: Command): (fs: seq<Field>)
    ensures forall f <- fs :: f.value.Num?
  {
    Fields(c)[3..]
  }

  /** The pattern first, then the command's name, or the address, or a number. */
  function NameNext(c: Command): seq<Field> {
    [DomainField(c), Field("cmd", Str(Name(c))), Field("ip", Str(c.ip))] + Rest(c)
  }

  function AddressNext(c: Command): seq<Field> {
    [DomainField(c), Field("ip", Str(c.ip)), Field("cmd", Str(Name(c)))] + Rest(c)
  }

  function NumberNext(c: Command, j: nat): seq<Field>
    requires j < |Rest(c)|
  {
    [DomainField(c), Rest(c)[j], Field("cmd", Str(Name(c))), Field("ip", Str(c.ip))] + Rest(c)[..j] + Rest(c)[j + 1..]
  }

  /** The pattern last: nothing is misread. */
  function DomainLast(c: Command): seq<Field> {
    [Field("cmd", Str(Name(c))), Field("ip", Str(c.ip))] + Rest(c) + [DomainField(c)]
  }

  lemma Rearranged(front: seq<Field>, c: Command)
    requires multiset(front) == multiset([Field("cmd", Str(Name(c))), Field("ip", Str(c.ip)), DomainField(c)])
    ensures InSomeOrder(front + Rest(c), c)
  {
    hide Fields, Rest;
    FieldsSplit(c);
    MultisetConcat(front, Rest(c));
    MultisetConcat([Field("cmd", Str(Name(c))), Field("ip", Str(c.ip)), DomainField(c)], Rest(c));
  }

  lemma MultisetConcat(xs: seq<Field>, ys: seq<Field>)
    ensures multiset(xs + ys) == multiset(xs) + multiset(ys)
  {
  }

  lemma OrdersAreOrders(c: Command)
    ensures InSomeOrder(NameNext(c), c) && InSomeOrder(AddressNext(c), c)
  {
    hide Rest, InSomeOrder, Fields;
    var a, b, d := Field("cmd", Str(Name(c))), Field("ip", Str(c.ip)), DomainField(c);
    assert multiset([d, a, b]) == multiset([a, b, d]) == multiset([d, b, a]);
    Rearranged([d, a, b], c);
    Rearranged([d, b, a], c);
  }

  lemma FieldsSplit(c: Command)
    ensures Fields(c) == [Field("cmd", Str(Name(c))), Field("ip", Str(c.ip)), DomainField(c)] + Rest(c)
  {
  }

  lemma DomainLastIsOrder(c: Command)
    ensures InSomeOrder(DomainLast(c), c)
  {
    hide Rest, Fields;
    var a, b, d := Field("cmd", Str(Name(c))), Field("ip", Str(c.ip)), DomainField(c);
    FieldsSplit(c);
    MultisetConcat([a, b, d], Rest(c));
    MultisetConcat([a, b] + Rest(c), [d]);
    MultisetConcat([a, b], Rest(c));
    MultisetConcat([a, b], [d]);
    assert [a, b] + [d] == [a, b, d];
  }

  lemma NumberNextIsOrder(c: Command, j: nat)
    requires j < |Rest(c)|
    ensures InSomeOrder(NumberNext(c, j), c)
  {
    hide Rest, Fields;
    var a, b, d, rest := Field("cmd", Str(Name(c))), Field("ip", Str(c.ip)), DomainField(c), Rest(c);
    var before, after := rest[..j], rest[j + 1..];
    FieldsSplit(c);
    MultisetConcat([a, b, d], rest);
    assert rest == before + [rest[j]] + after;
    MultisetConcat(before + [rest[j]], after);
    MultisetConcat(before, [rest[j]]);
    MultisetConcat([d, rest[j], a, b] + before, after);
    MultisetConcat([d, rest[j], a, b], before);
    assert multiset([d, rest[j], a, b]) == multiset([a, b, d]) + multiset([rest[j]]);
  }

  /** With the pattern first, the field it names is read from the next one. */
  lemma ReadNext(fs: seq<Field>, c: Command)
    requires |fs| > 1 && fs[0] == DomainField(c) && c.domain != "domain"
    ensures Source(fs, c.domain) == fs[1..]
  {
  }

  lemma {:induction false} DomainLastReads(c: Command)
    requires c.ip !in FIELD_NAMES
    ensures Seen(DomainLast(c)) == AsLine(c)
  {
    hide InSomeOrder, TextOf, NumberOf;
    DomainLastIsOrder(c);
    SeenElsewhere(DomainLast(c), c);
    if c.domain in FIELD_NAMES && c.domain != "domain" { OwnValue(c); }
  }

  lemma {:induction false} SourceLast(fs: seq<Field>, last: Field, key: string)
    requires last.key != key && last.value == Str(key)
    requires forall f <- fs :: f.value != Str(key)
    ensures Source(fs + [last], key) == if Source(fs, key) == [] then [] else Source(fs, key) + [last]
  {
    if fs != [] {
      assert (fs + [last])[1..] == fs[1..] + [last];
      assert fs[0] in fs;
      if fs[0].key != key { SourceLast(fs[1..], last, key); }
    }
  }

  /** The pattern comes last, so the field it names is read from itself or, when absent, from nothing. */
  lemma OwnOrNothing(c: Command)
    requires c.ip !in FIELD_NAMES && c.domain in FIELD_NAMES && c.domain != "domain"
    ensures var gs := Source(DomainLast(c), c.domain);
            if exists f <- Fields(c) :: f.key == c.domain
            then gs != [] && gs[0] in Fields(c) && gs[0].key == c.domain else gs == []
  {
    hide Fields, Source;
    var fs := [Field("cmd", Str(Name(c))), Field("ip", Str(c.ip))] + Rest(c);
    NameIsPlain(c);
    FieldsSplit(c);
    assert forall f :: f in Fields(c) <==> f in fs || f == DomainField(c);
    assert forall f <- fs :: f.value != Str(c.domain);
    SourceLast(fs, DomainField(c), c.domain);
    SourceOwn(fs, c.domain);
  }

  lemma OwnValue(c: Command)
    requires c.ip !in FIELD_NAMES && c.domain in FIELD_NAMES && c.domain != "domain"
    ensures var gs, l := Source(DomainLast(c), c.domain), AsLine(c);
            && (c.domain == "cmd" ==> TextOf(gs) == l.cmd)
            && (c.domain == "ip" ==> TextOf(gs) == l.ip)
            && (c.domain == "until" ==> NumberOf(gs, 0) == l.until)
            && (c.domain == "duration_seconds" ==> NumberOf(gs, 0) == l.duration)
            && (c.domain == "delay_ms" ==> ToInt32(NumberOf(gs, 500)) == l.delayMs)
  {
    hide Fields, ToInt32, Source, DomainLast;
    OwnOrNothing(c);
    FieldsThere(c);
    var gs := Source(DomainLast(c), c.domain);
    if gs != [] { FieldIs(c, gs[0]); }
  }

  /** The two disagree on some tables at some time. */
  ghost predicate Differ(l: Line, c: Command) {
    exists t, now :: Act(t, l, now) != Execute(t, c, now)
  }

  /** Tables that hold just the command's own key. */
  function Holding(k: string): Tables {
    Tables(map[k := Entry((), 0)], map[k := Entry(0, 0)])
  }

  lemma WrongName(c: Command, l: Line)
    requires c.ip != "" && c.domain == "cmd" && l.cmd != Name(c)
    ensures Differ(l, c)
  {
    var k := Key(c.ip, c.domain);
    var t := if c.Unblock? || c.Unthrottle? then Holding(k) else Tables(map[], map[]);
    var got, want := Act(t, l, 0), Execute(t, c, 0);
    match c
    case Block(_, _, _, _) => assert k in want.blocks && k !in got.blocks;
    case Throttle(_, _, _, _) => assert k in want.throttles && k !in got.throttles;
    case Unblock(_, _) => assert k !in want.blocks && k in got.blocks;
    case Unthrottle(_, _) => assert k !in want.throttles && k in got.throttles;
  }

  lemma KeyInjective(a: string, b: string, domain: string)
    requires Key(a, domain) == Key(b, domain)
    ensures a == b
  {
    assert |a| == |b|;
    assert a == Key(a, domain)[..|a|] && b == Key(b, domain)[..|b|];
  }

  lemma WrongAddress(c: Command, l: Line)
    requires c.domain == l.domain == "ip" && l.cmd == Name(c) && l.ip != "" && l.ip != c.ip
    ensures Differ(l, c)
  {
    var k := Key(l.ip, "ip");
    if Key(c.ip, "ip") == k { KeyInjective(c.ip, l.ip, "ip"); }
    var t := if c.Unblock? || c.Unthrottle? then Holding(k) else Tables(map[], map[]);
    var got, want := Act(t, l, 0), Execute(t, c, 0);
    match c
    case Block(_, _, _, _) => assert k in got.blocks && k !in want.blocks;
    case Throttle(_, _, _, _) => assert k in got.throttles && k !in want.throttles;
    case Unblock(_, _) => assert k !in got.blocks && k in want.blocks;
    case Unthrottle(_, _) => assert k !in got.throttles && k in want.throttles;
  }

  /** A number of the command is read wrong, with an effect at time now. */
  lemma WrongNumber(c: Command, l: Line, now: int)
    requires c.ip != "" && c.domain != "" && l.cmd == Name(c) && l.ip == c.ip && l.domain == c.domain
    requires match c
             case Block(_, _, dur, until) =>
               (if l.duration > 0 then now + l.duration else l.until)
               != (if OrZero(dur) > 0 then now + OrZero(dur) else OrZero(until))
             case Throttle(_, _, ms, dur) =>
               l.delayMs != ms
               || (if l.duration > 0 then now + l.duration else 0) != (if OrZero(dur) > 0 then now + OrZero(dur) else 0)
             case _ => false
    ensures Differ(l, c)
  {
    var k, t := Key(c.ip, c.domain), Tables(map[], map[]);
    var got, want := Act(t, l, now), Execute(t, c, now);
    if c.Block? { assert got.blocks[k] != want.blocks[k]; } else { assert got.throttles[k] != want.throttles[k]; }
  }

  lemma RestHas(c: Command, key: string) returns (j: nat)
    requires key in {"until", "duration_seconds", "delay_ms"} && NumberNamed(c, key).Some?
    ensures j < |Rest(c)| && Rest(c)[j] == Field(key, Num(NumberNamed(c, key).value))
  {
    j := if key == "delay_ms" then 0
         else if key == "until" then |Rest(c)| - 1
         else if c.Throttle? then 1 else 0;
  }

  /** What the misread field is read as, in the three kinds of order. */
  lemma NameNextReads(c: Command, def: int)
    requires c.domain != "domain"
    ensures var gs := Source(NameNext(c), c.domain); TextOf(gs) == Name(c) && NumberOf(gs, def) == def
  {
    hide Source;
    ReadNext(NameNext(c), c);
  }

  lemma AddressNextReads(c: Command)
    requires c.domain != "domain"
    ensures TextOf(Source(AddressNext(c), c.domain)) == c.ip
  {
    hide Source;
    ReadNext(AddressNext(c), c);
  }

  lemma NumberNextReads(c: Command, j: nat, def: int)
    requires c.domain != "domain" && j < |Rest(c)|
    ensures var gs := Source(NumberNext(c, j), c.domain);
            TextOf(gs) == "cmd" && NumberOf(gs, def) == Fit(Rest(c)[j].value.n, def)
  {
    hide Source, Rest;
    ReadNext(NumberNext(c, j), c);
    assert NumberNext(c, j)[1..][0] == Rest(c)[j] && NumberNext(c, j)[1..][1].key == "cmd";
  }

  /** A misread text: in some order the command's name or address is read wrong. */
  lemma TextHarm(c: Command) returns (fs: seq<Field>)
    requires c.ip !in FIELD_NAMES && Misread(c) && c.domain in {"cmd", "ip"}
    ensures InSomeOrder(fs, c) && Differ(Seen(fs), c)
  {
    hide InSomeOrder, Fields, Source, TextOf, NumberOf, Rest, Differ, ToInt32;
    OrdersAreOrders(c);
    NameIsPlain(c);
    if HasNumber(c) {
      var key := if UntilOf(c).Some? then "until" else if DurationOf(c).Some? then "duration_seconds" else "delay_ms";
      var j := RestHas(c, key);
      fs := NumberNext(c, j);
      NumberNextIsOrder(c, j);
      NumberNextReads(c, j, 0);
    } else if c.domain == "cmd" {
      fs := AddressNext(c);
      AddressNextReads(c);
    } else {
      fs := NameNext(c);
      NameNextReads(c, 0);
    }
    SeenElsewhere(fs, c);
    if c.domain == "cmd" { WrongName(c, Seen(fs)); } else { WrongAddress(c, Seen(fs)); }
  }

  /** A misread end: in some order zero or the duration is read for it. */
  lemma UntilHarm(c: Command) returns (fs: seq<Field>)
    requires c.ip !in FIELD_NAMES && Fits(c) && Misread(c) && c.domain == "until"
    ensures InSomeOrder(fs, c) && Differ(Seen(fs), c)
  {
    hide InSomeOrder, Fields, Source, TextOf, NumberOf, Rest, Differ, ToInt32;
    OrdersAreOrders(c);
    if OrZero(c.until) != 0 {
      fs := NameNext(c);
      NameNextReads(c, 0);
    } else {
      var j := RestHas(c, "duration_seconds");
      fs := NumberNext(c, j);
      NumberNextIsOrder(c, j);
      NumberNextReads(c, j, 0);
    }
    SeenElsewhere(fs, c);
    WrongNumber(c, Seen(fs), 0);
  }

  /** A misread duration: in some order zero, the end or the delay is read for it. */
  lemma DurationHarm(c: Command) returns (fs: seq<Field>)
    requires c.ip !in FIELD_NAMES && Fits(c) && Misread(c) && c.domain == "duration_seconds"
    ensures InSomeOrder(fs, c) && Differ(Seen(fs), c)
  {
    hide InSomeOrder, Fields, Source, TextOf, NumberOf, Rest, Differ, ToInt32;
    OrdersAreOrders(c);
    var d := OrZero(DurationOf(c));
    if d > 0 {
      fs := NameNext(c);
      NameNextReads(c, 0);
      SeenElsewhere(fs, c);
      WrongNumber(c, Seen(fs), if c.Block? then Seen(fs).until - d + 1 else 0);
    } else {
      var key := if c.Block? then "until" else "delay_ms";
      var j := RestHas(c, key);
      fs := NumberNext(c, j);
      NumberNextIsOrder(c, j);
      NumberNextReads(c, j, 0);
      SeenElsewhere(fs, c);
      WrongNumber(c, Seen(fs), 1);
    }
  }

  /** A misread delay: in some order the default or the duration is read for it. */
  lemma DelayHarm(c: Command) returns (fs: seq<Field>)
    requires c.ip !in FIELD_NAMES && Fits(c) && Misread(c) && c.domain == "delay_ms"
    ensures InSomeOrder(fs, c) && Differ(Seen(fs), c)
  {
    hide InSomeOrder, Fields, Source, TextOf, NumberOf, Rest, Differ;
    OrdersAreOrders(c);
    if c.delayMs != 500 {
      fs := NameNext(c);
      NameNextReads(c, 500);
    } else {
      var j := RestHas(c, "duration_seconds");
      fs := NumberNext(c, j);
      NumberNextIsOrder(c, j);
      NumberNextReads(c, j, 500);
    }
    SeenElsewhere(fs, c);
    WrongNumber(c, Seen(fs), 0);
  }

  lemma MisreadHarms(c: Command) returns (fs: seq<Field>)
    requires c.ip !in FIELD_NAMES && (Fits(c) || Ignored(c)) && Misread(c)
    ensures InSomeOrder(fs, c) && Differ(Seen(fs), c)
  {
    hide InSomeOrder, Fields, Seen, Differ;
    if c.domain in {"cmd", "ip"} { fs := TextHarm(c); }
    else if c.domain == "until" { fs := UntilHarm(c); }
    else if c.domain == "duration_seconds" { fs := DurationHarm(c); }
    else { fs := DelayHarm(c); }
  }

  // ---- the round trip ----

  /** In whatever order its fields are printed, the command has its own effect on all tables at all
      times. */
  ghost predicate ReadBackInAnyOrder(c: Command) {
    forall fs, t, now | InSomeOrder(fs, c) :: HandleLine(t, Print(fs), now) == Execute(t, c, now)
  }

  /** Handling a printed payload is acting on the line that the reader sees. */
  lemma {:induction false} HandledAsSeen(c: Command, fs: seq<Field>)
    requires Plain(c.ip) && Plain(c.domain) && InSomeOrder(fs, c)
    ensures forall t, now :: HandleLine(t, Print(fs), now) == Act(t, Seen(fs), now)
  {
    hide InSomeOrder, Print, Seen, Act, Plain, Fields, Extract;
    PayloadPlain(c, fs);
    ReaderSees(fs);
  }

  /** The round trip: printing a command's payload, in any field order, and reading the line back
      performs exactly the intended update of the tables. */
  lemma {:induction false} CommandRoundTrip(c: Command, fs: seq<Field>, t: Tables, now: int)
    requires Sendable(c) && InSomeOrder(fs, c)
    ensures HandleLine(t, Print(fs), now) == Execute(t, c, now)
  {
    hide InSomeOrder, Print, Seen, Act, Execute;
    HandledAsSeen(c, fs);
    SeenHarmless(c, fs, t, now);
  }

  /** Exactly which commands survive the channel: for a printable command with a proper address, every
      field order performs the intended update if and only if its numbers fit (or it is ignored anyway)
      and its pattern is not one of those that Misread lists. */
  lemma {:induction false} RoundTripIff(c: Command)
    requires Addressed(c)
    ensures ReadBackInAnyOrder(c) <==> (Fits(c) || Ignored(c)) && !Misread(c)
  {
    hide InSomeOrder, Print, Seen, Act, Execute, Fits, Misread, Plain, Fields, Extract;
    if (Fits(c) || Ignored(c)) && !Misread(c) {
      forall fs, t, now | InSomeOrder(fs, c) ensures HandleLine(t, Print(fs), now) == Execute(t, c, now) {
        CommandRoundTrip(c, fs, t, now);
      }
    } else if !(Fits(c) || Ignored(c)) {
      NarrowingHarmless(c);
      DomainLastReads(c);
      DomainLastIsOrder(c);
      HandledAsSeen(c, DomainLast(c));
    } else {
      var fs := MisreadHarms(c);
      HandledAsSeen(c, fs);
    }
  }

  /** For instance, an unblock of the pattern "cmd" is lost in some orders, one of "domain" in none. */
  lemma ForInstance()
    ensures !ReadBackInAnyOrder(Unblock("10.0.0.2", "cmd"))
    ensures ReadBackInAnyOrder(Unblock("10.0.0.2", "domain"))
  {
    hide ReadBackInAnyOrder;
    RoundTripIff(Unblock("10.0.0.2", "cmd"));
    RoundTripIff(Unblock("10.0.0.2", "domain"));
  }

  // ---- framing ----

  /** The commands one after the other, the i-th at clock(n + i). */
  function ExecuteTimed(t: Tables, cs: seq<Command>, clock: nat -> int, n: nat): Tables
    decreases |cs|
  {
    if cs == [] then t else ExecuteTimed(Execute(t, cs[0], clock(n)), cs[1..], clock, n + 1)
  }

  function Transmit(lines: seq<string>): string {
    if lines == [] then "" else lines[0] + "\n" + Transmit(lines[1..])
  }

  /** Whatever was buffered, a newline completes exactly one line. */
  lemma {:induction false} ServeLine(
      t: Tables, pending: string, line: string, rest: string, clock: nat -> int, n: nat)
    requires '\n' !in line
    ensures Serve(t, pending, line + "\n" + rest, clock, n)
         == Serve(HandleLine(t, pending + line, clock(n)), "", rest, clock, n + 1)
    decreases |line|
  {
    hide HandleLine;
    var stream := line + "\n" + rest;
    if line == "" {
      assert stream[1..] == rest && pending + line == pending;
    } else {
      assert stream[1..] == line[1..] + "\n" + rest;
      ServeLine(t, pending + [line[0]], line[1..], rest, clock, n);
      assert pending + [line[0]] + line[1..] == pending + line;
    }
  }

  lemma {:induction false} ServeDropsPartialLine(
      t: Tables, pending: string, partial: string, clock: nat -> int, n: nat)
    requires '\n' !in partial
    ensures Serve(t, pending, partial, clock, n) == t
    decreases |partial|
  {
    if partial != "" { ServeDropsPartialLine(t, pending + [partial[0]], partial[1..], clock, n); }
  }

  lemma {:induction false} FieldOneLine(f: Field)
    requires f.key in FIELD_NAMES && (f.value.Str? ==> Plain(f.value.s))
    ensures '\n' !in PrintField(f)
  {
    assert '\n' !in f.key;
    assert '\n' !in PrintValue(f.value) by {
      if f.value.Num? { assert forall i :: 0 <= i < |Decimal(f.value.n)| ==> Decimal(f.value.n)[i] != '\n'; }
    }
  }

  lemma {:induction false} FieldsOneLine(fs: seq<Field>)
    requires PlainFields(fs)
    ensures '\n' !in PrintFields(fs)
  {
    hide PrintField;
    if fs != [] {
      assert fs[0] in fs;
      FieldOneLine(fs[0]);
      FieldsOneLine(fs[1..]);
    }
  }

  ghost function PrintAll(payloads: seq<seq<Field>>): seq<string> {
    if payloads == [] then [] else [Print(payloads[0])] + PrintAll(payloads[1..])
  }

  /** The payloads are those of the commands, each with its fields in some order. */
  ghost predicate Encodes(payloads: seq<seq<Field>>, cs: seq<Command>) {
    if cs == [] || payloads == [] then cs == [] && payloads == [] else
    Sendable(cs[0]) && InSomeOrder(payloads[0], cs[0]) && Encodes(payloads[1..], cs[1..])
  }

  /** A printed payload and a newline execute the command, whatever follows. */
  lemma {:induction false} OneCommand(
      c: Command, fs: seq<Field>, rest: string, t: Tables, clock: nat -> int, n: nat)
    requires Sendable(c) && InSomeOrder(fs, c)
    ensures Serve(t, "", Print(fs) + "\n" + rest, clock, n)
         == Serve(Execute(t, c, clock(n)), "", rest, clock, n + 1)
  {
    hide HandleLine, Execute, InSomeOrder, Sendable, PlainFields, Serve;
    assert PlainFields(fs) by { SendableIsPlain(c); PayloadPlain(c, fs); }
    FieldsOneLine(fs);
    ServeLine(t, "", Print(fs), rest, clock, n);
    assert "" + Print(fs) == Print(fs);
    CommandRoundTrip(c, fs, t, clock(n));
  }

  lemma SendableIsPlain(c: Command)
    requires Sendable(c)
    ensures Plain(c.ip) && Plain(c.domain)
  {
  }

  /** Commands delivered: a stream of payloads, each in any field order and ended by a newline, with
      whatever partial line follows, executes exactly those commands in order, each at the clock's
      reading when its line is complete. */
  lemma {:induction false} CommandsDelivered(
      cs: seq<Command>, payloads: seq<seq<Field>>, partial: string, t: Tables, clock: nat -> int, n: nat)
    requires '\n' !in partial && Encodes(payloads, cs)
    ensures Serve(t, "", Transmit(PrintAll(payloads)) + partial, clock, n) == ExecuteTimed(t, cs, clock, n)
    decreases |cs|
  {
    hide Serve, Execute, Print, Sendable, InSomeOrder;
    if cs == [] {
      assert Transmit(PrintAll(payloads)) + partial == partial;
      ServeDropsPartialLine(t, "", partial, clock, n);
    } else {
      var rest := Transmit(PrintAll(payloads[1..])) + partial;
      assert PrintAll(payloads)[1..] == PrintAll(payloads[1..]);
      assert Transmit(PrintAll(payloads)) + partial == Print(payloads[0]) + "\n" + rest;
      OneCommand(cs[0], payloads[0], rest, t, clock, n);
      CommandsDelivered(cs[1..], payloads[1..], partial, Execute(t, cs[0], clock(n)), clock, n + 1);
    }
  }
}
