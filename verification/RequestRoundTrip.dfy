/**
 What fromJson makes of the requests a client writes, and what a client that reads
 like the gateway makes of an error response.
 */
module RequestRoundTrip {
  import opened Codes
  import opened Common
  import opened Decimal
  import opened JsonReader
  import opened JsonWriter
  import opened SocketRequest

  type Pairs = seq<(string, string)>

  function TextFields(pairs: Pairs): (fs: seq<Field>)
    ensures |fs| == |pairs|
    ensures forall f :: f in fs ==> Readable(f)
  {
    if pairs == [] then [] else [Text(pairs[0].0, pairs[0].1)] + TextFields(pairs[1..])
  }

  function Head(id: nat, cmd: CommandType): seq<Field> {
    [Bare("request_id", Print(id)), Text("command", CommandName(cmd))]
  }

  /** A request up to the brace that opens params, and then anything. */
  function RequestFrom(id: nat, cmd: CommandType, st: Style, inner: string): string {
    ['{'] + (FieldsText(Head(id, cmd), st) + (([','] + st.gap) + (ParamsKey(st) + (['{'] + inner))))
  }

  function ParamsKey(st: Style): string {
    Quote(st.escaper, "params") + ([':'] + st.gap)
  }

  /** A request with params last, every parameter a string. */
  function RequestText(id: nat, cmd: CommandType, pairs: Pairs, st: Style): string {
    RequestFrom(id, cmd, st, InnerText(pairs, st))
  }

  /** The parameters and the two closing braces. */
  function InnerText(pairs: Pairs, st: Style): string {
    FieldsText(TextFields(pairs), st) + ['}', '}']
  }

  /** The two spacings of json.dumps; compact form leaves no gap. */
  predicate IsStyle(st: Style) {
    st.gap == "" || st.gap == " "
  }

  /** What the nested object is read as. */
  function ReadPairs(pairs: Pairs, e: Escaper): Dict {
    ReadFields(TextFields(pairs), map[], e)
  }

  // ---- Where the parts of a request stand ----

  function KeyPos(id: nat, cmd: CommandType, st: Style): nat {
    1 + |FieldsText(Head(id, cmd), st)| + 1 + |st.gap|
  }

  function OpenPos(id: nat, cmd: CommandType, st: Style): nat {
    KeyPos(id, cmd, st) + |Quote(st.escaper, "params")| + 1 + |st.gap|
  }

  lemma {:induction false} HasWhole(before: string, s: string)
    ensures Has(before + s, |before|, s)
  {
    HasMiddle(before, s, "");
    assert before + s + "" == before + s;
  }

  lemma HasHead(s: string, pos: nat, c: char, rest: string)
    requires Has(s, pos, [c] + rest)
    ensures pos < |s| && s[pos] == c && Has(s, pos + 1, rest)
  {
    assert ([c] + rest)[1..] == rest;
  }

  lemma RequestParts(id: nat, cmd: CommandType, st: Style, inner: string)
    ensures var s := RequestFrom(id, cmd, st, inner);
            var head := FieldsText(Head(id, cmd), st);
            && |s| > 1 && s[0] == '{' && Has(s, 1, head) && Has(s, 1 + |head|, [','] + st.gap)
            && Has(s, KeyPos(id, cmd, st), ParamsKey(st) + (['{'] + inner))
  {
    hide FieldsText, ParamsKey, Head, Has;
    var s := RequestFrom(id, cmd, st, inner);
    var head, tail := FieldsText(Head(id, cmd), st), ParamsKey(st) + (['{'] + inner);
    HasWhole(['{'], head + (([','] + st.gap) + tail));
    HasSplit(s, 1, head, ([','] + st.gap) + tail);
    HasSplit(s, 1 + |head|, [','] + st.gap, tail);
  }

  lemma ParamsParts(s: string, key: nat, st: Style, inner: string)
    requires Has(s, key, ParamsKey(st) + (['{'] + inner))
    ensures var colon := key + |Quote(st.escaper, "params")|;
            var open := colon + 1 + |st.gap|;
            && Has(s, key, Quote(st.escaper, "params")) && colon < |s| && s[colon] == ':'
            && Has(s, colon + 1, st.gap)
            && open < |s| && s[open] == '{' && Has(s, open + 1, inner)
  {
    hide Quote, Has;
    var q := Quote(st.escaper, "params");
    HasSplit(s, key, ParamsKey(st), ['{'] + inner);
    HasSplit(s, key, q, [':'] + st.gap);
    HasHead(s, key + |q|, ':', st.gap);
    HasHead(s, key + |q| + 1 + |st.gap|, '{', inner);
  }

  // ---- find("\"params\"") finds the key ----

  /** No quote in t is directly followed by a p. */
  predicate NoQuoteP(t: string) {
    |t| < 2 || (!(t[0] == '"' && t[1] == 'p') && NoQuoteP(t[1..]))
  }

  predicate NoQuote(t: string) {
    '"' !in t
  }

  lemma {:induction false} NoQuotePJoin(a: string, b: string)
    requires NoQuoteP(a) && NoQuoteP(b)
    requires a != [] && b != [] ==> !(a[|a| - 1] == '"' && b[0] == 'p')
    ensures NoQuoteP(a + b)
  {
    if a == [] {
      assert a + b == b;
    } else if |a| == 1 {
      assert (a + b)[1..] == b;
    } else {
      assert (a + b)[1..] == a[1..] + b;
      NoQuotePJoin(a[1..], b);
    }
  }

  lemma {:induction false} NoQuoteNoQuoteP(t: string)
    requires NoQuote(t)
    ensures NoQuoteP(t)
  {
    if t != [] {
      assert t[0] in t;
      NoQuoteNoQuoteP(t[1..]);
    }
  }

  lemma {:induction false} NoQuotePAt(t: string, i: nat)
    requires NoQuoteP(t) && i + 1 < |t|
    ensures !(t[i] == '"' && t[i + 1] == 'p')
  {
    if i > 0 {
      NoQuotePAt(t[1..], i - 1);
    }
  }

  lemma {:induction false} DigitsNoQuote(s: string)
    requires AllDigits(s)
    ensures NoQuote(s) && NoStop(s)
  {
    if s != [] {
      DigitsNoQuote(s[1..]);
      assert IsDigit(s[0]);
      assert s == [s[0]] + s[1..];
      forall i | 0 <= i < |s| ensures !IsStop(s[i]) {
        assert IsDigit(s[i]);
      }
    }
  }

  lemma CommandLetters(cmd: CommandType)
    ensures |CommandName(cmd)| > 0 && forall c :: c in CommandName(cmd) ==> 'A' <= c <= 'Z' || c == '_'
  {
    match cmd
    case PING =>
    case GET_AGENT_STATUS =>
    case GET_AGENT_STATUS_BY_INDEX =>
    case GET_ACTIVE_SESSIONS =>
    case GET_CASE_LIST =>
    case GET_CASE_BY_ID =>
    case GET_HOTSPOT_DATA =>
    case GET_PRIORITY_CASES =>
    case GET_OFFICER_WORKLOAD =>
    case UNKNOWN =>
  }

  lemma CommandSimple(cmd: CommandType)
    ensures SimpleText(CommandName(cmd)) && NoQuote(CommandName(cmd))
    ensures |CommandName(cmd)| > 0 && CommandName(cmd)[0] != 'p'
  {
    var name := CommandName(cmd);
    CommandLetters(cmd);
    hide CommandName;
    assert name[0] in name;
    assert forall c :: c in name ==> 'A' <= c <= 'Z' || c == '_';
  }

  /** The text before the params key, spelled out. */
  function Prefix(id: nat, cmd: CommandType, st: Style): string {
    PrefixA(st) + (Print(id) + (PrefixB(st) + (CommandName(cmd) + PrefixC(st))))
  }

  function PrefixA(st: Style): string {
    ['{', '"'] + ("request_id" + (['"', ':'] + st.gap))
  }

  function PrefixB(st: Style): string {
    [','] + (st.gap + (['"'] + ("command" + (['"', ':'] + (st.gap + ['"'])))))
  }

  function PrefixC(st: Style): string {
    ['"', ','] + st.gap
  }

  /** A quoted word and the colon behind it. */
  lemma QuotedWord(word: string, st: Style)
    requires NoQuote(word) && word != [] && word[0] != 'p' && IsStyle(st)
    ensures NoQuoteP(['"'] + (word + (['"', ':'] + st.gap)))
  {
    var mid := ['"', ':'] + st.gap;
    assert NoQuoteP(mid);
    NoQuoteNoQuoteP(word);
    NoQuotePJoin(word, mid);
    NoQuotePJoin(['"'], word + mid);
  }

  lemma PrefixPieces(st: Style)
    requires IsStyle(st)
    ensures NoQuoteP(PrefixA(st)) && NoQuoteP(PrefixB(st)) && NoQuoteP(PrefixC(st))
    ensures PrefixA(st)[|PrefixA(st)| - 1] != '"' && PrefixB(st)[0] == ',' && PrefixC(st)[|PrefixC(st)| - 1] != '"'
  {
    QuotedWord("request_id", st);
    QuotedWord("command", st);
    PrefixJoin("request_id", "command", st);
  }

  lemma PrefixJoin(a: string, b: string, st: Style)
    requires IsStyle(st)
    requires NoQuoteP(['"'] + (a + (['"', ':'] + st.gap))) && NoQuoteP(['"'] + (b + (['"', ':'] + st.gap)))
    ensures NoQuoteP(['{', '"'] + (a + (['"', ':'] + st.gap)))
    ensures NoQuoteP([','] + (st.gap + (['"'] + (b + (['"', ':'] + (st.gap + ['"']))))))
  {
    var qa, qb := ['"'] + (a + (['"', ':'] + st.gap)), ['"'] + (b + (['"', ':'] + st.gap));
    NoQuotePJoin(['{'], qa);
    assert ['{'] + qa == ['{', '"'] + (a + (['"', ':'] + st.gap));
    NoQuotePJoin(qb, ['"']);
    NoQuotePJoin([','] + st.gap, qb + ['"']);
    assert [','] + st.gap + (qb + ['"']) == [','] + (st.gap + (['"'] + (b + (['"', ':'] + (st.gap + ['"'])))));
  }

  lemma PrefixClean(id: nat, cmd: CommandType, st: Style)
    requires IsStyle(st)
    ensures var p := Prefix(id, cmd, st);
            NoQuoteP(p) && |p| > 0 && p[|p| - 1] != '"'
  {
    PrefixPieces(st);
    CommandSimple(cmd);
    DigitsNoQuote(Print(id));
    hide PrefixA, PrefixB, PrefixC, CommandName, NoQuote, NoQuoteP;
    NoQuoteNoQuoteP(Print(id));
    NoQuoteNoQuoteP(CommandName(cmd));
    NoQuotePJoin(CommandName(cmd), PrefixC(st));
    NoQuotePJoin(PrefixB(st), CommandName(cmd) + PrefixC(st));
    NoQuotePJoin(Print(id), PrefixB(st) + (CommandName(cmd) + PrefixC(st)));
    NoQuotePJoin(PrefixA(st), Print(id) + (PrefixB(st) + (CommandName(cmd) + PrefixC(st))));
  }

  lemma PrefixText(id: nat, cmd: CommandType, st: Style)
    ensures ['{'] + (FieldsText(Head(id, cmd), st) + ([','] + st.gap)) == Prefix(id, cmd, st)
  {
    CommandSimple(cmd);
    KeysSimple();
    hide Escape, CommandName, Print, SimpleText;
    SimpleKept(st.escaper, "request_id");
    SimpleKept(st.escaper, "command");
    SimpleKept(st.escaper, CommandName(cmd));
    var name, digits := CommandName(cmd), Print(id);
    var f0, f1 := Head(id, cmd)[0], Head(id, cmd)[1];
    assert [f0, f1][1..] == [f1];
    assert FieldsText([f0, f1], st) == FieldText(f0, st) + ([','] + (st.gap + FieldText(f1, st)));
    PrefixAssociate("request_id", "command", digits, name, st);
  }

  lemma KeysSimple()
    ensures SimpleText("request_id") && SimpleText("command") && SimpleText("params")
  {
  }

  lemma PrefixAssociate(a: string, b: string, digits: string, name: string, st: Style)
    ensures var q := ['"'];
            var first := (q + a + q) + ([':'] + (st.gap + digits));
            var second := (q + b + q) + ([':'] + (st.gap + (q + name + q)));
            ['{'] + ((first + ([','] + (st.gap + second))) + ([','] + st.gap)) ==
            (['{', '"'] + (a + (['"', ':'] + st.gap)))
            + (digits + (([','] + (st.gap + (q + (b + (['"', ':'] + (st.gap + q)))))) + (name + (['"', ','] + st.gap))))
  {
  }

  lemma {:induction false} FindKeyFrom(s: string, p: string, i: nat)
    requires Has(s, 0, p) && Has(s, |p|, PARAMS_KEY) && i <= |p|
    requires NoQuoteP(p) && p != [] && p[|p| - 1] != '"'
    ensures |p| <= |s| && Find(s, PARAMS_KEY, i) == |p|
    decreases |p| - i
  {
    HasEnd(s, 0, p);
    if i < |p| {
      assert s[i] == s[0..|p|][i];
      if Has(s, i, PARAMS_KEY) {
        assert PARAMS_KEY[1..][0] == 'p';
        assert s[i] == '"' && s[i + 1] == 'p';
        if i + 1 < |p| {
          assert s[i + 1] == s[0..|p|][i + 1];
          NoQuotePAt(p, i);
        }
      }
      FindKeyFrom(s, p, i + 1);
    }
  }

  /** The nested object is found, whatever it contains. */
  lemma ParamsFound(id: nat, cmd: CommandType, st: Style, inner: string)
    requires IsStyle(st)
    ensures var s, open := RequestFrom(id, cmd, st, inner), OpenPos(id, cmd, st);
            && ParamsStart(s) == open && open < |s| && s[open] == '{' && Has(s, open + 1, inner)
  {
    hide FieldsText, ParamsKey, Has, Find, Head, NoQuoteP, Prefix, RequestFrom, Quote, SkipWs, ParamsStart, KeyPos;
    var s := RequestFrom(id, cmd, st, inner);
    var key := KeyPos(id, cmd, st);
    PrefixAtStart(id, cmd, st, inner);
    PrefixClean(id, cmd, st);
    RequestParts(id, cmd, st, inner);
    ParamsParts(s, key, st, inner);
    ParamsKeyText(st.escaper);
    FindKeyFrom(s, Prefix(id, cmd, st), 0);
    FindHere(s, key + |PARAMS_KEY|, ':');
    SkipExact(s, key + |PARAMS_KEY| + 1, st.gap);
    StartFrom(s, key, OpenPos(id, cmd, st));
  }

  lemma StartFrom(s: string, key: nat, open: nat)
    requires key + |PARAMS_KEY| < |s| && Find(s, PARAMS_KEY, 0) == key
    requires Find(s, [':'], key + |PARAMS_KEY|) == key + |PARAMS_KEY|
    requires SkipWs(s, key + |PARAMS_KEY| + 1) == open && open < |s| && s[open] == '{'
    ensures ParamsStart(s) == open
  {
    hide Find, SkipWs;
  }

  lemma ParamsKeyText(e: Escaper)
    ensures Quote(e, "params") == PARAMS_KEY
  {
    KeysSimple();
    hide SimpleText, Escape;
    SimpleKept(e, "params");
  }

  lemma FindHere(s: string, pos: nat, c: char)
    requires pos < |s| && s[pos] == c
    ensures Find(s, [c], pos) == pos
  {
    assert [c][1..] == [];
    assert Has(s, pos, [c]);
  }

  lemma PrefixAtStart(id: nat, cmd: CommandType, st: Style, inner: string)
    ensures |Prefix(id, cmd, st)| == KeyPos(id, cmd, st)
    ensures Has(RequestFrom(id, cmd, st, inner), 0, Prefix(id, cmd, st))
  {
    hide FieldsText, ParamsKey, Head, Prefix, Has;
    var s := RequestFrom(id, cmd, st, inner);
    var head := FieldsText(Head(id, cmd), st);
    var comma, tail := [','] + st.gap, ParamsKey(st) + (['{'] + inner);
    PrefixText(id, cmd, st);
    assert ['{'] + (head + (comma + tail)) == (['{'] + (head + comma)) + tail;
    HasWhole([], s);
    assert [] + s == s;
    HasSplit(s, 0, ['{'] + (head + comma), tail);
  }

  /** The nested object of a request with string parameters. */
  lemma ParamsObject(id: nat, cmd: CommandType, pairs: Pairs, st: Style)
    requires IsStyle(st)
    ensures var s, open := RequestText(id, cmd, pairs, st), OpenPos(id, cmd, st);
            && ParamsStart(s) == open && Has(s, open, ObjectText(TextFields(pairs), st))
  {
    hide FieldsText, Has, TextFields, RequestFrom, ParamsStart, OpenPos;
    var s, open, text := RequestText(id, cmd, pairs, st), OpenPos(id, cmd, st), FieldsText(TextFields(pairs), st);
    ParamsFound(id, cmd, st, InnerText(pairs, st));
    assert InnerText(pairs, st) == (text + ['}']) + ['}'];
    HasSplit(s, open + 1, text + ['}'], ['}']);
    HasCons(s, open, '{', text + ['}']);
    assert ObjectText(TextFields(pairs), st) == ['{'] + (text + ['}']);
  }

  lemma HasCons(s: string, pos: nat, c: char, t: string)
    requires pos < |s| && s[pos] == c && Has(s, pos + 1, t)
    ensures Has(s, pos, [c] + t)
  {
    assert ([c] + t)[1..] == t;
  }

  // ---- What the top-level parse sees ----

  function FirstPairText(pairs: Pairs, st: Style): string
    requires pairs != []
  {
    FieldText(Text(pairs[0].0, pairs[0].1), st)
  }

  lemma {:induction false} HasJoin(s: string, pos: nat, a: string, b: string)
    requires Has(s, pos, a) && Has(s, pos + |a|, b)
    ensures Has(s, pos, a + b)
    decreases |a|
  {
    if a == [] {
      assert a + b == b;
    } else {
      assert (a + b)[1..] == a[1..] + b;
      HasJoin(s, pos + 1, a[1..], b);
    }
  }

  function HeadDict(id: nat, cmd: CommandType): Dict {
    map["request_id" := Print(id), "command" := CommandName(cmd)]
  }

  lemma HeadRead(id: nat, cmd: CommandType, e: Escaper)
    ensures ReadFields(Head(id, cmd), map[], e) == HeadDict(id, cmd)
    ensures forall f :: f in Head(id, cmd) ==> Readable(f)
  {
    KeysSimple();
    CommandSimple(cmd);
    hide SimpleText, Escape, CommandName, Print, ReadBack;
    SimpleKept(e, "request_id");
    SimpleKept(e, "command");
    SimpleKept(e, CommandName(cmd));
    DigitsNoQuote(Print(id));
    var h := Head(id, cmd);
    var d1: Dict := map["request_id" := Print(id)];
    var d2 := d1["command" := CommandName(cmd)];
    assert h[1..] == [h[1]] && h[1..][1..] == [];
    assert ReadFields(h, map[], e) == ReadFields(h[1..], d1, e);
    assert ReadFields(h[1..], d1, e) == ReadFields([], d2, e);
    assert d2 == HeadDict(id, cmd);
  }

  /** The top-level object is read up to the params key. */
  lemma TopAtKey(id: nat, cmd: CommandType, st: Style, inner: string)
    requires IsStyle(st)
    ensures var s := RequestFrom(id, cmd, st, inner);
            var key := KeyPos(id, cmd, st);
            && key < |s| && s[key] == '"'
            && ParseObject(s, 0) == ParsePairs(s, key, HeadDict(id, cmd))
  {
    hide FieldsText, ParamsKey, Has, FieldText, ParsePairs, RequestFrom, Quote, Head, HeadDict, ReadFields;
    var s := RequestFrom(id, cmd, st, inner);
    var head := Head(id, cmd);
    HeadRead(id, cmd, st.escaper);
    HeadNonEmpty(id, cmd);
    RequestParts(id, cmd, st, inner);
    ParamsParts(s, KeyPos(id, cmd, st), st, inner);
    StringReadAt(st.escaper, s, KeyPos(id, cmd, st), "params");
    FieldsStart(s, 1, head, st);
    PairsSkip(s, 1, head, st, map[]);
  }

  lemma HeadNonEmpty(id: nat, cmd: CommandType)
    ensures Head(id, cmd) != []
  {
  }

  /** The params value is taken as a bare token that ends at the first stop
      character behind the opening brace. */
  lemma ParamsToken(id: nat, cmd: CommandType, st: Style, inner: string, token: string)
    requires IsStyle(st) && NoStop(token)
    requires var s := RequestFrom(id, cmd, st, inner);
             var end := OpenPos(id, cmd, st) + 1 + |token|;
             Has(s, OpenPos(id, cmd, st) + 1, token) && end < |s| && IsStop(s[end])
    ensures ParsePair(RequestFrom(id, cmd, st, inner), KeyPos(id, cmd, st)) ==
            Ok(("params", ['{'] + token), OpenPos(id, cmd, st) + 1 + |token|)
  {
    hide RequestFrom, ParsePair, Quote, ParamsKey, FieldsText, FieldText, Has, Escape, ReadBack, SimpleText, NoStop;
    var s := RequestFrom(id, cmd, st, inner);
    var key, open := KeyPos(id, cmd, st), OpenPos(id, cmd, st);
    RequestParts(id, cmd, st, inner);
    ParamsParts(s, key, st, inner);
    BraceToken(s, open, token);
    var f := Bare("params", ['{'] + token);
    FieldJoin(s, key, f, st);
    KeysSimple();
    SimpleKept(st.escaper, "params");
    PairRead(s, key, f, st);
  }

  lemma BraceToken(s: string, open: nat, token: string)
    requires open < |s| && s[open] == '{' && Has(s, open + 1, token) && NoStop(token)
    ensures Has(s, open, ['{'] + token) && NoStop(['{'] + token)
  {
    assert (['{'] + token)[1..] == token;
  }

  lemma FieldJoin(s: string, pos: nat, f: Field, st: Style)
    requires var colon := pos + |Quote(st.escaper, f.key)|;
             && Has(s, pos, Quote(st.escaper, f.key)) && colon < |s| && s[colon] == ':'
             && Has(s, colon + 1, st.gap) && Has(s, colon + 1 + |st.gap|, ValueText(f, st.escaper))
    ensures Has(s, pos, FieldText(f, st))
    ensures |FieldText(f, st)| == |Quote(st.escaper, f.key)| + 1 + |st.gap| + |ValueText(f, st.escaper)|
  {
    hide Quote, ValueText;
    var colon := pos + |Quote(st.escaper, f.key)|;
    var tail := st.gap + ValueText(f, st.escaper);
    HasJoin(s, colon + 1, st.gap, ValueText(f, st.escaper));
    assert ([':'] + tail)[1..] == tail;
    HasJoin(s, pos, Quote(st.escaper, f.key), [':'] + tail);
  }

  /** Where the first parameter stands and what comes behind it. */
  lemma FirstPairAt(s: string, open: nat, pairs: Pairs, st: Style)
    requires pairs != [] && Has(s, open, ObjectText(TextFields(pairs), st))
    ensures var first := FirstPairText(pairs, st);
            var next := open + 1 + |first|;
            && Has(s, open + 1, first) && next < |s|
            && s[next] == (if |pairs| == 1 then '}' else ',')
            && (|pairs| > 1 ==>
                  var rest := FieldsText(TextFields(pairs[1..]), st);
                  && Has(s, next + 1, st.gap) && Has(s, next + 1 + |st.gap|, rest)
                  && Has(s, next + 1 + |st.gap| + |rest|, ['}']))
  {
    hide FieldText;
    var fs := TextFields(pairs);
    var text := FieldsText(fs, st);
    assert ObjectText(fs, st)[1..] == text + ['}'];
    HasSplit(s, open + 1, text, ['}']);
    assert fs[0] == Text(pairs[0].0, pairs[0].1) && fs[1..] == TextFields(pairs[1..]);
    if |pairs| > 1 {
      FirstField(s, open + 1, fs, st);
      assert ([','] + st.gap)[1..] == st.gap;
    }
  }

  // ---- The round trip ----

  /** When the top-level parse runs on through the parameters, the second and later
      ones land in the top-level dictionary; those named request_id or command must
      then say the same as the real ones. */
  predicate LaterKeysAgree(id: nat, cmd: CommandType, pairs: Pairs, e: Escaper) {
    pairs == [] ||
    var later := ReadPairs(pairs[1..], e);
    && ("request_id" in later ==>
          var v := Stoul(later["request_id"]); v.Some? && v.value % UINT32_RANGE == id)
    && ("command" in later ==> ToCommandType(later["command"]) == cmd)
  }

  lemma {:induction false} ReadFieldsOver(fs: seq<Field>, obj: Dict, e: Escaper)
    ensures ReadFields(fs, obj, e) == obj + ReadFields(fs, map[], e)
  {
    hide ReadBack, ReadValue;
    if fs == [] {
      assert obj + map[] == obj;
    } else {
      var k, v := ReadBack(e, fs[0].key), ReadValue(fs[0], e);
      var m, more := map[][k := v], fs[1..];
      assert ReadFields(fs, obj, e) == ReadFields(more, obj[k := v], e) && ReadFields(fs, map[], e) == ReadFields(more, m, e);
      hide ReadFields;
      ReadFieldsOver(more, obj[k := v], e);
      ReadFieldsOver(more, m, e);
      OverTwice(obj, k, v, ReadFields(more, map[], e));
    }
  }

  lemma OverTwice(obj: Dict, k: string, v: string, later: Dict)
    ensures obj[k := v] + later == obj + (map[][k := v] + later)
  {
  }

  /** fromJson once the top-level dictionary and the parameters are known. */
  lemma FromJsonParsed(id: nat, cmd: CommandType, pairs: Pairs, st: Style, top: Dict, end: nat, out: Request)
    requires IsStyle(st) && id < UINT32_RANGE
    requires ParseObject(RequestText(id, cmd, pairs, st), 0) == Ok(top, end)
    requires "request_id" in top && "command" in top
    ensures var v := Stoul(top["request_id"]);
            FromJson(RequestText(id, cmd, pairs, st), out) == (OK, Request(id, cmd, ReadPairs(pairs, st.escaper))) <==>
            v.Some? && v.value % UINT32_RANGE == id && ToCommandType(top["command"]) == cmd
  {
    hide RequestText, ParseObject, Stoul, ToCommandType, ParamsStart, TextFields, ObjectText, Has, ReadFields, OpenPos,
         FromJson, Readable;
    ParamsObject(id, cmd, pairs, st);
    SpaceStyle(st);
    var json := RequestText(id, cmd, pairs, st);
    ObjectRead(json, OpenPos(id, cmd, st), TextFields(pairs), st);
    BothParsed(json, top, end, ReadPairs(pairs, st.escaper), out);
  }

  lemma SpaceStyle(st: Style)
    requires IsStyle(st)
    ensures AllSpace(st.gap)
  {
  }

  lemma BothParsed(json: string, top: Dict, end: nat, params: Dict, out: Request)
    requires ParseObject(json, 0) == Ok(top, end) && "request_id" in top && "command" in top
    requires ParamsStart(json) >= 0 && ParseObject(json, ParamsStart(json)).Ok?
    requires ParseObject(json, ParamsStart(json)).value == params
    ensures var v := Stoul(top["request_id"]);
            FromJson(json, out) ==
              if v.None? then (INVALID_INPUT, out)
              else (OK, Request(v.value % UINT32_RANGE, ToCommandType(top["command"]), params))
  {
    hide ParseObject, Stoul, ToCommandType, ParamsStart;
  }

  /** The whole tail is read at top level when the first parameter has no stop character. */
  lemma TopReadsOn(id: nat, cmd: CommandType, pairs: Pairs, e: Escaper)
    requires pairs != [] && NoStop(FirstPairText(pairs, Style("", e)))
    ensures var st := Style("", e);
            var r := ParseObject(RequestText(id, cmd, pairs, st), 0);
            && r.Ok?
            && r.value == HeadDict(id, cmd)["params" := ['{'] + FirstPairText(pairs, st)] + ReadPairs(pairs[1..], e)
  {
    hide RequestFrom, ParsePair, ParsePairs, ParseObject, ObjectText, FieldText, FieldsText, FirstPairText, Has, HeadDict,
         NoStop, ReadFields, TextFields, Quote, Head, Readable, SkipWs, InnerText, OpenPos, KeyPos, ParamsStart;
    var st := Style("", e);
    var s, inner := RequestText(id, cmd, pairs, st), InnerText(pairs, st);
    var key, open := KeyPos(id, cmd, st), OpenPos(id, cmd, st);
    var first := FirstPairText(pairs, st);
    var next := open + 1 + |first|;
    TopAtKey(id, cmd, st, inner);
    ParamsObject(id, cmd, pairs, st);
    FirstPairAt(s, open, pairs, st);
    ParamsToken(id, cmd, st, inner, first);
    var obj := HeadDict(id, cmd)["params" := ['{'] + first];
    var rest := TextFields(pairs[1..]);
    if |pairs| == 1 {
      PairsEnd(s, key, next, "params", ['{'] + first, HeadDict(id, cmd));
      NoPairs(pairs[1..]);
    } else {
      FieldsStart(s, next + 1, rest, st);
      SkipNothing(s, next + 1);
      PairsStep(s, key, next, next + 1, "params", ['{'] + first, HeadDict(id, cmd));
      PairsRead(s, next + 1, rest, st, obj);
    }
    ReadFieldsOver(rest, obj, e);
  }

  lemma SkipNothing(s: string, pos: nat)
    requires pos < |s| && !IsSpace(s[pos])
    ensures SkipWs(s, pos) == pos
  {
  }

  lemma NoPairs(pairs: Pairs)
    requires pairs == []
    ensures TextFields(pairs) == [] && forall e :: ReadFields([], map[], e) == map[]
  {
  }

  /** A request in compact form, by either writer, whose first parameter as written holds
      no comma, brace, bracket or blank, is read back as it was exactly when no later
      parameter is mistaken for another id or command. */
  lemma RoundTripCompact(id: nat, cmd: CommandType, pairs: Pairs, e: Escaper, out: Request)
    requires id < UINT32_RANGE && pairs != [] && NoStop(FirstPairText(pairs, Style("", e)))
    ensures FromJson(RequestText(id, cmd, pairs, Style("", e)), out) == (OK, Request(id, cmd, ReadPairs(pairs, e))) <==>
            LaterKeysAgree(id, cmd, pairs, e)
  {
    hide RequestText, ParseObject, FirstPairText, NoStop, FromJson, ReadFields, Stoul, ToCommandType, CommandName, Print;
    TopReadsOn(id, cmd, pairs, e);
    var st := Style("", e);
    var r := ParseObject(RequestText(id, cmd, pairs, st), 0);
    FromJsonParsed(id, cmd, pairs, st, r.value, r.pos, out);
    StoulPrint(id);
    CommandNamed(cmd);
  }

  /** A bare token ends where blanks begin, or a comma or brace does. */
  lemma BlanksStop(s: string, pos: nat, blanks: string)
    requires Has(s, pos, blanks) && AllSpace(blanks) && pos + |blanks| < |s|
    requires s[pos + |blanks|] == ',' || s[pos + |blanks|] == '}'
    ensures SkipWs(s, pos) == pos + |blanks| && IsStop(s[pos])
  {
    SkipExact(s, pos, blanks);
    if blanks != [] {
      HasHead(s, pos, blanks[0], blanks[1..]) by { assert blanks == [blanks[0]] + blanks[1..]; }
    }
  }

  /** The last pair, with blanks before the closing brace. */
  lemma PairsEndAfter(s: string, pos: nat, p1: nat, p2: nat, key: string, value: string, obj: Dict)
    requires pos < |s| && ParsePair(s, pos) == Ok((key, value), p1)
    requires p1 <= |s| && SkipWs(s, p1) == p2 < |s| && s[p2] == '}'
    ensures ParsePairs(s, pos, obj) == Ok(obj[key := value], p2 + 1)
  {
    hide ParsePair;
  }

  /** The top-level parse stops early at a closing brace inside the nested object. */
  lemma TopAtBrace(id: nat, cmd: CommandType, st: Style, inner: string, token: string, blanks: string)
    requires IsStyle(st) && NoStop(token) && AllSpace(blanks)
    requires var s := RequestFrom(id, cmd, st, inner);
             var end := OpenPos(id, cmd, st) + 1 + |token|;
             && Has(s, OpenPos(id, cmd, st) + 1, token) && Has(s, end, blanks)
             && end + |blanks| < |s| && s[end + |blanks|] == '}'
    ensures ParseObject(RequestFrom(id, cmd, st, inner), 0) ==
            Ok(HeadDict(id, cmd)["params" := ['{'] + token], OpenPos(id, cmd, st) + 1 + |token| + |blanks| + 1)
  {
    hide *;
    var s := RequestFrom(id, cmd, st, inner);
    var end := OpenPos(id, cmd, st) + 1 + |token|;
    BlanksStop(s, end, blanks);
    TopAtKey(id, cmd, st, inner);
    ParamsToken(id, cmd, st, inner, token);
    PairsEndAfter(s, KeyPos(id, cmd, st), end, end + |blanks|, "params", ['{'] + token, HeadDict(id, cmd));
  }

  lemma HeadDictAt(id: nat, cmd: CommandType, token: string)
    ensures var top := HeadDict(id, cmd)["params" := token];
            && "request_id" in top && "command" in top
            && top["request_id"] == Print(id) && top["command"] == CommandName(cmd)
  {
  }

  /** That is well: only the two leading fields count. */
  lemma RoundTripAtBrace(id: nat, cmd: CommandType, pairs: Pairs, st: Style, token: string, blanks: string, out: Request)
    requires IsStyle(st) && id < UINT32_RANGE && NoStop(token) && AllSpace(blanks)
    requires var s := RequestText(id, cmd, pairs, st);
             var end := OpenPos(id, cmd, st) + 1 + |token|;
             && Has(s, OpenPos(id, cmd, st) + 1, token) && Has(s, end, blanks)
             && end + |blanks| < |s| && s[end + |blanks|] == '}'
    ensures FromJson(RequestText(id, cmd, pairs, st), out) == (OK, Request(id, cmd, ReadPairs(pairs, st.escaper)))
  {
    hide RequestFrom, InnerText, ParseObject, FromJson, Has, NoStop, Stoul, ToCommandType, CommandName, Print, ReadPairs,
         HeadDict, OpenPos, AllSpace, IsStyle;
    TopAtBrace(id, cmd, st, InnerText(pairs, st), token, blanks);
    assert RequestText(id, cmd, pairs, st) == RequestFrom(id, cmd, st, InnerText(pairs, st));
    HeadDictAt(id, cmd, ['{'] + token);
    FromJsonParsed(id, cmd, pairs, st, HeadDict(id, cmd)["params" := ['{'] + token],
                   OpenPos(id, cmd, st) + 1 + |token| + |blanks| + 1, out);
    StoulPrint(id);
    CommandNamed(cmd);
    assert id < ULONG_RANGE && id % UINT32_RANGE == id;
  }

  /** Without parameters every request survives, in either spacing. */
  lemma RoundTripNoParams(id: nat, cmd: CommandType, st: Style, out: Request)
    requires IsStyle(st) && id < UINT32_RANGE
    ensures FromJson(RequestText(id, cmd, [], st), out) == (OK, Request(id, cmd, map[]))
  {
    hide RequestText, FromJson, ParamsStart, Has, ObjectText, FieldsText, Quote, Head;
    ParamsObject(id, cmd, [], st);
    var s, open := RequestText(id, cmd, [], st), OpenPos(id, cmd, st);
    EmptyObject(s, open, st);
    RoundTripAtBrace(id, cmd, [], st, [], [], out);
    NoPairs([]);
  }

  lemma EmptyObject(s: string, open: nat, st: Style)
    requires Has(s, open, ObjectText(TextFields([]), st))
    ensures Has(s, open + 1, []) && open + 1 < |s| && s[open + 1] == '}'
  {
    assert ObjectText(TextFields([]), st) == ['{'] + (['}'] + []);
    HasHead(s, open, '{', ['}'] + []);
    HasHead(s, open + 1, '}', []);
  }

  /** A closing brace in the first parameter, with nothing but blanks between it and the
      first stop character, makes the request safe in either spacing, whatever the later
      parameters are called. */
  lemma RoundTripBraceInside(id: nat, cmd: CommandType, pairs: Pairs, st: Style, token: string, blanks: string,
                             rest: string, out: Request)
    requires IsStyle(st) && id < UINT32_RANGE && pairs != [] && NoStop(token) && AllSpace(blanks)
    requires FirstPairText(pairs, st) == token + (blanks + (['}'] + rest))
    ensures FromJson(RequestText(id, cmd, pairs, st), out) == (OK, Request(id, cmd, ReadPairs(pairs, st.escaper)))
  {
    hide RequestText, FromJson, ParamsStart, FieldText, FieldsText, TextFields, ObjectText, NoStop, FirstPairText, Has, Quote,
         Head, ReadPairs;
    var s := RequestText(id, cmd, pairs, st);
    var open := OpenPos(id, cmd, st);
    var end := open + 1 + |token|;
    ParamsObject(id, cmd, pairs, st);
    FirstPairAt(s, open, pairs, st);
    HasSplit(s, open + 1, token, blanks + (['}'] + rest));
    HasSplit(s, end, blanks, ['}'] + rest);
    HasHead(s, end + |blanks|, '}', rest);
    RoundTripAtBrace(id, cmd, pairs, st, token, blanks, out);
  }

  /** Whatever stands between the braces: a bracket, or a blank not followed by a comma or
      a closing brace, as the first stop character makes the gateway reject the request
      and leave the caller's object alone. */
  lemma RejectedToken(id: nat, cmd: CommandType, st: Style,
                      token: string, blanks: string, c: char, rest: string, out: Request)
    requires IsStyle(st) && NoStop(token) && AllSpace(blanks)
    requires !IsSpace(c) && c != ',' && c != '}' && (blanks != [] || c == ']')
    ensures FromJson(RequestFrom(id, cmd, st, token + (blanks + ([c] + rest))), out) == (INVALID_INPUT, out)
  {
    hide RequestFrom, ParsePair, ParsePairs, ParseObject, ParamsStart, NoStop, Has, HeadDict, SkipWs, OpenPos, KeyPos;
    var inner := token + (blanks + ([c] + rest));
    var s := RequestFrom(id, cmd, st, inner);
    var end := OpenPos(id, cmd, st) + 1 + |token|;
    ParamsFound(id, cmd, st, inner);
    HasSplit(s, OpenPos(id, cmd, st) + 1, token, blanks + ([c] + rest));
    HasSplit(s, end, blanks, [c] + rest);
    HasHead(s, end + |blanks|, c, rest);
    SkipExact(s, end, blanks);
    if blanks != [] {
      HasHead(s, end, blanks[0], blanks[1..]) by { assert blanks == [blanks[0]] + blanks[1..]; }
    }
    TopAtKey(id, cmd, st, inner);
    ParamsToken(id, cmd, st, inner, token);
    PairsReject(s, KeyPos(id, cmd, st), end, HeadDict(id, cmd));
  }

  lemma PairsReject(s: string, pos: nat, p1: nat, obj: Dict)
    requires pos < |s| && ParsePair(s, pos).Ok? && ParsePair(s, pos).pos == p1
    requires var p2 := SkipWs(s, p1); p2 < |s| && s[p2] != ',' && s[p2] != '}'
    ensures ParsePairs(s, pos, obj) == Malformed
  {
    hide ParsePair;
  }

  /** json.dumps with its default spacing: a request with any parameter at all, whatever
      its value and whatever follows, is rejected, as long as the first key as written
      has no stop character. */
  lemma DefaultSpacingRejected(id: nat, cmd: CommandType, e: Escaper, key: string, c: char, rest: string, out: Request)
    requires NoStop(Quote(e, key)) && !IsSpace(c) && c != ',' && c != '}'
    ensures FromJson(RequestFrom(id, cmd, Style(" ", e), Quote(e, key) + ([':', ' ', c] + rest)), out) ==
            (INVALID_INPUT, out)
  {
    hide RequestFrom, FromJson, Quote;
    var token := Quote(e, key) + [':'];
    assert Quote(e, key) + ([':', ' ', c] + rest) == token + ([' '] + ([c] + rest));
    RejectedToken(id, cmd, Style(" ", e), token, [' '], c, rest, out);
  }

  /** A pair, blanks, a comma and blanks. */
  lemma PairsStepAfter(s: string, pos: nat, p1: nat, p2: nat, p3: nat, key: string, value: string, obj: Dict)
    requires pos < |s| && ParsePair(s, pos) == Ok((key, value), p1)
    requires p1 <= |s| && SkipWs(s, p1) == p2 < |s| && s[p2] == ',' && SkipWs(s, p2 + 1) == p3
    ensures ParsePairs(s, pos, obj) == ParsePairs(s, p3, obj[key := value])
  {
    hide ParsePair;
  }

  /** A comma whose next character but blanks is no quote is fatal too. */
  lemma RejectedComma(id: nat, cmd: CommandType, st: Style,
                      token: string, before: string, blanks: string, c: char, rest: string, out: Request)
    requires IsStyle(st) && NoStop(token) && AllSpace(before) && AllSpace(blanks)
    requires !IsSpace(c) && c != '"'
    ensures FromJson(RequestFrom(id, cmd, st, token + (before + ([','] + (blanks + ([c] + rest))))), out) ==
            (INVALID_INPUT, out)
  {
    hide RequestFrom, ParsePairs, ParseObject, ParamsStart, NoStop, Has, HeadDict, OpenPos, IsStyle, AllSpace;
    var s := RequestFrom(id, cmd, st, token + (before + ([','] + (blanks + ([c] + rest)))));
    var pos := AfterComma(id, cmd, st, token, before, blanks, c, rest);
    HasHead(s, pos, c, rest);
    NotAPair(s, pos, HeadDict(id, cmd)["params" := ['{'] + token]);
  }

  lemma NotAPair(s: string, pos: nat, obj: Dict)
    requires pos < |s| && !IsSpace(s[pos]) && s[pos] != '"'
    ensures ParsePairs(s, pos, obj) == Malformed
  {
    assert SkipWs(s, pos) == pos;
    assert ParseString(s, pos) == Malformed;
  }

  /** A comma and a quote: the quote that closes the first key or value is taken as the
      one that opens the next key.  Then the next quote closes it, and what follows must be
      a colon; anything else is fatal. */
  lemma RejectedShift(id: nat, cmd: CommandType, st: Style, token: string, before: string, blanks: string,
                      key: string, gap: string, c: char, rest: string, out: Request)
    requires IsStyle(st) && NoStop(token) && AllSpace(before) && AllSpace(blanks) && AllSpace(gap)
    requires (forall i :: 0 <= i < |key| ==> key[i] != '"' && key[i] != '\\') && !IsSpace(c) && c != ':'
    ensures var tail := ['"'] + (key + (['"'] + (gap + ([c] + rest))));
            FromJson(RequestFrom(id, cmd, st, token + (before + ([','] + (blanks + tail)))), out) == (INVALID_INPUT, out)
  {
    hide RequestFrom, ParsePair, ParsePairs, ParseObject, ParamsStart, NoStop, Has, HeadDict, SkipWs, OpenPos, KeyPos,
         IsStyle, AllSpace;
    var tail := ['"'] + (key + (['"'] + (gap + ([c] + rest))));
    var quote := AfterComma(id, cmd, st, token, before, blanks, '"', tail[1..]);
    var s := RequestFrom(id, cmd, st, token + (before + ([','] + (blanks + tail))));
    assert ['"'] + tail[1..] == tail;
    var close := quote + 1 + |key|;
    HasHead(s, quote, '"', tail[1..]);
    HasSplit(s, quote + 1, key, ['"'] + (gap + ([c] + rest)));
    HasHead(s, close, '"', gap + ([c] + rest));
    HasSplit(s, close + 1, gap, [c] + rest);
    HasHead(s, close + 1 + |gap|, c, rest);
    SkipExact(s, close + 1, gap);
    StringBetween(s, quote, key);
    NoColon(s, quote, key, close + 1, HeadDict(id, cmd)["params" := ['{'] + token]);
  }

  /** And when no quote follows at all, as behind a single parameter, that is fatal too. */
  lemma RejectedUnclosed(id: nat, cmd: CommandType, st: Style, token: string, before: string, blanks: string,
                         rest: string, out: Request)
    requires IsStyle(st) && NoStop(token) && AllSpace(before) && AllSpace(blanks) && NoQuote(rest)
    ensures FromJson(RequestFrom(id, cmd, st, token + (before + ([','] + (blanks + (['"'] + rest))))), out)
            == (INVALID_INPUT, out)
  {
    hide RequestFrom, ParsePair, ParsePairs, ParseObject, ParamsStart, NoStop, Has, HeadDict, SkipWs, OpenPos, KeyPos,
         IsStyle, AllSpace, NoQuote;
    var quote := AfterComma(id, cmd, st, token, before, blanks, '"', rest);
    var s := RequestFrom(id, cmd, st, token + (before + ([','] + (blanks + (['"'] + rest)))));
    HasHead(s, quote, '"', rest);
    HasEnd(s, quote + 1, rest);
    WholeTail(id, cmd, st, token + (before + ([','] + (blanks + (['"'] + rest)))));
    Unclosed(s, quote, rest, HeadDict(id, cmd)["params" := ['{'] + token]);
  }

  /** The top-level parse goes on behind a comma in the first parameter. */
  lemma AfterComma(id: nat, cmd: CommandType, st: Style, token: string, before: string, blanks: string,
                   c: char, rest: string) returns (pos: nat)
    requires IsStyle(st) && NoStop(token) && AllSpace(before) && AllSpace(blanks) && !IsSpace(c)
    ensures var s := RequestFrom(id, cmd, st, token + (before + ([','] + (blanks + ([c] + rest)))));
            && pos == OpenPos(id, cmd, st) + 1 + |token| + |before| + 1 + |blanks|
            && pos <= |s| && Has(s, pos, [c] + rest)
            && ParamsStart(s) == OpenPos(id, cmd, st)
            && ParseObject(s, 0) == ParsePairs(s, pos, HeadDict(id, cmd)["params" := ['{'] + token])
  {
    hide RequestFrom, ParsePair, ParsePairs, ParseObject, ParamsStart, NoStop, Has, HeadDict, SkipWs, OpenPos, KeyPos, IsStyle;
    var tail := blanks + ([c] + rest);
    var inner := token + (before + ([','] + tail));
    var s, key := RequestFrom(id, cmd, st, inner), KeyPos(id, cmd, st);
    var end := OpenPos(id, cmd, st) + 1 + |token|;
    var comma := end + |before|;
    ParamsFound(id, cmd, st, inner);
    HasSplit(s, OpenPos(id, cmd, st) + 1, token, before + ([','] + tail));
    HasSplit(s, end, before, [','] + tail);
    HasHead(s, comma, ',', tail);
    HasSplit(s, comma + 1, blanks, [c] + rest);
    pos := comma + 1 + |blanks|;
    HasHead(s, pos, c, rest);
    BlanksStop(s, end, before);
    SkipExact(s, comma + 1, blanks);
    TopAtKey(id, cmd, st, inner);
    ParamsToken(id, cmd, st, inner, token);
    PairsStepAfter(s, key, end, comma, pos, "params", ['{'] + token, HeadDict(id, cmd));
  }

  /** A text between two quotes, without quotes and backslashes. */
  lemma StringBetween(s: string, pos: nat, key: string)
    requires forall i :: 0 <= i < |key| ==> key[i] != '"' && key[i] != '\\'
    requires pos < |s| && s[pos] == '"' && Has(s, pos + 1, key)
    requires pos + 1 + |key| < |s| && s[pos + 1 + |key|] == '"'
    ensures ParseString(s, pos) == Ok(key, pos + |key| + 2)
  {
    hide StringBody, Has;
    PlainSteps(s, pos + 1, key);
    BodyEnd(s, pos + 1 + |key|);
    assert key + [] == key;
  }

  lemma NoColon(s: string, pos: nat, key: string, end: nat, obj: Dict)
    requires pos < |s| && ParseString(s, pos) == Ok(key, end)
    requires end <= |s| && SkipWs(s, end) < |s| && s[SkipWs(s, end)] != ':' && !IsSpace(s[SkipWs(s, end)])
    ensures ParsePairs(s, pos, obj) == Malformed
  {
    hide ParseString;
    assert SkipWs(s, SkipWs(s, end)) == SkipWs(s, end);
  }

  lemma Unclosed(s: string, pos: nat, rest: string, obj: Dict)
    requires pos < |s| && s[pos] == '"' && s[pos + 1..] == rest && NoQuote(rest)
    ensures ParsePairs(s, pos, obj) == Malformed
  {
    var body := StringBody(s, pos + 1);
    forall i | pos < i < |s| ensures s[i] != '"' {
      assert s[i] == rest[i - pos - 1];
      assert s[i] in rest;
    }
    hide StringBody;
    assert ParseString(s, pos) == Malformed;
  }

  lemma WholeTail(id: nat, cmd: CommandType, st: Style, inner: string)
    ensures |RequestFrom(id, cmd, st, inner)| == OpenPos(id, cmd, st) + 1 + |inner|
  {
    hide FieldsText, Quote, Head;
  }

  // ---- Plain text ----

  predicate PlainPairs(pairs: Pairs, e: Escaper) {
    forall p :: p in pairs ==> Plain(e, p.0) && Plain(e, p.1)
  }

  /** The client's dictionary; a repeated key keeps its last value. */
  function DictOf(pairs: Pairs, base: Dict): Dict {
    if pairs == [] then base else DictOf(pairs[1..], base[pairs[0].0 := pairs[0].1])
  }

  lemma {:induction false} PlainPairsRead(pairs: Pairs, base: Dict, e: Escaper)
    requires PlainPairs(pairs, e)
    ensures ReadFields(TextFields(pairs), base, e) == DictOf(pairs, base)
  {
    if pairs != [] {
      hide ReadBack, Plain;
      var k, v := pairs[0].0, pairs[0].1;
      assert pairs[0] in pairs && forall p :: p in pairs[1..] ==> p in pairs;
      ReadBackExact(e, k);
      ReadBackExact(e, v);
      assert TextFields(pairs)[0] == Text(k, v) && TextFields(pairs)[1..] == TextFields(pairs[1..]);
      PlainPairsRead(pairs[1..], base[k := v], e);
    }
  }

  /** The dictionary a client sends in compact form arrives unchanged when its texts are
      kept: with json.dumps, printable ASCII, \n, \r and \t. */
  lemma RoundTripPlain(id: nat, cmd: CommandType, pairs: Pairs, e: Escaper, out: Request)
    requires id < UINT32_RANGE && PlainPairs(pairs, e) && (pairs == [] || NoStop(FirstPairText(pairs, Style("", e))))
    requires forall i :: 0 < i < |pairs| ==> pairs[i].0 != "request_id" && pairs[i].0 != "command"
    ensures FromJson(RequestText(id, cmd, pairs, Style("", e)), out) == (OK, Request(id, cmd, DictOf(pairs, map[])))
  {
    hide RequestText, FromJson, FieldText, ReadFields, TextFields, NoStop, Stoul, ToCommandType, FirstPairText, Plain, Print,
         CommandName, Quote;
    PlainPairsRead(pairs, map[], e);
    if pairs == [] {
      RoundTripNoParams(id, cmd, Style("", e), out);
    } else {
      PlainKeysAgree(id, cmd, pairs, e);
      hide LaterKeysAgree, DictOf, PlainPairs;
      RoundTripCompact(id, cmd, pairs, e, out);
    }
  }

  lemma PlainKeysAgree(id: nat, cmd: CommandType, pairs: Pairs, e: Escaper)
    requires pairs != [] && PlainPairs(pairs, e)
    requires forall i :: 0 < i < |pairs| ==> pairs[i].0 != "request_id" && pairs[i].0 != "command"
    ensures LaterKeysAgree(id, cmd, pairs, e)
  {
    hide ReadFields, TextFields, Stoul, ToCommandType, Plain;
    var later := pairs[1..];
    assert forall p :: p in later ==> p in pairs;
    PlainPairsRead(later, map[], e);
    assert forall i :: 0 <= i < |later| ==> later[i] == pairs[i + 1];
    DictKeys(later, map[], "request_id");
    DictKeys(later, map[], "command");
  }

  lemma {:induction false} DictKeys(pairs: Pairs, base: Dict, key: string)
    requires forall i :: 0 <= i < |pairs| ==> pairs[i].0 != key
    ensures key in DictOf(pairs, base) <==> key in base
  {
    if pairs != [] {
      assert forall i :: 0 <= i < |pairs[1..]| ==> pairs[1..][i] == pairs[i + 1];
      DictKeys(pairs[1..], base[pairs[0].0 := pairs[0].1], key);
    }
  }

  /** Parameters that do not start with a quote make the request malformed only after id and
      command were taken over: the caller finds those of the request. */
  lemma RejectedParams(id: nat, cmd: CommandType, st: Style, token: string, rest: string, out: Request)
    requires IsStyle(st) && id < UINT32_RANGE && NoStop(token) && token != "" && token[0] != '"'
    ensures FromJson(RequestFrom(id, cmd, st, token + (['}'] + rest)), out) ==
            (INVALID_INPUT, Request(id, cmd, out.params))
  {
    hide RequestFrom, ParseObject, ParsePairs, ParamsStart, FromJson, Has, NoStop, Stoul, ToCommandType, CommandName, Print,
         HeadDict, OpenPos, IsStyle, SkipWs;
    var inner := token + (['}'] + rest);
    var s, open := RequestFrom(id, cmd, st, inner), OpenPos(id, cmd, st);
    ParamsFound(id, cmd, st, inner);
    HasSplit(s, open + 1, token, ['}'] + rest);
    HasHead(s, open + 1 + |token|, '}', rest);
    NoBlanks(s, open + 1 + |token|);
    TopAtBrace(id, cmd, st, inner, token, "");
    HeadDictAt(id, cmd, ['{'] + token);
    assert token == [token[0]] + token[1..];
    HasHead(s, open + 1, token[0], token[1..]);
    NestedMalformed(s, open, token);
    StoulPrint(id);
    CommandNamed(cmd);
    assert id < ULONG_RANGE && id % UINT32_RANGE == id;
    ParamsMalformed(s, HeadDict(id, cmd)["params" := ['{'] + token], open + 1 + |token| + 0 + 1, out);
  }

  lemma NoBlanks(s: string, pos: nat)
    requires pos <= |s|
    ensures Has(s, pos, "") && AllSpace("")
  {
  }

  lemma NestedMalformed(s: string, open: nat, token: string)
    requires NoStop(token) && token != "" && token[0] != '"'
    requires open + 1 < |s| && s[open] == '{' && s[open + 1] == token[0]
    ensures ParseObject(s, open) == Malformed
  {
    assert !IsStop(token[0]);
    NotAPair(s, open + 1, map[]);
    hide ParsePairs;
    assert SkipWs(s, open) == open && SkipWs(s, open + 1) == open + 1;
  }

  lemma ParamsMalformed(json: string, top: Dict, end: nat, out: Request)
    requires ParseObject(json, 0) == Ok(top, end) && "request_id" in top && "command" in top
    requires ParamsStart(json) >= 0 && ParseObject(json, ParamsStart(json)) == Malformed
    ensures var v := Stoul(top["request_id"]);
            FromJson(json, out) ==
              if v.None? then (INVALID_INPUT, out)
              else (INVALID_INPUT, Request(v.value % UINT32_RANGE, ToCommandType(top["command"]), out.params))
  {
    hide ParseObject, Stoul, ToCommandType, ParamsStart;
  }

  // ---- Requests without an object of parameters ----

  /** Any object, by either writer, in which the text "params" does not occur: what is there
      is taken over, a missing id leaves the caller's, a missing command is UNKNOWN, the
      parameters stay the caller's, and an id that is no number changes nothing. */
  lemma ObjectRequest(fs: seq<Field>, st: Style, out: Request)
    requires AllSpace(st.gap) && forall f :: f in fs ==> Readable(f)
    requires forall i: nat :: i <= |ObjectText(fs, st)| ==> !Has(ObjectText(fs, st), i, "\"params\"")
    ensures var d := ReadFields(fs, map[], st.escaper);
            FromJson(ObjectText(fs, st), out) ==
              if "request_id" in d && Stoul(d["request_id"]) == None then (INVALID_INPUT, out)
              else (OK, Request(if "request_id" in d then Stoul(d["request_id"]).value % 0x1_0000_0000 else out.requestId,
                                if "command" in d then ToCommandType(d["command"]) else UNKNOWN,
                                out.params))
  {
    hide ParseObject, Stoul, ToCommandType, ReadFields, Find, Has, ObjectText, Readable, AllSpace;
    var s := ObjectText(fs, st);
    HasWhole([], s);
    assert [] + s == s;
    ObjectRead(s, 0, fs, st);
    assert PARAMS_KEY == "\"params\"";
    NotFound(s, PARAMS_KEY, 0);
  }

  /** Parameters that are no object, say null, are not looked at: the caller's stay. */
  lemma ParamsNotObject(json: string, key: nat, colon: nat, value: nat, out: Request)
    requires Has(json, key, "\"params\"") && forall i: nat :: i < key ==> !Has(json, i, "\"params\"")
    requires key + 8 <= colon < |json| && json[colon] == ':' && forall i :: key + 8 <= i < colon ==> json[i] != ':'
    requires colon < value <= |json| && forall i :: colon < i < value ==> IsSpace(json[i])
    requires value < |json| ==> !IsSpace(json[value]) && json[value] != '{'
    ensures FromJson(json, out).1.params == out.params
  {
    assert PARAMS_KEY == "\"params\"";
    hide FromJson, ParamsStart, Has;
    ValueNotObject(json, key, colon, value);
    NoStart(json, out);
  }

  lemma ValueNotObject(json: string, key: nat, colon: nat, value: nat)
    requires Has(json, key, PARAMS_KEY) && forall i: nat :: i < key ==> !Has(json, i, PARAMS_KEY)
    requires key + 8 <= colon < |json| && json[colon] == ':' && forall i :: key + 8 <= i < colon ==> json[i] != ':'
    requires colon < value <= |json| && forall i :: colon < i < value ==> IsSpace(json[i])
    requires value < |json| ==> !IsSpace(json[value]) && json[value] != '{'
    ensures ParamsStart(json) == -1
  {
    hide SkipWs, Find, Has;
    FoundAt(json, PARAMS_KEY, 0, key);
    forall i: nat | i < colon && key + 8 <= i ensures !Has(json, i, [':']) {
      NotHere(json, i, ':');
    }
    Here(json, colon, ':');
    FoundAt(json, [':'], key + 8, colon);
    SkipsTo(json, colon + 1, value);
  }

  lemma NoStart(json: string, out: Request)
    requires ParamsStart(json) == -1
    ensures FromJson(json, out).1.params == out.params
  {
    hide ParseObject, Stoul, ToCommandType, ParamsStart;
  }

  lemma NotHere(s: string, i: nat, c: char)
    requires i < |s| && s[i] != c
    ensures !Has(s, i, [c])
  {
  }

  lemma Here(s: string, i: nat, c: char)
    requires i < |s| && s[i] == c
    ensures Has(s, i, [c])
  {
    assert [c][1..] == [];
  }

  lemma {:induction false} FoundAt(s: string, needle: string, from: nat, pos: nat)
    requires from <= pos <= |s| && Has(s, pos, needle) && forall i: nat :: from <= i < pos ==> !Has(s, i, needle)
    ensures Find(s, needle, from) == pos
    decreases pos - from
  {
    hide Has;
    if from < pos {
      FoundAt(s, needle, from + 1, pos);
    }
  }

  lemma SkipsTo(s: string, from: nat, to: nat)
    requires from <= to <= |s| && (forall i :: from <= i < to ==> IsSpace(s[i])) && (to < |s| ==> !IsSpace(s[to]))
    ensures SkipWs(s, from) == to
  {
    hide IsSpace;
  }

  lemma {:induction false} NotFound(s: string, needle: string, from: nat)
    requires from <= |s| && forall i: nat :: i <= |s| ==> !Has(s, i, needle)
    ensures Find(s, needle, from) == -1
    decreases |s| - from
  {
    hide Has;
    if from < |s| {
      NotFound(s, needle, from + 1);
    }
  }

  // ---- Error responses ----

  /** A reader like the gateway's own recovers id, status and message of an error
      response; the message exactly when it is plain. */
  lemma ErrorResponseRead(id: nat, code: ResultCode, msg: string)
    requires id < UINT32_RANGE
    ensures var text := ToJson(ErrorResponse(id, code, msg));
            var r := ParseObject(text, 0);
            && r.Ok? && r.pos == |text|
            && r.value == map["request_id" := Print(id), "status" := Print(Number(code)),
                              "message" := ReadBack(Gateway, msg), "data" := "null"]
            && Stoul(r.value["request_id"]) == Some(id)
            && Stoul(r.value["status"]) == Some(Number(code))
            && (r.value["message"] == msg <==> Plain(Gateway, msg))
  {
    hide ToJson, ParseObject, ObjectText, Print, Number, Stoul, Plain, Has, ResponseFields, ReadFields, ReadBack, Readable;
    var resp := ErrorResponse(id, code, msg);
    var f := ResponseFields(resp);
    ToJsonIsObject(resp);
    ResponseReadable(id, code, msg);
    HasWhole([], ToJson(resp));
    assert [] + ToJson(resp) == ToJson(resp);
    ObjectRead(ToJson(resp), 0, f, COMPACT);
    ResponseDict(id, code, msg);
    StoulPrint(id);
    assert Number(code) < ULONG_RANGE by { NumberSmall(code); }
    StoulPrint(Number(code));
    ReadBackExact(Gateway, msg);
  }

  lemma NumberSmall(code: ResultCode)
    ensures Number(code) < 42
  {
  }

  lemma ResponseReadable(id: nat, code: ResultCode, msg: string)
    ensures forall f :: f in ResponseFields(ErrorResponse(id, code, msg)) ==> Readable(f)
  {
    hide Print, Number, NoStop;
    DigitsNoQuote(Print(id));
    DigitsNoQuote(Print(Number(code)));
    assert Print(id)[0] in Print(id) && Print(Number(code))[0] in Print(Number(code));
    NullToken();
  }

  lemma NullToken()
    ensures NoStop("null")
  {
  }

  lemma ResponseDict(id: nat, code: ResultCode, msg: string)
    ensures ReadFields(ResponseFields(ErrorResponse(id, code, msg)), map[], Gateway) ==
            map["request_id" := Print(id), "status" := Print(Number(code)), "message" := ReadBack(Gateway, msg), "data" := "null"]
  {
    ResponseKeysSimple();
    hide Print, Number, SimpleText, ReadBack, Escape;
    SimpleKept(Gateway, "request_id");
    SimpleKept(Gateway, "status");
    SimpleKept(Gateway, "message");
    SimpleKept(Gateway, "data");
    var f := ResponseFields(ErrorResponse(id, code, msg));
    var d1: Dict := map["request_id" := Print(id)];
    var d2 := d1["status" := Print(Number(code))];
    var d3 := d2["message" := ReadBack(Gateway, msg)];
    assert f[1..] == [f[1], f[2], f[3]] && f[1..][1..] == [f[2], f[3]];
    assert [f[2], f[3]][1..] == [f[3]] && [f[3]][1..] == [];
    assert ReadFields(f, map[], Gateway) == ReadFields(f[1..], d1, Gateway);
    assert ReadFields(f[1..], d1, Gateway) == ReadFields([f[2], f[3]], d2, Gateway);
    assert ReadFields([f[2], f[3]], d2, Gateway) == ReadFields([f[3]], d3, Gateway);
    assert ReadFields([f[3]], d3, Gateway) == ReadFields([], d3["data" := "null"], Gateway);
  }
}