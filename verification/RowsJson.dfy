/**
 Query rows as a JSON array, and the proof that the gateway writes JSON: every array of
 rows and, with a payload that is JSON or is quoted, every response.
 */
module RowsJson {
  import opened Common
  import opened Decimal
  import opened JsonReader
  import opened JsonWriter
  import opened SocketRequest
  import G = JsonGrammar

  // ---- rowsToJsonArray ----

  function Columns(colNames: seq<string>, row: seq<string>): nat {
    if |colNames| < |row| then |colNames| else |row|
  }

  /** Column c of a row, as a member of its object. */
  function RowFields(colNames: seq<string>, row: seq<string>): (fs: seq<Field>)
    ensures |fs| == Columns(colNames, row)
    ensures forall c :: 0 <= c < |fs| ==> fs[c] == Field.Text(colNames[c], row[c])
  {
    seq(Columns(colNames, row), c requires 0 <= c < Columns(colNames, row) => Field.Text(colNames[c], row[c]))
  }

  function RowText(colNames: seq<string>, row: seq<string>): string {
    ObjectText(RowFields(colNames, row), COMPACT)
  }

  function RowTexts(colNames: seq<string>, rows: seq<seq<string>>): string {
    if rows == [] then []
    else if |rows| == 1 then RowText(colNames, rows[0])
    else RowText(colNames, rows[0]) + ([','] + RowTexts(colNames, rows[1..]))
  }

  function RowsText(colNames: seq<string>, rows: seq<seq<string>>): string {
    ['['] + RowTexts(colNames, rows) + [']']
  }

  /** What is still to be written: the members, or items, from the k-th on, with the
      comma before it unless it is the first. */
  function RestFields(fs: seq<Field>, k: nat): string
    requires k <= |fs|
  {
    if k == |fs| then [] else (if k == 0 then [] else [',']) + FieldsText(fs[k..], COMPACT)
  }

  lemma RestFieldsStep(fs: seq<Field>, k: nat)
    requires k < |fs|
    ensures RestFields(fs, k) == (if k == 0 then [] else [',']) + FieldText(fs[k], COMPACT) + RestFields(fs, k + 1)
  {
    FieldsTextStep(fs[k..]);
    hide FieldText, FieldsText;
    assert fs[k..][1..] == fs[k + 1..];
    Join(if k == 0 then [] else [','], FieldText(fs[k], COMPACT), RestFields(fs, k + 1));
  }

  lemma FieldsTextStep(fs: seq<Field>)
    requires fs != []
    ensures FieldsText(fs, COMPACT) ==
            FieldText(fs[0], COMPACT) + (if |fs| == 1 then [] else [','] + FieldsText(fs[1..], COMPACT))
  {
    hide FieldText;
    var rest := FieldsText(fs[1..], COMPACT);
    assert [] + rest == rest;
  }

  lemma Join(a: string, b: string, c: string)
    ensures a + (b + c) == a + b + c
  {
  }

  function RestRows(colNames: seq<string>, rows: seq<seq<string>>, k: nat): string
    requires k <= |rows|
  {
    if k == |rows| then [] else (if k == 0 then [] else [',']) + RowTexts(colNames, rows[k..])
  }

  lemma RestRowsStep(colNames: seq<string>, rows: seq<seq<string>>, k: nat)
    requires k < |rows|
    ensures RestRows(colNames, rows, k) ==
            (if k == 0 then [] else [',']) + RowText(colNames, rows[k]) + RestRows(colNames, rows, k + 1)
  {
    RowTextsStep(colNames, rows[k..]);
    hide RowText, RowTexts;
    assert rows[k..][1..] == rows[k + 1..];
    Join(if k == 0 then [] else [','], RowText(colNames, rows[k]), RestRows(colNames, rows, k + 1));
  }

  lemma RowTextsStep(colNames: seq<string>, rows: seq<seq<string>>)
    requires rows != []
    ensures RowTexts(colNames, rows) ==
            RowText(colNames, rows[0]) + (if |rows| == 1 then [] else [','] + RowTexts(colNames, rows[1..]))
  {
    hide RowText;
  }

  /** The inner loop: one row. */
  method WriteRow(colNames: seq<string>, row: seq<string>) returns (out: string)
    ensures out == RowText(colNames, row)
  {
    hide FieldText, FieldsText, Escape, RestFields;
    out := ['{'];
    var cols := Columns(colNames, row);
    ghost var fs := RowFields(colNames, row);
    AllFieldsLeft(fs);
    for c := 0 to cols
      invariant out + RestFields(fs, c) == ['{'] + FieldsText(fs, COMPACT)
    {
      RestFieldsStep(fs, c);
      ghost var before, rest := out, RestFields(fs, c + 1);
      if c > 0 {
        out := out + [','];
      }
      var key := JsonEscape(colNames[c]);
      var value := JsonEscape(row[c]);
      out := out + ['"'] + key + ['"'] + [':'] + ['"'] + value + ['"'];
      MemberWritten(colNames[c], row[c]);
      assert out + rest == before + ((if c == 0 then [] else [',']) + FieldText(fs[c], COMPACT) + rest);
    }
    out := out + ['}'];
  }

  lemma AllFieldsLeft(fs: seq<Field>)
    ensures RestFields(fs, 0) == FieldsText(fs, COMPACT) && RestFields(fs, |fs|) == []
  {
    assert fs[0..] == fs;
  }

  lemma MemberWritten(key: string, value: string)
    ensures FieldText(Field.Text(key, value), COMPACT) == Quote(Gateway, key) + [':'] + Quote(Gateway, value)
  {
    assert [] + Quote(Gateway, value) == Quote(Gateway, value);
  }

  method RowsToJsonArray(colNames: seq<string>, rows: seq<seq<string>>) returns (out: string)
    ensures out == RowsText(colNames, rows)
  {
    hide RowText, RestRows, RowTexts;
    out := ['['];
    AllRowsLeft(colNames, rows);
    for r := 0 to |rows|
      invariant out + RestRows(colNames, rows, r) == ['['] + RowTexts(colNames, rows)
    {
      RestRowsStep(colNames, rows, r);
      ghost var before, rest := out, RestRows(colNames, rows, r + 1);
      if r > 0 {
        out := out + [','];
      }
      var row := WriteRow(colNames, rows[r]);
      out := out + row;
      assert out + rest == before + ((if r == 0 then [] else [',']) + row + rest);
    }
    out := out + [']'];
  }

  lemma AllRowsLeft(colNames: seq<string>, rows: seq<seq<string>>)
    ensures RestRows(colNames, rows, 0) == RowTexts(colNames, rows) && RestRows(colNames, rows, |rows|) == []
  {
    assert rows[0..] == rows;
  }

  // ---- Escaped text in the grammar ----

  function ElemOf(c: char): G.Elem {
    if c == '"' || c == '\\' then G.Escaped(c)
    else if c == '\n' then G.Escaped('n')
    else if c == '\r' then G.Escaped('r')
    else if c == '\t' then G.Escaped('t')
    else if c as int < 0x20 then G.Unicode(Unicode(c as int)[2..])
    else G.Unescaped(c)
  }

  function ElemsOf(m: string): seq<G.Elem> {
    if m == [] then [] else [ElemOf(m[0])] + ElemsOf(m[1..])
  }

  lemma ElemOfGood(c: char)
    ensures G.GoodElem(ElemOf(c)) && G.ElemText(ElemOf(c)) == EscapeChar(Gateway, c)
  {
    if c as int < 0x20 {
      var t := Unicode(c as int);
      assert t == ['\\', 'u'] + t[2..];
    }
  }

  lemma {:induction false} ElemsOfGood(m: string)
    ensures G.GoodElems(ElemsOf(m)) && G.ElemsText(ElemsOf(m)) == Escape(Gateway, m)
  {
    if m != [] {
      hide ElemOf, EscapeChar, G.GoodElem, G.ElemText;
      ElemOfGood(m[0]);
      ElemsOfGood(m[1..]);
      assert ElemsOf(m)[1..] == ElemsOf(m[1..]);
    }
  }

  /** A reader that follows RFC 8259 recovers every text that the gateway quotes. */
  lemma {:induction false} QuotedValue(m: string)
    ensures G.ElemsValue(ElemsOf(m)) == m
  {
    if m != [] {
      hide ElemOf, G.ElemValue;
      QuotedChar(m[0]);
      QuotedValue(m[1..]);
      assert ElemsOf(m)[0] == ElemOf(m[0]) && ElemsOf(m)[1..] == ElemsOf(m[1..]);
      assert m == [m[0]] + m[1..];
    }
  }

  lemma QuotedChar(c: char)
    ensures G.ElemValue(ElemOf(c)) == c
  {
    if c as int < 0x20 {
      var n := c as int;
      var hex := Unicode(n)[2..];
      HexBack(n / 16);
      HexBack(n % 16);
      assert hex == ['0', '0', HexDigit(n / 16), HexDigit(n % 16)];
      assert G.HexValue('0') == 0;
      assert n == 16 * (n / 16) + n % 16;
    }
  }

  lemma HexBack(n: nat)
    requires n < 16
    ensures G.HexValue(HexDigit(n)) == n
  {
  }

  function StringTree(m: string): G.Padded {
    G.Padded([], G.JString(ElemsOf(m)), [])
  }

  lemma StringTreeGood(m: string)
    ensures G.GoodPadded(StringTree(m)) && G.PaddedText(StringTree(m)) == Quote(Gateway, m)
  {
    hide ElemsOf, Escape, G.ElemsText, G.GoodElems;
    ElemsOfGood(m);
    assert [] + Quote(Gateway, m) + [] == Quote(Gateway, m);
  }

  // ---- Objects and arrays in the grammar ----

  /** p is a tree of the field's value. */
  ghost predicate Derives(p: G.Padded, f: Field) {
    G.GoodPadded(p) && G.PaddedText(p) == ValueText(f, Gateway)
  }

  function MembersOf(fs: seq<Field>, ps: seq<G.Padded>): G.Members
    requires |fs| == |ps|
  {
    if fs == [] then G.NoMembers
    else G.MoreMembers([], ElemsOf(fs[0].key), [], ps[0], MembersOf(fs[1..], ps[1..]))
  }

  lemma {:induction false} MembersGood(fs: seq<Field>, ps: seq<G.Padded>)
    requires |fs| == |ps| && forall i :: 0 <= i < |fs| ==> Derives(ps[i], fs[i])
    ensures G.GoodMembers(MembersOf(fs, ps)) && G.MembersText(MembersOf(fs, ps)) == FieldsText(fs, COMPACT)
    ensures MembersOf(fs, ps).NoMembers? <==> fs == []
  {
    if fs != [] {
      hide ElemsOf, Escape, G.ElemsText, G.GoodElems, G.PaddedText, G.GoodPadded, ValueText;
      MembersGood(fs[1..], ps[1..]);
      ElemsOfGood(fs[0].key);
      var v := G.PaddedText(ps[0]);
      assert Derives(ps[0], fs[0]);
      MemberSpelled(fs[0], v);
      assert |fs| == 1 ==> fs[1..] == [];
      assert [] + FieldsText(fs[1..], COMPACT) == FieldsText(fs[1..], COMPACT);
    }
  }

  lemma MemberSpelled(f: Field, v: string)
    requires v == ValueText(f, Gateway)
    ensures G.MemberText([], ElemsOf(f.key), [], v) == FieldText(f, COMPACT)
  {
    hide ElemsOf, Escape, ValueText, G.ElemsText;
    ElemsOfGood(f.key);
    assert [] + v == v;
    var q := Quote(Gateway, f.key);
    assert [] + q + [] + [':'] + v == q + ([':'] + v);
  }

  /** An object is JSON when each member's value is. */
  lemma ObjectGood(fs: seq<Field>, ps: seq<G.Padded>) returns (p: G.Padded)
    requires |fs| == |ps| && forall i :: 0 <= i < |fs| ==> Derives(ps[i], fs[i])
    ensures G.GoodPadded(p) && G.PaddedText(p) == ObjectText(fs, COMPACT)
  {
    hide Derives, MembersOf, FieldsText, G.GoodMembers, G.MembersText;
    MembersGood(fs, ps);
    p := G.Padded([], G.JObject([], MembersOf(fs, ps)), []);
    var t := FieldsText(fs, COMPACT);
    NoFieldsText(fs);
    assert G.Text(p.value) == ['{'] + t + ['}'];
    assert [] + (['{'] + t + ['}']) + [] == ['{'] + t + ['}'];
  }

  lemma NoFieldsText(fs: seq<Field>)
    ensures fs == [] ==> FieldsText(fs, COMPACT) == []
  {
  }

  lemma RowGood(colNames: seq<string>, row: seq<string>) returns (p: G.Padded)
    ensures G.GoodPadded(p) && G.PaddedText(p) == RowText(colNames, row)
  {
    hide StringTree, Quote, ObjectText, G.GoodPadded, G.PaddedText;
    var fs := RowFields(colNames, row);
    var ps := seq(|fs|, c requires 0 <= c < |fs| => StringTree(row[c]));
    forall c | 0 <= c < |fs| ensures Derives(ps[c], fs[c]) {
      StringTreeGood(row[c]);
    }
    p := ObjectGood(fs, ps);
  }

  lemma {:induction false} RowsGood(colNames: seq<string>, rows: seq<seq<string>>) returns (items: G.Items)
    ensures G.GoodItems(items) && G.ItemsText(items) == RowTexts(colNames, rows)
    ensures items.NoItems? <==> rows == []
  {
    hide RowText, G.GoodPadded, G.PaddedText;
    items := G.NoItems;
    if rows != [] {
      var first := RowGood(colNames, rows[0]);
      var rest := RowsGood(colNames, rows[1..]);
      items := G.MoreItems(first, rest);
    }
  }

  /** For every query result, what rowsToJsonArray writes is JSON. */
  lemma RowsAreJson(colNames: seq<string>, rows: seq<seq<string>>)
    ensures G.IsJson(RowsText(colNames, rows))
  {
    hide RowTexts, G.GoodItems, G.ItemsText;
    var items := RowsGood(colNames, rows);
    var p := G.Padded([], G.JArray([], items), []);
    var t := RowTexts(colNames, rows);
    NoRowTexts(colNames, rows);
    assert G.Text(p.value) == ['['] + t + [']'];
    assert [] + (['['] + t + [']']) + [] == ['['] + t + [']'];
    assert G.GoodPadded(p);
  }

  lemma NoRowTexts(colNames: seq<string>, rows: seq<seq<string>>)
    ensures rows == [] ==> RowTexts(colNames, rows) == []
  {
  }

  // ---- Responses in the grammar ----

  lemma {:induction false} PrintNoLeadingZero(n: nat)
    ensures |Print(n)| > 1 ==> Print(n)[0] != '0'
  {
    if n >= 10 {
      PrintNoLeadingZero(n / 10);
    }
  }

  function NumberTree(n: nat): G.Padded {
    G.Padded([], G.JNumber(false, Print(n), [], []), [])
  }

  lemma NumberTreeGood(n: nat)
    ensures G.GoodPadded(NumberTree(n)) && G.PaddedText(NumberTree(n)) == Print(n)
  {
    PrintNoLeadingZero(n);
    var s := Print(n);
    assert forall i :: 0 <= i < |s| ==> IsDigit(s[i]);
    hide Print;
    assert [] + s + [] + [] == s && [] + s + [] == s;
  }

  lemma DataGood(payload: string) returns (p: G.Padded)
    requires payload == "" || !LooksLikeJson(payload) || G.IsJson(payload)
    ensures G.GoodPadded(p) && G.PaddedText(p) == DataText(payload)
  {
    if payload == "" {
      p := G.Padded([], G.JLiteral("null"), []);
    } else if LooksLikeJson(payload) {
      p :| G.GoodPadded(p) && G.PaddedText(p) == payload;
    } else {
      StringTreeGood(payload);
      p := StringTree(payload);
    }
  }

  /** Every response is JSON, whatever its message, when its payload is empty, is JSON,
      or does not start like an array or object. */
  lemma ResponseIsJson(r: Response)
    requires r.payload == "" || !LooksLikeJson(r.payload) || G.IsJson(r.payload)
    ensures G.IsJson(ToJson(r))
  {
    hide ToJson, ObjectText, DataText, Quote, LooksLikeJson, NumberTree, StringTree, Print,
         G.GoodPadded, G.PaddedText, G.IsJson;
    NumberTreeGood(r.requestId);
    NumberTreeGood(Codes.Number(r.status));
    StringTreeGood(r.message);
    var data := DataGood(r.payload);
    var ps := [NumberTree(r.requestId), NumberTree(Codes.Number(r.status)), StringTree(r.message), data];
    var fs := ResponseFields(r);
    assert Derives(ps[0], fs[0]) && Derives(ps[1], fs[1]) && Derives(ps[2], fs[2]) && Derives(ps[3], fs[3]);
    var p := ObjectGood(fs, ps);
    ToJsonIsObject(r);
    Witness(p, ToJson(r));
  }

  lemma Witness(p: G.Padded, s: string)
    requires G.GoodPadded(p) && G.PaddedText(p) == s
    ensures G.IsJson(s)
  {
  }

  // ---- Exactly which responses are JSON ----

  /** The payload is a value, possibly followed by further members. */
  ghost predicate Completes(payload: string) {
    exists v: G.Padded, ms: G.Members ::
      G.GoodPadded(v) && G.GoodMembers(ms) && payload == G.PaddedText(v) + G.MoreText(ms)
  }

  /** The three members before the data. */
  function FirstFields(r: Response): (fs: seq<Field>)
    ensures |fs| == 3
  {
    [Bare("request_id", Print(r.requestId)), Bare("status", Print(Codes.Number(r.status))), Text("message", r.message)]
  }

  function FirstTrees(r: Response): (ps: seq<G.Padded>)
    ensures |ps| == 3
  {
    [NumberTree(r.requestId), NumberTree(Codes.Number(r.status)), StringTree(r.message)]
  }

  /** One of them, as a field and as a tree. */
  lemma FirstMember(r: Response, i: nat)
    requires i < 3
    ensures var f, p := FirstFields(r)[i], FirstTrees(r)[i];
            var t := FieldText(f, COMPACT);
            && G.GoodElems(ElemsOf(f.key)) && G.GoodPadded(p)
            && t == G.MemberText([], ElemsOf(f.key), [], G.PaddedText(p))
            && G.ScanText(G.Out(0), t) == G.Out(0) && G.Clear(0, G.Out(0), t, ',')
  {
    hide NumberTree, StringTree, Print, Codes.Number, Quote, G.GoodPadded, G.PaddedText, G.ScanText, G.Clear, G.MemberText,
         ElemsOf, G.GoodElems, FieldText;
    var f, p := FirstFields(r)[i], FirstTrees(r)[i];
    NumberTreeGood(r.requestId);
    NumberTreeGood(Codes.Number(r.status));
    StringTreeGood(r.message);
    assert G.GoodPadded(p) && G.PaddedText(p) == ValueText(f, Gateway);
    MemberSpelled(f, G.PaddedText(p));
    ElemsOfGood(f.key);
    NoBlank();
    G.ScanPadded(p, 0);
    G.ScanMember([], ElemsOf(f.key), [], G.PaddedText(p), 0);
    G.ClearMember(0, [], ElemsOf(f.key), [], p, 0);
  }

  lemma NoBlank()
    ensures G.IsBlank([])
  {
  }

  /** What stands between the braces of a response with such a payload. */
  function DataMemberText(payload: string): string {
    Quote(Gateway, "data") + ([':'] + payload)
  }

  function Inner(r: Response): string {
    var f := FirstFields(r);
    FieldText(f[0], COMPACT) + ([','] + (FieldText(f[1], COMPACT) + ([','] + (FieldText(f[2], COMPACT) + ([','] +
      DataMemberText(r.payload))))))
  }

  lemma ToJsonInner(r: Response)
    requires LooksLikeJson(r.payload)
    ensures ToJson(r) == ['{'] + Inner(r) + ['}'] && Inner(r) != [] && Inner(r)[0] == '"'
  {
    assert r.payload != "";
    ResponseKeysSimple();
    hide LooksLikeJson, Print, Codes.Number, Quote, FieldText, SimpleText, Member;
    var f := FirstFields(r);
    FieldSpelled(f[0]);
    FieldSpelled(f[1]);
    FieldSpelled(f[2]);
    FieldSpelled(Bare("data", r.payload));
    DataSpelled(r.payload);
    Commas(FieldText(f[0], COMPACT), FieldText(f[1], COMPACT), FieldText(f[2], COMPACT), DataMemberText(r.payload));
    QuoteFirst(f[0]);
  }

  lemma DataSpelled(payload: string)
    ensures FieldText(Bare("data", payload), COMPACT) == DataMemberText(payload)
  {
    hide Quote;
    assert [] + payload == payload;
  }

  lemma QuoteFirst(f: Field)
    ensures FieldText(f, COMPACT) != [] && FieldText(f, COMPACT)[0] == '"'
  {
    assert Quote(Gateway, f.key)[0] == '"';
  }

  lemma Commas(a: string, b: string, c: string, d: string)
    ensures a + ([','] + (b + ([','] + (c + ([','] + d))))) == a + [','] + b + [','] + c + [','] + d
  {
    var cd := [','] + d;
    assert c + cd == c + [','] + d;
    assert b + ([','] + (c + cd)) == b + [','] + c + cd;
    assert a + ([','] + (b + [','] + c + cd)) == a + [','] + b + [','] + c + cd;
    assert a + [','] + b + [','] + c + cd == a + [','] + b + [','] + c + [','] + d;
  }

  lemma DataKey()
    ensures G.KeyText([], ElemsOf("data"), []) == Quote(Gateway, "data") && G.GoodElems(ElemsOf("data"))
    ensures G.ScanText(G.Out(0), Quote(Gateway, "data")) == G.Out(0)
    ensures G.Clear(0, G.Out(0), Quote(Gateway, "data"), ':')
  {
    hide G.ScanText, G.Clear, ElemsOf, Escape, G.ElemsText, G.GoodElems;
    ElemsOfGood("data");
    NoBlank();
    G.KeyScans([], ElemsOf("data"), [], 0, 0, ':');
    var q := Quote(Gateway, "data");
    assert [] + q + [] == q;
  }

  /** A balanced text without commas of its own. */
  ghost predicate Whole(t: string) {
    G.ScanText(G.Out(0), t) == G.Out(0) && G.Clear(0, G.Out(0), t, ',')
  }

  /** Three members come off, then the key. */
  lemma PeelThree(m0: G.Members, a: string, b: string, c: string, payload: string)
    requires Whole(a) && Whole(b) && Whole(c)
    requires G.GoodMembers(m0)
    requires G.MembersText(m0) == a + ([','] + (b + ([','] + (c + ([','] + DataMemberText(payload))))))
    ensures Completes(payload)
  {
    hide G.ScanText, G.Clear, G.PaddedText, G.GoodPadded, G.GoodMembers, G.MembersText, G.MoreText, Quote, DataMemberText;
    var m1 := G.PeelMember(m0, a, b + ([','] + (c + ([','] + DataMemberText(payload)))));
    var m2 := G.PeelMember(m1, b, c + ([','] + DataMemberText(payload)));
    var m3 := G.PeelMember(m2, c, DataMemberText(payload));
    PeelData(m3, payload);
  }

  lemma PeelData(m: G.Members, payload: string)
    requires G.GoodMembers(m) && G.MembersText(m) == DataMemberText(payload)
    ensures Completes(payload)
  {
    hide G.ScanText, G.Clear, G.PaddedText, G.GoodPadded, G.GoodMembers, G.MembersText, G.MoreText, Quote;
    DataKey();
    var v, ms := G.PeelKey(m, Quote(Gateway, "data"), payload);
  }

  /** From a JSON response back to its payload. */
  lemma PayloadCompletes(r: Response)
    requires LooksLikeJson(r.payload) && G.IsJson(ToJson(r))
    ensures Completes(r.payload)
  {
    hide LooksLikeJson, ToJson, FieldText, G.ScanText, G.Clear, G.PaddedText, G.GoodPadded, G.GoodMembers,
         G.MembersText, FirstTrees, FirstFields, DataMemberText, Completes, G.MemberText, G.GoodElems, ElemsOf;
    var p :| G.GoodPadded(p) && G.PaddedText(p) == ToJson(r);
    var f := FirstFields(r);
    ToJsonInner(r);
    FirstMember(r, 0);
    FirstMember(r, 1);
    FirstMember(r, 2);
    var m0 := G.ObjectInside(p, Inner(r));
    PeelThree(m0, FieldText(f[0], COMPACT), FieldText(f[1], COMPACT), FieldText(f[2], COMPACT), r.payload);
  }

  /** A further member in front. */
  lemma Prepend(r: Response, i: nat, ms: G.Members) returns (more: G.Members)
    requires i < 3 && G.GoodMembers(ms) && !ms.NoMembers?
    ensures G.GoodMembers(more) && !more.NoMembers?
    ensures G.MembersText(more) == FieldText(FirstFields(r)[i], COMPACT) + ([','] + G.MembersText(ms))
  {
    hide FieldText, G.ScanText, G.Clear, G.PaddedText, G.GoodPadded, FirstTrees, FirstFields, G.MemberText, ElemsOf,
         G.GoodElems;
    FirstMember(r, i);
    NoBlank();
    more := G.MoreMembers([], ElemsOf(FirstFields(r)[i].key), [], FirstTrees(r)[i], ms);
  }

  lemma DataMember(v: G.Padded, ms: G.Members) returns (m: G.Members)
    requires G.GoodPadded(v) && G.GoodMembers(ms)
    ensures G.GoodMembers(m) && !m.NoMembers? && G.MembersText(m) == DataMemberText(G.PaddedText(v) + G.MoreText(ms))
  {
    hide Quote, ElemsOf, G.GoodElems, G.PaddedText, G.GoodPadded, G.KeyText, G.MemberText, G.ScanText, G.Clear;
    DataKey();
    NoBlank();
    var q, t, more := Quote(Gateway, "data"), G.PaddedText(v), G.MoreText(ms);
    m := G.MoreMembers([], ElemsOf("data"), [], v, ms);
    G.MemberParts([], ElemsOf("data"), [], t);
    assert G.MembersText(m) == q + ([':'] + t) + more;
    assert q + ([':'] + t) + more == q + ([':'] + (t + more));
  }

  lemma CompletedIsJson(r: Response)
    requires LooksLikeJson(r.payload) && Completes(r.payload)
    ensures G.IsJson(ToJson(r))
  {
    var v, ms :| G.GoodPadded(v) && G.GoodMembers(ms) && r.payload == G.PaddedText(v) + G.MoreText(ms);
    hide LooksLikeJson, ToJson, FieldText, Quote, G.PaddedText, G.GoodPadded, G.GoodMembers, G.MembersText, G.MoreText,
         FirstTrees, FirstFields, DataMemberText;
    ToJsonInner(r);
    var m3 := DataMember(v, ms);
    var m2 := Prepend(r, 2, m3);
    var m1 := Prepend(r, 1, m2);
    var m0 := Prepend(r, 0, m1);
    assert G.MembersText(m0) == Inner(r);
    var p := WrapObject(m0);
    Witness(p, ToJson(r));
  }

  lemma WrapObject(ms: G.Members) returns (p: G.Padded)
    requires G.GoodMembers(ms) && !ms.NoMembers?
    ensures G.GoodPadded(p) && G.PaddedText(p) == ['{'] + G.MembersText(ms) + ['}']
  {
    hide G.MembersText, G.GoodMembers;
    p := G.Padded([], G.JObject([], ms), []);
    var t := ['{'] + G.MembersText(ms) + ['}'];
    assert [] + t + [] == t;
  }

  /** A response is JSON exactly when its payload is empty, does not start like an array or
      object, or is a JSON value that may have further members of the response behind it. */
  lemma ResponseJsonExact(r: Response)
    ensures G.IsJson(ToJson(r)) <==> r.payload == "" || !LooksLikeJson(r.payload) || Completes(r.payload)
  {
    hide LooksLikeJson, ToJson, G.IsJson, Completes;
    if r.payload == "" || !LooksLikeJson(r.payload) {
      ResponseIsJson(r);
    } else if Completes(r.payload) {
      CompletedIsJson(r);
    }
    if LooksLikeJson(r.payload) && G.IsJson(ToJson(r)) {
      PayloadCompletes(r);
    }
  }

  /** So a payload whose brackets do not balance makes a response that is no JSON. */
  lemma UnbalancedNotJson(r: Response)
    requires LooksLikeJson(r.payload) && G.ScanText(G.Out(0), r.payload) != G.Out(0)
    ensures !G.IsJson(ToJson(r))
  {
    hide LooksLikeJson, ToJson, G.IsJson, G.ScanText;
    assert r.payload != "" by { LooksNonEmpty(r.payload); }
    ResponseJsonExact(r);
    if Completes(r.payload) {
      CompletedBalances(r.payload);
    }
  }

  lemma LooksNonEmpty(s: string)
    requires LooksLikeJson(s)
    ensures s != ""
  {
  }

  lemma CompletedBalances(payload: string)
    requires Completes(payload)
    ensures G.ScanText(G.Out(0), payload) == G.Out(0)
  {
    hide G.ScanText, G.GoodPadded, G.GoodMembers, G.PaddedText, G.MembersText;
    var v, ms :| G.GoodPadded(v) && G.GoodMembers(ms) && payload == G.PaddedText(v) + G.MoreText(ms);
    G.ScanPadded(v, 0);
    if ms.NoMembers? {
      assert G.PaddedText(v) + [] == G.PaddedText(v);
    } else {
      G.ScanMembers(ms, 0);
      G.ScanComma(G.PaddedText(v), G.MembersText(ms), 0);
    }
  }

  /** For instance a single brace. */
  lemma BraceNotJson(id: nat, message: string)
    ensures !G.IsJson(ToJson(Response(id, Codes.OK, message, "{")))
  {
    G.ScanOne(G.Out(0), '{');
    UnbalancedNotJson(Response(id, Codes.OK, message, "{"));
  }

  /** And a balanced payload that is no value, say {a}: an object needs a quoted key. */
  lemma BareKeyNotJson(id: nat, message: string, rest: string)
    ensures !G.IsJson(ToJson(Response(id, Codes.OK, message, ['{', 'a'] + rest)))
  {
    var r := Response(id, Codes.OK, message, ['{', 'a'] + rest);
    assert SkipWs(r.payload, 0) == 0;
    hide ToJson, G.IsJson, LooksLikeJson;
    ResponseJsonExact(r);
    if Completes(r.payload) {
      var v, ms :| G.GoodPadded(v) && G.GoodMembers(ms) && r.payload == G.PaddedText(v) + G.MoreText(ms);
      G.KeyOrEnd(v, G.MoreText(ms));
    }
  }

  // ---- Reading the rows back ----

  predicate DistinctColumns(colNames: seq<string>, n: nat)
    requires n <= |colNames|
  {
    (forall c :: 0 <= c < n ==> Plain(Gateway, colNames[c]))
    && forall c, d :: 0 <= c < d < n ==> colNames[c] != colNames[d]
  }

  /** Fields under distinct plain keys: each is read under its own name. */
  lemma {:induction false} FieldsDict(fs: seq<Field>, obj: Dict)
    requires forall i :: 0 <= i < |fs| ==> Plain(Gateway, fs[i].key)
    requires forall i, j :: 0 <= i < j < |fs| ==> fs[i].key != fs[j].key
    ensures var d := ReadFields(fs, obj, Gateway);
            && (forall i :: 0 <= i < |fs| ==> fs[i].key in d && d[fs[i].key] == ReadValue(fs[i], Gateway))
            && (forall k :: (forall i :: 0 <= i < |fs| ==> fs[i].key != k) ==>
                  (k in d <==> k in obj) && (k in obj ==> d[k] == obj[k]))
    decreases |fs|
  {
    hide ReadBack, ReadValue, Plain;
    if fs != [] {
      ReadBackExact(Gateway, fs[0].key);
      var obj' := obj[fs[0].key := ReadValue(fs[0], Gateway)];
      assert ReadFields(fs, obj, Gateway) == ReadFields(fs[1..], obj', Gateway);
      FieldsDict(fs[1..], obj');
      var d := ReadFields(fs[1..], obj', Gateway);
      assert forall i :: 0 < i < |fs| ==> fs[i] == fs[1..][i - 1];
      assert fs[0].key in d && d[fs[0].key] == ReadValue(fs[0], Gateway);
    }
  }

  /** Reading a row's object back, wherever it stands: under distinct plain column names
      the dictionary has exactly those names, and a cell is recovered exactly when it is
      plain. */
  lemma RowReadBack(s: string, pos: nat, colNames: seq<string>, row: seq<string>) returns (d: Dict)
    requires Has(s, pos, RowText(colNames, row))
    requires DistinctColumns(colNames, if |colNames| < |row| then |colNames| else |row|)
    ensures pos <= |s| && ParseObject(s, pos) == Ok(d, pos + |RowText(colNames, row)|)
    ensures var n := if |colNames| < |row| then |colNames| else |row|;
            && (forall k :: k in d <==> k in colNames[..n])
            && (forall c :: 0 <= c < n ==> (d[colNames[c]] == row[c] <==> Plain(Gateway, row[c])))
  {
    hide ParseObject, ObjectText, ReadBack, Plain, ReadFields;
    var fs := RowFields(colNames, row);
    HasEnd(s, pos, RowText(colNames, row));
    assert forall f :: f in fs ==> Readable(f);
    ObjectRead(s, pos, fs, COMPACT);
    d := ReadFields(fs, map[], Gateway);
    FieldsDict(fs, map[]);
    forall c | 0 <= c < |fs| ensures d[colNames[c]] == row[c] <==> Plain(Gateway, row[c]) {
      ReadBackExact(Gateway, row[c]);
      assert fs[c].key == colNames[c];
    }
    forall k ensures k in d <==> k in colNames[..|fs|] {
      if k in colNames[..|fs|] {
        var c :| 0 <= c < |fs| && colNames[..|fs|][c] == k;
        assert fs[c].key == k;
      } else {
        assert forall i :: 0 <= i < |fs| ==> fs[i].key == colNames[..|fs|][i];
      }
    }
  }

  /** How far behind the opening bracket the object of row k stands. */
  function Offset(colNames: seq<string>, rows: seq<seq<string>>, k: nat): nat
    requires k < |rows|
  {
    if k == 0 then 0 else |RowText(colNames, rows[0])| + 1 + Offset(colNames, rows[1..], k - 1)
  }

  /** The next row stands behind this one and a comma. */
  lemma {:induction false} OffsetStep(colNames: seq<string>, rows: seq<seq<string>>, k: nat)
    requires k + 1 < |rows|
    ensures Offset(colNames, rows, k + 1) == Offset(colNames, rows, k) + |RowText(colNames, rows[k])| + 1
  {
    hide RowText;
    if k > 0 {
      OffsetStep(colNames, rows[1..], k - 1);
    }
  }

  lemma {:induction false} RowStands(colNames: seq<string>, rows: seq<seq<string>>, k: nat) returns (before: string, after: string)
    requires k < |rows|
    ensures RowTexts(colNames, rows) == before + RowText(colNames, rows[k]) + after
    ensures |before| == Offset(colNames, rows, k)
  {
    hide RowText;
    if k == 0 {
      before, after := [], if |rows| == 1 then [] else [','] + RowTexts(colNames, rows[1..]);
    } else {
      before, after := RowStands(colNames, rows[1..], k - 1);
      before := RowText(colNames, rows[0]) + [','] + before;
    }
  }

  /** So every row of an array is read back, from where it stands. */
  lemma ArrayReadBack(colNames: seq<string>, rows: seq<seq<string>>, k: nat) returns (d: Dict)
    requires k < |rows| && DistinctColumns(colNames, if |colNames| < |rows[k]| then |colNames| else |rows[k]|)
    ensures var pos := 1 + Offset(colNames, rows, k);
            && pos <= |RowsText(colNames, rows)|
            && ParseObject(RowsText(colNames, rows), pos) == Ok(d, pos + |RowText(colNames, rows[k])|)
    ensures var n := if |colNames| < |rows[k]| then |colNames| else |rows[k]|;
            && (forall name :: name in d <==> name in colNames[..n])
            && (forall c :: 0 <= c < n ==> (d[colNames[c]] == rows[k][c] <==> Plain(Gateway, rows[k][c])))
  {
    hide *;
    var before, after := RowStands(colNames, rows, k);
    var row := RowText(colNames, rows[k]);
    ArrayText(colNames, rows);
    assert RowsText(colNames, rows) == (['['] + before) + row + (after + [']']);
    HasMiddle(['['] + before, row, after + [']']);
    d := RowReadBack(RowsText(colNames, rows), |['['] + before|, colNames, rows[k]);
  }

  lemma ArrayText(colNames: seq<string>, rows: seq<seq<string>>)
    ensures RowsText(colNames, rows) == ['['] + RowTexts(colNames, rows) + [']']
  {
  }
}
