/**
 The JSON grammar of RFC 8259, sections 2 to 7, as derivation trees: a text is JSON when
 it is the text of a well-formed tree with white space around it.
 */
module JsonGrammar {

  /** Section 7: an unescaped character, a two-character escape, or \uXXXX. */
  datatype Elem = Unescaped(c: char) | Escaped(c: char) | Unicode(hex: string)

  /** Sections 3 to 6.  White space stands where section 2 allows it; an empty array or
      object keeps its own. */
  datatype Json =
    | JString(elems: seq<Elem>)
    | JNumber(minus: bool, integer: string, frac: string, exp: string)
    | JLiteral(name: string)
    | JArray(blank: string, items: Items)
    | JObject(blank: string, members: Members)

  /** A value with the white space around it. */
  datatype Padded = Padded(before: string, value: Json, after: string)

  datatype Items = NoItems | MoreItems(first: Padded, rest: Items)

  datatype Members =
    | NoMembers
    | MoreMembers(before: string, key: seq<Elem>, after: string, value: Padded, rest: Members)

  // ---- Texts ----

  function ElemText(e: Elem): string {
    match e
    case Unescaped(c) => [c]
    case Escaped(c) => ['\\', c]
    case Unicode(hex) => ['\\', 'u'] + hex
  }

  function ElemsText(es: seq<Elem>): string {
    if es == [] then [] else ElemText(es[0]) + ElemsText(es[1..])
  }

  function StringText(es: seq<Elem>): string {
    ['"'] + ElemsText(es) + ['"']
  }

  function Text(v: Json): string {
    match v
    case JString(elems) => StringText(elems)
    case JNumber(minus, integer, frac, exp) => (if minus then ['-'] else []) + integer + frac + exp
    case JLiteral(name) => name
    case JArray(blank, items) => ['['] + (if items.NoItems? then blank else ItemsText(items)) + [']']
    case JObject(blank, members) => ['{'] + (if members.NoMembers? then blank else MembersText(members)) + ['}']
  }

  function PaddedText(p: Padded): string {
    p.before + Text(p.value) + p.after
  }

  function ItemsText(items: Items): string {
    match items
    case NoItems => []
    case MoreItems(first, rest) =>
      if rest.NoItems? then PaddedText(first) else PaddedText(first) + ([','] + ItemsText(rest))
  }

  function MemberText(before: string, key: seq<Elem>, after: string, value: string): string {
    before + StringText(key) + after + [':'] + value
  }

  function MembersText(members: Members): string {
    match members
    case NoMembers => []
    case MoreMembers(before, key, after, value, rest) =>
      if rest.NoMembers? then MemberText(before, key, after, PaddedText(value))
      else MemberText(before, key, after, PaddedText(value)) + ([','] + MembersText(rest))
  }

  // ---- What a string stands for ----

  function HexValue(c: char): nat {
    if '0' <= c <= '9' then c as int - '0' as int
    else if 'a' <= c <= 'f' then c as int - 'a' as int + 10
    else if 'A' <= c <= 'F' then c as int - 'A' as int + 10
    else 0
  }

  /** Section 7, but for surrogate pairs: a \u escape is taken as one UTF-16 unit. */
  function ElemValue(e: Elem): char {
    match e
    case Unescaped(c) => c
    case Escaped(c) =>
      if c == 'b' then 8 as char else if c == 'f' then 12 as char
      else if c == 'n' then '\n' else if c == 'r' then '\r' else if c == 't' then '\t' else c
    case Unicode(hex) =>
      if |hex| == 4 then
        var n := 4096 * HexValue(hex[0]) + 256 * HexValue(hex[1]) + 16 * HexValue(hex[2]) + HexValue(hex[3]);
        if n < 0xd800 then n as char else ' '
      else ' '
  }

  function ElemsValue(es: seq<Elem>): string {
    if es == [] then [] else [ElemValue(es[0])] + ElemsValue(es[1..])
  }

  // ---- Well-formed trees ----

  /** Section 2. */
  predicate IsBlank(w: string) {
    forall i :: 0 <= i < |w| ==> w[i] == ' ' || w[i] == '\t' || w[i] == '\n' || w[i] == '\r'
  }

  predicate IsHex(c: char) {
    '0' <= c <= '9' || 'a' <= c <= 'f' || 'A' <= c <= 'F'
  }

  predicate GoodElem(e: Elem) {
    match e
    case Unescaped(c) => c as int >= 0x20 && c != '"' && c != '\\'
    case Escaped(c) => c in ['"', '\\', '/', 'b', 'f', 'n', 'r', 't']
    case Unicode(hex) => |hex| == 4 && forall i :: 0 <= i < 4 ==> IsHex(hex[i])
  }

  predicate GoodElems(es: seq<Elem>) {
    forall i :: 0 <= i < |es| ==> GoodElem(es[i])
  }

  predicate IsDigits(s: string) {
    s != [] && forall i :: 0 <= i < |s| ==> '0' <= s[i] <= '9'
  }

  /** Section 6: no leading zero; a fraction and an exponent have digits. */
  predicate GoodNumber(integer: string, frac: string, exp: string) {
    && IsDigits(integer) && (|integer| > 1 ==> integer[0] != '0')
    && (frac == [] || (frac[0] == '.' && IsDigits(frac[1..])))
    && (exp == [] || ((exp[0] == 'e' || exp[0] == 'E') &&
          (IsDigits(exp[1..]) || (|exp| > 1 && (exp[1] == '+' || exp[1] == '-') && IsDigits(exp[2..])))))
  }

  predicate Good(v: Json) {
    match v
    case JString(elems) => GoodElems(elems)
    case JNumber(_, integer, frac, exp) => GoodNumber(integer, frac, exp)
    case JLiteral(name) => name in ["true", "false", "null"]
    case JArray(blank, items) => IsBlank(blank) && GoodItems(items)
    case JObject(blank, members) => IsBlank(blank) && GoodMembers(members)
  }

  predicate GoodPadded(p: Padded) {
    IsBlank(p.before) && Good(p.value) && IsBlank(p.after)
  }

  predicate GoodItems(items: Items) {
    items.NoItems? || (GoodPadded(items.first) && GoodItems(items.rest))
  }

  predicate GoodMembers(members: Members) {
    members.NoMembers?
    || (IsBlank(members.before) && GoodElems(members.key) && IsBlank(members.after)
        && GoodPadded(members.value) && GoodMembers(members.rest))
  }

  /** A JSON text. */
  ghost predicate IsJson(s: string) {
    exists p: Padded :: GoodPadded(p) && PaddedText(p) == s
  }

  // ---- Brackets balance ----

  /** Outside strings, inside one, or behind a backslash in one; how deep in brackets. */
  datatype Scan = Out(depth: int) | In(depth: int) | Escape(depth: int)

  function ScanChar(st: Scan, c: char): Scan {
    match st
    case Out(d) =>
      if c == '"' then In(d) else if c == '{' || c == '[' then Out(d + 1) else if c == '}' || c == ']' then Out(d - 1) else st
    case In(d) => if c == '"' then Out(d) else if c == '\\' then Escape(d) else st
    case Escape(d) => In(d)
  }

  function ScanText(st: Scan, s: string): Scan
    decreases |s|
  {
    if s == [] then st else ScanText(ScanChar(st, s[0]), s[1..])
  }

  lemma {:induction false} ScanJoin(st: Scan, a: string, b: string)
    ensures ScanText(st, a + b) == ScanText(ScanText(st, a), b)
    decreases |a|
  {
    hide ScanChar;
    if a == [] {
      assert a + b == b;
    } else {
      assert (a + b)[0] == a[0] && (a + b)[1..] == a[1..] + b;
      ScanJoin(ScanChar(st, a[0]), a[1..], b);
    }
  }

  lemma ScanOne(st: Scan, c: char)
    ensures ScanText(st, [c]) == ScanChar(st, c)
  {
    hide ScanChar;
    assert [c][1..] == [];
  }

  /** Text without brackets and quotes. */
  predicate Flat(s: string) {
    forall i :: 0 <= i < |s| ==> s[i] != '"' && s[i] != '{' && s[i] != '[' && s[i] != '}' && s[i] != ']'
  }

  lemma {:induction false} ScanFlat(s: string, d: int)
    requires Flat(s)
    ensures ScanText(Out(d), s) == Out(d)
    decreases |s|
  {
    if s != [] {
      ScanFlat(s[1..], d);
    }
  }

  lemma ScanElem(e: Elem, d: int)
    requires GoodElem(e)
    ensures ScanText(In(d), ElemText(e)) == In(d)
  {
    match e {
      case Unescaped(c) => ScanOne(In(d), c);
      case Escaped(c) =>
        assert ['\\', c] == ['\\'] + [c];
        ScanJoin(In(d), ['\\'], [c]);
        ScanOne(In(d), '\\');
        ScanOne(Escape(d), c);
      case Unicode(hex) =>
        assert ['\\', 'u'] == ['\\'] + ['u'];
        ScanJoin(In(d), ['\\', 'u'], hex);
        ScanJoin(In(d), ['\\'], ['u']);
        ScanOne(In(d), '\\');
        ScanOne(Escape(d), 'u');
        ScanHex(hex, d);
    }
  }

  lemma {:induction false} ScanHex(hex: string, d: int)
    requires forall i :: 0 <= i < |hex| ==> IsHex(hex[i])
    ensures ScanText(In(d), hex) == In(d)
    decreases |hex|
  {
    if hex != [] {
      assert IsHex(hex[0]);
      assert forall i :: 0 <= i < |hex[1..]| ==> hex[1..][i] == hex[i + 1];
      ScanHex(hex[1..], d);
    }
  }

  lemma {:induction false} ScanElems(es: seq<Elem>, d: int)
    requires GoodElems(es)
    ensures ScanText(In(d), ElemsText(es)) == In(d)
    decreases |es|
  {
    hide ScanText, GoodElem, ElemText;
    if es == [] {
      ScanNothing(In(d));
    } else {
      assert forall i :: 0 <= i < |es[1..]| ==> es[1..][i] == es[i + 1];
      ScanElem(es[0], d);
      ScanElems(es[1..], d);
      ScanJoin(In(d), ElemText(es[0]), ElemsText(es[1..]));
    }
  }

  lemma ScanNothing(st: Scan)
    ensures ScanText(st, []) == st
  {
  }

  lemma ScanString(es: seq<Elem>, d: int)
    requires GoodElems(es)
    ensures ScanText(Out(d), StringText(es)) == Out(d)
  {
    hide ScanText, GoodElems, ElemsText;
    ScanElems(es, d);
    ScanJoin(Out(d), ['"'] + ElemsText(es), ['"']);
    ScanJoin(Out(d), ['"'], ElemsText(es));
    ScanOne(Out(d), '"');
    ScanOne(In(d), '"');
  }

  lemma NumberFlat(v: Json)
    requires v.JNumber? && Good(v)
    ensures Flat(Text(v))
  {
    var integer, frac, exp := v.integer, v.frac, v.exp;
    assert forall i :: 0 < i < |frac| ==> frac[i] == frac[1..][i - 1];
    assert forall i :: 0 < i < |exp| ==> exp[i] == exp[1..][i - 1];
    assert forall i :: 1 < i < |exp| ==> exp[i] == exp[2..][i - 2];
  }

  lemma LiteralFlat(name: string)
    requires name in ["true", "false", "null"]
    ensures Flat(name)
  {
  }

  lemma BlankFlat(w: string)
    requires IsBlank(w)
    ensures Flat(w)
  {
  }

  /** Something balanced between two brackets. */
  lemma ScanBracketed(open: char, s: string, close: char, d: int)
    requires (open == '{' || open == '[') && (close == '}' || close == ']')
    requires ScanText(Out(d + 1), s) == Out(d + 1)
    ensures ScanText(Out(d), [open] + s + [close]) == Out(d)
  {
    hide ScanText;
    ScanJoin(Out(d), [open] + s, [close]);
    ScanJoin(Out(d), [open], s);
    ScanOne(Out(d), open);
    ScanOne(Out(d + 1), close);
  }

  lemma {:induction false} ScanValue(v: Json, d: int)
    requires Good(v)
    ensures ScanText(Out(d), Text(v)) == Out(d)
  {
    hide ScanText, GoodElems, GoodNumber, IsBlank, StringText, Flat;
    match v {
      case JString(elems) => ScanString(elems, d);
      case JNumber(_, _, _, _) =>
        NumberFlat(v);
        ScanFlat(Text(v), d);
      case JLiteral(name) =>
        LiteralFlat(name);
        ScanFlat(name, d);
      case JArray(blank, items) =>
        BlankFlat(blank);
        ScanFlat(blank, d + 1);
        ScanItems(items, d + 1);
        ScanBracketed('[', if items.NoItems? then blank else ItemsText(items), ']', d);
      case JObject(blank, members) =>
        BlankFlat(blank);
        ScanFlat(blank, d + 1);
        ScanMembers(members, d + 1);
        ScanBracketed('{', if members.NoMembers? then blank else MembersText(members), '}', d);
    }
  }

  lemma {:induction false} ScanPadded(p: Padded, d: int)
    requires GoodPadded(p)
    ensures ScanText(Out(d), PaddedText(p)) == Out(d)
  {
    hide ScanText, IsBlank, Good, Text, Flat;
    BlankFlat(p.before);
    BlankFlat(p.after);
    ScanFlat(p.before, d);
    ScanFlat(p.after, d);
    ScanValue(p.value, d);
    ScanJoin(Out(d), p.before + Text(p.value), p.after);
    ScanJoin(Out(d), p.before, Text(p.value));
  }

  lemma {:induction false} ScanItems(items: Items, d: int)
    requires GoodItems(items)
    ensures ScanText(Out(d), ItemsText(items)) == Out(d)
  {
    hide ScanText, GoodPadded, PaddedText;
    match items {
      case NoItems => ScanNothing(Out(d));
      case MoreItems(first, rest) =>
        ScanPadded(first, d);
        if !rest.NoItems? {
          ScanItems(rest, d);
          ScanComma(PaddedText(first), ItemsText(rest), d);
        }
    }
  }

  lemma ScanComma(a: string, b: string, d: int)
    requires ScanText(Out(d), a) == Out(d) && ScanText(Out(d), b) == Out(d)
    ensures ScanText(Out(d), a + ([','] + b)) == Out(d)
  {
    hide ScanText;
    ScanJoin(Out(d), a, [','] + b);
    ScanJoin(Out(d), [','], b);
    ScanOne(Out(d), ',');
  }

  lemma {:induction false} ScanMembers(members: Members, d: int)
    requires GoodMembers(members)
    ensures ScanText(Out(d), MembersText(members)) == Out(d)
  {
    hide ScanText, GoodPadded, PaddedText, IsBlank, GoodElems, MemberText;
    match members {
      case NoMembers => ScanNothing(Out(d));
      case MoreMembers(before, key, after, value, rest) =>
        ScanPadded(value, d);
        ScanMember(before, key, after, PaddedText(value), d);
        if !rest.NoMembers? {
          ScanMembers(rest, d);
          ScanComma(MemberText(before, key, after, PaddedText(value)), MembersText(rest), d);
        }
    }
  }

  lemma ScanMember(before: string, key: seq<Elem>, after: string, value: string, d: int)
    requires IsBlank(before) && GoodElems(key) && IsBlank(after) && ScanText(Out(d), value) == Out(d)
    ensures ScanText(Out(d), MemberText(before, key, after, value)) == Out(d)
  {
    hide ScanText, IsBlank, GoodElems, StringText, Flat;
    BlankFlat(before);
    BlankFlat(after);
    ScanFlat(before, d);
    ScanFlat(after, d);
    ScanString(key, d);
    ScanOne(Out(d), ':');
    var k := StringText(key);
    ScanJoin(Out(d), before + k + after + [':'], value);
    ScanJoin(Out(d), before + k + after, [':']);
    ScanJoin(Out(d), before + k, after);
    ScanJoin(Out(d), before, k);
  }

  /** In every JSON text the brackets outside strings balance. */
  lemma JsonBalances(s: string)
    requires IsJson(s)
    ensures ScanText(Out(0), s) == Out(0)
  {
    var p :| GoodPadded(p) && PaddedText(p) == s;
    ScanPadded(p, 0);
  }

  /** Scanning does not look at the depth. */
  lemma {:induction false} ScanShift(st: Scan, s: string, more: int)
    ensures ScanText(Shifted(st, more), s) == Shifted(ScanText(st, s), more)
    decreases |s|
  {
    if s != [] {
      assert ScanChar(Shifted(st, more), s[0]) == Shifted(ScanChar(st, s[0]), more);
      hide ScanChar, Shifted;
      ScanShift(ScanChar(st, s[0]), s[1..], more);
    }
  }

  function Shifted(st: Scan, more: int): Scan {
    match st
    case Out(d) => Out(d + more)
    case In(d) => In(d + more)
    case Escape(d) => Escape(d + more)
  }

  // ---- Where a member ends ----

  /** Scanning s, the character c is never met at this depth outside strings. */
  predicate Clear(depth: int, st: Scan, s: string, c: char)
    decreases |s|
  {
    s == [] || (!(st == Out(depth) && s[0] == c) && Clear(depth, ScanChar(st, s[0]), s[1..], c))
  }

  /** The two characters that end parts of a member. */
  predicate IsMark(c: char) {
    c == ',' || c == ':'
  }

  lemma {:induction false} ClearJoin(depth: int, st: Scan, a: string, b: string, c: char)
    ensures Clear(depth, st, a + b, c) <==> Clear(depth, st, a, c) && Clear(depth, ScanText(st, a), b, c)
    decreases |a|
  {
    hide ScanChar;
    if a == [] {
      assert a + b == b;
    } else {
      assert (a + b)[0] == a[0] && (a + b)[1..] == a[1..] + b;
      ClearJoin(depth, ScanChar(st, a[0]), a[1..], b, c);
    }
  }

  lemma ClearOne(depth: int, st: Scan, x: char, c: char)
    requires st != Out(depth) || x != c
    ensures Clear(depth, st, [x], c)
  {
    hide ScanChar;
    assert [x][1..] == [];
  }

  lemma ClearFirst(depth: int, st: Scan, s: string, c: char)
    ensures st == Out(depth) && s != [] && Clear(depth, st, s, c) ==> s[0] != c
    ensures ScanText(st, []) == st
  {
  }

  /** Two texts that are clear of c and balanced are the same if the same text starts with
      them and a c. */
  lemma {:induction false} SameSplit(depth: int, st: Scan, a: string, x: string, b: string, y: string, c: char)
    requires a + ([c] + x) == b + ([c] + y)
    requires Clear(depth, st, a, c) && Clear(depth, st, b, c)
    requires ScanText(st, a) == Out(depth) && ScanText(st, b) == Out(depth)
    ensures a == b && x == y
    decreases |a|
  {
    hide ScanChar;
    ClearFirst(depth, st, a, c);
    ClearFirst(depth, st, b, c);
    var s := a + ([c] + x);
    assert s[0] == (if a == [] then c else a[0]) && s[0] == (if b == [] then c else b[0]);
    assert a == [] <==> b == [];
    if a == [] {
      assert s[1..] == x && s[1..] == y;
    } else {
      assert s[1..] == a[1..] + ([c] + x) && s[1..] == b[1..] + ([c] + y);
      SameSplit(depth, ScanChar(st, a[0]), a[1..], x, b[1..], y, c);
      assert a == [a[0]] + a[1..] && b == [b[0]] + b[1..];
    }
  }

  /** A clear text does not hold a balanced one and a c behind it. */
  lemma NotInside(depth: int, st: Scan, a: string, x: string, c: char)
    requires ScanText(st, a) == Out(depth)
    ensures !Clear(depth, st, a + ([c] + x), c)
  {
    hide ScanText, ScanChar;
    ClearJoin(depth, st, a, [c] + x, c);
    assert ([c] + x)[0] == c;
  }

  lemma {:induction false} ClearFlat(depth: int, d: int, s: string, c: char)
    requires Flat(s) && c !in s
    ensures Clear(depth, Out(d), s, c)
    decreases |s|
  {
    if s != [] {
      assert s[0] in s && forall x :: x in s[1..] ==> x in s;
      ClearFlat(depth, d, s[1..], c);
    }
  }

  lemma ClearElem(depth: int, d: int, e: Elem, c: char)
    requires GoodElem(e)
    ensures Clear(depth, In(d), ElemText(e), c)
  {
    match e {
      case Unescaped(x) => ClearOne(depth, In(d), x, c);
      case Escaped(x) =>
        assert ['\\', x] == ['\\'] + [x];
        ClearJoin(depth, In(d), ['\\'], [x], c);
        ClearOne(depth, In(d), '\\', c);
        ScanOne(In(d), '\\');
        ClearOne(depth, Escape(d), x, c);
      case Unicode(hex) =>
        assert ['\\', 'u'] == ['\\'] + ['u'];
        ClearJoin(depth, In(d), ['\\', 'u'], hex, c);
        ClearJoin(depth, In(d), ['\\'], ['u'], c);
        ClearOne(depth, In(d), '\\', c);
        ScanJoin(In(d), ['\\'], ['u']);
        ScanOne(In(d), '\\');
        ScanOne(Escape(d), 'u');
        ClearOne(depth, Escape(d), 'u', c);
        ClearHex(depth, d, hex, c);
    }
  }

  lemma {:induction false} ClearHex(depth: int, d: int, hex: string, c: char)
    requires forall i :: 0 <= i < |hex| ==> IsHex(hex[i])
    ensures Clear(depth, In(d), hex, c)
    decreases |hex|
  {
    if hex != [] {
      assert IsHex(hex[0]);
      assert forall i :: 0 <= i < |hex[1..]| ==> hex[1..][i] == hex[i + 1];
      ClearHex(depth, d, hex[1..], c);
    }
  }

  lemma {:induction false} ClearElems(depth: int, d: int, es: seq<Elem>, c: char)
    requires GoodElems(es)
    ensures Clear(depth, In(d), ElemsText(es), c)
    decreases |es|
  {
    if es != [] {
      hide ScanText, GoodElem, ElemText, Clear;
      assert forall i :: 0 <= i < |es[1..]| ==> es[1..][i] == es[i + 1];
      ClearElem(depth, d, es[0], c);
      ScanElem(es[0], d);
      ClearElems(depth, d, es[1..], c);
      ClearJoin(depth, In(d), ElemText(es[0]), ElemsText(es[1..]), c);
    }
  }

  lemma ClearString(depth: int, d: int, es: seq<Elem>, c: char)
    requires GoodElems(es) && IsMark(c)
    ensures Clear(depth, Out(d), StringText(es), c)
  {
    hide ScanText, GoodElems, ElemsText, Clear;
    ScanElems(es, d);
    ClearElems(depth, d, es, c);
    ScanOne(Out(d), '"');
    ScanJoin(Out(d), ['"'], ElemsText(es));
    ClearOne(depth, Out(d), '"', c);
    ClearOne(depth, In(d), '"', c);
    ClearJoin(depth, Out(d), ['"'], ElemsText(es), c);
    ClearJoin(depth, Out(d), ['"'] + ElemsText(es), ['"'], c);
  }

  lemma NumberMarkFree(v: Json, c: char)
    requires v.JNumber? && Good(v) && IsMark(c)
    ensures c !in Text(v)
  {
    var integer, frac, exp := v.integer, v.frac, v.exp;
    assert forall i :: 0 < i < |frac| ==> frac[i] == frac[1..][i - 1];
    assert forall i :: 0 < i < |exp| ==> exp[i] == exp[1..][i - 1];
    assert forall i :: 1 < i < |exp| ==> exp[i] == exp[2..][i - 2];
  }

  lemma LiteralMarkFree(name: string, c: char)
    requires name in ["true", "false", "null"] && IsMark(c)
    ensures c !in name
  {
  }

  lemma ClearBlank(depth: int, d: int, w: string, c: char)
    requires IsBlank(w) && IsMark(c)
    ensures Clear(depth, Out(d), w, c)
  {
    BlankFlat(w);
    ClearFlat(depth, d, w, c);
  }

  lemma ClearBracketed(depth: int, d: int, open: char, s: string, close: char, c: char)
    requires (open == '{' || open == '[') && (close == '}' || close == ']') && IsMark(c)
    requires ScanText(Out(d + 1), s) == Out(d + 1) && Clear(depth, Out(d + 1), s, c)
    ensures Clear(depth, Out(d), [open] + s + [close], c)
  {
    hide ScanText, Clear;
    ScanOne(Out(d), open);
    ScanJoin(Out(d), [open], s);
    ClearOne(depth, Out(d), open, c);
    ClearOne(depth, Out(d + 1), close, c);
    ClearJoin(depth, Out(d), [open], s, c);
    ClearJoin(depth, Out(d), [open] + s, [close], c);
  }

  /** A value holds no mark at its own depth or above. */
  lemma {:induction false} ClearValue(depth: int, v: Json, d: int, c: char)
    requires Good(v) && depth <= d && IsMark(c)
    ensures Clear(depth, Out(d), Text(v), c)
  {
    hide ScanText, Clear, GoodElems, GoodNumber, IsBlank, StringText, Flat, IsMark;
    match v {
      case JString(elems) => ClearString(depth, d, elems, c);
      case JNumber(_, _, _, _) =>
        NumberFlat(v);
        NumberMarkFree(v, c);
        ClearFlat(depth, d, Text(v), c);
      case JLiteral(name) =>
        LiteralFlat(name);
        LiteralMarkFree(name, c);
        ClearFlat(depth, d, name, c);
      case JArray(blank, items) =>
        BlankFlat(blank);
        ScanFlat(blank, d + 1);
        ScanItems(items, d + 1);
        ClearBlank(depth, d + 1, blank, c);
        ClearItems(depth, items, d + 1, c);
        ClearBracketed(depth, d, '[', if items.NoItems? then blank else ItemsText(items), ']', c);
      case JObject(blank, members) =>
        BlankFlat(blank);
        ScanFlat(blank, d + 1);
        ScanMembers(members, d + 1);
        ClearBlank(depth, d + 1, blank, c);
        ClearMembers(depth, members, d + 1, c);
        ClearBracketed(depth, d, '{', if members.NoMembers? then blank else MembersText(members), '}', c);
    }
  }

  lemma {:induction false} ClearPadded(depth: int, p: Padded, d: int, c: char)
    requires GoodPadded(p) && depth <= d && IsMark(c)
    ensures Clear(depth, Out(d), PaddedText(p), c)
  {
    hide ScanText, Clear, IsBlank, Good, Text, Flat, IsMark;
    BlankFlat(p.before);
    ScanFlat(p.before, d);
    ScanValue(p.value, d);
    ScanJoin(Out(d), p.before, Text(p.value));
    ClearBlank(depth, d, p.before, c);
    ClearValue(depth, p.value, d, c);
    ClearBlank(depth, d, p.after, c);
    ClearJoin(depth, Out(d), p.before, Text(p.value), c);
    ClearJoin(depth, Out(d), p.before + Text(p.value), p.after, c);
  }

  lemma ClearMark(depth: int, d: int, a: string, mark: char, b: string, c: char)
    requires depth < d && IsMark(mark)
    requires ScanText(Out(d), a) == Out(d) && Clear(depth, Out(d), a, c) && Clear(depth, Out(d), b, c)
    ensures Clear(depth, Out(d), a + ([mark] + b), c)
  {
    hide ScanText, Clear;
    ScanOne(Out(d), mark);
    ClearOne(depth, Out(d), mark, c);
    ClearJoin(depth, Out(d), [mark], b, c);
    ClearJoin(depth, Out(d), a, [mark] + b, c);
  }

  lemma {:induction false} ClearItems(depth: int, items: Items, d: int, c: char)
    requires GoodItems(items) && depth < d && IsMark(c)
    ensures Clear(depth, Out(d), ItemsText(items), c)
  {
    hide ScanText, GoodPadded, PaddedText;
    match items {
      case NoItems =>
      case MoreItems(first, rest) =>
        hide Clear;
        ScanPadded(first, d);
        ClearPadded(depth, first, d, c);
        if !rest.NoItems? {
          ClearItems(depth, rest, d, c);
          ClearMark(depth, d, PaddedText(first), ',', ItemsText(rest), c);
        }
    }
  }

  /** What stands before the colon of a member. */
  function KeyText(before: string, key: seq<Elem>, after: string): string {
    before + StringText(key) + after
  }

  lemma KeyScans(before: string, key: seq<Elem>, after: string, depth: int, d: int, c: char)
    requires IsBlank(before) && GoodElems(key) && IsBlank(after) && IsMark(c)
    ensures ScanText(Out(d), KeyText(before, key, after)) == Out(d)
    ensures Clear(depth, Out(d), KeyText(before, key, after), c)
  {
    hide ScanText, Clear, IsBlank, GoodElems, StringText, Flat, IsMark;
    BlankFlat(before);
    BlankFlat(after);
    ScanFlat(before, d);
    ScanFlat(after, d);
    ScanString(key, d);
    ScanJoin(Out(d), before, StringText(key));
    ScanJoin(Out(d), before + StringText(key), after);
    ClearBlank(depth, d, before, c);
    ClearString(depth, d, key, c);
    ClearBlank(depth, d, after, c);
    ClearJoin(depth, Out(d), before, StringText(key), c);
    ClearJoin(depth, Out(d), before + StringText(key), after, c);
  }

  lemma MemberParts(before: string, key: seq<Elem>, after: string, value: string)
    ensures MemberText(before, key, after, value) == KeyText(before, key, after) + ([':'] + value)
  {
    hide StringText;
    var k := KeyText(before, key, after);
    assert k + [':'] + value == k + ([':'] + value);
  }

  /** A member holds no comma at its own depth. */
  lemma ClearMember(depth: int, before: string, key: seq<Elem>, after: string, value: Padded, d: int)
    requires IsBlank(before) && GoodElems(key) && IsBlank(after) && GoodPadded(value) && depth <= d
    ensures Clear(depth, Out(d), MemberText(before, key, after, PaddedText(value)), ',')
  {
    hide ScanText, Clear, IsBlank, GoodElems, GoodPadded, PaddedText, KeyText, MemberText;
    var k, v := KeyText(before, key, after), PaddedText(value);
    MemberParts(before, key, after, v);
    KeyScans(before, key, after, depth, d, ',');
    ClearPadded(depth, value, d, ',');
    ScanOne(Out(d), ':');
    ClearOne(depth, Out(d), ':', ',');
    ClearJoin(depth, Out(d), [':'], v, ',');
    ClearJoin(depth, Out(d), k, [':'] + v, ',');
  }

  lemma {:induction false} ClearMembers(depth: int, members: Members, d: int, c: char)
    requires GoodMembers(members) && depth < d && IsMark(c)
    ensures Clear(depth, Out(d), MembersText(members), c)
  {
    hide ScanText, GoodPadded, PaddedText, IsBlank, GoodElems, MemberText;
    match members {
      case NoMembers =>
      case MoreMembers(before, key, after, value, rest) =>
        hide Clear, KeyText;
        var v := PaddedText(value);
        KeyScans(before, key, after, depth, d, c);
        ClearPadded(depth, value, d, c);
        ClearMark(depth, d, KeyText(before, key, after), ':', v, c);
        MemberParts(before, key, after, v);
        ScanPadded(value, d);
        ScanMember(before, key, after, v, d);
        if !rest.NoMembers? {
          ClearMembers(depth, rest, d, c);
          ClearMark(depth, d, MemberText(before, key, after, v), ',', MembersText(rest), c);
        }
    }
  }

  // ---- Taking members apart ----

  /** The members behind a value, with their comma. */
  function MoreText(members: Members): string {
    if members.NoMembers? then [] else [','] + MembersText(members)
  }

  /** When the text of members starts with a balanced clear text and a comma, that is the
      first member. */
  lemma PeelMember(members: Members, first: string, rest: string) returns (more: Members)
    requires GoodMembers(members) && MembersText(members) == first + ([','] + rest)
    requires ScanText(Out(0), first) == Out(0) && Clear(0, Out(0), first, ',')
    ensures GoodMembers(more) && !more.NoMembers? && MembersText(more) == rest
  {
    hide ScanText, Clear, IsBlank, GoodElems, GoodPadded, PaddedText, MemberText;
    assert members.MoreMembers?;
    more := members.rest;
    var v := PaddedText(members.value);
    var m := MemberText(members.before, members.key, members.after, v);
    ClearMember(0, members.before, members.key, members.after, members.value, 0);
    ScanPadded(members.value, 0);
    ScanMember(members.before, members.key, members.after, v, 0);
    NotInside(0, Out(0), first, rest, ',');
    SameSplit(0, Out(0), m, MembersText(more), first, rest, ',');
  }

  /** When it starts with a key and a colon, that is the first member's, and the rest is
      its value and what follows. */
  lemma PeelKey(members: Members, key: string, rest: string) returns (value: Padded, more: Members)
    requires GoodMembers(members) && MembersText(members) == key + ([':'] + rest)
    requires ScanText(Out(0), key) == Out(0) && Clear(0, Out(0), key, ':')
    ensures GoodPadded(value) && GoodMembers(more) && rest == PaddedText(value) + MoreText(more)
  {
    hide ScanText, Clear, IsBlank, GoodElems, GoodPadded, PaddedText, MemberText, KeyText;
    assert members.MoreMembers?;
    value, more := members.value, members.rest;
    var k, v := KeyText(members.before, members.key, members.after), PaddedText(value);
    KeyScans(members.before, members.key, members.after, 0, 0, ':');
    MemberParts(members.before, members.key, members.after, v);
    assert k + ([':'] + v) + MoreText(more) == k + ([':'] + (v + MoreText(more)));
    assert MembersText(members) == k + ([':'] + v) + MoreText(more);
    SameSplit(0, Out(0), k, v + MoreText(more), key, rest, ':');
  }

  predicate IsBlankChar(c: char) {
    c == ' ' || c == '\t' || c == '\n' || c == '\r'
  }

  lemma BlankEnds(before: string, t: string, after: string)
    requires IsBlank(before) && IsBlank(after) && t != []
    ensures var s := before + t + after;
            && (before == [] || IsBlankChar(s[0]))
            && (after == [] || IsBlankChar(s[|s| - 1]))
  {
  }

  /** How values start. */
  lemma ValueStart(v: Json)
    requires Good(v)
    ensures Text(v) != []
    ensures v.JString? ==> Text(v)[0] == '"'
    ensures v.JNumber? ==> Text(v)[0] == '-' || '0' <= Text(v)[0] <= '9'
    ensures v.JLiteral? ==> Text(v)[0] == 't' || Text(v)[0] == 'f' || Text(v)[0] == 'n'
    ensures v.JArray? ==> Text(v)[0] == '['
    ensures v.JObject? ==> Text(v)[0] == '{'
  {
    hide MembersText, ItemsText, ElemsText, GoodElems, GoodMembers, GoodItems;
  }

  /** A JSON text in braces is an object without anything around it. */
  lemma ObjectInside(p: Padded, inner: string) returns (members: Members)
    requires GoodPadded(p) && PaddedText(p) == ['{'] + inner + ['}'] && inner != [] && inner[0] == '"'
    ensures GoodMembers(members) && MembersText(members) == inner
  {
    hide MembersText, ItemsText, ElemsText, GoodElems, GoodMembers, GoodItems;
    var s := PaddedText(p);
    assert s[0] == '{' && s[|s| - 1] == '}';
    ValueStart(p.value);
    BlankEnds(p.before, Text(p.value), p.after);
    assert s == Text(p.value);
    members := p.value.members;
    var t := if members.NoMembers? then p.value.blank else MembersText(members);
    assert s == ['{'] + t + ['}'];
    assert s[1..|s| - 1] == t && s[1..|s| - 1] == inner;
  }

  /** Behind an opening brace comes a blank, a quote or the closing brace. */
  lemma KeyOrEnd(p: Padded, rest: string)
    requires GoodPadded(p) && PaddedText(p) + rest != [] && (PaddedText(p) + rest)[0] == '{'
    ensures var s := PaddedText(p) + rest;
            |s| > 1 && (IsBlankChar(s[1]) || s[1] == '"' || s[1] == '}')
  {
    hide ItemsText, ElemsText, GoodElems, GoodItems;
    ValueStart(p.value);
    BlankEnds(p.before, Text(p.value), p.after);
    var s := PaddedText(p);
    assert s[0] == (s + rest)[0] == '{';
    var v := p.value;
    assert s == Text(v) + p.after;
    var inner := if v.members.NoMembers? then v.blank else MembersText(v.members);
    assert Text(v) == ['{'] + inner + ['}'];
    assert Text(v)[1] == (if inner == [] then '}' else inner[0]);
    if !v.members.NoMembers? {
      MembersStart(v.members);
    }
    assert (s + rest)[1] == Text(v)[1];
  }

  lemma MembersStart(members: Members)
    requires GoodMembers(members) && !members.NoMembers?
    ensures MembersText(members) != [] && (IsBlankChar(MembersText(members)[0]) || MembersText(members)[0] == '"')
  {
    hide PaddedText, ElemsText, GoodElems, GoodPadded;
    var k := StringText(members.key);
    assert k[0] == '"';
    var t := MemberText(members.before, members.key, members.after, PaddedText(members.value));
    assert t[0] == (if members.before == [] then k[0] else members.before[0]);
    assert MembersText(members)[0] == t[0];
  }
}
