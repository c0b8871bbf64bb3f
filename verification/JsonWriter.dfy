/**
 The gateway's JSON escaper, and what the reader makes of text written with it.
 */
module JsonWriter {
  import opened Common
  import opened JsonReader

  /** A lower-case hexadecimal digit, as %x prints it. */
  function HexDigit(n: nat): (c: char)
    requires n < 16
    ensures '0' <= c <= '9' || 'a' <= c <= 'f'
  {
    if n < 10 then (48 + n) as char else (87 + n) as char
  }

  /** Who wrote a string: the gateway's jsonEscape, or Python's json.dumps with its
      default ensure_ascii, where a char is a code point. */
  datatype Escaper = Gateway | Dumps

  /** \uXXXX. */
  function Unicode(n: nat): (r: string)
    requires n < 0x10000
    ensures |r| == 6 && r[0] == '\\' && r[1] == 'u'
    ensures forall i :: 2 <= i < 6 ==> '0' <= r[i] <= '9' || 'a' <= r[i] <= 'f'
  {
    ['\\', 'u', HexDigit(n / 4096), HexDigit(n / 256 % 16), HexDigit(n / 16 % 16), HexDigit(n % 16)]
  }

  /** A code point beyond 0xffff becomes two surrogates. */
  function UnicodeOf(n: nat): string
    requires n < 0x110000
  {
    if n < 0x10000 then Unicode(n)
    else Unicode(0xD800 + (n - 0x10000) / 1024) + Unicode(0xDC00 + (n - 0x10000) % 1024)
  }

  function EscapeChar(e: Escaper, c: char): (r: string)
    ensures |r| > 0
  {
    match c
    case '\"' => "\\\""
    case '\\' => "\\\\"
    case '\n' => "\\n"
    case '\r' => "\\r"
    case '\t' => "\\t"
    case _ =>
      var n := c as int;
      if e.Gateway? then if n < 0x20 then Unicode(n) else [c]
      else if n == 8 then "\\b"
      else if n == 12 then "\\f"
      else if 0x20 <= n <= 0x7e then [c]
      else UnicodeOf(n)
  }

  function Escape(e: Escaper, m: string): string {
    if m == [] then [] else EscapeChar(e, m[0]) + Escape(e, m[1..])
  }

  method JsonEscape(s: string) returns (out: string)
    ensures out == Escape(Gateway, s)
  {
    out := "";
    for i := 0 to |s|
      invariant out + Escape(Gateway, s[i..]) == Escape(Gateway, s)
    {
      assert s[i..][1..] == s[i + 1..];
      out := out + EscapeChar(Gateway, s[i]);
    }
  }

  function Quote(e: Escaper, m: string): string {
    ['"'] + Escape(e, m) + ['"']
  }

  // ---- What the reader recovers ----

  /** Characters that come back: for the gateway all but the control characters without
      a short escape, for json.dumps the printable ASCII ones, \n, \r and \t. */
  predicate IsKept(e: Escaper, c: char) {
    c == '\n' || c == '\r' || c == '\t' || (c as int >= 0x20 && (e.Gateway? || c as int <= 0x7e))
  }

  predicate Plain(e: Escaper, m: string) {
    forall i :: 0 <= i < |m| ==> IsKept(e, m[i])
  }

  /** The reader drops the backslash of an escape it does not know, so \u00e9 comes
      back as the five characters u00e9. */
  function ReadBackChar(e: Escaper, c: char): (r: string)
    ensures |r| > 0
  {
    var t := EscapeChar(e, c);
    if IsKept(e, c) then [c] else if |t| == 12 then t[1..6] + t[7..] else if |t| > 1 then t[1..] else t
  }

  function ReadBack(e: Escaper, m: string): string {
    if m == [] then [] else ReadBackChar(e, m[0]) + ReadBack(e, m[1..])
  }

  /** Text t stands in s at pos. */
  predicate Has(s: string, pos: nat, t: string)
    decreases |t|
  {
    if t == [] then pos <= |s| else pos < |s| && s[pos] == t[0] && Has(s, pos + 1, t[1..])
  }

  lemma {:induction false} HasSplit(s: string, pos: nat, a: string, b: string)
    requires Has(s, pos, a + b)
    ensures Has(s, pos, a) && Has(s, pos + |a|, b)
    decreases |a|
  {
    if a == [] {
      assert a + b == b;
      HasEnd(s, pos, b);
    } else {
      assert (a + b)[1..] == a[1..] + b;
      HasSplit(s, pos + 1, a[1..], b);
    }
  }

  lemma {:induction false} HasEnd(s: string, pos: nat, t: string)
    requires Has(s, pos, t)
    ensures pos + |t| <= |s| && s[pos..pos + |t|] == t
    decreases |t|
  {
    if t != [] {
      HasEnd(s, pos + 1, t[1..]);
      assert s[pos..pos + |t|] == [s[pos]] + s[pos + 1..pos + |t|];
    }
  }

  lemma UnicodeStep(s: string, pos: nat, n: nat)
    requires n < 0x10000 && Has(s, pos, Unicode(n)) && pos + 6 < |s|
    ensures var next := StringBody(s, pos + 6);
            StringBody(s, pos) == (Unicode(n)[1..] + next.0, next.1)
  {
    var t := Unicode(n);
    hide Unicode;
    assert t == t[..2] + t[2..];
    HasSplit(s, pos, t[..2], t[2..]);
    PlainSteps(s, pos + 2, t[2..]);
    HasEnd(s, pos, t[..2]);
    assert s[pos] == s[pos..pos + 2][0] && s[pos + 1] == s[pos..pos + 2][1];
    assert t[1..] + StringBody(s, pos + 6).0 == ['u'] + (t[2..] + StringBody(s, pos + 6).0);
  }

  /** Two surrogates. */
  lemma PairStep(s: string, pos: nat, hi: nat, lo: nat)
    requires hi < 0x10000 && lo < 0x10000 && Has(s, pos, Unicode(hi) + Unicode(lo)) && pos + 12 < |s|
    ensures var next := StringBody(s, pos + 12);
            StringBody(s, pos) == (Unicode(hi)[1..] + Unicode(lo)[1..] + next.0, next.1)
  {
    hide Unicode, StringBody;
    HasSplit(s, pos, Unicode(hi), Unicode(lo));
    UnicodeStep(s, pos, hi);
    UnicodeStep(s, pos + 6, lo);
    var next := StringBody(s, pos + 12).0;
    assert Unicode(hi)[1..] + Unicode(lo)[1..] + next == Unicode(hi)[1..] + (Unicode(lo)[1..] + next);
  }

  /** One or two characters are read in one turn of the loop. */
  lemma ShortStep(s: string, pos: nat, e: Escaper, c: char)
    requires |EscapeChar(e, c)| <= 2 && Has(s, pos, EscapeChar(e, c)) && pos + |EscapeChar(e, c)| < |s|
    ensures var next := StringBody(s, pos + |EscapeChar(e, c)|);
            StringBody(s, pos) == (ReadBackChar(e, c) + next.0, next.1)
  {
    var t := EscapeChar(e, c);
    if |t| == 2 {
      assert s[pos + 1] == t[1..][0];
    }
  }

  /** The long escapes, and what is left of them. */
  lemma LongEscape(e: Escaper, c: char)
    requires |EscapeChar(e, c)| > 2
    ensures var n, t, r := c as int, EscapeChar(e, c), ReadBackChar(e, c);
            if n < 0x10000 then t == Unicode(n) && r == Unicode(n)[1..]
            else
              var hi, lo := Unicode(0xD800 + (n - 0x10000) / 1024), Unicode(0xDC00 + (n - 0x10000) % 1024);
              t == hi + lo && r == hi[1..] + lo[1..]
  {
    hide Unicode;
    var n := c as int;
    if n >= 0x10000 {
      var hi, lo := Unicode(0xD800 + (n - 0x10000) / 1024), Unicode(0xDC00 + (n - 0x10000) % 1024);
      assert (hi + lo)[1..6] == hi[1..] && (hi + lo)[7..] == lo[1..];
    }
  }

  /** What an escape is read as. */
  lemma BodyStep(e: Escaper, s: string, pos: nat, c: char)
    requires Has(s, pos, EscapeChar(e, c)) && pos + |EscapeChar(e, c)| < |s|
    ensures var next := StringBody(s, pos + |EscapeChar(e, c)|);
            StringBody(s, pos) == (ReadBackChar(e, c) + next.0, next.1)
  {
    hide StringBody, Has, Unicode, IsKept, EscapeChar, ReadBackChar;
    var n := c as int;
    if |EscapeChar(e, c)| <= 2 {
      ShortStep(s, pos, e, c);
    } else {
      LongEscape(e, c);
      if n < 0x10000 {
        UnicodeStep(s, pos, n);
      } else {
        PairStep(s, pos, 0xD800 + (n - 0x10000) / 1024, 0xDC00 + (n - 0x10000) % 1024);
      }
    }
  }

  /** Characters other than quotes and backslashes are taken as they are. */
  lemma {:induction false} PlainSteps(s: string, pos: nat, t: string)
    requires Has(s, pos, t) && pos + |t| < |s|
    requires forall i :: 0 <= i < |t| ==> t[i] != '"' && t[i] != '\\'
    ensures var next := StringBody(s, pos + |t|);
            StringBody(s, pos) == (t + next.0, next.1)
    decreases |t|
  {
    var next := StringBody(s, pos + |t|);
    if t == [] {
      assert t + next.0 == next.0;
    } else {
      PlainSteps(s, pos + 1, t[1..]);
      assert t + next.0 == [t[0]] + (t[1..] + next.0);
    }
  }

  lemma BodyEnd(s: string, pos: nat)
    requires pos < |s| && s[pos] == '"'
    ensures StringBody(s, pos) == ([], pos)
  {
  }

  lemma {:induction false} BodyRead(e: Escaper, s: string, pos: nat, m: string)
    requires Has(s, pos, Escape(e, m)) && pos + |Escape(e, m)| < |s| && s[pos + |Escape(e, m)|] == '"'
    ensures StringBody(s, pos) == (ReadBack(e, m), pos + |Escape(e, m)|)
    decreases |m|
  {
    hide EscapeChar, ReadBackChar, StringBody, Has;
    if m == [] {
      BodyEnd(s, pos);
    } else {
      var t := EscapeChar(e, m[0]);
      assert Escape(e, m) == t + Escape(e, m[1..]);
      HasSplit(s, pos, t, Escape(e, m[1..]));
      BodyRead(e, s, pos + |t|, m[1..]);
      BodyStep(e, s, pos, m[0]);
    }
  }

  lemma KeptChar(e: Escaper, c: char)
    ensures ReadBackChar(e, c) == [c] <==> IsKept(e, c)
    ensures !IsKept(Gateway, c) ==> |ReadBackChar(Gateway, c)| == 5
  {
  }

  lemma {:induction false} ReadBackExact(e: Escaper, m: string)
    ensures |ReadBack(e, m)| >= |m|
    ensures ReadBack(e, m) == m <==> Plain(e, m)
    ensures !Plain(Gateway, m) ==> |ReadBack(Gateway, m)| > |m|
    decreases |m|
  {
    hide ReadBackChar, IsKept;
    if m != [] {
      var rest := m[1..];
      ReadBackExact(e, rest);
      KeptChar(e, m[0]);
      KeptChar(Gateway, m[0]);
      assert Plain(e, m) <==> IsKept(e, m[0]) && Plain(e, rest) by { PlainCons(e, m); }
      assert Plain(Gateway, m) <==> IsKept(Gateway, m[0]) && Plain(Gateway, rest) by { PlainCons(Gateway, m); }
      ReadBackExact(Gateway, rest);
      assert m == [m[0]] + rest;
      var first, tail := ReadBackChar(e, m[0]), ReadBack(e, rest);
      if first + tail == m {
        assert |first| == 1 && first[0] == m[0] && (first + tail)[1..] == tail;
      }
    }
  }

  lemma PlainCons(e: Escaper, m: string)
    requires m != []
    ensures Plain(e, m) <==> IsKept(e, m[0]) && Plain(e, m[1..])
  {
    if IsKept(e, m[0]) && Plain(e, m[1..]) {
      assert forall i :: 0 < i < |m| ==> m[i] == m[1..][i - 1];
    }
  }

  lemma StringReadAt(e: Escaper, s: string, pos: nat, m: string)
    requires Has(s, pos, Quote(e, m))
    ensures pos < |s| && s[pos] == '"'
    ensures ParseString(s, pos) == Ok(ReadBack(e, m), pos + |Quote(e, m)|)
  {
    hide StringBody, Escape;
    var body := Escape(e, m);
    assert Quote(e, m)[0] == '"' && Quote(e, m)[1..] == body + ['"'];
    HasSplit(s, pos + 1, body, ['"']);
    BodyRead(e, s, pos + 1, m);
  }

  lemma {:induction false} HasMiddle(before: string, t: string, after: string)
    ensures Has(before + t + after, |before|, t)
    decreases |t|
  {
    var s := before + t + after;
    if t != [] {
      HasMiddle(before + [t[0]], t[1..], after);
      assert before + [t[0]] + t[1..] + after == s;
    }
  }

  /** Quoting and reading back returns the message exactly when all its characters are
      kept: for the gateway's own strings, when every control character is one of \n, \r
      and \t; for those of json.dumps, when every other character is in ' '..'~'. */
  lemma EscapeParseExact(e: Escaper, before: string, m: string, after: string)
    ensures var r := ParseString(before + Quote(e, m) + after, |before|);
            && r == Ok(ReadBack(e, m), |before| + |Quote(e, m)|)
            && (r.value == m <==> Plain(e, m))
            && (e.Gateway? && !Plain(e, m) ==> |r.value| > |m|)
  {
    HasMiddle(before, Quote(e, m), after);
    StringReadAt(e, before + Quote(e, m) + after, |before|, m);
    ReadBackExact(e, m);
  }

  // ---- Objects: keys with string values or bare tokens ----

  /** `gap` is what the writer puts after a colon and after a comma: nothing in compact
      form, one blank by json.dumps' default. */
  datatype Style = Style(gap: string, escaper: Escaper)

  const COMPACT := Style("", Gateway)

  datatype Field = Text(key: string, value: string) | Bare(key: string, raw: string)

  predicate AllSpace(w: string) {
    forall i :: 0 <= i < |w| ==> IsSpace(w[i])
  }

  predicate NoStop(t: string) {
    forall i :: 0 <= i < |t| ==> !IsStop(t[i])
  }

  /** A bare token the reader takes whole. */
  predicate Readable(f: Field) {
    f.Bare? ==> NoStop(f.raw) && (f.raw == [] || f.raw[0] != '"')
  }

  function ValueText(f: Field, e: Escaper): string {
    match f
    case Text(_, value) => Quote(e, value)
    case Bare(_, raw) => raw
  }

  function FieldText(f: Field, st: Style): string {
    Quote(st.escaper, f.key) + ([':'] + (st.gap + ValueText(f, st.escaper)))
  }

  function FieldsText(fs: seq<Field>, st: Style): string {
    if fs == [] then []
    else if |fs| == 1 then FieldText(fs[0], st)
    else FieldText(fs[0], st) + ([','] + (st.gap + FieldsText(fs[1..], st)))
  }

  function ObjectText(fs: seq<Field>, st: Style): string {
    ['{'] + FieldsText(fs, st) + ['}']
  }

  function ReadValue(f: Field, e: Escaper): string {
    match f
    case Text(_, value) => ReadBack(e, value)
    case Bare(_, raw) => raw
  }

  /** What the reader's dictionary is after these fields. */
  function ReadFields(fs: seq<Field>, obj: Dict, e: Escaper): Dict {
    if fs == [] then obj else ReadFields(fs[1..], obj[ReadBack(e, fs[0].key) := ReadValue(fs[0], e)], e)
  }

  lemma {:induction false} SkipExact(s: string, pos: nat, gap: string)
    requires Has(s, pos, gap) && AllSpace(gap)
    requires pos + |gap| < |s| ==> !IsSpace(s[pos + |gap|])
    ensures SkipWs(s, pos) == pos + |gap| <= |s|
    decreases |gap|
  {
    if gap != [] {
      SkipExact(s, pos + 1, gap[1..]);
    }
  }

  lemma {:induction false} PrimitiveExact(s: string, pos: nat, raw: string)
    requires Has(s, pos, raw) && NoStop(raw)
    requires pos + |raw| < |s| ==> IsStop(s[pos + |raw|])
    ensures PrimitiveEnd(s, pos) == pos + |raw| <= |s|
    decreases |raw|
  {
    if raw != [] {
      PrimitiveExact(s, pos + 1, raw[1..]);
    }
  }

  /** Where the parts of a field stand. */
  lemma FieldParts(s: string, pos: nat, f: Field, st: Style)
    requires Has(s, pos, FieldText(f, st))
    ensures var p1 := pos + |Quote(st.escaper, f.key)|;
            && Has(s, pos, Quote(st.escaper, f.key)) && p1 < |s| && s[p1] == ':'
            && Has(s, p1 + 1, st.gap)
            && Has(s, p1 + 1 + |st.gap|, ValueText(f, st.escaper))
            && |FieldText(f, st)| == |Quote(st.escaper, f.key)| + 1 + |st.gap| + |ValueText(f, st.escaper)|
  {
    hide Quote, ValueText;
    var tail := st.gap + ValueText(f, st.escaper);
    HasSplit(s, pos, Quote(st.escaper, f.key), [':'] + tail);
    assert ([':'] + tail)[1..] == tail;
    HasSplit(s, pos + |Quote(st.escaper, f.key)| + 1, st.gap, ValueText(f, st.escaper));
  }

  lemma ValueRead(s: string, pos: nat, f: Field, e: Escaper)
    requires Has(s, pos, ValueText(f, e)) && Readable(f)
    requires var end := pos + |ValueText(f, e)|; end < |s| && IsStop(s[end]) && !IsSpace(s[pos])
    ensures var v := if s[pos] == '"' then ParseString(s, pos) else ParsePrimitive(s, pos);
            v == Ok(ReadValue(f, e), pos + |ValueText(f, e)|)
  {
    match f {
      case Text(_, value) => StringReadAt(e, s, pos, value);
      case Bare(_, raw) =>
        PrimitiveExact(s, pos, raw);
        HasEnd(s, pos, raw);
    }
  }

  lemma ValueStart(s: string, pos: nat, f: Field, e: Escaper)
    requires Has(s, pos, ValueText(f, e)) && Readable(f)
    requires pos + |ValueText(f, e)| < |s|
    requires ValueText(f, e) == [] ==> !IsSpace(s[pos])
    ensures !IsSpace(s[pos])
  {
    if f.Text? {
      StringReadAt(e, s, pos, f.value);
    }
  }

  /** A pair from its parts. */
  lemma PairFromParts(s: string, pos: nat, key: string, p1: nat, p3: nat, v: Parsed<string>)
    requires pos <= |s| && ParseString(s, pos) == Ok(key, p1)
    requires p1 < |s| && s[p1] == ':' && SkipWs(s, p1 + 1) == p3 < |s| && v.Ok?
    requires v == if s[p3] == '"' then ParseString(s, p3) else ParsePrimitive(s, p3)
    ensures ParsePair(s, pos) == Ok((key, v.value), v.pos)
  {
    hide ParseString, ParsePrimitive;
  }

  /** One pair, whatever follows it as long as a bare value ends there. */
  lemma PairRead(s: string, pos: nat, f: Field, st: Style)
    requires Has(s, pos, FieldText(f, st)) && AllSpace(st.gap) && Readable(f)
    requires var end := pos + |FieldText(f, st)|;
             end < |s| && IsStop(s[end]) && (ValueText(f, st.escaper) == [] ==> !IsSpace(s[end]))
    ensures ParsePair(s, pos) == Ok((ReadBack(st.escaper, f.key), ReadValue(f, st.escaper)), pos + |FieldText(f, st)|)
  {
    hide *;
    FieldParts(s, pos, f, st);
    StringReadAt(st.escaper, s, pos, f.key);
    var p1 := pos + |Quote(st.escaper, f.key)|;
    var p3 := p1 + 1 + |st.gap|;
    ValueStart(s, p3, f, st.escaper);
    SkipExact(s, p1 + 1, st.gap);
    ValueRead(s, p3, f, st.escaper);
    PairFromParts(s, pos, ReadBack(st.escaper, f.key), p1, p3, Ok(ReadValue(f, st.escaper), p3 + |ValueText(f, st.escaper)|));
  }

  lemma PairsStep(s: string, pos: nat, p1: nat, p2: nat, key: string, value: string, obj: Dict)
    requires pos < |s| && ParsePair(s, pos) == Ok((key, value), p1)
    requires p1 < |s| && s[p1] == ',' && SkipWs(s, p1 + 1) == p2
    ensures ParsePairs(s, pos, obj) == ParsePairs(s, p2, obj[key := value])
  {
    hide ParsePair, Expect, ParseString;
  }

  lemma PairsEnd(s: string, pos: nat, p1: nat, key: string, value: string, obj: Dict)
    requires pos < |s| && ParsePair(s, pos) == Ok((key, value), p1)
    requires p1 < |s| && s[p1] == '}'
    ensures ParsePairs(s, pos, obj) == Ok(obj[key := value], p1 + 1)
  {
    hide ParsePair;
  }

  /** A pair and the comma behind it. */
  lemma PairThenComma(s: string, pos: nat, f: Field, st: Style, obj: Dict)
    requires AllSpace(st.gap) && Readable(f)
    requires Has(s, pos, FieldText(f, st)) && Has(s, pos + |FieldText(f, st)|, [','] + st.gap)
    requires var end := pos + |FieldText(f, st)| + 1 + |st.gap|; end < |s| && !IsSpace(s[end])
    ensures ParsePairs(s, pos, obj) ==
            ParsePairs(s, pos + |FieldText(f, st)| + 1 + |st.gap|, obj[ReadBack(st.escaper, f.key) := ReadValue(f, st.escaper)])
  {
    hide FieldText, ParsePairs, ParsePair, ValueText, ReadBack, ReadValue;
    var end := pos + |FieldText(f, st)|;
    assert ([','] + st.gap)[1..] == st.gap;
    PairRead(s, pos, f, st);
    SkipExact(s, end + 1, st.gap);
    PairsStep(s, pos, end, end + 1 + |st.gap|, ReadBack(st.escaper, f.key), ReadValue(f, st.escaper), obj);
  }

  lemma LastPairRead(s: string, pos: nat, f: Field, st: Style, obj: Dict)
    requires AllSpace(st.gap) && Readable(f)
    requires Has(s, pos, FieldText(f, st)) && Has(s, pos + |FieldText(f, st)|, ['}'])
    ensures ParsePairs(s, pos, obj) ==
            Ok(obj[ReadBack(st.escaper, f.key) := ReadValue(f, st.escaper)], pos + |FieldText(f, st)| + 1)
  {
    hide FieldText, ParsePairs, ParsePair, ValueText, ReadBack, ReadValue;
    PairRead(s, pos, f, st);
    PairsEnd(s, pos, pos + |FieldText(f, st)|, ReadBack(st.escaper, f.key), ReadValue(f, st.escaper), obj);
  }

  lemma FieldsStart(s: string, pos: nat, fs: seq<Field>, st: Style)
    requires fs != [] && Has(s, pos, FieldsText(fs, st))
    ensures |FieldsText(fs, st)| > 0 && pos < |s| && s[pos] == '"'
  {
    assert FieldText(fs[0], st)[0] == '"';
    assert FieldsText(fs, st)[0] == '"';
  }

  lemma FirstField(s: string, pos: nat, fs: seq<Field>, st: Style)
    requires |fs| > 1 && Has(s, pos, FieldsText(fs, st))
    ensures var end := pos + |FieldText(fs[0], st)|;
            && Has(s, pos, FieldText(fs[0], st)) && Has(s, end, [','] + st.gap)
            && Has(s, end + 1 + |st.gap|, FieldsText(fs[1..], st))
            && |FieldsText(fs, st)| == |FieldText(fs[0], st)| + 1 + |st.gap| + |FieldsText(fs[1..], st)|
  {
    hide FieldText, Has;
    var t, comma, rest := FieldText(fs[0], st), [','] + st.gap, FieldsText(fs[1..], st);
    assert FieldsText(fs, st) == t + (comma + rest);
    HasSplit(s, pos, t, comma + rest);
    HasSplit(s, pos + |t|, comma, rest);
  }

  /** Reading past fields that are each followed by a comma. */
  lemma {:induction false} PairsSkip(s: string, pos: nat, fs: seq<Field>, st: Style, obj: Dict)
    requires fs != [] && AllSpace(st.gap) && forall f :: f in fs ==> Readable(f)
    requires Has(s, pos, FieldsText(fs, st)) && Has(s, pos + |FieldsText(fs, st)|, [','] + st.gap)
    requires var end := pos + |FieldsText(fs, st)| + 1 + |st.gap|; end < |s| && !IsSpace(s[end])
    ensures ParsePairs(s, pos, obj) ==
            ParsePairs(s, pos + |FieldsText(fs, st)| + 1 + |st.gap|, ReadFields(fs, obj, st.escaper))
    decreases |fs|
  {
    hide FieldText, ParsePairs, Has, ReadBack, ReadValue, Readable;
    var f := fs[0];
    if |fs| == 1 {
      PairThenComma(s, pos, f, st, obj);
      assert fs[1..] == [];
    } else {
      FirstField(s, pos, fs, st);
      var next := pos + |FieldText(f, st)| + 1 + |st.gap|;
      FieldsStart(s, next, fs[1..], st);
      PairThenComma(s, pos, f, st, obj);
      PairsSkip(s, next, fs[1..], st, obj[ReadBack(st.escaper, f.key) := ReadValue(f, st.escaper)]);
    }
  }

  lemma {:induction false} PairsRead(s: string, pos: nat, fs: seq<Field>, st: Style, obj: Dict)
    requires fs != [] && AllSpace(st.gap) && forall f :: f in fs ==> Readable(f)
    requires Has(s, pos, FieldsText(fs, st)) && Has(s, pos + |FieldsText(fs, st)|, ['}'])
    ensures ParsePairs(s, pos, obj) == Ok(ReadFields(fs, obj, st.escaper), pos + |FieldsText(fs, st)| + 1)
    decreases |fs|
  {
    hide FieldText, ParsePairs, Has, ReadBack, ReadValue, Readable;
    var f := fs[0];
    if |fs| == 1 {
      LastPairRead(s, pos, f, st, obj);
      assert fs[1..] == [];
    } else {
      FirstField(s, pos, fs, st);
      var next := pos + |FieldText(f, st)| + 1 + |st.gap|;
      FieldsStart(s, next, fs[1..], st);
      PairThenComma(s, pos, f, st, obj);
      PairsRead(s, next, fs[1..], st, obj[ReadBack(st.escaper, f.key) := ReadValue(f, st.escaper)]);
    }
  }

  /** Behind an opening brace. */
  lemma ObjectOpens(s: string, pos: nat)
    requires pos + 1 < |s| && s[pos] == '{' && !IsSpace(s[pos + 1])
    ensures ParseObject(s, pos) == if s[pos + 1] == '}' then Ok(map[], pos + 2) else ParsePairs(s, pos + 1, map[])
  {
    hide ParsePairs;
  }

  /** Any object of readable fields is read back field by field, later keys winning. */
  lemma ObjectRead(s: string, pos: nat, fs: seq<Field>, st: Style)
    requires AllSpace(st.gap) && forall f :: f in fs ==> Readable(f)
    requires Has(s, pos, ObjectText(fs, st))
    ensures ParseObject(s, pos) == Ok(ReadFields(fs, map[], st.escaper), pos + |ObjectText(fs, st)|)
  {
    var text := FieldsText(fs, st);
    assert fs == [] ==> text == [];
    hide ParsePairs, ParseObject, FieldsText, Readable, ReadBack, ReadValue;
    assert ObjectText(fs, st) == ['{'] + (text + ['}']);
    assert (['{'] + (text + ['}']))[1..] == text + ['}'];
    HasSplit(s, pos + 1, text, ['}']);
    if fs != [] {
      FieldsStart(s, pos + 1, fs, st);
      PairsRead(s, pos + 1, fs, st, map[]);
    }
    ObjectOpens(s, pos);
  }
}
