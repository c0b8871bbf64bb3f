/**
 The dashboard gateway's JSON reader and its string escaper.

 A `string` stands for a std::string, one char per byte.  Each parser is given as
 a function of the text and the cursor, and again as the method that moves the
 cursor in a loop, proved to compute that function.
 */
module JsonReader {
  import opened Common

  /** Ok holds the value and the cursor behind it; Malformed is the thrown error. */
  datatype Parsed<+T> = Ok(value: T, pos: nat) | Malformed

  type Dict = map<string, string>

  // ---- The parsers as functions ----

  function SkipWs(s: string, pos: nat): (r: nat)
    requires pos <= |s|
    ensures pos <= r <= |s|
    ensures forall i :: pos <= i < r ==> IsSpace(s[i])
    ensures r < |s| ==> !IsSpace(s[r])
    decreases |s| - pos
  {
    if pos < |s| && IsSpace(s[pos]) then SkipWs(s, pos + 1) else pos
  }

  function Expect(s: string, pos: nat, ch: char): (r: Parsed<()>)
    requires pos <= |s|
    ensures r.Ok? ==> pos < r.pos <= |s| && s[r.pos - 1] == ch
  {
    var p := SkipWs(s, pos);
    if p >= |s| || s[p] != ch then Malformed else Ok((), p + 1)
  }

  function Unescaped(c: char): char {
    match c
    case 'n' => '\n'
    case 'r' => '\r'
    case 't' => '\t'
    case _ => c
  }

  /** The characters up to the closing quote (or the end of the text), unescaped. */
  function StringBody(s: string, pos: nat): (r: (string, nat))
    requires pos <= |s|
    ensures pos <= r.1 <= |s|
    ensures r.1 < |s| ==> s[r.1] == '"'
    decreases |s| - pos
  {
    if pos == |s| || s[pos] == '"' then ([], pos)
    else if s[pos] == '\\' && pos + 1 < |s| then
      var rest := StringBody(s, pos + 2);
      ([Unescaped(s[pos + 1])] + rest.0, rest.1)
    else
      var rest := StringBody(s, pos + 1);
      ([s[pos]] + rest.0, rest.1)
  }

  function ParseString(s: string, pos: nat): (r: Parsed<string>)
    requires pos <= |s|
    ensures r.Ok? ==> pos < r.pos <= |s|
  {
    match Expect(s, SkipWs(s, pos), '"')
    case Malformed => Malformed
    case Ok(_, start) =>
      var body := StringBody(s, start);
      match Expect(s, body.1, '"')
      case Malformed => Malformed
      case Ok(_, end) => Ok(body.0, end)
  }

  /** What ends a number, a literal or anything else that is not a string. */
  predicate IsStop(c: char) {
    c == ',' || c == '}' || c == ']' || IsSpace(c)
  }

  function PrimitiveEnd(s: string, pos: nat): (r: nat)
    requires pos <= |s|
    ensures pos <= r <= |s|
    ensures forall i :: pos <= i < r ==> !IsStop(s[i])
    ensures r < |s| ==> IsStop(s[r])
    decreases |s| - pos
  {
    if pos < |s| && !IsStop(s[pos]) then PrimitiveEnd(s, pos + 1) else pos
  }

  function ParsePrimitive(s: string, pos: nat): (r: Parsed<string>)
    requires pos <= |s|
    ensures r.Ok? && pos <= r.pos <= |s|
  {
    var start := SkipWs(s, pos);
    var end := PrimitiveEnd(s, start);
    Ok(s[start..end], end)
  }

  /** A key, a colon and a value. */
  function ParsePair(s: string, pos: nat): (r: Parsed<(string, string)>)
    requires pos <= |s|
    ensures r.Ok? ==> pos < r.pos <= |s|
  {
    match ParseString(s, pos)
    case Malformed => Malformed
    case Ok(key, p1) =>
      match Expect(s, SkipWs(s, p1), ':')
      case Malformed => Malformed
      case Ok(_, p2) =>
        var p3 := SkipWs(s, p2);
        var val := if p3 < |s| && s[p3] == '"' then ParseString(s, p3) else ParsePrimitive(s, p3);
        match val
        case Malformed => Malformed
        case Ok(v, p4) => Ok((key, v), p4)
  }

  /** From the start of a pair to behind the closing brace. */
  function ParsePairs(s: string, pos: nat, obj: Dict): (r: Parsed<Dict>)
    requires pos <= |s|
    ensures r.Ok? ==> pos < r.pos <= |s|
    decreases |s| - pos
  {
    if pos == |s| then Malformed
    else
      match ParsePair(s, pos)
      case Malformed => Malformed
      case Ok(kv, p1) =>
        var obj' := obj[kv.0 := kv.1];
        var p2 := SkipWs(s, p1);
        if p2 < |s| && s[p2] == ',' then ParsePairs(s, SkipWs(s, p2 + 1), obj')
        else
          match Expect(s, p2, '}')
          case Malformed => Malformed
          case Ok(_, p3) => Ok(obj', p3)
  }

  function ParseObject(s: string, pos: nat): (r: Parsed<Dict>)
    requires pos <= |s|
    ensures r.Ok? ==> pos < r.pos <= |s|
  {
    match Expect(s, SkipWs(s, pos), '{')
    case Malformed => Malformed
    case Ok(_, p1) =>
      var p2 := SkipWs(s, p1);
      if p2 < |s| && s[p2] == '}' then Ok(map[], p2 + 1) else ParsePairs(s, p2, map[])
  }

  /** What is read as an object starts, but for blanks, with a brace, and ends with one. */
  lemma ObjectEnds(s: string, pos: nat)
    requires pos <= |s| && ParseObject(s, pos).Ok?
    ensures SkipWs(s, pos) < |s| && s[SkipWs(s, pos)] == '{' && s[ParseObject(s, pos).pos - 1] == '}'
  {
    hide ParsePairs;
    var p1 := SkipWs(s, pos);
    assert SkipWs(s, p1) == p1;
    var p2 := SkipWs(s, p1 + 1);
    if !(p2 < |s| && s[p2] == '}') {
      PairsClose(s, p2, map[]);
    }
  }

  lemma {:induction false} PairsClose(s: string, pos: nat, obj: Dict)
    requires pos <= |s| && ParsePairs(s, pos, obj).Ok?
    ensures s[ParsePairs(s, pos, obj).pos - 1] == '}'
    decreases |s| - pos
  {
    hide ParsePair, SkipWs;
    var pair := ParsePair(s, pos);
    var p2 := SkipWs(s, pair.pos);
    if p2 < |s| && s[p2] == ',' {
      PairsClose(s, SkipWs(s, p2 + 1), obj[pair.value.0 := pair.value.1]);
    }
  }

  // ---- The same parsers as loops over a cursor ----

  method RunSkipWs(s: string, start: nat) returns (pos: nat)
    requires start <= |s|
    ensures pos == SkipWs(s, start)
  {
    pos := start;
    while pos < |s| && IsSpace(s[pos])
      invariant pos <= |s| && SkipWs(s, pos) == SkipWs(s, start)
    {
      pos := pos + 1;
    }
  }

  method RunExpect(s: string, start: nat, ch: char) returns (ok: bool, pos: nat)
    requires start <= |s|
    ensures if ok then Expect(s, start, ch) == Ok((), pos) else Expect(s, start, ch) == Malformed
  {
    pos := RunSkipWs(s, start);
    if pos >= |s| || s[pos] != ch {
      return false, pos;
    }
    return true, pos + 1;
  }

  /** The loop of parseString, from behind the opening quote. */
  method RunStringBody(s: string, start: nat) returns (result: string, pos: nat)
    requires start <= |s|
    ensures (result, pos) == StringBody(s, start)
  {
    pos := start;
    result := "";
    while pos < |s| && s[pos] != '"'
      invariant pos <= |s|
      invariant StringBody(s, start).0 == result + StringBody(s, pos).0
      invariant StringBody(s, start).1 == StringBody(s, pos).1
    {
      var c := s[pos];
      if s[pos] == '\\' && pos + 1 < |s| {
        pos := pos + 1;
        match s[pos] {
          case 'n' => c := '\n';
          case 'r' => c := '\r';
          case 't' => c := '\t';
          case _ => c := s[pos];
        }
      }
      pos := pos + 1;
      assert result + ([c] + StringBody(s, pos).0) == result + [c] + StringBody(s, pos).0;
      result := result + [c];
    }
    assert StringBody(s, start).0 == result;
  }

  method RunParseString(s: string, start: nat) returns (r: Parsed<string>)
    requires start <= |s|
    ensures r == ParseString(s, start)
  {
    hide StringBody;
    var pos: nat := RunSkipWs(s, start);
    var ok;
    ok, pos := RunExpect(s, pos, '"');
    if !ok {
      return Malformed;
    }
    var result;
    result, pos := RunStringBody(s, pos);
    ok, pos := RunExpect(s, pos, '"');
    return if ok then Ok(result, pos) else Malformed;
  }

  method RunParsePrimitive(s: string, from: nat) returns (r: Parsed<string>)
    requires from <= |s|
    ensures r == ParsePrimitive(s, from)
  {
    var start := RunSkipWs(s, from);
    var pos := start;
    while pos < |s| && s[pos] != ',' && s[pos] != '}' && s[pos] != ']' && !IsSpace(s[pos])
      invariant start <= pos <= |s| && PrimitiveEnd(s, pos) == PrimitiveEnd(s, start)
    {
      pos := pos + 1;
    }
    return Ok(s[start..pos], pos);
  }

  method RunParsePair(s: string, start: nat) returns (r: Parsed<(string, string)>)
    requires start <= |s|
    ensures r == ParsePair(s, start)
  {
    var key := RunParseString(s, start);
    if key.Malformed? {
      return Malformed;
    }
    var pos: nat := RunSkipWs(s, key.pos);
    var ok;
    ok, pos := RunExpect(s, pos, ':');
    if !ok {
      return Malformed;
    }
    pos := RunSkipWs(s, pos);
    var val;
    if pos < |s| && s[pos] == '"' {
      val := RunParseString(s, pos);
    } else {
      val := RunParsePrimitive(s, pos);
    }
    return if val.Malformed? then Malformed else Ok((key.value, val.value), val.pos);
  }

  /** The loop of parseObject, and the closing brace. */
  method RunParsePairs(s: string, start: nat) returns (r: Parsed<Dict>)
    requires start <= |s|
    ensures r == ParsePairs(s, start, map[])
  {
    hide ParsePair, SkipWs;
    var obj: Dict := map[];
    var pos := start;
    while pos < |s|
      invariant pos <= |s|
      invariant ParsePairs(s, start, map[]) == ParsePairs(s, pos, obj)
    {
      var pair := RunParsePair(s, pos);
      if pair.Malformed? {
        return Malformed;
      }
      obj := obj[pair.value.0 := pair.value.1];
      pos := RunSkipWs(s, pair.pos);
      if pos < |s| && s[pos] == ',' {
        pos := RunSkipWs(s, pos + 1);
        continue;
      }
      break;
    }
    var ok;
    ok, pos := RunExpect(s, pos, '}');
    return if ok then Ok(obj, pos) else Malformed;
  }

  method RunParseObject(s: string, start: nat) returns (r: Parsed<Dict>)
    requires start <= |s|
    ensures r == ParseObject(s, start)
  {
    hide ParsePairs, SkipWs;
    var pos: nat := RunSkipWs(s, start);
    var ok;
    ok, pos := RunExpect(s, pos, '{');
    if !ok {
      return Malformed;
    }
    pos := RunSkipWs(s, pos);
    if pos < |s| && s[pos] == '}' {
      return Ok(map[], pos + 1);
    }
    r := RunParsePairs(s, pos);
  }
}
