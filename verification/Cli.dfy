/**
 The command line of the shell: splitting a line into tokens, and sorting the tokens
 into positionals, flags with a value, and bare flags.
 */
module Cli {
  import opened Common

  // ---- Tokens ----

  predicate Word(t: string) {
    t != "" && forall c :: c in t ==> !IsSpace(c)
  }

  /** The end of the run of non-spaces that starts at `from`. */
  function WordEnd(s: string, from: nat): (e: nat)
    requires from <= |s|
    ensures from <= e <= |s|
    ensures forall k :: from <= k < e ==> !IsSpace(s[k])
    ensures e < |s| ==> IsSpace(s[e])
    decreases |s| - from
  {
    if from == |s| || IsSpace(s[from]) then from else WordEnd(s, from + 1)
  }

  function Tokens(s: string): seq<string>
    decreases |s|
  {
    if s == "" then []
    else if IsSpace(s[0]) then Tokens(s[1..])
    else
      var e := WordEnd(s, 0);
      [s[..e]] + Tokens(s[e..])
  }

  lemma SkipSpace(input: string, i: nat)
    requires i < |input| && IsSpace(input[i])
    ensures Tokens(input[i..]) == Tokens(input[i + 1..])
  {
    assert input[i..][1..] == input[i + 1..];
  }

  lemma NothingLeft(input: string)
    ensures Tokens(input[|input|..]) == []
  {
  }

  /** One extraction, `iss >> token`: it fails when only spaces are left. */
  method Extract(input: string, from: nat) returns (ok: bool, token: string, next: nat)
    requires from <= |input|
    ensures ok ==> from < next <= |input| && Tokens(input[from..]) == [token] + Tokens(input[next..])
    ensures !ok ==> Tokens(input[from..]) == []
  {
    hide Tokens, IsSpace;
    var i := from;
    while i < |input| && IsSpace(input[i])
      invariant from <= i <= |input|
      invariant Tokens(input[from..]) == Tokens(input[i..])
    {
      SkipSpace(input, i);
      i := i + 1;
    }
    if i == |input| {
      NothingLeft(input);
      return false, "", i;
    }
    var start := i;
    while i < |input| && !IsSpace(input[i])
      invariant start <= i <= |input|
      invariant forall k :: start <= k < i ==> !IsSpace(input[k])
    {
      i := i + 1;
    }
    FirstWord(input[start..], i - start);
    assert input[start..][..i - start] == input[start..i] && input[start..][i - start..] == input[i..];
    return true, input[start..i], i;
  }

  method ParseCommand(input: string) returns (tokens: seq<string>)
    ensures tokens == Tokens(input)
  {
    hide Tokens;
    tokens := [];
    assert input[0..] == input;
    var ok, token, i := Extract(input, 0);
    ghost var left := if ok then [token] + Tokens(input[i..]) else [];
    while ok
      invariant ok ==> i <= |input| && left == [token] + Tokens(input[i..])
      invariant !ok ==> left == []
      invariant Tokens(input) == tokens + left
      decreases ok, |input| - i
    {
      assert tokens + left == (tokens + [token]) + Tokens(input[i..]);
      tokens := tokens + [token];
      left := Tokens(input[i..]);
      ok, token, i := Extract(input, i);
    }
    assert tokens + [] == tokens;
  }

  lemma FirstWord(s: string, e: nat)
    requires 0 < e <= |s| && (forall k :: 0 <= k < e ==> !IsSpace(s[k])) && (e < |s| ==> IsSpace(s[e]))
    ensures Tokens(s) == [s[..e]] + Tokens(s[e..])
  {
    var d := WordEnd(s, 0);
    assert d == e;
  }

  function Join(tokens: seq<string>): string {
    if tokens == [] then ""
    else if |tokens| == 1 then tokens[0]
    else tokens[0] + " " + Join(tokens[1..])
  }

  /** Splitting what was joined with single spaces gives the words back. */
  lemma {:induction false} JoinSplit(tokens: seq<string>)
    requires forall i :: 0 <= i < |tokens| ==> Word(tokens[i])
    ensures Tokens(Join(tokens)) == tokens
  {
    if tokens != [] {
      var t, s := tokens[0], Join(tokens);
      if |tokens| == 1 {
        FirstWord(s, |t|);
        assert s[..|t|] == t && s[|t|..] == "";
      } else {
        var more := Join(tokens[1..]);
        assert s == t + ([' '] + more);
        FirstWord(s, |t|);
        assert s[..|t|] == t && s[|t|..] == [' '] + more;
        assert ([' '] + more)[1..] == more;
        JoinSplit(tokens[1..]);
      }
    }
  }

  function WithoutSpaces(s: string): string {
    if s == "" then "" else (if IsSpace(s[0]) then "" else [s[0]]) + WithoutSpaces(s[1..])
  }

  function Concat(tokens: seq<string>): string {
    if tokens == [] then "" else tokens[0] + Concat(tokens[1..])
  }

  lemma {:induction false} WithoutSpacesSplit(a: string, b: string)
    requires forall c :: c in a ==> !IsSpace(c)
    ensures WithoutSpaces(a + b) == a + WithoutSpaces(b)
  {
    if a == "" {
      assert a + b == b;
    } else {
      assert (a + b)[1..] == a[1..] + b;
      WithoutSpacesSplit(a[1..], b);
    }
  }

  /** Every token is a word, and together they hold every character that is no space,
      once and in order. */
  lemma {:induction false} TokensExact(s: string)
    ensures forall i :: 0 <= i < |Tokens(s)| ==> Word(Tokens(s)[i])
    ensures Concat(Tokens(s)) == WithoutSpaces(s)
    decreases |s|
  {
    hide IsSpace;
    if s != "" {
      if IsSpace(s[0]) {
        TokensExact(s[1..]);
      } else {
        var e := WordEnd(s, 0);
        var word, rest := s[..e], s[e..];
        TokensExact(rest);
        FirstToken(s);
        hide Tokens, WordEnd;
        WithoutSpacesSplit(word, rest);
        assert s == word + rest;
        ConcatCons(word, Tokens(rest));
      }
    }
  }

  lemma FirstToken(s: string)
    requires s != "" && !IsSpace(s[0])
    ensures var e := WordEnd(s, 0); e > 0 && Tokens(s) == [s[..e]] + Tokens(s[e..]) && Word(s[..e])
  {
  }

  lemma ConcatCons(word: string, tokens: seq<string>)
    ensures Concat([word] + tokens) == word + Concat(tokens)
  {
  }

  // ---- Arguments ----

  datatype Dashes = One | Two

  /** What one or two tokens stand for. */
  datatype Item =
    | Positional(text: string)
    | Flag(dashes: Dashes, key: string, value: string)
    | Bare(dashes: Dashes, key: string)

  predicate Long(t: string) {
    |t| >= 2 && t[0] == '-' && t[1] == '-'
  }

  predicate Dashed(t: string) {
    t != "" && t[0] == '-'
  }

  /** May this token be the value of the flag before it? */
  predicate IsValue(d: Dashes, t: string) {
    if d.Two? then !Long(t) else !Dashed(t)
  }

  function Items(tokens: seq<string>): seq<Item>
    decreases |tokens|
  {
    if tokens == [] then []
    else if Dashed(tokens[0]) then
      var d := if Long(tokens[0]) then Two else One;
      var key := tokens[0][if d.Two? then 2 else 1..];
      if |tokens| > 1 && IsValue(d, tokens[1])
      then [Flag(d, key, tokens[1])] + Items(tokens[2..])
      else [Bare(d, key)] + Items(tokens[1..])
    else [Positional(tokens[0])] + Items(tokens[1..])
  }

  datatype ParsedArgs = ParsedArgs(positional: seq<string>, flags: map<string, string>, bools: map<string, bool>)

  const EMPTY := ParsedArgs([], map[], map[])

  function Add(r: ParsedArgs, item: Item): ParsedArgs {
    match item
    case Positional(t) => r.(positional := r.positional + [t])
    case Flag(_, k, v) => r.(flags := r.flags[k := v])
    case Bare(_, k) => r.(bools := r.bools[k := true])
  }

  function Collect(r: ParsedArgs, items: seq<Item>): ParsedArgs
    decreases |items|
  {
    if items == [] then r else Collect(Add(r, items[0]), items[1..])
  }

  lemma CollectFirst(r: ParsedArgs, item: Item, items: seq<Item>)
    ensures Collect(r, [item] + items) == Collect(Add(r, item), items)
  {
    assert ([item] + items)[1..] == items;
  }

  /** std::string::substr(0, n). */
  function Start(t: string, n: nat): string {
    if n <= |t| then t[..n] else t
  }

  /** One turn of the loop: the token at i and, when it takes one, its value. */
  method ParseOne(tokens: seq<string>, from: nat, before: ParsedArgs) returns (result: ParsedArgs, next: nat)
    requires from < |tokens|
    ensures from < next <= |tokens|
    ensures Collect(result, Items(tokens[next..])) == Collect(before, Items(tokens[from..]))
  {
    hide Items, Collect, Start, Long, Dashed;
    result := before;
    var i := from;
    var token := tokens[i];
    ItemsStep(tokens, i);
    StartsAlike(token);
    if i + 1 < |tokens| {
      StartsAlike(tokens[i + 1]);
    }
    if Start(token, 2) == "--" {
      var key := token[2..];
      if i + 1 < |tokens| && Start(tokens[i + 1], 2) != "--" {
        i := i + 1;
        result := result.(flags := result.flags[key := tokens[i]]);
        CollectFirst(before, Flag(Two, key, tokens[i]), Items(tokens[i + 1..]));
      } else {
        result := result.(bools := result.bools[key := true]);
        CollectFirst(before, Bare(Two, key), Items(tokens[i + 1..]));
      }
    } else if Start(token, 1) == "-" {
      var key := token[1..];
      if i + 1 < |tokens| && Start(tokens[i + 1], 1) != "-" {
        i := i + 1;
        result := result.(flags := result.flags[key := tokens[i]]);
        CollectFirst(before, Flag(One, key, tokens[i]), Items(tokens[i + 1..]));
      } else {
        result := result.(bools := result.bools[key := true]);
        CollectFirst(before, Bare(One, key), Items(tokens[i + 1..]));
      }
    } else {
      result := result.(positional := result.positional + [token]);
      CollectFirst(before, Positional(token), Items(tokens[i + 1..]));
    }
    return result, i + 1;
  }

  method ParseArgs(tokens: seq<string>, start: nat) returns (result: ParsedArgs)
    ensures result == Collect(EMPTY, if start <= |tokens| then Items(tokens[start..]) else [])
  {
    result := EMPTY;
    if start > |tokens| {
      return;
    }
    var i := start;
    while i < |tokens|
      invariant start <= i <= |tokens|
      invariant Collect(result, Items(tokens[i..])) == Collect(EMPTY, Items(tokens[start..]))
      decreases |tokens| - i
    {
      result, i := ParseOne(tokens, i, result);
    }
  }

  lemma StartsAlike(t: string)
    ensures Start(t, 2) == "--" <==> Long(t)
    ensures Start(t, 1) == "-" <==> Dashed(t)
    ensures Long(t) ==> |t| >= 2
    ensures Dashed(t) ==> |t| >= 1
    ensures Long(t) ==> Dashed(t)
  {
  }

  lemma ItemsStep(tokens: seq<string>, i: nat)
    requires i < |tokens|
    ensures !Dashed(tokens[i]) ==> Items(tokens[i..]) == [Positional(tokens[i])] + Items(tokens[i + 1..])
    ensures Dashed(tokens[i]) ==>
              var d := if Long(tokens[i]) then Two else One;
              var key := tokens[i][if d.Two? then 2 else 1..];
              Items(tokens[i..]) ==
                if i + 1 < |tokens| && IsValue(d, tokens[i + 1])
                then [Flag(d, key, tokens[i + 1])] + Items(tokens[i + 2..])
                else [Bare(d, key)] + Items(tokens[i + 1..])
  {
    assert tokens[i..][1..] == tokens[i + 1..];
    assert i + 1 < |tokens| ==> tokens[i..][1] == tokens[i + 1] && tokens[i..][2..] == tokens[i + 2..];
  }

  /** What a dashed token makes of the token behind it: "--k" takes any but one that starts
      with two dashes as its value, "-k" any but one that starts with a dash. */
  lemma DashedPair(k: string, t: string, rest: seq<string>)
    ensures Items(["--" + k, t] + rest) ==
            if |t| >= 2 && t[..2] == "--" then [Bare(Two, k)] + Items([t] + rest) else [Flag(Two, k, t)] + Items(rest)
    ensures k == "" || k[0] != '-' ==>
              Items(["-" + k, t] + rest) ==
              if t != "" && t[0] == '-' then [Bare(One, k)] + Items([t] + rest) else [Flag(One, k, t)] + Items(rest)
  {
    hide Items;
    var two, one := ["--" + k, t] + rest, ["-" + k, t] + rest;
    ItemsStep(two, 0);
    ItemsStep(one, 0);
    assert two[0..] == two && two[1..] == [t] + rest && two[2..] == rest;
    assert one[0..] == one && one[1..] == [t] + rest && one[2..] == rest;
    assert ("--" + k)[2..] == k && ("-" + k)[1..] == k;
  }

  // ---- The printer ----

  function Prefix(d: Dashes): string {
    if d.Two? then "--" else "-"
  }

  function TokensOf(item: Item): seq<string> {
    match item
    case Positional(t) => [t]
    case Flag(d, k, v) => [Prefix(d) + k, v]
    case Bare(d, k) => [Prefix(d) + k]
  }

  function Print(items: seq<Item>): seq<string> {
    if items == [] then [] else TokensOf(items[0]) + Print(items[1..])
  }

  /** Can the reader tell this item from its tokens and the token that follows? */
  predicate Clear(item: Item, next: seq<string>) {
    match item
    case Positional(t) => !Dashed(t)
    case Flag(d, k, v) => IsValue(d, v) && (d.One? ==> !Dashed(k))
    case Bare(d, k) => (next == [] || !IsValue(d, next[0])) && (d.One? ==> !Dashed(k))
  }

  predicate Readable(items: seq<Item>)
    decreases |items|
  {
    items == [] || (Clear(items[0], Print(items[1..])) && Readable(items[1..]))
  }

  /** Every token is consumed exactly once, in order, by items the reader can tell. */
  lemma {:induction false} ItemsExact(tokens: seq<string>)
    ensures Print(Items(tokens)) == tokens && Readable(Items(tokens))
    decreases |tokens|
  {
    hide Items, Print, Readable, Clear, TokensOf;
    if tokens == [] {
      NoItems();
    } else {
      var item, taken := FirstTaken(tokens);
      ItemsExact(tokens[taken..]);
      OneMore(tokens, item, tokens[taken..]);
    }
  }

  lemma NoItems()
    ensures Items([]) == [] && Print([]) == [] && Readable([])
  {
  }

  /** The first item, and how many tokens it is made of. */
  lemma FirstTaken(tokens: seq<string>) returns (item: Item, taken: nat)
    requires tokens != []
    ensures 1 <= taken <= |tokens| && Items(tokens) == [item] + Items(tokens[taken..])
    ensures tokens == TokensOf(item) + tokens[taken..] && Clear(item, tokens[taken..])
  {
    hide Items, Long, Dashed;
    var t := tokens[0];
    ItemsStep(tokens, 0);
    assert tokens[0..] == tokens;
    StartsAlike(t);
    if !Dashed(t) {
      item, taken := Positional(t), 1;
    } else {
      var d := if Long(t) then Two else One;
      var key := t[if d.Two? then 2 else 1..];
      DashedKey(t);
      if |tokens| > 1 && IsValue(d, tokens[1]) {
        item, taken := Flag(d, key, tokens[1]), 2;
      } else {
        item, taken := Bare(d, key), 1;
      }
    }
  }

  lemma OneMore(tokens: seq<string>, item: Item, rest: seq<string>)
    requires Items(tokens) == [item] + Items(rest) && tokens == TokensOf(item) + rest && Clear(item, rest)
    requires Print(Items(rest)) == rest && Readable(Items(rest))
    ensures Print(Items(tokens)) == tokens && Readable(Items(tokens))
  {
    hide Items, Print, Readable, Clear, TokensOf;
    PrintCons(item, Items(rest));
  }

  lemma PrintCons(item: Item, items: seq<Item>)
    ensures Print([item] + items) == TokensOf(item) + Print(items)
    ensures Readable([item] + items) <==> Clear(item, Print(items)) && Readable(items)
  {
    assert ([item] + items)[1..] == items;
  }

  lemma DashedKey(t: string)
    requires Dashed(t)
    ensures var d := if Long(t) then Two else One;
            Prefix(d) + t[if d.Two? then 2 else 1..] == t && (d.One? ==> !Dashed(t[1..]))
  {
  }

  lemma {:induction false} ReadableBack(items: seq<Item>)
    requires Readable(items)
    ensures Items(Print(items)) == items
  {
    if items != [] {
      ReadableBack(items[1..]);
      FirstItem(items[0], Print(items[1..]));
      assert items == [items[0]] + items[1..];
    }
  }

  lemma FirstItem(item: Item, rest: seq<string>)
    requires Clear(item, rest)
    ensures Items(TokensOf(item) + rest) == [item] + Items(rest)
  {
    var tokens := TokensOf(item) + rest;
    ItemsStep(tokens, 0);
    assert tokens[0..] == tokens;
    if !item.Positional? {
      var t := Prefix(item.dashes) + item.key;
      assert t[|Prefix(item.dashes)|..] == item.key;
    }
    assert item.Flag? ==> tokens[2..] == rest;
    assert !item.Flag? ==> tokens[1..] == rest;
  }

  /** Reading undoes printing exactly for the item lists the reader can tell. */
  lemma ReadPrintExact(items: seq<Item>)
    ensures Items(Print(items)) == items <==> Readable(items)
  {
    ItemsExact(Print(items));
    if Readable(items) {
      ReadableBack(items);
    }
  }

  // ---- A whole command line ----

  datatype Pair = Pair(key: string, value: string)

  function Positionals(texts: seq<string>): (r: seq<Item>)
    ensures |r| == |texts| && forall i :: 0 <= i < |r| ==> r[i] == Positional(texts[i])
  {
    seq(|texts|, i requires 0 <= i < |texts| => Positional(texts[i]))
  }

  function Flags(pairs: seq<Pair>): (r: seq<Item>)
    ensures |r| == |pairs| && forall i :: 0 <= i < |r| ==> r[i] == Flag(Two, pairs[i].key, pairs[i].value)
  {
    seq(|pairs|, i requires 0 <= i < |pairs| => Flag(Two, pairs[i].key, pairs[i].value))
  }

  function Bares(keys: seq<string>): (r: seq<Item>)
    ensures |r| == |keys| && forall i :: 0 <= i < |r| ==> r[i] == Bare(Two, keys[i])
  {
    seq(|keys|, i requires 0 <= i < |keys| => Bare(Two, keys[i]))
  }

  /** Positionals, then flags with values, then bare flags. */
  function Canonical(texts: seq<string>, pairs: seq<Pair>, keys: seq<string>): seq<Item> {
    Positionals(texts) + (Flags(pairs) + Bares(keys))
  }

  predicate SpaceFree(s: string) {
    forall c :: c in s ==> !IsSpace(c)
  }

  predicate Printable(texts: seq<string>, pairs: seq<Pair>, keys: seq<string>) {
    && (forall i :: 0 <= i < |texts| ==> Word(texts[i]) && !Dashed(texts[i]))
    && (forall i :: 0 <= i < |pairs| ==> SpaceFree(pairs[i].key) && Word(pairs[i].value) && !Long(pairs[i].value))
    && (forall i :: 0 <= i < |keys| ==> SpaceFree(keys[i]))
  }

  /** The last pair of a key wins, as in the container. */
  function FlagMap(start: map<string, string>, pairs: seq<Pair>): map<string, string>
    decreases |pairs|
  {
    if pairs == [] then start else FlagMap(start[pairs[0].key := pairs[0].value], pairs[1..])
  }

  function BoolMap(start: map<string, bool>, keys: seq<string>): map<string, bool>
    decreases |keys|
  {
    if keys == [] then start else BoolMap(start[keys[0] := true], keys[1..])
  }

  lemma {:induction false} FlagMapAt(start: map<string, string>, pairs: seq<Pair>, i: nat)
    requires i < |pairs| && forall j :: i < j < |pairs| ==> pairs[j].key != pairs[i].key
    ensures pairs[i].key in FlagMap(start, pairs) && FlagMap(start, pairs)[pairs[i].key] == pairs[i].value
    decreases |pairs|
  {
    if i == 0 {
      FlagMapKeeps(start[pairs[0].key := pairs[0].value], pairs[1..], pairs[0].key);
    } else {
      FlagMapAt(start[pairs[0].key := pairs[0].value], pairs[1..], i - 1);
    }
  }

  lemma {:induction false} FlagMapKeeps(start: map<string, string>, pairs: seq<Pair>, key: string)
    requires forall j :: 0 <= j < |pairs| ==> pairs[j].key != key
    ensures key in FlagMap(start, pairs) <==> key in start
    ensures key in start ==> FlagMap(start, pairs)[key] == start[key]
    decreases |pairs|
  {
    if pairs != [] {
      FlagMapKeeps(start[pairs[0].key := pairs[0].value], pairs[1..], key);
    }
  }

  predicate AllWords(tokens: seq<string>) {
    forall i :: 0 <= i < |tokens| ==> Word(tokens[i])
  }

  /** Item lists that read back and whose tokens are all words. */
  predicate Good(items: seq<Item>) {
    Readable(items) && AllWords(Print(items))
  }

  lemma GoodCons(item: Item, items: seq<Item>)
    requires Good(items) && Clear(item, Print(items)) && AllWords(TokensOf(item))
    ensures Good([item] + items) && Print([item] + items) == TokensOf(item) + Print(items)
  {
    assert ([item] + items)[1..] == items;
  }

  lemma {:induction false} BaresGood(keys: seq<string>)
    requires forall i :: 0 <= i < |keys| ==> SpaceFree(keys[i])
    ensures Good(Bares(keys))
    ensures Print(Bares(keys)) != [] ==> Long(Print(Bares(keys))[0])
  {
    if keys != [] {
      BaresGood(keys[1..]);
      assert Bares(keys) == [Bare(Two, keys[0])] + Bares(keys[1..]);
      GoodCons(Bare(Two, keys[0]), Bares(keys[1..]));
    }
  }

  lemma {:induction false} FlagsGood(pairs: seq<Pair>, keys: seq<string>)
    requires Printable([], pairs, keys)
    ensures Good(Flags(pairs) + Bares(keys))
  {
    hide Good, Print;
    if pairs == [] {
      BaresGood(keys);
      assert Flags(pairs) + Bares(keys) == Bares(keys);
    } else {
      var more, item := Flags(pairs[1..]) + Bares(keys), Flag(Two, pairs[0].key, pairs[0].value);
      FlagsGood(pairs[1..], keys);
      assert Flags(pairs) + Bares(keys) == [item] + more;
      GoodCons(item, more);
    }
  }

  lemma {:induction false} AllGood(texts: seq<string>, pairs: seq<Pair>, keys: seq<string>)
    requires Printable(texts, pairs, keys)
    ensures Good(Canonical(texts, pairs, keys))
  {
    hide Good, Print;
    if texts == [] {
      FlagsGood(pairs, keys);
      assert Canonical(texts, pairs, keys) == Flags(pairs) + Bares(keys);
    } else {
      var more, item := Canonical(texts[1..], pairs, keys), Positional(texts[0]);
      AllGood(texts[1..], pairs, keys);
      assert Canonical(texts, pairs, keys) == [item] + more;
      GoodCons(item, more);
    }
  }

  lemma {:induction false} CollectBares(r: ParsedArgs, keys: seq<string>)
    ensures Collect(r, Bares(keys)) == r.(bools := BoolMap(r.bools, keys))
    decreases |keys|
  {
    if keys != [] {
      assert Bares(keys) == [Bare(Two, keys[0])] + Bares(keys[1..]);
      CollectFirst(r, Bare(Two, keys[0]), Bares(keys[1..]));
      CollectBares(Add(r, Bare(Two, keys[0])), keys[1..]);
    }
  }

  lemma {:induction false} CollectFlags(r: ParsedArgs, pairs: seq<Pair>, keys: seq<string>)
    ensures Collect(r, Flags(pairs) + Bares(keys)) ==
            r.(flags := FlagMap(r.flags, pairs), bools := BoolMap(r.bools, keys))
    decreases |pairs|
  {
    if pairs == [] {
      CollectBares(r, keys);
      assert Flags(pairs) + Bares(keys) == Bares(keys);
    } else {
      var more, item := Flags(pairs[1..]) + Bares(keys), Flag(Two, pairs[0].key, pairs[0].value);
      assert Flags(pairs) + Bares(keys) == [item] + more;
      CollectFirst(r, item, more);
      CollectFlags(Add(r, item), pairs[1..], keys);
    }
  }

  lemma {:induction false} CollectAll(r: ParsedArgs, texts: seq<string>, pairs: seq<Pair>, keys: seq<string>)
    ensures Collect(r, Canonical(texts, pairs, keys)) ==
            ParsedArgs(r.positional + texts, FlagMap(r.flags, pairs), BoolMap(r.bools, keys))
    decreases |texts|
  {
    hide Collect, FlagMap, BoolMap;
    if texts == [] {
      CollectFlags(r, pairs, keys);
      assert Canonical(texts, pairs, keys) == Flags(pairs) + Bares(keys);
      assert r.positional + texts == r.positional;
    } else {
      var more, item := Canonical(texts[1..], pairs, keys), Positional(texts[0]);
      assert Canonical(texts, pairs, keys) == [item] + more;
      CollectFirst(r, item, more);
      CollectAll(Add(r, item), texts[1..], pairs, keys);
      assert r.positional + [texts[0]] + texts[1..] == r.positional + texts;
    }
  }

  /** Joining the canonical tokens with spaces and parsing the line recovers the three
      collections. */
  lemma CommandLineRoundTrip(texts: seq<string>, pairs: seq<Pair>, keys: seq<string>)
    requires Printable(texts, pairs, keys)
    ensures Collect(EMPTY, Items(Tokens(Join(Print(Canonical(texts, pairs, keys)))))) ==
            ParsedArgs(texts, FlagMap(map[], pairs), BoolMap(map[], keys))
  {
    hide Canonical, Print, Readable, Tokens, Join, Items, Collect, FlagMap, BoolMap, Printable, Word;
    var items := Canonical(texts, pairs, keys);
    AllGood(texts, pairs, keys);
    JoinSplit(Print(items));
    ReadableBack(items);
    CollectAll(EMPTY, texts, pairs, keys);
    assert EMPTY.positional + texts == texts;
  }
}
