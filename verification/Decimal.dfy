/** Decimal text: what operator<< prints for an unsigned number, and std::stoul. */
module Decimal {
  import opened Common
  import opened JsonReader

  const ULONG_RANGE := 0x1_0000_0000_0000_0000

  predicate IsDigit(c: char) {
    '0' <= c <= '9'
  }

  predicate AllDigits(s: string) {
    forall i :: 0 <= i < |s| ==> IsDigit(s[i])
  }

  function Print(n: nat): (s: string)
    ensures |s| > 0 && AllDigits(s)
  {
    var last := [(48 + n % 10) as char];
    if n < 10 then last else Print(n / 10) + last
  }

  /** The number a run of digits denotes. */
  function Value(s: string): nat
    requires AllDigits(s)
  {
    if s == [] then 0 else 10 * Value(s[..|s| - 1]) + (s[|s| - 1] as int - 48)
  }

  function DigitsEnd(s: string, pos: nat): (r: nat)
    requires pos <= |s|
    ensures pos <= r <= |s| && AllDigits(s[pos..r])
    ensures r < |s| ==> !IsDigit(s[r])
    decreases |s| - pos
  {
    if pos < |s| && IsDigit(s[pos]) then
      var r := DigitsEnd(s, pos + 1);
      assert s[pos..r] == [s[pos]] + s[pos + 1..r];
      r
    else pos
  }

  /** std::stoul in base 10; None where it throws.  A leading minus negates in the
      unsigned long type. */
  function Stoul(s: string): Option<nat> {
    var start := SkipWs(s, 0);
    var negative := start < |s| && s[start] == '-';
    var first := if start < |s| && (s[start] == '-' || s[start] == '+') then start + 1 else start;
    var end := DigitsEnd(s, first);
    if end == first then None
    else
      var v := Value(s[first..end]);
      if v >= ULONG_RANGE then None
      else if negative then Some((ULONG_RANGE - v) % ULONG_RANGE)
      else Some(v)
  }

  lemma {:induction false} ValuePrint(n: nat)
    ensures Value(Print(n)) == n
  {
    var s := Print(n);
    if n >= 10 {
      ValuePrint(n / 10);
      assert s[..|s| - 1] == Print(n / 10);
    } else {
      assert s[..|s| - 1] == [];
    }
  }

  lemma {:induction false} DigitsToEnd(s: string, pos: nat)
    requires pos <= |s| && AllDigits(s)
    ensures DigitsEnd(s, pos) == |s|
    decreases |s| - pos
  {
    if pos < |s| {
      DigitsToEnd(s, pos + 1);
    }
  }

  /** Blanks, a sign or none, digits, and then anything that is no digit: the digits count, a
      minus is taken modulo 2^64, and 2^64 or more throws. */
  lemma StoulExact(blanks: string, sign: string, digits: string, rest: string)
    requires (forall i :: 0 <= i < |blanks| ==> IsSpace(blanks[i])) && (sign == "" || sign == "-" || sign == "+")
    requires digits != "" && AllDigits(digits) && (rest != "" ==> !IsDigit(rest[0]))
    ensures Stoul(blanks + sign + digits + rest) ==
            if Value(digits) >= 0x1_0000_0000_0000_0000 then None
            else if sign == "-" && Value(digits) > 0 then Some(0x1_0000_0000_0000_0000 - Value(digits))
            else Some(Value(digits))
  {
    hide Value, Stoul;
    var s, n, m := blanks + sign + digits + rest, |blanks|, |blanks| + |sign|;
    assert IsDigit(digits[0]) && s[m] == digits[0];
    assert sign != "" ==> s[n] == sign[0];
    assert s[m..m + |digits|] == digits;
    assert rest != "" ==> s[m + |digits|] == rest[0];
    assert forall i :: 0 <= i < |digits| ==> s[m + i] == digits[i] && IsDigit(digits[i]);
    StoulAt(s, n, m, m + |digits|);
  }

  lemma StoulAt(s: string, n: nat, m: nat, end: nat)
    requires n <= m < end <= |s| && (forall i :: 0 <= i < n ==> IsSpace(s[i])) && !IsSpace(s[n])
    requires m == if s[n] == '-' || s[n] == '+' then n + 1 else n
    requires AllDigits(s[m..end]) && (end < |s| ==> !IsDigit(s[end]))
    ensures var v := Value(s[m..end]);
            Stoul(s) == if v >= ULONG_RANGE then None
                        else if s[n] == '-' && v > 0 then Some(ULONG_RANGE - v) else Some(v)
  {
    StartsAt(s, n);
    assert forall i :: m <= i < end ==> s[i] == s[m..end][i - m];
    EndsAt(s, m, end);
    hide Value;
  }

  lemma StartsAt(s: string, n: nat)
    requires n < |s| && (forall i :: 0 <= i < n ==> IsSpace(s[i])) && !IsSpace(s[n])
    ensures SkipWs(s, 0) == n
  {
    hide IsSpace;
  }

  lemma {:induction false} EndsAt(s: string, pos: nat, end: nat)
    requires pos <= end <= |s| && (forall i :: pos <= i < end ==> IsDigit(s[i])) && (end < |s| ==> !IsDigit(s[end]))
    ensures DigitsEnd(s, pos) == end
    decreases end - pos
  {
    if pos < end {
      EndsAt(s, pos + 1, end);
    }
  }

  /** Without a digit there it throws. */
  lemma StoulFails(blanks: string, sign: string, rest: string)
    requires (forall i :: 0 <= i < |blanks| ==> IsSpace(blanks[i])) && (sign == "" || sign == "-" || sign == "+")
    requires rest != "" ==> !IsDigit(rest[0]) && (sign == "" ==> !IsSpace(rest[0]) && rest[0] != '-' && rest[0] != '+')
    ensures Stoul(blanks + sign + rest) == None
  {
    var s, n := blanks + sign + rest, |blanks|;
    assert sign != "" ==> s[n] == sign[0];
    assert rest != "" ==> s[n + |sign|] == rest[0];
    assert forall i :: 0 <= i < n ==> IsSpace(s[i]);
    if n < |s| {
      StartsAt(s, n);
      EndsAt(s, n + |sign|, n + |sign|);
    }
  }

  /** Every number below 2^64 survives printing and std::stoul. */
  lemma StoulPrint(n: nat)
    requires n < ULONG_RANGE
    ensures Stoul(Print(n)) == Some(n)
  {
    var s := Print(n);
    assert IsDigit(s[0]);
    DigitsToEnd(s, 0);
    assert s[0..|s|] == s;
    ValuePrint(n);
  }
}
