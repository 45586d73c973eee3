// Decimal integers as strconv.Itoa writes them and strconv.Atoi reads them.
module Decimal {
  import opened Wrappers

  const LIMIT := 0x8000_0000_0000_0000

  predicate IsDigit(c: char) {
    '0' <= c <= '9'
  }

  predicate AllDigits(s: string) {
    forall i :: 0 <= i < |s| ==> IsDigit(s[i])
  }

  function Value(s: string): nat
    requires AllDigits(s)
  {
    if s == "" then 0 else Value(s[..|s| - 1]) * 10 + (s[|s| - 1] as int - '0' as int)
  }

  // An optional sign and digits, within 64 bits.
  function Atoi(s: string): (r: Option<int>)
    ensures r.Some? ==> -LIMIT <= r.value < LIMIT
  {
    var signed := s != "" && s[0] in {'+', '-'};
    var digits := if signed then s[1..] else s;
    if digits == "" || !AllDigits(digits) then None
    else
      var size: int := Value(digits);
      var v := if signed && s[0] == '-' then -size else size;
      if -LIMIT <= v < LIMIT then Some(v) else None
  }

  function Digit(d: nat): char
    requires d < 10
  {
    ('0' as int + d) as char
  }

  function Digits(n: nat): (s: string)
    ensures s != "" && AllDigits(s) && Value(s) == n
    ensures |s| > 1 ==> s[0] != '0'
  {
    if n < 10 then [Digit(n)] else Appended(Digits(n / 10), n % 10)
  }

  function Appended(s: string, d: nat): (t: string)
    requires AllDigits(s) && d < 10
    ensures t == s + [Digit(d)] && AllDigits(t) && Value(t) == Value(s) * 10 + d
  {
    var t := s + [Digit(d)];
    assert t[..|t| - 1] == s;
    t
  }

  function Itoa(n: int): string {
    if n < 0 then "-" + Digits(-n) else Digits(n)
  }

  // Reading back what was written.
  lemma AtoiItoa(n: int)
    requires -LIMIT <= n < LIMIT
    ensures Atoi(Itoa(n)) == Some(n)
  {
    if n < 0 {
      assert Itoa(n)[1..] == Digits(-n);
    } else {
      assert IsDigit(Digits(n)[0]);
    }
  }

  // A text is read exactly if it is an optional sign and digits whose number has 64 bits.
  lemma AtoiExactly(s: string, v: int)
    ensures Atoi(s) == Some(v) <==> -0x8000_0000_0000_0000 <= v < 0x8000_0000_0000_0000 && Denotes(s, v)
  {
    if Atoi(s) == Some(v) { AtoiSpells(s, v); }
    if Denotes(s, v) {
      var sign, digits :| Spelled(s, sign, digits, v);
      OneSpelling(s, sign, digits, v);
    }
  }

  lemma AtoiSpells(s: string, v: int)
    requires Atoi(s) == Some(v)
    ensures Denotes(s, v)
  {
    hide Value, AllDigits;
    if s[0] in {'+', '-'} {
      assert s == [s[0]] + s[1..];
      assert Spelled(s, [s[0]], s[1..], v);
    } else {
      assert Spelled(s, "", s, v);
    }
  }

  lemma OneSpelling(s: string, sign: string, digits: string, v: int)
    requires Spelled(s, sign, digits, v)
    ensures var signed := s[0] in {'+', '-'};
            && signed == (sign != "") && digits == (if signed then s[1..] else s)
            && (signed ==> sign == [s[0]])
  {
    hide Value;
    assert IsDigit(digits[0]);
    if sign == "" { assert s == digits; } else { assert s[0] == sign[0] && s[1..] == digits; }
  }

  ghost predicate Spelled(s: string, sign: string, digits: string, v: int) {
    && sign in {"", "+", "-"} && digits != "" && AllDigits(digits) && s == sign + digits
    && var size: int := Value(digits); v == if sign == "-" then -size else size
  }

  ghost predicate Denotes(s: string, v: int) {
    exists sign, digits :: Spelled(s, sign, digits, v)
  }

  // Writing back what was read gives the text only if it has no leading zero and no plus.
  predicate Canonical(s: string) {
    var digits := if s != "" && s[0] == '-' then s[1..] else s;
    digits != "" && AllDigits(digits) && (|digits| > 1 ==> digits[0] != '0') && (digits == "0" ==> s == "0")
  }

  lemma {:induction false} DigitsUnique(s: string)
    requires s != "" && AllDigits(s) && (|s| > 1 ==> s[0] != '0')
    ensures Digits(Value(s)) == s
    ensures |s| > 1 ==> Value(s) >= 10
    ensures s[0] != '0' ==> Value(s) >= 1
    decreases |s|
  {
    var rest, last := s[..|s| - 1], s[|s| - 1] as int - '0' as int;
    if rest == "" {
      assert s == [s[0]];
    } else {
      DigitsUnique(rest);
      assert s == rest + [s[|s| - 1]];
      assert Value(s) / 10 == Value(rest) && Value(s) % 10 == last;
    }
  }

  lemma ItoaAtoi(s: string)
    requires Atoi(s).Some?
    ensures Itoa(Atoi(s).value) == s <==> Canonical(s)
  {
    if Canonical(s) { CanonicalBack(s); }
  }

  lemma CanonicalBack(s: string)
    requires Atoi(s).Some? && Canonical(s)
    ensures Itoa(Atoi(s).value) == s
  {
    if s[0] == '-' {
      DigitsUnique(s[1..]);
      assert s == "-" + s[1..];
    } else {
      DigitsUnique(s);
    }
  }

}
