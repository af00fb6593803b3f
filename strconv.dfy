/** strconv.Atoi and strconv.Itoa on a 64-bit platform, as the handlers use them for post ids. */
module Strconv {
  import opened Wrappers

  const MinInt: int := -0x8000_0000_0000_0000
  const MaxInt: int := 0x7FFF_FFFF_FFFF_FFFF

  predicate IsDigit(c: char) {
    '0' <= c <= '9'
  }

  predicate AllDigits(s: string) {
    forall i :: 0 <= i < |s| ==> IsDigit(s[i])
  }

  /** The decimal value of a string of digits; leading zeros are allowed. */
  function DigitsValue(s: string): nat
    requires AllDigits(s)
  {
    if s == [] then 0
    else DigitsValue(s[..|s| - 1]) * 10 + (s[|s| - 1] as int - '0' as int)
  }

  /**
   * strconv.Atoi: an optional sign followed by at least one decimal digit, whose
   * value fits in a 64-bit int; anything else (empty, a lone sign, any other
   * character, overflow) is an error.
   */
  function Atoi(s: string): (r: Option<int>)
    ensures r.Some? ==> MinInt <= r.value <= MaxInt
    ensures r.Some? ==> s != [] && (IsDigit(s[0]) || s[0] == '-' || s[0] == '+')
    ensures s == [] ==> r.None?
    ensures var d := if s != [] && (s[0] == '-' || s[0] == '+') then s[1..] else s;
      r.Some? <==> (s != [] && d != [] && AllDigits(d)
                    && MinInt <= (if s[0] == '-' then -(DigitsValue(d) as int) else DigitsValue(d) as int) <= MaxInt)
    ensures var d := if s != [] && (s[0] == '-' || s[0] == '+') then s[1..] else s;
      r.Some? ==> AllDigits(d) && r.value == (if s[0] == '-' then -(DigitsValue(d) as int) else DigitsValue(d) as int)
  {
    if s == [] then None
    else
      var negative := s[0] == '-';
      var digits := if s[0] == '-' || s[0] == '+' then s[1..] else s;
      if digits == [] || !AllDigits(digits) then None
      else
        var magnitude: int := DigitsValue(digits);
        var v := if negative then -magnitude else magnitude;
        if MinInt <= v <= MaxInt then Some(v) else None
  }

  /** The shortest decimal digits of `n`. */
  function NatDigits(n: nat): (s: string)
    ensures s != [] && AllDigits(s) && DigitsValue(s) == n
    ensures IsDigit(s[0])
  {
    var d := ['0' + (n % 10) as char];
    if n < 10 then d
    else
      var prefix := NatDigits(n / 10);
      assert (prefix + d)[..|prefix|] == prefix;
      prefix + d
  }

  /** strconv.Itoa */
  function Itoa(n: int): (s: string)
  {
    if n < 0 then "-" + NatDigits(-n) else NatDigits(n)
  }

  /** What Itoa writes, Atoi reads back: a redirect to "/posts/"+Itoa(id) names the same id. */
  lemma {:induction false} AtoiItoa(n: int)
    requires MinInt <= n <= MaxInt
    ensures Atoi(Itoa(n)) == Some(n)
  {
    if n < 0 {
      var digits := NatDigits(-n);
      assert Itoa(n)[1..] == digits;
    }
  }

  /** Itoa never writes a sign for an id, so its output is never the "new" or "create" route names. */
  lemma ItoaOfNatIsDigits(n: nat)
    ensures Itoa(n) != [] && AllDigits(Itoa(n))
  {
  }
}
