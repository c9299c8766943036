/** String helpers of the .NET base library that the core relies on: `string.Join` and `int.ToString()`. */
module Strings {

  /** `string.Join(sep, xs)`: the items in order with `sep` between neighbours. */
  function Join(sep: string, xs: seq<string>): string
  {
    if |xs| == 0 then ""
    else if |xs| == 1 then xs[0]
    else Join(sep, xs[..|xs| - 1]) + sep + xs[|xs| - 1]
  }

  /** Appending an item to a joined list appends the separator and the item. */
  lemma JoinSnoc(sep: string, xs: seq<string>, x: string)
    ensures Join(sep, xs + [x]) == if xs == [] then x else Join(sep, xs) + sep + x
  {
    assert (xs + [x])[..|xs|] == xs;
  }

  /** A character that occurs neither in the separator nor in any item does not occur in the join. */
  lemma {:induction false} JoinAvoids(sep: string, xs: seq<string>, c: char)
    requires c !in sep
    requires forall i :: 0 <= i < |xs| ==> c !in xs[i]
    ensures c !in Join(sep, xs)
  {
    if |xs| > 1 {
      JoinAvoids(sep, xs[..|xs| - 1], c);
    }
  }

  function DigitChar(d: nat): (c: char)
    requires d < 10
    ensures '0' <= c <= '9'
  {
    "0123456789"[d]
  }

  function DigitValue(c: char): nat
    requires '0' <= c <= '9'
  {
    (c as int - '0' as int) as nat
  }

  /** `n.ToString()` for a natural number: decimal digits, no sign, no leading zero. */
  function NatToString(n: nat): (r: string)
    ensures |r| > 0
    ensures forall i :: 0 <= i < |r| ==> '0' <= r[i] <= '9'
  {
    if n < 10 then [DigitChar(n)] else NatToString(n / 10) + [DigitChar(n % 10)]
  }

  /** The number a string of decimal digits denotes (the partner of NatToString). */
  function ParseDigits(s: string): nat
    requires forall i :: 0 <= i < |s| ==> '0' <= s[i] <= '9'
  {
    if s == [] then 0 else 10 * ParseDigits(s[..|s| - 1]) + DigitValue(s[|s| - 1])
  }

  /** Reading back the decimal text of n gives n. */
  lemma {:induction false} ParseNatToString(n: nat)
    ensures ParseDigits(NatToString(n)) == n
  {
    var s := NatToString(n);
    if n >= 10 {
      ParseNatToString(n / 10);
      assert s[..|s| - 1] == NatToString(n / 10);
    }
  }

  /** Distinct numbers have distinct decimal texts. */
  lemma NatToStringInjective(a: nat, b: nat)
    requires NatToString(a) == NatToString(b)
    ensures a == b
  {
    ParseNatToString(a);
    ParseNatToString(b);
  }
}
