/** String helpers the controllers rely on: decimal rendering of a number inside a
    template literal, and lower-casing for the spreadsheet header check. */
module Texto {

  /** The decimal digit character for `d`. */
  function Digito(d: nat): char
    requires d < 10
  {
    ('0' as int + d) as char
  }

  /** The decimal rendering of `n`, as a template literal `${n}` produces it for a
      non-negative integer. */
  function Decimal(n: nat): string
  {
    if n < 10 then [Digito(n)] else Decimal(n / 10) + [Digito(n % 10)]
  }

  lemma {:induction false} DecimalLongitud(n: nat)
    ensures |Decimal(n)| >= 1
    ensures n >= 10 ==> |Decimal(n)| >= 2
  {
    if n >= 10 {
      DecimalLongitud(n / 10);
    }
  }

  /** Two different numbers never render to the same text. */
  lemma {:induction false} DecimalInyectiva(n: nat, m: nat)
    requires Decimal(n) == Decimal(m)
    ensures n == m
  {
    DecimalLongitud(n);
    DecimalLongitud(m);
    if n >= 10 && m >= 10 {
      var a, b := Decimal(n), Decimal(m);
      assert a[|a| - 1] == Digito(n % 10);
      assert b[|b| - 1] == Digito(m % 10);
      assert a[..|a| - 1] == Decimal(n / 10);
      assert b[..|b| - 1] == Decimal(m / 10);
      DecimalInyectiva(n / 10, m / 10);
    } else if n < 10 && m < 10 {
      assert Decimal(n)[0] == Digito(n);
      assert Decimal(m)[0] == Digito(m);
    }
  }

  /** String.prototype.toLowerCase on one character, for the ASCII letters. */
  function Minuscula(c: char): char
  {
    if 'A' <= c <= 'Z' then (c as int - 'A' as int + 'a' as int) as char else c
  }

  /** String.prototype.toLowerCase, character by character. */
  function Minusculas(s: string): string
  {
    seq(|s|, i requires 0 <= i < |s| => Minuscula(s[i]))
  }

  /** A string lowers to an all-lower-case ASCII word exactly when it spells that word
      in any mix of cases. */
  lemma {:induction false} MinusculasDe(s: string, palabra: string)
    requires forall k :: 0 <= k < |palabra| ==> 'a' <= palabra[k] <= 'z'
    ensures Minusculas(s) == palabra <==>
              |s| == |palabra| &&
              forall k :: 0 <= k < |s| ==> s[k] == palabra[k] || s[k] as int == palabra[k] as int - 32
  {
    if Minusculas(s) == palabra {
      forall k | 0 <= k < |s|
        ensures s[k] == palabra[k] || s[k] as int == palabra[k] as int - 32
      {
        assert Minuscula(s[k]) == palabra[k];
      }
    }
    if |s| == |palabra| && forall k :: 0 <= k < |s| ==> s[k] == palabra[k] || s[k] as int == palabra[k] as int - 32 {
      forall k | 0 <= k < |s|
        ensures Minusculas(s)[k] == palabra[k]
      {
        assert Minuscula(s[k]) == palabra[k];
      }
    }
  }
}
