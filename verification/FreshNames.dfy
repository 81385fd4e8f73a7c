/** Names no pass has used yet: a base with a number appended, the first that is
    free.  The search ends because the numbered names are distinct and only
    finitely many names are in use. */
module FreshNames {

  function Digit(n: nat): char
    requires n < 10
  {
    "0123456789"[n]
  }

  function Decimal(n: nat): (s: string)
    ensures s != ""
  {
    if n < 10 then [Digit(n)] else Decimal(n / 10) + [Digit(n % 10)]
  }

  lemma {:induction false} DecimalInjective(a: nat, b: nat)
    requires Decimal(a) == Decimal(b)
    ensures a == b
  {
    var s := Decimal(a);
    assert s[|s| - 1] == Digit(a % 10) && s[|s| - 1] == Digit(b % 10);
    assert a % 10 == b % 10;
    assert s[..|s| - 1] == if a < 10 then "" else Decimal(a / 10);
    assert s[..|s| - 1] == if b < 10 then "" else Decimal(b / 10);
    if a >= 10 && b >= 10 {
      DecimalInjective(a / 10, b / 10);
    }
  }

  /** The `n`th candidate: `prefix`, the number in decimal, `suffix`. */
  function Numbered(prefix: string, n: nat, suffix: string): string {
    prefix + Decimal(n) + suffix
  }

  lemma NumberedInjective(prefix: string, suffix: string, a: nat, b: nat)
    requires Numbered(prefix, a, suffix) == Numbered(prefix, b, suffix)
    ensures a == b
  {
    var x, y := Numbered(prefix, a, suffix), Numbered(prefix, b, suffix);
    assert x[|prefix|..|x| - |suffix|] == Decimal(a);
    assert y[|prefix|..|y| - |suffix|] == Decimal(b);
    DecimalInjective(a, b);
  }

  /** The candidates from `from` on that are in use are all in `left`. */
  ghost predicate LeftFrom(prefix: string, suffix: string, from: nat, used: set<string>, left: set<string>) {
    && left <= used
    && forall n: nat {:trigger Numbered(prefix, n, suffix)} ::
         n >= from && Numbered(prefix, n, suffix) in used ==> Numbered(prefix, n, suffix) in left
  }

  lemma SkipOne(prefix: string, suffix: string, from: nat, used: set<string>, left: set<string>)
    requires LeftFrom(prefix, suffix, from, used, left)
    ensures LeftFrom(prefix, suffix, from + 1, used, left - {Numbered(prefix, from, suffix)})
  {
    forall n: nat | n >= from + 1 && Numbered(prefix, n, suffix) in used
      ensures Numbered(prefix, n, suffix) in left - {Numbered(prefix, from, suffix)}
    {
      if Numbered(prefix, n, suffix) == Numbered(prefix, from, suffix) {
        NumberedInjective(prefix, suffix, n, from);
      }
    }
  }

  /** The first free number from `from` on. */
  function FirstFree(prefix: string, suffix: string, from: nat, used: set<string>, ghost left: set<string>): (n: nat)
    requires LeftFrom(prefix, suffix, from, used, left)
    ensures n >= from && Numbered(prefix, n, suffix) !in used
    ensures forall k :: from <= k < n ==> Numbered(prefix, k, suffix) in used
    decreases |left|
  {
    if Numbered(prefix, from, suffix) in used then
      SkipOne(prefix, suffix, from, used, left);
      FirstFree(prefix, suffix, from + 1, used, left - {Numbered(prefix, from, suffix)})
    else from
  }

  function FreshName(prefix: string, suffix: string, from: nat, used: set<string>): (name: string)
    ensures name !in used && prefix <= name
  {
    Numbered(prefix, FirstFree(prefix, suffix, from, used, used), suffix)
  }

  /** The search as the passes run it. */
  method FindFresh(prefix: string, suffix: string, from: nat, used: set<string>) returns (name: string)
    ensures name == FreshName(prefix, suffix, from, used)
  {
    var n := from;
    ghost var left := used;
    name := Numbered(prefix, n, suffix);
    while name in used
      invariant n >= from && name == Numbered(prefix, n, suffix)
      invariant LeftFrom(prefix, suffix, n, used, left)
      invariant FirstFree(prefix, suffix, n, used, left) == FirstFree(prefix, suffix, from, used, used)
      decreases |left|
    {
      SkipOne(prefix, suffix, n, used, left);
      left := left - {name};
      n := n + 1;
      name := Numbered(prefix, n, suffix);
    }
  }
}
