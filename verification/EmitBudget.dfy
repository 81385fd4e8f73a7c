/** The emit limit: what compiling one grammar may write, together with what the
    decision under way holds. */
module EmitBudget {
  import opened Prefixes

  const MAX_EMIT_UNITS: nat := 3_500_000

  /** The units a list of paths holds: one for each, and one for each of its tokens. */
  function Units(paths: seq<Path>): nat {
    if paths == [] then 0 else 1 + |paths[0].tokens| + Units(paths[1..])
  }

  lemma {:induction false} UnitsCat(a: seq<Path>, b: seq<Path>)
    ensures Units(a + b) == Units(a) + Units(b)
  {
    if a == [] {
      assert a + b == b;
    } else {
      assert (a + b)[0] == a[0] && (a + b)[1..] == a[1..] + b;
      UnitsCat(a[1..], b);
    }
  }

  class Budget {
    var written: nat
    var held: nat

    ghost predicate Valid()
      reads this
    {
      written + held <= MAX_EMIT_UNITS
    }

    constructor ()
      ensures Valid() && written == 0 && held == 0
    {
      written, held := 0, 0;
    }

    function Room(): nat
      reads this
    {
      if written + held <= MAX_EMIT_UNITS then MAX_EMIT_UNITS - (written + held) else 0
    }

    /** Charge `n` units before they are written; a refusal changes nothing. */
    method Charge(n: nat) returns (ok: bool)
      modifies this
      ensures ok <==> n <= old(Room())
      ensures held == old(held) && written == old(written) + if ok then n else 0
      ensures old(Valid()) ==> Valid()
    {
      ok := n <= Room();
      if ok {
        written := written + n;
      }
    }

    /** Hold `n` units before they are made; a refusal changes nothing. */
    method Hold(n: nat) returns (ok: bool)
      modifies this
      ensures ok <==> n <= old(Room())
      ensures written == old(written) && held == old(held) + if ok then n else 0
      ensures old(Valid()) ==> Valid()
    {
      ok := n <= Room();
      if ok {
        held := held + n;
      }
    }

    /** An enumeration that began with `base` held has returned `paths`, each held as it
        was made: they alone stay held, which is never more than before. */
    method Settle(base: nat, paths: seq<Path>)
      requires Valid() && base + Units(paths) <= held
      modifies this
      ensures Valid() && held <= old(held)
      ensures written == old(written) && held == base + Units(paths)
    {
      var n := 0;
      for i := 0 to |paths|
        invariant n == Units(paths[..i]) && written == old(written) && held == old(held)
      {
        UnitsCat(paths[..i], [paths[i]]);
        assert paths[..i + 1] == paths[..i] + [paths[i]];
        n := n + 1 + |paths[i].tokens|;
      }
      assert paths[..|paths|] == paths;
      held := base + n;
    }

    /** A decision that began with `base` held has made the `n` units it returns: they
        alone stay held, which is never more than before. */
    method Keep(base: nat, n: nat)
      requires Valid() && base + n <= held
      modifies this
      ensures Valid() && held <= old(held)
      ensures written == old(written) && held == base + n
    {
      held := base + n;
    }

    /** What a decision returned has been used: what was held before it began is held
        again. */
    method Restore(base: nat)
      requires Valid() && base <= held
      modifies this
      ensures Valid() && held <= old(held)
      ensures written == old(written) && held == base
    {
      held := base;
    }
  }
}
