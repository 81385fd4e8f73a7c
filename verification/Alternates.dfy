/** The alternates of emitted rules, their units, and the writer that charges them to
    the budget. */
module Alternates {
  import opened Ir
  import opened EmitBudget

  /** An alternate of an emitted rule: the tokens it peeks, how many of them it pushes
      back, and the rule it pushes or hands over to. */
  datatype Alternate = Alternate(peek: seq<string>, back: nat, push: Option<string>, hand: Option<string>)

  /** An alternate together with the alternative it came from, if any. */
  datatype Entry = Entry(o: Alternate, alt: Option<Sequence>)

  datatype RuleSpec = RuleSpec(open: seq<Alternate>, close: seq<Alternate>)

  function AltUnits(o: Alternate): nat {
    1 + |o.peek| + (if o.push.Some? then 1 else 0) + if o.hand.Some? then 1 else 0
  }

  function OpenUnits(os: seq<Alternate>): nat {
    if os == [] then 0 else AltUnits(os[0]) + OpenUnits(os[1..])
  }

  function RuleUnits(rs: RuleSpec): nat {
    1 + OpenUnits(rs.open) + OpenUnits(rs.close)
  }

  function Committed(log: seq<(string, RuleSpec)>): nat {
    if log == [] then 0 else RuleUnits(log[0].1) + Committed(log[1..])
  }

  function Opens(es: seq<Entry>): (r: seq<Alternate>)
    ensures |r| == |es| && forall i :: 0 <= i < |r| ==> r[i] == es[i].o
  {
    seq(|es|, i requires 0 <= i < |es| => es[i].o)
  }

  lemma {:induction false} OpenUnitsCat(a: seq<Alternate>, b: seq<Alternate>)
    ensures OpenUnits(a + b) == OpenUnits(a) + OpenUnits(b)
  {
    if a == [] {
      assert a + b == b;
    } else {
      assert (a + b)[0] == a[0] && (a + b)[1..] == a[1..] + b;
      OpenUnitsCat(a[1..], b);
    }
  }

  lemma {:induction false} CommittedSnoc(log: seq<(string, RuleSpec)>, rule: (string, RuleSpec))
    ensures Committed(log + [rule]) == Committed(log) + RuleUnits(rule.1)
  {
    if log == [] {
      assert [rule][1..] == [] && [] + [rule] == [rule];
    } else {
      assert (log + [rule])[0] == log[0] && (log + [rule])[1..] == log[1..] + [rule];
      CommittedSnoc(log[1..], rule);
    }
  }

  // ---- permutations ----

  /** A sequence without its `j`th element. */
  function Without<T>(q: seq<T>, j: nat): seq<T>
    requires j < |q|
  {
    q[..j] + q[j + 1..]
  }

  lemma WithoutMultiset<T>(q: seq<T>, j: nat)
    requires j < |q|
    ensures multiset(q) == multiset(Without(q, j)) + multiset{q[j]}
  {
    assert q == q[..j] + [q[j]] + q[j + 1..];
  }

  lemma SplitMultiset<T>(a: seq<T>, b: seq<T>)
    ensures multiset(a + b) == multiset(a) + multiset(b)
  {
  }

  lemma Cancel<T>(a: multiset<T>, b: multiset<T>, x: T)
    requires a + multiset{x} == b + multiset{x}
    ensures a == b
  {
    forall y ensures a[y] == b[y] {
      assert (a + multiset{x})[y] == (b + multiset{x})[y];
    }
  }

  /** Where the head of one permutation is in the other, and what is left of both. */
  lemma HeadOfPermuted<T>(p: seq<T>, q: seq<T>) returns (j: nat)
    requires p != [] && multiset(p) == multiset(q)
    ensures j < |q| && q[j] == p[0] && multiset(p[1..]) == multiset(Without(q, j))
  {
    assert p[0] in multiset(q);
    j :| 0 <= j < |q| && q[j] == p[0];
    WithoutMultiset(q, j);
    WithoutMultiset(p, 0);
    assert Without(p, 0) == p[1..];
    Cancel(multiset(p[1..]), multiset(Without(q, j)), p[0]);
  }

  lemma SameLength<T>(p: seq<T>, q: seq<T>)
    requires multiset(p) == multiset(q)
    ensures |p| == |q|
  {
    assert |multiset(p)| == |p| && |multiset(q)| == |q|;
  }

  lemma NonePermuted<T>(p: seq<T>, q: seq<T>)
    requires p == [] && multiset(p) == multiset(q)
    ensures q == []
  {
    SameLength(p, q);
  }

  lemma {:induction false} UnitsWithout(os: seq<Alternate>, j: nat)
    requires j < |os|
    ensures OpenUnits(os) == AltUnits(os[j]) + OpenUnits(Without(os, j))
  {
    assert os == os[..j] + os[j..] && os[j..][1..] == os[j + 1..] && os[j..][0] == os[j];
    OpenUnitsCat(os[..j], os[j..]);
    OpenUnitsCat(os[..j], os[j + 1..]);
  }

  /** The order of alternates does not change their units. */
  lemma {:induction false} UnitsPermuted(a: seq<Alternate>, b: seq<Alternate>)
    requires multiset(a) == multiset(b)
    ensures OpenUnits(a) == OpenUnits(b)
  {
    if a == [] {
      NonePermuted(a, b);
    } else {
      var j := HeadOfPermuted(a, b);
      UnitsPermuted(a[1..], Without(b, j));
      UnitsWithout(b, j);
    }
  }

  // ---- writing rules against the budget ----

  /** The rules written so far, and what has been charged for the alternates of the rule
      under construction.  All that was written since the writer began is in the one or
      the other. */
  class RuleWriter {
    const budget: Budget
    const start: nat
    var pre: nat
    var log: seq<(string, RuleSpec)>

    ghost predicate Valid()
      reads this, budget
    {
      budget.Valid() && budget.written == start + Committed(log) + pre
    }

    constructor (b: Budget)
      requires b.Valid()
      ensures Valid() && budget == b && pre == 0 && log == []
    {
      budget, start, pre, log := b, b.written, 0, [];
    }

    /** Charge an alternate of the rule under construction as it is made. */
    method Made(o: Alternate) returns (ok: bool)
      requires Valid()
      modifies this`pre, budget
      ensures Valid() && budget.held == old(budget.held)
      ensures pre == old(pre) + if ok then AltUnits(o) else 0
    {
      ok := budget.Charge(AltUnits(o));
      if ok {
        pre := pre + AltUnits(o);
      }
    }

    /** Write a rule, charging what it holds beyond the units charged for its alternates
        as they were made; no rule holds fewer. */
    method Commit(name: string, rs: RuleSpec, charged: nat) returns (ok: bool)
      requires Valid() && charged <= pre && charged <= RuleUnits(rs)
      modifies this, budget
      ensures Valid() && budget.held == old(budget.held)
      ensures ok ==> log == old(log) + [(name, rs)] && pre == old(pre) - charged
      ensures !ok ==> log == old(log) && pre == old(pre)
    {
      assert RuleUnits(rs) >= charged;
      ok := budget.Charge(RuleUnits(rs) - charged);
      if ok {
        CommittedSnoc(log, (name, rs));
        log := log + [(name, rs)];
        pre := pre - charged;
      }
    }

    /** The rules an alternative compiles to, written one by one. */
    method CommitAll(rules: seq<(string, RuleSpec)>) returns (ok: bool)
      requires Valid()
      modifies this, budget
      ensures Valid() && budget.held == old(budget.held) && pre == old(pre)
      ensures ok ==> log == old(log) + rules
    {
      ok := true;
      for i := 0 to |rules|
        invariant ok && Valid() && budget.held == old(budget.held) && pre == old(pre)
        invariant log == old(log) + rules[..i]
      {
        ok := Commit(rules[i].0, rules[i].1, 0);
        if !ok {
          return;
        }
        assert rules[..i + 1] == rules[..i] + [rules[i]];
      }
      assert rules[..|rules|] == rules;
    }
  }
}
