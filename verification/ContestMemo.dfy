/** Which tokens the lexer can confuse, with answers kept in memos of limited size. */
module ContestMemo {
  import opened Ir
  import opened Ranges

  /** What the answers are computed from: token sets, exact coverages, and tests on
      single tokens. */
  datatype Facts = Facts(
    classMembers: map<string, seq<string>>,
    tokenSets: map<string, seq<string>>,
    coverage: string -> Option<seq<Span>>,
    literal: string -> bool,
    literalMeets: (string, string) -> bool,
    exact: string -> bool,
    engineMeets: (string, string) -> bool)

  const ANY: string := "#AA"

  function Members(sets: map<string, seq<string>>, t: string): seq<string> {
    if t in sets then sets[t] else [t]
  }

  /** No set is a member of a set. */
  ghost predicate Unnested(sets: map<string, seq<string>>) {
    forall s, x :: s in sets && x in sets[s] ==> x !in sets
  }

  ghost predicate Trusted(f: Facts) {
    && Unnested(f.classMembers) && Unnested(f.tokenSets)
    && (forall a, b :: f.literalMeets(a, b) == f.literalMeets(b, a))
    && forall a :: f.coverage(a).Some? ==> Normal(f.coverage(a).value)
  }

  // ---- the relations without a memo ----

  ghost predicate CoverageMeets(f: Facts, a: string, b: string) {
    f.coverage(a).Some? && f.coverage(b).Some? && Shares(f.coverage(a).value, f.coverage(b).value)
  }

  ghost predicate Touches(f: Facts, x: string, y: string) {
    x == y || CoverageMeets(f, x, y)
  }

  /** Two tokens can claim one character, or have a member in common. */
  ghost predicate Overlap(f: Facts, a: string, b: string) {
    if a in f.classMembers || b in f.classMembers then
      exists x, y :: x in Members(f.classMembers, a) && y in Members(f.classMembers, b) && Touches(f, x, y)
    else CoverageMeets(f, a, b)
  }

  ghost predicate SingleContest(f: Facts, a: string, b: string) {
    if f.literal(a) && f.literal(b) then f.literalMeets(a, b)
    else !f.exact(a) || !f.exact(b) || Overlap(f, a, b) || f.engineMeets(a, b) || f.engineMeets(b, a)
  }

  ghost predicate MemberContest(f: Facts, x: string, y: string) {
    Plainly(x, y) || SingleContest(f, x, y)
  }

  predicate Plainly(a: string, b: string) {
    a == b || a == ANY || b == ANY
  }

  /** The lexer can hand the same input to two dispatch heads. */
  ghost predicate Contest(f: Facts, a: string, b: string) {
    Plainly(a, b) ||
    if a in f.tokenSets || b in f.tokenSets then
      exists x, y :: x in Members(f.tokenSets, a) && y in Members(f.tokenSets, b) && MemberContest(f, x, y)
    else SingleContest(f, a, b)
  }

  lemma OverlapSymmetric(f: Facts, a: string, b: string)
    ensures Overlap(f, a, b) <==> Overlap(f, b, a)
  {
  }

  lemma ContestSymmetric(f: Facts, a: string, b: string)
    requires Trusted(f)
    ensures Contest(f, a, b) <==> Contest(f, b, a)
  {
    forall x, y ensures SingleContest(f, x, y) <==> SingleContest(f, y, x) {
      OverlapSymmetric(f, x, y);
    }
  }

  // ---- the memoised answers ----

  /** A memo's key does not say which token was asked first. */
  type Memo = map<set<string>, bool>

  ghost predicate OverlapMemo(f: Facts, memo: Memo, pending: set<set<string>>) {
    forall a, b :: {a, b} in memo && {a, b} !in pending ==> (memo[{a, b}] <==> Overlap(f, a, b))
  }

  ghost predicate ContestMemo(f: Facts, memo: Memo, pending: set<set<string>>) {
    forall a, b :: {a, b} in memo && {a, b} !in pending ==> (memo[{a, b}] <==> Contest(f, a, b))
  }

  ghost predicate ClosedUnder(u: set<string>, sets: map<string, seq<string>>) {
    forall s, x :: s in u && s in sets && x in sets[s] ==> x in u
  }

  ghost function Pairs(u: set<string>): set<set<string>> {
    set a, b | a in u && b in u :: {a, b}
  }

  function Max(a: nat, b: nat): nat {
    if a < b then b else a
  }

  ghost predicate NamesSet(sets: map<string, seq<string>>, key: set<string>) {
    exists t :: t in key && t in sets
  }

  /** Every answer still provisional is about a set. */
  ghost predicate AboutSets(sets: map<string, seq<string>>, pending: set<set<string>>) {
    forall key :: key in pending ==> NamesSet(sets, key)
  }

  lemma SameKey(a: string, b: string, c: string, d: string)
    requires {a, b} == {c, d}
    ensures (a == c && b == d) || (a == d && b == c)
  {
    assert a in {c, d} && b in {c, d} && c in {a, b} && d in {a, b};
  }

  lemma OverlapKept(f: Facts, memo: Memo, pending: set<set<string>>, a: string, b: string, out: bool)
    requires OverlapMemo(f, memo, pending + {{a, b}}) && (out <==> Overlap(f, a, b))
    ensures OverlapMemo(f, memo[{a, b} := out], pending)
    ensures OverlapMemo(f, memo - {{a, b}}, pending)
  {
    forall c, d | {c, d} in memo[{a, b} := out] && {c, d} !in pending
      ensures memo[{a, b} := out][{c, d}] <==> Overlap(f, c, d)
    {
      if {c, d} == {a, b} {
        SameKey(a, b, c, d);
        OverlapSymmetric(f, a, b);
      }
    }
  }

  lemma ContestKept(f: Facts, memo: Memo, pending: set<set<string>>, a: string, b: string, out: bool)
    requires Trusted(f) && ContestMemo(f, memo, pending + {{a, b}}) && (out <==> Contest(f, a, b))
    ensures ContestMemo(f, memo[{a, b} := out], pending)
    ensures ContestMemo(f, memo - {{a, b}}, pending)
  {
    forall c, d | {c, d} in memo[{a, b} := out] && {c, d} !in pending
      ensures memo[{a, b} := out][{c, d}] <==> Contest(f, c, d)
    {
      if {c, d} == {a, b} {
        SameKey(a, b, c, d);
        ContestSymmetric(f, a, b);
      }
    }
  }

  /** The pairs a memo has no entry for grow fewer when one is entered. */
  lemma PairEntered(u: set<string>, memo: Memo, a: string, b: string)
    requires a in u && b in u && {a, b} !in memo
    ensures Pairs(u) - (memo.Keys + {{a, b}}) < Pairs(u) - memo.Keys
  {
    assert {a, b} in Pairs(u);
  }

  /** A memo after an answer: nothing lost, and no larger than its limit or than it
      was. */
  ghost predicate Grown(memo: Memo, memo0: Memo, limit: nat) {
    memo0.Keys <= memo.Keys && |memo| <= Max(limit, |memo0|)
  }

  /** The memo once the answer for `key` is known: kept while there is room, and
      otherwise without the provisional one. */
  function Finished(memo: Memo, key: set<string>, keep: bool, out: bool): Memo {
    if keep then memo[key := out] else memo - {key}
  }

  lemma FinishedKeys(memo: Memo, key: set<string>, keep: bool, out: bool)
    ensures Finished(memo, key, keep, out).Keys == if keep then memo.Keys + {key} else memo.Keys - {key}
  {
  }

  lemma KeysSize(memo: Memo, key: set<string>)
    ensures |memo.Keys + {key}| == |memo| + if key in memo then 0 else 1
    ensures |memo.Keys - {key}| == |memo| - if key in memo then 1 else 0
  {
    assert |memo| == |memo.Keys|;
    if key in memo {
      assert memo.Keys + {key} == memo.Keys;
    } else {
      assert memo.Keys - {key} == memo.Keys;
    }
  }

  lemma FinishedGrown(memo0: Memo, memo: Memo, key: set<string>, limit: nat, provisional: bool, out: bool)
    requires key !in memo0
    requires if provisional then Grown(memo, memo0[key := true], limit) else memo == memo0
    ensures Grown(Finished(memo, key, |memo0| < limit, out), memo0, limit)
  {
    var keep := |memo0| < limit;
    var done := Finished(memo, key, keep, out);
    FinishedKeys(memo, key, keep, out);
    KeysSize(memo, key);
    KeysSize(memo0, key);
    assert |done| == |done.Keys|;
    assert memo0[key := true].Keys == memo0.Keys + {key};
    assert |memo0[key := true]| == |memo0| + 1;
  }

  class ContestCtx {
    const facts: Facts
    const limit: nat
    var overlapCache: Memo
    var contestCache: Memo

    constructor (facts: Facts, limit: nat)
      ensures this.facts == facts && this.limit == limit
      ensures overlapCache == map[] && contestCache == map[]
    {
      this.facts, this.limit := facts, limit;
      overlapCache, contestCache := map[], map[];
    }

    /** Whether two single tokens' coverages share a character. */
    method CoverageOverlap(a: string, b: string) returns (out: bool)
      ensures Trusted(facts) ==> (out <==> CoverageMeets(facts, a, b))
    {
      var ra, rb := facts.coverage(a), facts.coverage(b);
      if ra.None? || rb.None? {
        return false;
      }
      out := CharRangesOverlap(ra.value, rb.value);
      if Trusted(facts) {
        OverlapExact(ra.value, rb.value);
      }
    }

    /** Every answer the overlap memo holds is right, but for the provisional ones. */
    ghost predicate OverlapRight(pending: set<set<string>>)
      reads this
    {
      Trusted(facts) ==> OverlapMemo(facts, overlapCache, pending) && AboutSets(facts.classMembers, pending)
    }

    /** Whether two tokens can claim one character.  It ends even on sets of sets, the
        provisional answer standing for a pair met again. */
    method TokensOverlap(a: string, b: string, ghost u: set<string>,
        ghost pending: set<set<string>>) returns (out: bool)
      requires a in u && b in u && ClosedUnder(u, facts.classMembers)
      requires OverlapRight(pending) && (Trusted(facts) ==> {a, b} !in pending)
      modifies this`overlapCache
      ensures Grown(overlapCache, old(overlapCache), limit) && OverlapRight(pending)
      ensures Trusted(facts) ==> (out <==> Overlap(facts, a, b))
      decreases Pairs(u) - overlapCache.Keys, 1
    {
      var key := {a, b};
      if key in overlapCache {
        return overlapCache[key];
      }
      var keep := |overlapCache| < limit;
      var isSet := a in facts.classMembers || b in facts.classMembers;
      if isSet {
        PairEntered(u, overlapCache, a, b);
        overlapCache := overlapCache[key := true];
        out := AnyOverlap(a, b, u, pending);
      } else {
        out := CoverageOverlap(a, b);
      }
      FinishedGrown(old(overlapCache), overlapCache, key, limit, isSet, out);
      if Trusted(facts) {
        OverlapKept(facts, overlapCache, pending, a, b, out);
      }
      overlapCache := Finished(overlapCache, key, keep, out);
    }

    /** Whether some member of the one overlaps some member of the other. */
    method AnyOverlap(a: string, b: string, ghost u: set<string>, ghost pending: set<set<string>>) returns (out: bool)
      requires a in u && b in u && ClosedUnder(u, facts.classMembers)
      requires (a in facts.classMembers || b in facts.classMembers)
      requires OverlapRight(pending + {{a, b}}) && {a, b} in overlapCache
      modifies this`overlapCache
      ensures Grown(overlapCache, old(overlapCache), limit) && OverlapRight(pending + {{a, b}})
      ensures Trusted(facts) ==> (out <==> Overlap(facts, a, b))
      decreases Pairs(u) - overlapCache.Keys, 3
    {
      var xs, ys := Members(facts.classMembers, a), Members(facts.classMembers, b);
      out := false;
      for i := 0 to |xs|
        invariant !out && Grown(overlapCache, old(overlapCache), limit) && OverlapRight(pending + {{a, b}})
        invariant Trusted(facts) ==> forall p, y :: 0 <= p < i && y in ys ==> !Touches(facts, xs[p], y)
      {
        out := AnyTouch(a, b, xs[i], ys, u, pending);
        if out {
          return;
        }
      }
    }

    method AnyTouch(a: string, b: string, x: string, ys: seq<string>, ghost u: set<string>,
        ghost pending: set<set<string>>) returns (out: bool)
      requires ClosedUnder(u, facts.classMembers) && (a in facts.classMembers || b in facts.classMembers)
      requires x in u && (forall y :: y in ys ==> y in u)
      requires x in Members(facts.classMembers, a) && ys == Members(facts.classMembers, b)
      requires OverlapRight(pending + {{a, b}}) && {a, b} in overlapCache
      modifies this`overlapCache
      ensures Grown(overlapCache, old(overlapCache), limit) && OverlapRight(pending + {{a, b}})
      ensures Trusted(facts) ==> (out <==> exists y :: y in ys && Touches(facts, x, y))
      decreases Pairs(u) - overlapCache.Keys, 2
    {
      out := false;
      for j := 0 to |ys|
        invariant !out && Grown(overlapCache, old(overlapCache), limit) && OverlapRight(pending + {{a, b}})
        invariant Trusted(facts) ==> forall q :: 0 <= q < j ==> !Touches(facts, x, ys[q])
      {
        out := x == ys[j];
        if !out {
          if Trusted(facts) {
            MembersSingle(facts.classMembers, a, b, x, ys[j], pending);
          }
          out := TokensOverlap(x, ys[j], u, pending + {{a, b}});
        }
        assert Trusted(facts) ==> (out <==> Touches(facts, x, ys[j]));
        if out {
          assert ys[j] in ys;
          return;
        }
      }
    }

    // ---- dispatch heads ----

    ghost predicate ContestRight(pending: set<set<string>>)
      reads this
    {
      && OverlapRight({})
      && (Trusted(facts) ==> ContestMemo(facts, contestCache, pending) && AboutSets(facts.tokenSets, pending))
    }

    ghost predicate Known(u: set<string>) {
      ClosedUnder(u, facts.classMembers) && ClosedUnder(u, facts.tokenSets)
    }

    /** Whether the lexer can hand one input to two heads. */
    method HeadsContest(a: string, b: string, ghost u: set<string>, ghost pending: set<set<string>>) returns (out: bool)
      requires a in u && b in u && Known(u)
      requires ContestRight(pending) && (Trusted(facts) ==> {a, b} !in pending)
      modifies this
      ensures Grown(contestCache, old(contestCache), limit) && ContestRight(pending)
      ensures Trusted(facts) ==> (out <==> Contest(facts, a, b))
      decreases Pairs(u) - contestCache.Keys, 1
    {
      if Plainly(a, b) {
        return true;
      }
      var key := {a, b};
      if key in contestCache {
        return contestCache[key];
      }
      var keep := |contestCache| < limit;
      var isSet := a in facts.tokenSets || b in facts.tokenSets;
      if isSet {
        PairEntered(u, contestCache, a, b);
        contestCache := contestCache[key := true];
        out := AnyContest(a, b, u, pending);
      } else {
        out := SingleTokens(a, b, u);
      }
      FinishedGrown(old(contestCache), contestCache, key, limit, isSet, out);
      if Trusted(facts) {
        ContestKept(facts, contestCache, pending, a, b, out);
      }
      contestCache := Finished(contestCache, key, keep, out);
    }

    method SingleTokens(a: string, b: string, ghost u: set<string>) returns (out: bool)
      requires a in u && b in u && Known(u) && OverlapRight({})
      modifies this`overlapCache
      ensures OverlapRight({})
      ensures Trusted(facts) ==> (out <==> SingleContest(facts, a, b))
    {
      if facts.literal(a) && facts.literal(b) {
        return facts.literalMeets(a, b);
      }
      out := !facts.exact(a) || !facts.exact(b);
      if !out {
        out := TokensOverlap(a, b, u, {});
      }
      out := out || facts.engineMeets(a, b) || facts.engineMeets(b, a);
    }

    method AnyContest(a: string, b: string, ghost u: set<string>, ghost pending: set<set<string>>) returns (out: bool)
      requires a in u && b in u && Known(u) && (a in facts.tokenSets || b in facts.tokenSets) && !Plainly(a, b)
      requires ContestRight(pending + {{a, b}}) && {a, b} in contestCache
      modifies this
      ensures Grown(contestCache, old(contestCache), limit) && ContestRight(pending + {{a, b}})
      ensures Trusted(facts) ==> (out <==> Contest(facts, a, b))
      decreases Pairs(u) - contestCache.Keys, 3
    {
      var xs, ys := Members(facts.tokenSets, a), Members(facts.tokenSets, b);
      out := false;
      for i := 0 to |xs|
        invariant !out && Grown(contestCache, old(contestCache), limit) && ContestRight(pending + {{a, b}})
        invariant Trusted(facts) ==> forall p, y :: 0 <= p < i && y in ys ==> !MemberContest(facts, xs[p], y)
      {
        out := AnyMember(a, b, xs[i], ys, u, pending);
        if out {
          return;
        }
      }
    }

    method AnyMember(a: string, b: string, x: string, ys: seq<string>, ghost u: set<string>,
        ghost pending: set<set<string>>) returns (out: bool)
      requires Known(u) && (a in facts.tokenSets || b in facts.tokenSets)
      requires x in u && (forall y :: y in ys ==> y in u)
      requires x in Members(facts.tokenSets, a) && ys == Members(facts.tokenSets, b)
      requires ContestRight(pending + {{a, b}}) && {a, b} in contestCache
      modifies this
      ensures Grown(contestCache, old(contestCache), limit) && ContestRight(pending + {{a, b}})
      ensures Trusted(facts) ==> (out <==> exists y :: y in ys && MemberContest(facts, x, y))
      decreases Pairs(u) - contestCache.Keys, 2
    {
      out := false;
      for j := 0 to |ys|
        invariant !out && Grown(contestCache, old(contestCache), limit) && ContestRight(pending + {{a, b}})
        invariant Trusted(facts) ==> forall q :: 0 <= q < j ==> !MemberContest(facts, x, ys[q])
      {
        if Trusted(facts) {
          MembersSingle(facts.tokenSets, a, b, x, ys[j], pending);
        }
        out := HeadsContest(x, ys[j], u, pending + {{a, b}});
        assert Trusted(facts) ==> (out <==> MemberContest(facts, x, ys[j]));
        if out {
          assert ys[j] in ys;
          return;
        }
      }
    }
  }

  /** Members of sets are single tokens, so no pair of them is provisional. */
  lemma MembersSingle(sets: map<string, seq<string>>, a: string, b: string, x: string, y: string,
      pending: set<set<string>>)
    requires Unnested(sets) && (a in sets || b in sets) && x in Members(sets, a) && y in Members(sets, b)
    requires AboutSets(sets, pending)
    ensures x !in sets && y !in sets && {x, y} !in pending + {{a, b}}
  {
    assert NamesSet(sets, {a, b}) by {
      assert a in {a, b} && b in {a, b};
    }
    assert !NamesSet(sets, {x, y});
  }
}
