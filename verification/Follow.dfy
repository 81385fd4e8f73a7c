/** FOLLOW sets and FOLLOW2 pairs of a desugared grammar, computed to a fixed point. */
module Follow {
  import opened Ir
  import opened Forms
  import opened Analysis

  // ---- what can stand after a rule ----

  /** Where derivations begin: any rule alone, or the start rule and the end of the
      source after it. */
  ghost predicate Seed(g: Grammar, start: string, f: Sequence) {
    || (|f| == 1 && f[0].Ref? && f[0].name in NameSet(g))
    || (start in NameSet(g) && f == [Ref(start), Term(END)])
  }

  ghost predicate DerivedFrom(g: Grammar, start: string, seed: Sequence, f: Sequence) {
    Seed(g, start, seed) && Reaches(g, seed, f)
  }

  ghost predicate Sentential(g: Grammar, start: string, f: Sequence) {
    exists seed :: DerivedFrom(g, start, seed, f)
  }

  ghost predicate FollowsAt(g: Grammar, start: string, r: string, t: string, u: Sequence, v: Sequence) {
    Sentential(g, start, u + [Ref(r)] + [Term(t)] + v)
  }

  /** Some derived form has the token right after the rule. */
  ghost predicate Follows(g: Grammar, start: string, r: string, t: string) {
    exists u, v :: FollowsAt(g, start, r, t, u, v)
  }

  ghost predicate FollowsByAt(g: Grammar, start: string, r: string, t: string, t': string, u: Sequence, v: Sequence) {
    Sentential(g, start, u + [Ref(r)] + [Term(t)] + ([Term(t')] + v))
  }

  /** Some derived form has the two tokens right after the rule. */
  ghost predicate FollowsBy(g: Grammar, start: string, r: string, t: string, t': string) {
    exists u, v :: FollowsByAt(g, start, r, t, t', u, v)
  }

  lemma SententialOn(g: Grammar, start: string, a: Sequence, b: Sequence)
    requires Sentential(g, start, a) && Reaches(g, a, b)
    ensures Sentential(g, start, b)
  {
    var seed :| DerivedFrom(g, start, seed, a);
    ReachesTrans(g, seed, a, b);
    assert DerivedFrom(g, start, seed, b);
  }

  lemma SententialInside(g: Grammar, start: string, u: Sequence, a: Sequence, b: Sequence, v: Sequence)
    requires Sentential(g, start, u + a + v) && Reaches(g, a, b)
    ensures Sentential(g, start, u + b + v)
  {
    ReachesInside(g, u, a, b, v);
    SententialOn(g, start, u + a + v, u + b + v);
  }

  lemma RuleSentential(g: Grammar, start: string, q: nat, k: nat)
    requires q < |g| && k < |g[q].alts|
    ensures Sentential(g, start, g[q].alts[k])
  {
    RuleReaches(g, q, k);
    assert DerivedFrom(g, start, [Ref(g[q].name)], g[q].alts[k]);
  }

  /** The reference at `j` of an alternative, and what comes before and after it. */
  ghost predicate Holds(g: Grammar, q: nat, k: nat, j: nat, r: string) {
    q < |g| && k < |g[q].alts| && j < |g[q].alts[k]| && g[q].alts[k][j] == Ref(r)
  }

  lemma Cut(alt: Sequence, j: nat, r: string)
    requires j < |alt| && alt[j] == Ref(r)
    ensures alt == alt[..j] + [Ref(r)] + alt[j + 1..]
  {
  }

  /** What the rest of an alternative begins with follows the reference. */
  lemma RestFollows(g: Grammar, start: string, q: nat, k: nat, j: nat, r: string, t: string)
    requires Holds(g, q, k, j, r) && Begins(g, g[q].alts[k][j + 1..], t)
    ensures Follows(g, start, r, t)
  {
    var alt := g[q].alts[k];
    RuleSentential(g, start, q, k);
    Cut(alt, j, r);
    var u := alt[..j] + [Ref(r)];
    var v :| BeginsVia(g, alt[j + 1..], t, v);
    assert alt == u + alt[j + 1..] + [];
    SententialInside(g, start, u, alt[j + 1..], [Term(t)] + v, []);
    assert u + ([Term(t)] + v) + [] == alt[..j] + [Ref(r)] + [Term(t)] + v;
    assert FollowsAt(g, start, r, t, alt[..j], v);
  }

  /** A form with a rule in it, that rule replaced by an alternative whose rest
      vanishes, has the alternative's reference where the rule stood. */
  lemma EndReached(g: Grammar, start: string, q: nat, k: nat, j: nat, r: string, x: Sequence, y: Sequence)
    requires Holds(g, q, k, j, r) && Vanishes(g, g[q].alts[k][j + 1..])
    requires Sentential(g, start, x + [Ref(g[q].name)] + y)
    ensures Sentential(g, start, x + g[q].alts[k][..j] + [Ref(r)] + y)
  {
    var alt := g[q].alts[k];
    RuleReaches(g, q, k);
    SententialInside(g, start, x, [Ref(g[q].name)], alt, y);
    Cut(alt, j, r);
    assert x + alt + y == x + alt[..j] + [Ref(r)] + alt[j + 1..] + y;
    SententialInside(g, start, x + alt[..j] + [Ref(r)], alt[j + 1..], [], y);
    assert x + alt[..j] + [Ref(r)] + [] + y == x + alt[..j] + [Ref(r)] + y;
  }

  /** What follows the rule follows a reference at the end of its alternative. */
  lemma EndFollows(g: Grammar, start: string, q: nat, k: nat, j: nat, r: string, t: string)
    requires Holds(g, q, k, j, r) && Vanishes(g, g[q].alts[k][j + 1..])
    requires Follows(g, start, g[q].name, t)
    ensures Follows(g, start, r, t)
  {
    var x, v :| FollowsAt(g, start, g[q].name, t, x, v);
    var y := [Term(t)] + v;
    assert x + [Ref(g[q].name)] + [Term(t)] + v == x + [Ref(g[q].name)] + y;
    EndReached(g, start, q, k, j, r, x, y);
    var u := x + g[q].alts[k][..j];
    assert u + [Ref(r)] + y == u + [Ref(r)] + [Term(t)] + v;
    assert FollowsAt(g, start, r, t, u, v);
  }

  // ---- what a finished FOLLOW map holds ----

  ghost predicate FollowSound(g: Grammar, start: string, follow: Sets) {
    forall r, t :: r in follow && t in follow[r] ==> Follows(g, start, r, t)
  }

  /** One reference accounted for. */
  ghost predicate Covered(name: string, r: string, rest: Sequence, first: Sets, nullable: set<string>, follow: Sets) {
    r in follow ==>
      && FirstOfSeq(rest, first, nullable).0 <= follow[r]
      && (FirstOfSeq(rest, first, nullable).1 ==> FirstIn(follow, name) <= follow[r])
  }

  ghost predicate FollowClosed(g: Grammar, first: Sets, nullable: set<string>, follow: Sets) {
    forall q: nat, k: nat, j: nat, r :: Holds(g, q, k, j, r) ==>
      Covered(g[q].name, r, g[q].alts[k][j + 1..], first, nullable, follow)
  }

  ghost predicate SeenAt(f: Sequence, i: int, first: Sets, nullable: set<string>, follow: Sets) {
    0 <= i < |f| && f[i].Ref? && f[i].name in follow ==> FirstOfSeq(f[i + 1..], first, nullable).0 <= follow[f[i].name]
  }

  /** Every reference of a form has its successors in its set. */
  ghost predicate AllSeen(f: Sequence, first: Sets, nullable: set<string>, follow: Sets) {
    forall i :: SeenAt(f, i, first, nullable, follow)
  }

  /** The step's reference stands after position `i`. */
  lemma SeenBefore(f: Sequence, i: int, p: int, n: string, alt: Sequence, first: Sets, nullable: set<string>,
      follow: Sets)
    requires 0 <= i < p < |f| && f[p] == Ref(n) && Within(alt, n, first, nullable)
    requires SeenAt(f, i, first, nullable, follow)
    ensures SeenAt(f[..p] + alt + f[p + 1..], i, first, nullable, follow)
  {
    var b := f[..p] + alt + f[p + 1..];
    var u, v := f[i + 1..p], f[p + 1..];
    assert f[i + 1..] == u + ([Ref(n)] + v);
    assert b[i + 1..] == u + (alt + v) && b[i] == f[i];
    StepFirstAt(u, n, alt, v, first, nullable);
  }

  /** Position `i` is inside the alternative put in place. */
  lemma SeenWithin(f: Sequence, j: nat, p: nat, n: string, alt: Sequence, first: Sets, nullable: set<string>,
      follow: Sets)
    requires p < |f| && j < |alt| && f[p] == Ref(n) && n in follow
    requires alt[j].Ref? ==> Covered(n, alt[j].name, alt[j + 1..], first, nullable, follow)
    requires SeenAt(f, p, first, nullable, follow)
    ensures SeenAt(f[..p] + alt + f[p + 1..], p + j, first, nullable, follow)
  {
    var b := f[..p] + alt + f[p + 1..];
    assert b[p + j] == alt[j];
    assert b[p + j + 1..] == alt[j + 1..] + f[p + 1..];
    FirstCat(alt[j + 1..], f[p + 1..], first, nullable);
  }

  lemma SeenAfter(f: Sequence, i: nat, p: nat, alt: Sequence, first: Sets, nullable: set<string>, follow: Sets)
    requires p < i < |f| && SeenAt(f, i, first, nullable, follow)
    ensures SeenAt(f[..p] + alt + f[p + 1..], i - 1 + |alt|, first, nullable, follow)
  {
    var b := f[..p] + alt + f[p + 1..];
    assert b[i - 1 + |alt|] == f[i];
    assert b[i + |alt|..] == f[i + 1..];
  }

  lemma SeenInside(g: Grammar, q: nat, k: nat, f: Sequence, j: nat, p: nat, first: Sets, nullable: set<string>,
      follow: Sets)
    requires q < |g| && k < |g[q].alts| && j < |g[q].alts[k]| && p < |f| && f[p] == Ref(g[q].name)
    requires FollowClosed(g, first, nullable, follow) && follow.Keys == NameSet(g)
    requires SeenAt(f, p, first, nullable, follow)
    ensures SeenAt(f[..p] + g[q].alts[k] + f[p + 1..], p + j, first, nullable, follow)
  {
    var alt := g[q].alts[k];
    if alt[j].Ref? {
      assert Holds(g, q, k, j, alt[j].name);
    }
    SeenWithin(f, j, p, g[q].name, alt, first, nullable, follow);
  }

  lemma StepSeen(g: Grammar, a: Sequence, b: Sequence, first: Sets, nullable: set<string>, follow: Sets)
    requires FirstClosed(g, first, nullable) && FollowClosed(g, first, nullable, follow) && follow.Keys == NameSet(g)
    requires Step(g, a, b) && AllSeen(a, first, nullable, follow)
    ensures AllSeen(b, first, nullable, follow)
  {
    var p, q, k :| StepAt(g, a, b, p, q, k);
    assert Within(g[q].alts[k], g[q].name, first, nullable);
    forall i ensures SeenAt(b, i, first, nullable, follow) {
      SeenAnywhere(g, q, k, a, p, b, i, first, nullable, follow);
    }
  }

  lemma SeenAnywhere(g: Grammar, q: nat, k: nat, a: Sequence, p: nat, b: Sequence, i: int, first: Sets,
      nullable: set<string>, follow: Sets)
    requires q < |g| && k < |g[q].alts| && p < |a| && a[p] == Ref(g[q].name) && b == a[..p] + g[q].alts[k] + a[p + 1..]
    requires Within(g[q].alts[k], g[q].name, first, nullable)
    requires FollowClosed(g, first, nullable, follow) && follow.Keys == NameSet(g)
    requires AllSeen(a, first, nullable, follow)
    ensures SeenAt(b, i, first, nullable, follow)
  {
    var alt := g[q].alts[k];
    if 0 <= i < p {
      SeenBefore(a, i, p, g[q].name, alt, first, nullable, follow);
    } else if p <= i < p + |alt| {
      SeenInside(g, q, k, a, i - p, p, first, nullable, follow);
    } else if p + |alt| <= i < |b| {
      SeenAfter(a, i + 1 - |alt|, p, alt, first, nullable, follow);
    }
  }

  lemma {:induction false} DerivationSeen(g: Grammar, fs: seq<Sequence>, a: Sequence, b: Sequence, first: Sets,
      nullable: set<string>, follow: Sets)
    requires FirstClosed(g, first, nullable) && FollowClosed(g, first, nullable, follow) && follow.Keys == NameSet(g)
    requires Derives(g, fs, a, b) && AllSeen(a, first, nullable, follow)
    ensures AllSeen(b, first, nullable, follow)
    decreases |fs|
  {
    if |fs| > 1 {
      DerivesSplit(g, fs, a, b);
      StepSeen(g, a, fs[1], first, nullable, follow);
      DerivationSeen(g, fs[1..], fs[1], b, first, nullable, follow);
    }
  }

  lemma SeedSeen(g: Grammar, start: string, f: Sequence, first: Sets, nullable: set<string>, follow: Sets)
    requires Seed(g, start, f) && follow.Keys == NameSet(g)
    requires start in follow ==> END in follow[start]
    ensures AllSeen(f, first, nullable, follow)
  {
    forall i ensures SeenAt(f, i, first, nullable, follow) {
      if i == 0 {
        if |f| == 1 {
          assert f[1..] == [];
        } else {
          assert f[1..][0] == Term(END);
        }
      }
    }
  }

  /** FOLLOW is exact: the tokens of `follow[r]` are those that stand after `r` in
      some derived form. */
  ghost predicate FollowExact(g: Grammar, start: string, follow: Sets) {
    forall r, t {:trigger Follows(g, start, r, t)} :: r in follow ==> (t in follow[r] <==> Follows(g, start, r, t))
  }

  lemma SeenFollows(r: string, t: string, u: Sequence, v: Sequence, first: Sets, nullable: set<string>, follow: Sets)
    requires AllSeen(u + [Ref(r)] + [Term(t)] + v, first, nullable, follow) && r in follow
    ensures t in follow[r]
  {
    var f := u + [Ref(r)] + [Term(t)] + v;
    assert SeenAt(f, |u|, first, nullable, follow) && f[|u|] == Ref(r);
    var rest := f[|u| + 1..];
    assert rest[0] == Term(t);
  }

  lemma ClosedFollowExact(g: Grammar, start: string, first: Sets, nullable: set<string>, follow: Sets)
    requires FirstClosed(g, first, nullable) && FollowClosed(g, first, nullable, follow) && follow.Keys == NameSet(g)
    requires FollowSound(g, start, follow) && (start in follow ==> END in follow[start])
    ensures FollowExact(g, start, follow)
  {
    forall r, t | r in follow && Follows(g, start, r, t) ensures t in follow[r] {
      var u, v :| FollowsAt(g, start, r, t, u, v);
      var f := u + [Ref(r)] + [Term(t)] + v;
      var seed :| DerivedFrom(g, start, seed, f);
      SeedSeen(g, start, seed, first, nullable, follow);
      var fs :| Derives(g, fs, seed, f);
      DerivationSeen(g, fs, seed, f, first, nullable, follow);
      SeenFollows(r, t, u, v, first, nullable, follow);
    }
  }

  // ---- computing FOLLOW ----

  lemma ExactSound(g: Grammar, first: Sets, nullable: set<string>)
    requires FirstExact(g, first, nullable)
    ensures FirstSound(g, first, nullable)
  {
    forall n, t | n in first && t in first[n] ensures Begins(g, [Ref(n)], t) {
      RefFirst(n, first, nullable);
      assert Flat([Ref(n)]);
    }
    forall n | n in nullable ensures Vanishes(g, [Ref(n)]) {
      RefFirst(n, first, nullable);
      assert Flat([Ref(n)]);
    }
  }

  lemma ExactClosed(g: Grammar, first: Sets, nullable: set<string>)
    requires FlatGrammar(g) && FirstExact(g, first, nullable)
    ensures FirstClosed(g, first, nullable)
  {
    forall i: nat, k: nat | i < |g| && k < |g[i].alts| ensures Within(g[i].alts[k], g[i].name, first, nullable) {
      var n, alt := g[i].name, g[i].alts[k];
      assert FlatAlts(g[i].alts) && Flat([Ref(n)]) && Flat(alt);
      RuleReaches(g, i, k);
      RefFirst(n, first, nullable);
      forall t | t in FirstOfSeq(alt, first, nullable).0 ensures t in FirstIn(first, n) {
        assert Begins(g, alt, t);
        var rest :| BeginsVia(g, alt, t, rest);
        ReachesTrans(g, [Ref(n)], alt, [Term(t)] + rest);
        assert BeginsVia(g, [Ref(n)], t, rest);
        assert Begins(g, [Ref(n)], t);
      }
      if FirstOfSeq(alt, first, nullable).1 {
        assert Vanishes(g, alt);
        ReachesTrans(g, [Ref(n)], alt, []);
        assert Vanishes(g, [Ref(n)]);
      }
    }
  }

  /** Every token the sets can hold. */
  ghost function Vocabulary(g: Grammar, first: Sets): set<string> {
    TermsOf(g) + {END} + (set n, t | n in first && t in first[n] :: t)
  }

  lemma {:induction false} FirstInVocabulary(s: Sequence, first: Sets, nullable: set<string>, toks: set<string>)
    requires TermsIn(s, toks) && forall n :: n in first ==> first[n] <= toks
    ensures FirstOfSeq(s, first, nullable).0 <= toks
  {
    if s != [] {
      FirstInVocabulary(s[1..], first, nullable, toks);
    }
  }

  lemma RestInVocabulary(g: Grammar, q: nat, k: nat, j: nat, first: Sets, nullable: set<string>)
    requires q < |g| && k < |g[q].alts| && j < |g[q].alts[k]|
    ensures FirstOfSeq(g[q].alts[k][j + 1..], first, nullable).0 <= Vocabulary(g, first)
  {
    assert TermsIn(g[q].alts[k], TermsOf(g));
    FirstInVocabulary(g[q].alts[k][j + 1..], first, nullable, Vocabulary(g, first));
  }

  /** What the fixed state of a FOLLOW computation keeps. */
  ghost predicate FollowState(g: Grammar, start: string, first: Sets, follow: Sets) {
    && Bounded(follow, NameSet(g), Vocabulary(g, first))
    && FollowSound(g, start, follow)
    && (start in follow ==> END in follow[start])
  }

  ghost function FollowRoom(g: Grammar, first: Sets, follow: Sets): (r: nat)
    requires Bounded(follow, NameSet(g), Vocabulary(g, first))
  {
    Room(follow, NameSet(g), Vocabulary(g, first))
  }

  lemma AddSound(g: Grammar, start: string, q: nat, k: nat, j: nat, r: string, first: Sets, nullable: set<string>,
      follow: Sets, t: string)
    requires FlatGrammar(g) && FirstSound(g, first, nullable) && FollowSound(g, start, follow) && Holds(g, q, k, j, r)
    requires var (f, vanishes) := FirstOfSeq(g[q].alts[k][j + 1..], first, nullable);
      t in f || (vanishes && t in FirstIn(follow, g[q].name))
    ensures Follows(g, start, r, t)
  {
    var rest := g[q].alts[k][j + 1..];
    FirstOfSeqSound(g, rest, first, nullable);
    if t in FirstOfSeq(rest, first, nullable).0 {
      RestFollows(g, start, q, k, j, r, t);
    } else {
      EndFollows(g, start, q, k, j, r, t);
    }
  }

  /** One reference: the tokens its rest begins with, and when the rest can vanish
      those that follow the rule around it. */
  method FollowStep(g: Grammar, q: nat, k: nat, j: nat, start: string, first: Sets, nullable: set<string>,
      follow0: Sets, changed0: bool)
    returns (follow: Sets, changed: bool)
    requires FlatGrammar(g) && FirstSound(g, first, nullable) && FollowState(g, start, first, follow0)
    requires q < |g| && k < |g[q].alts| && j < |g[q].alts[k]|
    ensures FollowState(g, start, first, follow)
    ensures changed0 ==> changed
    ensures FollowRoom(g, first, follow) <= FollowRoom(g, first, follow0)
    ensures changed && !changed0 ==> FollowRoom(g, first, follow) < FollowRoom(g, first, follow0)
    ensures !changed ==> follow == follow0
    ensures !changed && g[q].alts[k][j].Ref? ==>
      Covered(g[q].name, g[q].alts[k][j].name, g[q].alts[k][j + 1..], first, nullable, follow)
  {
    follow, changed := follow0, changed0;
    var el := g[q].alts[k][j];
    if el.Ref? && el.name in follow {
      assert g[q].name in NameSet(g);
      var (rest, restNullable) := FirstOfSeq(g[q].alts[k][j + 1..], first, nullable);
      var add := if restNullable then rest + follow[g[q].name] else rest;
      RestInVocabulary(g, q, k, j, first, nullable);
      RoomShrinks(follow0, el.name, add, NameSet(g), Vocabulary(g, first));
      if !(add <= follow[el.name]) {
        changed := true;
      }
      follow := follow[el.name := follow[el.name] + add];
      forall t | t in add ensures Follows(g, start, el.name, t) {
        AddSound(g, start, q, k, j, el.name, first, nullable, follow0, t);
      }
    }
  }

  ghost predicate AltCovered(name: string, alt: Sequence, n: nat, first: Sets, nullable: set<string>, follow: Sets)
    requires n <= |alt|
  {
    forall j :: 0 <= j < n && alt[j].Ref? ==> Covered(name, alt[j].name, alt[j + 1..], first, nullable, follow)
  }

  method FollowAlt(g: Grammar, q: nat, k: nat, start: string, first: Sets, nullable: set<string>, follow0: Sets,
      changed0: bool)
    returns (follow: Sets, changed: bool)
    requires FlatGrammar(g) && FirstSound(g, first, nullable) && FollowState(g, start, first, follow0)
    requires q < |g| && k < |g[q].alts|
    ensures FollowState(g, start, first, follow)
    ensures changed0 ==> changed
    ensures FollowRoom(g, first, follow) <= FollowRoom(g, first, follow0)
    ensures changed && !changed0 ==> FollowRoom(g, first, follow) < FollowRoom(g, first, follow0)
    ensures !changed ==>
      follow == follow0 && AltCovered(g[q].name, g[q].alts[k], |g[q].alts[k]|, first, nullable, follow)
  {
    follow, changed := follow0, changed0;
    for j := 0 to |g[q].alts[k]|
      invariant FollowState(g, start, first, follow)
      invariant changed0 ==> changed
      invariant FollowRoom(g, first, follow) <= FollowRoom(g, first, follow0)
      invariant changed && !changed0 ==> FollowRoom(g, first, follow) < FollowRoom(g, first, follow0)
      invariant !changed ==> follow == follow0 && AltCovered(g[q].name, g[q].alts[k], j, first, nullable, follow)
    {
      follow, changed := FollowStep(g, q, k, j, start, first, nullable, follow, changed);
    }
  }

  ghost predicate RuleCovered(p: Production, n: nat, first: Sets, nullable: set<string>, follow: Sets)
    requires n <= |p.alts|
  {
    forall k :: 0 <= k < n ==> AltCovered(p.name, p.alts[k], |p.alts[k]|, first, nullable, follow)
  }

  method FollowRule(g: Grammar, q: nat, start: string, first: Sets, nullable: set<string>, follow0: Sets,
      changed0: bool)
    returns (follow: Sets, changed: bool)
    requires FlatGrammar(g) && FirstSound(g, first, nullable) && FollowState(g, start, first, follow0)
    requires q < |g|
    ensures FollowState(g, start, first, follow)
    ensures changed0 ==> changed
    ensures FollowRoom(g, first, follow) <= FollowRoom(g, first, follow0)
    ensures changed && !changed0 ==> FollowRoom(g, first, follow) < FollowRoom(g, first, follow0)
    ensures !changed ==> follow == follow0 && RuleCovered(g[q], |g[q].alts|, first, nullable, follow)
  {
    follow, changed := follow0, changed0;
    for k := 0 to |g[q].alts|
      invariant FollowState(g, start, first, follow)
      invariant changed0 ==> changed
      invariant FollowRoom(g, first, follow) <= FollowRoom(g, first, follow0)
      invariant changed && !changed0 ==> FollowRoom(g, first, follow) < FollowRoom(g, first, follow0)
      invariant !changed ==> follow == follow0 && RuleCovered(g[q], k, first, nullable, follow)
    {
      follow, changed := FollowAlt(g, q, k, start, first, nullable, follow, changed);
    }
  }

  ghost predicate RulesCovered(g: Grammar, n: nat, first: Sets, nullable: set<string>, follow: Sets)
    requires n <= |g|
  {
    forall q :: 0 <= q < n ==> RuleCovered(g[q], |g[q].alts|, first, nullable, follow)
  }

  method FollowPass(g: Grammar, start: string, first: Sets, nullable: set<string>, follow0: Sets)
    returns (follow: Sets, changed: bool)
    requires FlatGrammar(g) && FirstSound(g, first, nullable) && FollowState(g, start, first, follow0)
    ensures FollowState(g, start, first, follow)
    ensures changed ==> FollowRoom(g, first, follow) < FollowRoom(g, first, follow0)
    ensures !changed ==> follow == follow0 && RulesCovered(g, |g|, first, nullable, follow)
  {
    follow, changed := follow0, false;
    for q := 0 to |g|
      invariant FollowState(g, start, first, follow)
      invariant changed ==> FollowRoom(g, first, follow) < FollowRoom(g, first, follow0)
      invariant !changed ==> follow == follow0 && RulesCovered(g, q, first, nullable, follow)
    {
      follow, changed := FollowRule(g, q, start, first, nullable, follow, changed);
    }
  }

  lemma CoveredClosed(g: Grammar, first: Sets, nullable: set<string>, follow: Sets)
    requires RulesCovered(g, |g|, first, nullable, follow)
    ensures FollowClosed(g, first, nullable, follow)
  {
    forall q: nat, k: nat, j: nat, r | Holds(g, q, k, j, r)
      ensures Covered(g[q].name, r, g[q].alts[k][j + 1..], first, nullable, follow)
    {
      assert RuleCovered(g[q], |g[q].alts|, first, nullable, follow);
      assert AltCovered(g[q].name, g[q].alts[k], |g[q].alts[k]|, first, nullable, follow);
    }
  }

  lemma StartSound(g: Grammar, start: string)
    requires start in NameSet(g)
    ensures Follows(g, start, start, END)
  {
    var f := [Ref(start), Term(END)];
    ReachesRefl(g, f);
    assert DerivedFrom(g, start, f, f);
    var none: Sequence := [];
    assert none + [Ref(start)] + [Term(END)] + none == f;
    assert FollowsAt(g, start, start, END, none, none);
  }

  /** FOLLOW of every rule, by passes over the references until one changes nothing. */
  method ComputeFollow(g: Grammar, first: Sets, nullable: set<string>, start: string) returns (follow: Sets)
    requires FlatGrammar(g) && FirstExact(g, first, nullable)
    ensures follow.Keys == NameSet(g)
    ensures FollowExact(g, start, follow)
  {
    ExactSound(g, first, nullable);
    var names := NameSet(g);
    follow := map n | n in names :: {};
    if start in follow {
      follow := follow[start := {END}];
      StartSound(g, start);
    }
    var changed := true;
    while changed
      invariant FollowState(g, start, first, follow)
      invariant !changed ==> RulesCovered(g, |g|, first, nullable, follow)
      decreases FollowRoom(g, first, follow), changed
    {
      follow, changed := FollowPass(g, start, first, nullable, follow);
    }
    ExactClosed(g, first, nullable);
    CoveredClosed(g, first, nullable, follow);
    ClosedFollowExact(g, start, first, nullable, follow);
  }

  // ---- FOLLOW2 ----

  /** The pairs of tokens recorded for each rule. */
  type Pairs = map<string, set<(string, string)>>

  /** The place after `j` where the first element stands that cannot vanish. */
  ghost predicate Landing(alt: Sequence, j: nat, m: nat, nullable: set<string>) {
    && j < m <= |alt|
    && (forall i :: j < i < m ==> alt[i].Ref? && alt[i].name in nullable)
    && (m < |alt| ==> !(alt[m].Ref? && alt[m].name in nullable))
  }

  lemma {:induction false} VanishRun(s: Sequence, first: Sets, nullable: set<string>)
    requires Flat(s)
    ensures FirstOfSeq(s, first, nullable).1 <==> forall i :: 0 <= i < |s| ==> s[i].Ref? && s[i].name in nullable
  {
    if s != [] {
      VanishRun(s[1..], first, nullable);
      assert forall i :: 0 < i < |s| ==> s[i] == s[1..][i - 1];
      assert forall i :: 0 <= i < |s| - 1 ==> s[1..][i] == s[i + 1];
      assert FlatElem(s[0]);
    }
  }

  lemma BetweenVanishes(g: Grammar, alt: Sequence, j: nat, m: nat, first: Sets, nullable: set<string>)
    requires FirstExact(g, first, nullable) && Flat(alt) && Landing(alt, j, m, nullable)
    ensures Vanishes(g, alt[j + 1..m])
  {
    VanishRun(alt[j + 1..m], first, nullable);
  }

  lemma LandingUnique(g: Grammar, alt: Sequence, j: nat, m: nat, n: nat, first: Sets, nullable: set<string>)
    requires FirstExact(g, first, nullable) && Flat(alt) && Landing(alt, j, m, nullable)
    requires j < n <= |alt| && Vanishes(g, alt[j + 1..n]) && (n < |alt| ==> alt[n].Term?)
    ensures n == m
  {
    var s := alt[j + 1..n];
    VanishRun(s, first, nullable);
    assert Flat(s);
    assert forall i :: j < i < n ==> alt[i] == s[i - j - 1];
  }

  ghost predicate TokenAt(alt: Sequence, j: nat, m: nat, t: string) {
    j < m < |alt| && alt[m] == Term(t)
  }

  /** Where only vanishing references stand between a reference and a token, the
      token comes right after the reference. */
  lemma GapClosed(g: Grammar, start: string, alt: Sequence, j: nat, m: nat, r: string, t: string, x: Sequence,
      y: Sequence)
    requires j < |alt| && alt[j] == Ref(r) && TokenAt(alt, j, m, t) && Vanishes(g, alt[j + 1..m])
    requires Sentential(g, start, x + alt + y)
    ensures Sentential(g, start, x + alt[..j] + [Ref(r)] + [Term(t)] + (alt[m + 1..] + y))
  {
    var u := x + alt[..j] + [Ref(r)];
    var v := [Term(t)] + (alt[m + 1..] + y);
    assert x + alt + y == u + alt[j + 1..m] + v;
    SententialInside(g, start, u, alt[j + 1..m], [], v);
    assert u + [] + v == x + alt[..j] + [Ref(r)] + [Term(t)] + (alt[m + 1..] + y);
  }

  lemma PairInside(g: Grammar, start: string, q: nat, k: nat, j: nat, m: nat, r: string, t: string, t': string)
    requires Holds(g, q, k, j, r) && TokenAt(g[q].alts[k], j, m, t) && Vanishes(g, g[q].alts[k][j + 1..m])
    requires Begins(g, g[q].alts[k][m + 1..], t')
    ensures FollowsBy(g, start, r, t, t')
  {
    var alt := g[q].alts[k];
    var none: Sequence := [];
    RuleSentential(g, start, q, k);
    assert none + alt + none == alt;
    GapClosed(g, start, alt, j, m, r, t, none, none);
    var v :| BeginsVia(g, alt[m + 1..], t', v);
    var u := none + alt[..j] + [Ref(r)] + [Term(t)];
    assert u + (alt[m + 1..] + none) == u + alt[m + 1..] + none;
    SententialInside(g, start, u, alt[m + 1..], [Term(t')] + v, none);
    assert u + ([Term(t')] + v) + none == none + alt[..j] + [Ref(r)] + [Term(t)] + ([Term(t')] + v);
    assert FollowsByAt(g, start, r, t, t', none + alt[..j], v);
  }

  lemma PairAcross(g: Grammar, start: string, q: nat, k: nat, j: nat, m: nat, r: string, t: string, t': string)
    requires Holds(g, q, k, j, r) && TokenAt(g[q].alts[k], j, m, t) && Vanishes(g, g[q].alts[k][j + 1..m])
    requires Vanishes(g, g[q].alts[k][m + 1..]) && Follows(g, start, g[q].name, t')
    ensures FollowsBy(g, start, r, t, t')
  {
    var alt, p := g[q].alts[k], g[q].name;
    var x, v :| FollowsAt(g, start, p, t', x, v);
    var y := [Term(t')] + v;
    assert x + [Ref(p)] + [Term(t')] + v == x + [Ref(p)] + y;
    RuleReaches(g, q, k);
    SententialInside(g, start, x, [Ref(p)], alt, y);
    GapClosed(g, start, alt, j, m, r, t, x, y);
    var u := x + alt[..j] + [Ref(r)] + [Term(t)];
    assert u + (alt[m + 1..] + y) == u + alt[m + 1..] + y;
    SententialInside(g, start, u, alt[m + 1..], [], y);
    assert u + [] + y == u + ([Term(t')] + v);
    assert FollowsByAt(g, start, r, t, t', x + alt[..j], v);
  }

  lemma PairAtEnd(g: Grammar, start: string, q: nat, k: nat, j: nat, r: string, t: string, t': string)
    requires Holds(g, q, k, j, r) && Vanishes(g, g[q].alts[k][j + 1..])
    requires FollowsBy(g, start, g[q].name, t, t')
    ensures FollowsBy(g, start, r, t, t')
  {
    var p := g[q].name;
    var x, v :| FollowsByAt(g, start, p, t, t', x, v);
    var y := [Term(t)] + ([Term(t')] + v);
    assert x + [Ref(p)] + [Term(t)] + ([Term(t')] + v) == x + [Ref(p)] + y;
    EndReached(g, start, q, k, j, r, x, y);
    var u := x + g[q].alts[k][..j];
    assert u + [Ref(r)] + y == u + [Ref(r)] + [Term(t)] + ([Term(t')] + v);
    assert FollowsByAt(g, start, r, t, t', u, v);
  }

  /** A pair says at least that its first token follows the rule. */
  lemma PairFollows(g: Grammar, start: string, r: string, t: string, t': string)
    requires FollowsBy(g, start, r, t, t')
    ensures Follows(g, start, r, t)
  {
    var u, v :| FollowsByAt(g, start, r, t, t', u, v);
    assert FollowsAt(g, start, r, t, u, [Term(t')] + v);
  }

  ghost predicate PairsSound(g: Grammar, start: string, pairs: Pairs) {
    forall r, x :: r in pairs && x in pairs[r] ==> FollowsBy(g, start, r, x.0, x.1)
  }

  /** Tokens that can stand after the token at `m` of an alternative. */
  ghost predicate Next(g: Grammar, start: string, q: nat, k: nat, m: nat, t': string)
    requires q < |g| && k < |g[q].alts| && m < |g[q].alts[k]|
  {
    || Begins(g, g[q].alts[k][m + 1..], t')
    || (Vanishes(g, g[q].alts[k][m + 1..]) && Follows(g, start, g[q].name, t'))
  }

  /** One reference accounted for: a token reached from it over vanishing references
      is paired with whatever can come next, and a reference that can end its
      alternative has its rule's pairs. */
  ghost predicate Paired(g: Grammar, start: string, q: nat, k: nat, j: nat, r: string, pairs: Pairs)
    requires Holds(g, q, k, j, r)
  {
    r in pairs ==>
      && (forall m: nat, t, t' ::
        TokenAt(g[q].alts[k], j, m, t) && Vanishes(g, g[q].alts[k][j + 1..m]) && Next(g, start, q, k, m, t') ==>
            (t, t') in pairs[r])
      && (Vanishes(g, g[q].alts[k][j + 1..]) ==> g[q].name in pairs && pairs[g[q].name] <= pairs[r])
  }

  /** The pairs a token and a set of successors make. */
  function PairWith(t: string, us: set<string>): set<(string, string)> {
    set u | u in us :: (t, u)
  }

  /** What a reference adds to its rule's pairs, the walk having landed at `m`. */
  ghost predicate Adds(alt: Sequence, m: nat, first: Sets, nullable: set<string>, nexts: set<string>,
      own: set<(string, string)>, add: set<(string, string)>)
    requires m <= |alt|
  {
    if m == |alt| then add == own
    else if alt[m].Term? then
      add == PairWith(alt[m].tok,
        FirstOfSeq(alt[m + 1..], first, nullable).0 + if FirstOfSeq(alt[m + 1..], first, nullable).1 then nexts else {})
    else add == {}
  }

  /** The walk past a reference: over what can vanish to the first token. */
  method Walk(alt: Sequence, j: nat, first: Sets, nullable: set<string>, nexts: set<string>, own: set<(string, string)>)
    returns (add: set<(string, string)>, m: nat)
    requires j < |alt| && Flat(alt)
    ensures Landing(alt, j, m, nullable)
    ensures Adds(alt, m, first, nullable, nexts, own, add)
  {
    var i := j + 1;
    var blocked := false;
    add := {};
    while i < |alt|
      invariant j < i <= |alt| && !blocked
      invariant forall l :: j < l < i ==> alt[l].Ref? && alt[l].name in nullable
    {
      assert FlatElem(alt[i]);
      if alt[i].Ref? {
        if alt[i].name in nullable {
          i := i + 1;
          continue;
        }
        blocked := true;
        break;
      }
      var (rest, restNullable) := FirstOfSeq(alt[i + 1..], first, nullable);
      add := PairWith(alt[i].tok, rest + if restNullable then nexts else {});
      blocked := true;
      break;
    }
    if !blocked {
      add := own;
    }
    m := i;
  }

  /** What the walk adds is sound. */
  lemma WalkSound(g: Grammar, start: string, q: nat, k: nat, j: nat, r: string, m: nat, first: Sets,
      nullable: set<string>,
                  follow: Sets, pairs: Pairs, add: set<(string, string)>, x: (string, string))
    requires FlatGrammar(g) && FirstExact(g, first, nullable) && FollowExact(g, start, follow)
    requires follow.Keys == NameSet(g)
    requires Holds(g, q, k, j, r) && g[q].name in pairs && PairsSound(g, start, pairs)
    requires Landing(g[q].alts[k], j, m, nullable)
    requires Adds(g[q].alts[k], m, first, nullable, FirstIn(follow, g[q].name), pairs[g[q].name], add) && x in add
    ensures FollowsBy(g, start, r, x.0, x.1)
  {
    var alt := g[q].alts[k];
    assert FlatAlts(g[q].alts) && Flat(alt);
    BetweenVanishes(g, alt, j, m, first, nullable);
    if m == |alt| {
      assert alt[j + 1..m] == alt[j + 1..];
      PairAtEnd(g, start, q, k, j, r, x.0, x.1);
    } else if alt[m].Term? {
      var rest := alt[m + 1..];
      assert Flat(rest) && TokenAt(alt, j, m, x.0);
      if x.1 in FirstOfSeq(rest, first, nullable).0 {
        assert Begins(g, rest, x.1);
        PairInside(g, start, q, k, j, m, r, x.0, x.1);
      } else {
        assert Vanishes(g, rest);
        assert Follows(g, start, g[q].name, x.1);
        PairAcross(g, start, q, k, j, m, r, x.0, x.1);
      }
    }
  }

  /** What the walk adds is all there is to add. */
  lemma WalkComplete(g: Grammar, start: string, q: nat, k: nat, j: nat, r: string, m: nat, first: Sets,
      nullable: set<string>,
                     follow: Sets, pairs: Pairs, add: set<(string, string)>)
    requires FlatGrammar(g) && FirstExact(g, first, nullable) && FollowExact(g, start, follow)
    requires follow.Keys == NameSet(g)
    requires Holds(g, q, k, j, r) && r in pairs && g[q].name in pairs && Landing(g[q].alts[k], j, m, nullable)
    requires Adds(g[q].alts[k], m, first, nullable, FirstIn(follow, g[q].name), pairs[g[q].name], add)
    requires add <= pairs[r]
    ensures Paired(g, start, q, k, j, r, pairs)
  {
    var alt := g[q].alts[k];
    assert FlatAlts(g[q].alts) && Flat(alt);
    forall n: nat, t, t' | TokenAt(alt, j, n, t) && Vanishes(g, alt[j + 1..n]) && Next(g, start, q, k, n, t')
      ensures (t, t') in pairs[r]
    {
      LandingUnique(g, alt, j, m, n, first, nullable);
      NextRead(g, start, q, k, n, t', first, nullable, follow);
    }
    if Vanishes(g, alt[j + 1..]) {
      assert alt[j + 1..] == alt[j + 1..|alt|];
      LandingUnique(g, alt, j, m, |alt|, first, nullable);
    }
  }

  lemma NextRead(g: Grammar, start: string, q: nat, k: nat, m: nat, t': string, first: Sets, nullable: set<string>,
      follow: Sets)
    requires FlatGrammar(g) && FirstExact(g, first, nullable) && FollowExact(g, start, follow)
    requires follow.Keys == NameSet(g)
    requires q < |g| && k < |g[q].alts| && m < |g[q].alts[k]| && Next(g, start, q, k, m, t')
    ensures t' in FirstOfSeq(g[q].alts[k][m + 1..], first, nullable).0
      || (FirstOfSeq(g[q].alts[k][m + 1..], first, nullable).1 && t' in FirstIn(follow, g[q].name))
  {
    assert FlatAlts(g[q].alts) && Flat(g[q].alts[k][m + 1..]);
    assert g[q].name in NameSet(g);
  }

  ghost function PairTokens(g: Grammar, first: Sets, follow: Sets): set<string> {
    Vocabulary(g, first) + (set n, t | n in follow && t in follow[n] :: t)
  }

  ghost function PairSpace(g: Grammar, first: Sets, follow: Sets): set<(string, string)> {
    set t, u | t in PairTokens(g, first, follow) && u in PairTokens(g, first, follow) :: (t, u)
  }

  lemma AddsInSpace(g: Grammar, q: nat, k: nat, m: nat, first: Sets, nullable: set<string>, follow: Sets,
      own: set<(string, string)>, add: set<(string, string)>)
    requires q < |g| && k < |g[q].alts| && m <= |g[q].alts[k]| && own <= PairSpace(g, first, follow)
    requires Adds(g[q].alts[k], m, first, nullable, FirstIn(follow, g[q].name), own, add)
    ensures add <= PairSpace(g, first, follow)
  {
    if m < |g[q].alts[k]| && g[q].alts[k][m].Term? {
      RestInVocabulary(g, q, k, m, first, nullable);
      assert g[q].alts[k][m].tok in TermsOf(g);
    }
  }

  ghost predicate PairState(g: Grammar, start: string, first: Sets, follow: Sets, pairs: Pairs) {
    Bounded(pairs, NameSet(g), PairSpace(g, first, follow)) && PairsSound(g, start, pairs)
  }

  ghost function PairRoom(g: Grammar, first: Sets, follow: Sets, pairs: Pairs): (r: nat)
    requires Bounded(pairs, NameSet(g), PairSpace(g, first, follow))
  {
    Room(pairs, NameSet(g), PairSpace(g, first, follow))
  }

  ghost predicate SetsExact(g: Grammar, start: string, first: Sets, nullable: set<string>, follow: Sets) {
    FlatGrammar(g) && FirstExact(g, first, nullable) && FollowExact(g, start, follow) && follow.Keys == NameSet(g)
  }

  lemma PairsGrow(g: Grammar, start: string, q: nat, k: nat, j: nat, r: string, m: nat, first: Sets,
      nullable: set<string>,
                  follow: Sets, pairs: Pairs, add: set<(string, string)>)
    requires SetsExact(g, start, first, nullable, follow) && PairState(g, start, first, follow, pairs)
    requires Holds(g, q, k, j, r) && r in pairs && g[q].name in pairs && Landing(g[q].alts[k], j, m, nullable)
    requires Adds(g[q].alts[k], m, first, nullable, FirstIn(follow, g[q].name), pairs[g[q].name], add)
    ensures PairState(g, start, first, follow, pairs[r := pairs[r] + add])
    ensures add <= pairs[r] ==> pairs[r := pairs[r] + add] == pairs
    ensures !(add <= pairs[r]) ==>
      PairRoom(g, first, follow, pairs[r := pairs[r] + add]) < PairRoom(g, first, follow, pairs)
  {
    AddsInSpace(g, q, k, m, first, nullable, follow, pairs[g[q].name], add);
    RoomShrinks(pairs, r, add, NameSet(g), PairSpace(g, first, follow));
    forall x | x in add ensures FollowsBy(g, start, r, x.0, x.1) {
      WalkSound(g, start, q, k, j, r, m, first, nullable, follow, pairs, add, x);
    }
  }

  /** What one reference would still add is there already. */
  ghost predicate Settled(g: Grammar, q: nat, k: nat, j: nat, first: Sets, nullable: set<string>, follow: Sets,
      pairs: Pairs)
    requires q < |g| && k < |g[q].alts| && j < |g[q].alts[k]|
  {
    g[q].alts[k][j].Ref? && g[q].alts[k][j].name in pairs ==>
      g[q].name in pairs && exists m, add :: SettledBy(g, q, k, j, first, nullable, follow, pairs, m, add)
  }

  ghost predicate SettledBy(g: Grammar, q: nat, k: nat, j: nat, first: Sets, nullable: set<string>, follow: Sets,
      pairs: Pairs, m: nat, add: set<(string, string)>)
    requires q < |g| && k < |g[q].alts| && j < |g[q].alts[k]| && g[q].name in pairs
    requires g[q].alts[k][j].Ref? && g[q].alts[k][j].name in pairs
  {
    && Landing(g[q].alts[k], j, m, nullable)
    && Adds(g[q].alts[k], m, first, nullable, FirstIn(follow, g[q].name), pairs[g[q].name], add)
    && add <= pairs[g[q].alts[k][j].name]
  }

  method PairStep(g: Grammar, q: nat, k: nat, j: nat, ghost start: string, first: Sets, nullable: set<string>,
      follow: Sets, pairs0: Pairs, changed0: bool)
    returns (pairs: Pairs, changed: bool)
    requires SetsExact(g, start, first, nullable, follow) && PairState(g, start, first, follow, pairs0)
    requires q < |g| && k < |g[q].alts| && j < |g[q].alts[k]|
    ensures PairState(g, start, first, follow, pairs)
    ensures changed0 ==> changed
    ensures PairRoom(g, first, follow, pairs) <= PairRoom(g, first, follow, pairs0)
    ensures changed && !changed0 ==> PairRoom(g, first, follow, pairs) < PairRoom(g, first, follow, pairs0)
    ensures !changed ==> pairs == pairs0 && Settled(g, q, k, j, first, nullable, follow, pairs)
  {
    pairs, changed := pairs0, changed0;
    var el := g[q].alts[k][j];
    if el.Ref? && el.name in pairs {
      assert g[q].name in NameSet(g) && FlatAlts(g[q].alts);
      var add, m := Walk(g[q].alts[k], j, first, nullable, FirstIn(follow, g[q].name), pairs[g[q].name]);
      PairsGrow(g, start, q, k, j, el.name, m, first, nullable, follow, pairs, add);
      assert add <= pairs[el.name] ==> SettledBy(g, q, k, j, first, nullable, follow, pairs, m, add);
      if !(add <= pairs[el.name]) {
        changed := true;
      }
      pairs := pairs[el.name := pairs[el.name] + add];
    }
  }

  ghost predicate AltSettled(g: Grammar, q: nat, k: nat, n: nat, first: Sets, nullable: set<string>, follow: Sets,
      pairs: Pairs)
    requires q < |g| && k < |g[q].alts| && n <= |g[q].alts[k]|
  {
    forall j :: 0 <= j < n ==> Settled(g, q, k, j, first, nullable, follow, pairs)
  }

  method PairAlt(g: Grammar, q: nat, k: nat, ghost start: string, first: Sets, nullable: set<string>, follow: Sets,
      pairs0: Pairs, changed0: bool)
    returns (pairs: Pairs, changed: bool)
    requires SetsExact(g, start, first, nullable, follow) && PairState(g, start, first, follow, pairs0)
    requires q < |g| && k < |g[q].alts|
    ensures PairState(g, start, first, follow, pairs)
    ensures changed0 ==> changed
    ensures PairRoom(g, first, follow, pairs) <= PairRoom(g, first, follow, pairs0)
    ensures changed && !changed0 ==> PairRoom(g, first, follow, pairs) < PairRoom(g, first, follow, pairs0)
    ensures !changed ==> pairs == pairs0 && AltSettled(g, q, k, |g[q].alts[k]|, first, nullable, follow, pairs)
  {
    pairs, changed := pairs0, changed0;
    for j := 0 to |g[q].alts[k]|
      invariant PairState(g, start, first, follow, pairs)
      invariant changed0 ==> changed
      invariant PairRoom(g, first, follow, pairs) <= PairRoom(g, first, follow, pairs0)
      invariant changed && !changed0 ==> PairRoom(g, first, follow, pairs) < PairRoom(g, first, follow, pairs0)
      invariant !changed ==> pairs == pairs0 && AltSettled(g, q, k, j, first, nullable, follow, pairs)
    {
      pairs, changed := PairStep(g, q, k, j, start, first, nullable, follow, pairs, changed);
    }
  }

  ghost predicate RuleSettled(g: Grammar, q: nat, n: nat, first: Sets, nullable: set<string>, follow: Sets,
      pairs: Pairs)
    requires q < |g| && n <= |g[q].alts|
  {
    forall k :: 0 <= k < n ==> AltSettled(g, q, k, |g[q].alts[k]|, first, nullable, follow, pairs)
  }

  method PairRule(g: Grammar, q: nat, ghost start: string, first: Sets, nullable: set<string>, follow: Sets,
      pairs0: Pairs, changed0: bool)
    returns (pairs: Pairs, changed: bool)
    requires SetsExact(g, start, first, nullable, follow) && PairState(g, start, first, follow, pairs0)
    requires q < |g|
    ensures PairState(g, start, first, follow, pairs)
    ensures changed0 ==> changed
    ensures PairRoom(g, first, follow, pairs) <= PairRoom(g, first, follow, pairs0)
    ensures changed && !changed0 ==> PairRoom(g, first, follow, pairs) < PairRoom(g, first, follow, pairs0)
    ensures !changed ==> pairs == pairs0 && RuleSettled(g, q, |g[q].alts|, first, nullable, follow, pairs)
  {
    pairs, changed := pairs0, changed0;
    for k := 0 to |g[q].alts|
      invariant PairState(g, start, first, follow, pairs)
      invariant changed0 ==> changed
      invariant PairRoom(g, first, follow, pairs) <= PairRoom(g, first, follow, pairs0)
      invariant changed && !changed0 ==> PairRoom(g, first, follow, pairs) < PairRoom(g, first, follow, pairs0)
      invariant !changed ==> pairs == pairs0 && RuleSettled(g, q, k, first, nullable, follow, pairs)
    {
      pairs, changed := PairAlt(g, q, k, start, first, nullable, follow, pairs, changed);
    }
  }

  ghost predicate RulesSettled(g: Grammar, n: nat, first: Sets, nullable: set<string>, follow: Sets, pairs: Pairs)
    requires n <= |g|
  {
    forall q :: 0 <= q < n ==> RuleSettled(g, q, |g[q].alts|, first, nullable, follow, pairs)
  }

  method PairPass(g: Grammar, ghost start: string, first: Sets, nullable: set<string>, follow: Sets, pairs0: Pairs)
    returns (pairs: Pairs, changed: bool)
    requires SetsExact(g, start, first, nullable, follow) && PairState(g, start, first, follow, pairs0)
    ensures PairState(g, start, first, follow, pairs)
    ensures changed ==> PairRoom(g, first, follow, pairs) < PairRoom(g, first, follow, pairs0)
    ensures !changed ==> pairs == pairs0 && RulesSettled(g, |g|, first, nullable, follow, pairs)
  {
    pairs, changed := pairs0, false;
    for q := 0 to |g|
      invariant PairState(g, start, first, follow, pairs)
      invariant changed ==> PairRoom(g, first, follow, pairs) < PairRoom(g, first, follow, pairs0)
      invariant !changed ==> pairs == pairs0 && RulesSettled(g, q, first, nullable, follow, pairs)
    {
      pairs, changed := PairRule(g, q, start, first, nullable, follow, pairs, changed);
    }
  }

  /** Every reference accounted for. */
  ghost predicate AllPaired(g: Grammar, start: string, pairs: Pairs) {
    forall q: nat, k: nat, j: nat, r {:trigger Holds(g, q, k, j, r)} :: Holds(g, q, k, j, r) ==>
      Paired(g, start, q, k, j, r, pairs)
  }

  /** FOLLOW2 of every rule: each pair stands right after its rule in some derived
      form, its first token is in FOLLOW, and no pair a reference accounts for
      without looking inside the reference after it is missing. */
  method ComputeFollowPairs(g: Grammar, first: Sets, nullable: set<string>, follow: Sets,
      ghost start: string) returns (pairs: Pairs)
    requires SetsExact(g, start, first, nullable, follow)
    ensures pairs.Keys == NameSet(g)
    ensures PairsSound(g, start, pairs)
    ensures forall r, x :: r in pairs && x in pairs[r] ==> x.0 in follow[r]
    ensures AllPaired(g, start, pairs)
  {
    var names := NameSet(g);
    pairs := map n | n in names :: {};
    var changed := true;
    while changed
      invariant PairState(g, start, first, follow, pairs)
      invariant !changed ==> RulesSettled(g, |g|, first, nullable, follow, pairs)
      decreases PairRoom(g, first, follow, pairs), changed
    {
      pairs, changed := PairPass(g, start, first, nullable, follow, pairs);
    }
    forall r, x | r in pairs && x in pairs[r] ensures x.0 in follow[r] {
      PairFollows(g, start, r, x.0, x.1);
    }
    PairedEverywhere(g, start, first, nullable, follow, pairs);
  }

  lemma PairedEverywhere(g: Grammar, start: string, first: Sets, nullable: set<string>, follow: Sets, pairs: Pairs)
    requires SetsExact(g, start, first, nullable, follow)
    requires RulesSettled(g, |g|, first, nullable, follow, pairs)
    ensures AllPaired(g, start, pairs)
  {
    forall q: nat, k: nat, j: nat, r | Holds(g, q, k, j, r) ensures Paired(g, start, q, k, j, r, pairs) {
      SettledSomewhere(g, q, k, j, first, nullable, follow, pairs);
      if r in pairs {
        var m, add :| SettledBy(g, q, k, j, first, nullable, follow, pairs, m, add);
        WalkComplete(g, start, q, k, j, r, m, first, nullable, follow, pairs, add);
      }
    }
  }

  lemma SettledSomewhere(g: Grammar, q: nat, k: nat, j: nat, first: Sets, nullable: set<string>, follow: Sets,
      pairs: Pairs)
    requires RulesSettled(g, |g|, first, nullable, follow, pairs)
    requires q < |g| && k < |g[q].alts| && j < |g[q].alts[k]|
    ensures Settled(g, q, k, j, first, nullable, follow, pairs)
  {
    assert RuleSettled(g, q, |g[q].alts|, first, nullable, follow, pairs);
    assert AltSettled(g, q, k, |g[q].alts[k]|, first, nullable, follow, pairs);
  }
}
