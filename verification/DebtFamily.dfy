/** The whole way of a left-recursive rule of the suffix-debt family: its direct left
    recursion made a loop, the loop desugared, its debts settled, and the machine run on
    the marks the pass left.  What that machine accepts is the rule's language exactly
    when at most one token is owed. */
module DebtFamily {
  import opened Ir
  import opened Languages
  import opened Forms
  import opened Analysis
  import opened SuffixDebt
  import opened DebtPass
  import Desugar
  import DesugarProofs
  import LeftRec
  import LeftRecSteps

  // ---- the loop form ----

  function TailAlts(f: Family): seq<Sequence> {
    seq(|f.tails|, i requires 0 <= i < |f.tails| => [Term(f.tails[i])])
  }

  /** The alternatives an instance can start from. */
  function BaseAlts(f: Family): seq<Sequence> {
    seq(|f.wraps|, i requires 0 <= i < |f.wraps| => [Term(f.wraps[i].0), Ref(f.rule), Term(f.wraps[i].1)])
    + seq(|f.atoms|, i requires 0 <= i < |f.atoms| => [Term(f.atoms[i])])
  }

  function LedAlts(f: Family, n: nat): seq<Sequence>
    requires n <= |f.tails|
  {
    seq(n, i requires 0 <= i < n => [Ref(f.rule), Term(f.tails[i])])
  }

  lemma {:induction false} PartsCat(a: seq<Sequence>, b: seq<Sequence>, name: string)
    ensures LeftRecSteps.Seeds(a + b, name) == LeftRecSteps.Seeds(a, name) + LeftRecSteps.Seeds(b, name)
    ensures LeftRecSteps.Tails(a + b, name) == LeftRecSteps.Tails(a, name) + LeftRecSteps.Tails(b, name)
  {
    if a == [] {
      assert a + b == b;
    } else {
      assert (a + b)[0] == a[0] && (a + b)[1..] == a[1..] + b;
      PartsCat(a[1..], b, name);
    }
  }

  lemma {:induction false} LedParts(f: Family, n: nat)
    requires n <= |f.tails|
    ensures LeftRecSteps.Seeds(LedAlts(f, n), f.rule) == []
    ensures LeftRecSteps.Tails(LedAlts(f, n), f.rule) == TailAlts(f)[..n]
  {
    if n > 0 {
      LedParts(f, n - 1);
      var last := [Ref(f.rule), Term(f.tails[n - 1])];
      var none: seq<Sequence> := [];
      assert LedAlts(f, n) == LedAlts(f, n - 1) + [last];
      PartsCat(LedAlts(f, n - 1), [last], f.rule);
      assert [last][1..] == none && last[1..] == [Term(f.tails[n - 1])];
      assert TailAlts(f)[..n] == TailAlts(f)[..n - 1] + [TailAlts(f)[n - 1]];
    }
  }

  lemma {:induction false} FamilyParts(f: Family)
    ensures LeftRecSteps.Seeds(f.Alternatives(), f.rule) == BaseAlts(f)
    ensures LeftRecSteps.Tails(f.Alternatives(), f.rule) == TailAlts(f)
  {
    var led := LedAlts(f, |f.tails|);
    assert f.Alternatives() == led + BaseAlts(f);
    PartsCat(led, BaseAlts(f), f.rule);
    LedParts(f, |f.tails|);
    LeftRec.NoneLeading(BaseAlts(f), f.rule);
    assert TailAlts(f)[..|f.tails|] == TailAlts(f);
  }

  // ---- desugared ----

  /** What the loop repeats: the one tail, or a choice of them. */
  function ItemOf(f: Family, choice: string): Element
    requires f.tails != []
  {
    if |f.tails| == 1 then Term(f.tails[0]) else Ref(choice)
  }

  /** The rule as its base and its loop, with the helpers of both. */
  function LoopGrammar(f: Family, base: string, choice: string, loop: string): Grammar
    requires f.tails != []
  {
    [Production(f.rule, [[Ref(base), Ref(loop)]]), Production(base, BaseAlts(f))]
    + (if |f.tails| == 1 then [] else [Production(choice, TailAlts(f))])
    + [Production(loop, Desugar.LoopAlts(loop, ItemOf(f, choice)))]
  }

  ghost predicate Apart(f: Family, base: string, choice: string, loop: string) {
    f.rule != base && f.rule != choice && f.rule != loop && base != choice && base != loop && choice != loop
  }

  lemma {:induction false} FlatGroup(alts: seq<Sequence>, st: Desugar.State)
    requires FlatAlts(alts)
    ensures Desugar.GroupAlts(GroupOf(alts).alts, st) == (alts, st)
  {
    var owned := GroupOf(alts).alts;
    if alts == [] {
    } else {
      assert owned[1..] == GroupOf(alts[1..]).alts;
      assert owned[0].els == alts[0] && Flat(alts[0]);
      DesugarProofs.FlatUnchanged(alts[0], st);
      FlatGroup(alts[1..], st);
      assert [alts[0]] + alts[1..] == alts;
    }
  }

  /** A group of flat alternatives becomes one helper that holds them. */
  lemma {:induction false} GroupHelper(alts: seq<Sequence>, st: Desugar.State)
    requires FlatAlts(alts)
    ensures var name := Desugar.FreshFor("group", st);
      Desugar.Elem(GroupOf(alts), st) == (Ref(name), Desugar.Mint(st, name, alts))
  {
    hide Desugar.FreshFor;
    FlatGroup(alts, st);
  }

  lemma {:induction false} LoopItem(f: Family, st: Desugar.State) returns (choice: string, st': Desugar.State)
    requires f.tails != []
    ensures Desugar.Elem(LeftRecSteps.ChoiceOf(TailAlts(f)), st) == (ItemOf(f, choice), st')
    ensures st'.extra == st.extra + (if |f.tails| == 1 then [] else [Production(choice, TailAlts(f))])
    ensures choice !in st.used && st'.used == st.used + if |f.tails| == 1 then {} else {choice}
  {
    choice := Desugar.FreshFor("group", st);
    if |f.tails| == 1 {
      assert TailAlts(f)[0] == [Term(f.tails[0])];
      st' := st;
    } else {
      GroupHelper(TailAlts(f), st);
      st' := Desugar.Mint(st, choice, TailAlts(f));
    }
  }

  /** The loop form of the rule. */
  function Loops(f: Family, guard: Option<string>): Grammar {
    [Production(f.rule, LeftRecSteps.LoopForm(f.Alternatives(), f.rule, guard))]
  }

  /** The loop's helpers: the choice of tails, if there is one, and the loop itself. */
  lemma {:induction false} LoopHelpers(f: Family, guard: Option<string>, st: Desugar.State)
    returns (choice: string, loop: string, st': Desugar.State)
    requires f.tails != []
    ensures Desugar.Elem(Star(LeftRecSteps.ChoiceOf(TailAlts(f)), guard), st) == (Ref(loop), st')
    ensures st'.extra == st.extra + (if |f.tails| == 1 then [] else [Production(choice, TailAlts(f))])
      + [Production(loop, Desugar.LoopAlts(loop, ItemOf(f, choice)))]
    ensures loop !in st.used && choice !in st.used && (|f.tails| > 1 ==> choice != loop)
  {
    var st1;
    choice, st1 := LoopItem(f, st);
    var item := ItemOf(f, choice);
    loop := Desugar.FreshFor("star_" + Desugar.HintOf(item), st1);
    hide Desugar.FreshFor;
    st' := Desugar.Mint(st1, loop, Desugar.LoopAlts(loop, item));
  }

  lemma {:induction false} Desugars(f: Family, guard: Option<string>) returns (base: string, choice: string,
      loop: string)
    requires f.tails != [] && |f.wraps| + |f.atoms| >= 2
    ensures Apart(f, base, choice, loop) && Desugar.Desugared(Loops(f, guard)) == LoopGrammar(f, base, choice, loop)
  {
    FamilyParts(f);
    var st := Desugar.Start(Loops(f, guard));
    assert Loops(f, guard)[0].name in st.used;
    base := Desugar.FreshFor("group", st);
    hide Desugar.FreshFor, Desugar.Elem, Desugar.Seq, Desugar.Rules, BaseAlts, TailAlts;
    var st1, st2 := Desugar.Mint(st, base, BaseAlts(f)), st;
    GroupHelper(BaseAlts(f), st);
    choice, loop, st2 := LoopHelpers(f, guard, st1);
    var group, star := GroupOf(BaseAlts(f)), Star(LeftRecSteps.ChoiceOf(TailAlts(f)), guard);
    ManyBases(f);
    PairDesugars(group, star, st, Ref(base), st1, Ref(loop), st2);
    OneRule(f.rule, [group, star], st, [Ref(base), Ref(loop)], st2);
    assert Loops(f, guard) == [Production(f.rule, [[group, star]])];
    Assembled(f, guard, base, choice, loop, st1, st2);
    if |f.tails| == 1 {
      choice := Unlike(f.rule, base, loop);
    }
  }

  lemma {:induction false} Assembled(f: Family, guard: Option<string>, base: string, choice: string, loop: string,
      st1: Desugar.State, st2: Desugar.State)
    requires f.tails != []
    requires Desugar.Rules(Loops(f, guard), Desugar.Start(Loops(f, guard)))
      == ([Production(f.rule, [[Ref(base), Ref(loop)]])], st2)
    requires st1.extra == [Production(base, BaseAlts(f))]
    requires st2.extra == st1.extra + (if |f.tails| == 1 then [] else [Production(choice, TailAlts(f))])
      + [Production(loop, Desugar.LoopAlts(loop, ItemOf(f, choice)))]
    ensures Desugar.Desugared(Loops(f, guard)) == LoopGrammar(f, base, choice, loop)
  {
    hide Desugar.Rules;
  }

  lemma {:induction false} ManyBases(f: Family)
    requires |f.wraps| + |f.atoms| >= 2
    ensures LeftRecSteps.ChoiceOf(BaseAlts(f)) == GroupOf(BaseAlts(f)) && FlatAlts(BaseAlts(f))
  {
  }

  lemma {:induction false} Unlike(a: string, b: string, c: string) returns (d: string)
    ensures d != a && d != b && d != c
  {
    d := a + b + c + "_";
    assert |d| > |a| && |d| > |b| && |d| > |c|;
  }

  lemma {:induction false} PairDesugars(a: Element, b: Element, st: Desugar.State, a': Element, st1: Desugar.State,
      b': Element, st2: Desugar.State)
    requires Desugar.Elem(a, st) == (a', st1) && Desugar.Elem(b, st1) == (b', st2)
    ensures Desugar.Seq([a, b], st) == ([a', b'], st2)
  {
    hide Desugar.Elem;
    assert [a, b][1..] == [b] && [b][1..] == [];
    assert Desugar.Seq([b], st1) == ([b'] + [], st2);
    assert [a'] + ([b'] + []) == [a', b'];
  }

  lemma {:induction false} OneRule(name: string, s: Sequence, st: Desugar.State, s': Sequence, st': Desugar.State)
    requires Desugar.Seq(s, st) == (s', st')
    ensures Desugar.Rules([Production(name, [s])], st) == ([Production(name, [s'])], st')
  {
    hide Desugar.Seq;
    var g := [Production(name, [s])];
    assert [s][1..] == [] && g[1..] == [];
    assert Desugar.Alts([s][1..], st') == ([], st');
    assert Desugar.Alts([s], st) == ([s'] + [], st');
    assert [s'] + [] == [s'];
    assert g[0].alts == [s] && Desugar.Rules(g[1..], st') == ([], st');
    assert Desugar.Rules(g, st) == ([Production(name, [s'])] + [], st');
    assert [Production(name, [s'])] + [] == [Production(name, [s'])];
  }

  // ---- its FIRST sets ----

  /** Exact sets hold what every alternative begins with. */
  lemma {:induction false} ExactWithin(g: Grammar, first: Sets, nullable: set<string>, i: nat, k: nat)
    requires FlatGrammar(g) && FirstExact(g, first, nullable) && i < |g| && k < |g[i].alts|
    ensures Within(g[i].alts[k], g[i].name, first, nullable)
  {
    var alt, name := g[i].alts[k], g[i].name;
    assert FlatAlts(g[i].alts) && Flat(alt);
    RuleReaches(g, i, k);
    RefFirst(name, first, nullable);
    forall t | t in FirstOfSeq(alt, first, nullable).0 ensures t in FirstIn(first, name) {
      assert Begins(g, alt, t);
      var rest :| BeginsVia(g, alt, t, rest);
      ReachesTrans(g, [Ref(name)], alt, [Term(t)] + rest);
      assert BeginsVia(g, [Ref(name)], t, rest);
      assert Begins(g, [Ref(name)], t);
    }
    if FirstOfSeq(alt, first, nullable).1 {
      assert Vanishes(g, alt);
      ReachesTrans(g, [Ref(name)], alt, []);
      assert Vanishes(g, [Ref(name)]);
    }
  }

  function AllTokens(f: Family): set<string> {
    (set i | 0 <= i < |f.wraps| :: f.wraps[i].0) + (set t | t in f.atoms)
  }

  function Tokens(f: Family): set<string> {
    set t | t in f.tails
  }

  lemma {:induction false} LoopGrammarFlat(f: Family, base: string, choice: string, loop: string)
    requires f.tails != []
    ensures FlatGrammar(LoopGrammar(f, base, choice, loop))
  {
  }

  /** Sets the grammar is closed under. */
  function Enough(f: Family, base: string, choice: string, loop: string): Sets {
    map[f.rule := AllTokens(f), base := AllTokens(f), choice := Tokens(f), loop := Tokens(f)]
  }

  lemma {:induction false} TermFirst(t: string, rest: Sequence, first: Sets, nullable: set<string>)
    ensures FirstOfSeq([Term(t)] + rest, first, nullable) == ({t}, false)
  {
  }

  lemma {:induction false} EnoughClosed(f: Family, base: string, choice: string, loop: string)
    requires f.tails != [] && Apart(f, base, choice, loop)
    ensures FirstClosed(LoopGrammar(f, base, choice, loop), Enough(f, base, choice, loop), {loop})
  {
    var g, first := LoopGrammar(f, base, choice, loop), Enough(f, base, choice, loop);
    forall i, k | 0 <= i < |g| && 0 <= k < |g[i].alts| ensures Within(g[i].alts[k], g[i].name, first, {loop}) {
      if i == 0 {
        PairFirst(Ref(base), loop, first);
      } else if i == 1 {
        BaseFirst(f, k, first, {loop});
      } else if i == |g| - 1 {
        PairFirst(ItemOf(f, choice), loop, first);
      } else {
        TermFirst(f.tails[k], [], first, {loop});
        assert g[i].alts[k] == [Term(f.tails[k])] + [];
      }
    }
  }

  lemma {:induction false} BaseFirst(f: Family, k: nat, first: Sets, nullable: set<string>)
    requires k < |BaseAlts(f)|
    ensures FirstOfSeq(BaseAlts(f)[k], first, nullable).0 <= AllTokens(f)
    ensures !FirstOfSeq(BaseAlts(f)[k], first, nullable).1
  {
    if k < |f.wraps| {
      var rest := [Ref(f.rule), Term(f.wraps[k].1)];
      assert BaseAlts(f)[k] == [Term(f.wraps[k].0)] + rest;
      TermFirst(f.wraps[k].0, rest, first, nullable);
    } else {
      var z := f.atoms[k - |f.wraps|];
      assert BaseAlts(f)[k] == [Term(z)] + [];
      TermFirst(z, [], first, nullable);
    }
  }

  lemma {:induction false} PairFirst(e: Element, loop: string, first: Sets)
    requires FlatElem(e) && !(e.Ref? && e.name == loop)
    ensures FirstOfSeq([e, Ref(loop)], first, {loop})
      == (if e.Term? then {e.tok} else FirstIn(first, e.name), false)
  {
    assert [e, Ref(loop)][1..] == [Ref(loop)];
  }

  /** The loop begins with exactly the tails, and can vanish. */
  lemma {:induction false} LoopFirst(f: Family, base: string, choice: string, loop: string, first: Sets,
      nullable: set<string>)
    requires f.tails != [] && Apart(f, base, choice, loop)
    requires FirstExact(LoopGrammar(f, base, choice, loop), first, nullable)
    ensures FirstIn(first, loop) == Tokens(f) && loop in nullable
  {
    var g := LoopGrammar(f, base, choice, loop);
    LoopGrammarFlat(f, base, choice, loop);
    ExactWithin(g, first, nullable, |g| - 1, 1);
    assert g[|g| - 1].alts[1] == [];
    EnoughClosed(f, base, choice, loop);
    forall t | t in FirstIn(first, loop) ensures t in Tokens(f) {
      RefFirst(loop, first, nullable);
      assert Begins(g, [Ref(loop)], t);
      NoMore(g, loop, t, Enough(f, base, choice, loop), {loop});
    }
    forall t | t in Tokens(f) ensures t in FirstIn(first, loop) {
      TailBegins(f, base, choice, loop, first, nullable, t);
    }
  }

  lemma {:induction false} NoMore(g: Grammar, n: string, t: string, first: Sets, nullable: set<string>)
    requires FirstClosed(g, first, nullable) && Begins(g, [Ref(n)], t)
    ensures t in FirstIn(first, n)
  {
    var rest :| BeginsVia(g, [Ref(n)], t, rest);
    var fs :| Forms.Derives(g, fs, [Ref(n)], [Term(t)] + rest);
    ReachesFirst(g, fs, [Ref(n)], [Term(t)] + rest, first, nullable);
    RefFirst(n, first, nullable);
    TermFirst(t, rest, first, nullable);
  }

  lemma {:induction false} TailBegins(f: Family, base: string, choice: string, loop: string, first: Sets,
      nullable: set<string>, t: string)
    requires f.tails != [] && Apart(f, base, choice, loop) && t in f.tails
    requires FirstExact(LoopGrammar(f, base, choice, loop), first, nullable)
    ensures t in FirstIn(first, loop)
  {
    var g := LoopGrammar(f, base, choice, loop);
    LoopGrammarFlat(f, base, choice, loop);
    ExactWithin(g, first, nullable, |g| - 1, 0);
    var item := ItemOf(f, choice);
    assert g[|g| - 1].alts[0] == [item] + [Ref(loop)];
    FirstCat([item], [Ref(loop)], first, nullable);
    if |f.tails| == 1 {
      TermFirst(t, [], first, nullable);
      assert [item] == [Term(t)] + [];
    } else {
      var i :| 0 <= i < |f.tails| && f.tails[i] == t;
      ExactWithin(g, first, nullable, 2, i);
      assert g[2].alts[i] == [Term(t)] + [];
      TermFirst(t, [], first, nullable);
      RefFirst(choice, first, nullable);
    }
  }

  // ---- which pushes the pass marks ----

  /** The site of the `j`th wrap's push in the loop grammar. */
  function WrapSite(j: nat): Site {
    Site(1, j, 1)
  }

  lemma {:induction false} RefsOfTerms(f: Family, n: nat)
    requires n <= |f.tails|
    ensures AltsRefs(TailAlts(f)[|f.tails| - n..]) == {}
  {
    if n > 0 {
      var rest := TailAlts(f)[|f.tails| - n..];
      assert rest[1..] == TailAlts(f)[|f.tails| - (n - 1)..];
      assert rest[0] == [Term(f.tails[|f.tails| - n])] && rest[0][1..] == [];
      RefsOfTerms(f, n - 1);
      assert ElemRefs(rest[0][0]) == {} && SeqRefs(rest[0][1..]) == {};
      assert SeqRefs(rest[0]) == {};
    }
  }

  lemma {:induction false} RefsIn(alts: seq<Sequence>, k: nat, i: nat, n: string)
    requires k < |alts| && i < |alts[k]| && alts[k][i] == Ref(n)
    ensures n in AltsRefs(alts)
  {
    if k > 0 {
      RefsIn(alts[1..], k - 1, i, n);
    } else {
      assert alts[0] == alts[0][..i] + alts[0][i..];
      RefsCat(alts[0][..i], alts[0][i..]);
    }
  }

  /** The rules from which the recursive rule can be reached: itself and its base. */
  lemma {:induction false} CarriersAre(f: Family, base: string, choice: string, loop: string, carries: set<string>)
    requires f.tails != [] && f.wraps != [] && Apart(f, base, choice, loop)
    requires Carriers(LoopGrammar(f, base, choice, loop), carries, f.rule)
    ensures carries == {f.rule, base}
  {
    var g := LoopGrammar(f, base, choice, loop);
    assert CallsBy(g, f.rule, f.rule, [f.rule]);
    assert BaseAlts(f)[0][1] == Ref(f.rule);
    RefsIn(BaseAlts(f), 0, 1, f.rule);
    assert g[1].name == base && RefersTo(g, base, f.rule);
    CallsOn(g, base, f.rule, f.rule);
    NoOtherCarrier(f, base, choice, loop);
    forall n | n in carries ensures n in {f.rule, base} {
      var p :| CallsBy(g, n, f.rule, p);
      BackwardHolds(g, {f.rule, base}, p);
    }
  }

  lemma {:induction false} NoOtherCarrier(f: Family, base: string, choice: string, loop: string)
    requires f.tails != [] && Apart(f, base, choice, loop)
    ensures Backward(LoopGrammar(f, base, choice, loop), {f.rule, base})
  {
    var g := LoopGrammar(f, base, choice, loop);
    forall p, n | n in {f.rule, base} && RefersTo(g, p, n) ensures p in {f.rule, base} {
      var i :| 0 <= i < |g| && g[i].name == p && n in AltsRefs(g[i].alts);
      RefsOfTerms(f, |f.tails|);
      assert TailAlts(f)[0..] == TailAlts(f);
      LoopRefsOnly(f, choice, loop);
    }
  }

  lemma {:induction false} LoopRefsOnly(f: Family, choice: string, loop: string)
    requires f.tails != []
    ensures AltsRefs(Desugar.LoopAlts(loop, ItemOf(f, choice))) <= {choice, loop}
  {
    DesugarProofs.LoopRefs(loop, ItemOf(f, choice));
  }

  /** The loop is mentioned by its rule and by nothing else. */
  lemma {:induction false} OwnerIs(f: Family, base: string, choice: string, loop: string, owner: Option<nat>)
    requires f.tails != [] && Apart(f, base, choice, loop)
    requires var g := LoopGrammar(f, base, choice, loop);
      && (owner.Some? ==> owner.value < |g| && owner.value != |g| - 1 && Mentions(g[owner.value], loop))
      && (owner.None? ==> forall i :: 0 <= i < |g| && i != |g| - 1 ==> !Mentions(g[i], loop))
    ensures owner == Some(0)
  {
    var g := LoopGrammar(f, base, choice, loop);
    assert Ref(loop) in g[0].alts[0];
    assert Mentions(g[0], loop);
    forall i | 1 <= i < |g| - 1 ensures !Mentions(g[i], loop) {
    }
  }

  /** The pass marks exactly the pushes inside wraps. */
  lemma {:induction false} OwingIs(f: Family, base: string, choice: string, loop: string, first: Sets,
      nullable: set<string>, s: Site)
    requires f.tails != [] && Apart(f, base, choice, loop) && loop in nullable
    requires SiteOf(LoopGrammar(f, base, choice, loop), s)
    ensures Owing(LoopGrammar(f, base, choice, loop), s, {f.rule, base}, first, nullable)
      <==> s.rule == 1 && s.alt < |f.wraps| && s.at == 1
  {
    var g := LoopGrammar(f, base, choice, loop);
    var alt := g[s.rule].alts[s.alt];
    if s.rule == 0 {
      assert alt == [Ref(base), Ref(loop)] && alt[1..] == [Ref(loop)];
      RefFirst(loop, first, nullable);
    } else if s.rule == 1 && s.alt < |f.wraps| {
      assert alt[2..] == [Term(f.wraps[s.alt].1)] + [];
      TermFirst(f.wraps[s.alt].1, [], first, nullable);
    } else if s.rule == |g| - 1 {
      assert s.alt == 0 ==> alt == [ItemOf(f, choice), Ref(loop)];
    }
  }

  lemma {:induction false} WrapSuffix(f: Family, base: string, choice: string, loop: string, first: Sets,
      nullable: set<string>, j: nat)
    requires f.tails != [] && j < |f.wraps|
    ensures SiteOf(LoopGrammar(f, base, choice, loop), WrapSite(j))
    ensures SuffixFirst(LoopGrammar(f, base, choice, loop), WrapSite(j), first, nullable) == {f.wraps[j].1}
  {
    var g := LoopGrammar(f, base, choice, loop);
    assert g[1].alts[j] == [Term(f.wraps[j].0), Ref(f.rule), Term(f.wraps[j].1)];
    assert g[1].alts[j][2..] == [Term(f.wraps[j].1)] + [];
    TermFirst(f.wraps[j].1, [], first, nullable);
  }

  /** Competition by token identity. */
  ghost predicate Identity(meets: Meets) {
    forall t, u :: !meets(t, u)
  }

  lemma {:induction false} WrapDelta(f: Family, base: string, choice: string, loop: string, first: Sets,
      nullable: set<string>, meets: Meets, j: nat)
    requires f.tails != [] && j < |f.wraps| && Identity(meets)
    ensures SiteOf(LoopGrammar(f, base, choice, loop), WrapSite(j))
    ensures f.Delta(f.wraps[j].1)
      == Some(DeltaAt(LoopGrammar(f, base, choice, loop), WrapSite(j), Tokens(f), first, nullable, meets))
  {
    var g, c := LoopGrammar(f, base, choice, loop), f.wraps[j].1;
    WrapSuffix(f, base, choice, loop, first, nullable, j);
    DeltaIs(f, c);
    assert MeetsAny(c, {c}, meets);
    assert forall t :: MeetsAny(t, {c}, meets) ==> t == c;
  }

  // ---- what the pass leaves on the family ----

  function OwedTokens(f: Family): set<string> {
    set t | t in f.tails && f.Owed(t)
  }

  /** What the machine reads off the pass: the tokens guarded, and for each wrap what its
      push does to the counter. */
  datatype Annotation = Annotation(owed: set<string>, marks: map<nat, nat>)

  function AnnotationOf(r: Settled, wraps: nat): Annotation {
    match r
    case Dropped => Annotation({}, map[])
    case Guarded(pending, owed) =>
      Annotation(owed, map j: nat | j < wraps && WrapSite(j) in pending :: pending[WrapSite(j)])
  }

  function DeltaBy(a: Annotation, j: nat): Option<nat> {
    if j in a.marks then Some(a.marks[j]) else None
  }

  /** The guard and the marks are those the family calls for; without an owed token
      there are none. */
  ghost predicate Fits(f: Family, a: Annotation) {
    && a.owed == OwedTokens(f)
    && if OwedTokens(f) == {} then a.marks == map[]
       else forall j: nat :: j < |f.wraps| ==> DeltaBy(a, j) == f.Delta(f.wraps[j].1)
  }

  ghost predicate SettledBy(f: Family, base: string, choice: string, loop: string, first: Sets, nullable: set<string>,
      meets: Meets, r: Settled)
    requires f.tails != []
  {
    var g := LoopGrammar(f, base, choice, loop);
    match r
    case Guarded(pending, owed) =>
      owed != {} && Marks(g, SitesOf(g), {f.rule, base}, Tokens(f), first, nullable, meets, pending, owed)
    case Dropped => forall s :: SiteOf(g, s) && Owing(g, s, {f.rule, base}, first, nullable) ==>
      DeltaAt(g, s, Tokens(f), first, nullable, meets) == 0
  }

  lemma {:induction false} GuardedMarks(f: Family, base: string, choice: string, loop: string, first: Sets,
      nullable: set<string>, meets: Meets, r: Settled, j: nat)
    requires f.tails != [] && Apart(f, base, choice, loop) && loop in nullable && Identity(meets) && r.Guarded?
    requires SettledBy(f, base, choice, loop, first, nullable, meets, r) && j < |f.wraps|
    ensures WrapSite(j) in r.pending && f.Delta(f.wraps[j].1) == Some(r.pending[WrapSite(j)])
  {
    hide LoopGrammar, Identity, Apart, MeetsAny;
    WrapSuffix(f, base, choice, loop, first, nullable, j);
    WrapDelta(f, base, choice, loop, first, nullable, meets, j);
    OwingIs(f, base, choice, loop, first, nullable, WrapSite(j));
    assert WrapSite(j) in SitesOf(LoopGrammar(f, base, choice, loop));
  }

  lemma {:induction false} GuardedOwed(f: Family, base: string, choice: string, loop: string, first: Sets,
      nullable: set<string>, meets: Meets, r: Settled, t: string)
    requires f.tails != [] && Apart(f, base, choice, loop) && loop in nullable && Identity(meets) && r.Guarded?
    requires SettledBy(f, base, choice, loop, first, nullable, meets, r)
    ensures t in r.owed <==> t in OwedTokens(f)
  {
    hide LoopGrammar, Apart, DeltaAt, Owing, SuffixFirst;
    var g := LoopGrammar(f, base, choice, loop);
    if t in r.owed {
      var s :| s in r.pending && SiteOf(g, s) && MeetsAny(t, SuffixFirst(g, s, first, nullable), meets);
      OwingIs(f, base, choice, loop, first, nullable, s);
      WrapSuffix(f, base, choice, loop, first, nullable, s.alt);
      assert s == WrapSite(s.alt);
    }
    if t in OwedTokens(f) {
      var j: nat :| j < |f.wraps| && f.wraps[j].1 == t;
      WrapSuffix(f, base, choice, loop, first, nullable, j);
      GuardedMarks(f, base, choice, loop, first, nullable, meets, r, j);
      assert MeetsAny(t, {t}, meets);
    }
  }

  lemma {:induction false} GuardedFits(f: Family, base: string, choice: string, loop: string, first: Sets,
      nullable: set<string>, meets: Meets, r: Settled)
    requires f.tails != [] && Apart(f, base, choice, loop) && loop in nullable && Identity(meets) && r.Guarded?
    requires SettledBy(f, base, choice, loop, first, nullable, meets, r)
    ensures Fits(f, AnnotationOf(r, |f.wraps|)) && OwedTokens(f) != {}
  {
    assert r.owed != {};
    hide SettledBy, Apart, Identity, OwedTokens, PushDelta;
    forall j: nat | j < |f.wraps|
      ensures WrapSite(j) in r.pending && f.Delta(f.wraps[j].1) == Some(r.pending[WrapSite(j)])
    {
      GuardedMarks(f, base, choice, loop, first, nullable, meets, r, j);
    }
    forall t ensures t in r.owed <==> t in OwedTokens(f) {
      GuardedOwed(f, base, choice, loop, first, nullable, meets, r, t);
    }
    AnnotationFits(f, r);
  }

  lemma {:induction false} AnnotationFits(f: Family, r: Settled)
    requires r.Guarded? && r.owed != {} && forall t :: t in r.owed <==> t in OwedTokens(f)
    requires forall j: nat :: j < |f.wraps| ==>
      WrapSite(j) in r.pending && f.Delta(f.wraps[j].1) == Some(r.pending[WrapSite(j)])
    ensures Fits(f, AnnotationOf(r, |f.wraps|)) && OwedTokens(f) != {}
  {
    hide OwedTokens, PushDelta;
    assert r.owed == OwedTokens(f);
    assert forall j: nat :: j < |f.wraps| ==> j in AnnotationOf(r, |f.wraps|).marks;
  }

  lemma {:induction false} DroppedFits(f: Family, base: string, choice: string, loop: string, first: Sets,
      nullable: set<string>, meets: Meets)
    requires f.tails != [] && Apart(f, base, choice, loop) && loop in nullable && Identity(meets)
    requires SettledBy(f, base, choice, loop, first, nullable, meets, Dropped)
    ensures Fits(f, AnnotationOf(Dropped, |f.wraps|)) && OwedTokens(f) == {}
  {
    forall t | t in f.tails ensures !f.Owed(t) {
      forall j: nat | j < |f.wraps| ensures f.wraps[j].1 != t {
        WrapSuffix(f, base, choice, loop, first, nullable, j);
        WrapDelta(f, base, choice, loop, first, nullable, meets, j);
        OwingIs(f, base, choice, loop, first, nullable, WrapSite(j));
        DeltaIs(f, f.wraps[j].1);
      }
    }
  }

  // ---- the machine on what the pass left ----

  /** The wrap that an opening token chooses. */
  function WrapAt(wraps: seq<(string, string)>, o: string, from: nat): (r: Option<nat>)
    requires from <= |wraps|
    ensures r.Some? ==> from <= r.value < |wraps| && FindWrap(wraps[from..], o) == Some(wraps[r.value].1)
    ensures r.None? ==> FindWrap(wraps[from..], o) == None
    decreases |wraps| - from
  {
    if from == |wraps| then None
    else
      assert wraps[from..][1..] == wraps[from + 1..];
      if wraps[from].0 == o then Some(from) else WrapAt(wraps, o, from + 1)
  }

  predicate TakesBy(f: Family, a: Annotation, t: string, n: nat) {
    t in f.tails && (t in a.owed ==> n == 0)
  }

  /** The emitted rules run on the guard and the marks of an annotation. */
  predicate AcceptsBy(f: Family, a: Annotation, stack: seq<Frame>, input: Word)
    decreases |input|, |stack|
  {
    if stack == [] then input == []
    else
      match stack[0]
      case Base(n) =>
        if input == [] then false
        else if input[0] in f.atoms then AcceptsBy(f, a, [Loop(n)] + stack[1..], input[1..])
        else
          var j := WrapAt(f.wraps, input[0], 0);
          j.Some? && AcceptsBy(f, a,
            [Base(Pushed(n, DeltaBy(a, j.value))), Closing(f.wraps[j.value].1, n)] + stack[1..], input[1..])
      case Closing(c, n) =>
        input != [] && input[0] == c && AcceptsBy(f, a, [Loop(n)] + stack[1..], input[1..])
      case Loop(n) =>
        if input != [] && TakesBy(f, a, input[0], n) then AcceptsBy(f, a, stack, input[1..])
        else AcceptsBy(f, a, stack[1..], input)
  }

  predicate ParsesBy(f: Family, a: Annotation, w: Word) {
    AcceptsBy(f, a, [Base(0)], w)
  }

  /** The same frames, and the same counters unless nothing is owed. */
  ghost predicate Alike(f: Family, s: seq<Frame>, t: seq<Frame>) {
    |s| == |t| && forall i :: 0 <= i < |s| ==> FrameAlike(f, s[i], t[i])
  }

  ghost predicate FrameAlike(f: Family, x: Frame, y: Frame) {
    && (match x
        case Base(_) => y.Base?
        case Closing(c, _) => y.Closing? && y.tok == c
        case Loop(_) => y.Loop?)
    && (OwedTokens(f) != {} ==> x.n == y.n)
  }

  lemma {:induction false} TakesSame(f: Family, a: Annotation, t: string, x: nat, y: nat)
    requires Fits(f, a) && (OwedTokens(f) != {} ==> x == y)
    ensures TakesBy(f, a, t, x) <==> f.Takes(t, y)
  {
    assert t in f.tails ==> (t in OwedTokens(f) <==> f.Owed(t));
  }

  lemma {:induction false} AlikeTop(f: Family, s: seq<Frame>, t: seq<Frame>, x: Frame, y: Frame)
    requires s != [] && Alike(f, s, t) && FrameAlike(f, x, y)
    ensures Alike(f, [x] + s[1..], [y] + t[1..]) && Alike(f, s[1..], t[1..])
  {
    hide FrameAlike;
    var u, v := [x] + s[1..], [y] + t[1..];
    forall i | 0 <= i < |u| ensures FrameAlike(f, u[i], v[i]) {
      assert i > 0 ==> u[i] == s[i] && v[i] == t[i];
    }
    forall i | 0 <= i < |s[1..]| ensures FrameAlike(f, s[1..][i], t[1..][i]) {
      assert s[1..][i] == s[i + 1] && t[1..][i] == t[i + 1];
    }
  }

  /** A machine whose annotation fits runs as the family's own does. */
  lemma {:induction false} SameRuns(f: Family, a: Annotation, s: seq<Frame>, t: seq<Frame>, input: Word)
    requires Fits(f, a) && Alike(f, s, t)
    ensures AcceptsBy(f, a, s, input) <==> Accepts(f, t, input)
    decreases |input|, |s|
  {
    if s != [] {
      var x, y := s[0], t[0];
      assert FrameAlike(f, x, y);
      AlikeTop(f, s, t, Loop(x.n), Loop(y.n));
      match x {
        case Base(n) =>
          if input != [] && input[0] in f.atoms {
            SameRuns(f, a, [Loop(n)] + s[1..], [Loop(y.n)] + t[1..], input[1..]);
          } else if input != [] {
            SameWraps(f, a, s, t, input);
          }
        case Closing(c, n) =>
          if input != [] {
            SameRuns(f, a, [Loop(n)] + s[1..], [Loop(y.n)] + t[1..], input[1..]);
          }
        case Loop(n) =>
          if input != [] {
            TakesSame(f, a, input[0], n, y.n);
            SameRuns(f, a, s, t, input[1..]);
          }
          SameRuns(f, a, s[1..], t[1..], input);
      }
    }
  }

  lemma {:induction false} SameWraps(f: Family, a: Annotation, s: seq<Frame>, t: seq<Frame>, input: Word)
    requires Fits(f, a) && Alike(f, s, t) && s != [] && s[0].Base? && input != [] && input[0] !in f.atoms
    ensures AcceptsBy(f, a, s, input) <==> Accepts(f, t, input)
    decreases |input|, 0
  {
    var n, m := s[0].n, t[0].n;
    assert FrameAlike(f, s[0], t[0]);
    var j := WrapAt(f.wraps, input[0], 0);
    assert f.wraps[0..] == f.wraps;
    if j.Some? {
      var c := f.wraps[j.value].1;
      var x, y := Base(Pushed(n, DeltaBy(a, j.value))), Base(Pushed(m, f.Delta(c)));
      AlikeTop(f, s, t, Closing(c, n), Closing(c, m));
      var lower, lower' := [Closing(c, n)] + s[1..], [Closing(c, m)] + t[1..];
      AlikeOn(f, x, y, lower, lower');
      assert [x] + lower == [x, Closing(c, n)] + s[1..];
      assert [y] + lower' == Opened(f, c, m, t[1..]);
      SameRuns(f, a, [x] + lower, [y] + lower', input[1..]);
    }
  }

  lemma {:induction false} AlikeOn(f: Family, x: Frame, y: Frame, s: seq<Frame>, t: seq<Frame>)
    requires FrameAlike(f, x, y) && Alike(f, s, t)
    ensures Alike(f, [x] + s, [y] + t)
  {
    hide FrameAlike;
    var u, v := [x] + s, [y] + t;
    forall i | 0 <= i < |u| ensures FrameAlike(f, u[i], v[i]) {
      assert i > 0 ==> u[i] == s[i - 1] && v[i] == t[i - 1];
    }
  }

  // ---- from the rule as written to the machine ----

  /** The rule's left recursion made a loop, and the loop desugared. */
  method CompileFamily(f: Family) returns (g: Grammar, ghost base: string, ghost choice: string, ghost loop: string)
    requires f.tails != [] && |f.wraps| + |f.atoms| >= 2
    ensures Apart(f, base, choice, loop) && g == LoopGrammar(f, base, choice, loop) && FlatGrammar(g)
  {
    FamilyParts(f);
    var direct, counters := LeftRec.EliminateDirect(f.Source(), 0, {});
    assert f.Source()[0].alts == f.Alternatives() && direct.Ok?;
    g := Desugar.DesugarGrammar([direct.value]);
    ghost var guard :| direct.value.alts == LeftRecSteps.LoopForm(f.Alternatives(), f.rule, guard);
    base, choice, loop := Desugars(f, guard);
    LoopGrammarFlat(f, base, choice, loop);
  }

  /** The guard is dropped exactly when no closing token is a tail, and otherwise asks
      for what is owed, each wrap's push marked as the family calls for. */
  method SettleMarks(f: Family) returns (r: Settled, a: Annotation)
    requires f.atoms != [] && f.wraps != [] && f.tails != []
    ensures a == AnnotationOf(r, |f.wraps|) && Fits(f, a)
    ensures r.Dropped? <==> OwedTokens(f) == {}
  {
    hide LoopGrammar, FirstExact, Marks, Fits, AnnotationOf, Mentions, BaseAlts;
    var g;
    ghost var base, choice, loop;
    g, base, choice, loop := CompileFamily(f);
    LoopIsLast(f, base, choice, loop);
    var first, nullable := ComputeFirst(g);
    LoopFirst(f, base, choice, loop, first, nullable);
    var meets: Meets := (t, u) => false;
    var owner;
    ghost var carries;
    r, owner, carries := SettleLoop(g, |g| - 1, first, nullable, meets);
    OwnerIs(f, base, choice, loop, owner);
    CarriersAre(f, base, choice, loop, carries);
    assert SettledBy(f, base, choice, loop, first, nullable, meets, r);
    hide SettledBy;
    a := AnnotationOf(r, |f.wraps|);
    if r.Dropped? {
      DroppedFits(f, base, choice, loop, first, nullable, meets);
    } else {
      GuardedFits(f, base, choice, loop, first, nullable, meets, r);
    }
  }

  lemma {:induction false} LoopIsLast(f: Family, base: string, choice: string, loop: string)
    requires f.tails != []
    ensures var g := LoopGrammar(f, base, choice, loop); |g| >= 3 && g[|g| - 1].name == loop && g[0].name == f.rule
  {
  }

  /** From the rule as written, through elimination, desugaring and settling: the machine
      that runs on what the pass left accepts exactly the language of the rule if and
      only if at most one token is owed. */
  method SettleFamily(f: Family) returns (r: Settled, a: Annotation)
    requires f.Valid() && f.atoms != [] && f.wraps != [] && f.tails != []
    ensures a == AnnotationOf(r, |f.wraps|) && Fits(f, a)
    ensures r.Dropped? <==> OwedTokens(f) == {}
    ensures forall w :: ParsesBy(f, a, w) <==> Parses(f, w)
    ensures (forall w :: ParsesBy(f, a, w) <==> w in f.Words()) <==> AtMostOneOwed(f)
  {
    hide Fits, AcceptsBy, Accepts, AtMostOneOwed;
    r, a := SettleMarks(f);
    forall w ensures ParsesBy(f, a, w) <==> Parses(f, w) {
      SameRuns(f, a, [Base(0)], [Base(0)], w);
    }
    DebtExact(f);
  }
}
