/** Validating repetitions before they are desugared: bounds in order, every unbounded
    repetition consuming, and the expansion the numeric ones ask for within a limit. */
module Repetitions {
  import opened Ir
  import opened Languages

  const MAX_REPEAT_EXPANSION: nat := 8192

  /** Which terminals can match without consuming any input: the empty literal, a
      pattern that matches nothing, and two of the engine's own tokens. */
  type Blank = string -> bool

  // ---- what can match without consuming ----

  predicate MayElem(e: Element, blank: Blank, nullable: set<string>)
    decreases e
  {
    match e
    case Term(t) => blank(t)
    case Prose(_) => false
    case Ref(n) => n in nullable
    case Opt(_) => true
    case Star(_, _) => true
    case Plus(i) => MayElem(i, blank, nullable)
    case Rep(lo, _, i) => lo == 0 || MayElem(i, blank, nullable)
    case Group(alts) => MayGroup(alts, blank, nullable)
  }

  predicate MayGroup(alts: seq<Owned>, blank: Blank, nullable: set<string>)
    decreases alts
  {
    alts != [] && (MaySeq(alts[0].els, blank, nullable) || MayGroup(alts[1..], blank, nullable))
  }

  predicate MaySeq(s: Sequence, blank: Blank, nullable: set<string>)
    decreases s
  {
    s == [] || (MayElem(s[0], blank, nullable) && MaySeq(s[1..], blank, nullable))
  }

  /** A word of terminals none of which need consume. */
  ghost predicate Silent(w: Word, blank: Blank) {
    forall i :: 0 <= i < |w| ==> blank(w[i])
  }

  ghost predicate SilentIn(w: Word, l: Lang, blank: Blank) {
    w in l && Silent(w, blank)
  }

  /** The language has a word that can be matched without consuming. */
  ghost predicate CanStall(l: Lang, blank: Blank) {
    exists w :: SilentIn(w, l, blank)
  }

  lemma CatStalls(a: Lang, b: Lang, blank: Blank)
    ensures CanStall(Cat(a, b), blank) <==> CanStall(a, blank) && CanStall(b, blank)
  {
    if CanStall(Cat(a, b), blank) {
      var w :| SilentIn(w, Cat(a, b), blank);
      var u, v := CatElim(w, a, b);
      assert forall i :: 0 <= i < |u| ==> u[i] == w[i];
      assert forall i :: 0 <= i < |v| ==> v[i] == w[|u| + i];
      assert SilentIn(u, a, blank) && SilentIn(v, b, blank);
    }
    if CanStall(a, blank) && CanStall(b, blank) {
      var u :| SilentIn(u, a, blank);
      var v :| SilentIn(v, b, blank);
      CatIntro(u, v, a, b);
      assert SilentIn(u + v, Cat(a, b), blank);
    }
  }

  lemma {:induction false} PowStalls(a: Lang, n: nat, blank: Blank)
    ensures CanStall(Pow(a, n), blank) <==> n == 0 || CanStall(a, blank)
  {
    if n == 0 {
      assert SilentIn([], Pow(a, 0), blank);
    } else {
      PowStalls(a, n - 1, blank);
      CatStalls(a, Pow(a, n - 1), blank);
    }
  }

  lemma IterStalls(a: Lang, blank: Blank)
    ensures CanStall(Iter(a), blank)
  {
    assert Times([], a, 0);
    assert SilentIn([], Iter(a), blank);
  }

  lemma BetweenStalls(a: Lang, lo: nat, hi: nat, blank: Blank)
    requires lo <= hi
    ensures CanStall(Between(a, lo, hi), blank) <==> lo == 0 || CanStall(a, blank)
  {
    if CanStall(Between(a, lo, hi), blank) {
      var w :| SilentIn(w, Between(a, lo, hi), blank);
      var n: nat :| lo <= n <= hi && Times(w, a, n);
      assert SilentIn(w, Pow(a, n), blank);
      PowStalls(a, n, blank);
    }
    if lo == 0 || CanStall(a, blank) {
      PowStalls(a, lo, blank);
      var w :| SilentIn(w, Pow(a, lo), blank);
      assert Times(w, a, lo);
      assert SilentIn(w, Between(a, lo, hi), blank);
    }
  }

  /** Bounds in order throughout. */
  predicate BoundsElem(e: Element)
    decreases e
  {
    match e
    case Term(_) => true
    case Prose(_) => true
    case Ref(_) => true
    case Opt(i) => BoundsElem(i)
    case Star(i, _) => BoundsElem(i)
    case Plus(i) => BoundsElem(i)
    case Rep(lo, hi, i) => (hi.Some? ==> lo <= hi.value) && BoundsElem(i)
    case Group(alts) => BoundsGroup(alts)
  }

  predicate BoundsGroup(alts: seq<Owned>)
    decreases alts
  {
    alts == [] || (BoundsSeq(alts[0].els) && BoundsGroup(alts[1..]))
  }

  predicate BoundsSeq(s: Sequence)
    decreases s
  {
    s == [] || (BoundsElem(s[0]) && BoundsSeq(s[1..]))
  }

  predicate BoundsGrammar(g: Grammar) {
    forall i, k :: 0 <= i < |g| && 0 <= k < |g[i].alts| ==> BoundsSeq(g[i].alts[k])
  }

  /** The set says of each rule whether its language in the model can stall. */
  ghost predicate Says(nullable: set<string>, m: Model, blank: Blank) {
    forall n :: n in nullable <==> CanStall(At(m, n), blank)
  }

  lemma TermStalls(t: string, m: Model, blank: Blank)
    ensures CanStall(ElemLang(Term(t), m), blank) <==> blank(t)
  {
    assert blank(t) ==> SilentIn([t], ElemLang(Term(t), m), blank);
    if CanStall(ElemLang(Term(t), m), blank) {
      var w :| SilentIn(w, ElemLang(Term(t), m), blank);
      assert blank(w[0]);
    }
  }

  lemma {:induction false} ElemStalls(e: Element, m: Model, blank: Blank, nullable: set<string>)
    requires BoundsElem(e) && Says(nullable, m, blank)
    ensures MayElem(e, blank, nullable) <==> CanStall(ElemLang(e, m), blank)
    decreases e
  {
    match e
    case Term(t) => TermStalls(t, m, blank);
    case Prose(_) =>
    case Ref(n) =>
    case Opt(i) => assert SilentIn([], ElemLang(e, m), blank);
    case Star(i, _) => IterStalls(ElemLang(i, m), blank);
    case Plus(i) =>
      ElemStalls(i, m, blank, nullable);
      IterStalls(ElemLang(i, m), blank);
      CatStalls(ElemLang(i, m), Iter(ElemLang(i, m)), blank);
    case Rep(lo, None, i) =>
      ElemStalls(i, m, blank, nullable);
      PowStalls(ElemLang(i, m), lo, blank);
      IterStalls(ElemLang(i, m), blank);
      CatStalls(Pow(ElemLang(i, m), lo), Iter(ElemLang(i, m)), blank);
    case Rep(lo, Some(hi), i) =>
      ElemStalls(i, m, blank, nullable);
      BetweenStalls(ElemLang(i, m), lo, hi, blank);
    case Group(alts) => GroupStalls(alts, m, blank, nullable);
  }

  lemma UnionStalls(a: Lang, b: Lang, blank: Blank)
    ensures CanStall(a + b, blank) <==> CanStall(a, blank) || CanStall(b, blank)
  {
    if CanStall(a, blank) {
      var w :| SilentIn(w, a, blank);
      assert SilentIn(w, a + b, blank);
    }
    if CanStall(b, blank) {
      var w :| SilentIn(w, b, blank);
      assert SilentIn(w, a + b, blank);
    }
    if CanStall(a + b, blank) {
      var w :| SilentIn(w, a + b, blank);
      assert SilentIn(w, a, blank) || SilentIn(w, b, blank);
    }
  }

  lemma {:induction false} GroupStalls(alts: seq<Owned>, m: Model, blank: Blank, nullable: set<string>)
    requires BoundsGroup(alts) && Says(nullable, m, blank)
    ensures MayGroup(alts, blank, nullable) <==> CanStall(GroupLang(alts, m), blank)
    decreases alts
  {
    if alts != [] {
      SeqStalls(alts[0].els, m, blank, nullable);
      GroupStalls(alts[1..], m, blank, nullable);
      UnionStalls(SeqLang(alts[0].els, m), GroupLang(alts[1..], m), blank);
    }
  }

  lemma {:induction false} SeqStalls(s: Sequence, m: Model, blank: Blank, nullable: set<string>)
    requires BoundsSeq(s) && Says(nullable, m, blank)
    ensures MaySeq(s, blank, nullable) <==> CanStall(SeqLang(s, m), blank)
    decreases s
  {
    if s == [] {
      assert SilentIn([], SeqLang(s, m), blank);
    } else {
      ElemStalls(s[0], m, blank, nullable);
      SeqStalls(s[1..], m, blank, nullable);
      CatStalls(ElemLang(s[0], m), SeqLang(s[1..], m), blank);
    }
  }

  // ---- the rules that can match without consuming ----

  /** Only rules outside the set are kept from stalling. */
  ghost function Steady(nullable: set<string>, blank: Blank): Model {
    iset n: string, w: Word | Silent(w, blank) ==> n in nullable :: (n, w)
  }

  ghost predicate StallClosed(g: Grammar, blank: Blank, nullable: set<string>) {
    forall i, k :: 0 <= i < |g| && 0 <= k < |g[i].alts| && MaySeq(g[i].alts[k], blank, nullable) ==>
      g[i].name in nullable
  }

  lemma SteadySays(nullable: set<string>, blank: Blank)
    ensures Says(nullable, Steady(nullable, blank), blank)
  {
    forall n ensures n in nullable <==> CanStall(At(Steady(nullable, blank), n), blank) {
      if n in nullable {
        assert SilentIn([], At(Steady(nullable, blank), n), blank);
      }
    }
  }

  /** A closed set holds every rule that can stall. */
  lemma ClosedHoldsAll(g: Grammar, blank: Blank, nullable: set<string>, n: string)
    requires BoundsGrammar(g) && StallClosed(g, blank, nullable) && CanStall(At(Language(g), n), blank)
    ensures n in nullable
  {
    var m := Steady(nullable, blank);
    forall q, w | (q, w) in Apply(g, m) ensures (q, w) in m {
      if Silent(w, blank) {
        var i :| ProducedBy(q, w, g, i, m);
        var k := AltsElim(w, g[i].alts, m);
        SteadySays(nullable, blank);
        SeqStalls(g[i].alts[k], m, blank, nullable);
        assert SilentIn(w, SeqLang(g[i].alts[k], m), blank);
      }
    }
    LanguageLeast(g, m);
    var w :| SilentIn(w, At(Language(g), n), blank);
    assert (n, w) in Language(g);
  }

  ghost predicate AllStall(g: Grammar, blank: Blank, nullable: set<string>) {
    forall n :: n in nullable ==> CanStall(At(Language(g), n), blank)
  }

  lemma {:induction false} ElemStallsAbove(e: Element, m: Model, blank: Blank, nullable: set<string>)
    requires BoundsElem(e) && MayElem(e, blank, nullable) && forall n :: n in nullable ==> CanStall(At(m, n), blank)
    ensures CanStall(ElemLang(e, m), blank)
    decreases e
  {
    match e
    case Term(t) => assert SilentIn([t], ElemLang(e, m), blank);
    case Ref(n) =>
    case Opt(i) => assert SilentIn([], ElemLang(e, m), blank);
    case Star(i, _) => IterStalls(ElemLang(i, m), blank);
    case Plus(i) =>
      ElemStallsAbove(i, m, blank, nullable);
      IterStalls(ElemLang(i, m), blank);
      CatStalls(ElemLang(i, m), Iter(ElemLang(i, m)), blank);
    case Rep(lo, None, i) =>
      if lo > 0 { ElemStallsAbove(i, m, blank, nullable); }
      PowStalls(ElemLang(i, m), lo, blank);
      IterStalls(ElemLang(i, m), blank);
      CatStalls(Pow(ElemLang(i, m), lo), Iter(ElemLang(i, m)), blank);
    case Rep(lo, Some(hi), i) =>
      if lo > 0 { ElemStallsAbove(i, m, blank, nullable); }
      BetweenStalls(ElemLang(i, m), lo, hi, blank);
    case Group(alts) => GroupStallsAbove(alts, m, blank, nullable);
  }

  lemma {:induction false} GroupStallsAbove(alts: seq<Owned>, m: Model, blank: Blank, nullable: set<string>)
    requires BoundsGroup(alts) && MayGroup(alts, blank, nullable)
    requires forall n :: n in nullable ==> CanStall(At(m, n), blank)
    ensures CanStall(GroupLang(alts, m), blank)
    decreases alts
  {
    UnionStalls(SeqLang(alts[0].els, m), GroupLang(alts[1..], m), blank);
    if MaySeq(alts[0].els, blank, nullable) {
      SeqStallsAbove(alts[0].els, m, blank, nullable);
    } else {
      GroupStallsAbove(alts[1..], m, blank, nullable);
    }
  }

  lemma {:induction false} SeqStallsAbove(s: Sequence, m: Model, blank: Blank, nullable: set<string>)
    requires BoundsSeq(s) && MaySeq(s, blank, nullable) && forall n :: n in nullable ==> CanStall(At(m, n), blank)
    ensures CanStall(SeqLang(s, m), blank)
    decreases s
  {
    if s == [] {
      assert SilentIn([], SeqLang(s, m), blank);
    } else {
      ElemStallsAbove(s[0], m, blank, nullable);
      SeqStallsAbove(s[1..], m, blank, nullable);
      CatStalls(ElemLang(s[0], m), SeqLang(s[1..], m), blank);
    }
  }

  /** A rule added for an alternative that may stall does stall. */
  lemma AddedStalls(g: Grammar, i: nat, k: nat, blank: Blank, nullable: set<string>)
    requires BoundsGrammar(g) && AllStall(g, blank, nullable)
    requires i < |g| && k < |g[i].alts| && MaySeq(g[i].alts[k], blank, nullable)
    ensures CanStall(At(Language(g), g[i].name), blank)
  {
    SeqStallsAbove(g[i].alts[k], Language(g), blank, nullable);
    var w :| SilentIn(w, SeqLang(g[i].alts[k], Language(g)), blank);
    AltsIntro(k, w, g[i].alts, Language(g));
    assert ProducedBy(g[i].name, w, g, i, Language(g));
    LanguageFixed(g);
    assert SilentIn(w, At(Language(g), g[i].name), blank);
  }

  method AnyMay(p: Production, blank: Blank, nullable: set<string>) returns (any: bool)
    ensures any <==> exists k :: 0 <= k < |p.alts| && MaySeq(p.alts[k], blank, nullable)
  {
    for k := 0 to |p.alts|
      invariant forall j :: 0 <= j < k ==> !MaySeq(p.alts[j], blank, nullable)
    {
      if MaySeq(p.alts[k], blank, nullable) {
        return true;
      }
    }
    return false;
  }

  lemma SmallerSet(a: set<string>, b: set<string>, n: string)
    requires n in b && n !in a
    ensures |b - (a + {n})| < |b - a|
  {
    assert b - a == (b - (a + {n})) + {n};
  }

  ghost predicate RuleClosed(p: Production, blank: Blank, nullable: set<string>) {
    forall k :: 0 <= k < |p.alts| && MaySeq(p.alts[k], blank, nullable) ==> p.name in nullable
  }

  /** The rules that can match without consuming: exactly those with a word that can. */
  method NonConsumingRules(g: Grammar, blank: Blank) returns (nullable: set<string>)
    requires BoundsGrammar(g)
    ensures Says(nullable, Language(g), blank)
  {
    nullable := {};
    ghost var names := NameSet(g);
    var changed := true;
    while changed
      invariant nullable <= names && AllStall(g, blank, nullable)
      invariant !changed ==> RulesClosed(g, |g|, blank, nullable)
      decreases |names - nullable|, changed
    {
      nullable, changed := NonConsumingPass(g, blank, nullable);
    }
    forall i, k | 0 <= i < |g| && 0 <= k < |g[i].alts| && MaySeq(g[i].alts[k], blank, nullable)
      ensures g[i].name in nullable
    {
      assert RuleClosed(g[i], blank, nullable);
    }
    forall n | CanStall(At(Language(g), n), blank) ensures n in nullable {
      ClosedHoldsAll(g, blank, nullable, n);
    }
  }

  /** One rule: nothing to do when it is known already. */
  method ConsiderRule(g: Grammar, i: nat, blank: Blank, nullable0: set<string>) returns (nullable: set<string>,
      grew: bool)
    requires BoundsGrammar(g) && nullable0 <= NameSet(g) && AllStall(g, blank, nullable0) && i < |g|
    ensures nullable <= NameSet(g) && AllStall(g, blank, nullable)
    ensures grew ==> |NameSet(g) - nullable| < |NameSet(g) - nullable0|
    ensures !grew ==> nullable == nullable0 && RuleClosed(g[i], blank, nullable)
  {
    nullable, grew := nullable0, false;
    if g[i].name !in nullable {
      var any := AnyMay(g[i], blank, nullable);
      if any {
        ghost var k :| 0 <= k < |g[i].alts| && MaySeq(g[i].alts[k], blank, nullable);
        AddedStalls(g, i, k, blank, nullable);
        SmallerSet(nullable, NameSet(g), g[i].name);
        nullable := nullable + {g[i].name};
        grew := true;
      }
    }
  }

  method NonConsumingPass(g: Grammar, blank: Blank, nullable0: set<string>) returns (nullable: set<string>,
      changed: bool)
    requires BoundsGrammar(g) && nullable0 <= NameSet(g) && AllStall(g, blank, nullable0)
    ensures nullable <= NameSet(g) && AllStall(g, blank, nullable)
    ensures changed ==> |NameSet(g) - nullable| < |NameSet(g) - nullable0|
    ensures !changed ==> nullable == nullable0 && RulesClosed(g, |g|, blank, nullable)
  {
    nullable, changed := nullable0, false;
    hide AllStall, RuleClosed, BoundsGrammar, NameSet;
    for i := 0 to |g|
      invariant nullable <= NameSet(g) && AllStall(g, blank, nullable)
      invariant changed ==> |NameSet(g) - nullable| < |NameSet(g) - nullable0|
      invariant !changed ==> nullable == nullable0 && RulesClosed(g, i, blank, nullable)
    {
      var grew;
      nullable, grew := ConsiderRule(g, i, blank, nullable);
      changed := changed || grew;
    }
  }

  ghost predicate RulesClosed(g: Grammar, n: nat, blank: Blank, nullable: set<string>)
    requires n <= |g|
  {
    forall j :: 0 <= j < n ==> RuleClosed(g[j], blank, nullable)
  }

  // ---- the price of a repetition ----

  /** Helpers minted for anything but a numeric repetition, helpers minted for numeric
      ones, and the copies those ask for. */
  datatype Tally = Tally(plain: nat, helpers: nat, copies: nat) {
    function Plus(o: Tally): Tally {
      Tally(plain + o.plain, helpers + o.helpers, copies + o.copies)
    }
  }

  const NOTHING: Tally := Tally(0, 0, 0)

  /** The helper for the copies, and the loop or the levels of options after them. */
  function RepHelpers(lo: nat, hi: Option<nat>): nat {
    match hi
    case None => 2
    case Some(max) => 1 + 2 * (if lo <= max then max - lo else 0)
  }

  function TallyElem(e: Element): Tally
    decreases e
  {
    match e
    case Term(_) => NOTHING
    case Prose(_) => NOTHING
    case Ref(_) => NOTHING
    case Opt(i) => Tally(1, 0, 0).Plus(TallyElem(i))
    case Star(i, _) => Tally(1, 0, 0).Plus(TallyElem(i))
    case Plus(i) => Tally(2, 0, 0).Plus(TallyElem(i))
    case Rep(lo, hi, i) => Tally(0, RepHelpers(lo, hi), lo).Plus(TallyElem(i))
    case Group(alts) => Tally(1, 0, 0).Plus(TallyGroup(alts))
  }

  function TallyGroup(alts: seq<Owned>): Tally
    decreases alts
  {
    if alts == [] then NOTHING else TallySeq(alts[0].els).Plus(TallyGroup(alts[1..]))
  }

  function TallySeq(s: Sequence): Tally
    decreases s
  {
    if s == [] then NOTHING else TallyElem(s[0]).Plus(TallySeq(s[1..]))
  }

  function TallyAlts(alts: seq<Sequence>): Tally {
    if alts == [] then NOTHING else TallySeq(alts[0]).Plus(TallyAlts(alts[1..]))
  }

  function TallyGrammar(g: Grammar): Tally {
    if g == [] then NOTHING else TallyAlts(g[0].alts).Plus(TallyGrammar(g[1..]))
  }

  /** What the validator charges for a piece of grammar. */
  function ChargeElem(e: Element): nat
    decreases e
  {
    match e
    case Term(_) => 0
    case Prose(_) => 0
    case Ref(_) => 0
    case Opt(i) => ChargeElem(i)
    case Star(i, _) => ChargeElem(i)
    case Plus(i) => ChargeElem(i)
    case Rep(lo, hi, i) => RepHelpers(lo, hi) + lo + ChargeElem(i)
    case Group(alts) => ChargeGroup(alts)
  }

  function ChargeGroup(alts: seq<Owned>): nat
    decreases alts
  {
    if alts == [] then 0 else ChargeSeq(alts[0].els) + ChargeGroup(alts[1..])
  }

  function ChargeSeq(s: Sequence): nat
    decreases s
  {
    if s == [] then 0 else ChargeElem(s[0]) + ChargeSeq(s[1..])
  }

  function ChargeAlts(alts: seq<Sequence>): nat {
    if alts == [] then 0 else ChargeSeq(alts[0]) + ChargeAlts(alts[1..])
  }

  function ChargeGrammar(g: Grammar): nat {
    if g == [] then 0 else ChargeAlts(g[0].alts) + ChargeGrammar(g[1..])
  }

  // ---- validation ----

  /** No unbounded repetition has an item that can stall. */
  ghost predicate ConsumesElem(e: Element, m: Model, blank: Blank)
    decreases e
  {
    match e
    case Term(_) => true
    case Prose(_) => true
    case Ref(_) => true
    case Opt(i) => ConsumesElem(i, m, blank)
    case Star(i, _) => !CanStall(ElemLang(i, m), blank) && ConsumesElem(i, m, blank)
    case Plus(i) => !CanStall(ElemLang(i, m), blank) && ConsumesElem(i, m, blank)
    case Rep(_, hi, i) => (hi.None? ==> !CanStall(ElemLang(i, m), blank)) && ConsumesElem(i, m, blank)
    case Group(alts) => ConsumesGroup(alts, m, blank)
  }

  ghost predicate ConsumesGroup(alts: seq<Owned>, m: Model, blank: Blank)
    decreases alts
  {
    alts == [] || (ConsumesSeq(alts[0].els, m, blank) && ConsumesGroup(alts[1..], m, blank))
  }

  ghost predicate ConsumesSeq(s: Sequence, m: Model, blank: Blank)
    decreases s
  {
    s == [] || (ConsumesElem(s[0], m, blank) && ConsumesSeq(s[1..], m, blank))
  }

  ghost predicate ConsumesAlts(alts: seq<Sequence>, m: Model, blank: Blank) {
    alts == [] || (ConsumesSeq(alts[0], m, blank) && ConsumesAlts(alts[1..], m, blank))
  }

  ghost predicate ConsumesRules(rules: Grammar, m: Model, blank: Blank) {
    rules == [] || (ConsumesAlts(rules[0].alts, m, blank) && ConsumesRules(rules[1..], m, blank))
  }

  /** One numeric repetition against what is left of the limit. */
  method ChargeRep(lo: nat, hi: Option<nat>, expansion: nat) returns (r: Option<nat>)
    requires expansion <= MAX_REPEAT_EXPANSION
    ensures var cost := RepHelpers(lo, hi) + lo;
      r == if expansion + cost <= MAX_REPEAT_EXPANSION then Some(expansion + cost) else None
  {
    var remaining := MAX_REPEAT_EXPANSION - expansion;
    var cost := 1;
    var tooLarge := cost > remaining || lo > remaining - cost;
    if !tooLarge {
      cost := cost + lo;
      match hi
      case None =>
        tooLarge := cost >= remaining;
        cost := cost + 1;
      case Some(max) =>
        var optional := if lo <= max then max - lo else 0;
        tooLarge := optional > (remaining - cost) / 2;
        if !tooLarge {
          cost := cost + 2 * optional;
        }
    }
    r := if tooLarge then None else Some(expansion + cost);
  }

  /** The same with rules known to stall or not. */
  predicate StableElem(e: Element, blank: Blank, nullable: set<string>)
    decreases e
  {
    match e
    case Term(_) => true
    case Prose(_) => true
    case Ref(_) => true
    case Opt(i) => StableElem(i, blank, nullable)
    case Star(i, _) => !MayElem(i, blank, nullable) && StableElem(i, blank, nullable)
    case Plus(i) => !MayElem(i, blank, nullable) && StableElem(i, blank, nullable)
    case Rep(_, hi, i) => (hi.None? ==> !MayElem(i, blank, nullable)) && StableElem(i, blank, nullable)
    case Group(alts) => StableGroup(alts, blank, nullable)
  }

  predicate StableGroup(alts: seq<Owned>, blank: Blank, nullable: set<string>)
    decreases alts
  {
    alts == [] || (StableSeq(alts[0].els, blank, nullable) && StableGroup(alts[1..], blank, nullable))
  }

  predicate StableSeq(s: Sequence, blank: Blank, nullable: set<string>)
    decreases s
  {
    s == [] || (StableElem(s[0], blank, nullable) && StableSeq(s[1..], blank, nullable))
  }

  lemma {:induction false} StableIsConsumes(e: Element, m: Model, blank: Blank, nullable: set<string>)
    requires BoundsElem(e) && Says(nullable, m, blank)
    ensures StableElem(e, blank, nullable) <==> ConsumesElem(e, m, blank)
    decreases e
  {
    match e
    case Term(_) =>
    case Prose(_) =>
    case Ref(_) =>
    case Opt(i) => StableIsConsumes(i, m, blank, nullable);
    case Star(i, _) =>
      ElemStalls(i, m, blank, nullable);
      StableIsConsumes(i, m, blank, nullable);
    case Plus(i) =>
      ElemStalls(i, m, blank, nullable);
      StableIsConsumes(i, m, blank, nullable);
    case Rep(_, _, i) =>
      ElemStalls(i, m, blank, nullable);
      StableIsConsumes(i, m, blank, nullable);
    case Group(alts) => StableGroupConsumes(alts, m, blank, nullable);
  }

  lemma {:induction false} StableGroupConsumes(alts: seq<Owned>, m: Model, blank: Blank, nullable: set<string>)
    requires BoundsGroup(alts) && Says(nullable, m, blank)
    ensures StableGroup(alts, blank, nullable) <==> ConsumesGroup(alts, m, blank)
    decreases alts
  {
    if alts != [] {
      StableSeqConsumes(alts[0].els, m, blank, nullable);
      StableGroupConsumes(alts[1..], m, blank, nullable);
    }
  }

  lemma {:induction false} StableSeqConsumes(s: Sequence, m: Model, blank: Blank, nullable: set<string>)
    requires BoundsSeq(s) && Says(nullable, m, blank)
    ensures StableSeq(s, blank, nullable) <==> ConsumesSeq(s, m, blank)
    decreases s
  {
    if s != [] {
      StableIsConsumes(s[0], m, blank, nullable);
      StableSeqConsumes(s[1..], m, blank, nullable);
    }
  }

  /** What a walk that began with `expansion` charged must report. */
  ghost predicate Walked(r: Result<nat>, stable: bool, charge: nat, expansion: nat) {
    && (r.Ok? <==> stable && expansion + charge <= MAX_REPEAT_EXPANSION)
    && (r.Ok? ==> r.value == expansion + charge)
  }

  predicate IsSugar(e: Element) {
    e.Opt? || e.Star? || e.Plus? || e.Rep?
  }

  predicate Unbounded(e: Element) {
    e.Star? || e.Plus? || (e.Rep? && e.max.None?)
  }

  function OwnCharge(e: Element): nat {
    if e.Rep? then RepHelpers(e.min, e.max) + e.min else 0
  }

  lemma {:induction false} SugarStable(e: Element, blank: Blank, nullable: set<string>)
    requires IsSugar(e)
    ensures StableElem(e, blank, nullable) <==>
      (Unbounded(e) ==> !MayElem(e.inner, blank, nullable)) && StableElem(e.inner, blank, nullable)
    ensures ChargeElem(e) == OwnCharge(e) + ChargeElem(e.inner)
  {
  }

  lemma {:induction false} LeafStable(e: Element, blank: Blank, nullable: set<string>)
    requires !IsSugar(e) && !e.Group?
    ensures StableElem(e, blank, nullable) && ChargeElem(e) == 0
  {
  }

  method WalkElem(e: Element, rule: string, blank: Blank, nullable: set<string>,
      expansion: nat) returns (r: Result<nat>)
    requires expansion <= MAX_REPEAT_EXPANSION
    ensures Walked(r, StableElem(e, blank, nullable), ChargeElem(e), expansion)
    decreases e, 1
  {
    if e.Group? {
      r := WalkGroup(e.alts, rule, blank, nullable, expansion);
    } else if IsSugar(e) {
      SugarStable(e, blank, nullable);
      r := WalkSugar(e, rule, blank, nullable, expansion);
    } else {
      LeafStable(e, blank, nullable);
      r := Ok(expansion);
    }
  }

  method WalkSugar(e: Element, rule: string, blank: Blank, nullable: set<string>,
      expansion: nat) returns (r: Result<nat>)
    requires IsSugar(e) && expansion <= MAX_REPEAT_EXPANSION
    ensures Walked(r, (Unbounded(e) ==> !MayElem(e.inner, blank, nullable)) && StableElem(e.inner, blank, nullable),
                   OwnCharge(e) + ChargeElem(e.inner), expansion)
    decreases e, 0
  {
    if Unbounded(e) && MayElem(e.inner, blank, nullable) {
      return Err(rule, NonConsumingLoop);
    }
    var charged := Some(expansion);
    if e.Rep? {
      charged := ChargeRep(e.min, e.max, expansion);
    }
    if charged.None? {
      return Err(rule, RepeatLimit);
    }
    r := WalkElem(e.inner, rule, blank, nullable, charged.value);
  }

  method WalkSeq(s: Sequence, rule: string, blank: Blank, nullable: set<string>,
      expansion: nat) returns (r: Result<nat>)
    requires expansion <= MAX_REPEAT_EXPANSION
    ensures Walked(r, StableSeq(s, blank, nullable), ChargeSeq(s), expansion)
    decreases s
  {
    if s == [] {
      return Ok(expansion);
    }
    var head := WalkElem(s[0], rule, blank, nullable, expansion);
    r := head;
    if head.Ok? {
      r := WalkSeq(s[1..], rule, blank, nullable, head.value);
    }
  }

  method WalkGroup(alts: seq<Owned>, rule: string, blank: Blank, nullable: set<string>,
      expansion: nat) returns (r: Result<nat>)
    requires expansion <= MAX_REPEAT_EXPANSION
    ensures Walked(r, StableGroup(alts, blank, nullable), ChargeGroup(alts), expansion)
    decreases alts
  {
    if alts == [] {
      return Ok(expansion);
    }
    var head := WalkSeq(alts[0].els, rule, blank, nullable, expansion);
    r := head;
    if head.Ok? {
      r := WalkGroup(alts[1..], rule, blank, nullable, head.value);
    }
  }

  predicate StableAlts(alts: seq<Sequence>, blank: Blank, nullable: set<string>) {
    alts == [] || (StableSeq(alts[0], blank, nullable) && StableAlts(alts[1..], blank, nullable))
  }

  predicate StableRules(rules: Grammar, blank: Blank, nullable: set<string>) {
    rules == [] || (StableAlts(rules[0].alts, blank, nullable) && StableRules(rules[1..], blank, nullable))
  }

  lemma {:induction false} StableAltsConsume(alts: seq<Sequence>, m: Model, blank: Blank, nullable: set<string>)
    requires Says(nullable, m, blank) && forall k :: 0 <= k < |alts| ==> BoundsSeq(alts[k])
    ensures StableAlts(alts, blank, nullable) <==> ConsumesAlts(alts, m, blank)
  {
    if alts != [] {
      StableSeqConsumes(alts[0], m, blank, nullable);
      StableAltsConsume(alts[1..], m, blank, nullable);
    }
  }

  lemma {:induction false} StableRulesConsume(rules: Grammar, m: Model, blank: Blank, nullable: set<string>)
    requires Says(nullable, m, blank) && BoundsGrammar(rules)
    ensures StableRules(rules, blank, nullable) <==> ConsumesRules(rules, m, blank)
  {
    if rules != [] {
      StableAltsConsume(rules[0].alts, m, blank, nullable);
      StableRulesConsume(rules[1..], m, blank, nullable);
    }
  }

  method WalkAlts(alts: seq<Sequence>, rule: string, blank: Blank, nullable: set<string>,
      expansion: nat) returns (r: Result<nat>)
    requires expansion <= MAX_REPEAT_EXPANSION
    ensures Walked(r, StableAlts(alts, blank, nullable), ChargeAlts(alts), expansion)
  {
    if alts == [] {
      return Ok(expansion);
    }
    var head := WalkSeq(alts[0], rule, blank, nullable, expansion);
    r := head;
    if head.Ok? {
      r := WalkAlts(alts[1..], rule, blank, nullable, head.value);
    }
  }

  method WalkRules(rules: Grammar, blank: Blank, nullable: set<string>, expansion: nat) returns (r: Result<nat>)
    requires expansion <= MAX_REPEAT_EXPANSION
    ensures Walked(r, StableRules(rules, blank, nullable), ChargeGrammar(rules), expansion)
  {
    if rules == [] {
      return Ok(expansion);
    }
    var head := WalkAlts(rules[0].alts, rules[0].name, blank, nullable, expansion);
    r := head;
    if head.Ok? {
      r := WalkRules(rules[1..], blank, nullable, head.value);
    }
  }

  method FindBadBounds(g: Grammar) returns (rule: Option<string>)
    ensures rule.None? <==> BoundsGrammar(g)
  {
    for i := 0 to |g|
      invariant forall j, k :: 0 <= j < i && 0 <= k < |g[j].alts| ==> BoundsSeq(g[j].alts[k])
    {
      for k := 0 to |g[i].alts|
        invariant forall j :: 0 <= j < k ==> BoundsSeq(g[i].alts[j])
      {
        if !BoundsSeq(g[i].alts[k]) {
          return Some(g[i].name);
        }
      }
    }
    return None;
  }

  /** Accepts exactly the grammars whose bounds are in order, whose unbounded
      repetitions all consume, and whose numeric ones fit the limit; the value is what
      they were charged. */
  method ValidateRepetitions(g: Grammar, blank: Blank) returns (r: Result<nat>)
    ensures r.Ok? <==>
      BoundsGrammar(g) && ConsumesRules(g, Language(g), blank) && ChargeGrammar(g) <= MAX_REPEAT_EXPANSION
    ensures r.Ok? ==> r.value == ChargeGrammar(g)
  {
    var bad := FindBadBounds(g);
    if bad.Some? {
      return Err(bad.value, BadBounds);
    }
    var nullable := NonConsumingRules(g, blank);
    r := WalkRules(g, blank, nullable, 0);
    StableRulesConsume(g, Language(g), blank, nullable);
  }

  // ---- what validation buys ----

  function Consuming(w: Word, blank: Blank): nat {
    if w == [] then 0 else (if blank(w[0]) then 0 else 1) + Consuming(w[1..], blank)
  }

  lemma {:induction false} ConsumingCat(u: Word, v: Word, blank: Blank)
    ensures Consuming(u + v, blank) == Consuming(u, blank) + Consuming(v, blank)
  {
    if u == [] {
      assert u + v == v;
    } else {
      assert (u + v)[0] == u[0] && (u + v)[1..] == u[1..] + v;
      ConsumingCat(u[1..], v, blank);
    }
  }

  lemma {:induction false} ConsumingSilent(w: Word, blank: Blank)
    ensures Consuming(w, blank) == 0 <==> Silent(w, blank)
    ensures Consuming(w, blank) <= |w|
  {
    if w != [] {
      ConsumingSilent(w[1..], blank);
      assert Silent(w, blank) <==> blank(w[0]) && Silent(w[1..], blank) by {
        assert forall i :: 1 <= i < |w| ==> w[i] == w[1..][i - 1];
        assert forall i :: 0 <= i < |w| - 1 ==> w[1..][i] == w[i + 1];
      }
    }
  }

  /** A consuming item repeated to make a word was repeated no more often than the word
      has terminals that consume. */
  lemma {:induction false} IterationsBounded(l: Lang, blank: Blank, n: nat, w: Word)
    requires !CanStall(l, blank) && Times(w, l, n)
    ensures n <= Consuming(w, blank) <= |w|
    decreases n
  {
    ConsumingSilent(w, blank);
    if n > 0 {
      var u, v := PowElim(w, l, n);
      assert Times(v, l, n - 1);
      IterationsBounded(l, blank, n - 1, v);
      ConsumingCat(u, v, blank);
      ConsumingSilent(u, blank);
      assert !SilentIn(u, l, blank);
    }
  }
}
