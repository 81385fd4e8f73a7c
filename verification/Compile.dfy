/** The passes in the order the compiler runs them, from a grammar with its names
    resolved to the rules that are emitted. */
module Compile {
  import opened Ir
  import opened Languages
  import opened Capture
  import Desugar
  import DesugarProofs
  import Factor
  import LeftRec
  import LeftRecKeeps
  import LeftRecRuns
  import Pricing
  import RepeatLoop
  import Repetitions
  import TailRepeat

  // ---- what validation leaves is plain ----

  lemma {:induction false} ElemPlain(e: Element)
    requires Repetitions.BoundsElem(e) && "" !in ElemRefs(e)
    ensures Desugar.Plain(e)
    decreases e
  {
    match e
    case Term(_) =>
    case Ref(_) =>
    case Prose(_) =>
    case Opt(i) => ElemPlain(i);
    case Star(i, _) => ElemPlain(i);
    case Plus(i) => ElemPlain(i);
    case Rep(_, _, i) => ElemPlain(i);
    case Group(alts) => GroupPlain(alts);
  }

  lemma {:induction false} GroupPlain(alts: seq<Owned>)
    requires Repetitions.BoundsGroup(alts) && "" !in GroupRefs(alts)
    ensures Desugar.PlainGroup(alts)
    decreases alts
  {
    if alts != [] {
      SeqPlain(alts[0].els);
      GroupPlain(alts[1..]);
    }
  }

  lemma {:induction false} SeqPlain(s: Sequence)
    requires Repetitions.BoundsSeq(s) && "" !in SeqRefs(s)
    ensures Desugar.PlainSeq(s)
    decreases s
  {
    if s != [] {
      ElemPlain(s[0]);
      SeqPlain(s[1..]);
    }
  }

  lemma {:induction false} AltsPlain(alts: seq<Sequence>)
    requires (forall k :: 0 <= k < |alts| ==> Repetitions.BoundsSeq(alts[k])) && "" !in AltsRefs(alts)
    ensures DesugarProofs.PlainAlts(alts)
  {
    if alts != [] {
      SeqPlain(alts[0]);
      assert forall k :: 0 <= k < |alts[1..]| ==> alts[1..][k] == alts[k + 1];
      AltsPlain(alts[1..]);
    }
  }

  /** With every reference resolved and the bounds in order nothing is left that
      desugaring could not express. */
  lemma {:induction false} ResolvedPlain(g: Grammar, names: set<string>)
    requires Resolved(g, names) && "" !in names && Repetitions.BoundsGrammar(g)
    ensures DesugarProofs.PlainGrammar(g)
  {
    forall i | 0 <= i < |g| ensures DesugarProofs.PlainAlts(g[i].alts) {
      assert AltsRefs(g[i].alts) <= names;
      AltsPlain(g[i].alts);
    }
  }

  // ---- tail repeats refer to nothing new ----

  lemma {:induction false} TerminalRefs(s: Sequence)
    requires TailRepeat.Terminals(s)
    ensures SeqRefs(s) == {}
  {
    if s != [] {
      assert s[0].Term? && forall i :: 0 <= i < |s[1..]| ==> s[1..][i] == s[i + 1];
      TerminalRefs(s[1..]);
    }
  }

  lemma {:induction false} MeaningRefs(p: Production, start: string, names: set<string>)
    requires AltsRefs(p.alts) <= names
    ensures AltsRefs(TailRepeat.Meaning(TailRepeat.Mark(p, start)).alts) <= names
  {
    var sep := TailRepeat.SeparatorOf(p, start);
    if sep.Some? {
      var prefix := p.alts[0][..|p.alts[0]| - 1];
      var turn := GroupOf([sep.value + prefix]);
      TerminalRefs(prefix);
      TerminalRefs(sep.value);
      RefsCat(sep.value, prefix);
      LeftRecKeeps.GroupOfRefs([sep.value + prefix], {});
      RefsCat(prefix, [Star(turn, None)]);
      DesugarProofs.RefsFew(Star(turn, None), turn);
      assert SeqRefs(prefix + [Star(turn, None)]) == {};
      LeftRecKeeps.RefsInAlts([prefix + [Star(turn, None)]], {});
    }
  }

  lemma {:induction false} MeaningsResolved(g: Grammar, ms: seq<TailRepeat.Marked>, start: string, names: set<string>)
    requires |ms| == |g| && (forall i :: 0 <= i < |g| ==> ms[i] == TailRepeat.Mark(g[i], start))
    requires DistinctNames(g) && Resolved(g, names)
    ensures var out := TailRepeat.Meanings(ms);
      DistinctNames(out) && NameSet(out) == NameSet(g) && Resolved(out, names)
  {
    var out := TailRepeat.Meanings(ms);
    forall i | 0 <= i < |g| ensures out[i].name == g[i].name && AltsRefs(out[i].alts) <= names {
      MeaningRefs(g[i], start, names);
    }
    LeftRec.SameNameSet(out, g);
  }

  // ---- the passes one after the other ----

  /** The emitted loops, whichever rules of that form are marked, accept for every rule
      of `g` exactly the words it derives. */
  ghost predicate RunsAs(out: Grammar, g: Grammar) {
    forall loops: set<string>, n, w {:trigger RepeatLoop.Accepted(RepeatLoop.Emitted(out, loops), n, w)} ::
      RepeatLoop.Emittable(RepeatLoop.Emitted(out, loops)) && n in NameSet(g) ==>
        (RepeatLoop.Accepted(RepeatLoop.Emitted(out, loops), n, w) <==> w in At(Language(g), n))
  }

  lemma {:induction false} MachineRuns(out: Grammar, g: Grammar)
    requires DistinctNames(out) && KeptWords(g, out)
    ensures RunsAs(out, g)
  {
    forall loops: set<string>, n, w | RepeatLoop.Emittable(RepeatLoop.Emitted(out, loops)) && n in NameSet(g)
      ensures RepeatLoop.Accepted(RepeatLoop.Emitted(out, loops), n, w) <==> w in At(Language(g), n)
    {
      RepeatLoop.AcceptedExactly(RepeatLoop.Emitted(out, loops), n, w);
    }
  }

  /** The rules of `g` come first, nothing is referred to but rules and what was missing
      before, and no word is lost. */
  ghost predicate Follows(g: Grammar, out: Grammar) {
    && DistinctNames(out) && Factor.Leads(g, out) && NameSet(g) <= NameSet(out)
    && Resolved(out, NameSet(out) + Dangling(g)) && Language(g) <= Language(out)
  }

  /** No rule is without a name and no prose is left. */
  predicate Named(g: Grammar) {
    "" !in NameSet(g) && "" !in Dangling(g)
  }

  lemma {:induction false} DanglingBefore(g: Grammar, out: Grammar)
    requires Resolved(out, NameSet(out) + Dangling(g))
    ensures Dangling(out) <= Dangling(g)
  {
    forall n | n in Dangling(out) ensures n in Dangling(g) {
      var i :| 0 <= i < |out| && n in AltsRefs(out[i].alts);
      assert AltsRefs(out[i].alts) <= NameSet(out) + Dangling(g);
    }
  }

  /** Words kept by two passes one after the other. */
  lemma {:induction false} FollowsOn(g: Grammar, a: Grammar, b: Grammar)
    requires Follows(g, a) && Follows(a, b)
    ensures Follows(g, b)
    ensures KeptWords(g, a) && KeptWords(a, b) ==> KeptWords(g, b)
    ensures NoneTaken(g, b) ==> NoneTaken(g, a) && NoneTaken(a, b)
  {
    hide Language;
    DanglingBefore(g, a);
    forall i | 0 <= i < |b| ensures AltsRefs(b[i].alts) <= NameSet(b) + Dangling(g) {
      assert AltsRefs(b[i].alts) <= NameSet(b) + Dangling(a);
    }
  }

  lemma {:induction false} EliminatedFollows(g: Grammar, out: Grammar)
    requires DistinctNames(g) && LeftRecRuns.Completes(g, out) && LeftRec.SameNames(out, g)
    requires Language(out) == Language(g)
    ensures Follows(g, out) && KeptWords(g, out) && NameSet(out) == NameSet(g)
  {
    hide Language, LeftRecRuns.Completes;
    WithinScope(g);
    LeftRecKeeps.EliminationKeepsResolved(g, out, NameSet(g) + Dangling(g));
    LeftRec.SameNameSet(out, g);
  }

  lemma {:induction false} WithinScope(g: Grammar)
    ensures Resolved(g, NameSet(g) + Dangling(g))
  {
  }

  lemma {:induction false} FactNamed(n: string)
    requires Factor.FactName(n)
    ensures n != ""
  {
  }

  /** The grammar factored and its tail repeats marked: as the marks are to be read. */
  method Restructure(g: Grammar, start: string, disjoint: (Element, Element) -> bool) returns (r: Grammar)
    requires DistinctNames(g)
    ensures Follows(g, r) && (NoneTaken(g, r) ==> KeptWords(g, r)) && (Named(g) ==> Named(r))
  {
    hide Language, Factor.FactName;
    var factored := Factor.LeftFactor(g, disjoint);
    var marked := TailRepeat.RewriteTailRepeats(factored, start);
    MeaningsResolved(factored, marked, start, NameSet(factored) + Dangling(g));
    r := TailRepeat.Meanings(marked);
    DanglingBefore(g, r);
    forall n | Factor.FactName(n) ensures n != "" {
      FactNamed(n);
    }
  }

  ghost predicate Validates(g: Grammar, blank: Repetitions.Blank) {
    && Repetitions.BoundsGrammar(g) && Repetitions.ConsumesRules(g, Language(g), blank)
    && Repetitions.ChargeGrammar(g) <= Repetitions.MAX_REPEAT_EXPANSION
  }

  method Validate(g: Grammar, blank: Repetitions.Blank) returns (r: Result<nat>)
    ensures r.Ok? <==> Validates(g, blank)
  {
    r := Repetitions.ValidateRepetitions(g, blank);
  }

  /** A validated grammar desugared. */
  method Flatten(g: Grammar, blank: Repetitions.Blank) returns (r: Result<Grammar>)
    requires DistinctNames(g) && Named(g)
    ensures r.Ok? <==> Validates(g, blank)
    ensures r.Ok? ==> DistinctNames(r.value) && Factor.Leads(g, r.value) && Language(g) <= Language(r.value)
    ensures r.Ok? && NoneTaken(g, r.value) ==> FlatGrammar(r.value) && KeptWords(g, r.value)
  {
    hide Language, FlatGrammar;
    if Repetitions.BoundsGrammar(g) {
      WithinScope(g);
      ResolvedPlain(g, NameSet(g) + Dangling(g));
    }
    r := Pricing.ValidatedDesugar(g, blank);
    if r.Ok? {
      DesugarProofs.DesugarKeepsDistinct(g);
      DesugarProofs.DesugarDerivesAll(g);
      if NoneTaken(g, r.value) {
        DesugarProofs.DesugarLeavesFlat(g);
        forall n | n in NameSet(g) ensures At(Language(r.value), n) == At(Language(g), n) {
          DesugarProofs.DesugarKeepsLanguage(g, n);
        }
      }
    }
  }

  /** Elimination, validation, factoring, tail repeats, validation again and desugaring.
      When none refuses, every rule of the grammar is there, in its place, and derives all
      it did; and unless some helper has taken the name of a missing rule, exactly that,
      the grammar is flat, and so do the loops emitted for it.  A refusal is
      elimination's, or validation's of one of the grammars on the way. */
  method CompileRules(g: Grammar, start: string, disjoint: (Element, Element) -> bool, blank: Repetitions.Blank)
    returns (r: Result<Grammar>, ghost eliminated: Grammar, ghost shaped: Grammar)
    requires DistinctNames(g) && Named(g)
    ensures r.Ok? ==> DistinctNames(r.value) && Factor.Leads(g, r.value) && Language(g) <= Language(r.value)
    ensures r.Ok? && NoneTaken(g, r.value) ==>
      FlatGrammar(r.value) && KeptWords(g, r.value) && RunsAs(r.value, g)
    ensures r.Err? ==>
      || LeftRec.Justified(g, r.rule, r.error)
      || (LeftRecRuns.Completes(g, eliminated) && !Validates(eliminated, blank))
      || (LeftRecRuns.Completes(g, eliminated) && Follows(eliminated, shaped) && !Validates(shaped, blank))
  {
    hide Language, FlatGrammar, LeftRec.Justified, RunsAs, Validates, LeftRecRuns.Completes, Follows, KeptWords;
    hide DistinctNames, Factor.Leads, NoneTaken, Named;
    eliminated, shaped := [], [];
    var first, cyclic := LeftRec.Eliminate(g);
    if first.Err? {
      return Err(first.rule, first.error), eliminated, shaped;
    }
    eliminated := first.value;
    EliminatedFollows(g, first.value);
    StillNamed(g, first.value);
    var early := Validate(first.value, blank);
    if early.Err? {
      return Err(early.rule, early.error), eliminated, shaped;
    }
    var second := Restructure(first.value, start, disjoint);
    shaped := second;
    FollowsOn(g, first.value, second);
    FollowsDistinct(first.value, second);
    r := Flatten(second, blank);
    if r.Ok? {
      Last(g, first.value, second, r.value);
    }
  }

  lemma {:induction false} StillNamed(g: Grammar, out: Grammar)
    requires Follows(g, out) && NameSet(out) == NameSet(g) && Named(g)
    ensures DistinctNames(out) && Named(out)
  {
    DanglingBefore(g, out);
  }

  lemma {:induction false} FollowsDistinct(g: Grammar, out: Grammar)
    requires Follows(g, out)
    ensures DistinctNames(out)
  {
  }

  /** What the last pass makes of the whole. */
  lemma {:induction false} Last(g: Grammar, a: Grammar, b: Grammar, out: Grammar)
    requires KeptWords(g, a) && Follows(g, a) && Follows(a, b) && (NoneTaken(a, b) ==> KeptWords(a, b)) && Follows(g, b)
    requires DistinctNames(out) && Factor.Leads(b, out) && Language(b) <= Language(out)
    requires NoneTaken(b, out) ==> FlatGrammar(out) && KeptWords(b, out)
    ensures Factor.Leads(g, out) && Language(g) <= Language(out)
    ensures NoneTaken(g, out) ==> FlatGrammar(out) && KeptWords(g, out) && RunsAs(out, g)
  {
    hide Language, FlatGrammar, RunsAs;
    DanglingBefore(g, a);
    DanglingBefore(g, b);
    LeadsNames(b, out);
    if NoneTaken(g, out) {
      MachineRuns(out, g);
    }
  }

  lemma {:induction false} LeadsNames(g: Grammar, out: Grammar)
    requires Factor.Leads(g, out)
    ensures NameSet(g) <= NameSet(out)
  {
    forall n | n in NameSet(g) ensures n in NameSet(out) {
      var i :| 0 <= i < |g| && g[i].name == n;
      assert out[i].name == n;
    }
  }
}
