/** Factoring can take the name of a rule that some reference misses: the grammar
    S = "a" "a" "a" "a" "a" "x" / "a" "a" "a" "a" "a" "y" / S$fact0, whose first two
    alternatives share more than the lookahead, so that their tails become a rule of that
    name. */
module FactorCapture {
  import opened Ir
  import opened Languages
  import opened FreshNames
  import opened Capture
  import opened FactorSteps
  import opened Factor
  import Span

  const TAKEN: string := "S$fact0"

  function Ahead(): Sequence {
    [Term("a"), Term("a"), Term("a"), Term("a"), Term("a")]
  }

  function Alternatives(): seq<Sequence> {
    [Ahead() + [Term("x")], Ahead() + [Term("y")], [Ref(TAKEN)]]
  }

  function Missing(): Grammar {
    [Production("S", Alternatives())]
  }

  // ---- the run ----

  lemma {:induction false} NothingWrapped(k: nat)
    requires k < 3
    ensures Unwrap(Alternatives()[k]) == Alternatives()[k]
  {
  }

  /** The alternatives are seen as they stand: nothing can be inlined. */
  lemma {:induction false} SeenAlone(run: Run, head: Element, k: nat)
    requires RunOf(run, Alternatives(), head, Missing()) && k < |run.members|
    ensures run.members[k] < 3 && run.views[k] == Alternatives()[run.members[k]]
  {
    NothingWrapped(run.members[k]);
    assert SeenAs(Alternatives()[run.members[k]], run.views[k], head, Missing());
  }

  lemma {:induction false} SameStart(run: Run, plen: nat, k: nat, j: nat)
    requires Shares(run, plen) && k < |run.views| && j < plen
    ensures run.views[k][j] == run.views[0][j]
  {
    assert run.views[k][..plen][j] == run.views[0][..plen][j];
  }

  lemma {:induction false} NoLess(members: seq<nat>, k: nat)
    requires (forall i, j :: 0 <= i < j < |members| ==> members[i] < members[j]) && k < |members|
    ensures members[k] >= k
  {
    if k > 0 {
      NoLess(members, k - 1);
    }
  }

  /** A run that begins at the first alternative is of the first two, which share five
      elements. */
  lemma {:induction false} TheRun(run: Run, plen: nat)
    requires RunOf(run, Alternatives(), Term("a"), Missing()) && run.members[0] == 0
    requires plen >= 1 && Shares(run, plen) && !AllEqualAt(run.views, plen)
    ensures run.views == [Alternatives()[0], Alternatives()[1]] && plen == 5
  {
    SeenAlone(run, Term("a"), 0);
    forall k | 0 <= k < |run.members| ensures k < 2 && run.views[k] == Alternatives()[run.members[k]] {
      SeenAlone(run, Term("a"), k);
      SameStart(run, plen, k, 0);
      NoLess(run.members, k);
    }
    SeenAlone(run, Term("a"), 1);
    SameStart(run, plen, 1, 0);
    NoLess(run.members, 1);
    var last := |run.members| - 1;
    SeenAlone(run, Term("a"), last);
    SameStart(run, plen, last, 0);
    NoLess(run.members, last);
    assert |run.members| == 2 && run.members[1] == 1;
    assert run.views == [Alternatives()[0], Alternatives()[1]];
    SharedFive(run, plen);
  }

  lemma {:induction false} SharedFive(run: Run, plen: nat)
    requires run.views == [Alternatives()[0], Alternatives()[1]] && Shares(run, plen) && !AllEqualAt(run.views, plen)
    ensures plen == 5
  {
    var u, v := Alternatives()[0], Alternatives()[1];
    assert u[5] == Term("x") && v[5] == Term("y");
    assert forall j :: 0 <= j < 5 ==> u[j] == Term("a") && v[j] == Term("a");
    forall j: nat | j < plen ensures u[j] == v[j] {
      SameStart(run, plen, 1, j);
    }
  }

  lemma {:induction false} LongPrefix()
    ensures Span.Clamp(Span.SeqSpan(Ahead(), Missing(), {}), Span.LOOKAHEAD).None?
  {
    var s := Ahead();
    assert s[1..] == [Term("a"), Term("a"), Term("a"), Term("a")];
    assert s[1..][1..] == [Term("a"), Term("a"), Term("a")];
    assert s[1..][1..][1..] == [Term("a"), Term("a")];
    assert s[1..][1..][1..][1..] == [Term("a")];
    assert s[1..][1..][1..][1..][1..] == [];
    assert Span.SeqSpan(s, Missing(), {}) == Some(5);
  }

  lemma {:induction false} TooLong(run: Run, plen: nat)
    requires RunOf(run, Alternatives(), Term("a"), Missing()) && run.members[0] == 0
    requires plen >= 1 && Shares(run, plen) && !AllEqualAt(run.views, plen)
    ensures Span.Clamp(Span.SeqSpan(run.views[0][..plen], Missing(), {}), Span.LOOKAHEAD).None?
  {
    TheRun(run, plen);
    LongPrefix();
    assert run.views[0][..5] == Ahead();
  }

  // ---- what the step makes of it ----

  lemma {:induction false} NotDecided(disjoint: (Element, Element) -> bool)
    ensures !Decided(Alternatives(), Missing(), disjoint)
  {
    if Decided(Alternatives(), Missing(), disjoint) {
      NothingWrapped(0);
      NothingWrapped(1);
      var run := Gathered(Alternatives(), 0, Missing(), disjoint);
      assert NeighboursDecided(Alternatives(), 0, Missing(), disjoint);
      assert Alike(Unwrap(Alternatives()[0]), Unwrap(Alternatives()[1]), Missing());
      var plen :| PrefixWithin(run, Alternatives(), 0, plen, Missing());
      TooLong(run, plen);
    }
  }

  /** The only run with a long prefix is the one that begins at the first alternative. */
  lemma {:induction false} BeginsFirst(run: Run, i: nat, plen: nat)
    requires i < 2 && RunOf(run, Alternatives(), Unwrap(Alternatives()[i])[0], Missing()) && run.members[0] == i
    requires plen >= 1 && Shares(run, plen)
    ensures i == 0
  {
    var head := Unwrap(Alternatives()[i])[0];
    SeenAlone(run, head, 0);
    SeenAlone(run, head, 1);
    SameStart(run, plen, 1, 0);
    assert run.members[0] < run.members[1];
  }

  lemma {:induction false} HelperTakes(step: Step, disjoint: (Element, Element) -> bool)
    requires TakenFrom("S", Alternatives(), {"S"}, Missing(), disjoint, step)
    ensures step.helper.Some? && step.helper.value.name == TAKEN && [Term("x")] in step.helper.value.alts
  {
    hide Decimal, Alternatives, TailsOf, Gathered, AllEqualAt;
    var i: nat, plen: nat :| TakenAt("S", Alternatives(), {"S"}, Missing(), disjoint, step, i, plen);
    var run := Gathered(Alternatives(), i, Missing(), disjoint);
    BeyondRun(disjoint, i, plen);
    TheName();
    if step.helper.Some? {
      TheTails(step.helper.value.alts, run);
    } else {
      var tail :| TailsOf([tail], run, plen);
      TheTails([tail], run);
    }
  }

  lemma {:induction false} BeyondRun(disjoint: (Element, Element) -> bool, i: nat, plen: nat)
    requires SharesBeyondAt(Alternatives(), i, plen, Missing(), disjoint)
    ensures var run := Gathered(Alternatives(), i, Missing(), disjoint);
      run.views == [Alternatives()[0], Alternatives()[1]] && plen == 5
  {
    hide Gathered, Alternatives;
    var run := Gathered(Alternatives(), i, Missing(), disjoint);
    NothingWrapped(0);
    FirstIsA();
    BeginsFirst(run, i, plen);
    TheRun(run, plen);
  }

  lemma {:induction false} FirstIsA()
    ensures |Alternatives()| == 3 && Alternatives()[0] != [] && Alternatives()[0][0] == Term("a")
  {
  }

  lemma {:induction false} TheName()
    ensures FreshName("S" + "$fact", "", 0, {"S"}) == TAKEN
  {
    assert Decimal(0) == "0" && Numbered("S" + "$fact", 0, "") == TAKEN;
    assert |TAKEN| != |"S"|;
  }

  lemma {:induction false} TheTails(tails: seq<Sequence>, run: Run)
    requires run.views == [Alternatives()[0], Alternatives()[1]] && Shares(run, 5) && TailsOf(tails, run, 5)
    ensures [Term("x")] in tails && |tails| != 1
  {
    assert run.views[0][5..] == [Term("x")] && run.views[1][5..] == [Term("y")];
    assert [Term("x")] != [Term("y")];
  }

  /** One step, and S derives "x", which it did not. */
  method FactoringTakes(disjoint: (Element, Element) -> bool) returns (step: Option<Step>)
    ensures step.Some? && !NoneTaken(Missing(), Stepped(Missing(), 0, step.value))
    ensures ("S", ["x"]) !in Language(Missing())
    ensures ("S", ["x"]) in Language(Stepped(Missing(), 0, step.value))
  {
    InScope();
    step := FactorOnce("S", Alternatives(), {"S"}, Missing(), disjoint);
    NotDecided(disjoint);
    HelperTakes(step.value, disjoint);
    NotBefore();
    After(step.value);
  }

  lemma {:induction false} InScope()
    ensures AltsRefs(Alternatives()) <= Scope(Missing(), {"S"}) && Resolved(Missing(), Scope(Missing(), {"S"}))
    ensures TAKEN in Dangling(Missing())
  {
    var alts := Alternatives();
    var none: seq<Sequence> := [];
    assert alts[1..][1..] == [[Ref(TAKEN)]] && [[Ref(TAKEN)]][1..] == none && [Ref(TAKEN)][1..] == [];
    assert SeqRefs(alts[2]) == {TAKEN};
    assert AltsRefs([alts[2]]) == {TAKEN};
    assert TAKEN in AltsRefs(alts);
    assert Missing()[0].alts == alts && NameSet(Missing()) == {"S"} && |TAKEN| != |"S"|;
    forall n | n in AltsRefs(alts) ensures n in Scope(Missing(), {"S"}) {
      assert n in AltsRefs(Missing()[0].alts);
      assert n !in NameSet(Missing()) ==> n in Dangling(Missing());
    }
  }

  lemma {:induction false} NotBefore()
    ensures ("S", ["x"]) !in Language(Missing())
  {
    hide SeqLang, ElemLang, Language;
    var m := Language(Missing());
    LanguageFixed(Missing());
    InScope();
    if ("S", ["x"]) in m {
      var i :| ProducedBy("S", ["x"], Missing(), i, m);
      var k := AltsElim(["x"], Alternatives(), m);
      NoneDerives(m, k);
      NoRule(Missing(), TAKEN, ["x"]);
    }
  }

  lemma {:induction false} NoneDerives(m: Model, k: nat)
    requires k < 3 && ["x"] in SeqLang(Alternatives()[k], m)
    ensures (TAKEN, ["x"]) in m
  {
    if k == 2 {
      SeqOne(Ref(TAKEN), m);
    } else {
      var alt := Alternatives()[k];
      assert alt == [Term("a")] + alt[1..];
      TermStarts("a", alt[1..], ["x"], m);
    }
  }

  lemma {:induction false} TermStarts(t: string, rest: Sequence, w: Word, m: Model)
    requires w in SeqLang([Term(t)] + rest, m)
    ensures w != [] && w[0] == t
  {
    SeqCons(Term(t), rest, m);
    var u, v := CatElim(w, ElemLang(Term(t), m), SeqLang(rest, m));
    assert u == [t];
  }

  lemma {:induction false} After(step: Step)
    requires step.helper.Some? && step.helper.value.name == TAKEN && [Term("x")] in step.helper.value.alts
    requires KeepsWords(Alternatives(), step, Missing())
    ensures ("S", ["x"]) in Language(Stepped(Missing(), 0, step)) && !NoneTaken(Missing(), Stepped(Missing(), 0, step))
  {
    var r := Stepped(Missing(), 0, step);
    var m := Language(r);
    assert r[0].name == "S" && r[0].alts == step.alts && r[1] == step.helper.value && |r| == 2;
    InScope();
    assert r[1].name in NameSet(r);
    RuleLanguage(r, 0);
    RuleLanguage(r, 1);
    var j :| 0 <= j < |step.helper.value.alts| && step.helper.value.alts[j] == [Term("x")];
    SeqOne(Term("x"), m);
    AltsIntro(j, ["x"], step.helper.value.alts, m);
    SeqOne(Ref(TAKEN), m);
    AltsIntro(2, ["x"], Alternatives(), m);
    assert Inlines(m, Missing());
  }
}
