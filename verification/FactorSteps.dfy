/** Left factoring on the alternatives of one rule: what a run of alternatives is,
    what a step makes of it, and why the words stay the same. */
module FactorSteps {
  import opened Ir
  import opened Languages
  import opened Sizes

  // ---- structural equality ----

  /** The comparison factoring recognises a shared prefix by: prose equals nothing. */
  predicate ElemEqual(a: Element, b: Element)
    decreases a
  {
    match a
    case Term(x) => b.Term? && b.tok == x
    case Prose(_) => false
    case Ref(x) => b.Ref? && b.name == x
    case Opt(i) => b.Opt? && ElemEqual(i, b.inner)
    case Star(i, guard) => b.Star? && b.guard == guard && ElemEqual(i, b.inner)
    case Plus(i) => b.Plus? && ElemEqual(i, b.inner)
    case Rep(lo, hi, i) => b.Rep? && b.min == lo && b.max == hi && ElemEqual(i, b.inner)
    case Group(alts) => b.Group? && GroupEqual(alts, b.alts)
  }

  predicate SeqEqual(a: Sequence, b: Sequence)
    decreases a
  {
    if a == [] || b == [] then a == b
    else ElemEqual(a[0], b[0]) && SeqEqual(a[1..], b[1..])
  }

  predicate GroupEqual(a: seq<Owned>, b: seq<Owned>)
    decreases a
  {
    if a == [] || b == [] then a == b
    else SeqEqual(a[0].els, b[0].els) && GroupEqual(a[1..], b[1..])
  }

  lemma {:induction false} ElemEqualSame(a: Element, b: Element)
    requires ElemEqual(a, b)
    ensures a == b
    decreases a
  {
    match a
    case Opt(i) => ElemEqualSame(i, b.inner);
    case Star(i, _) => ElemEqualSame(i, b.inner);
    case Plus(i) => ElemEqualSame(i, b.inner);
    case Rep(_, _, i) => ElemEqualSame(i, b.inner);
    case Group(alts) => GroupEqualSame(alts, b.alts);
    case _ =>
  }

  lemma {:induction false} SeqEqualSame(a: Sequence, b: Sequence)
    requires SeqEqual(a, b)
    ensures a == b
    decreases a
  {
    if a != [] && b != [] {
      ElemEqualSame(a[0], b[0]);
      SeqEqualSame(a[1..], b[1..]);
      assert a == [a[0]] + a[1..] && b == [b[0]] + b[1..];
    }
  }

  lemma {:induction false} GroupEqualSame(a: seq<Owned>, b: seq<Owned>)
    requires GroupEqual(a, b)
    ensures a == b
    decreases a
  {
    if a != [] && b != [] {
      SeqEqualSame(a[0].els, b[0].els);
      GroupEqualSame(a[1..], b[1..]);
      assert a == [a[0]] + a[1..] && b == [b[0]] + b[1..];
    }
  }

  // ---- views ----

  /** Through single-alternative groups that are a whole alternative. */
  function Unwrap(alt: Sequence): Sequence
    decreases SeqSize(alt)
  {
    if |alt| == 1 && alt[0].Group? && |alt[0].alts| == 1 then
      UnwrapShrinks(alt);
      Unwrap(alt[0].alts[0].els)
    else alt
  }

  lemma UnwrapShrinks(alt: Sequence)
    requires |alt| == 1 && alt[0].Group? && |alt[0].alts| == 1
    ensures SeqSize(alt) == 2 + SeqSize(alt[0].alts[0].els)
  {
    var alts := alt[0].alts;
    assert alt[1..] == [] && alts[1..] == [];
    assert GroupSize(alts) == 1 + SeqSize(alts[0].els) + GroupSize(alts[1..]);
  }

  lemma {:induction false} UnwrapSize(alt: Sequence)
    ensures SeqSize(Unwrap(alt)) <= SeqSize(alt)
    decreases SeqSize(alt)
  {
    if |alt| == 1 && alt[0].Group? && |alt[0].alts| == 1 {
      UnwrapShrinks(alt);
      UnwrapSize(alt[0].alts[0].els);
    }
  }

  lemma {:induction false} UnwrapLang(alt: Sequence, m: Model)
    ensures SeqLang(Unwrap(alt), m) == SeqLang(alt, m)
    decreases SeqSize(alt)
  {
    if |alt| == 1 && alt[0].Group? && |alt[0].alts| == 1 {
      UnwrapShrinks(alt);
      UnwrapLang(alt[0].alts[0].els, m);
      WrappedLang(alt, m);
    }
  }

  lemma WrappedLang(alt: Sequence, m: Model)
    requires |alt| == 1 && alt[0].Group? && |alt[0].alts| == 1
    ensures SeqLang(alt, m) == SeqLang(alt[0].alts[0].els, m)
  {
    var inner := alt[0].alts[0].els;
    SeqOne(alt[0], m);
    assert alt == [alt[0]];
    GroupPlain(alt[0].alts, m);
    assert Unowned(alt[0].alts) == [inner];
    AltsOne(inner, m);
  }

  lemma {:induction false} UnwrapRefs(alt: Sequence)
    ensures SeqRefs(Unwrap(alt)) == SeqRefs(alt)
    decreases SeqSize(alt)
  {
    if |alt| == 1 && alt[0].Group? && |alt[0].alts| == 1 {
      UnwrapShrinks(alt);
      UnwrapRefs(alt[0].alts[0].els);
      assert alt[1..] == [] && alt[0].alts[1..] == [];
      assert GroupRefs(alt[0].alts) == SeqRefs(alt[0].alts[0].els) + GroupRefs([]);
    }
  }

  /** `v` with a leading reference to a single-alternative rule replaced by that
      rule's body, when the body begins as `head` does. */
  function InlineHead(v: Sequence, head: Element, g: Grammar): Option<Sequence>
    requires v != []
  {
    if !v[0].Ref? || Find(g, v[0].name).None? || |Find(g, v[0].name).value.alts| != 1 then None
    else
      var body := Unwrap(Find(g, v[0].name).value.alts[0]);
      if body == [] || !ElemEqual(body[0], head) then None else Some(body + v[1..])
  }

  /** A model in which every single-alternative rule of `g` derives its body. */
  ghost predicate Inlines(m: Model, g: Grammar) {
    forall i :: 0 <= i < |g| && |g[i].alts| == 1 ==> At(m, g[i].name) == SeqLang(g[i].alts[0], m)
  }

  lemma InlineLang(v: Sequence, head: Element, g: Grammar, m: Model)
    requires v != [] && InlineHead(v, head, g).Some? && Inlines(m, g)
    ensures SeqLang(InlineHead(v, head, g).value, m) == SeqLang(v, m)
  {
    var p := Find(g, v[0].name).value;
    var i :| 0 <= i < |g| && g[i] == p;
    var body := Unwrap(p.alts[0]);
    UnwrapLang(p.alts[0], m);
    assert v == [v[0]] + v[1..];
    SeqCons(v[0], v[1..], m);
    SeqCat(body, v[1..], m);
  }

  /** What member `j` of a run is seen as: its alternative unwrapped, or that with
      its head inlined. */
  ghost predicate SeenAs(alt: Sequence, view: Sequence, head: Element, g: Grammar) {
    var v := Unwrap(alt);
    v != [] && (view == v || InlineHead(v, head, g) == Some(view))
  }

  lemma SeenLang(alt: Sequence, view: Sequence, head: Element, g: Grammar, m: Model)
    requires SeenAs(alt, view, head, g) && Inlines(m, g)
    ensures SeqLang(view, m) == SeqLang(alt, m)
  {
    UnwrapLang(alt, m);
    if view != Unwrap(alt) {
      InlineLang(Unwrap(alt), head, g, m);
    }
  }

  // ---- one step ----

  /** A run: members in order, the first seen as it stands, all beginning alike. */
  datatype Run = Run(members: seq<nat>, views: seq<Sequence>)

  ghost predicate RunOf(run: Run, alts: seq<Sequence>, head: Element, g: Grammar) {
    && |run.members| == |run.views| >= 2
    && (forall k :: 0 <= k < |run.members| ==> run.members[k] < |alts|)
    && (forall k, l :: 0 <= k < l < |run.members| ==> run.members[k] < run.members[l])
    && (forall k :: 0 <= k < |run.views| ==> SeenAs(alts[run.members[k]], run.views[k], head, g))
    && run.views[0] == Unwrap(alts[run.members[0]])
  }

  ghost predicate Shares(run: Run, plen: nat) {
    run.views != [] && plen <= |run.views[0]| &&
    forall k :: 0 <= k < |run.views| ==> plen <= |run.views[k]| && run.views[k][..plen] == run.views[0][..plen]
  }

  /** The tails hold what follows the prefix in the members, and nothing else. */
  ghost predicate TailsOf(tails: seq<Sequence>, run: Run, plen: nat)
    requires Shares(run, plen)
  {
    && (forall k :: 0 <= k < |run.views| ==> run.views[k][plen..] in tails)
    && (forall t :: t in tails ==> exists k :: 0 <= k < |run.views| && run.views[k][plen..] == t)
  }

  /** The prefix, and the tail helper unless there is one tail only. */
  function Factored(prefix: Sequence, tails: seq<Sequence>, helper: string): Sequence {
    if |tails| == 1 then prefix + tails[0] else prefix + [Ref(helper)]
  }

  function Replacement(wrapped: bool, factored: Sequence): Sequence {
    if wrapped then [GroupOf([factored])] else factored
  }

  /** `alts` from `k` on, with the first member replaced and the others dropped. */
  function Rebuilt(alts: seq<Sequence>, members: seq<nat>, replacement: Sequence, k: nat): seq<Sequence>
    requires k <= |alts| && members != []
    decreases |alts| - k
  {
    if k == |alts| then []
    else if k == members[0] then [replacement] + Rebuilt(alts, members, replacement, k + 1)
    else if k in members then Rebuilt(alts, members, replacement, k + 1)
    else [alts[k]] + Rebuilt(alts, members, replacement, k + 1)
  }

  lemma ReplacementLang(wrapped: bool, factored: Sequence, m: Model)
    ensures SeqLang(Replacement(wrapped, factored), m) == SeqLang(factored, m)
  {
    if wrapped {
      SeqOne(GroupOf([factored]), m);
      GroupOfLang([factored], m);
      AltsOne(factored, m);
    }
  }

  lemma OneTailLang(prefix: Sequence, tails: seq<Sequence>, m: Model)
    requires |tails| == 1
    ensures SeqLang(prefix + tails[0], m) == Cat(SeqLang(prefix, m), AltsLang(tails, m))
  {
    hide SeqLang, AltsLang, Cat;
    SeqCat(prefix, tails[0], m);
    assert tails == [tails[0]];
    AltsOne(tails[0], m);
  }

  lemma SnocLang(prefix: Sequence, e: Element, m: Model)
    ensures SeqLang(prefix + [e], m) == Cat(SeqLang(prefix, m), ElemLang(e, m))
  {
    hide SeqLang, ElemLang, Cat;
    SeqCat(prefix, [e], m);
    SeqOne(e, m);
  }

  lemma FactoredLang(prefix: Sequence, tails: seq<Sequence>, helper: string, m: Model)
    requires |tails| != 1 ==> At(m, helper) == AltsLang(tails, m)
    ensures SeqLang(Factored(prefix, tails, helper), m) == Cat(SeqLang(prefix, m), AltsLang(tails, m))
  {
    if |tails| == 1 {
      OneTailLang(prefix, tails, m);
    } else {
      SnocLang(prefix, Ref(helper), m);
    }
  }

  ghost predicate FromMember(w: Word, alts: seq<Sequence>, members: seq<nat>, k: nat, m: Model) {
    exists j :: k <= j < |alts| && j in members && w in SeqLang(alts[j], m)
  }

  ghost predicate FromOther(w: Word, alts: seq<Sequence>, members: seq<nat>, k: nat, m: Model) {
    exists j :: k <= j < |alts| && j !in members && w in SeqLang(alts[j], m)
  }

  lemma {:induction false} RebuiltLang(alts: seq<Sequence>, members: seq<nat>, replacement: Sequence, k: nat, m: Model,
      w: Word)
    requires k <= |alts| && members != []
    ensures w in AltsLang(Rebuilt(alts, members, replacement, k), m) <==>
      FromOther(w, alts, members, k, m) || (k <= members[0] < |alts| && w in SeqLang(replacement, m))
    decreases |alts| - k
  {
    if k == |alts| {
      if w in AltsLang([], m) { var i := AltsElim(w, [], m); }
    } else {
      RebuiltLang(alts, members, replacement, k + 1, m, w);
      var rest := Rebuilt(alts, members, replacement, k + 1);
      AltsCat([replacement], rest, m);
      AltsOne(replacement, m);
      AltsCat([alts[k]], rest, m);
      AltsOne(alts[k], m);
      OtherStep(alts, members, k, m, w);
    }
  }

  lemma OtherStep(alts: seq<Sequence>, members: seq<nat>, k: nat, m: Model, w: Word)
    requires k < |alts|
    ensures FromOther(w, alts, members, k, m) <==>
      (k !in members && w in SeqLang(alts[k], m)) || FromOther(w, alts, members, k + 1, m)
  {
    if FromOther(w, alts, members, k, m) {
      var j :| k <= j < |alts| && j !in members && w in SeqLang(alts[j], m);
    }
    if k !in members && w in SeqLang(alts[k], m) {
      assert FromOther(w, alts, members, k, m);
    }
    if FromOther(w, alts, members, k + 1, m) {
      var j :| k + 1 <= j < |alts| && j !in members && w in SeqLang(alts[j], m);
      assert FromOther(w, alts, members, k, m);
    }
  }

  lemma RunLangFrom(run: Run, alts: seq<Sequence>, head: Element, g: Grammar, plen: nat, tails: seq<Sequence>, m: Model,
      w: Word)
    requires RunOf(run, alts, head, g) && Shares(run, plen) && TailsOf(tails, run, plen) && Inlines(m, g)
    requires w in Cat(SeqLang(run.views[0][..plen], m), AltsLang(tails, m))
    ensures FromMember(w, alts, run.members, 0, m)
  {
    var prefix := run.views[0][..plen];
    var u, v := CatElim(w, SeqLang(prefix, m), AltsLang(tails, m));
    var i := AltsElim(v, tails, m);
    assert tails[i] in tails;
    var k :| 0 <= k < |run.views| && run.views[k][plen..] == tails[i];
    MemberLang(run, alts, head, g, plen, k, m);
    CatIntro(u, v, SeqLang(prefix, m), SeqLang(tails[i], m));
    assert run.members[k] in run.members;
  }

  lemma MemberLang(run: Run, alts: seq<Sequence>, head: Element, g: Grammar, plen: nat, k: nat, m: Model)
    requires RunOf(run, alts, head, g) && Shares(run, plen) && Inlines(m, g) && k < |run.views|
    ensures SeqLang(alts[run.members[k]], m) == Cat(SeqLang(run.views[0][..plen], m), SeqLang(run.views[k][plen..], m))
  {
    SeenLang(alts[run.members[k]], run.views[k], head, g, m);
    assert run.views[k] == run.views[k][..plen] + run.views[k][plen..];
    SeqCat(run.views[k][..plen], run.views[k][plen..], m);
  }

  /** The members together match the prefix followed by a tail. */
  lemma RunLang(run: Run, alts: seq<Sequence>, head: Element, g: Grammar, plen: nat, tails: seq<Sequence>, m: Model,
      w: Word)
    requires RunOf(run, alts, head, g) && Shares(run, plen) && TailsOf(tails, run, plen) && Inlines(m, g)
    ensures w in Cat(SeqLang(run.views[0][..plen], m), AltsLang(tails, m)) <==> FromMember(w, alts, run.members, 0, m)
  {
    var prefix := run.views[0][..plen];
    if w in Cat(SeqLang(prefix, m), AltsLang(tails, m)) {
      RunLangFrom(run, alts, head, g, plen, tails, m, w);
    }
    if FromMember(w, alts, run.members, 0, m) {
      var j :| 0 <= j < |alts| && j in run.members && w in SeqLang(alts[j], m);
      var k :| 0 <= k < |run.members| && run.members[k] == j;
      MemberLang(run, alts, head, g, plen, k, m);
      var tail := run.views[k][plen..];
      var u, v := CatElim(w, SeqLang(prefix, m), SeqLang(tail, m));
      assert tail in tails;
      var i :| 0 <= i < |tails| && tails[i] == tail;
      AltsIntro(i, v, tails, m);
      CatIntro(u, v, SeqLang(prefix, m), AltsLang(tails, m));
    }
  }

  /** What a step leaves of a rule's alternatives and the helper it queues. */
  datatype Step = Step(alts: seq<Sequence>, helper: Option<Production>)

  /** The step keeps the words in every model that inlines as `g` does and gives the
      helper what its tails match. */
  ghost predicate KeepsWords(alts: seq<Sequence>, step: Step, g: Grammar) {
    forall m: Model ::
      Inlines(m, g) && (step.helper.Some? ==> At(m, step.helper.value.name) == AltsLang(step.helper.value.alts, m))
      ==> AltsLang(step.alts, m) == AltsLang(alts, m)
  }

  lemma StepKeepsWords(run: Run, alts: seq<Sequence>, head: Element, g: Grammar, plen: nat, tails: seq<Sequence>,
                       helper: string, wrapped: bool, m: Model)
    requires RunOf(run, alts, head, g) && Shares(run, plen) && TailsOf(tails, run, plen) && Inlines(m, g)
    requires |tails| != 1 ==> At(m, helper) == AltsLang(tails, m)
    ensures var factored := Factored(run.views[0][..plen], tails, helper);
      AltsLang(Rebuilt(alts, run.members, Replacement(wrapped, factored), 0), m) == AltsLang(alts, m)
  {
    var factored := Factored(run.views[0][..plen], tails, helper);
    var replacement := Replacement(wrapped, factored);
    ReplacementLang(wrapped, factored, m);
    FactoredLang(run.views[0][..plen], tails, helper, m);
    forall w ensures w in AltsLang(Rebuilt(alts, run.members, replacement, 0), m) <==> w in AltsLang(alts, m) {
      RebuiltLang(alts, run.members, replacement, 0, m, w);
      RunLang(run, alts, head, g, plen, tails, m, w);
      AllOrOther(alts, run.members, m, w);
    }
  }

  lemma AllOrOther(alts: seq<Sequence>, members: seq<nat>, m: Model, w: Word)
    ensures w in AltsLang(alts, m) <==> FromMember(w, alts, members, 0, m) || FromOther(w, alts, members, 0, m)
  {
    if w in AltsLang(alts, m) {
      var i := AltsElim(w, alts, m);
      assert i in members ==> FromMember(w, alts, members, 0, m);
      assert i !in members ==> FromOther(w, alts, members, 0, m);
    }
    if FromMember(w, alts, members, 0, m) {
      var j :| 0 <= j < |alts| && j in members && w in SeqLang(alts[j], m);
      AltsIntro(j, w, alts, m);
    }
    if FromOther(w, alts, members, 0, m) {
      var j :| 0 <= j < |alts| && j !in members && w in SeqLang(alts[j], m);
      AltsIntro(j, w, alts, m);
    }
  }
}
