/** The three rewrites left-recursion elimination is made of, each on one rule,
    with what each does to the language and to the size of the grammar. */
module LeftRecSteps {
  import opened Ir
  import opened Languages
  import opened Sizes

  const MAX_ELEMENTS: nat := 131072
  const MAX_EXPANSION: nat := 512

  // ---- nullable sugar ----

  /** The branch where an element that can match nothing does match: `None` when
      the element is not nullable sugar. */
  function PresentOf(e: Element): Option<Sequence> {
    match e
    case Opt(i) => Some([i])
    case Star(i, _) => Some([i, e])
    case Rep(0, Some(0), i) => None
    case Rep(0, None, i) => Some([i, e])
    case Rep(0, Some(1), i) => Some([i])
    case Rep(0, Some(n), i) => Some([i, Rep(0, Some(n - 1), i)])
    case _ => None
  }

  /** Re-enters `name` at the same input position behind nullable sugar alone. */
  predicate HiddenFrom(alt: Sequence, name: string, sawSugar: bool) {
    if alt == [] then false
    else if alt[0].Ref? then sawSugar && alt[0].name == name
    else PresentOf(alt[0]).Some? && HiddenFrom(alt[1..], name, true)
  }

  predicate IsHidden(alt: Sequence, name: string) {
    HiddenFrom(alt, name, false)
  }

  lemma OncePresent(i: Element, m: Model)
    ensures Between(ElemLang(i, m), 0, 1) == EPS + SeqLang([i], m)
  {
    BetweenUnfold(ElemLang(i, m), 1);
    SeqOne(i, m);
    BetweenNone(ElemLang(i, m));
    CatEpsRight(ElemLang(i, m));
  }

  lemma BoundedPresent(i: Element, n: nat, m: Model)
    requires n > 1
    ensures Between(ElemLang(i, m), 0, n) == EPS + SeqLang([i, Rep(0, Some(n - 1), i)], m)
  {
    BetweenUnfold(ElemLang(i, m), n);
    PairLang(i, Rep(0, Some(n - 1), i), m);
  }

  lemma UnboundedPresent(i: Element, m: Model)
    ensures ElemLang(Rep(0, None, i), m) == EPS + SeqLang([i, Rep(0, None, i)], m)
  {
    PairLang(i, Rep(0, None, i), m);
    IterUnfold(ElemLang(i, m));
    CatEpsLeft(Iter(ElemLang(i, m)));
  }

  /** Sugar that can match nothing is nothing or its present branch. */
  lemma {:induction false} PresentLang(e: Element, m: Model)
    requires PresentOf(e).Some?
    ensures ElemLang(e, m) == EPS + SeqLang(PresentOf(e).value, m)
  {
    match e
    case Opt(i) => SeqOne(i, m);
    case Star(i, _) => PairLang(i, e, m); IterUnfold(ElemLang(i, m));
    case Rep(_, None, i) => UnboundedPresent(i, m);
    case Rep(_, Some(n), i) => if n == 1 { OncePresent(i, m); } else { BoundedPresent(i, n, m); }
  }

  /** Alternative `k` of `alts`, which starts with nullable sugar, split into the
      alternative where the sugar matches and the one where it does not. */
  function SplitAlt(alts: seq<Sequence>, k: nat): seq<Sequence>
    requires k < |alts| && alts[k] != [] && PresentOf(alts[k][0]).Some?
  {
    alts[..k] + [PresentOf(alts[k][0]).value + alts[k][1..], alts[k][1..]] + alts[k + 1..]
  }

  lemma SplitAltLang(alts: seq<Sequence>, k: nat, m: Model)
    requires k < |alts| && alts[k] != [] && PresentOf(alts[k][0]).Some?
    ensures AltsLang(SplitAlt(alts, k), m) == AltsLang(alts, m)
  {
    var e, rest := alts[k][0], alts[k][1..];
    assert alts[k] == [e] + rest;
    SplitOneLang(e, rest, m);
    AltsTwo(PresentOf(e).value + rest, rest, m);
    SpliceLang(alts, k, [PresentOf(e).value + rest, rest], m);
  }

  lemma SplitOneLang(e: Element, rest: Sequence, m: Model)
    requires PresentOf(e).Some?
    ensures SeqLang([e] + rest, m) == SeqLang(PresentOf(e).value + rest, m) + SeqLang(rest, m)
  {
    PresentLang(e, m);
    BranchLang(e, PresentOf(e).value, rest, m);
  }

  lemma {:induction false} BranchLang(e: Element, present: Sequence, rest: Sequence, m: Model)
    requires ElemLang(e, m) == EPS + SeqLang(present, m)
    ensures SeqLang([e] + rest, m) == SeqLang(present + rest, m) + SeqLang(rest, m)
  {
    SeqCons(e, rest, m);
    SeqCat(present, rest, m);
    CatUnionEps(SeqLang(present, m), SeqLang(rest, m));
  }

  /** What splitting `alt` adds, floored at zero. */
  function SplitGain(alt: Sequence): nat
    requires alt != [] && PresentOf(alt[0]).Some?
  {
    var grown := 1 + SeqSize(PresentOf(alt[0]).value) + SeqSize(alt[1..]) - ElemSize(alt[0]);
    if grown < 0 then 0 else grown
  }

  lemma SplitAltSize(alts: seq<Sequence>, k: nat)
    requires k < |alts| && alts[k] != [] && PresentOf(alts[k][0]).Some?
    ensures AltsSize(SplitAlt(alts, k)) <= AltsSize(alts) + SplitGain(alts[k])
  {
    var e, rest := alts[k][0], alts[k][1..];
    SeqSizeCat(PresentOf(e).value, rest);
    AltsSizeTwo(PresentOf(e).value + rest, rest);
    SpliceSize(alts, k, [PresentOf(e).value + rest, rest]);
  }

  // ---- substitution ----

  /** One alternative of the target: itself, or one alternative per alternative of
      the source when it leads with the source. */
  function SubstituteOne(alt: Sequence, source: Production): seq<Sequence> {
    if LeadsWith(alt, source.name) then Appended(source.alts, alt[1..]) else [alt]
  }

  function Appended(alts: seq<Sequence>, tail: Sequence): (r: seq<Sequence>)
    ensures |r| == |alts|
    ensures forall k :: 0 <= k < |alts| ==> r[k] == alts[k] + tail
  {
    if alts == [] then [] else [alts[0] + tail] + Appended(alts[1..], tail)
  }

  function Substitute(alts: seq<Sequence>, source: Production): seq<Sequence> {
    if alts == [] then [] else SubstituteOne(alts[0], source) + Substitute(alts[1..], source)
  }

  lemma SubstituteOneLang(alt: Sequence, source: Production, m: Model)
    requires At(m, source.name) == AltsLang(source.alts, m)
    ensures AltsLang(SubstituteOne(alt, source), m) == SeqLang(alt, m)
  {
    if LeadsWith(alt, source.name) {
      var tail := alt[1..];
      assert alt == [alt[0]] + tail;
      SeqCons(alt[0], tail, m);
      var out := SubstituteOne(alt, source);
      forall w | w in SeqLang(alt, m) ensures w in AltsLang(out, m) {
        var u, v := CatElim(w, AltsLang(source.alts, m), SeqLang(tail, m));
        var k := AltsElim(u, source.alts, m);
        SeqCat(source.alts[k], tail, m);
        CatIntro(u, v, SeqLang(source.alts[k], m), SeqLang(tail, m));
        AltsIntro(k, w, out, m);
      }
      forall w | w in AltsLang(out, m) ensures w in SeqLang(alt, m) {
        var k := AltsElim(w, out, m);
        SeqCat(source.alts[k], tail, m);
        var u, v := CatElim(w, SeqLang(source.alts[k], m), SeqLang(tail, m));
        AltsIntro(k, u, source.alts, m);
        CatIntro(u, v, AltsLang(source.alts, m), SeqLang(tail, m));
      }
    } else {
      AltsOne(alt, m);
    }
  }

  /** Substitution keeps the language of the target in every model where the
      source's rule derives what its alternatives do. */
  lemma {:induction false} SubstituteLang(alts: seq<Sequence>, source: Production, m: Model)
    requires At(m, source.name) == AltsLang(source.alts, m)
    ensures AltsLang(Substitute(alts, source), m) == AltsLang(alts, m)
  {
    if alts != [] {
      SubstituteLang(alts[1..], source, m);
      SubstituteOneLang(alts[0], source, m);
      AltsCat(SubstituteOne(alts[0], source), Substitute(alts[1..], source), m);
      assert alts == [alts[0]] + alts[1..];
      AltsCat([alts[0]], alts[1..], m);
      AltsOne(alts[0], m);
    }
  }

  /** How many alternatives lead with `name`. */
  function Led(alts: seq<Sequence>, name: string): nat {
    if alts == [] then 0 else (if LeadsWith(alts[0], name) then 1 else 0) + Led(alts[1..], name)
  }

  function AltGain(sources: nat): nat {
    if sources == 0 then 0 else sources - 1
  }

  lemma {:induction false} SubstituteCount(alts: seq<Sequence>, source: Production)
    ensures |Substitute(alts, source)| <= |alts| + Led(alts, source.name) * AltGain(|source.alts|)
    ensures source.alts != [] ==>
      |Substitute(alts, source)| == |alts| + Led(alts, source.name) * AltGain(|source.alts|)
  {
    if alts != [] {
      SubstituteCount(alts[1..], source);
      OneMore(Led(alts[1..], source.name), AltGain(|source.alts|));
    }
  }

  /** What replacing `alt` adds, floored at zero. */
  function ReplaceGain(alt: Sequence, source: Production): nat
    requires alt != []
  {
    var grown := |source.alts| * (1 + SeqSize(alt[1..])) + SeqSize(Flatten(source.alts)) - 2 - SeqSize(alt[1..]);
    if grown < 0 then 0 else grown
  }

  function SubstituteGain(alts: seq<Sequence>, source: Production): nat {
    if alts == [] then 0
    else
      (if LeadsWith(alts[0], source.name) then ReplaceGain(alts[0], source) else 0)
      + SubstituteGain(alts[1..], source)
  }

  lemma {:induction false} AppendedSize(alts: seq<Sequence>, tail: Sequence)
    ensures AltsSize(Appended(alts, tail)) == |alts| * (1 + SeqSize(tail)) + SeqSize(Flatten(alts))
  {
    if alts != [] {
      AppendedSize(alts[1..], tail);
      SeqSizeCat(alts[0], tail);
      SeqSizeCat(alts[0], Flatten(alts[1..]));
      AltsSizeCat([alts[0] + tail], Appended(alts[1..], tail));
      AltsSizeOne(alts[0] + tail);
      OneMore(|alts[1..]|, 1 + SeqSize(tail));
    }
  }

  lemma OneMore(n: nat, d: int)
    ensures (n + 1) * d == d + n * d
  {
  }

  lemma SubstituteOneSize(alt: Sequence, source: Production)
    requires LeadsWith(alt, source.name)
    ensures AltsSize(SubstituteOne(alt, source)) <= 1 + SeqSize(alt) + ReplaceGain(alt, source)
  {
    assert SeqSize(alt) == 1 + SeqSize(alt[1..]);
    hide AltsSize, SeqSize, Appended, Flatten;
    AppendedSize(source.alts, alt[1..]);
    ghost var written := |source.alts| * (1 + SeqSize(alt[1..])) + SeqSize(Flatten(source.alts));
    assert AltsSize(SubstituteOne(alt, source)) == written;
    assert ReplaceGain(alt, source) >= written - 2 - SeqSize(alt[1..]);
  }

  lemma {:induction false} SubstituteSize(alts: seq<Sequence>, source: Production)
    ensures AltsSize(Substitute(alts, source)) <= AltsSize(alts) + SubstituteGain(alts, source)
  {
    if alts != [] {
      SubstituteSize(alts[1..], source);
      AltsSizeCat(SubstituteOne(alts[0], source), Substitute(alts[1..], source));
      if LeadsWith(alts[0], source.name) {
        SubstituteOneSize(alts[0], source);
      } else {
        AltsSizeOne(alts[0]);
      }
    }
  }

  // ---- direct left recursion ----

  /** What follows the self-reference in the alternatives that lead with `name`,
      the ones where nothing does left out. */
  function Tails(alts: seq<Sequence>, name: string): seq<Sequence> {
    if alts == [] then []
    else if LeadsWith(alts[0], name) && alts[0][1..] != [] then [alts[0][1..]] + Tails(alts[1..], name)
    else Tails(alts[1..], name)
  }

  function Seeds(alts: seq<Sequence>, name: string): seq<Sequence> {
    if alts == [] then []
    else if LeadsWith(alts[0], name) then Seeds(alts[1..], name)
    else [alts[0]] + Seeds(alts[1..], name)
  }

  /** One element for a choice: the element itself when there is only that. */
  function ChoiceOf(alts: seq<Sequence>): Element {
    if |alts| == 1 && |alts[0]| == 1 then alts[0][0] else GroupOf(alts)
  }

  function LoopForm(alts: seq<Sequence>, name: string, guard: Option<string>): seq<Sequence> {
    [[ChoiceOf(Seeds(alts, name)), Star(ChoiceOf(Tails(alts, name)), guard)]]
  }

  lemma ChoiceLang(alts: seq<Sequence>, m: Model)
    ensures ElemLang(ChoiceOf(alts), m) == AltsLang(alts, m)
  {
    if |alts| == 1 && |alts[0]| == 1 {
      assert alts == [alts[0]] && alts[0] == [alts[0][0]];
      AltsOne(alts[0], m);
      SeqOne(alts[0][0], m);
    } else {
      GroupOfLang(alts, m);
    }
  }

  lemma LoopLang(alts: seq<Sequence>, name: string, guard: Option<string>, m: Model)
    ensures AltsLang(LoopForm(alts, name, guard), m)
         == Cat(AltsLang(Seeds(alts, name), m), Iter(AltsLang(Tails(alts, name), m)))
  {
    var loop := LoopForm(alts, name, guard)[0];
    AltsOne(loop, m);
    PairLang(loop[0], loop[1], m);
    ChoiceLang(Seeds(alts, name), m);
    ChoiceLang(Tails(alts, name), m);
  }

  /** What seeds and tails derive the rule derives, when it is closed under its own
      alternatives. */
  lemma {:induction false} PartsBelow(alts: seq<Sequence>, name: string, m: Model)
    requires AltsLang(alts, m) <= At(m, name)
    ensures AltsLang(Seeds(alts, name), m) <= At(m, name)
    ensures Cat(At(m, name), AltsLang(Tails(alts, name), m)) <= At(m, name)
  {
    var x := At(m, name);
    if alts == [] {
      forall w | w in AltsLang([], m) ensures false { var i := AltsElim(w, [], m); }
      forall w | w in Cat(x, AltsLang([], m)) ensures false { var u, v := CatElim(w, x, AltsLang([], m)); }
    } else {
      assert alts == [alts[0]] + alts[1..];
      AltsCat([alts[0]], alts[1..], m);
      AltsOne(alts[0], m);
      PartsBelow(alts[1..], name, m);
      var tail := if alts[0] == [] then [] else alts[0][1..];
      if !LeadsWith(alts[0], name) {
        AltsCat([alts[0]], Seeds(alts[1..], name), m);
      } else if tail != [] {
        assert alts[0] == [alts[0][0]] + tail;
        SeqCons(alts[0][0], tail, m);
        AltsCat([tail], Tails(alts[1..], name), m);
        AltsOne(tail, m);
        CatUnion(SeqLang(tail, m), AltsLang(Tails(alts[1..], name), m), x);
      }
    }
  }

  /** What the alternatives derive, seeds and tails derive, when the rule is. */
  lemma {:induction false} PartsAbove(alts: seq<Sequence>, name: string, m: Model)
    requires AltsLang(Seeds(alts, name), m) <= At(m, name)
    requires Cat(At(m, name), AltsLang(Tails(alts, name), m)) <= At(m, name)
    ensures AltsLang(alts, m) <= At(m, name)
  {
    var x := At(m, name);
    if alts == [] {
      forall w | w in AltsLang([], m) ensures false { var i := AltsElim(w, [], m); }
    } else {
      assert alts == [alts[0]] + alts[1..];
      AltsCat([alts[0]], alts[1..], m);
      AltsOne(alts[0], m);
      if !LeadsWith(alts[0], name) {
        AltsCat([alts[0]], Seeds(alts[1..], name), m);
      } else {
        var tail := alts[0][1..];
        assert alts[0] == [alts[0][0]] + tail;
        SeqCons(alts[0][0], tail, m);
        if tail == [] {
          CatEpsRight(x);
        } else {
          AltsCat([tail], Tails(alts[1..], name), m);
          AltsOne(tail, m);
          CatUnion(SeqLang(tail, m), AltsLang(Tails(alts[1..], name), m), x);
        }
      }
      PartsAbove(alts[1..], name, m);
    }
  }

  /** The loop form derives no more than a rule closed under its alternatives. */
  lemma LoopBelow(alts: seq<Sequence>, name: string, guard: Option<string>, m: Model)
    requires AltsLang(alts, m) <= At(m, name)
    ensures AltsLang(LoopForm(alts, name, guard), m) <= At(m, name)
  {
    var x, s, t := At(m, name), AltsLang(Seeds(alts, name), m), AltsLang(Tails(alts, name), m);
    PartsBelow(alts, name, m);
    LoopLang(alts, name, guard, m);
    CatMono(s, x, Iter(t), Iter(t));
    AbsorbIter(x, t);
  }

  /** The alternatives derive no more than a rule that is its own loop form. */
  lemma LoopAbove(alts: seq<Sequence>, name: string, guard: Option<string>, m: Model)
    requires AltsLang(LoopForm(alts, name, guard), m) == At(m, name)
    ensures AltsLang(alts, m) <= At(m, name)
  {
    var x, s, t := At(m, name), AltsLang(Seeds(alts, name), m), AltsLang(Tails(alts, name), m);
    LoopLang(alts, name, guard, m);
    IterUnfold(t);
    assert x == Cat(s, Iter(t));
    CatEpsRight(s);
    CatMono(s, s, EPS, Iter(t));
    CatAssoc(s, Iter(t), t);
    CatMono(s, s, Cat(Iter(t), t), Iter(t));
    PartsAbove(alts, name, m);
  }

  /** With no tail left the rule is its seeds. */
  lemma SeedsAlone(alts: seq<Sequence>, name: string, m: Model)
    requires Tails(alts, name) == []
    ensures AltsLang(alts, m) <= At(m, name) ==> AltsLang(Seeds(alts, name), m) <= At(m, name)
    ensures AltsLang(Seeds(alts, name), m) <= At(m, name) ==> AltsLang(alts, m) <= At(m, name)
  {
    var x := At(m, name);
    forall w | w in Cat(x, AltsLang([], m)) ensures w in x {
      var u, v := CatElim(w, x, AltsLang([], m));
      var i := AltsElim(v, [], m);
    }
    if AltsLang(alts, m) <= x { PartsBelow(alts, name, m); }
    if AltsLang(Seeds(alts, name), m) <= x { PartsAbove(alts, name, m); }
  }

  lemma {:induction false} PartsSize(alts: seq<Sequence>, name: string)
    ensures AltsSize(Seeds(alts, name)) + AltsSize(Tails(alts, name)) + |Tails(alts, name)| <= AltsSize(alts)
  {
    if alts != [] {
      PartsSize(alts[1..], name);
      var s, t := Seeds(alts[1..], name), Tails(alts[1..], name);
      assert alts == [alts[0]] + alts[1..];
      assert [alts[0]][1..] == [];
      AltsSizeCat([alts[0]], s);
      if LeadsWith(alts[0], name) {
        assert alts[0] == [alts[0][0]] + alts[0][1..];
        AltsSizeCat([alts[0][1..]], t);
        assert [alts[0][1..]][1..] == [];
      }
    }
  }

  lemma ChoiceSize(alts: seq<Sequence>)
    ensures ElemSize(ChoiceOf(alts)) <= 1 + AltsSize(alts)
  {
    if |alts| == 1 && |alts[0]| == 1 {
      assert alts[1..] == [] && alts[0][1..] == [];
    } else {
      GroupOfSize(alts);
    }
  }

  /** The loop form of a left-recursive rule holds at most three more. */
  lemma LoopSize(alts: seq<Sequence>, name: string, guard: Option<string>)
    requires Tails(alts, name) != []
    ensures AltsSize(LoopForm(alts, name, guard)) <= AltsSize(alts) + 3
  {
    PartsSize(alts, name);
    ChoiceSize(Seeds(alts, name));
    ChoiceSize(Tails(alts, name));
    var loop := LoopForm(alts, name, guard)[0];
    AltsSizeOne(loop);
    PairSize(loop[0], loop[1]);
  }
}
