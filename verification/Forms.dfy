/** Sentential forms: what a desugared grammar, whose sequences hold only terminals
    and references, derives step by step. */
module Forms {
  import opened Ir
  import opened Languages

  /** Rule `q`'s alternative `k` put in the place of the reference at `i`. */
  ghost predicate StepAt(g: Grammar, a: Sequence, b: Sequence, i: int, q: int, k: int) {
    && 0 <= i < |a| && 0 <= q < |g| && 0 <= k < |g[q].alts|
    && a[i] == Ref(g[q].name)
    && b == a[..i] + g[q].alts[k] + a[i + 1..]
  }

  ghost predicate Step(g: Grammar, a: Sequence, b: Sequence) {
    exists i, q, k :: StepAt(g, a, b, i, q, k)
  }

  /** A derivation: forms, each a step from the one before. */
  ghost predicate Derivation(g: Grammar, fs: seq<Sequence>) {
    fs != [] && forall i, j :: 0 <= i < j < |fs| && j == i + 1 ==> Step(g, fs[i], fs[j])
  }

  ghost predicate Derives(g: Grammar, fs: seq<Sequence>, a: Sequence, b: Sequence) {
    Derivation(g, fs) && fs[0] == a && fs[|fs| - 1] == b
  }

  /** `a` derives `b` in some number of steps. */
  ghost predicate Reaches(g: Grammar, a: Sequence, b: Sequence) {
    exists fs :: Derives(g, fs, a, b)
  }

  lemma ReachesRefl(g: Grammar, a: Sequence)
    ensures Reaches(g, a, a)
  {
    assert Derives(g, [a], a, a);
  }

  lemma ReachesTrans(g: Grammar, a: Sequence, b: Sequence, c: Sequence)
    requires Reaches(g, a, b) && Reaches(g, b, c)
    ensures Reaches(g, a, c)
  {
    var p :| Derives(g, p, a, b);
    var q :| Derives(g, q, b, c);
    assert Derives(g, p + q[1..], a, c);
  }

  lemma StepReaches(g: Grammar, a: Sequence, b: Sequence)
    requires Step(g, a, b)
    ensures Reaches(g, a, b)
  {
    assert Derives(g, [a, b], a, b);
  }

  /** The first step of a derivation and the rest of it. */
  lemma DerivesSplit(g: Grammar, fs: seq<Sequence>, a: Sequence, b: Sequence)
    requires Derives(g, fs, a, b) && |fs| > 1
    ensures Step(g, a, fs[1]) && Derives(g, fs[1..], fs[1], b)
  {
  }

  lemma StepInside(g: Grammar, u: Sequence, a: Sequence, b: Sequence, v: Sequence)
    requires Step(g, a, b)
    ensures Step(g, u + a + v, u + b + v)
  {
    var i, q, k :| StepAt(g, a, b, i, q, k);
    var x := u + a + v;
    assert x[..|u| + i] == u + a[..i];
    assert x[|u| + i + 1..] == a[i + 1..] + v;
    assert u + b + v == (u + a[..i]) + g[q].alts[k] + (a[i + 1..] + v);
    assert StepAt(g, x, u + b + v, |u| + i, q, k);
  }

  lemma {:induction false} DerivesInside(g: Grammar, u: Sequence, fs: seq<Sequence>, a: Sequence, b: Sequence,
      v: Sequence)
    requires Derives(g, fs, a, b)
    ensures Reaches(g, u + a + v, u + b + v)
    decreases |fs|
  {
    if |fs| == 1 {
      ReachesRefl(g, u + a + v);
    } else {
      DerivesSplit(g, fs, a, b);
      StepInside(g, u, a, fs[1], v);
      StepReaches(g, u + a + v, u + fs[1] + v);
      DerivesInside(g, u, fs[1..], fs[1], b, v);
      ReachesTrans(g, u + a + v, u + fs[1] + v, u + b + v);
    }
  }

  /** A derivation goes through unchanged inside a larger form. */
  lemma ReachesInside(g: Grammar, u: Sequence, a: Sequence, b: Sequence, v: Sequence)
    requires Reaches(g, a, b)
    ensures Reaches(g, u + a + v, u + b + v)
  {
    var fs :| Derives(g, fs, a, b);
    DerivesInside(g, u, fs, a, b, v);
  }

  lemma ReachesBoth(g: Grammar, a: Sequence, b: Sequence, c: Sequence, d: Sequence)
    requires Reaches(g, a, b) && Reaches(g, c, d)
    ensures Reaches(g, a + c, b + d)
  {
    ReachesInside(g, [], a, b, c);
    assert [] + a + c == a + c && [] + b + c == b + c;
    ReachesInside(g, b, c, d, []);
    assert b + c + [] == b + c && b + d + [] == b + d;
    ReachesTrans(g, a + c, b + c, b + d);
  }

  /** A rule derives each of its alternatives. */
  lemma RuleReaches(g: Grammar, q: nat, k: nat)
    requires q < |g| && k < |g[q].alts|
    ensures Reaches(g, [Ref(g[q].name)], g[q].alts[k])
  {
    assert StepAt(g, [Ref(g[q].name)], g[q].alts[k], 0, q, k) by {
      assert [] + g[q].alts[k] + [] == g[q].alts[k];
    }
    StepReaches(g, [Ref(g[q].name)], g[q].alts[k]);
  }

  // ---- forms of terminals alone are the words of the language ----

  function Spelled(w: Word): (s: Sequence)
    ensures |s| == |w| && forall i :: 0 <= i < |w| ==> s[i] == Term(w[i])
  {
    seq(|w|, i requires 0 <= i < |w| => Term(w[i]))
  }

  lemma SpelledCat(u: Word, v: Word)
    ensures Spelled(u + v) == Spelled(u) + Spelled(v)
  {
  }

  lemma {:induction false} SpelledLang(w: Word, m: Model)
    ensures w in SeqLang(Spelled(w), m)
  {
    if w != [] {
      SpelledLang(w[1..], m);
      assert Spelled(w)[0] == Term(w[0]) && Spelled(w)[1..] == Spelled(w[1..]);
      CatIntro([w[0]], w[1..], ElemLang(Term(w[0]), m), SeqLang(Spelled(w[1..]), m));
      assert w == [w[0]] + w[1..];
    }
  }

  lemma StepParts(g: Grammar, a: Sequence, b: Sequence, i: int, q: int, k: int)
    requires StepAt(g, a, b, i, q, k)
    ensures 0 <= i < |a| && 0 <= q < |g| && 0 <= k < |g[q].alts|
    ensures a == a[..i] + ([Ref(g[q].name)] + a[i + 1..])
    ensures b == a[..i] + (g[q].alts[k] + a[i + 1..])
  {
  }

  /** A step only narrows what a form derives. */
  lemma {:induction false} StepWords(g: Grammar, a: Sequence, b: Sequence)
    requires Step(g, a, b)
    ensures SeqLang(b, Language(g)) <= SeqLang(a, Language(g))
  {
    hide SeqLang, StepAt;
    var i, q, k :| StepAt(g, a, b, i, q, k);
    StepParts(g, a, b, i, q, k);
    AltInRule(g, q, k);
    ReplaceWords(a[..i], g[q].name, g[q].alts[k], a[i + 1..], Language(g));
  }

  lemma {:induction false} ReplaceWords(u: Sequence, n: string, alt: Sequence, v: Sequence, m: Model)
    requires SeqLang(alt, m) <= At(m, n)
    ensures SeqLang(u + (alt + v), m) <= SeqLang(u + ([Ref(n)] + v), m)
  {
    SeqCat(u, [Ref(n)] + v, m);
    SeqCat([Ref(n)], v, m);
    SeqOne(Ref(n), m);
    SeqCat(u, alt + v, m);
    SeqCat(alt, v, m);
    CatMono(SeqLang(alt, m), At(m, n), SeqLang(v, m), SeqLang(v, m));
    CatMono(SeqLang(u, m), SeqLang(u, m), SeqLang(alt + v, m), SeqLang([Ref(n)] + v, m));
  }

  lemma AltInRule(g: Grammar, q: nat, k: nat)
    requires q < |g| && k < |g[q].alts|
    ensures SeqLang(g[q].alts[k], Language(g)) <= At(Language(g), g[q].name)
  {
    LanguageFixed(g);
    forall w | w in SeqLang(g[q].alts[k], Language(g)) ensures w in At(Language(g), g[q].name) {
      AltsIntro(k, w, g[q].alts, Language(g));
      assert ProducedBy(g[q].name, w, g, q, Language(g));
    }
  }

  lemma {:induction false} DerivesWords(g: Grammar, fs: seq<Sequence>, a: Sequence, b: Sequence)
    requires Derives(g, fs, a, b)
    ensures SeqLang(b, Language(g)) <= SeqLang(a, Language(g))
    decreases |fs|
  {
    if |fs| > 1 {
      DerivesSplit(g, fs, a, b);
      StepWords(g, a, fs[1]);
      DerivesWords(g, fs[1..], fs[1], b);
    }
  }

  lemma {:induction false} StageReaches(g: Grammar, s: Sequence, h: nat, w: Word)
    requires Flat(s) && FlatGrammar(g) && w in SeqLang(s, Stage(g, h))
    ensures Reaches(g, s, Spelled(w))
    decreases h, |s|
  {
    if s == [] {
      ReachesRefl(g, s);
      assert Spelled(w) == s;
    } else {
      var u, v := CatElim(w, ElemLang(s[0], Stage(g, h)), SeqLang(s[1..], Stage(g, h)));
      StageReaches(g, s[1..], h, v);
      assert FlatElem(s[0]);
      if s[0].Term? {
        ReachesRefl(g, [s[0]]);
        assert Spelled(u) == [s[0]];
      } else {
        RefReaches(g, s[0].name, h, u);
      }
      ReachesBoth(g, [s[0]], Spelled(u), s[1..], Spelled(v));
      SpelledCat(u, v);
      assert s == [s[0]] + s[1..];
    }
  }

  lemma {:induction false} RefReaches(g: Grammar, n: string, h: nat, w: Word)
    requires FlatGrammar(g) && w in At(Stage(g, h), n)
    ensures Reaches(g, [Ref(n)], Spelled(w))
    decreases h, 0
  {
    assert (n, w) in Stage(g, h) && h > 0;
    var q :| ProducedBy(n, w, g, q, Stage(g, h - 1));
    var k := AltsElim(w, g[q].alts, Stage(g, h - 1));
    assert FlatAlts(g[q].alts);
    StageReaches(g, g[q].alts[k], h - 1, w);
    RuleReaches(g, q, k);
    ReachesTrans(g, [Ref(n)], g[q].alts[k], Spelled(w));
  }

  /** Step by step a sequence derives exactly the words of its language. */
  lemma FormsAreWords(g: Grammar, s: Sequence, w: Word)
    requires Flat(s) && FlatGrammar(g)
    ensures Reaches(g, s, Spelled(w)) <==> w in SeqLang(s, Language(g))
  {
    if Reaches(g, s, Spelled(w)) {
      var fs :| Derives(g, fs, s, Spelled(w));
      DerivesWords(g, fs, s, Spelled(w));
      SpelledLang(w, Language(g));
    }
    if w in SeqLang(s, Language(g)) {
      var h := SeqHeight(s, w, g);
      StageReaches(g, s, h, w);
    }
  }
}
