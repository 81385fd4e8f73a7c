/** What a grammar means.

    A word is a sequence of tokens and a language a set of words.  A model gives
    every rule name a language; an element, a sequence and a list of
    alternatives denote languages in a model.  Rule `n` derives `w` within height
    `h` when some alternative of `n` matches `w` with every reference derived
    within height `h - 1`, which is what a derivation tree of height `h` says. */
module Languages {
  import opened Ir

  type Word = seq<string>
  type Lang = iset<Word>
  type Model = iset<(string, Word)>

  ghost function At(m: Model, n: string): Lang {
    iset w: Word | (n, w) in m
  }

  ghost const EPS: Lang := iset{[]}

  ghost predicate SplitsAt(w: Word, k: nat, a: Lang, b: Lang) {
    k <= |w| && w[..k] in a && w[k..] in b
  }

  ghost predicate Splits(w: Word, a: Lang, b: Lang) {
    exists k: nat :: SplitsAt(w, k, a, b)
  }

  ghost function Cat(a: Lang, b: Lang): Lang {
    iset w: Word | Splits(w, a, b)
  }

  ghost function Pow(a: Lang, n: nat): Lang {
    if n == 0 then EPS else Cat(a, Pow(a, n - 1))
  }

  ghost predicate Times(w: Word, a: Lang, n: nat) {
    w in Pow(a, n)
  }

  ghost predicate Repeats(w: Word, a: Lang) {
    exists n: nat :: Times(w, a, n)
  }

  ghost predicate RepeatsBetween(w: Word, a: Lang, lo: nat, hi: nat) {
    exists n: nat :: lo <= n <= hi && Times(w, a, n)
  }

  ghost function Iter(a: Lang): Lang {
    iset w: Word | Repeats(w, a)
  }

  ghost function Between(a: Lang, lo: nat, hi: nat): Lang {
    iset w: Word | RepeatsBetween(w, a, lo, hi)
  }

  ghost function ElemLang(e: Element, m: Model): Lang
    decreases e
  {
    match e
    case Term(t) => iset{[t]}
    case Prose(_) => iset{}
    case Ref(n) => At(m, n)
    case Opt(i) => EPS + ElemLang(i, m)
    case Star(i, _) => Iter(ElemLang(i, m))
    case Plus(i) => Cat(ElemLang(i, m), Iter(ElemLang(i, m)))
    case Rep(lo, None, i) => Cat(Pow(ElemLang(i, m), lo), Iter(ElemLang(i, m)))
    case Rep(lo, Some(hi), i) => Between(ElemLang(i, m), lo, hi)
    case Group(alts) => GroupLang(alts, m)
  }

  ghost function GroupLang(alts: seq<Owned>, m: Model): Lang
    decreases alts
  {
    if alts == [] then iset{} else SeqLang(alts[0].els, m) + GroupLang(alts[1..], m)
  }

  ghost function SeqLang(s: Sequence, m: Model): Lang
    decreases s
  {
    if s == [] then EPS else Cat(ElemLang(s[0], m), SeqLang(s[1..], m))
  }

  ghost predicate MatchesAlt(w: Word, alts: seq<Sequence>, i: int, m: Model) {
    0 <= i < |alts| && w in SeqLang(alts[i], m)
  }

  ghost predicate Matches(w: Word, alts: seq<Sequence>, m: Model) {
    exists i :: MatchesAlt(w, alts, i, m)
  }

  ghost function AltsLang(alts: seq<Sequence>, m: Model): Lang {
    iset w: Word | Matches(w, alts, m)
  }

  ghost predicate ProducedBy(n: string, w: Word, g: Grammar, i: int, m: Model) {
    0 <= i < |g| && g[i].name == n && w in AltsLang(g[i].alts, m)
  }

  ghost predicate Produces(n: string, w: Word, g: Grammar, m: Model) {
    exists i :: ProducedBy(n, w, g, i, m)
  }

  /** What the rules of `g` derive with their references read in `m`. */
  ghost function Apply(g: Grammar, m: Model): Model {
    iset n: string, w: Word | Produces(n, w, g, m) :: (n, w)
  }

  ghost function Stage(g: Grammar, h: nat): Model {
    if h == 0 then iset{} else Apply(g, Stage(g, h - 1))
  }

  ghost predicate DerivesIn(n: string, w: Word, g: Grammar, h: nat) {
    (n, w) in Stage(g, h)
  }

  ghost predicate Derives(n: string, w: Word, g: Grammar) {
    exists h: nat :: DerivesIn(n, w, g, h)
  }

  /** The language of a grammar: every (rule, word) with a derivation tree. */
  ghost function Language(g: Grammar): Model {
    iset n: string, w: Word | Derives(n, w, g) :: (n, w)
  }

  ghost predicate Closed(g: Grammar, m: Model) {
    Apply(g, m) <= m
  }

  // ---- concatenation and iteration ----

  lemma CatIntro(u: Word, v: Word, a: Lang, b: Lang)
    requires u in a && v in b
    ensures u + v in Cat(a, b)
  {
    var w := u + v;
    assert w[..|u|] == u && w[|u|..] == v;
    assert SplitsAt(w, |u|, a, b);
  }

  lemma CatElim(w: Word, a: Lang, b: Lang) returns (u: Word, v: Word)
    requires w in Cat(a, b)
    ensures w == u + v && u in a && v in b
  {
    var k: nat :| SplitsAt(w, k, a, b);
    u, v := w[..k], w[k..];
  }

  lemma CatMono(a: Lang, a': Lang, b: Lang, b': Lang)
    requires a <= a' && b <= b'
    ensures Cat(a, b) <= Cat(a', b')
  {
    forall w | w in Cat(a, b) ensures w in Cat(a', b') {
      var u, v := CatElim(w, a, b);
      CatIntro(u, v, a', b');
    }
  }

  lemma CatAssoc(a: Lang, b: Lang, c: Lang)
    ensures Cat(Cat(a, b), c) == Cat(a, Cat(b, c))
  {
    forall w | w in Cat(Cat(a, b), c) ensures w in Cat(a, Cat(b, c)) {
      var x, z := CatElim(w, Cat(a, b), c);
      var u, v := CatElim(x, a, b);
      CatIntro(v, z, b, c);
      CatIntro(u, v + z, a, Cat(b, c));
      assert u + (v + z) == w;
    }
    forall w | w in Cat(a, Cat(b, c)) ensures w in Cat(Cat(a, b), c) {
      var u, x := CatElim(w, a, Cat(b, c));
      var v, z := CatElim(x, b, c);
      CatIntro(u, v, a, b);
      CatIntro(u + v, z, Cat(a, b), c);
      assert (u + v) + z == w;
    }
  }

  lemma CatEpsLeft(a: Lang)
    ensures Cat(EPS, a) == a
  {
    forall w | w in a ensures w in Cat(EPS, a) {
      CatIntro([], w, EPS, a);
      assert [] + w == w;
    }
    forall w | w in Cat(EPS, a) ensures w in a {
      var u, v := CatElim(w, EPS, a);
      assert [] + v == v;
    }
  }

  lemma CatEpsRight(a: Lang)
    ensures Cat(a, EPS) == a
  {
    forall w | w in a ensures w in Cat(a, EPS) {
      CatIntro(w, [], a, EPS);
      assert w + [] == w;
    }
    forall w | w in Cat(a, EPS) ensures w in a {
      var u, v := CatElim(w, a, EPS);
      assert u + [] == u;
    }
  }

  lemma CatEps(a: Lang)
    ensures Cat(EPS, a) == a && Cat(a, EPS) == a
  {
    CatEpsLeft(a);
    CatEpsRight(a);
  }

  lemma CatUnion(a: Lang, b: Lang, c: Lang)
    ensures Cat(a + b, c) == Cat(a, c) + Cat(b, c)
    ensures Cat(c, a + b) == Cat(c, a) + Cat(c, b)
  {
    forall w | w in Cat(a + b, c) ensures w in Cat(a, c) + Cat(b, c) {
      var u, v := CatElim(w, a + b, c);
      if u in a { CatIntro(u, v, a, c); } else { CatIntro(u, v, b, c); }
    }
    forall w | w in Cat(c, a + b) ensures w in Cat(c, a) + Cat(c, b) {
      var u, v := CatElim(w, c, a + b);
      if v in a { CatIntro(u, v, c, a); } else { CatIntro(u, v, c, b); }
    }
    CatMono(a, a + b, c, c);
    CatMono(b, a + b, c, c);
    CatMono(c, c, a, a + b);
    CatMono(c, c, b, a + b);
  }

  lemma CatEpsUnion(a: Lang, c: Lang)
    ensures Cat(EPS + a, c) == c + Cat(a, c)
  {
    CatUnion(EPS, a, c);
    CatEpsLeft(c);
  }

  lemma CatUnionEps(a: Lang, c: Lang)
    ensures Cat(EPS + a, c) == Cat(a, c) + c
  {
    CatEpsUnion(a, c);
    UnionSwap(c, Cat(a, c));
  }

  lemma UnionSwap(a: Lang, b: Lang)
    ensures a + b == b + a
  {
  }

  lemma PowIntro(u: Word, v: Word, a: Lang, n: nat)
    requires u in a && v in Pow(a, n)
    ensures u + v in Pow(a, n + 1)
  {
    CatIntro(u, v, a, Pow(a, n));
  }

  lemma PowElim(w: Word, a: Lang, n: nat) returns (u: Word, v: Word)
    requires n > 0 && w in Pow(a, n)
    ensures w == u + v && u in a && v in Pow(a, n - 1)
  {
    u, v := CatElim(w, a, Pow(a, n - 1));
  }

  lemma {:induction false} PowMono(a: Lang, b: Lang, n: nat)
    requires a <= b
    ensures Pow(a, n) <= Pow(b, n)
  {
    if n > 0 {
      PowMono(a, b, n - 1);
      CatMono(a, b, Pow(a, n - 1), Pow(b, n - 1));
    }
  }

  lemma IterMono(a: Lang, b: Lang)
    requires a <= b
    ensures Iter(a) <= Iter(b)
  {
    forall w | w in Iter(a) ensures w in Iter(b) {
      var n: nat :| Times(w, a, n);
      PowMono(a, b, n);
      assert Times(w, b, n);
    }
  }

  lemma BetweenMono(a: Lang, b: Lang, lo: nat, hi: nat)
    requires a <= b
    ensures Between(a, lo, hi) <= Between(b, lo, hi)
  {
    forall w | w in Between(a, lo, hi) ensures w in Between(b, lo, hi) {
      var n: nat :| lo <= n <= hi && Times(w, a, n);
      PowMono(a, b, n);
      assert Times(w, b, n);
    }
  }

  /** Iteration from the left: anything that absorbs a copy of `a` on the right
      absorbs any number of them. */
  lemma {:induction false} AbsorbRight(x: Lang, a: Lang, n: nat)
    requires Cat(x, a) <= x
    ensures Cat(x, Pow(a, n)) <= x
  {
    if n == 0 {
      CatEpsRight(x);
    } else {
      AbsorbRight(x, a, n - 1);
      CatAssoc(x, a, Pow(a, n - 1));
      CatMono(Cat(x, a), x, Pow(a, n - 1), Pow(a, n - 1));
    }
  }

  lemma AbsorbIter(x: Lang, a: Lang)
    requires Cat(x, a) <= x
    ensures Cat(x, Iter(a)) <= x
  {
    forall w | w in Cat(x, Iter(a)) ensures w in x {
      var u, v := CatElim(w, x, Iter(a));
      var n: nat :| Times(v, a, n);
      AbsorbRight(x, a, n);
      CatIntro(u, v, x, Pow(a, n));
    }
  }

  lemma {:induction false} AbsorbLeft(x: Lang, a: Lang, n: nat)
    requires Cat(a, x) <= x && [] in x
    ensures Pow(a, n) <= x
  {
    if n > 0 {
      AbsorbLeft(x, a, n - 1);
      CatMono(a, a, Pow(a, n - 1), x);
    }
  }

  lemma IterLeast(x: Lang, a: Lang)
    requires Cat(a, x) <= x && [] in x
    ensures Iter(a) <= x
  {
    forall w | w in Iter(a) ensures w in x {
      var n: nat :| Times(w, a, n);
      AbsorbLeft(x, a, n);
    }
  }

  lemma {:induction false} PowSnoc(a: Lang, n: nat)
    ensures Cat(Pow(a, n), a) == Pow(a, n + 1)
  {
    if n == 0 {
      CatEps(a);
    } else {
      PowSnoc(a, n - 1);
      CatAssoc(a, Pow(a, n - 1), a);
    }
  }

  lemma IterUnfold(a: Lang)
    ensures Iter(a) == EPS + Cat(a, Iter(a))
    ensures Cat(Iter(a), a) <= Iter(a)
  {
    forall w | w in Iter(a) ensures w in EPS + Cat(a, Iter(a)) {
      var n: nat :| Times(w, a, n);
      if n > 0 {
        var u, v := CatElim(w, a, Pow(a, n - 1));
        assert Times(v, a, n - 1);
        CatIntro(u, v, a, Iter(a));
      }
    }
    assert Times([], a, 0);
    forall w | w in Cat(a, Iter(a)) ensures w in Iter(a) {
      var u, v := CatElim(w, a, Iter(a));
      var n: nat :| Times(v, a, n);
      CatIntro(u, v, a, Pow(a, n));
      assert Times(w, a, n + 1);
    }
    forall w | w in Cat(Iter(a), a) ensures w in Iter(a) {
      var u, v := CatElim(w, Iter(a), a);
      var n: nat :| Times(u, a, n);
      CatIntro(u, v, Pow(a, n), a);
      PowSnoc(a, n);
      assert Times(w, a, n + 1);
    }
  }

  lemma BetweenUnfold(a: Lang, hi: nat)
    requires hi > 0
    ensures Between(a, 0, hi) == EPS + Cat(a, Between(a, 0, hi - 1))
  {
    forall w | w in Between(a, 0, hi) ensures w in EPS + Cat(a, Between(a, 0, hi - 1)) {
      var n: nat :| 0 <= n <= hi && Times(w, a, n);
      if n > 0 {
        var u, v := PowElim(w, a, n);
        assert Times(v, a, n - 1);
        CatIntro(u, v, a, Between(a, 0, hi - 1));
      }
    }
    assert Times([], a, 0);
    forall w | w in Cat(a, Between(a, 0, hi - 1)) ensures w in Between(a, 0, hi) {
      var u, v := CatElim(w, a, Between(a, 0, hi - 1));
      var n: nat :| 0 <= n <= hi - 1 && Times(v, a, n);
      PowIntro(u, v, a, n);
      assert Times(w, a, n + 1);
    }
  }

  lemma BetweenNone(a: Lang)
    ensures Between(a, 0, 0) == EPS
  {
    forall w | w in Between(a, 0, 0) ensures w in EPS {
      var n: nat :| 0 <= n <= 0 && Times(w, a, n);
    }
    assert Times([], a, 0);
  }

  // ---- sequences and alternatives ----

  lemma {:induction false} SeqCat(s: Sequence, t: Sequence, m: Model)
    ensures SeqLang(s + t, m) == Cat(SeqLang(s, m), SeqLang(t, m))
  {
    if s == [] {
      assert s + t == t;
      CatEps(SeqLang(t, m));
    } else {
      assert (s + t)[0] == s[0] && (s + t)[1..] == s[1..] + t;
      SeqCat(s[1..], t, m);
      CatAssoc(ElemLang(s[0], m), SeqLang(s[1..], m), SeqLang(t, m));
    }
  }

  lemma SeqOne(e: Element, m: Model)
    ensures SeqLang([e], m) == ElemLang(e, m)
  {
    assert [e][1..] == [];
    CatEps(ElemLang(e, m));
  }

  lemma SeqCons(e: Element, s: Sequence, m: Model)
    ensures SeqLang([e] + s, m) == Cat(ElemLang(e, m), SeqLang(s, m))
  {
    SeqCat([e], s, m);
    SeqOne(e, m);
  }

  lemma AltsIntro(i: nat, w: Word, alts: seq<Sequence>, m: Model)
    requires i < |alts| && w in SeqLang(alts[i], m)
    ensures w in AltsLang(alts, m)
  {
    assert MatchesAlt(w, alts, i, m);
  }

  lemma AltsElim(w: Word, alts: seq<Sequence>, m: Model) returns (i: nat)
    requires w in AltsLang(alts, m)
    ensures i < |alts| && w in SeqLang(alts[i], m)
  {
    i :| MatchesAlt(w, alts, i, m);
  }

  lemma AltsCat(a: seq<Sequence>, b: seq<Sequence>, m: Model)
    ensures AltsLang(a + b, m) == AltsLang(a, m) + AltsLang(b, m)
  {
    forall w | w in AltsLang(a, m) + AltsLang(b, m) ensures w in AltsLang(a + b, m) {
      if w in AltsLang(a, m) {
        var i := AltsElim(w, a, m);
        AltsIntro(i, w, a + b, m);
      } else {
        var i := AltsElim(w, b, m);
        AltsIntro(|a| + i, w, a + b, m);
      }
    }
    forall w | w in AltsLang(a + b, m) ensures w in AltsLang(a, m) + AltsLang(b, m) {
      var i := AltsElim(w, a + b, m);
      if i < |a| { AltsIntro(i, w, a, m); } else { AltsIntro(i - |a|, w, b, m); }
    }
  }

  lemma AltsOne(s: Sequence, m: Model)
    ensures AltsLang([s], m) == SeqLang(s, m)
  {
    forall w | w in AltsLang([s], m) ensures w in SeqLang(s, m) {
      var i := AltsElim(w, [s], m);
    }
    forall w | w in SeqLang(s, m) ensures w in AltsLang([s], m) {
      AltsIntro(0, w, [s], m);
    }
  }

  /** Replacing one alternative by others that together match the same words. */
  lemma SpliceLang(alts: seq<Sequence>, k: nat, parts: seq<Sequence>, m: Model)
    requires k < |alts| && AltsLang(parts, m) == SeqLang(alts[k], m)
    ensures AltsLang(alts[..k] + parts + alts[k + 1..], m) == AltsLang(alts, m)
  {
    AltsCat(alts[..k] + parts, alts[k + 1..], m);
    AltsCat(alts[..k], parts, m);
    assert alts == alts[..k] + [alts[k]] + alts[k + 1..];
    AltsCat(alts[..k] + [alts[k]], alts[k + 1..], m);
    AltsCat(alts[..k], [alts[k]], m);
    AltsOne(alts[k], m);
  }

  lemma AltsTwo(s: Sequence, t: Sequence, m: Model)
    ensures AltsLang([s, t], m) == SeqLang(s, m) + SeqLang(t, m)
  {
    assert [s, t] == [s] + [t];
    AltsCat([s], [t], m);
    AltsOne(s, m);
    AltsOne(t, m);
  }

  lemma PairLang(x: Element, y: Element, m: Model)
    ensures SeqLang([x, y], m) == Cat(ElemLang(x, m), ElemLang(y, m))
  {
    assert [x, y] == [x] + [y];
    SeqCons(x, [y], m);
    SeqOne(y, m);
  }

  lemma {:induction false} GroupPlain(alts: seq<Owned>, m: Model)
    ensures GroupLang(alts, m) == AltsLang(Unowned(alts), m)
  {
    if alts == [] {
      forall w | w in AltsLang(Unowned(alts), m) ensures false {
        var i := AltsElim(w, Unowned(alts), m);
      }
    } else {
      GroupPlain(alts[1..], m);
      assert Unowned(alts) == [alts[0].els] + Unowned(alts[1..]);
      AltsCat([alts[0].els], Unowned(alts[1..]), m);
      AltsOne(alts[0].els, m);
    }
  }

  lemma GroupOfLang(alts: seq<Sequence>, m: Model)
    ensures ElemLang(GroupOf(alts), m) == AltsLang(alts, m)
  {
    GroupPlain(GroupOf(alts).alts, m);
    assert Unowned(GroupOf(alts).alts) == alts;
  }

  // ---- monotonicity ----

  lemma {:induction false} ElemMono(e: Element, m: Model, m': Model)
    requires m <= m'
    ensures ElemLang(e, m) <= ElemLang(e, m')
    decreases e
  {
    match e
    case Term(_) =>
    case Prose(_) =>
    case Ref(n) =>
    case Opt(i) => ElemMono(i, m, m');
    case Star(i, _) =>
      ElemMono(i, m, m');
      IterMono(ElemLang(i, m), ElemLang(i, m'));
    case Plus(i) =>
      ElemMono(i, m, m');
      IterMono(ElemLang(i, m), ElemLang(i, m'));
      CatMono(ElemLang(i, m), ElemLang(i, m'), Iter(ElemLang(i, m)), Iter(ElemLang(i, m')));
    case Rep(lo, None, i) =>
      ElemMono(i, m, m');
      IterMono(ElemLang(i, m), ElemLang(i, m'));
      PowMono(ElemLang(i, m), ElemLang(i, m'), lo);
      CatMono(Pow(ElemLang(i, m), lo), Pow(ElemLang(i, m'), lo), Iter(ElemLang(i, m)), Iter(ElemLang(i, m')));
    case Rep(lo, Some(hi), i) =>
      ElemMono(i, m, m');
      BetweenMono(ElemLang(i, m), ElemLang(i, m'), lo, hi);
    case Group(alts) => GroupMono(alts, m, m');
  }

  lemma {:induction false} GroupMono(alts: seq<Owned>, m: Model, m': Model)
    requires m <= m'
    ensures GroupLang(alts, m) <= GroupLang(alts, m')
    decreases alts
  {
    if alts != [] {
      SeqMono(alts[0].els, m, m');
      GroupMono(alts[1..], m, m');
    }
  }

  lemma {:induction false} SeqMono(s: Sequence, m: Model, m': Model)
    requires m <= m'
    ensures SeqLang(s, m) <= SeqLang(s, m')
    decreases s
  {
    if s != [] {
      ElemMono(s[0], m, m');
      SeqMono(s[1..], m, m');
      CatMono(ElemLang(s[0], m), ElemLang(s[0], m'), SeqLang(s[1..], m), SeqLang(s[1..], m'));
    }
  }

  lemma AltsMono(alts: seq<Sequence>, m: Model, m': Model)
    requires m <= m'
    ensures AltsLang(alts, m) <= AltsLang(alts, m')
  {
    forall w | w in AltsLang(alts, m) ensures w in AltsLang(alts, m') {
      var i := AltsElim(w, alts, m);
      SeqMono(alts[i], m, m');
      AltsIntro(i, w, alts, m');
    }
  }

  lemma ApplyMono(g: Grammar, m: Model, m': Model)
    requires m <= m'
    ensures Apply(g, m) <= Apply(g, m')
  {
    forall n, w | (n, w) in Apply(g, m) ensures (n, w) in Apply(g, m') {
      var i :| ProducedBy(n, w, g, i, m);
      AltsMono(g[i].alts, m, m');
      assert ProducedBy(n, w, g, i, m');
    }
  }

  lemma {:induction false} StageGrows(g: Grammar, h: nat, k: nat)
    requires h <= k
    ensures Stage(g, h) <= Stage(g, k)
  {
    if h > 0 {
      StageGrows(g, h - 1, k - 1);
      ApplyMono(g, Stage(g, h - 1), Stage(g, k - 1));
    }
  }

  // ---- continuity: a word of an element is derived at some finite height ----

  lemma {:induction false} ElemHeight(e: Element, w: Word, g: Grammar) returns (h: nat)
    requires w in ElemLang(e, Language(g))
    ensures w in ElemLang(e, Stage(g, h))
    decreases e, 1, 0
  {
    h := 0;
    match e
    case Term(_) =>
    case Prose(_) =>
    case Ref(n) =>
      assert (n, w) in Language(g);
      h :| DerivesIn(n, w, g, h);
    case Opt(i) =>
      if w != [] { h := ElemHeight(i, w, g); }
    case Star(i, _) =>
      var n: nat :| Times(w, ElemLang(i, Language(g)), n);
      h := PowHeight(i, n, w, g);
      assert Times(w, ElemLang(i, Stage(g, h)), n);
    case Plus(i) =>
      PowOne(ElemLang(i, Language(g)));
      h := IterHeight(i, 1, w, g);
      PowOne(ElemLang(i, Stage(g, h)));
    case Rep(lo, None, i) =>
      h := IterHeight(i, lo, w, g);
    case Rep(lo, Some(hi), i) =>
      var n: nat :| lo <= n <= hi && Times(w, ElemLang(i, Language(g)), n);
      h := PowHeight(i, n, w, g);
      assert Times(w, ElemLang(i, Stage(g, h)), n);
    case Group(alts) =>
      GroupPlain(alts, Language(g));
      var k := AltsElim(w, Unowned(alts), Language(g));
      h := SeqHeight(alts[k].els, w, g);
      GroupPlain(alts, Stage(g, h));
      AltsIntro(k, w, Unowned(alts), Stage(g, h));
  }

  lemma PowElemMono(i: Element, n: nat, m: Model, m': Model)
    requires m <= m'
    ensures Pow(ElemLang(i, m), n) <= Pow(ElemLang(i, m'), n)
  {
    ElemMono(i, m, m');
    PowMono(ElemLang(i, m), ElemLang(i, m'), n);
  }

  lemma PowOne(a: Lang)
    ensures Pow(a, 1) == a
  {
    assert Pow(a, 1) == Cat(a, Pow(a, 0));
    CatEpsRight(a);
  }

  lemma {:induction false} PowHeight(i: Element, n: nat, w: Word, g: Grammar) returns (h: nat)
    requires w in Pow(ElemLang(i, Language(g)), n)
    ensures w in Pow(ElemLang(i, Stage(g, h)), n)
    decreases i, 2, n
  {
    hide ElemLang, Stage, Language;
    h := 0;
    if n > 0 {
      var u, v := PowElim(w, ElemLang(i, Language(g)), n);
      var a := ElemHeight(i, u, g);
      var b := PowHeight(i, n - 1, v, g);
      PowRaise(i, n - 1, u, v, g, a, b);
      h := a + b;
    }
  }

  lemma PowRaise(i: Element, n: nat, u: Word, v: Word, g: Grammar, a: nat, b: nat)
    requires u in ElemLang(i, Stage(g, a)) && v in Pow(ElemLang(i, Stage(g, b)), n)
    ensures u + v in Pow(ElemLang(i, Stage(g, a + b)), n + 1)
  {
    StageGrows(g, a, a + b);
    StageGrows(g, b, a + b);
    ElemMono(i, Stage(g, a), Stage(g, a + b));
    PowElemMono(i, n, Stage(g, b), Stage(g, a + b));
    PowIntro(u, v, ElemLang(i, Stage(g, a + b)), n);
  }

  lemma {:induction false} IterHeight(i: Element, lo: nat, w: Word, g: Grammar) returns (h: nat)
    requires w in Cat(Pow(ElemLang(i, Language(g)), lo), Iter(ElemLang(i, Language(g))))
    ensures w in Cat(Pow(ElemLang(i, Stage(g, h)), lo), Iter(ElemLang(i, Stage(g, h))))
    decreases i, 3, 0
  {
    var u, v := CatElim(w, Pow(ElemLang(i, Language(g)), lo), Iter(ElemLang(i, Language(g))));
    var n: nat :| Times(v, ElemLang(i, Language(g)), n);
    var a := PowHeight(i, lo, u, g);
    var b := PowHeight(i, n, v, g);
    h := a + b;
    StageGrows(g, a, h);
    StageGrows(g, b, h);
    PowElemMono(i, lo, Stage(g, a), Stage(g, h));
    PowElemMono(i, n, Stage(g, b), Stage(g, h));
    assert Times(v, ElemLang(i, Stage(g, h)), n);
    CatIntro(u, v, Pow(ElemLang(i, Stage(g, h)), lo), Iter(ElemLang(i, Stage(g, h))));
  }

  lemma {:induction false} SeqHeight(s: Sequence, w: Word, g: Grammar) returns (h: nat)
    requires w in SeqLang(s, Language(g))
    ensures w in SeqLang(s, Stage(g, h))
    decreases s, 0, 0
  {
    h := 0;
    if s != [] {
      var u, v := CatElim(w, ElemLang(s[0], Language(g)), SeqLang(s[1..], Language(g)));
      var a := ElemHeight(s[0], u, g);
      var b := SeqHeight(s[1..], v, g);
      h := a + b;
      StageGrows(g, a, h);
      StageGrows(g, b, h);
      ElemMono(s[0], Stage(g, a), Stage(g, h));
      SeqMono(s[1..], Stage(g, b), Stage(g, h));
      CatIntro(u, v, ElemLang(s[0], Stage(g, h)), SeqLang(s[1..], Stage(g, h)));
    }
  }

  // ---- the language is the least fixed point ----

  lemma StageInLanguage(g: Grammar, h: nat)
    ensures Stage(g, h) <= Language(g)
  {
    forall n, w | (n, w) in Stage(g, h) ensures (n, w) in Language(g) {
      assert DerivesIn(n, w, g, h);
    }
  }

  /** A rule derives exactly what its alternatives match, references read as what
      the grammar derives. */
  lemma LanguageFixed(g: Grammar)
    ensures Apply(g, Language(g)) == Language(g)
  {
    forall n, w | (n, w) in Apply(g, Language(g)) ensures (n, w) in Language(g) {
      var i :| ProducedBy(n, w, g, i, Language(g));
      var k := AltsElim(w, g[i].alts, Language(g));
      var h := SeqHeight(g[i].alts[k], w, g);
      AltsIntro(k, w, g[i].alts, Stage(g, h));
      assert ProducedBy(n, w, g, i, Stage(g, h));
      assert DerivesIn(n, w, g, h + 1);
    }
    forall n, w | (n, w) in Language(g) ensures (n, w) in Apply(g, Language(g)) {
      var h: nat :| DerivesIn(n, w, g, h);
      StageInLanguage(g, h - 1);
      ApplyMono(g, Stage(g, h - 1), Language(g));
    }
  }

  lemma {:induction false} StageBelow(g: Grammar, m: Model, h: nat)
    requires Closed(g, m)
    ensures Stage(g, h) <= m
  {
    if h > 0 {
      StageBelow(g, m, h - 1);
      ApplyMono(g, Stage(g, h - 1), m);
    }
  }

  lemma LanguageLeast(g: Grammar, m: Model)
    requires Closed(g, m)
    ensures Language(g) <= m
  {
    forall n, w | (n, w) in Language(g) ensures (n, w) in m {
      var h: nat :| DerivesIn(n, w, g, h);
      StageBelow(g, m, h);
    }
  }

  /** With distinct names a rule's language is that of its own alternatives. */
  lemma RuleLanguage(g: Grammar, i: nat)
    requires i < |g| && DistinctNames(g)
    ensures At(Language(g), g[i].name) == AltsLang(g[i].alts, Language(g))
  {
    LanguageFixed(g);
    forall w | w in At(Language(g), g[i].name) ensures w in AltsLang(g[i].alts, Language(g)) {
      assert (g[i].name, w) in Apply(g, Language(g));
    }
    forall w | w in AltsLang(g[i].alts, Language(g)) ensures w in At(Language(g), g[i].name) {
      assert ProducedBy(g[i].name, w, g, i, Language(g));
    }
  }

  // ---- rewriting one rule ----

  /** Replacing one rule's alternatives keeps every rule's language when each side
      accounts for the other: what the new alternatives match the old grammar
      derives, and what the old ones match the new grammar derives. */
  lemma RewriteRule(g: Grammar, i: nat, alts: seq<Sequence>)
    requires i < |g|
    requires var g' := g[i := Production(g[i].name, alts)];
      && AltsLang(alts, Language(g)) <= At(Language(g), g[i].name)
      && AltsLang(g[i].alts, Language(g')) <= At(Language(g'), g[i].name)
    ensures Language(g[i := Production(g[i].name, alts)]) == Language(g)
  {
    var g' := g[i := Production(g[i].name, alts)];
    ClosedAfterRewrite(g, g', i, Language(g));
    ClosedAfterRewrite(g', g, i, Language(g'));
    LanguageLeast(g', Language(g));
    LanguageLeast(g, Language(g'));
  }

  lemma ClosedAfterRewrite(g: Grammar, g': Grammar, i: nat, m: Model)
    requires i < |g| == |g'| && m == Language(g) && g[i].name == g'[i].name
    requires forall j :: 0 <= j < |g| && j != i ==> g[j] == g'[j]
    requires AltsLang(g'[i].alts, m) <= At(m, g[i].name)
    ensures Closed(g', m)
  {
    LanguageFixed(g);
    forall n, w | (n, w) in Apply(g', m) ensures (n, w) in m {
      var j :| 0 <= j < |g'| && g'[j].name == n && w in AltsLang(g'[j].alts, m);
      if j == i {
        assert w in At(m, n);
      } else {
        assert ProducedBy(n, w, g, j, m);
      }
    }
  }

  /** Only which productions a grammar holds matters, not their order. */
  lemma SameRules(g: Grammar, g': Grammar)
    requires forall p :: p in g <==> p in g'
    ensures Language(g) == Language(g')
  {
    SameRulesBelow(g, g');
    SameRulesBelow(g', g);
  }

  lemma SameRulesBelow(g: Grammar, g': Grammar)
    requires forall p :: p in g ==> p in g'
    ensures Language(g) <= Language(g')
  {
    LanguageFixed(g');
    forall n, w | (n, w) in Apply(g, Language(g')) ensures (n, w) in Language(g') {
      var i :| ProducedBy(n, w, g, i, Language(g'));
      assert g[i] in g';
      var j :| 0 <= j < |g'| && g'[j] == g[i];
      assert ProducedBy(n, w, g', j, Language(g'));
    }
    LanguageLeast(g, Language(g'));
  }

  // ---- models that agree on what a piece of grammar refers to ----

  ghost predicate Agree(m: Model, m': Model, names: set<string>) {
    forall n :: n in names ==> At(m, n) == At(m', n)
  }

  lemma {:induction false} ElemAgree(e: Element, m: Model, m': Model)
    requires Agree(m, m', ElemRefs(e))
    ensures ElemLang(e, m) == ElemLang(e, m')
    decreases e
  {
    match e
    case Term(_) =>
    case Prose(_) =>
    case Ref(n) => assert n in ElemRefs(e);
    case Opt(i) => ElemAgree(i, m, m');
    case Star(i, _) => ElemAgree(i, m, m');
    case Plus(i) => ElemAgree(i, m, m');
    case Rep(lo, None, i) => ElemAgree(i, m, m');
    case Rep(lo, Some(hi), i) => ElemAgree(i, m, m');
    case Group(alts) => GroupAgree(alts, m, m');
  }

  lemma {:induction false} GroupAgree(alts: seq<Owned>, m: Model, m': Model)
    requires Agree(m, m', GroupRefs(alts))
    ensures GroupLang(alts, m) == GroupLang(alts, m')
    decreases alts
  {
    if alts != [] {
      SeqAgree(alts[0].els, m, m');
      GroupAgree(alts[1..], m, m');
    }
  }

  lemma {:induction false} SeqAgree(s: Sequence, m: Model, m': Model)
    requires Agree(m, m', SeqRefs(s))
    ensures SeqLang(s, m) == SeqLang(s, m')
    decreases s
  {
    if s != [] {
      ElemAgree(s[0], m, m');
      SeqAgree(s[1..], m, m');
    }
  }

  lemma {:induction false} AltsAgree(alts: seq<Sequence>, m: Model, m': Model)
    requires Agree(m, m', AltsRefs(alts))
    ensures AltsLang(alts, m) == AltsLang(alts, m')
  {
    if alts == [] {
    } else {
      SeqAgree(alts[0], m, m');
      AltsAgree(alts[1..], m, m');
      assert alts == [alts[0]] + alts[1..];
      AltsCat([alts[0]], alts[1..], m);
      AltsCat([alts[0]], alts[1..], m');
      AltsOne(alts[0], m);
      AltsOne(alts[0], m');
    }
  }

  // ---- a model with one rule's language set ----

  ghost function Assign(m: Model, n: string, l: Lang): Model {
    iset k: string, w: Word | (if k == n then w in l else (k, w) in m) :: (k, w)
  }

  lemma AssignAt(m: Model, n: string, l: Lang)
    ensures At(Assign(m, n, l), n) == l
    ensures forall k :: k != n ==> At(Assign(m, n, l), k) == At(m, k)
  {
  }

  lemma AssignAgree(m: Model, n: string, l: Lang, used: set<string>)
    requires n !in used
    ensures Agree(m, Assign(m, n, l), used)
  {
    AssignAt(m, n, l);
  }
}
