/** Desugaring keeps every authored rule's language. */
module DesugarProofs {
  import opened Ir
  import opened Languages
  import opened FreshNames
  import opened Desugar
  import opened Minting
  import opened Capture

  // ---- what minting keeps in order ----

  /** Each of the productions `from`.. is named, and refers, within `used`. */
  ghost predicate InUse(prods: Grammar, from: nat, used: set<string>) {
    forall i :: from <= i < |prods| ==> prods[i].name in used && AltsRefs(prods[i].alts) <= used
  }

  ghost predicate Grows(st: State, st': State) {
    && st.extra <= st'.extra && st.used <= st'.used
    && InUse(st'.extra, |st.extra|, st'.used)
    && (forall i :: |st.extra| <= i < |st'.extra| ==> st'.extra[i].name !in st.used)
    && (forall i :: |st.extra| <= i < |st'.extra| ==> FlatAlts(st'.extra[i].alts))
    && (forall i, j :: |st.extra| <= i < j < |st'.extra| ==> st'.extra[i].name != st'.extra[j].name)
  }

  lemma GrowsTrans(a: State, b: State, c: State)
    requires Grows(a, b) && Grows(b, c)
    ensures Grows(a, c)
  {
    forall i | |a.extra| <= i < |c.extra|
      ensures c.extra[i].name in c.used && AltsRefs(c.extra[i].alts) <= c.used
      ensures c.extra[i].name !in a.used && FlatAlts(c.extra[i].alts)
    {
      assert i < |b.extra| ==> c.extra[i] == b.extra[i];
    }
    forall i, j | |a.extra| <= i < j < |c.extra| ensures c.extra[i].name != c.extra[j].name {
      assert i < |b.extra| ==> c.extra[i] == b.extra[i];
      assert j < |b.extra| ==> c.extra[j] == b.extra[j];
    }
  }

  lemma MintGrows(st: State, name: string, alts: seq<Sequence>)
    requires name !in st.used && AltsRefs(alts) <= st.used + {name} && FlatAlts(alts)
    ensures Grows(st, Mint(st, name, alts))
  {
  }

  lemma {:induction false} CopiesRefs(inner: Element, n: nat)
    ensures SeqRefs(Copies(inner, n)) <= ElemRefs(inner)
  {
    if n > 0 {
      assert Copies(inner, n)[1..] == Copies(inner, n - 1);
      CopiesRefs(inner, n - 1);
    }
  }

  lemma RefsOne(s: Sequence)
    ensures AltsRefs([s]) == SeqRefs(s)
    ensures AltsRefs([s, []]) == SeqRefs(s)
  {
    var none: seq<Sequence> := [];
    assert [s][1..] == none && [s, []][1..] == [[]] && [[]][1..] == none;
    assert AltsRefs([s, []]) == SeqRefs(s) + AltsRefs([[]]);
  }

  lemma RefsFew(a: Element, b: Element)
    ensures SeqRefs([a]) == ElemRefs(a) && SeqRefs([a, b]) == ElemRefs(a) + ElemRefs(b)
  {
    assert [a][1..] == [] && [a, b][1..] == [b] && [b][1..] == [];
  }

  // ---- models ----

  /** The productions `from`.. are closed in `m`. */
  ghost predicate ClosedFrom(prods: Grammar, from: nat, m: Model) {
    forall i :: from <= i < |prods| ==> AltsLang(prods[i].alts, m) <= At(m, prods[i].name)
  }

  lemma ClosedSplit(prods: Grammar, m: Model)
    ensures Closed(prods, m) <==> ClosedFrom(prods, 0, m)
  {
    if Closed(prods, m) {
      forall i, w | 0 <= i < |prods| && w in AltsLang(prods[i].alts, m) ensures w in At(m, prods[i].name) {
        assert ProducedBy(prods[i].name, w, prods, i, m);
      }
    }
    if ClosedFrom(prods, 0, m) {
      forall n, w | (n, w) in Apply(prods, m) ensures (n, w) in m {
        var i :| ProducedBy(n, w, prods, i, m);
        assert AltsLang(prods[i].alts, m) <= At(m, prods[i].name);
        assert w in At(m, n);
      }
    }
  }

  lemma ClosedPrefix(a: Grammar, b: Grammar, m: Model)
    requires a <= b && ClosedFrom(b, 0, m)
    ensures ClosedFrom(a, 0, m)
  {
    forall i | 0 <= i < |a| ensures AltsLang(a[i].alts, m) <= At(m, a[i].name) {
      assert a[i] == b[i];
    }
  }

  /** Productions stay closed in any model that agrees on the names they use. */
  lemma StaysClosed(prods: Grammar, from: nat, used: set<string>, m: Model, m': Model)
    requires InUse(prods, from, used) && ClosedFrom(prods, from, m) && Agree(m, m', used)
    ensures ClosedFrom(prods, from, m')
  {
    forall i | from <= i < |prods| ensures AltsLang(prods[i].alts, m') <= At(m', prods[i].name) {
      AltsAgree(prods[i].alts, m, m');
    }
  }

  // ---- the languages of the helpers ----

  /** What a piece of sugar makes of its item's language. */
  ghost function SugarLang(e: Element, item: Lang): Lang
    requires IsSugar(e)
  {
    match e
    case Opt(_) => EPS + item
    case Star(_, _) => Iter(item)
    case Plus(_) => Cat(item, Iter(item))
    case Rep(lo, None, _) => Cat(Pow(item, lo), Iter(item))
    case Rep(lo, Some(hi), _) => Between(item, lo, hi)
  }

  lemma SugarMono(e: Element, a: Lang, b: Lang)
    requires IsSugar(e) && a <= b
    ensures SugarLang(e, a) <= SugarLang(e, b)
  {
    IterMono(a, b);
    match e
    case Opt(_) =>
    case Star(_, _) =>
    case Plus(_) => CatMono(a, b, Iter(a), Iter(b));
    case Rep(lo, None, _) => PowMono(a, b, lo); CatMono(Pow(a, lo), Pow(b, lo), Iter(a), Iter(b));
    case Rep(lo, Some(hi), _) => BetweenMono(a, b, lo, hi);
  }

  lemma OptionLang(s: Sequence, m: Model)
    ensures AltsLang([s, []], m) == SeqLang(s, m) + EPS
  {
    AltsTwo(s, [], m);
  }

  lemma LoopAltsLang(name: string, inner: Element, m: Model)
    ensures AltsLang(LoopAlts(name, inner), m) == Cat(ElemLang(inner, m), At(m, name)) + EPS
  {
    OptionLang([inner, Ref(name)], m);
    PairLang(inner, Ref(name), m);
  }

  lemma {:induction false} CopiesLang(inner: Element, n: nat, m: Model)
    ensures SeqLang(Copies(inner, n), m) == Pow(ElemLang(inner, m), n)
  {
    if n > 0 {
      assert Copies(inner, n)[1..] == Copies(inner, n - 1);
      CopiesLang(inner, n - 1, m);
    }
  }

  lemma CopiesThenLang(inner: Element, n: nat, last: Element, m: Model)
    ensures AltsLang([Copies(inner, n) + [last]], m) == Cat(Pow(ElemLang(inner, m), n), ElemLang(last, m))
  {
    AltsOne(Copies(inner, n) + [last], m);
    SeqCat(Copies(inner, n), [last], m);
    CopiesLang(inner, n, m);
    SeqOne(last, m);
  }

  lemma CopiesAloneLang(inner: Element, n: nat, m: Model)
    ensures AltsLang([Copies(inner, n) + []], m) == Pow(ElemLang(inner, m), n)
  {
    assert Copies(inner, n) + [] == Copies(inner, n);
    AltsOne(Copies(inner, n), m);
    CopiesLang(inner, n, m);
  }

  lemma {:induction false} PowSum(a: Lang, i: nat, j: nat)
    ensures Cat(Pow(a, i), Pow(a, j)) == Pow(a, i + j)
  {
    if i == 0 {
      CatEpsLeft(Pow(a, j));
    } else {
      PowSum(a, i - 1, j);
      CatAssoc(a, Pow(a, i - 1), Pow(a, j));
    }
  }

  lemma BetweenSplit(a: Lang, lo: nat, more: nat)
    ensures Between(a, lo, lo + more) == Cat(Pow(a, lo), Between(a, 0, more))
  {
    forall w | w in Between(a, lo, lo + more) ensures w in Cat(Pow(a, lo), Between(a, 0, more)) {
      var n: nat :| lo <= n <= lo + more && Times(w, a, n);
      PowSum(a, lo, n - lo);
      var u, v := CatElim(w, Pow(a, lo), Pow(a, n - lo));
      assert Times(v, a, n - lo);
      CatIntro(u, v, Pow(a, lo), Between(a, 0, more));
    }
    forall w | w in Cat(Pow(a, lo), Between(a, 0, more)) ensures w in Between(a, lo, lo + more) {
      var u, v := CatElim(w, Pow(a, lo), Between(a, 0, more));
      var n: nat :| 0 <= n <= more && Times(v, a, n);
      CatIntro(u, v, Pow(a, lo), Pow(a, n));
      PowSum(a, lo, n);
      assert Times(w, a, lo + n);
    }
  }

  // ---- the helpers of one piece of sugar ----

  /** An item already desugared: flat, and referring to names in use. */
  ghost predicate Item(e: Element, st: State) {
    FlatElem(e) && ElemRefs(e) <= st.used
  }

  lemma MintHelper(st: State, reserved: State, name: string, alts: seq<Sequence>)
    requires Grows(st, reserved) && name in reserved.used && name !in st.used
    requires forall i :: 0 <= i < |reserved.extra| ==> reserved.extra[i].name != name
    requires AltsRefs(alts) <= reserved.used && FlatAlts(alts)
    ensures Grows(st, Mint(reserved, name, alts))
  {
  }

  lemma LoopRefs(name: string, inner: Element)
    ensures AltsRefs(LoopAlts(name, inner)) == ElemRefs(inner) + {name}
  {
    RefsOne([inner, Ref(name)]);
    RefsFew(inner, Ref(name));
  }

  lemma PlusGrows(inner: Element, st: State)
    requires Item(inner, st) && Named(st)
    ensures var (r, st') := PlusHelpers(inner, st); Grows(st, st') && Named(st') && Item(r, st')
  {
    var tail := FreshFor("star_" + HintOf(inner), st);
    var plus := FreshFor("plus_" + HintOf(inner), Use(st, tail));
    var st0 := Use(Use(st, tail), plus);
    var st1 := Mint(st0, tail, LoopAlts(tail, inner));
    LoopRefs(tail, inner);
    RefsOne([inner, Ref(tail)]);
    RefsFew(inner, Ref(tail));
    MintHelper(st, st0, tail, LoopAlts(tail, inner));
    MintHelper(st, st1, plus, [[inner, Ref(tail)]]);
  }

  lemma CopiesThenRefs(inner: Element, n: nat, rest: Sequence)
    ensures AltsRefs([Copies(inner, n) + rest]) <= ElemRefs(inner) + SeqRefs(rest)
  {
    RefsOne(Copies(inner, n) + rest);
    RefsCat(Copies(inner, n), rest);
    CopiesRefs(inner, n);
  }

  lemma AtLeastGrows(inner: Element, lo: nat, st: State)
    requires Item(inner, st) && Named(st)
    ensures var (r, st') := AtLeast(inner, lo, st); Grows(st, st') && Named(st') && Item(r, st')
  {
    var rep := FreshFor("rep_" + HintOf(inner), st);
    var tail := FreshFor("star_" + HintOf(inner), Use(st, rep));
    var st0 := Use(Use(st, rep), tail);
    var st1 := Mint(st0, tail, LoopAlts(tail, inner));
    LoopRefs(tail, inner);
    RefsFew(Ref(tail), Ref(tail));
    CopiesThenRefs(inner, lo, [Ref(tail)]);
    MintHelper(st, st0, tail, LoopAlts(tail, inner));
    MintHelper(st, st1, rep, [Copies(inner, lo) + [Ref(tail)]]);
  }

  lemma LevelGrows(inner: Element, below: Option<Element>, st: State)
    requires Item(inner, st) && Named(st) && (below.Some? ==> Item(below.value, st))
    ensures var (r, st') := Level(inner, below, st); Grows(st, st') && Named(st') && Item(r, st')
  {
    hide FreshFor;
    var body := if below.Some? then [inner, below.value] else [inner];
    var group := FreshFor("group", st);
    var st1 := Mint(st, group, [body]);
    var option := FreshFor("opt_" + group, st1);
    RefsOne(body);
    RefsFew(inner, if below.Some? then below.value else inner);
    RefsOne([Ref(group)]);
    RefsFew(Ref(group), Ref(group));
    MintGrows(st, group, [body]);
    MintGrows(st1, option, [[Ref(group)], []]);
    GrowsTrans(st, st1, Mint(st1, option, [[Ref(group)], []]));
  }

  lemma {:induction false} LevelsGrow(inner: Element, n: nat, below: Option<Element>, st: State)
    requires Item(inner, st) && Named(st) && (below.Some? ==> Item(below.value, st))
    ensures var (r, st') := Levels(inner, n, below, st);
      Grows(st, st') && Named(st') && (r.Some? ==> Item(r.value, st'))
    decreases n
  {
    hide FreshFor;
    if n > 0 {
      LevelGrows(inner, below, st);
      var (up, st1) := Level(inner, below, st);
      LevelsGrow(inner, n - 1, Some(up), st1);
      GrowsTrans(st, st1, Levels(inner, n - 1, Some(up), st1).1);
    }
  }

  lemma UseGrows(st: State, name: string)
    ensures Grows(st, Use(st, name))
  {
  }

  lemma {:induction false} BoundedGrows(inner: Element, lo: nat, more: nat, st: State)
    requires Item(inner, st) && Named(st)
    ensures var (r, st') := Bounded(inner, lo, more, st); Grows(st, st') && Named(st') && Item(r, st')
  {
    hide FreshFor;
    var rep := FreshFor("rep_" + HintOf(inner), st);
    UseGrows(st, rep);
    LevelsGrow(inner, more, None, Use(st, rep));
    var (nested, st1) := Levels(inner, more, None, Use(st, rep));
    GrowsTrans(st, Use(st, rep), st1);
    var rest := if nested.Some? then [nested.value] else [];
    if nested.Some? { RefsFew(nested.value, nested.value); }
    CopiesThenRefs(inner, lo, rest);
    MintHelper(st, st1, rep, [Copies(inner, lo) + rest]);
  }

  lemma SugarGrows(e: Element, inner: Element, st: State)
    requires IsSugar(e) && Item(inner, st) && Named(st)
    ensures var (r, st') := Sugar(e, inner, st); Grows(st, st') && Named(st') && Item(r, st')
  {
    hide FreshFor;
    match e
    case Opt(_) =>
      var name := FreshFor("opt_" + HintOf(inner), st);
      RefsOne([inner]);
      RefsFew(inner, inner);
      MintGrows(st, name, [[inner], []]);
    case Star(_, _) =>
      var name := FreshFor("star_" + HintOf(inner), st);
      LoopRefs(name, inner);
      MintGrows(st, name, LoopAlts(name, inner));
    case Plus(_) => PlusGrows(inner, st);
    case Rep(lo, None, _) => AtLeastGrows(inner, lo, st);
    case Rep(lo, Some(hi), _) => BoundedGrows(inner, lo, if lo <= hi then hi - lo else 0, st);
  }

  // ---- the helpers derive what the sugar does ----

  lemma LastClosed(st: State, name: string, alts: seq<Sequence>, m: Model)
    requires ClosedFrom(Mint(st, name, alts).extra, 0, m)
    ensures ClosedFrom(st.extra, 0, m) && AltsLang(alts, m) <= At(m, name)
  {
    var all := Mint(st, name, alts).extra;
    assert all[|st.extra|] == Production(name, alts);
    ClosedPrefix(st.extra, all, m);
  }

  lemma LoopCovers(name: string, inner: Element, m: Model)
    requires AltsLang(LoopAlts(name, inner), m) <= At(m, name)
    ensures Iter(ElemLang(inner, m)) <= At(m, name)
  {
    LoopAltsLang(name, inner, m);
    IterLeast(At(m, name), ElemLang(inner, m));
  }

  lemma PlusCovers(inner: Element, st: State, m: Model)
    requires ClosedFrom(PlusHelpers(inner, st).1.extra, 0, m)
    ensures Cat(ElemLang(inner, m), Iter(ElemLang(inner, m))) <= ElemLang(PlusHelpers(inner, st).0, m)
  {
    var tail := FreshFor("star_" + HintOf(inner), st);
    var plus := FreshFor("plus_" + HintOf(inner), Use(st, tail));
    var st0 := Use(Use(st, tail), plus);
    var st1 := Mint(st0, tail, LoopAlts(tail, inner));
    LastClosed(st1, plus, [[inner, Ref(tail)]], m);
    LastClosed(st0, tail, LoopAlts(tail, inner), m);
    LoopCovers(tail, inner, m);
    AltsOne([inner, Ref(tail)], m);
    PairLang(inner, Ref(tail), m);
    CatMono(ElemLang(inner, m), ElemLang(inner, m), Iter(ElemLang(inner, m)), At(m, tail));
  }

  lemma AtLeastCovers(inner: Element, lo: nat, st: State, m: Model)
    requires ClosedFrom(AtLeast(inner, lo, st).1.extra, 0, m)
    ensures Cat(Pow(ElemLang(inner, m), lo), Iter(ElemLang(inner, m))) <= ElemLang(AtLeast(inner, lo, st).0, m)
  {
    var rep := FreshFor("rep_" + HintOf(inner), st);
    var tail := FreshFor("star_" + HintOf(inner), Use(st, rep));
    var st0 := Use(Use(st, rep), tail);
    var st1 := Mint(st0, tail, LoopAlts(tail, inner));
    LastClosed(st1, rep, [Copies(inner, lo) + [Ref(tail)]], m);
    LastClosed(st0, tail, LoopAlts(tail, inner), m);
    LoopCovers(tail, inner, m);
    CopiesThenLang(inner, lo, Ref(tail), m);
    var p := Pow(ElemLang(inner, m), lo);
    CatMono(p, p, Iter(ElemLang(inner, m)), At(m, tail));
  }

  /** What a level's option derives, `k` levels down. */
  ghost predicate LevelCovers(inner: Element, below: Option<Element>, k: nat, m: Model) {
    if below.None? then k == 0 else Between(ElemLang(inner, m), 0, k) <= ElemLang(below.value, m)
  }

  lemma OneLevelCovers(inner: Element, below: Option<Element>, k: nat, st: State, m: Model)
    requires ClosedFrom(Level(inner, below, st).1.extra, 0, m) && LevelCovers(inner, below, k, m)
    ensures ClosedFrom(st.extra, 0, m)
    ensures Between(ElemLang(inner, m), 0, k + 1) <= ElemLang(Level(inner, below, st).0, m)
  {
    var body := if below.Some? then [inner, below.value] else [inner];
    var a := ElemLang(inner, m);
    var group := FreshFor("group", st);
    var st1 := Mint(st, group, [body]);
    var option := FreshFor("opt_" + group, st1);
    LastClosed(st1, option, [[Ref(group)], []], m);
    LastClosed(st, group, [body], m);
    AltsOne(body, m);
    OptionLang([Ref(group)], m);
    SeqOne(Ref(group), m);
    BetweenStep(a, k);
    BodyCovers(inner, below, k, m);
  }

  lemma BodyCovers(inner: Element, below: Option<Element>, k: nat, m: Model)
    requires LevelCovers(inner, below, k, m)
    ensures Cat(ElemLang(inner, m), Between(ElemLang(inner, m), 0, k))
      <= SeqLang(if below.Some? then [inner, below.value] else [inner], m)
  {
    var a := ElemLang(inner, m);
    if below.Some? {
      PairLang(inner, below.value, m);
      CatMono(a, a, Between(a, 0, k), ElemLang(below.value, m));
    } else {
      SeqOne(inner, m);
      BetweenNone(a);
      CatEpsRight(a);
    }
  }

  lemma BetweenStep(a: Lang, n: nat)
    ensures Between(a, 0, n + 1) == Cat(a, Between(a, 0, n)) + EPS
  {
    BetweenUnfold(a, n + 1);
  }

  lemma {:induction false} LevelsCover(inner: Element, n: nat, below: Option<Element>, k: nat, st: State, m: Model,
      top: Option<Element>, all: Grammar)
    requires Named(st)
    requires top == Levels(inner, n, below, st).0 && all == Levels(inner, n, below, st).1.extra
    requires ClosedFrom(all, 0, m) && LevelCovers(inner, below, k, m)
    ensures LevelCovers(inner, top, k + n, m)
    decreases n
  {
    hide FreshFor;
    if n > 0 {
      var (up, st1) := Level(inner, below, st);
      LevelWider(inner, below, st, {});
      LevelsWider(inner, n - 1, Some(up), st1, {});
      ClosedPrefix(st1.extra, all, m);
      OneLevelCovers(inner, below, k, st, m);
      LevelsCover(inner, n - 1, Some(up), k + 1, st1, m, top, all);
    }
  }

  lemma BoundedCovers(inner: Element, lo: nat, more: nat, st: State, m: Model)
    requires Named(st) && ClosedFrom(Bounded(inner, lo, more, st).1.extra, 0, m)
    ensures Between(ElemLang(inner, m), lo, lo + more) <= ElemLang(Bounded(inner, lo, more, st).0, m)
  {
    hide FreshFor;
    var rep := FreshFor("rep_" + HintOf(inner), st);
    var (nested, st1) := Levels(inner, more, None, Use(st, rep));
    var rest := if nested.Some? then [nested.value] else [];
    LastClosed(st1, rep, [Copies(inner, lo) + rest], m);
    LevelsCover(inner, more, None, 0, Use(st, rep), m, nested, st1.extra);
    var a := ElemLang(inner, m);
    BetweenSplit(a, lo, more);
    if nested.Some? {
      CopiesThenLang(inner, lo, nested.value, m);
      CatMono(Pow(a, lo), Pow(a, lo), Between(a, 0, more), ElemLang(nested.value, m));
    } else {
      CopiesAloneLang(inner, lo, m);
      BetweenNone(a);
      CatEpsRight(Pow(a, lo));
    }
  }

  /** In every model closed under the helpers, the helper derives what the sugar
      does. */
  lemma SugarCovers(e: Element, inner: Element, st: State, m: Model)
    requires IsSugar(e) && Named(st) && (e.Rep? && e.max.Some? ==> e.min <= e.max.value)
    requires ClosedFrom(Sugar(e, inner, st).1.extra, 0, m)
    ensures SugarLang(e, ElemLang(inner, m)) <= ElemLang(Sugar(e, inner, st).0, m)
  {
    match e
    case Opt(_) =>
      var name := FreshFor("opt_" + HintOf(inner), st);
      LastClosed(st, name, [[inner], []], m);
      OptionLang([inner], m);
      SeqOne(inner, m);
    case Star(_, _) =>
      var name := FreshFor("star_" + HintOf(inner), st);
      LastClosed(st, name, LoopAlts(name, inner), m);
      LoopCovers(name, inner, m);
    case Plus(_) => PlusCovers(inner, st, m);
    case Rep(lo, None, _) => AtLeastCovers(inner, lo, st, m);
    case Rep(lo, Some(hi), _) => BoundedCovers(inner, lo, hi - lo, st, m);
  }

  // ---- and no more ----

  /** A model for what was minted between `st` and `st'`: `m` on every name in use
      before, closed under the new helpers. */
  ghost predicate Extends(st: State, st': State, m: Model, m': Model) {
    Agree(m, m', st.used) && ClosedFrom(st'.extra, |st.extra|, m')
  }

  lemma ExtendsTrans(a: State, b: State, c: State, m: Model, m1: Model, m2: Model)
    requires Grows(a, b) && Grows(b, c) && Extends(a, b, m, m1) && Extends(b, c, m1, m2)
    ensures Extends(a, c, m, m2)
  {
    StaysClosed(b.extra, |a.extra|, b.used, m1, m2);
    forall i | |a.extra| <= i < |c.extra| ensures AltsLang(c.extra[i].alts, m2) <= At(m2, c.extra[i].name) {
      assert i < |b.extra| ==> c.extra[i] == b.extra[i];
    }
    forall n | n in a.used ensures At(m, n) == At(m2, n) {
      assert n in b.used;
    }
  }

  /** One helper given the language its alternatives have. */
  lemma MintExtends(st: State, reserved: State, name: string, alts: seq<Sequence>, l: Lang, m: Model)
    requires name !in st.used && st.used <= reserved.used && reserved.extra == st.extra
    requires AltsLang(alts, Assign(m, name, l)) <= l
    ensures Extends(st, Mint(reserved, name, alts), m, Assign(m, name, l))
  {
    AssignAt(m, name, l);
  }

  lemma ItemStays(inner: Element, used: set<string>, m: Model, m': Model)
    requires ElemRefs(inner) <= used && Agree(m, m', used)
    ensures ElemLang(inner, m') == ElemLang(inner, m)
  {
    ElemAgree(inner, m, m');
  }

  lemma LoopWithin(name: string, inner: Element, m: Model)
    requires At(m, name) == Iter(ElemLang(inner, m))
    ensures AltsLang(LoopAlts(name, inner), m) <= At(m, name)
  {
    LoopAltsLang(name, inner, m);
    IterUnfold(ElemLang(inner, m));
  }

  lemma OptWithin(inner: Element, st: State, name: string, m: Model) returns (m': Model)
    requires Item(inner, st) && name !in st.used
    ensures Extends(st, Mint(st, name, [[inner], []]), m, m')
    ensures At(m', name) == EPS + ElemLang(inner, m)
  {
    var l := EPS + ElemLang(inner, m);
    m' := Assign(m, name, l);
    AssignAt(m, name, l);
    AssignAgree(m, name, l, st.used);
    ItemStays(inner, st.used, m, m');
    OptionLang([inner], m');
    SeqOne(inner, m');
    MintExtends(st, st, name, [[inner], []], l, m);
  }

  lemma StarWithin(inner: Element, st: State, reserved: State, name: string, m: Model) returns (m': Model)
    requires Item(inner, st) && name !in st.used && st.used <= reserved.used && reserved.extra == st.extra
    ensures Extends(st, Mint(reserved, name, LoopAlts(name, inner)), m, m')
    ensures At(m', name) == Iter(ElemLang(inner, m))
  {
    var l := Iter(ElemLang(inner, m));
    m' := Assign(m, name, l);
    AssignAt(m, name, l);
    AssignAgree(m, name, l, st.used);
    ItemStays(inner, st.used, m, m');
    LoopWithin(name, inner, m');
    MintExtends(st, reserved, name, LoopAlts(name, inner), l, m);
  }

  /** No helper minted since `st` is `name` or refers to it. */
  ghost predicate Untouched(st: State, st1: State, name: string) {
    forall i :: |st.extra| <= i < |st1.extra| ==> st1.extra[i].name != name && name !in AltsRefs(st1.extra[i].alts)
  }

  /** A helper whose name was reserved before the helpers it is made of. */
  lemma OuterExtends(st: State, st1: State, name: string, alts: seq<Sequence>, l: Lang, m: Model, m1: Model)
    requires Extends(st, st1, m, m1) && |st.extra| <= |st1.extra| && name !in st.used && Untouched(st, st1, name)
    requires AltsLang(alts, Assign(m1, name, l)) <= l
    ensures Extends(st, Mint(st1, name, alts), m, Assign(m1, name, l))
  {
    var m2 := Assign(m1, name, l);
    AssignAt(m1, name, l);
    var all := Mint(st1, name, alts).extra;
    forall i | |st.extra| <= i < |all| ensures AltsLang(all[i].alts, m2) <= At(m2, all[i].name) {
      if i < |st1.extra| {
        AltsAgree(st1.extra[i].alts, m1, m2);
      }
    }
  }

  lemma PlusWithin(inner: Element, st: State, m: Model) returns (m': Model)
    requires Item(inner, st)
    ensures var (r, st') := PlusHelpers(inner, st);
      Extends(st, st', m, m') && ElemLang(r, m') == Cat(ElemLang(inner, m), Iter(ElemLang(inner, m)))
  {
    var tail := FreshFor("star_" + HintOf(inner), st);
    var plus := FreshFor("plus_" + HintOf(inner), Use(st, tail));
    var st0 := Use(Use(st, tail), plus);
    var st1 := Mint(st0, tail, LoopAlts(tail, inner));
    var m1 := StarWithin(inner, st, st0, tail, m);
    var a := ElemLang(inner, m);
    var l := Cat(a, Iter(a));
    m' := Assign(m1, plus, l);
    AssignAt(m1, plus, l);
    AssignAgree(m1, plus, l, st.used);
    ItemStays(inner, st.used, m, m1);
    ItemStays(inner, st.used, m1, m');
    AltsOne([inner, Ref(tail)], m');
    PairLang(inner, Ref(tail), m');
    LoopRefs(tail, inner);
    OuterExtends(st, st1, plus, [[inner, Ref(tail)]], l, m, m1);
  }

  lemma AtLeastWithin(inner: Element, lo: nat, st: State, m: Model) returns (m': Model)
    requires Item(inner, st)
    ensures var (r, st') := AtLeast(inner, lo, st);
      Extends(st, st', m, m') && ElemLang(r, m') == Cat(Pow(ElemLang(inner, m), lo), Iter(ElemLang(inner, m)))
  {
    var rep := FreshFor("rep_" + HintOf(inner), st);
    var tail := FreshFor("star_" + HintOf(inner), Use(st, rep));
    var st0 := Use(Use(st, rep), tail);
    var st1 := Mint(st0, tail, LoopAlts(tail, inner));
    var m1 := StarWithin(inner, st, st0, tail, m);
    var a := ElemLang(inner, m);
    var l := Cat(Pow(a, lo), Iter(a));
    m' := Assign(m1, rep, l);
    AssignAt(m1, rep, l);
    AssignAgree(m1, rep, l, st.used);
    ItemStays(inner, st.used, m, m1);
    ItemStays(inner, st.used, m1, m');
    CopiesThenLang(inner, lo, Ref(tail), m');
    LoopRefs(tail, inner);
    OuterExtends(st, st1, rep, [Copies(inner, lo) + [Ref(tail)]], l, m, m1);
  }

  ghost predicate LevelWithin(inner: Element, below: Option<Element>, k: nat, m: Model) {
    if below.None? then k == 0 else ElemLang(below.value, m) == Between(ElemLang(inner, m), 0, k)
  }

  lemma BodyWithin(inner: Element, below: Option<Element>, k: nat, m: Model)
    requires LevelWithin(inner, below, k, m)
    ensures SeqLang(if below.Some? then [inner, below.value] else [inner], m)
      == Cat(ElemLang(inner, m), Between(ElemLang(inner, m), 0, k))
  {
    var a := ElemLang(inner, m);
    if below.Some? {
      PairLang(inner, below.value, m);
    } else {
      SeqOne(inner, m);
      BetweenNone(a);
      CatEpsRight(a);
    }
  }

  lemma GroupWithin(st: State, name: string, body: Sequence, m: Model) returns (m': Model)
    requires name !in st.used && SeqRefs(body) <= st.used
    ensures Extends(st, Mint(st, name, [body]), m, m') && At(m', name) == SeqLang(body, m)
  {
    var l := SeqLang(body, m);
    m' := Assign(m, name, l);
    AssignAt(m, name, l);
    AssignAgree(m, name, l, st.used);
    SeqAgree(body, m, m');
    AltsOne(body, m');
    MintExtends(st, st, name, [body], l, m);
  }

  lemma {:induction false} OneLevelWithin(inner: Element, below: Option<Element>, k: nat, st: State,
      m: Model) returns (m': Model)
    requires Item(inner, st) && Named(st) && (below.Some? ==> Item(below.value, st)) && LevelWithin(inner, below, k, m)
    ensures var (r, st') := Level(inner, below, st);
      Extends(st, st', m, m') && LevelWithin(inner, Some(r), k + 1, m')
  {
    hide FreshFor;
    var body := if below.Some? then [inner, below.value] else [inner];
    var group := FreshFor("group", st);
    var st1 := Mint(st, group, [body]);
    var option := FreshFor("opt_" + group, st1);
    RefsFew(inner, if below.Some? then below.value else inner);
    var m1 := GroupWithin(st, group, body, m);
    m' := OptWithin(Ref(group), st1, option, m1);
    BodyWithin(inner, below, k, m);
    BetweenStep(ElemLang(inner, m), k);
    RefsOne(body);
    MintGrows(st, group, [body]);
    RefsOne([Ref(group)]);
    RefsFew(Ref(group), Ref(group));
    MintGrows(st1, option, [[Ref(group)], []]);
    ExtendsTrans(st, st1, Mint(st1, option, [[Ref(group)], []]), m, m1, m');
    ItemStays(inner, st.used, m, m');
  }

  lemma {:induction false} LevelsWithin(inner: Element, n: nat, below: Option<Element>, k: nat, st: State, m: Model)
    returns (m': Model)
    requires Item(inner, st) && Named(st) && (below.Some? ==> Item(below.value, st)) && LevelWithin(inner, below, k, m)
    ensures Extends(st, Levels(inner, n, below, st).1, m, m')
    ensures LevelWithin(inner, Levels(inner, n, below, st).0, k + n, m')
    decreases n
  {
    hide FreshFor;
    m' := m;
    if n > 0 {
      var up, st1 := Level(inner, below, st).0, Level(inner, below, st).1;
      var m1 := OneLevelWithin(inner, below, k, st, m);
      LevelGrows(inner, below, st);
      m' := LevelsWithin(inner, n - 1, Some(up), k + 1, st1, m1);
      LevelsGrow(inner, n - 1, Some(up), st1);
      ExtendsTrans(st, st1, Levels(inner, n - 1, Some(up), st1).1, m, m1, m');
    }
  }

  lemma {:induction false} LevelsRefs(inner: Element, n: nat, below: Option<Element>, st: State, name: string)
    requires Item(inner, st) && Named(st) && (below.Some? ==> Item(below.value, st))
    requires name !in ElemRefs(inner) && (below.Some? ==> name !in ElemRefs(below.value)) && name in st.used
    ensures Untouched(st, Levels(inner, n, below, st).1, name)
    ensures Levels(inner, n, below, st).0.Some? ==> name !in ElemRefs(Levels(inner, n, below, st).0.value)
    decreases n
  {
    hide FreshFor;
    if n > 0 {
      var up, st1 := Level(inner, below, st).0, Level(inner, below, st).1;
      LevelGrows(inner, below, st);
      LevelRefs(inner, below, st, name);
      LevelsGrow(inner, n - 1, Some(up), st1);
      LevelsRefs(inner, n - 1, Some(up), st1, name);
      var last := Levels(inner, n - 1, Some(up), st1).1;
      forall i | |st.extra| <= i < |last.extra|
        ensures last.extra[i].name != name && name !in AltsRefs(last.extra[i].alts)
      {
        assert i < |st1.extra| ==> last.extra[i] == st1.extra[i];
      }
    }
  }

  lemma LevelRefs(inner: Element, below: Option<Element>, st: State, name: string)
    requires name !in ElemRefs(inner) && (below.Some? ==> name !in ElemRefs(below.value)) && name in st.used
    ensures Untouched(st, Level(inner, below, st).1, name) && name !in ElemRefs(Level(inner, below, st).0)
  {
    var body := if below.Some? then [inner, below.value] else [inner];
    var group := FreshFor("group", st);
    RefsOne(body);
    RefsFew(inner, if below.Some? then below.value else inner);
    RefsOne([Ref(group)]);
    RefsFew(Ref(group), Ref(group));
  }

  lemma BoundedBody(inner: Element, lo: nat, more: nat, nested: Option<Element>, m: Model)
    requires LevelWithin(inner, nested, more, m)
    ensures AltsLang([Copies(inner, lo) + if nested.Some? then [nested.value] else []], m)
      == Between(ElemLang(inner, m), lo, lo + more)
  {
    var a := ElemLang(inner, m);
    BetweenSplit(a, lo, more);
    if nested.Some? {
      CopiesThenLang(inner, lo, nested.value, m);
    } else {
      CopiesAloneLang(inner, lo, m);
      BetweenNone(a);
      CatEpsRight(Pow(a, lo));
    }
  }

  lemma BoundedWithin(inner: Element, lo: nat, more: nat, st: State, m: Model) returns (m': Model)
    requires Item(inner, st) && Named(st)
    ensures var (r, st') := Bounded(inner, lo, more, st);
      Extends(st, st', m, m') && ElemLang(r, m') == Between(ElemLang(inner, m), lo, lo + more)
  {
    hide FreshFor;
    var rep := FreshFor("rep_" + HintOf(inner), st);
    var st0 := Use(st, rep);
    var nested, st1 := Levels(inner, more, None, st0).0, Levels(inner, more, None, st0).1;
    var m1 := LevelsWithin(inner, more, None, 0, st0, m);
    LevelsGrow(inner, more, None, st0);
    LevelsRefs(inner, more, None, st0, rep);
    var a := ElemLang(inner, m);
    var l := Between(a, lo, lo + more);
    var rest := if nested.Some? then [nested.value] else [];
    m' := Assign(m1, rep, l);
    AssignAt(m1, rep, l);
    ItemStays(inner, st.used, m, m1);
    AssignAgree(m1, rep, l, st.used);
    ItemStays(inner, st.used, m1, m');
    if nested.Some? {
      AssignAgree(m1, rep, l, ElemRefs(nested.value));
      ItemStays(nested.value, ElemRefs(nested.value), m1, m');
    }
    BoundedBody(inner, lo, more, nested, m');
    OuterExtends(st, st1, rep, [Copies(inner, lo) + rest], l, m, m1);
  }

  lemma {:induction false} RepWithin(lo: nat, hi: Option<nat>, inner: Element, st: State, m: Model) returns (m': Model)
    requires Item(inner, st) && Named(st) && (hi.Some? ==> lo <= hi.value)
    ensures Extends(st, Sugar(Rep(lo, hi, inner), inner, st).1, m, m')
    ensures ElemLang(Sugar(Rep(lo, hi, inner), inner, st).0, m') <= SugarLang(Rep(lo, hi, inner), ElemLang(inner, m))
  {
    if hi.None? {
      m' := AtLeastWithin(inner, lo, st, m);
    } else {
      m' := BoundedWithin(inner, lo, hi.value - lo, st, m);
    }
  }

  /** Some model agrees with `m` on the names in use, is closed under the helpers, and
      gives the helper no more than the sugar's language. */
  lemma {:induction false} SugarWithin(e: Element, inner: Element, st: State, m: Model) returns (m': Model)
    requires IsSugar(e) && Item(inner, st) && Named(st) && (e.Rep? && e.max.Some? ==> e.min <= e.max.value)
    ensures Extends(st, Sugar(e, inner, st).1, m, m')
    ensures ElemLang(Sugar(e, inner, st).0, m') <= SugarLang(e, ElemLang(inner, m))
  {
    hide FreshFor;
    match e
    case Opt(_) => m' := OptWithin(inner, st, FreshFor("opt_" + HintOf(inner), st), m);
    case Star(_, _) => m' := StarWithin(inner, st, st, FreshFor("star_" + HintOf(inner), st), m);
    case Plus(_) => m' := PlusWithin(inner, st, m);
    case Rep(lo, hi, _) => m' := RepWithin(lo, hi, inner, st, m);
  }

  // ---- elements, sequences and alternatives ----

  lemma SugarElemLang(e: Element, m: Model)
    requires IsSugar(e)
    ensures ElemLang(e, m) == SugarLang(e, ElemLang(e.inner, m))
  {
  }

  lemma {:induction false} ElemGrows(e: Element, st: State)
    requires Plain(e) && ElemRefs(e) <= st.used && Named(st)
    ensures Grows(st, Elem(e, st).1) && Named(Elem(e, st).1) && Item(Elem(e, st).0, Elem(e, st).1)
    decreases e
  {
    if e.Group? {
      GroupGrows(e.alts, st);
      var inner, st1 := GroupAlts(e.alts, st).0, GroupAlts(e.alts, st).1;
      var name := FreshFor("group", st1);
      MintGrows(st1, name, inner);
      GrowsTrans(st, st1, Mint(st1, name, inner));
    } else if IsSugar(e) {
      ElemGrows(e.inner, st);
      var inner, st1 := Elem(e.inner, st).0, Elem(e.inner, st).1;
      SugarGrows(e, inner, st1);
      GrowsTrans(st, st1, Sugar(e, inner, st1).1);
    } else {
      UseGrows(st, "");
    }
  }

  lemma {:induction false} SeqGrows(s: Sequence, st: State)
    requires PlainSeq(s) && SeqRefs(s) <= st.used && Named(st)
    ensures Grows(st, Seq(s, st).1) && Named(Seq(s, st).1)
    ensures Flat(Seq(s, st).0) && SeqRefs(Seq(s, st).0) <= Seq(s, st).1.used
    decreases s
  {
    if s != [] {
      ElemGrows(s[0], st);
      var head, st1 := Elem(s[0], st).0, Elem(s[0], st).1;
      SeqGrows(s[1..], st1);
      var tail, st2 := Seq(s[1..], st1).0, Seq(s[1..], st1).1;
      GrowsTrans(st, st1, st2);
      assert ([head] + tail)[1..] == tail;
    }
  }

  lemma {:induction false} GroupGrows(alts: seq<Owned>, st: State)
    requires PlainGroup(alts) && GroupRefs(alts) <= st.used && Named(st)
    ensures Grows(st, GroupAlts(alts, st).1) && Named(GroupAlts(alts, st).1)
    ensures FlatAlts(GroupAlts(alts, st).0) && AltsRefs(GroupAlts(alts, st).0) <= GroupAlts(alts, st).1.used
    decreases alts
  {
    if alts != [] {
      SeqGrows(alts[0].els, st);
      var head, st1 := Seq(alts[0].els, st).0, Seq(alts[0].els, st).1;
      GroupGrows(alts[1..], st1);
      var tail, st2 := GroupAlts(alts[1..], st1).0, GroupAlts(alts[1..], st1).1;
      GrowsTrans(st, st1, st2);
      assert ([head] + tail)[1..] == tail;
    }
  }

  /** In every model closed under the helpers minted, what an element is replaced by
      derives all the element does. */
  lemma {:induction false} ElemCovers(e: Element, st: State, m: Model)
    requires Plain(e) && Named(st) && ClosedFrom(Elem(e, st).1.extra, 0, m)
    ensures ElemLang(e, m) <= ElemLang(Elem(e, st).0, m)
    decreases e
  {
    if e.Group? {
      var inner, st1 := GroupAlts(e.alts, st).0, GroupAlts(e.alts, st).1;
      GroupWider(e.alts, st, {});
      LastClosed(st1, FreshFor("group", st1), inner, m);
      GroupCovers(e.alts, st, m);
    } else if IsSugar(e) {
      var inner, st1 := Elem(e.inner, st).0, Elem(e.inner, st).1;
      ElemWider(e.inner, st, {});
      SugarWider(e, inner, st1, {});
      ClosedPrefix(st1.extra, Sugar(e, inner, st1).1.extra, m);
      ElemCovers(e.inner, st, m);
      SugarCovers(e, inner, st1, m);
      SugarElemLang(e, m);
      SugarMono(e, ElemLang(e.inner, m), ElemLang(inner, m));
    }
  }

  lemma {:induction false} SeqCovers(s: Sequence, st: State, m: Model)
    requires PlainSeq(s) && Named(st) && ClosedFrom(Seq(s, st).1.extra, 0, m)
    ensures SeqLang(s, m) <= SeqLang(Seq(s, st).0, m)
    decreases s
  {
    if s != [] {
      var head, st1 := Elem(s[0], st).0, Elem(s[0], st).1;
      var tail := Seq(s[1..], st1).0;
      ElemWider(s[0], st, {});
      SeqWider(s[1..], st1, {});
      ClosedPrefix(st1.extra, Seq(s[1..], st1).1.extra, m);
      ElemCovers(s[0], st, m);
      SeqCovers(s[1..], st1, m);
      SeqCons(head, tail, m);
      CatMono(ElemLang(s[0], m), ElemLang(head, m), SeqLang(s[1..], m), SeqLang(tail, m));
    }
  }

  lemma ConsAltsLang(s: Sequence, rest: seq<Sequence>, m: Model)
    ensures AltsLang([s] + rest, m) == SeqLang(s, m) + AltsLang(rest, m)
  {
    AltsCat([s], rest, m);
    AltsOne(s, m);
  }

  lemma {:induction false} GroupCovers(alts: seq<Owned>, st: State, m: Model)
    requires PlainGroup(alts) && Named(st) && ClosedFrom(GroupAlts(alts, st).1.extra, 0, m)
    ensures GroupLang(alts, m) <= AltsLang(GroupAlts(alts, st).0, m)
    decreases alts
  {
    if alts != [] {
      var head, st1 := Seq(alts[0].els, st).0, Seq(alts[0].els, st).1;
      SeqWider(alts[0].els, st, {});
      GroupWider(alts[1..], st1, {});
      ClosedPrefix(st1.extra, GroupAlts(alts[1..], st1).1.extra, m);
      SeqCovers(alts[0].els, st, m);
      GroupCovers(alts[1..], st1, m);
      ConsAltsLang(head, GroupAlts(alts[1..], st1).0, m);
    }
  }

  /** Some model agrees with `m` on the names in use, is closed under the helpers
      minted, and gives what an element is replaced by no more than the element has. */
  lemma {:induction false} ElemWithin(e: Element, st: State, m: Model) returns (m': Model)
    requires Plain(e) && ElemRefs(e) <= st.used && Named(st)
    ensures Extends(st, Elem(e, st).1, m, m') && ElemLang(Elem(e, st).0, m') <= ElemLang(e, m)
    decreases e
  {
    m' := m;
    if e.Group? {
      var inner, st1 := GroupAlts(e.alts, st).0, GroupAlts(e.alts, st).1;
      var m1 := GroupWithinAlts(e.alts, st, m);
      GroupGrows(e.alts, st);
      m' := HelperWithin(st1, FreshFor("group", st1), inner, m1);
      MintGrows(st1, FreshFor("group", st1), inner);
      ExtendsTrans(st, st1, Mint(st1, FreshFor("group", st1), inner), m, m1, m');
    } else if IsSugar(e) {
      var inner, st1 := Elem(e.inner, st).0, Elem(e.inner, st).1;
      var m1 := ElemWithin(e.inner, st, m);
      ElemGrows(e.inner, st);
      m' := SugarWithin(e, inner, st1, m1);
      SugarGrows(e, inner, st1);
      ExtendsTrans(st, st1, Sugar(e, inner, st1).1, m, m1, m');
      SugarElemLang(e, m);
      SugarMono(e, ElemLang(inner, m1), ElemLang(e.inner, m));
    }
  }

  lemma HelperWithin(st: State, name: string, alts: seq<Sequence>, m: Model) returns (m': Model)
    requires name !in st.used && AltsRefs(alts) <= st.used
    ensures Extends(st, Mint(st, name, alts), m, m') && At(m', name) == AltsLang(alts, m)
  {
    var l := AltsLang(alts, m);
    m' := Assign(m, name, l);
    AssignAt(m, name, l);
    AssignAgree(m, name, l, st.used);
    AltsAgree(alts, m, m');
    MintExtends(st, st, name, alts, l, m);
  }

  lemma {:induction false} SeqWithin(s: Sequence, st: State, m: Model) returns (m': Model)
    requires PlainSeq(s) && SeqRefs(s) <= st.used && Named(st)
    ensures Extends(st, Seq(s, st).1, m, m') && SeqLang(Seq(s, st).0, m') <= SeqLang(s, m)
    decreases s
  {
    m' := m;
    if s != [] {
      var head, st1 := Elem(s[0], st).0, Elem(s[0], st).1;
      var tail := Seq(s[1..], st1).0;
      var m1 := ElemWithin(s[0], st, m);
      ElemGrows(s[0], st);
      SeqGrows(s[1..], st1);
      m' := SeqWithin(s[1..], st1, m1);
      ExtendsTrans(st, st1, Seq(s[1..], st1).1, m, m1, m');
      ElemAgree(head, m1, m');
      SeqAgree(s[1..], m, m1);
      SeqCons(head, tail, m');
      CatMono(ElemLang(head, m'), ElemLang(s[0], m), SeqLang(tail, m'), SeqLang(s[1..], m));
    }
  }

  lemma {:induction false} GroupWithinAlts(alts: seq<Owned>, st: State, m: Model) returns (m': Model)
    requires PlainGroup(alts) && GroupRefs(alts) <= st.used && Named(st)
    ensures Extends(st, GroupAlts(alts, st).1, m, m') && AltsLang(GroupAlts(alts, st).0, m') <= GroupLang(alts, m)
    decreases alts
  {
    m' := m;
    if alts == [] {
      forall w | w in AltsLang([], m) ensures false { var i := AltsElim(w, [], m); }
    } else {
      var head, st1 := Seq(alts[0].els, st).0, Seq(alts[0].els, st).1;
      var m1 := SeqWithin(alts[0].els, st, m);
      SeqGrows(alts[0].els, st);
      GroupGrows(alts[1..], st1);
      m' := GroupWithinAlts(alts[1..], st1, m1);
      ExtendsTrans(st, st1, GroupAlts(alts[1..], st1).1, m, m1, m');
      SeqAgree(head, m1, m');
      GroupAgree(alts[1..], m, m1);
      ConsAltsLang(head, GroupAlts(alts[1..], st1).0, m');
    }
  }

  // ---- the grammar ----

  predicate PlainAlts(alts: seq<Sequence>) {
    alts == [] || (PlainSeq(alts[0]) && PlainAlts(alts[1..]))
  }

  predicate PlainGrammar(g: Grammar) {
    forall i :: 0 <= i < |g| ==> PlainAlts(g[i].alts)
  }

  lemma {:induction false} AltsGrow(alts: seq<Sequence>, st: State)
    requires PlainAlts(alts) && AltsRefs(alts) <= st.used && Named(st)
    ensures Grows(st, Alts(alts, st).1) && Named(Alts(alts, st).1)
    ensures FlatAlts(Alts(alts, st).0) && AltsRefs(Alts(alts, st).0) <= Alts(alts, st).1.used
  {
    if alts != [] {
      SeqGrows(alts[0], st);
      var head, st1 := Seq(alts[0], st).0, Seq(alts[0], st).1;
      AltsGrow(alts[1..], st1);
      var tail, st2 := Alts(alts[1..], st1).0, Alts(alts[1..], st1).1;
      GrowsTrans(st, st1, st2);
      assert ([head] + tail)[1..] == tail;
    }
  }

  lemma {:induction false} AltsCover(alts: seq<Sequence>, st: State, m: Model)
    requires PlainAlts(alts) && Named(st) && ClosedFrom(Alts(alts, st).1.extra, 0, m)
    ensures AltsLang(alts, m) <= AltsLang(Alts(alts, st).0, m)
  {
    if alts != [] {
      var head, st1 := Seq(alts[0], st).0, Seq(alts[0], st).1;
      SeqWider(alts[0], st, {});
      AltsWider(alts[1..], st1, {});
      ClosedPrefix(st1.extra, Alts(alts[1..], st1).1.extra, m);
      SeqCovers(alts[0], st, m);
      AltsCover(alts[1..], st1, m);
      ConsAltsLang(head, Alts(alts[1..], st1).0, m);
      assert alts == [alts[0]] + alts[1..];
      ConsAltsLang(alts[0], alts[1..], m);
    }
  }

  lemma {:induction false} AltsWithin(alts: seq<Sequence>, st: State, m: Model) returns (m': Model)
    requires PlainAlts(alts) && AltsRefs(alts) <= st.used && Named(st)
    ensures Extends(st, Alts(alts, st).1, m, m') && AltsLang(Alts(alts, st).0, m') <= AltsLang(alts, m)
  {
    m' := m;
    if alts != [] {
      var head, st1 := Seq(alts[0], st).0, Seq(alts[0], st).1;
      var m1 := SeqWithin(alts[0], st, m);
      SeqGrows(alts[0], st);
      AltsGrow(alts[1..], st1);
      m' := AltsWithin(alts[1..], st1, m1);
      ExtendsTrans(st, st1, Alts(alts[1..], st1).1, m, m1, m');
      SeqAgree(head, m1, m');
      AltsAgree(alts[1..], m, m1);
      ConsAltsLang(head, Alts(alts[1..], st1).0, m');
      assert alts == [alts[0]] + alts[1..];
      ConsAltsLang(alts[0], alts[1..], m);
    }
  }

  lemma {:induction false} RulesGrow(g: Grammar, st: State)
    requires PlainGrammar(g) && Resolved(g, st.used) && Named(st)
    ensures var (r, st') := Rules(g, st);
      && Grows(st, st') && Named(st') && |r| == |g|
      && (forall i :: 0 <= i < |g| ==> r[i].name == g[i].name && FlatAlts(r[i].alts) && AltsRefs(r[i].alts) <= st'.used)
  {
    if g != [] {
      AltsGrow(g[0].alts, st);
      var alts, st1 := Alts(g[0].alts, st).0, Alts(g[0].alts, st).1;
      RulesGrow(g[1..], st1);
      GrowsTrans(st, st1, Rules(g[1..], st1).1);
    }
  }

  lemma {:induction false} RulesCover(g: Grammar, st: State, m: Model)
    requires PlainGrammar(g) && Named(st)
    requires ClosedFrom(Rules(g, st).1.extra, 0, m)
    ensures |Rules(g, st).0| == |g|
    ensures forall i :: 0 <= i < |g| ==> AltsLang(g[i].alts, m) <= AltsLang(Rules(g, st).0[i].alts, m)
  {
    if g != [] {
      AltsWider(g[0].alts, st, {});
      var st1 := Alts(g[0].alts, st).1;
      RulesWider(g[1..], st1, {});
      ClosedPrefix(st1.extra, Rules(g[1..], st1).1.extra, m);
      AltsCover(g[0].alts, st, m);
      RulesCover(g[1..], st1, m);
    }
  }

  // ---- the rules that a name reaches ----

  /** Every word there is. */
  ghost const ALL: Lang := iset w: Word | true

  /** The productions `from`.. are closed in `m`, and stay so in any model that agrees on
      the names in use: either they refer to nothing else, or they may derive anything. */
  ghost predicate Steady(prods: Grammar, from: nat, used: set<string>, m: Model) {
    forall i :: from <= i < |prods| ==> SteadyRule(prods[i], used, m)
  }

  ghost predicate SteadyRule(p: Production, used: set<string>, m: Model) {
    && p.name in used && AltsLang(p.alts, m) <= At(m, p.name)
    && (AltsRefs(p.alts) <= used || At(m, p.name) == ALL)
  }

  lemma SteadyStays(p: Production, used: set<string>, m: Model, used': set<string>, m': Model)
    requires SteadyRule(p, used, m) && Agree(m, m', used) && used <= used'
    ensures SteadyRule(p, used', m')
  {
    if AltsRefs(p.alts) <= used {
      AltsAgree(p.alts, m, m');
    }
  }

  lemma SteadyOn(a: Grammar, b: Grammar, from: nat, used: set<string>, m: Model, used': set<string>, m': Model)
    requires a <= b && from <= |a| && Steady(a, from, used, m) && Steady(b, |a|, used', m')
    requires Agree(m, m', used) && used <= used'
    ensures Steady(b, from, used', m')
  {
    hide SteadyRule;
    forall i | from <= i < |b| ensures SteadyRule(b[i], used', m') {
      if i < |a| {
        assert b[i] == a[i];
        SteadyStays(a[i], used, m, used', m');
      }
    }
  }

  /** The helpers minted between two states allowed to derive anything. */
  ghost function Freed(st: State, st': State, m: Model): Model {
    iset n: string, w: Word | (n in st'.used && n !in st.used) || (n, w) in m :: (n, w)
  }

  lemma FreedSteady(st: State, st': State, m: Model)
    requires Mints(st, st')
    ensures Agree(m, Freed(st, st', m), st.used) && Steady(st'.extra, |st.extra|, st'.used, Freed(st, st', m))
  {
    var m' := Freed(st, st', m);
    forall i | |st.extra| <= i < |st'.extra| ensures At(m', st'.extra[i].name) == ALL {
      assert forall w :: (st'.extra[i].name, w) in m';
    }
  }

  /** Each rule is one of `reach`, refers to names in use, and then to no more than it
      should, or is let derive anything. */
  ghost predicate ReachIn(g: Grammar, reach: set<string>, used: set<string>) {
    forall i :: 0 <= i < |g| && g[i].name in reach ==> PlainAlts(g[i].alts) && AltsRefs(g[i].alts) <= used
  }

  lemma {:induction false} FirstWithin(alts: seq<Sequence>, reached: bool, st: State, m: Model) returns (m': Model)
    requires Named(st) && (reached ==> PlainAlts(alts) && AltsRefs(alts) <= st.used)
    ensures var (r, st') := Alts(alts, st);
      && Agree(m, m', st.used) && Steady(st'.extra, |st.extra|, st'.used, m')
      && (reached ==> AltsLang(r, m') <= AltsLang(alts, m) && AltsRefs(r) <= st'.used)
  {
    if reached {
      m' := AltsWithin(alts, st, m);
      AltsGrow(alts, st);
    } else {
      AltsWider(alts, st, {});
      m' := Freed(st, Alts(alts, st).1, m);
      FreedSteady(st, Alts(alts, st).1, m);
    }
  }

  lemma {:induction false} RulesWithin(g: Grammar, reach: set<string>, st: State, m: Model) returns (m': Model)
    requires Named(st) && ReachIn(g, reach, st.used)
    ensures |Rules(g, st).0| == |g|
    ensures Agree(m, m', st.used) && Steady(Rules(g, st).1.extra, |st.extra|, Rules(g, st).1.used, m')
    ensures forall i :: 0 <= i < |g| && g[i].name in reach ==>
      AltsLang(Rules(g, st).0[i].alts, m') <= AltsLang(g[i].alts, m)
  {
    hide Steady, FreshFor;
    m' := m;
    if g == [] {
      NoneSteady(st.extra, st.used, m);
    } else {
      var (alts, st1) := Alts(g[0].alts, st);
      AltsWider(g[0].alts, st, {});
      RulesWider(g[1..], st1, {});
      var m1 := FirstWithin(g[0].alts, g[0].name in reach, st, m);
      m' := RulesWithin(g[1..], reach, st1, m1);
      var st2 := Rules(g[1..], st1).1;
      SteadyOn(st1.extra, st2.extra, |st.extra|, st1.used, m1, st2.used, m');
      AgreeTwice(m, m1, m', st.used, st1.used);
      if g[0].name in reach {
        AltsAgree(alts, m1, m');
      }
      forall i | 1 <= i < |g| && g[i].name in reach
        ensures AltsLang(Rules(g, st).0[i].alts, m') <= AltsLang(g[i].alts, m)
      {
        assert g[i] == g[1..][i - 1];
        AltsAgree(g[i].alts, m, m1);
      }
    }
  }

  lemma NoneSteady(prods: Grammar, used: set<string>, m: Model)
    ensures Steady(prods, |prods|, used, m)
  {
  }

  lemma AgreeTwice(a: Model, b: Model, c: Model, used: set<string>, more: set<string>)
    requires Agree(a, b, used) && Agree(b, c, more) && used <= more
    ensures Agree(a, c, used)
  {
  }

  // ---- references to no rule ----

  /** No minted name is the name of a rule that some reference misses. */
  ghost predicate Uncaptured(g: Grammar) {
    NoneTaken(g, Desugared(g))
  }

  /** A rule of the result is one of the grammar's, or bears a minted name. */
  lemma NamesOfResult(g: Grammar, n: string)
    requires n in NameSet(Desugared(g))
    ensures n in NameSet(g) || MINTED <= n
  {
    RulesWider(g, Start(g), {});
    var k :| 0 <= k < |Desugared(g)| && Desugared(g)[k].name == n;
    assert k < |g| ==> Desugared(g)[k].name == g[k].name;
  }

  /** What can be seen of the grammar as written: no capture, if no reference to a
      missing rule begins as the minted names do. */
  lemma NothingMintedUncaptured(g: Grammar)
    requires forall n :: n in Dangling(g) ==> !(MINTED <= n)
    ensures Uncaptured(g)
  {
    forall n | n in NameSet(Desugared(g)) ensures n !in Dangling(g) {
      NamesOfResult(g, n);
    }
  }

  /** The names in use with the dangling ones among them. */
  function Widened(g: Grammar): State {
    Wider(Start(g), Dangling(g))
  }

  /** The rewritten rules alone, and with the helpers: the same as if dangling names that
      nothing takes were in use. */
  lemma Parts(g: Grammar, d: set<string>)
    requires d !! NameSet(Desugared(g))
    ensures var (rules, st) := Rules(g, Start(g));
      && |rules| == |g| && Desugared(g) == rules + st.extra
      && Rules(g, Wider(Start(g), d)) == (rules, Wider(st, d))
      && (forall i :: 0 <= i < |g| ==> rules[i].name == g[i].name)
    ensures Named(Wider(Start(g), d))
  {
    hide Rules, NameSet;
    RulesWider(g, Start(g), d);
    var (rules, st) := Rules(g, Start(g));
    NamesWithin(rules, st.extra);
    forall i | 0 <= i < |st.extra| ensures st.extra[i].name !in d {
      assert st.extra[i].name in NameSet(Desugared(g));
    }
  }

  lemma NamesWithin(a: Grammar, b: Grammar)
    ensures forall i :: 0 <= i < |b| ==> b[i].name in NameSet(a + b)
  {
    forall i | 0 <= i < |b| ensures b[i].name in NameSet(a + b) {
      assert (a + b)[|a| + i] == b[i];
    }
  }

  lemma WidenedResolves(g: Grammar)
    ensures Resolved(g, Widened(g).used)
  {
  }

  /** Whatever is captured, no word is lost. */
  lemma DesugarDerivesAll(g: Grammar)
    requires PlainGrammar(g)
    ensures Language(g) <= Language(Desugared(g))
  {
    Parts(g, {});
    var (rules, st) := Rules(g, Start(g));
    var m := Language(Desugared(g));
    LanguageFixed(Desugared(g));
    ClosedParts(rules, st.extra, m);
    RulesCover(g, Start(g), m);
    forall i | 0 <= i < |g| ensures AltsLang(g[i].alts, m) <= At(m, g[i].name) {
      assert AltsLang(rules[i].alts, m) <= At(m, rules[i].name);
    }
    ClosedSplit(g, m);
    LanguageLeast(g, m);
  }

  /** From the rules of `reach` no reference leads out of them, but to a missing rule
      whose name no helper takes. */
  ghost predicate Undisturbed(g: Grammar, reach: set<string>) {
    && reach <= NameSet(g)
    && forall i, n :: 0 <= i < |g| && g[i].name in reach && n in AltsRefs(g[i].alts) ==>
         n in reach || (n in Dangling(g) && n !in NameSet(Desugared(g)))
  }

  /** The model that lets every rule outside `reach` derive anything. */
  ghost function FreeOutside(g: Grammar, reach: set<string>): Model {
    iset n: string, w: Word | (n in NameSet(g) && n !in reach) || (n, w) in Language(g) :: (n, w)
  }

  lemma FreeAgrees(g: Grammar, reach: set<string>, i: nat)
    requires Undisturbed(g, reach) && i < |g| && g[i].name in reach
    ensures AltsLang(g[i].alts, FreeOutside(g, reach)) <= At(FreeOutside(g, reach), g[i].name)
  {
    var m, l := FreeOutside(g, reach), Language(g);
    assert Agree(l, m, AltsRefs(g[i].alts));
    AltsAgree(g[i].alts, l, m);
    LanguageFixed(g);
    ClosedSplit(g, l);
  }

  lemma DesugarDerivesNoMore(g: Grammar, reach: set<string>, n: string)
    requires PlainGrammar(g) && Undisturbed(g, reach) && n in reach
    ensures At(Language(Desugared(g)), n) <= At(Language(g), n)
  {
    var d := Dangling(g) - NameSet(Desugared(g));
    Parts(g, d);
    var (rules, st) := Rules(g, Start(g));
    var m0 := FreeOutside(g, reach);
    var m' := RulesWithin(g, reach, Wider(Start(g), d), m0);
    forall i | 0 <= i < |rules| ensures AltsLang(rules[i].alts, m') <= At(m', rules[i].name) {
      assert g[i].name in NameSet(g);
      assert At(m0, g[i].name) == At(m', g[i].name);
      if g[i].name in reach {
        FreeAgrees(g, reach, i);
      }
    }
    ClosedParts(rules, st.extra, m');
    LanguageLeast(Desugared(g), m');
    forall w | w in At(Language(Desugared(g)), n) ensures w in At(Language(g), n) {
      assert (n, w) in m' && n in NameSet(g);
      assert w in At(m', n) && w in At(m0, n);
    }
  }

  /** A rule derives exactly the words it did, when no captured reference can be reached
      from it. */
  lemma DesugarKeepsRule(g: Grammar, reach: set<string>, n: string)
    requires PlainGrammar(g) && Undisturbed(g, reach) && n in reach
    ensures At(Language(Desugared(g)), n) == At(Language(g), n)
  {
    DesugarDerivesAll(g);
    DesugarDerivesNoMore(g, reach, n);
    forall w | w in At(Language(g), n) ensures w in At(Language(Desugared(g)), n) {
      assert (n, w) in Language(g);
    }
  }

  /** Every authored rule does, as long as no reference to a missing rule is captured. */
  lemma DesugarKeepsLanguage(g: Grammar, n: string)
    requires PlainGrammar(g) && Uncaptured(g) && n in NameSet(g)
    ensures At(Language(Desugared(g)), n) == At(Language(g), n)
  {
    DesugarKeepsRule(g, NameSet(g), n);
  }

  lemma ClosedParts(a: Grammar, b: Grammar, m: Model)
    ensures Closed(a + b, m) <==> ClosedFrom(a, 0, m) && ClosedFrom(b, 0, m)
  {
    ClosedSplit(a + b, m);
    if ClosedFrom(a + b, 0, m) {
      forall i | 0 <= i < |a| ensures AltsLang(a[i].alts, m) <= At(m, a[i].name) {
        assert (a + b)[i] == a[i];
      }
      forall i | 0 <= i < |b| ensures AltsLang(b[i].alts, m) <= At(m, b[i].name) {
        assert (a + b)[|a| + i] == b[i];
      }
    }
    if ClosedFrom(a, 0, m) && ClosedFrom(b, 0, m) {
      forall i | 0 <= i < |a + b| ensures AltsLang((a + b)[i].alts, m) <= At(m, (a + b)[i].name) {
        assert (a + b)[i] == if i < |a| then a[i] else b[i - |a|];
      }
    }
  }

  /** No two rules of the result have one name, whatever the references. */
  lemma DesugarKeepsDistinct(g: Grammar)
    requires DistinctNames(g)
    ensures DistinctNames(Desugared(g))
    ensures |g| <= |Desugared(g)| && forall i :: 0 <= i < |g| ==> Desugared(g)[i].name == g[i].name
  {
    RulesWider(g, Start(g), {});
    var d := Desugared(g);
    forall i, j | 0 <= i < j < |d| ensures d[i].name != d[j].name {
      if i < |g| {
        assert d[i].name == g[i].name && g[i].name in NameSet(g);
      }
    }
  }

  /** Only terminals and references are left, every rule has a name of its own, and
      every reference is to a rule or was to none. */
  lemma DesugarLeavesFlat(g: Grammar)
    requires DistinctNames(g) && PlainGrammar(g) && Uncaptured(g)
    ensures DistinctNames(Desugared(g)) && FlatGrammar(Desugared(g))
    ensures Resolved(Desugared(g), Rules(g, Start(g)).1.used + Dangling(g))
    ensures |g| <= |Desugared(g)| && forall i :: 0 <= i < |g| ==> Desugared(g)[i].name == g[i].name
  {
    DesugarKeepsDistinct(g);
    Parts(g, Dangling(g));
    WidenedResolves(g);
    RulesGrow(g, Widened(g));
  }

  /** Desugaring changes the meaning of a name exactly when it takes one, where its helpers
      derive something: each option and loop does, and each group and numeric repetition
      whose item does. */
  lemma DesugarMeanings(g: Grammar)
    requires DistinctNames(g) && PlainGrammar(g)
    ensures Uncaptured(g) ==> Meanings(g, Desugared(g))
    ensures NewRulesDerive(g, Desugared(g)) ==> (Uncaptured(g) <==> Meanings(g, Desugared(g)))
  {
    DesugarKeepsDistinct(g);
    if Uncaptured(g) {
      forall n | n in NameSet(g) ensures At(Language(Desugared(g)), n) == At(Language(g), n) {
        DesugarKeepsLanguage(g, n);
      }
    }
    MeaningsExactly(g, Desugared(g));
  }

  /** S = [ T ] "b" / _gen1_opt_T with T = "a": the second alternative refers to no
      rule and derives nothing, until the option's helper takes its name. */
  function Capturing(): Grammar {
    [Production("S", [[Opt(Ref("T")), Term("b")], [Ref("_gen1_opt_T")]]), Production("T", [[Term("a")]])]
  }

  /** Refusing a reference to no rule is left to emission, which runs after this pass
      and then finds a rule. */
  lemma DanglingCaptured()
    ensures !Uncaptured(Capturing())
    ensures ("S", []) !in Language(Capturing()) && ("S", []) in Language(Desugared(Capturing()))
  {
    var g := Capturing();
    CapturedShape(g);
    NotBefore(g);
    var d := Desugared(g);
    var m := Language(d);
    LanguageFixed(d);
    AltsIntro(1, [], d[2].alts, m);
    assert ProducedBy("_gen1_opt_T", [], d, 2, m);
    SeqOne(Ref("_gen1_opt_T"), m);
    AltsIntro(1, [], d[0].alts, m);
    assert ProducedBy("S", [], d, 0, m);
    IsDangling(g);
    assert d[2].name in NameSet(d);
  }

  lemma IsDangling(g: Grammar)
    requires g == Capturing()
    ensures "_gen1_opt_T" in Dangling(g)
  {
    var first, second := [Opt(Ref("T")), Term("b")], [Ref("_gen1_opt_T")];
    assert g[0].alts == [first, second] && [first, second][1..] == [second] && [second][1..] == [];
    RefsFew(Ref("_gen1_opt_T"), Ref("_gen1_opt_T"));
    assert AltsRefs([second]) == SeqRefs(second) + AltsRefs([]);
    assert "_gen1_opt_T" in AltsRefs(g[0].alts);
    assert g[0].name == "S" && g[1].name == "T" && |"_gen1_opt_T"| != 1;
    assert forall n :: n in NameSet(g) ==> |n| == 1;
  }

  lemma CapturedShape(g: Grammar)
    requires g == Capturing()
    ensures |Desugared(g)| == 3
    ensures Desugared(g)[0].name == "S"
    ensures Desugared(g)[0].alts == [[Ref("_gen1_opt_T"), Term("b")], [Ref("_gen1_opt_T")]]
    ensures Desugared(g)[2] == Production("_gen1_opt_T", [[Ref("T")], []])
  {
    var st := Start(g);
    assert g[1..][1..] == [];
    assert Decimal(1) == "1";
    assert Numbered("_gen", 1, "_opt_T") == "_gen1_opt_T";
    assert FreshFor("opt_T", st) == "_gen1_opt_T";
    var st1 := Mint(st, "_gen1_opt_T", [[Ref("T")], []]);
    assert "opt_" + HintOf(Ref("T")) == "opt_T" && "_" + "opt_T" == "_opt_T";
    assert Elem(Opt(Ref("T")), st) == Sugar(Opt(Ref("T")), Ref("T"), st);
    assert Elem(Opt(Ref("T")), st) == (Ref("_gen1_opt_T"), st1);
    var first, second := [Opt(Ref("T")), Term("b")], [Ref("_gen1_opt_T")];
    assert first[1..] == [Term("b")];
    FlatUnchanged([Term("b")], st1);
    assert Seq(first, st) == ([Ref("_gen1_opt_T")] + [Term("b")], st1);
    FlatUnchanged(second, st1);
    assert [second][1..] == [] && [first, second][1..] == [second];
    assert Alts([second], st1) == ([second] + [], st1);
    var third := [Term("a")];
    FlatUnchanged(third, st1);
    assert [third][1..] == [];
    assert Alts([third], st1) == ([third] + [], st1);
    assert Rules(g[1..][1..], st1) == ([], st1);
    assert Rules(g[1..], st1) == ([Production("T", [third] + [])] + [], st1);
    assert Alts([first, second], st) == ([[Ref("_gen1_opt_T")] + [Term("b")]] + ([second] + []), st1);
    assert [Ref("_gen1_opt_T")] + [Term("b")] == [Ref("_gen1_opt_T"), Term("b")];
    assert [[Ref("_gen1_opt_T")] + [Term("b")]] + ([second] + []) == [[Ref("_gen1_opt_T"), Term("b")], second];
  }

  /** What is already flat is left as it is, the copies a bounded repetition makes of
      its desugared item among it. */
  lemma {:induction false} FlatUnchanged(s: Sequence, st: State)
    requires Flat(s)
    ensures Seq(s, st) == (s, st)
  {
    if s != [] {
      assert s == [s[0]] + s[1..] && FlatElem(s[0]);
      FlatUnchanged(s[1..], st);
    }
  }

  lemma NotBefore(g: Grammar)
    requires g == Capturing()
    ensures ("S", []) !in Language(g)
  {
    hide SeqLang, ElemLang, Language;
    var m := Language(g);
    LanguageFixed(g);
    if ("S", []) in m {
      var i :| ProducedBy("S", [], g, i, m);
      var k := AltsElim([], g[0].alts, m);
      NeitherIsEmpty(m, k);
      NoRule(g, "_gen1_opt_T", []);
    }
  }

  lemma NeitherIsEmpty(m: Model, k: nat)
    requires k < 2 && [] in SeqLang(Capturing()[0].alts[k], m)
    ensures ("_gen1_opt_T", []) in m
  {
    if k == 0 {
      PairLang(Opt(Ref("T")), Term("b"), m);
      var u, v := CatElim([], ElemLang(Opt(Ref("T")), m), ElemLang(Term("b"), m));
    } else {
      SeqOne(Ref("_gen1_opt_T"), m);
    }
  }
}
