/** A rule that repeats itself through a trailing option, `X = p [ s X ]`, marked as a
    repetition `p` then any number of `s p`. */
module TailRepeat {
  import opened Ir
  import opened Languages

  /** A rule, and the separator it is repeated over when it is a tail repeat. */
  datatype Marked = Marked(rule: Production, sep: Option<Sequence>)

  predicate Terminals(s: Sequence) {
    forall i :: 0 <= i < |s| ==> s[i].Term?
  }

  /** The body of an option as a sequence; none when it is a choice. */
  function OptionBody(inner: Element): Option<Sequence> {
    match inner
    case Group(alts) => if |alts| == 1 then Some(alts[0].els) else None
    case _ => Some([inner])
  }

  /** The separator of a rule of that form, every piece but the option terminals. */
  function SeparatorOf(p: Production, start: string): Option<Sequence> {
    if p.name == start || |p.alts| != 1 || |p.alts[0]| < 2 then None
    else
      var last, prefix := p.alts[0][|p.alts[0]| - 1], p.alts[0][..|p.alts[0]| - 1];
      if !last.Opt? then None
      else
        var body := OptionBody(last.inner);
        if body.None? || |body.value| < 2 || !IsRefTo(body.value[|body.value| - 1], p.name) then None
        else
          var sep := body.value[..|body.value| - 1];
          if Terminals(sep) && Terminals(prefix) then Some(sep) else None
  }

  function Mark(p: Production, start: string): Marked {
    var sep := SeparatorOf(p, start);
    if sep.None? then Marked(p, None) else Marked(Production(p.name, [p.alts[0][..|p.alts[0]| - 1]]), sep)
  }

  /** The rule a marked one stands for. */
  function Meaning(m: Marked): Production {
    if m.sep.Some? && |m.rule.alts| == 1 then
      Production(m.rule.name, [m.rule.alts[0] + [Star(GroupOf([m.sep.value + m.rule.alts[0]]), None)]])
    else m.rule
  }

  function Meanings(ms: seq<Marked>): (g: Grammar)
    ensures |g| == |ms| && forall i :: 0 <= i < |ms| ==> g[i] == Meaning(ms[i])
  {
    seq(|ms|, i requires 0 <= i < |ms| => Meaning(ms[i]))
  }

  // ---- the two languages ----

  lemma {:induction false} RotateTimes(p: Lang, s: Lang, y: Lang, n: nat)
    requires p <= y && Cat(p, Cat(s, y)) <= y
    ensures Cat(p, Pow(Cat(s, p), n)) <= y
  {
    if n == 0 {
      CatEpsRight(p);
    } else {
      var rest := Pow(Cat(s, p), n - 1);
      RotateTimes(p, s, y, n - 1);
      CatAssoc(s, p, rest);
      CatMono(s, s, Cat(p, rest), y);
      CatMono(p, p, Cat(s, Cat(p, rest)), Cat(s, y));
    }
  }

  /** Whatever is closed under one turn holds every number of turns. */
  lemma Rotates(p: Lang, s: Lang, y: Lang)
    requires p <= y && Cat(p, Cat(s, y)) <= y
    ensures Cat(p, Iter(Cat(s, p))) <= y
  {
    forall w | w in Cat(p, Iter(Cat(s, p))) ensures w in y {
      var u, v := CatElim(w, p, Iter(Cat(s, p)));
      var n: nat :| Times(v, Cat(s, p), n);
      CatIntro(u, v, p, Pow(Cat(s, p), n));
      RotateTimes(p, s, y, n);
    }
  }

  /** The repetition is closed under one turn. */
  lemma Unrolls(p: Lang, s: Lang)
    ensures var y := Cat(p, Iter(Cat(s, p))); p <= y && Cat(p, Cat(s, y)) <= y
  {
    var turn := Cat(s, p);
    var all := Iter(turn);
    IterUnfold(turn);
    CatEpsRight(p);
    CatMono(p, p, EPS, all);
    CatAssoc(s, p, all);
    CatMono(p, p, Cat(turn, all), all);
  }

  lemma {:induction false} OptionBodyLang(inner: Element, body: Sequence, m: Model)
    requires OptionBody(inner) == Some(body)
    ensures SeqLang(body, m) == ElemLang(inner, m)
  {
    hide SeqLang, AltsLang;
    if inner.Group? {
      GroupPlain(inner.alts, m);
      assert Unowned(inner.alts) == [body];
      AltsOne(body, m);
    } else {
      SeqOne(inner, m);
    }
  }

  lemma OptionAfter(p: Lang, x: Lang)
    ensures Cat(p, EPS + x) == p + Cat(p, x)
  {
    CatUnion(EPS, x, p);
    CatEpsRight(p);
  }

  /** What the authored rule matches: a prefix alone, or a prefix, a separator and the
      rule again. */
  lemma AuthoredLang(q: Production, start: string, m: Model)
    requires SeparatorOf(q, start).Some?
    ensures var p, s := SeqLang(q.alts[0][..|q.alts[0]| - 1], m), SeqLang(SeparatorOf(q, start).value, m);
      AltsLang(q.alts, m) == p + Cat(p, Cat(s, At(m, q.name)))
  {
    var alt := q.alts[0];
    var prefix, last := alt[..|alt| - 1], alt[|alt| - 1];
    var body := OptionBody(last.inner).value;
    var sep := body[..|body| - 1];
    assert q.alts == [alt] && alt == prefix + [last] && body == sep + [Ref(q.name)];
    AltsOne(alt, m);
    SeqCat(prefix, [last], m);
    SeqOne(last, m);
    OptionBodyLang(last.inner, body, m);
    SeqCat(sep, [Ref(q.name)], m);
    SeqOne(Ref(q.name), m);
    OptionAfter(SeqLang(prefix, m), SeqLang(body, m));
  }

  lemma MarkedLang(q: Production, start: string, m: Model)
    requires SeparatorOf(q, start).Some?
    ensures var p, s := SeqLang(q.alts[0][..|q.alts[0]| - 1], m), SeqLang(SeparatorOf(q, start).value, m);
      AltsLang(Meaning(Mark(q, start)).alts, m) == Cat(p, Iter(Cat(s, p)))
  {
    var prefix, sep := q.alts[0][..|q.alts[0]| - 1], SeparatorOf(q, start).value;
    var turn := GroupOf([sep + prefix]);
    AltsOne(prefix + [Star(turn, None)], m);
    SeqCat(prefix, [Star(turn, None)], m);
    SeqOne(Star(turn, None), m);
    GroupOfLang([sep + prefix], m);
    AltsOne(sep + prefix, m);
    SeqCat(sep, prefix, m);
  }

  /** Marking one rule keeps the language of every rule. */
  lemma MarkKeeps(g: Grammar, i: nat, start: string)
    requires i < |g| && DistinctNames(g)
    ensures Language(g[i := Meaning(Mark(g[i], start))]) == Language(g)
  {
    var q := g[i];
    if SeparatorOf(q, start).None? {
      assert g[i := q] == g;
    } else {
      var alts := Meaning(Mark(q, start)).alts;
      var g' := g[i := Production(q.name, alts)];
      var m, m' := Language(g), Language(g');
      RuleLanguage(g, i);
      RuleLanguage(g', i);
      AuthoredLang(q, start, m);
      AuthoredLang(q, start, m');
      MarkedLang(q, start, m);
      MarkedLang(q, start, m');
      var sep, prefix := SeparatorOf(q, start).value, q.alts[0][..|q.alts[0]| - 1];
      Rotates(SeqLang(prefix, m), SeqLang(sep, m), At(m, q.name));
      Unrolls(SeqLang(prefix, m'), SeqLang(sep, m'));
      RewriteRule(g, i, alts);
    }
  }

  /** The pass: each rule marked where it has the form, and the grammar it then stands
      for derives exactly what the authored one did. */
  method RewriteTailRepeats(g: Grammar, start: string) returns (ms: seq<Marked>)
    requires DistinctNames(g)
    ensures |ms| == |g| && forall i :: 0 <= i < |g| ==> ms[i] == Mark(g[i], start)
    ensures Language(Meanings(ms)) == Language(g)
  {
    ms := [];
    ghost var now := g;
    for i := 0 to |g|
      invariant |ms| == i && forall j :: 0 <= j < i ==> ms[j] == Mark(g[j], start)
      invariant Partly(g, ms, now) && DistinctNames(now)
      invariant Language(now) == Language(g)
    {
      MarkKeeps(now, i, start);
      now := now[i := Meaning(Mark(now[i], start))];
      ms := ms + [Mark(g[i], start)];
    }
    assert now == Meanings(ms);
  }

  /** The marked rules as what they stand for, the others as authored. */
  ghost predicate Partly(g: Grammar, ms: seq<Marked>, now: Grammar) {
    && |ms| <= |g| == |now|
    && (forall j :: 0 <= j < |ms| ==> now[j] == Meaning(ms[j]))
    && (forall j :: |ms| <= j < |g| ==> now[j] == g[j])
    && (forall j :: 0 <= j < |g| ==> now[j].name == g[j].name)
  }
}
