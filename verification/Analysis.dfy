/** Token-level analysis of a desugared grammar: FIRST sets and nullability, FOLLOW
    and FOLLOW2, each computed to a fixed point. */
module Analysis {
  import opened Ir
  import opened Forms

  type Sets = map<string, set<string>>

  const END: string := "#ZZ"

  function FirstIn(first: Sets, n: string): set<string> {
    if n in first then first[n] else {}
  }

  /** The tokens a sequence can begin with, and whether it can vanish. */
  function FirstOfSeq(s: Sequence, first: Sets, nullable: set<string>): (set<string>, bool) {
    if s == [] then ({}, true)
    else
      match s[0]
      case Term(t) => ({t}, false)
      case Ref(n) =>
        if n in nullable then
          var (rest, vanishes) := FirstOfSeq(s[1..], first, nullable);
          (FirstIn(first, n) + rest, vanishes)
        else (FirstIn(first, n), false)
      case _ => ({}, false)
  }

  lemma {:induction false} FirstCat(u: Sequence, v: Sequence, first: Sets, nullable: set<string>)
    ensures FirstOfSeq(u + v, first, nullable).0
      == FirstOfSeq(u, first, nullable).0
        + if FirstOfSeq(u, first, nullable).1 then FirstOfSeq(v, first, nullable).0 else {}
    ensures FirstOfSeq(u + v, first, nullable).1 <==>
      FirstOfSeq(u, first, nullable).1 && FirstOfSeq(v, first, nullable).1
  {
    if u == [] {
      assert u + v == v;
    } else {
      assert (u + v)[0] == u[0] && (u + v)[1..] == u[1..] + v;
      FirstCat(u[1..], v, first, nullable);
    }
  }

  // ---- what the sets mean ----

  ghost predicate BeginsVia(g: Grammar, s: Sequence, t: string, rest: Sequence) {
    Reaches(g, s, [Term(t)] + rest)
  }

  /** `s` derives a form that begins with the token `t`. */
  ghost predicate Begins(g: Grammar, s: Sequence, t: string) {
    exists rest :: BeginsVia(g, s, t, rest)
  }

  ghost predicate Vanishes(g: Grammar, s: Sequence) {
    Reaches(g, s, [])
  }

  ghost predicate FirstSound(g: Grammar, first: Sets, nullable: set<string>) {
    && (forall n, t :: n in first && t in first[n] ==> Begins(g, [Ref(n)], t))
    && (forall n :: n in nullable ==> Vanishes(g, [Ref(n)]))
  }

  /** What one alternative begins with, its rule's sets already hold. */
  ghost predicate Within(alt: Sequence, name: string, first: Sets, nullable: set<string>) {
    && FirstOfSeq(alt, first, nullable).0 <= FirstIn(first, name)
    && (FirstOfSeq(alt, first, nullable).1 ==> name in nullable)
  }

  ghost predicate FirstClosed(g: Grammar, first: Sets, nullable: set<string>) {
    forall i, k :: 0 <= i < |g| && 0 <= k < |g[i].alts| ==> Within(g[i].alts[k], g[i].name, first, nullable)
  }

  lemma BeginsInside(g: Grammar, u: Sequence, v: Sequence, t: string)
    requires Vanishes(g, u) && Begins(g, v, t)
    ensures Begins(g, u + v, t)
  {
    var rest :| BeginsVia(g, v, t, rest);
    ReachesBoth(g, u, [], v, [Term(t)] + rest);
    assert [] + ([Term(t)] + rest) == [Term(t)] + rest;
    assert BeginsVia(g, u + v, t, rest);
  }

  lemma BeginsExtended(g: Grammar, u: Sequence, v: Sequence, t: string)
    requires Begins(g, u, t)
    ensures Begins(g, u + v, t)
  {
    var rest :| BeginsVia(g, u, t, rest);
    ReachesRefl(g, v);
    ReachesBoth(g, u, [Term(t)] + rest, v, v);
    assert [Term(t)] + rest + v == [Term(t)] + (rest + v);
    assert BeginsVia(g, u + v, t, rest + v);
  }

  lemma VanishesBoth(g: Grammar, u: Sequence, v: Sequence)
    requires Vanishes(g, u) && Vanishes(g, v)
    ensures Vanishes(g, u + v)
  {
    ReachesBoth(g, u, [], v, []);
    var none: Sequence := [];
    assert none + none == none;
  }

  /** Sound sets read a sequence soundly. */
  lemma {:induction false} FirstOfSeqSound(g: Grammar, s: Sequence, first: Sets, nullable: set<string>)
    requires FirstSound(g, first, nullable)
    ensures forall t :: t in FirstOfSeq(s, first, nullable).0 ==> Begins(g, s, t)
    ensures FirstOfSeq(s, first, nullable).1 ==> Vanishes(g, s)
  {
    if s == [] {
      ReachesRefl(g, s);
    } else {
      FirstOfSeqSound(g, s[1..], first, nullable);
      assert s == [s[0]] + s[1..];
      forall t | t in FirstOfSeq(s, first, nullable).0 ensures Begins(g, s, t) {
        match s[0]
        case Term(x) =>
          ReachesRefl(g, s);
          assert BeginsVia(g, s, t, s[1..]);
        case Ref(n) =>
          if t in FirstIn(first, n) {
            BeginsExtended(g, [s[0]], s[1..], t);
          } else {
            BeginsInside(g, [s[0]], s[1..], t);
          }
        case _ =>
      }
      if FirstOfSeq(s, first, nullable).1 {
        VanishesBoth(g, [s[0]], s[1..]);
      }
    }
  }

  /** Putting something in a sequence's middle that begins with no more. */
  lemma MiddleFirst(u: Sequence, x: Sequence, y: Sequence, v: Sequence, first: Sets, nullable: set<string>)
    requires FirstOfSeq(y, first, nullable).0 <= FirstOfSeq(x, first, nullable).0
    requires FirstOfSeq(y, first, nullable).1 ==> FirstOfSeq(x, first, nullable).1
    ensures FirstOfSeq(u + (y + v), first, nullable).0 <= FirstOfSeq(u + (x + v), first, nullable).0
    ensures FirstOfSeq(u + (y + v), first, nullable).1 ==> FirstOfSeq(u + (x + v), first, nullable).1
  {
    FirstCat(u, x + v, first, nullable);
    FirstCat(u, y + v, first, nullable);
    FirstCat(x, v, first, nullable);
    FirstCat(y, v, first, nullable);
  }

  lemma RefFirst(n: string, first: Sets, nullable: set<string>)
    ensures FirstOfSeq([Ref(n)], first, nullable).0 == FirstIn(first, n)
    ensures FirstOfSeq([Ref(n)], first, nullable).1 <==> n in nullable
  {
    assert [Ref(n)][1..] == [];
  }

  /** A step back from a form keeps what it begins with. */
  lemma StepFirst(g: Grammar, a: Sequence, b: Sequence, first: Sets, nullable: set<string>)
    requires FirstClosed(g, first, nullable) && Step(g, a, b)
    ensures FirstOfSeq(b, first, nullable).0 <= FirstOfSeq(a, first, nullable).0
    ensures FirstOfSeq(b, first, nullable).1 ==> FirstOfSeq(a, first, nullable).1
  {
    hide FirstOfSeq, Within, StepAt;
    var i, q, k :| StepAt(g, a, b, i, q, k);
    StepParts(g, a, b, i, q, k);
    assert Within(g[q].alts[k], g[q].name, first, nullable);
    StepFirstAt(a[..i], g[q].name, g[q].alts[k], a[i + 1..], first, nullable);
  }

  lemma StepFirstAt(u: Sequence, n: string, alt: Sequence, v: Sequence, first: Sets, nullable: set<string>)
    requires Within(alt, n, first, nullable)
    ensures FirstOfSeq(u + (alt + v), first, nullable).0 <= FirstOfSeq(u + ([Ref(n)] + v), first, nullable).0
    ensures FirstOfSeq(u + (alt + v), first, nullable).1 ==> FirstOfSeq(u + ([Ref(n)] + v), first, nullable).1
  {
    RefFirst(n, first, nullable);
    MiddleFirst(u, [Ref(n)], alt, v, first, nullable);
  }

  lemma {:induction false} ReachesFirst(g: Grammar, fs: seq<Sequence>, a: Sequence, b: Sequence, first: Sets,
      nullable: set<string>)
    requires FirstClosed(g, first, nullable) && Derives(g, fs, a, b)
    ensures FirstOfSeq(b, first, nullable).0 <= FirstOfSeq(a, first, nullable).0
    ensures FirstOfSeq(b, first, nullable).1 ==> FirstOfSeq(a, first, nullable).1
    decreases |fs|
  {
    if |fs| > 1 {
      DerivesSplit(g, fs, a, b);
      StepFirst(g, a, fs[1], first, nullable);
      ReachesFirst(g, fs[1..], fs[1], b, first, nullable);
    }
  }

  /** Exactly the tokens a derivation can begin with, and exactly the rules that
      derive the empty form. */
  ghost predicate FirstExact(g: Grammar, first: Sets, nullable: set<string>) {
    && (forall s, t {:trigger Begins(g, s, t)} :: Flat(s) ==>
      (t in FirstOfSeq(s, first, nullable).0 <==> Begins(g, s, t)))
    && (forall s {:trigger Vanishes(g, s)} :: Flat(s) ==> (FirstOfSeq(s, first, nullable).1 <==> Vanishes(g, s)))
  }

  lemma ClosedIsExact(g: Grammar, first: Sets, nullable: set<string>)
    requires FirstSound(g, first, nullable) && FirstClosed(g, first, nullable)
    ensures FirstExact(g, first, nullable)
  {
    forall s, t | Flat(s) ensures t in FirstOfSeq(s, first, nullable).0 <==> Begins(g, s, t) {
      FirstOfSeqSound(g, s, first, nullable);
      if Begins(g, s, t) {
        var rest :| BeginsVia(g, s, t, rest);
        var fs :| Derives(g, fs, s, [Term(t)] + rest);
        ReachesFirst(g, fs, s, [Term(t)] + rest, first, nullable);
      }
    }
    forall s | Flat(s) ensures FirstOfSeq(s, first, nullable).1 <==> Vanishes(g, s) {
      FirstOfSeqSound(g, s, first, nullable);
      if Vanishes(g, s) {
        var fs :| Derives(g, fs, s, []);
        ReachesFirst(g, fs, s, [], first, nullable);
      }
    }
  }

  // ---- sets that only grow ----

  ghost function Entries<T>(m: map<string, set<T>>): set<(string, T)> {
    set n, t | n in m && t in m[n] :: (n, t)
  }

  ghost function Universe<T>(names: set<string>, toks: set<T>): set<(string, T)> {
    set n, t | n in names && t in toks :: (n, t)
  }

  ghost predicate Bounded<T>(m: map<string, set<T>>, names: set<string>, toks: set<T>) {
    m.Keys == names && forall n :: n in m ==> m[n] <= toks
  }

  lemma SubsetSize<T>(a: set<T>, b: set<T>)
    requires a <= b
    ensures |a| <= |b| && (|a| == |b| ==> a == b)
  {
    assert b == a + (b - a) && a * (b - a) == {};
  }

  /** How many more entries there is room for. */
  ghost function Room<T>(m: map<string, set<T>>, names: set<string>, toks: set<T>): (r: nat)
    requires Bounded(m, names, toks)
  {
    SubsetSize(Entries(m), Universe(names, toks));
    |Universe(names, toks)| - |Entries(m)|
  }

  lemma RoomShrinks<T>(m: map<string, set<T>>, n: string, add: set<T>, names: set<string>, toks: set<T>)
    requires Bounded(m, names, toks) && n in m && add <= toks
    ensures Bounded(m[n := m[n] + add], names, toks)
    ensures add <= m[n] ==> m[n := m[n] + add] == m
    ensures !(add <= m[n]) ==> Room(m[n := m[n] + add], names, toks) < Room(m, names, toks)
  {
    var m' := m[n := m[n] + add];
    if add <= m[n] {
      assert m[n] + add == m[n];
    } else {
      var t :| t in add && t !in m[n];
      assert (n, t) in Entries(m') && (n, t) !in Entries(m);
      assert Entries(m) <= Entries(m');
      SubsetSize(Entries(m), Entries(m'));
    }
  }

  function TermsOf(g: Grammar): set<string> {
    set i, k, j | 0 <= i < |g| && 0 <= k < |g[i].alts| && 0 <= j < |g[i].alts[k]| && g[i].alts[k][j].Term? ::
      g[i].alts[k][j].tok
  }

  ghost predicate TermsIn(s: Sequence, toks: set<string>) {
    forall j :: 0 <= j < |s| && s[j].Term? ==> s[j].tok in toks
  }

  lemma {:induction false} FirstInTerms(s: Sequence, first: Sets, nullable: set<string>, names: set<string>,
      toks: set<string>)
    requires TermsIn(s, toks) && Bounded(first, names, toks)
    ensures FirstOfSeq(s, first, nullable).0 <= toks
  {
    if s != [] {
      FirstInTerms(s[1..], first, nullable, names, toks);
    }
  }

  // ---- FIRST ----

  /** One alternative read into its rule's FIRST set, element by element up to the
      first that cannot vanish. */
  method ReadAlternative(name: string, alt: Sequence, first: Sets, nullable: set<string>)
    returns (first': Sets, nullable': set<string>, changed: bool)
    requires name in first && Flat(alt)
    ensures first' == first[name := first[name] + FirstOfSeq(alt, first, nullable).0]
    ensures nullable' == nullable + if FirstOfSeq(alt, first, nullable).1 then {name} else {}
    ensures changed <==> first' != first || nullable' != nullable
  {
    var set0 := first[name];
    var own := set0;
    var altNullable := true;
    var j := 0;
    changed := false;
    ghost var (want, vanishes) := FirstOfSeq(alt, first, nullable);
    while j < |alt|
      invariant 0 <= j <= |alt|
      invariant altNullable && set0 <= own
      invariant own + FirstOfSeq(alt[j..], first, nullable).0 == set0 + want
      invariant FirstOfSeq(alt[j..], first, nullable).1 == vanishes
      invariant changed <==> own != set0
    {
      assert alt[j..][0] == alt[j] && alt[j..][1..] == alt[j + 1..] && FlatElem(alt[j]);
      match alt[j] {
        case Term(t) =>
          if t !in own {
            own := own + {t};
            changed := true;
          }
          altNullable := false;
          break;
        case Ref(n) =>
          var read := if n == name then own else FirstIn(first, n);
          if !(read <= own) {
            own := own + read;
            changed := true;
          }
          if n !in nullable {
            altNullable := false;
            break;
          }
        case _ =>
          assert false;
      }
      j := j + 1;
    }
    assert own == set0 + want && altNullable == vanishes;
    first' := first[name := own];
    nullable' := nullable;
    assert first' == first <==> own == set0;
    if altNullable && name !in nullable {
      nullable' := nullable + {name};
      changed := true;
    }
  }

  ghost function Spare(first: Sets, nullable: set<string>, names: set<string>, toks: set<string>): (r: nat)
    requires Bounded(first, names, toks) && nullable <= names
  {
    SubsetSize(nullable, names);
    Room(first, names, toks) + (|names| - |nullable|)
  }

  /** Reading an alternative keeps the sets sound and bounded. */
  lemma AltReadSound(g: Grammar, i: nat, k: nat, first: Sets, nullable: set<string>, first': Sets,
      nullable': set<string>)
    requires i < |g| && k < |g[i].alts| && g[i].name in first && FirstSound(g, first, nullable)
    requires first' == first[g[i].name := first[g[i].name] + FirstOfSeq(g[i].alts[k], first, nullable).0]
    requires nullable' == nullable + if FirstOfSeq(g[i].alts[k], first, nullable).1 then {g[i].name} else {}
    ensures FirstSound(g, first', nullable')
  {
    FirstOfSeqSound(g, g[i].alts[k], first, nullable);
    RuleReaches(g, i, k);
    forall n, t | n in first' && t in first'[n] ensures Begins(g, [Ref(n)], t) {
      if n == g[i].name && t !in first[n] {
        var rest :| BeginsVia(g, g[i].alts[k], t, rest);
        ReachesTrans(g, [Ref(n)], g[i].alts[k], [Term(t)] + rest);
        assert BeginsVia(g, [Ref(n)], t, rest);
      }
    }
    forall n | n in nullable' ensures Vanishes(g, [Ref(n)]) {
      if n !in nullable {
        ReachesTrans(g, [Ref(n)], g[i].alts[k], []);
      }
    }
  }

  lemma AltReadSpare(name: string, add: set<string>, vanished: set<string>, first: Sets, nullable: set<string>,
                     first': Sets, nullable': set<string>, names: set<string>, toks: set<string>)
    requires Bounded(first, names, toks) && nullable <= names && name in names && add <= toks && vanished <= {name}
    requires first' == first[name := first[name] + add] && nullable' == nullable + vanished
    ensures Bounded(first', names, toks) && nullable' <= names
    ensures first' != first || nullable' != nullable ==>
      Spare(first', nullable', names, toks) < Spare(first, nullable, names, toks)
  {
    RoomShrinks(first, name, add, names, toks);
    SubsetSize(nullable, nullable');
  }

  ghost predicate ClosedUpTo(g: Grammar, i: nat, first: Sets, nullable: set<string>)
    requires i <= |g|
  {
    forall p :: 0 <= p < i ==> RuleClosed(g, p, |g[p].alts|, first, nullable)
  }

  /** FIRST of every rule and the nullable ones, by passes over the alternatives
      until one changes nothing: exactly what derivations begin with. */
  method ComputeFirst(g: Grammar) returns (first: Sets, nullable: set<string>)
    requires FlatGrammar(g)
    ensures first.Keys == NameSet(g) && nullable <= NameSet(g)
    ensures forall n :: n in first ==> first[n] <= TermsOf(g)
    ensures FirstExact(g, first, nullable)
  {
    var names := NameSet(g);
    ghost var toks := TermsOf(g);
    first := map n | n in names :: {};
    nullable := {};
    var changed := true;
    while changed
      invariant Bounded(first, names, toks) && nullable <= names
      invariant FirstSound(g, first, nullable)
      invariant !changed ==> ClosedUpTo(g, |g|, first, nullable)
      decreases Spare(first, nullable, names, toks), changed
    {
      first, nullable, changed := FirstPass(g, first, nullable, names, toks);
    }
    forall i, k | 0 <= i < |g| && 0 <= k < |g[i].alts| ensures Within(g[i].alts[k], g[i].name, first, nullable) {
      assert RuleClosed(g, i, |g[i].alts|, first, nullable);
    }
    ClosedIsExact(g, first, nullable);
  }

  method FirstPass(g: Grammar, first0: Sets, nullable0: set<string>, ghost names: set<string>, ghost toks: set<string>)
    returns (first: Sets, nullable: set<string>, changed: bool)
    requires FlatGrammar(g) && names == NameSet(g) && toks == TermsOf(g)
    requires Bounded(first0, names, toks) && nullable0 <= names && FirstSound(g, first0, nullable0)
    ensures Bounded(first, names, toks) && nullable <= names && FirstSound(g, first, nullable)
    ensures changed ==> Spare(first, nullable, names, toks) < Spare(first0, nullable0, names, toks)
    ensures !changed ==> first == first0 && nullable == nullable0 && ClosedUpTo(g, |g|, first, nullable)
  {
    first, nullable, changed := first0, nullable0, false;
    for i := 0 to |g|
      invariant Bounded(first, names, toks) && nullable <= names && FirstSound(g, first, nullable)
      invariant changed ==> Spare(first, nullable, names, toks) < Spare(first0, nullable0, names, toks)
      invariant !changed ==> first == first0 && nullable == nullable0 && ClosedUpTo(g, i, first, nullable)
    {
      first, nullable, changed := FirstRule(g, i, first, nullable, changed, names, toks);
    }
  }

  ghost predicate RuleClosed(g: Grammar, i: nat, k: nat, first: Sets, nullable: set<string>)
    requires i < |g| && k <= |g[i].alts|
  {
    forall q :: 0 <= q < k ==> Within(g[i].alts[q], g[i].name, first, nullable)
  }

  method FirstRule(g: Grammar, i: nat, first0: Sets, nullable0: set<string>, changed0: bool, ghost names: set<string>,
      ghost toks: set<string>)
    returns (first: Sets, nullable: set<string>, changed: bool)
    requires FlatGrammar(g) && names == NameSet(g) && toks == TermsOf(g) && i < |g|
    requires Bounded(first0, names, toks) && nullable0 <= names && FirstSound(g, first0, nullable0)
    ensures Bounded(first, names, toks) && nullable <= names && FirstSound(g, first, nullable)
    ensures changed0 ==> changed
    ensures Spare(first, nullable, names, toks) <= Spare(first0, nullable0, names, toks)
    ensures changed && !changed0 ==> Spare(first, nullable, names, toks) < Spare(first0, nullable0, names, toks)
    ensures !changed ==> first == first0 && nullable == nullable0 && RuleClosed(g, i, |g[i].alts|, first, nullable)
  {
    first, nullable, changed := first0, nullable0, changed0;
    for k := 0 to |g[i].alts|
      invariant Bounded(first, names, toks) && nullable <= names && FirstSound(g, first, nullable)
      invariant changed0 ==> changed
      invariant Spare(first, nullable, names, toks) <= Spare(first0, nullable0, names, toks)
      invariant changed && !changed0 ==> Spare(first, nullable, names, toks) < Spare(first0, nullable0, names, toks)
      invariant !changed ==> first == first0 && nullable == nullable0 && RuleClosed(g, i, k, first, nullable)
    {
      first, nullable, changed := FirstStep(g, i, k, first, nullable, changed, names, toks);
    }
  }

  method FirstStep(g: Grammar, i: nat, k: nat, first0: Sets, nullable0: set<string>, changed0: bool,
      ghost names: set<string>, ghost toks: set<string>)
    returns (first: Sets, nullable: set<string>, changed: bool)
    requires FlatGrammar(g) && names == NameSet(g) && toks == TermsOf(g)
    requires i < |g| && k < |g[i].alts|
    requires Bounded(first0, names, toks) && nullable0 <= names && FirstSound(g, first0, nullable0)
    ensures Bounded(first, names, toks) && nullable <= names && FirstSound(g, first, nullable)
    ensures changed0 ==> changed
    ensures Spare(first, nullable, names, toks) <= Spare(first0, nullable0, names, toks)
    ensures changed && !changed0 ==> Spare(first, nullable, names, toks) < Spare(first0, nullable0, names, toks)
    ensures !changed ==> first == first0 && nullable == nullable0 && Within(g[i].alts[k], g[i].name, first, nullable)
  {
    assert g[i].name in names && FlatAlts(g[i].alts);
    var grew;
    first, nullable, grew := ReadAlternative(g[i].name, g[i].alts[k], first0, nullable0);
    AltReadSound(g, i, k, first0, nullable0, first, nullable);
    assert TermsIn(g[i].alts[k], toks);
    FirstInTerms(g[i].alts[k], first0, nullable0, names, toks);
    ghost var (add, vanishes) := FirstOfSeq(g[i].alts[k], first0, nullable0);
    AltReadSpare(g[i].name, add, if vanishes then {g[i].name} else {}, first0, nullable0, first, nullable, names, toks);
    changed := changed0 || grew;
  }
}
