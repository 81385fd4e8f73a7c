/** Enumerating the token prefixes an alternative can begin with, up to a window.

    The functions here are the plain recursion: every reference that a path reaches is
    expanded for that path.  The walk that shares those expansions by length is the
    method in `PrefixWalk`. */
module Prefixes {
  import opened Ir
  import opened Languages
  import opened Forms

  /** A token path; `done` says that it was cut short and may not be extended. */
  datatype Path = Path(tokens: Word, done: bool)

  /** The heads a caller is interested in, if it restricts them. */
  type Heads = Option<set<string>>

  predicate Admits(heads: Heads, held: nat, tok: string) {
    heads.None? || held > 0 || tok in heads.value
  }

  predicate Live(p: Path, k: nat) {
    !p.done && |p.tokens| < k
  }

  function Graft(p: Path, subs: seq<Path>): (r: seq<Path>)
    ensures |r| == |subs|
    ensures forall i :: 0 <= i < |r| ==> r[i] == Path(p.tokens + subs[i].tokens, subs[i].done)
  {
    seq(|subs|, i requires 0 <= i < |subs| => Path(p.tokens + subs[i].tokens, subs[i].done))
  }

  function Unvisited(g: Grammar, visited: set<string>): (n: nat) {
    |NameSet(g) - visited|
  }

  lemma VisitShrinks(g: Grammar, visited: set<string>, n: string)
    requires n in NameSet(g) && n !in visited
    ensures Unvisited(g, visited + {n}) < Unvisited(g, visited)
  {
    var a, b := NameSet(g) - visited, NameSet(g) - (visited + {n});
    assert a == b + {n} && n !in b;
  }

  /** What one path becomes at one element. */
  function StepPath(p: Path, e: Element, g: Grammar, k: nat, visited: set<string>, heads: Heads): seq<Path>
    decreases Unvisited(g, visited), 1, 0
  {
    if !Live(p, k) then [p]
    else
      match e
      case Term(t) => if Admits(heads, |p.tokens|, t) then [Path(p.tokens + [t], false)] else []
      case Ref(n) =>
        if n in visited then [Path(p.tokens, true)]
        else
          var found := Find(g, n);
          if found.None? || found.value.alts == [] then [Path(p.tokens, true)]
          else
            VisitShrinks(g, visited, n);
            Graft(p, AltsPaths(found.value.alts, g, k - |p.tokens|, visited + {n},
              if p.tokens == [] then heads else None))
      case _ => [Path(p.tokens, true)]
  }

  function StepPaths(paths: seq<Path>, e: Element, g: Grammar, k: nat, visited: set<string>, heads: Heads): seq<Path>
    decreases Unvisited(g, visited), 2, |paths|
  {
    if paths == [] then []
    else StepPath(paths[0], e, g, k, visited, heads) + StepPaths(paths[1..], e, g, k, visited, heads)
  }

  function SeqPaths(paths: seq<Path>, s: Sequence, g: Grammar, k: nat, visited: set<string>, heads: Heads): seq<Path>
    decreases Unvisited(g, visited), 3, |s|
  {
    if s == [] then paths else SeqPaths(StepPaths(paths, s[0], g, k, visited, heads), s[1..], g, k, visited, heads)
  }

  const EMPTY: Path := Path([], false)

  function AltPaths(alt: Sequence, g: Grammar, k: nat, visited: set<string>, heads: Heads): seq<Path>
    decreases Unvisited(g, visited), 4, 0
  {
    SeqPaths([EMPTY], alt, g, k, visited, heads)
  }

  function AltsPaths(alts: seq<Sequence>, g: Grammar, k: nat, visited: set<string>, heads: Heads): seq<Path>
    decreases Unvisited(g, visited), 5, |alts|
  {
    if alts == [] then [] else AltPaths(alts[0], g, k, visited, heads) + AltsPaths(alts[1..], g, k, visited, heads)
  }

  lemma {:induction false} StepPathsCat(a: seq<Path>, b: seq<Path>, e: Element, g: Grammar, k: nat,
      visited: set<string>, heads: Heads)
    ensures StepPaths(a + b, e, g, k, visited, heads)
      == StepPaths(a, e, g, k, visited, heads) + StepPaths(b, e, g, k, visited, heads)
    decreases |a|
  {
    if a == [] {
      assert a + b == b;
    } else {
      assert (a + b)[0] == a[0] && (a + b)[1..] == a[1..] + b;
      StepPathsCat(a[1..], b, e, g, k, visited, heads);
    }
  }

  lemma {:induction false} InStepPaths(paths: seq<Path>, i: nat, x: Path, e: Element, g: Grammar, k: nat,
      visited: set<string>, heads: Heads)
    requires i < |paths| && x in StepPath(paths[i], e, g, k, visited, heads)
    ensures x in StepPaths(paths, e, g, k, visited, heads)
    decreases i
  {
    if i > 0 {
      assert paths[1..][i - 1] == paths[i];
      InStepPaths(paths[1..], i - 1, x, e, g, k, visited, heads);
    }
  }

  lemma {:induction false} InAltsPaths(alts: seq<Sequence>, i: nat, x: Path, g: Grammar, k: nat, visited: set<string>,
      heads: Heads)
    requires i < |alts| && x in AltPaths(alts[i], g, k, visited, heads)
    ensures x in AltsPaths(alts, g, k, visited, heads)
    decreases i
  {
    if i > 0 {
      assert alts[1..][i - 1] == alts[i];
      InAltsPaths(alts[1..], i - 1, x, g, k, visited, heads);
    }
  }

  // ---- completeness ----

  ghost predicate CoversBy(p: Path, w: Word, k: nat) {
    p.tokens <= w && (p.done || |p.tokens| >= k || p.tokens == w)
  }

  /** Some path is a prefix of the word, and is cut short, fills the window or is the
      whole word. */
  ghost predicate Covers(paths: seq<Path>, w: Word, k: nat) {
    exists p :: p in paths && CoversBy(p, w, k)
  }

  lemma {:induction false} StepCovers(p: Path, e: Element, g: Grammar, k: nat, visited: set<string>, w: Word, u: Word)
    requires DistinctNames(g) && CoversBy(p, w, k) && u in ElemLang(e, Language(g))
    ensures Covers(StepPath(p, e, g, k, visited, None), w + u, k)
    decreases Unvisited(g, visited), 1, 0
  {
    var r := StepPath(p, e, g, k, visited, None);
    if !Live(p, k) {
      assert p in r && CoversBy(p, w + u, k);
    } else {
      match e {
        case Term(t) =>
          assert Path(p.tokens + [t], false) in r && CoversBy(Path(p.tokens + [t], false), w + u, k);
        case Ref(n) =>
          if n in visited || Find(g, n).None? || Find(g, n).value.alts == [] {
            assert Path(p.tokens, true) in r && CoversBy(Path(p.tokens, true), w + u, k);
          } else {
            RefCovers(p, n, g, k, visited, w, u);
          }
        case Prose(_) =>
        case _ =>
          assert Path(p.tokens, true) in r && CoversBy(Path(p.tokens, true), w + u, k);
      }
    }
  }

  lemma GraftCovers(p: Path, subs: seq<Path>, k: nat, u: Word)
    requires !p.done && |p.tokens| < k && Covers(subs, u, k - |p.tokens|)
    ensures Covers(Graft(p, subs), p.tokens + u, k)
  {
    var sp :| sp in subs && CoversBy(sp, u, k - |p.tokens|);
    var i :| 0 <= i < |subs| && subs[i] == sp;
    var x := Graft(p, subs)[i];
    assert x in Graft(p, subs) && CoversBy(x, p.tokens + u, k);
  }

  lemma LiveCovers(p: Path, w: Word, k: nat)
    requires CoversBy(p, w, k) && Live(p, k)
    ensures p.tokens == w
  {
  }

  /** A reference is stepped over by the paths of its rule. */
  lemma StepRef(p: Path, n: string, g: Grammar, k: nat, visited: set<string>)
    requires Live(p, k) && n !in visited && Find(g, n).Some? && Find(g, n).value.alts != []
    ensures Unvisited(g, visited + {n}) < Unvisited(g, visited)
    ensures StepPath(p, Ref(n), g, k, visited, None)
      == Graft(p, AltsPaths(Find(g, n).value.alts, g, k - |p.tokens|, visited + {n}, None))
  {
    hide AltsPaths, Graft, Unvisited, Find;
    VisitShrinks(g, visited, n);
  }

  lemma FoundLanguage(g: Grammar, n: string)
    requires DistinctNames(g) && Find(g, n).Some?
    ensures At(Language(g), n) == AltsLang(Find(g, n).value.alts, Language(g))
  {
    var q :| 0 <= q < |g| && g[q] == Find(g, n).value;
    RuleLanguage(g, q);
  }

  lemma {:induction false} RefCovers(p: Path, n: string, g: Grammar, k: nat, visited: set<string>, w: Word, u: Word)
    requires DistinctNames(g) && CoversBy(p, w, k) && Live(p, k) && u in At(Language(g), n)
    requires n !in visited && Find(g, n).Some? && Find(g, n).value.alts != []
    ensures Covers(StepPath(p, Ref(n), g, k, visited, None), w + u, k)
    decreases Unvisited(g, visited), 0, 0
  {
    hide Covers, CoversBy, Language, AltsPaths, Graft;
    var prod := Find(g, n).value;
    LiveCovers(p, w, k);
    FoundLanguage(g, n);
    StepRef(p, n, g, k, visited);
    hide Unvisited, StepPath, Find;
    AltsCover(prod.alts, g, k - |p.tokens|, visited + {n}, u);
    GraftCovers(p, AltsPaths(prod.alts, g, k - |p.tokens|, visited + {n}, None), k, u);
  }

  lemma {:induction false} StepsCover(paths: seq<Path>, e: Element, g: Grammar, k: nat, visited: set<string>, w: Word,
      u: Word)
    requires DistinctNames(g) && Covers(paths, w, k) && u in ElemLang(e, Language(g))
    ensures Covers(StepPaths(paths, e, g, k, visited, None), w + u, k)
    decreases Unvisited(g, visited), 2, 0
  {
    var p :| p in paths && CoversBy(p, w, k);
    StepCovers(p, e, g, k, visited, w, u);
    var x :| x in StepPath(p, e, g, k, visited, None) && CoversBy(x, w + u, k);
    var i :| 0 <= i < |paths| && paths[i] == p;
    InStepPaths(paths, i, x, e, g, k, visited, None);
  }

  lemma {:induction false} SeqCovers(paths: seq<Path>, s: Sequence, g: Grammar, k: nat, visited: set<string>, w: Word,
      v: Word)
    requires DistinctNames(g) && Covers(paths, w, k) && v in SeqLang(s, Language(g))
    ensures Covers(SeqPaths(paths, s, g, k, visited, None), w + v, k)
    decreases Unvisited(g, visited), 3, |s|
  {
    if s == [] {
      assert w + v == w;
    } else {
      var u, v' := CatElim(v, ElemLang(s[0], Language(g)), SeqLang(s[1..], Language(g)));
      StepsCover(paths, s[0], g, k, visited, w, u);
      SeqCovers(StepPaths(paths, s[0], g, k, visited, None), s[1..], g, k, visited, w + u, v');
      assert w + u + v' == w + v;
    }
  }

  /** Every word of an alternative has a path. */
  lemma {:induction false} AltCovers(alt: Sequence, g: Grammar, k: nat, visited: set<string>, w: Word)
    requires DistinctNames(g) && w in SeqLang(alt, Language(g))
    ensures Covers(AltPaths(alt, g, k, visited, None), w, k)
    decreases Unvisited(g, visited), 4, 0
  {
    assert EMPTY in [EMPTY] && CoversBy(EMPTY, [], k);
    SeqCovers([EMPTY], alt, g, k, visited, [], w);
    assert [] + w == w;
  }

  lemma {:induction false} AltsCover(alts: seq<Sequence>, g: Grammar, k: nat, visited: set<string>, w: Word)
    requires DistinctNames(g) && w in AltsLang(alts, Language(g))
    ensures Covers(AltsPaths(alts, g, k, visited, None), w, k)
    decreases Unvisited(g, visited), 5, |alts|
  {
    var i := AltsElim(w, alts, Language(g));
    AltCovers(alts[i], g, k, visited, w);
    var x :| x in AltPaths(alts[i], g, k, visited, None) && CoversBy(x, w, k);
    InAltsPaths(alts, i, x, g, k, visited, None);
  }

  // ---- soundness ----

  ghost predicate ReadVia(g: Grammar, s: Sequence, p: Path, k: nat, rest: Sequence) {
    Reaches(g, s, Spelled(p.tokens) + rest) && (Live(p, k) ==> rest == [])
  }

  /** The sequence derives a form that begins with the path's tokens, and nothing else
      when the path is still live; the path fits the window. */
  ghost predicate Read(g: Grammar, s: Sequence, p: Path, k: nat) {
    |p.tokens| <= k && exists rest :: ReadVia(g, s, p, k, rest)
  }

  ghost predicate AllRead(g: Grammar, s: Sequence, paths: seq<Path>, k: nat) {
    forall p :: p in paths ==> Read(g, s, p, k)
  }

  lemma ReadClosed(g: Grammar, s: Sequence, p: Path, e: Element, k: nat, done: bool)
    requires Read(g, s, p, k) && (!done ==> |p.tokens| == k)
    ensures Read(g, s + [e], Path(p.tokens, done), k)
  {
    var rest :| ReadVia(g, s, p, k, rest);
    ReachesRefl(g, [e]);
    ReachesBoth(g, s, Spelled(p.tokens) + rest, [e], [e]);
    assert Spelled(p.tokens) + rest + [e] == Spelled(p.tokens) + (rest + [e]);
    assert ReadVia(g, s + [e], Path(p.tokens, done), k, rest + [e]);
  }

  lemma ReadJoin(g: Grammar, s: Sequence, p: Path, t: Sequence, sp: Path, k: nat)
    requires Read(g, s, p, k) && Live(p, k) && Read(g, t, sp, k - |p.tokens|)
    ensures Read(g, s + t, Path(p.tokens + sp.tokens, sp.done), k)
  {
    var none :| ReadVia(g, s, p, k, none);
    var rest :| ReadVia(g, t, sp, k - |p.tokens|, rest);
    assert Spelled(p.tokens) + none == Spelled(p.tokens);
    ReachesBoth(g, s, Spelled(p.tokens), t, Spelled(sp.tokens) + rest);
    SpelledCat(p.tokens, sp.tokens);
    assert Spelled(p.tokens) + (Spelled(sp.tokens) + rest) == Spelled(p.tokens + sp.tokens) + rest;
    assert ReadVia(g, s + t, Path(p.tokens + sp.tokens, sp.done), k, rest);
  }

  lemma ReadToken(g: Grammar, s: Sequence, p: Path, t: string, k: nat)
    requires Read(g, s, p, k) && Live(p, k)
    ensures Read(g, s + [Term(t)], Path(p.tokens + [t], false), k)
  {
    ReachesRefl(g, [Term(t)]);
    var none: Sequence := [];
    assert Spelled([t]) + none == [Term(t)];
    assert ReadVia(g, [Term(t)], Path([t], false), k - |p.tokens|, none);
    ReadJoin(g, s, p, [Term(t)], Path([t], false), k);
  }

  lemma {:induction false} StepRead(s: Sequence, p: Path, e: Element, g: Grammar, k: nat, visited: set<string>)
    requires Read(g, s, p, k)
    ensures AllRead(g, s + [e], StepPath(p, e, g, k, visited, None), k)
    decreases Unvisited(g, visited), 1, 0
  {
    if !Live(p, k) {
      ReadClosed(g, s, p, e, k, p.done);
    } else {
      match e {
        case Term(t) => ReadToken(g, s, p, t, k);
        case Ref(n) =>
          if n in visited || Find(g, n).None? || Find(g, n).value.alts == [] {
            ReadClosed(g, s, p, e, k, true);
          } else {
            RefRead(s, p, n, g, k, visited);
          }
        case _ => ReadClosed(g, s, p, e, k, true);
      }
    }
  }

  lemma {:induction false} RefRead(s: Sequence, p: Path, n: string, g: Grammar, k: nat, visited: set<string>)
    requires Read(g, s, p, k) && Live(p, k)
    requires n !in visited && Find(g, n).Some? && Find(g, n).value.alts != []
    ensures AllRead(g, s + [Ref(n)], StepPath(p, Ref(n), g, k, visited, None), k)
    decreases Unvisited(g, visited), 0, 0
  {
    var prod := Find(g, n).value;
    VisitShrinks(g, visited, n);
    var subs := AltsPaths(prod.alts, g, k - |p.tokens|, visited + {n}, None);
    forall a | a in prod.alts ensures Reaches(g, [Ref(n)], a) {
      var q: nat :| q < |g| && g[q] == prod;
      var i: nat :| i < |prod.alts| && prod.alts[i] == a;
      RuleReaches(g, q, i);
    }
    AltsRead(n, prod.alts, g, k - |p.tokens|, visited + {n});
    forall x | x in Graft(p, subs) ensures Read(g, s + [Ref(n)], x, k) {
      var i :| 0 <= i < |subs| && Graft(p, subs)[i] == x;
      assert subs[i] in subs;
      ReadJoin(g, s, p, [Ref(n)], subs[i], k);
    }
  }

  lemma {:induction false} StepsRead(s: Sequence, paths: seq<Path>, e: Element, g: Grammar, k: nat,
      visited: set<string>)
    requires AllRead(g, s, paths, k)
    ensures AllRead(g, s + [e], StepPaths(paths, e, g, k, visited, None), k)
    decreases Unvisited(g, visited), 2, |paths|
  {
    if paths != [] {
      StepRead(s, paths[0], e, g, k, visited);
      StepsRead(s, paths[1..], e, g, k, visited);
    }
  }

  lemma {:induction false} SeqRead(s: Sequence, paths: seq<Path>, t: Sequence, g: Grammar, k: nat, visited: set<string>)
    requires AllRead(g, s, paths, k)
    ensures AllRead(g, s + t, SeqPaths(paths, t, g, k, visited, None), k)
    decreases Unvisited(g, visited), 3, |t|
  {
    if t == [] {
      assert s + t == s;
    } else {
      StepsRead(s, paths, t[0], g, k, visited);
      SeqRead(s + [t[0]], StepPaths(paths, t[0], g, k, visited, None), t[1..], g, k, visited);
      assert s + [t[0]] + t[1..] == s + t;
    }
  }

  /** Every path of an alternative is read off a derivation from it. */
  lemma {:induction false} AltRead(alt: Sequence, g: Grammar, k: nat, visited: set<string>)
    ensures AllRead(g, alt, AltPaths(alt, g, k, visited, None), k)
    decreases Unvisited(g, visited), 4, 0
  {
    var none: Sequence := [];
    ReachesRefl(g, none);
    assert Spelled([]) + none == none;
    assert ReadVia(g, none, EMPTY, k, none);
    SeqRead(none, [EMPTY], alt, g, k, visited);
    assert none + alt == alt;
  }

  lemma {:induction false} AltsRead(n: string, alts: seq<Sequence>, g: Grammar, k: nat, visited: set<string>)
    requires forall a :: a in alts ==> Reaches(g, [Ref(n)], a)
    ensures AllRead(g, [Ref(n)], AltsPaths(alts, g, k, visited, None), k)
    decreases Unvisited(g, visited), 5, |alts|
  {
    if alts != [] {
      AltRead(alts[0], g, k, visited);
      AltsRead(n, alts[1..], g, k, visited);
      forall x | x in AltPaths(alts[0], g, k, visited, None) ensures Read(g, [Ref(n)], x, k) {
        var rest :| ReadVia(g, alts[0], x, k, rest);
        ReachesTrans(g, [Ref(n)], alts[0], Spelled(x.tokens) + rest);
        assert ReadVia(g, [Ref(n)], x, k, rest);
      }
    }
  }

  /** A path still live is a word of the alternative. */
  lemma LivePathIsWord(alt: Sequence, g: Grammar, k: nat, visited: set<string>, p: Path)
    requires p in AltPaths(alt, g, k, visited, None) && Live(p, k)
    ensures p.tokens in SeqLang(alt, Language(g))
  {
    AltRead(alt, g, k, visited);
    var rest :| ReadVia(g, alt, p, k, rest);
    assert Spelled(p.tokens) + rest == Spelled(p.tokens);
    var fs :| Forms.Derives(g, fs, alt, Spelled(p.tokens));
    DerivesWords(g, fs, alt, Spelled(p.tokens));
    SpelledLang(p.tokens, Language(g));
  }

  // ---- pruning by the head is filtering ----

  predicate HeadIn(p: Path, heads: set<string>) {
    p.tokens == [] || p.tokens[0] in heads
  }

  function Kept(paths: seq<Path>, heads: set<string>): seq<Path> {
    if paths == [] then []
    else if HeadIn(paths[0], heads) then [paths[0]] + Kept(paths[1..], heads)
    else Kept(paths[1..], heads)
  }

  lemma {:induction false} KeptCat(a: seq<Path>, b: seq<Path>, heads: set<string>)
    ensures Kept(a + b, heads) == Kept(a, heads) + Kept(b, heads)
  {
    if a == [] {
      assert a + b == b;
    } else {
      assert (a + b)[0] == a[0] && (a + b)[1..] == a[1..] + b;
      KeptCat(a[1..], b, heads);
    }
  }

  lemma {:induction false} KeptIn(paths: seq<Path>, heads: set<string>, p: Path)
    ensures p in Kept(paths, heads) <==> p in paths && HeadIn(p, heads)
  {
    if paths != [] {
      KeptIn(paths[1..], heads, p);
    }
  }

  lemma {:induction false} KeptAll(paths: seq<Path>, heads: set<string>)
    requires forall p :: p in paths ==> HeadIn(p, heads)
    ensures Kept(paths, heads) == paths
  {
    if paths != [] {
      KeptAll(paths[1..], heads);
    }
  }

  lemma {:induction false} KeptNone(paths: seq<Path>, heads: set<string>)
    requires forall p :: p in paths ==> !HeadIn(p, heads)
    ensures Kept(paths, heads) == []
  {
    if paths != [] {
      KeptNone(paths[1..], heads);
    }
  }

  lemma {:induction false} GraftEmpty(p: Path, subs: seq<Path>, heads: set<string>)
    requires p.tokens == []
    ensures Graft(p, subs) == subs
  {
    assert forall i :: 0 <= i < |subs| ==> Graft(p, subs)[i] == subs[i];
  }

  /** What a path with a token becomes shares that token, and was not pruned. */
  lemma StepHead(p: Path, e: Element, g: Grammar, k: nat, visited: set<string>, heads: set<string>)
    requires p.tokens != []
    ensures StepPath(p, e, g, k, visited, Some(heads)) == StepPath(p, e, g, k, visited, None)
    ensures forall x :: x in StepPath(p, e, g, k, visited, None) ==> x.tokens != [] && x.tokens[0] == p.tokens[0]
  {
  }

  lemma {:induction false} StepKept(p: Path, e: Element, g: Grammar, k: nat, visited: set<string>, heads: set<string>)
    requires HeadIn(p, heads)
    ensures StepPath(p, e, g, k, visited, Some(heads)) == Kept(StepPath(p, e, g, k, visited, None), heads)
    decreases Unvisited(g, visited), 1, 0
  {
    hide AltsPaths, Graft, Kept;
    if p.tokens != [] {
      StepHead(p, e, g, k, visited, heads);
      KeptAll(StepPath(p, e, g, k, visited, None), heads);
    } else if Live(p, k) && e.Ref? && e.name !in visited && Find(g, e.name).Some? && Find(g, e.name).value.alts != [] {
      VisitShrinks(g, visited, e.name);
      var alts := Find(g, e.name).value.alts;
      AltsKept(alts, g, k, visited + {e.name}, heads);
      GraftEmpty(p, AltsPaths(alts, g, k, visited + {e.name}, None), heads);
      GraftEmpty(p, AltsPaths(alts, g, k, visited + {e.name}, Some(heads)), heads);
    } else {
      KeptSingle(StepPath(p, e, g, k, visited, None), heads);
    }
  }

  lemma KeptSingle(paths: seq<Path>, heads: set<string>)
    requires |paths| == 1
    ensures Kept(paths, heads) == if HeadIn(paths[0], heads) then paths else []
  {
    assert paths[1..] == [];
  }

  lemma {:induction false} StepsKept(paths: seq<Path>, e: Element, g: Grammar, k: nat, visited: set<string>,
      heads: set<string>)
    ensures StepPaths(Kept(paths, heads), e, g, k, visited, Some(heads))
      == Kept(StepPaths(paths, e, g, k, visited, None), heads)
    decreases Unvisited(g, visited), 2, |paths|
  {
    if paths != [] {
      var p, first := paths[0], StepPath(paths[0], e, g, k, visited, None);
      var rest := StepPaths(paths[1..], e, g, k, visited, None);
      StepsKept(paths[1..], e, g, k, visited, heads);
      KeptCat(first, rest, heads);
      if HeadIn(p, heads) {
        StepKept(p, e, g, k, visited, heads);
        StepPathsCat([p], Kept(paths[1..], heads), e, g, k, visited, Some(heads));
        StepPathsOne(p, e, g, k, visited, Some(heads));
      } else {
        StepHead(p, e, g, k, visited, heads);
        KeptNone(first, heads);
      }
    }
  }

  lemma StepPathsOne(p: Path, e: Element, g: Grammar, k: nat, visited: set<string>, heads: Heads)
    ensures StepPaths([p], e, g, k, visited, heads) == StepPath(p, e, g, k, visited, heads)
  {
    assert [p][1..] == [];
  }

  lemma {:induction false} SeqKept(paths: seq<Path>, s: Sequence, g: Grammar, k: nat, visited: set<string>,
      heads: set<string>)
    ensures SeqPaths(Kept(paths, heads), s, g, k, visited, Some(heads))
      == Kept(SeqPaths(paths, s, g, k, visited, None), heads)
    decreases Unvisited(g, visited), 3, |s|
  {
    if s != [] {
      StepsKept(paths, s[0], g, k, visited, heads);
      SeqKept(StepPaths(paths, s[0], g, k, visited, None), s[1..], g, k, visited, heads);
    }
  }

  /** Enumerating under a set of heads yields the paths with those heads, in order. */
  lemma {:induction false} AltKept(alt: Sequence, g: Grammar, k: nat, visited: set<string>, heads: set<string>)
    ensures AltPaths(alt, g, k, visited, Some(heads)) == Kept(AltPaths(alt, g, k, visited, None), heads)
    decreases Unvisited(g, visited), 4, 0
  {
    KeptSingle([EMPTY], heads);
    SeqKept([EMPTY], alt, g, k, visited, heads);
  }

  lemma {:induction false} AltsKept(alts: seq<Sequence>, g: Grammar, k: nat, visited: set<string>, heads: set<string>)
    ensures AltsPaths(alts, g, k, visited, Some(heads)) == Kept(AltsPaths(alts, g, k, visited, None), heads)
    decreases Unvisited(g, visited), 5, |alts|
  {
    if alts != [] {
      AltKept(alts[0], g, k, visited, heads);
      AltsKept(alts[1..], g, k, visited, heads);
      KeptCat(AltPaths(alts[0], g, k, visited, None), AltsPaths(alts[1..], g, k, visited, None), heads);
    }
  }
}
