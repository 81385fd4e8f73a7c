/** Choosing how many tokens of lookahead tell the alternatives of a choice apart. */
module Dispatch {
  import opened Ir
  import opened Languages
  import opened Prefixes

  /** Whether the lexer can hand one input to either token. */
  type Contest = (string, string) -> bool

  /** What one alternative is dispatched on, and whether it can vanish. */
  datatype Choice = Choice(prefixes: seq<Word>, nullable: bool)

  // ---- colliding paths ----

  /** How many leading positions of the two paths collide. */
  function Run(p: Word, q: Word, contest: Contest): (r: nat)
    ensures r <= |p| && r <= |q|
    ensures forall m :: 0 <= m < r ==> contest(p[m], q[m])
    ensures r < |p| && r < |q| ==> !contest(p[r], q[r])
  {
    if p == [] || q == [] || !contest(p[0], q[0]) then 0 else 1 + Run(p[1..], q[1..], contest)
  }

  /** The paths differ at a position both have. */
  predicate Differ(p: Word, q: Word, contest: Contest) {
    Run(p, q, contest) < |p| && Run(p, q, contest) < |q|
  }

  lemma {:induction false} RunIs(p: Word, q: Word, contest: Contest, r: nat)
    requires r <= |p| && r <= |q| && forall m :: 0 <= m < r ==> contest(p[m], q[m])
    requires r < |p| && r < |q| ==> !contest(p[r], q[r])
    ensures Run(p, q, contest) == r
  {
    if r > 0 {
      RunIs(p[1..], q[1..], contest, r - 1);
      assert contest(p[0], q[0]);
    }
  }

  /** Cutting a path past the place where it differs keeps the place. */
  lemma RunCut(p: Word, q: Word, contest: Contest, d: nat)
    requires d <= |p|
    ensures Run(p[..d], q, contest) == if Run(p, q, contest) < d then Run(p, q, contest) else d
  {
    var r := Run(p, q, contest);
    RunIs(p[..d], q, contest, if r < d then r else d);
  }

  /** Some rival collides with the whole path, or runs out before the path does. */
  ghost predicate Unsettled(p: Word, rivals: seq<Word>, contest: Contest) {
    exists q :: q in rivals && !Differ(p, q, contest)
  }

  ghost predicate Reached(p: Word, rivals: seq<Word>, contest: Contest, d: nat) {
    exists q :: q in rivals && Run(p, q, contest) + 1 == d
  }

  /** The depth a path is emitted to: whole when some rival never differs from it,
      otherwise the least at which every rival has differed. */
  ghost predicate DepthIs(p: Word, rivals: seq<Word>, contest: Contest, d: nat) {
    if Unsettled(p, rivals, contest) then d == |p|
    else
      && 1 <= d <= |p|
      && (forall q :: q in rivals ==> Run(p, q, contest) < d)
      && (d == 1 || Reached(p, rivals, contest, d))
  }

  // ---- what the choice is made of ----

  ghost predicate IsHead(paths: seq<Path>, h: string) {
    exists p :: p in paths && p.tokens == [h]
  }

  /** The paths of one token an alternative can begin with. */
  function OnePaths(alt: Sequence, g: Grammar): seq<Path> {
    if alt == [] then [] else AltPaths(alt, g, 1, {}, None)
  }

  ghost predicate HeadOf(alt: Sequence, g: Grammar, h: string) {
    IsHead(OnePaths(alt, g), h)
  }

  ghost predicate Clash(alts: seq<Sequence>, i: int, g: Grammar, contest: Contest, exits: seq<Word>, h: string,
      o: string) {
    contest(h, o) && ((exists j :: 0 <= j < |alts| && j != i && HeadOf(alts[j], g, o))
      || (exists e :: e in exits && e != [] && e[0] == o))
  }

  /** The lexer can hand the head to another alternative or to an exit. */
  ghost predicate Contested(alts: seq<Sequence>, i: int, g: Grammar, contest: Contest, exits: seq<Word>, h: string) {
    exists o :: Clash(alts, i, g, contest, exits, h, o)
  }

  ghost predicate ContestedSet(alts: seq<Sequence>, i: int, g: Grammar, contest: Contest, exits: seq<Word>,
      heads: set<string>)
    requires 0 <= i < |alts|
  {
    forall h :: h in heads <==> HeadOf(alts[i], g, h) && Contested(alts, i, g, contest, exits, h)
  }

  function NonEmpty(paths: seq<Path>): seq<Word> {
    if paths == [] then []
    else if paths[0].tokens == [] then NonEmpty(paths[1..])
    else [paths[0].tokens] + NonEmpty(paths[1..])
  }

  lemma {:induction false} InNonEmpty(paths: seq<Path>, w: Word)
    ensures w in NonEmpty(paths) <==> w != [] && exists p :: p in paths && p.tokens == w
  {
    if paths != [] {
      InNonEmpty(paths[1..], w);
      if w != [] && exists p :: p in paths && p.tokens == w {
        var p :| p in paths && p.tokens == w;
        assert p == paths[0] || p in paths[1..];
      }
    }
  }

  /** The full-depth paths, under the contested heads alone. */
  function DeepPaths(alt: Sequence, g: Grammar, k: nat, heads: set<string>): seq<Word> {
    if heads == {} then [] else NonEmpty(AltPaths(alt, g, k, {}, Some(heads)))
  }

  /** Everything an alternative's paths are compared with. */
  function Rivals(deep: seq<seq<Word>>, i: nat, exits: seq<Word>): seq<Word> {
    Others(deep, i, 0) + exits
  }

  function Others(deep: seq<seq<Word>>, i: nat, j: nat): seq<Word>
    requires j <= |deep|
    decreases |deep| - j
  {
    if j == |deep| then [] else (if j == i then [] else deep[j]) + Others(deep, i, j + 1)
  }

  lemma {:induction false} InOthers(deep: seq<seq<Word>>, i: nat, j: nat, l: nat, q: Word)
    requires j <= l < |deep| && l != i && q in deep[l]
    ensures q in Others(deep, i, j)
    decreases l - j
  {
    if j < l {
      InOthers(deep, i, j + 1, l, q);
    }
  }

  /** One prefix of alternative `i`: a head of its own, or the part of a path under a
      contested head that tells it from its rivals. */
  ghost predicate OfHead(alt: Sequence, g: Grammar, heads: set<string>, x: Word) {
    |x| == 1 && HeadOf(alt, g, x[0]) && x[0] !in heads
  }

  ghost predicate OfPath(p: Word, d: nat, mine: seq<Word>, rivals: seq<Word>, contest: Contest, x: Word) {
    p in mine && DepthIs(p, rivals, contest, d) && d <= |p| && x == p[..d]
  }

  ghost predicate Dispatched(alt: Sequence, g: Grammar, heads: set<string>, mine: seq<Word>, rivals: seq<Word>,
      contest: Contest, x: Word) {
    OfHead(alt, g, heads, x) || exists p, d :: OfPath(p, d, mine, rivals, contest, x)
  }

  // ---- what the chosen depths mean ----

  /** The depth is enough: the prefix is a whole path that some rival never differs
      from, or it differs from every rival at a position both have. */
  lemma DepthEnough(p: Word, rivals: seq<Word>, contest: Contest, d: nat)
    requires DepthIs(p, rivals, contest, d) && d <= |p|
    ensures Unsettled(p, rivals, contest) ==> p[..d] == p
    ensures !Unsettled(p, rivals, contest) ==> forall q :: q in rivals ==> Differ(p[..d], q, contest)
  {
    if !Unsettled(p, rivals, contest) {
      forall q | q in rivals ensures Differ(p[..d], q, contest) {
        assert Differ(p, q, contest);
        RunCut(p, q, contest, d);
      }
    }
  }

  /** What a depth is, said of the prefix it leaves: the least prefix that differs from
      every rival at a position both have, or the whole path when some rival never
      differs from it. */
  lemma DepthMeans(p: Word, rivals: seq<Word>, contest: Contest, d: nat)
    requires 1 <= d <= |p|
    ensures DepthIs(p, rivals, contest, d) <==>
      if Unsettled(p, rivals, contest) then d == |p|
      else !Unsettled(p[..d], rivals, contest) && (d == 1 || Unsettled(p[..d - 1], rivals, contest))
  {
    if !Unsettled(p, rivals, contest) {
      forall q | q in rivals ensures Differ(p[..d], q, contest) <==> Run(p, q, contest) < d {
        assert Differ(p, q, contest);
        RunCut(p, q, contest, d);
      }
      forall q | q in rivals ensures d > 1 ==> (Differ(p[..d - 1], q, contest) <==> Run(p, q, contest) < d - 1) {
        assert Differ(p, q, contest);
        RunCut(p, q, contest, d - 1);
      }
    }
  }

  ghost predicate Untruncated(alt: Sequence, g: Grammar, k: nat) {
    forall p :: p in AltPaths(alt, g, k, {}, None) ==> !p.done
  }

  /** Every word of an alternative begins with one of its heads. */
  lemma WordHead(alt: Sequence, g: Grammar, w: Word)
    requires DistinctNames(g) && w in SeqLang(alt, Language(g)) && w != [] && Untruncated(alt, g, 1)
    ensures HeadOf(alt, g, w[0])
  {
    AltCovers(alt, g, 1, {}, w);
    var p :| p in AltPaths(alt, g, 1, {}, None) && CoversBy(p, w, 1);
    assert !p.done;
    AltRead(alt, g, 1, {});
    assert |p.tokens| <= 1;
    assert |p.tokens| == 1 && p.tokens[0] == w[0];
    assert p.tokens == [w[0]];
    assert alt != [];
    assert p in OnePaths(alt, g);
  }

  /** Under a contested head every word goes along one of the deep paths. */
  lemma WordPath(alt: Sequence, g: Grammar, k: nat, heads: set<string>, w: Word) returns (p: Word)
    requires DistinctNames(g) && w in SeqLang(alt, Language(g)) && w != [] && k >= 1 && Untruncated(alt, g, k)
    requires w[0] in heads
    ensures p in DeepPaths(alt, g, k, heads) && p != [] && p <= w && (|p| == k || p == w)
  {
    AltCovers(alt, g, k, {}, w);
    var x :| x in AltPaths(alt, g, k, {}, None) && CoversBy(x, w, k);
    assert !x.done;
    AltRead(alt, g, k, {});
    assert |x.tokens| <= k;
    p := x.tokens;
    AltKept(alt, g, k, {}, heads);
    KeptIn(AltPaths(alt, g, k, {}, None), heads, x);
    InNonEmpty(AltPaths(alt, g, k, {}, Some(heads)), p);
  }

  /** Where no path was cut short, every non-empty word of an alternative begins with
      a prefix the alternative is dispatched on. */
  lemma EveryWordDispatched(alt: Sequence, g: Grammar, k: nat, heads: set<string>, rivals: seq<Word>, contest: Contest,
      w: Word)
    returns (x: Word)
    requires DistinctNames(g) && w in SeqLang(alt, Language(g)) && w != [] && k >= 1
    requires Untruncated(alt, g, 1) && Untruncated(alt, g, k)
    ensures Dispatched(alt, g, heads, DeepPaths(alt, g, k, heads), rivals, contest, x) && x <= w && x != []
  {
    WordHead(alt, g, w);
    if w[0] !in heads {
      x := [w[0]];
      assert OfHead(alt, g, heads, x);
    } else {
      var p := WordPath(alt, g, k, heads, w);
      var d := SomeDepth(p, rivals, contest);
      x := p[..d];
      assert OfPath(p, d, DeepPaths(alt, g, k, heads), rivals, contest, x);
    }
  }

  /** Every path has a depth. */
  lemma SomeDepth(p: Word, rivals: seq<Word>, contest: Contest) returns (d: nat)
    requires p != []
    ensures 1 <= d <= |p| && DepthIs(p, rivals, contest, d)
  {
    if Unsettled(p, rivals, contest) {
      d := |p|;
    } else {
      d := LeastDepth(p, rivals, contest);
    }
  }

  lemma {:induction false} LeastDepth(p: Word, rivals: seq<Word>, contest: Contest) returns (d: nat)
    requires p != [] && !Unsettled(p, rivals, contest)
    ensures 1 <= d <= |p| && DepthIs(p, rivals, contest, d)
    decreases |rivals|
  {
    if rivals == [] {
      d := 1;
    } else {
      assert !Unsettled(p, rivals[1..], contest) by {
        assert forall q :: q in rivals[1..] ==> q in rivals;
      }
      d := LeastDepth(p, rivals[1..], contest);
      var q := rivals[0];
      assert Differ(p, q, contest);
      if Run(p, q, contest) >= d {
        d := Run(p, q, contest) + 1;
        assert q in rivals;
      } else if d > 1 {
        assert Reached(p, rivals, contest, d) by {
          var o :| o in rivals[1..] && Run(p, o, contest) + 1 == d;
          assert o in rivals;
        }
      }
    }
  }

  ghost predicate Symmetric(contest: Contest) {
    forall a, b :: contest(a, b) == contest(b, a)
  }

  /** The contested heads and deep paths of every alternative. */
  ghost predicate Decision(alts: seq<Sequence>, g: Grammar, k: nat, contest: Contest, exits: seq<Word>,
      heads: seq<set<string>>, deep: seq<seq<Word>>) {
    && |heads| == |alts| == |deep|
    && (forall i :: 0 <= i < |alts| ==> ContestedSet(alts, i, g, contest, exits, heads[i]))
    && (forall i :: 0 <= i < |alts| ==> deep[i] == DeepPaths(alts[i], g, k, heads[i]))
  }

  /** A dispatched prefix turns away every word of every other alternative: the two
      differ at a position both have, unless the prefix is a whole path that some
      rival never differs from. */
  lemma WordsTurnedAway(alts: seq<Sequence>, g: Grammar, k: nat, contest: Contest, exits: seq<Word>,
      heads: seq<set<string>>,
                        deep: seq<seq<Word>>, i: nat, j: nat, x: Word, v: Word)
    requires Decision(alts, g, k, contest, exits, heads, deep) && Symmetric(contest) && DistinctNames(g) && k >= 1
    requires i < |alts| && j < |alts| && i != j
    requires Dispatched(alts[i], g, heads[i], deep[i], Rivals(deep, i, exits), contest, x)
    requires v in SeqLang(alts[j], Language(g)) && v != [] && Untruncated(alts[j], g, 1) && Untruncated(alts[j], g, k)
    ensures Differ(x, v, contest) || (x in deep[i] && Unsettled(x, Rivals(deep, i, exits), contest))
  {
    WordHead(alts[j], g, v);
    if OfHead(alts[i], g, heads[i], x) {
      HeadTurnedAway(alts, g, contest, exits, heads[i], i, j, x[0], v[0]);
    } else {
      var p, d :| OfPath(p, d, deep[i], Rivals(deep, i, exits), contest, x);
      PathTurnedAway(alts, g, k, contest, exits, heads, deep, i, j, p, d, v);
    }
  }

  lemma HeadTurnedAway(alts: seq<Sequence>, g: Grammar, contest: Contest, exits: seq<Word>, heads: set<string>, i: nat,
      j: nat, h: string, o: string)
    requires i < |alts| && j < |alts| && i != j && ContestedSet(alts, i, g, contest, exits, heads)
    requires HeadOf(alts[i], g, h) && h !in heads && HeadOf(alts[j], g, o)
    ensures !contest(h, o)
  {
    if contest(h, o) {
      assert Clash(alts, i, g, contest, exits, h, o);
      assert Contested(alts, i, g, contest, exits, h);
    }
  }

  lemma DeepHead(alt: Sequence, g: Grammar, k: nat, heads: set<string>, p: Word)
    requires p in DeepPaths(alt, g, k, heads)
    ensures p != [] && p[0] in heads
  {
    var paths := AltPaths(alt, g, k, {}, Some(heads));
    InNonEmpty(paths, p);
    var x :| x in paths && x.tokens == p;
    AltKept(alt, g, k, {}, heads);
    KeptIn(AltPaths(alt, g, k, {}, None), heads, x);
  }

  lemma PathTurnedAway(alts: seq<Sequence>, g: Grammar, k: nat, contest: Contest, exits: seq<Word>,
      heads: seq<set<string>>,
                       deep: seq<seq<Word>>, i: nat, j: nat, p: Word, d: nat, v: Word)
    requires Decision(alts, g, k, contest, exits, heads, deep) && Symmetric(contest) && DistinctNames(g) && k >= 1
    requires i < |alts| && j < |alts| && i != j
    requires p in deep[i] && DepthIs(p, Rivals(deep, i, exits), contest, d) && d <= |p|
    requires v in SeqLang(alts[j], Language(g)) && v != [] && HeadOf(alts[j], g, v[0]) && Untruncated(alts[j], g, k)
    ensures Differ(p[..d], v, contest) || (p[..d] in deep[i] && Unsettled(p[..d], Rivals(deep, i, exits), contest))
  {
    var rivals := Rivals(deep, i, exits);
    DeepHead(alts[i], g, k, heads[i], p);
    if Unsettled(p, rivals, contest) {
      assert p[..d] == p;
    } else {
      if v[0] in heads[j] {
        var q := WordPath(alts[j], g, k, heads[j], v);
        InOthers(deep, i, 0, j, q);
        DepthEnough(p, rivals, contest, d);
        DifferOn(p[..d], q, v, contest);
      } else {
        assert HeadOf(alts[i], g, p[0]);
        HeadTurnedAway(alts, g, contest, exits, heads[j], j, i, v[0], p[0]);
        assert !contest(p[0], v[0]);
        RunIs(p[..d], v, contest, 0);
      }
    }
  }

  lemma DifferOn(x: Word, q: Word, v: Word, contest: Contest)
    requires q <= v && Differ(x, q, contest)
    ensures Differ(x, v, contest)
  {
    RunIs(x, v, contest, Run(x, q, contest));
  }
}
