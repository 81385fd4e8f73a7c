/** The enumeration as the emitter runs it: paths rebuilt element by element, a
    reference's alternatives expanded once for each length of path that reaches it,
    the walk over once no path can grow, and every path held as it is made. */
module PrefixWalk {
  import opened Ir
  import opened Prefixes
  import opened EmitBudget

  lemma {:induction false} StepPathsSnoc(paths: seq<Path>, j: nat, e: Element, g: Grammar, k: nat, visited: set<string>,
      heads: Heads)
    requires j < |paths|
    ensures StepPaths(paths[..j + 1], e, g, k, visited, heads)
      == StepPaths(paths[..j], e, g, k, visited, heads) + StepPath(paths[j], e, g, k, visited, heads)
  {
    assert paths[..j + 1] == paths[..j] + [paths[j]];
    StepPathsCat(paths[..j], [paths[j]], e, g, k, visited, heads);
    StepPathsOne(paths[j], e, g, k, visited, heads);
  }

  ghost predicate AllClosed(paths: seq<Path>, k: nat) {
    forall p :: p in paths ==> !Live(p, k)
  }

  lemma {:induction false} ClosedStep(paths: seq<Path>, e: Element, g: Grammar, k: nat, visited: set<string>,
      heads: Heads)
    requires AllClosed(paths, k)
    ensures StepPaths(paths, e, g, k, visited, heads) == paths
    decreases |paths|
  {
    if paths != [] {
      ClosedStep(paths[1..], e, g, k, visited, heads);
    }
  }

  /** Paths none of which can grow stay as they are to the end of the sequence. */
  lemma {:induction false} ClosedStays(paths: seq<Path>, s: Sequence, g: Grammar, k: nat, visited: set<string>,
      heads: Heads)
    requires AllClosed(paths, k)
    ensures SeqPaths(paths, s, g, k, visited, heads) == paths
    decreases |s|
  {
    if s != [] {
      ClosedStep(paths, s[0], g, k, visited, heads);
      ClosedStays(paths, s[1..], g, k, visited, heads);
    }
  }

  /** One path added to the next list, held first. */
  method Put(next: seq<Path>, p: Path, k: nat, open: bool, budget: Budget) returns (ok: bool, next': seq<Path>,
      open': bool)
    requires budget.Valid()
    modifies budget
    ensures budget.Valid() && budget.written == old(budget.written) && budget.held >= old(budget.held)
    ensures ok ==> budget.held == old(budget.held) + Units([p])
    ensures ok ==> next' == next + [p] && (open' <==> open || Live(p, k))
  {
    next', open' := next, open;
    ok := budget.Hold(1 + |p.tokens|);
    if ok {
      if !p.done && |p.tokens| < k {
        open' := true;
      }
      next' := next + [p];
    }
  }

  /** A path extended by each of a reference's own paths. */
  method PutGrafts(next: seq<Path>, p: Path, subs: seq<Path>, k: nat, open: bool, budget: Budget) returns (ok: bool,
      next': seq<Path>, open': bool)
    requires budget.Valid()
    modifies budget
    ensures budget.Valid() && budget.written == old(budget.written) && budget.held >= old(budget.held)
    ensures ok ==> budget.held == old(budget.held) + Units(Graft(p, subs))
    ensures ok ==> next' == next + Graft(p, subs)
    ensures ok ==> (open ==> open') && (!open' ==> AllClosed(Graft(p, subs), k))
  {
    ok, next', open' := true, next, open;
    ghost var grafts := Graft(p, subs);
    for i := 0 to |subs|
      invariant ok && budget.Valid() && budget.written == old(budget.written)
      invariant budget.held == old(budget.held) + Units(grafts[..i])
      invariant next' == next + grafts[..i]
      invariant (open ==> open') && (!open' ==> AllClosed(grafts[..i], k))
    {
      assert grafts[..i + 1] == grafts[..i] + [grafts[i]];
      UnitsCat(grafts[..i], [grafts[i]]);
      ok, next', open' := Put(next', Path(p.tokens + subs[i].tokens, subs[i].done), k, open', budget);
      if !ok {
        return;
      }
    }
    assert grafts[..|subs|] == grafts;
  }

  /** What a reference's alternatives contribute to a path holding `held` tokens. */
  ghost function Expansion(alts: seq<Sequence>, held: nat, g: Grammar, k: nat, visited: set<string>,
      heads: Heads): seq<Path>
    requires held < k
  {
    AltsPaths(alts, g, k - held, visited, if held == 0 then heads else None)
  }

  /** The cache: expansions by the length of the path that asks. */
  ghost predicate Cached(byLength: map<nat, seq<Path>>, alts: seq<Sequence>, g: Grammar, k: nat, visited: set<string>,
      heads: Heads) {
    forall h :: h in byLength ==> h < k && byLength[h] == Expansion(alts, h, g, k, visited, heads)
  }

  method AltPrefixesRaw(alt: Sequence, g: Grammar, k: nat, visited: set<string>, heads: Heads, budget: Budget)
    returns (ok: bool, paths: seq<Path>)
    requires budget.Valid()
    modifies budget
    ensures budget.Valid() && budget.written == old(budget.written) && budget.held >= old(budget.held)
    ensures ok ==> paths == AltPaths(alt, g, k, visited, heads)
    ensures ok ==> budget.held >= old(budget.held) + Units(paths)
    decreases Unvisited(g, visited), 2, 0
  {
    paths := [EMPTY];
    ok := budget.Hold(1);
    if !ok {
      return;
    }
    for i := 0 to |alt|
      invariant ok && budget.Valid() && budget.written == old(budget.written)
      invariant budget.held >= old(budget.held) + Units(paths)
      invariant SeqPaths(paths, alt[i..], g, k, visited, heads) == AltPaths(alt, g, k, visited, heads)
    {
      assert alt[i..][0] == alt[i] && alt[i..][1..] == alt[i + 1..];
      var open;
      ok, paths, open := Advance(paths, alt[i], g, k, visited, heads, budget, old(budget.held));
      if !ok {
        return;
      }
      if !open {
        ClosedStays(paths, alt[i + 1..], g, k, visited, heads);
        return;
      }
    }
  }

  /** Every path taken over one element. */
  method Advance(paths: seq<Path>, e: Element, g: Grammar, k: nat, visited: set<string>, heads: Heads, budget: Budget,
      ghost base: nat)
    returns (ok: bool, next: seq<Path>, open: bool)
    requires budget.Valid() && budget.held >= base + Units(paths)
    modifies budget
    ensures budget.Valid() && budget.written == old(budget.written) && budget.held >= base
    ensures ok ==> next == StepPaths(paths, e, g, k, visited, heads)
    ensures ok ==> budget.held >= base + Units(next)
    ensures ok && !open ==> AllClosed(next, k)
    decreases Unvisited(g, visited), 1, 1
  {
    ok, next, open := true, [], false;
    var byLength: map<nat, seq<Path>> := map[];
    var alts := AltsOf(e, g, visited);
    for j := 0 to |paths|
      invariant ok && budget.Valid() && budget.written == old(budget.written)
      invariant budget.held >= base + Units(paths[j..]) + Units(next)
      invariant next == StepPaths(paths[..j], e, g, k, visited, heads)
      invariant !open ==> AllClosed(next, k)
      invariant Cached(byLength, alts, g, k, Inner(e, visited), heads)
    {
      StepPathsSnoc(paths, j, e, g, k, visited, heads);
      TailUnits(paths, j);
      UnitsCat(next, StepPath(paths[j], e, g, k, visited, heads));
      ok, next, open, byLength := AdvanceOne(paths[j], e, alts, g, k, visited, heads, next, open, byLength, budget);
      if !ok {
        return;
      }
    }
    assert paths[..|paths|] == paths;
  }

  lemma TailUnits(paths: seq<Path>, j: nat)
    requires j < |paths|
    ensures Units(paths[j..]) == Units([paths[j]]) + Units(paths[j + 1..])
  {
    assert paths[j..] == [paths[j]] + paths[j + 1..];
    UnitsCat([paths[j]], paths[j + 1..]);
  }

  /** The alternatives a reference opens; none when it cycles back or names nothing. */
  function AltsOf(e: Element, g: Grammar, visited: set<string>): seq<Sequence> {
    if e.Ref? && e.name !in visited && Find(g, e.name).Some? then Find(g, e.name).value.alts else []
  }

  ghost function Inner(e: Element, visited: set<string>): set<string> {
    if e.Ref? then visited + {e.name} else visited
  }

  /** One path over one element, extending `next`. */
  method AdvanceOne(p: Path, e: Element, alts: seq<Sequence>, g: Grammar, k: nat, visited: set<string>, heads: Heads,
                    next: seq<Path>, open: bool, byLength: map<nat, seq<Path>>, budget: Budget)
    returns (ok: bool, next': seq<Path>, open': bool, byLength': map<nat, seq<Path>>)
    requires budget.Valid() && alts == AltsOf(e, g, visited)
    requires Cached(byLength, alts, g, k, Inner(e, visited), heads)
    modifies budget
    ensures budget.Valid() && budget.written == old(budget.written) && budget.held >= old(budget.held)
    ensures ok ==> next' == next + StepPath(p, e, g, k, visited, heads)
    ensures ok ==> budget.held + Units([p]) >= old(budget.held) + Units(StepPath(p, e, g, k, visited, heads))
    ensures ok ==> (open ==> open') && (!open' ==> AllClosed(StepPath(p, e, g, k, visited, heads), k))
    ensures ok ==> Cached(byLength', alts, g, k, Inner(e, visited), heads)
    decreases Unvisited(g, visited), 1, 0
  {
    ok, next', open', byLength' := true, next, open, byLength;
    if p.done || |p.tokens| >= k {
      next' := next + [p];
    } else if e.Ref? && alts != [] {
      ok, byLength' := Lookup(|p.tokens|, e, alts, g, k, visited, heads, byLength, budget);
      if ok {
        ok, next', open' := PutGrafts(next, p, byLength'[|p.tokens|], k, open, budget);
      }
    } else if !e.Term? {
      ok, next', open' := Put(next, Path(p.tokens, true), k, open, budget);
    } else if Admits(heads, |p.tokens|, e.tok) {
      ok, next', open' := Put(next, Path(p.tokens + [e.tok], false), k, open, budget);
    }
  }

  /** A reference's expansion for paths of one length, made at most once. */
  method Lookup(held: nat, e: Element, alts: seq<Sequence>, g: Grammar, k: nat, visited: set<string>, heads: Heads,
                byLength: map<nat, seq<Path>>, budget: Budget)
    returns (ok: bool, byLength': map<nat, seq<Path>>)
    requires budget.Valid() && held < k && e.Ref? && alts == AltsOf(e, g, visited) && alts != []
    requires Cached(byLength, alts, g, k, Inner(e, visited), heads)
    modifies budget
    ensures budget.Valid() && budget.written == old(budget.written) && budget.held >= old(budget.held)
    ensures ok ==> held in byLength' && Cached(byLength', alts, g, k, Inner(e, visited), heads)
    decreases Unvisited(g, visited), 0, 0
  {
    ok, byLength' := true, byLength;
    if held !in byLength {
      VisitShrinks(g, visited, e.name);
      var subs;
      ok, subs := Expand(alts, g, k - held, visited + {e.name}, if held == 0 then heads else None, budget);
      if ok {
        byLength' := byLength[held := subs];
      }
    }
  }

  method Expand(alts: seq<Sequence>, g: Grammar, k: nat, visited: set<string>, heads: Heads, budget: Budget)
    returns (ok: bool, paths: seq<Path>)
    requires budget.Valid()
    modifies budget
    ensures budget.Valid() && budget.written == old(budget.written) && budget.held >= old(budget.held)
    ensures ok ==> paths == AltsPaths(alts, g, k, visited, heads)
    decreases Unvisited(g, visited), 3, |alts|
  {
    ok, paths := true, [];
    for i := 0 to |alts|
      invariant ok && budget.Valid() && budget.written == old(budget.written) && budget.held >= old(budget.held)
      invariant paths + AltsPaths(alts[i..], g, k, visited, heads) == AltsPaths(alts, g, k, visited, heads)
    {
      assert alts[i..][0] == alts[i] && alts[i..][1..] == alts[i + 1..];
      var more;
      ok, more := AltPrefixesRaw(alts[i], g, k, visited, heads, budget);
      if !ok {
        return;
      }
      ghost var rest := AltsPaths(alts[i + 1..], g, k, visited, heads);
      assert paths + (more + rest) == (paths + more) + rest;
      paths := paths + more;
    }
  }
}
