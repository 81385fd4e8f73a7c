/** Deciding the dispatch prefixes of a choice, as the emitter does it. */
module DispatchRun {
  import opened Ir
  import opened Languages
  import opened Prefixes
  import opened EmitBudget
  import opened PrefixWalk
  import opened Dispatch
  import opened PairTable

  // ---- the paths of each alternative ----

  /** One alternative's paths, of which only those it returns stay held. */
  method Enumerate(alt: Sequence, g: Grammar, k: nat, heads: Heads, budget: Budget) returns (ok: bool, paths: seq<Path>)
    requires budget.Valid()
    modifies budget
    ensures budget.Valid() && budget.written == old(budget.written) && budget.held >= old(budget.held)
    ensures ok ==> paths == AltPaths(alt, g, k, {}, heads)
    ensures ok ==> budget.held == old(budget.held) + Units(paths)
  {
    var base := budget.held;
    ok, paths := AltPrefixesRaw(alt, g, k, {}, heads, budget);
    if ok {
      budget.Settle(base, paths);
    }
  }

  /** The heads among one-token paths, in first-seen order. */
  method HeadsIn(paths: seq<Path>) returns (hs: seq<string>)
    ensures forall h :: h in hs <==> IsHead(paths, h)
  {
    hs := [];
    for i := 0 to |paths|
      invariant forall h :: h in hs <==> IsHead(paths[..i], h)
    {
      if |paths[i].tokens| == 1 && paths[i].tokens[0] !in hs {
        hs := hs + [paths[i].tokens[0]];
      }
      HeadAdded(paths, i);
    }
    assert paths[..|paths|] == paths;
  }

  lemma HeadAdded(paths: seq<Path>, i: nat)
    requires i < |paths|
    ensures forall h :: IsHead(paths[..i + 1], h) <==> IsHead(paths[..i], h) || paths[i].tokens == [h]
  {
    assert paths[..i + 1] == paths[..i] + [paths[i]];
  }

  method Vanishing(paths: seq<Path>) returns (nullable: bool)
    ensures nullable <==> EMPTY in paths
  {
    nullable := exists p :: p in paths && p.tokens == [] && !p.done;
    assert forall p: Path :: p.tokens == [] && !p.done <==> p == EMPTY;
  }

  ghost predicate HeadLists(alts: seq<Sequence>, g: Grammar, heads: seq<seq<string>>) {
    |heads| <= |alts| && forall i :: 0 <= i < |heads| ==> HeadList(alts[i], g, heads[i])
  }

  ghost predicate HeadList(alt: Sequence, g: Grammar, hs: seq<string>) {
    forall h :: h in hs <==> HeadOf(alt, g, h)
  }

  ghost predicate NullableBits(alts: seq<Sequence>, g: Grammar, bits: seq<bool>) {
    |bits| <= |alts| && forall i :: 0 <= i < |bits| ==> (bits[i] <==> EMPTY in OnePaths(alts[i], g))
  }

  method FirstTokens(alts: seq<Sequence>, g: Grammar, budget: Budget) returns (ok: bool, heads: seq<seq<string>>,
      nullable: seq<bool>)
    requires budget.Valid()
    modifies budget
    ensures budget.Valid() && budget.written == old(budget.written) && budget.held >= old(budget.held)
    ensures ok ==> |heads| == |nullable| == |alts| && HeadLists(alts, g, heads) && NullableBits(alts, g, nullable)
  {
    ok, heads, nullable := true, [], [];
    for i := 0 to |alts|
      invariant ok && budget.Valid() && budget.written == old(budget.written) && budget.held >= old(budget.held)
      invariant |heads| == |nullable| == i && HeadLists(alts, g, heads) && NullableBits(alts, g, nullable)
    {
      var paths: seq<Path> := [];
      if alts[i] != [] {
        ok, paths := Enumerate(alts[i], g, 1, None, budget);
        if !ok {
          return;
        }
      }
      var hs := HeadsIn(paths);
      var bit := Vanishing(paths);
      assert HeadList(alts[i], g, hs);
      heads, nullable := heads + [hs], nullable + [bit];
    }
  }

  // ---- the contested heads ----

  method IsContested(alts: seq<Sequence>, g: Grammar, heads: seq<seq<string>>, i: nat, h: string, contest: Contest,
      exits: seq<Word>)
    returns (hit: bool)
    requires |heads| == |alts| && HeadLists(alts, g, heads) && i < |alts| && forall e :: e in exits ==> e != []
    ensures hit <==> Contested(alts, i, g, contest, exits, h)
  {
    hit := false;
    for j := 0 to |heads|
      invariant hit ==> Contested(alts, i, g, contest, exits, h)
      invariant !hit ==> forall l, o :: 0 <= l < j && l != i && HeadOf(alts[l], g, o) ==> !contest(h, o)
    {
      if j == i || hit {
        continue;
      }
      assert HeadList(alts[j], g, heads[j]);
      if exists o :: o in heads[j] && contest(h, o) {
        ghost var o :| o in heads[j] && contest(h, o);
        assert Clash(alts, i, g, contest, exits, h, o);
        hit := true;
      }
    }
    if !hit && exists e :: e in exits && contest(h, e[0]) {
      ghost var e :| e in exits && contest(h, e[0]);
      assert Clash(alts, i, g, contest, exits, h, e[0]);
      hit := true;
    }
    if !hit {
      forall o ensures !Clash(alts, i, g, contest, exits, h, o) {
      }
    }
  }

  ghost predicate ContestedSets(alts: seq<Sequence>, g: Grammar, contest: Contest, exits: seq<Word>,
      sets: seq<set<string>>) {
    |sets| <= |alts| && forall i :: 0 <= i < |sets| ==> ContestedSet(alts, i, g, contest, exits, sets[i])
  }

  method ContestedHeads(alts: seq<Sequence>, g: Grammar, heads: seq<seq<string>>, contest: Contest,
      exits: seq<Word>) returns (sets: seq<set<string>>)
    requires |heads| == |alts| && HeadLists(alts, g, heads) && forall e :: e in exits ==> e != []
    ensures |sets| == |alts| && ContestedSets(alts, g, contest, exits, sets)
  {
    sets := [];
    for i := 0 to |alts|
      invariant |sets| == i && ContestedSets(alts, g, contest, exits, sets)
    {
      var out := ContestedOf(alts, g, heads, i, contest, exits);
      sets := sets + [out];
    }
  }

  method ContestedOf(alts: seq<Sequence>, g: Grammar, heads: seq<seq<string>>, i: nat, contest: Contest,
      exits: seq<Word>) returns (out: set<string>)
    requires |heads| == |alts| && HeadLists(alts, g, heads) && i < |alts| && forall e :: e in exits ==> e != []
    ensures ContestedSet(alts, i, g, contest, exits, out)
  {
    out := {};
    var hs := heads[i];
    assert HeadList(alts[i], g, hs);
    for a := 0 to |hs|
      invariant forall h :: h in out <==> h in hs[..a] && Contested(alts, i, g, contest, exits, h)
    {
      var hit := IsContested(alts, g, heads, i, hs[a], contest, exits);
      if hit {
        out := out + {hs[a]};
      }
      assert hs[..a + 1] == hs[..a] + [hs[a]];
    }
    assert hs[..|hs|] == hs;
  }

  // ---- the deep paths ----

  method KeepNonEmpty(paths: seq<Path>) returns (ws: seq<Word>)
    ensures ws == NonEmpty(paths)
  {
    ws := [];
    for i := 0 to |paths|
      invariant ws + NonEmpty(paths[i..]) == NonEmpty(paths)
    {
      assert paths[i..][0] == paths[i] && paths[i..][1..] == paths[i + 1..];
      if paths[i].tokens != [] {
        assert ws + ([paths[i].tokens] + NonEmpty(paths[i + 1..])) == ws + [paths[i].tokens] + NonEmpty(paths[i + 1..]);
        ws := ws + [paths[i].tokens];
      }
    }
  }

  ghost predicate DeepLists(alts: seq<Sequence>, g: Grammar, k: nat, sets: seq<set<string>>, deep: seq<seq<Word>>) {
    |deep| <= |alts| <= |sets| && forall i :: 0 <= i < |deep| ==> deep[i] == DeepPaths(alts[i], g, k, sets[i])
  }

  method Deepen(alts: seq<Sequence>, g: Grammar, k: nat, sets: seq<set<string>>, budget: Budget) returns (ok: bool,
      deep: seq<seq<Word>>)
    requires budget.Valid() && |sets| == |alts|
    modifies budget
    ensures budget.Valid() && budget.written == old(budget.written) && budget.held >= old(budget.held)
    ensures ok ==> |deep| == |alts| && DeepLists(alts, g, k, sets, deep)
  {
    ok, deep := true, [];
    for i := 0 to |alts|
      invariant ok && budget.Valid() && budget.written == old(budget.written) && budget.held >= old(budget.held)
      invariant |deep| == i && DeepLists(alts, g, k, sets, deep)
    {
      var ws: seq<Word> := [];
      if sets[i] != {} {
        var paths;
        ok, paths := Enumerate(alts[i], g, k, Some(sets[i]), budget);
        if !ok {
          return;
        }
        ws := KeepNonEmpty(paths);
      }
      deep := deep + [ws];
    }
  }

  ghost predicate DeepNamed(names: seq<string>, ids: seq<seq<seq<nat>>>, deep: seq<seq<Word>>) {
    |ids| == |deep| && forall i :: 0 <= i < |ids| ==> AllNamed(names, ids[i], deep[i])
  }

  lemma NamedLater(names: seq<string>, names': seq<string>, ids: seq<seq<nat>>, ws: seq<Word>)
    requires names <= names' && AllNamed(names, ids, ws)
    ensures AllNamed(names', ids, ws)
  {
    forall i | 0 <= i < |ids| ensures Named(names', ids[i], ws[i]) {
      assert Named(names, ids[i], ws[i]);
    }
  }

  method InternDeep(deep: seq<seq<Word>>) returns (t: Interned, ids: seq<seq<seq<nat>>>)
    ensures t.Valid() && DeepNamed(t.names, ids, deep)
  {
    t, ids := Interned([], map[]), [];
    for i := 0 to |deep|
      invariant t.Valid() && |ids| == i
      invariant forall l :: 0 <= l < i ==> AllNamed(t.names, ids[l], deep[l])
    {
      var more;
      ghost var before := t.names;
      t, more := InternAll(t, deep[i]);
      forall l | 0 <= l < i ensures AllNamed(t.names, ids[l], deep[l]) {
        NamedLater(before, t.names, ids[l], deep[l]);
      }
      ids := ids + [more];
    }
  }

  // ---- the depth of a path ----

  /** The depth found against the rivals asked so far, each of which differs. */
  ghost predicate DepthSoFar(p: Word, asked: seq<Word>, contest: Contest, d: nat) {
    && 1 <= d <= |p|
    && (forall q :: q in asked ==> Differ(p, q, contest) && Run(p, q, contest) < d)
    && (d == 1 || Reached(p, asked, contest, d))
  }

  lemma NoneAsked(p: Word, contest: Contest)
    requires p != []
    ensures DepthSoFar(p, [], contest, 1)
  {
  }

  lemma DepthFound(p: Word, rivals: seq<Word>, contest: Contest, d: nat)
    requires DepthSoFar(p, rivals, contest, d)
    ensures DepthIs(p, rivals, contest, d)
  {
  }

  lemma DepthNext(p: Word, asked: seq<Word>, q: Word, contest: Contest, d: nat, d': nat)
    requires DepthSoFar(p, asked, contest, d) && Differ(p, q, contest)
    requires d' == if Run(p, q, contest) + 1 > d then Run(p, q, contest) + 1 else d
    ensures DepthSoFar(p, asked + [q], contest, d')
  {
    if d' == d && d > 1 {
      var o :| o in asked && Run(p, o, contest) + 1 == d;
      assert o in asked + [q];
    } else if d' > d {
      assert q in asked + [q];
    }
  }

  /** One rival: how far the two collide, and the depth past that. */
  method Against(table: Table, p: seq<nat>, q: seq<nat>, d: nat, ghost pw: Word, ghost qw: Word) returns (differs: bool,
      d': nat)
    requires table.Valid() && Named(table.names, p, pw) && Named(table.names, q, qw)
    modifies table.answers
    ensures table.Valid()
    ensures differs <==> Differ(pw, qw, table.contest)
    ensures differs ==> d' == if Run(pw, qw, table.contest) + 1 > d then Run(pw, qw, table.contest) + 1 else d
  {
    d' := d;
    var m := if |p| < |q| then |p| else |q|;
    var k := 0;
    var yes := true;
    while k < m && yes
      invariant table.Valid() && k <= m
      invariant forall l :: 0 <= l < k ==> table.contest(pw[l], qw[l])
      invariant !yes ==> k < m && !table.contest(pw[k], qw[k])
      decreases m - k, yes
    {
      yes := table.Meets(p[k], q[k]);
      if yes {
        k := k + 1;
      }
    }
    RunIs(pw, qw, table.contest, k);
    if k == m {
      return false, d;
    }
    if k + 1 > d {
      d' := k + 1;
    }
    differs := true;
  }

  method AgainstAll(table: Table, p: seq<nat>, qs: seq<seq<nat>>, d: nat, ghost pw: Word, ghost qws: seq<Word>,
      ghost asked: seq<Word>)
    returns (differ: bool, d': nat)
    requires table.Valid() && Named(table.names, p, pw) && AllNamed(table.names, qs, qws)
    requires DepthSoFar(pw, asked, table.contest, d)
    modifies table.answers
    ensures table.Valid()
    ensures differ ==> DepthSoFar(pw, asked + qws, table.contest, d')
    ensures !differ ==> Unsettled(pw, qws, table.contest)
  {
    differ, d' := true, d;
    assert asked + qws[..0] == asked;
    for i := 0 to |qs|
      invariant table.Valid() && differ && DepthSoFar(pw, asked + qws[..i], table.contest, d')
    {
      ghost var before := d';
      differ, d' := Against(table, p, qs[i], d', pw, qws[i]);
      if !differ {
        assert qws[i] in qws;
        return;
      }
      DepthNext(pw, asked + qws[..i], qws[i], table.contest, before, d');
      assert asked + qws[..i] + [qws[i]] == asked + qws[..i + 1];
    }
    assert qws[..|qs|] == qws;
  }

  lemma UnsettledAmong(p: Word, some: seq<Word>, rivals: seq<Word>, contest: Contest)
    requires Unsettled(p, some, contest) && forall q :: q in some ==> q in rivals
    ensures Unsettled(p, rivals, contest)
  {
  }

  lemma OtherUnsettled(p: Word, deep: seq<seq<Word>>, i: nat, j: nat, contest: Contest)
    requires j < |deep| && j != i && Unsettled(p, deep[j], contest)
    ensures Unsettled(p, Others(deep, i, 0), contest)
  {
    var q :| q in deep[j] && !Differ(p, q, contest);
    InOthers(deep, i, 0, j, q);
  }

  method AgainstOthers(table: Table, p: seq<nat>, i: nat, deepIds: seq<seq<seq<nat>>>, ghost pw: Word,
      ghost deep: seq<seq<Word>>)
    returns (differ: bool, d: nat)
    requires table.Valid() && Named(table.names, p, pw) && DeepNamed(table.names, deepIds, deep) && p != []
    modifies table.answers
    ensures table.Valid()
    ensures differ ==> DepthSoFar(pw, Others(deep, i, 0), table.contest, d)
    ensures !differ ==> Unsettled(pw, Others(deep, i, 0), table.contest)
  {
    differ, d := true, 1;
    ghost var asked: seq<Word> := [];
    NoneAsked(pw, table.contest);
    for j := 0 to |deepIds|
      invariant table.Valid() && differ && DepthSoFar(pw, asked, table.contest, d)
      invariant asked + Others(deep, i, j) == Others(deep, i, 0)
    {
      differ, d, asked := AgainstOne(table, p, i, j, deepIds, d, pw, deep, asked);
      if !differ {
        return;
      }
    }
  }

  method AgainstOne(table: Table, p: seq<nat>, i: nat, j: nat, deepIds: seq<seq<seq<nat>>>, d: nat, ghost pw: Word,
      ghost deep: seq<seq<Word>>, ghost asked: seq<Word>)
    returns (differ: bool, d': nat, ghost asked': seq<Word>)
    requires table.Valid() && Named(table.names, p, pw) && DeepNamed(table.names, deepIds, deep) && j < |deep|
    requires DepthSoFar(pw, asked, table.contest, d) && asked + Others(deep, i, j) == Others(deep, i, 0)
    modifies table.answers
    ensures table.Valid()
    ensures differ ==>
      DepthSoFar(pw, asked', table.contest, d') && asked' + Others(deep, i, j + 1) == Others(deep, i, 0)
    ensures !differ ==> Unsettled(pw, Others(deep, i, 0), table.contest)
  {
    differ, d', asked' := true, d, asked;
    if j != i {
      differ, d' := AgainstAll(table, p, deepIds[j], d, pw, deep[j], asked);
      if differ {
        OthersTaken(deep, i, j, asked);
        asked' := asked + deep[j];
      } else {
        OtherUnsettled(pw, deep, i, j, table.contest);
      }
    }
  }

  /** One more alternative's paths asked. */
  lemma OthersTaken(deep: seq<seq<Word>>, i: nat, j: nat, asked: seq<Word>)
    requires j < |deep| && j != i && asked + Others(deep, i, j) == Others(deep, i, 0)
    ensures asked + deep[j] + Others(deep, i, j + 1) == Others(deep, i, 0)
  {
    assert asked + (deep[j] + Others(deep, i, j + 1)) == asked + deep[j] + Others(deep, i, j + 1);
  }

  /** The depth at which a path stops colliding with every rival. */
  method DepthOf(table: Table, p: seq<nat>, i: nat, deepIds: seq<seq<seq<nat>>>, exitIds: seq<seq<nat>>,
                 ghost pw: Word, ghost deep: seq<seq<Word>>, ghost exits: seq<Word>) returns (d: nat)
    requires table.Valid() && Named(table.names, p, pw) && DeepNamed(table.names, deepIds, deep)
    requires AllNamed(table.names, exitIds, exits)
    requires p != []
    modifies table.answers
    ensures table.Valid() && 1 <= d <= |pw|
    ensures DepthIs(pw, Rivals(deep, i, exits), table.contest, d)
  {
    var differ;
    ghost var others := Others(deep, i, 0);
    differ, d := AgainstOthers(table, p, i, deepIds, pw, deep);
    if differ {
      differ, d := AgainstAll(table, p, exitIds, d, pw, exits, others);
      if differ {
        DepthFound(pw, others + exits, table.contest, d);
        return;
      }
      UnsettledAmong(pw, exits, others + exits, table.contest);
    } else {
      UnsettledAmong(pw, others, others + exits, table.contest);
    }
    d := |p|;
  }

  lemma DepthUnique(p: Word, rivals: seq<Word>, contest: Contest, d: nat, d': nat)
    requires DepthIs(p, rivals, contest, d) && DepthIs(p, rivals, contest, d')
    ensures d == d'
  {
  }

  // ---- collecting the prefixes ----

  function WordUnits(ws: seq<Word>): nat {
    if ws == [] then 0 else 1 + |ws[0]| + WordUnits(ws[1..])
  }

  lemma {:induction false} WordUnitsSnoc(ws: seq<Word>, w: Word)
    ensures WordUnits(ws + [w]) == WordUnits(ws) + 1 + |w|
  {
    if ws == [] {
      assert [w][1..] == [];
    } else {
      assert (ws + [w])[0] == ws[0] && (ws + [w])[1..] == ws[1..] + [w];
      WordUnitsSnoc(ws[1..], w);
    }
  }

  ghost predicate Distinct(ws: seq<Word>) {
    forall i, j :: 0 <= i < j < |ws| ==> ws[i] != ws[j]
  }

  /** A prefix kept once, held as it is kept. */
  method Collect(prefixes: seq<Word>, x: Word, budget: Budget) returns (ok: bool, prefixes': seq<Word>)
    requires budget.Valid() && Distinct(prefixes)
    modifies budget
    ensures budget.Valid() && budget.written == old(budget.written) && budget.held >= old(budget.held)
    ensures ok ==> Distinct(prefixes') && forall y :: y in prefixes' <==> y in prefixes || y == x
    ensures ok ==> budget.held + WordUnits(prefixes) == old(budget.held) + WordUnits(prefixes')
  {
    ok, prefixes' := true, prefixes;
    if x !in prefixes {
      ok := budget.Hold(1 + |x|);
      if ok {
        prefixes' := prefixes + [x];
        WordUnitsSnoc(prefixes, x);
      }
    }
  }

  /** The prefixes one head stands for. */
  ghost predicate HeadGives(h: string, heads: set<string>, mine: seq<Word>, n: nat, rivals: seq<Word>, contest: Contest,
      x: Word)
    requires n <= |mine|
  {
    if h !in heads then x == [h] && n == |mine| else exists a, d :: PathGives(h, mine, n, a, d, rivals, contest, x)
  }

  ghost predicate PathGives(h: string, mine: seq<Word>, n: nat, a: int, d: nat, rivals: seq<Word>, contest: Contest,
      x: Word)
    requires n <= |mine|
  {
    0 <= a < n && mine[a] != [] && mine[a][0] == h && DepthIs(mine[a], rivals, contest, d) && d <= |mine[a]|
      && x == mine[a][..d]
  }

  lemma GivesNext(h: string, heads: set<string>, mine: seq<Word>, n: nat, d: nat, rivals: seq<Word>, contest: Contest,
      x: Word)
    requires n < |mine| && h in heads && mine[n] != []
    requires mine[n][0] == h ==> DepthIs(mine[n], rivals, contest, d) && d <= |mine[n]|
    ensures HeadGives(h, heads, mine, n + 1, rivals, contest, x)
      <==> HeadGives(h, heads, mine, n, rivals, contest, x) || (mine[n][0] == h && x == mine[n][..d])
  {
    if HeadGives(h, heads, mine, n + 1, rivals, contest, x) {
      var a, e :| PathGives(h, mine, n + 1, a, e, rivals, contest, x);
      if a < n {
        assert PathGives(h, mine, n, a, e, rivals, contest, x);
      } else {
        DepthUnique(mine[n], rivals, contest, d, e);
      }
    }
    if HeadGives(h, heads, mine, n, rivals, contest, x) {
      var a, e :| PathGives(h, mine, n, a, e, rivals, contest, x);
      assert PathGives(h, mine, n + 1, a, e, rivals, contest, x);
    }
    if mine[n][0] == h && x == mine[n][..d] {
      assert PathGives(h, mine, n + 1, n, d, rivals, contest, x);
    }
  }

  ghost predicate Gathered(prefixes: seq<Word>, prefixes0: seq<Word>, h: string, heads: set<string>, mine: seq<Word>,
      n: nat, rivals: seq<Word>, contest: Contest)
    requires n <= |mine|
  {
    forall x :: x in prefixes <==> x in prefixes0 || HeadGives(h, heads, mine, n, rivals, contest, x)
  }

  method UnderHead(h: string, ghost heads: set<string>, i: nat, deep: seq<seq<Word>>, deepIds: seq<seq<seq<nat>>>,
      exitIds: seq<seq<nat>>,
                   table: Table, ghost exits: seq<Word>, prefixes0: seq<Word>, budget: Budget)
    returns (ok: bool, prefixes: seq<Word>)
    requires budget.Valid() && table.Valid() && Distinct(prefixes0) && i < |deep| && h in heads
    requires DeepNamed(table.names, deepIds, deep) && AllNamed(table.names, exitIds, exits)
    requires forall p :: p in deep[i] ==> p != []
    modifies budget, table.answers
    ensures budget.Valid() && table.Valid() && budget.written == old(budget.written) && budget.held >= old(budget.held)
    ensures ok ==> Distinct(prefixes)
    ensures ok ==>
      Gathered(prefixes, prefixes0, h, heads, deep[i], |deep[i]|, Rivals(deep, i, exits), table.contest)
    ensures ok ==> budget.held + WordUnits(prefixes0) == old(budget.held) + WordUnits(prefixes)
  {
    ok, prefixes := true, prefixes0;
    ghost var rivals := Rivals(deep, i, exits);
    for at := 0 to |deep[i]|
      invariant ok && budget.Valid() && table.Valid() && budget.written == old(budget.written)
      invariant budget.held >= old(budget.held)
      invariant Distinct(prefixes) && Gathered(prefixes, prefixes0, h, heads, deep[i], at, rivals, table.contest)
      invariant budget.held + WordUnits(prefixes0) == old(budget.held) + WordUnits(prefixes)
    {
      var p := deep[i][at];
      assert p in deep[i];
      ghost var d: nat := 0;
      ghost var was := prefixes;
      if p[0] == h {
        assert AllNamed(table.names, deepIds[i], deep[i]);
        assert Named(table.names, deepIds[i][at], p);
        ok, prefixes, d := CollectPath(p, deepIds[i][at], i, deepIds, exitIds, table, deep, exits, prefixes, budget);
        if !ok {
          return;
        }
      }
      GatheredNext(was, prefixes, prefixes0, h, heads, deep[i], at, d, rivals, table.contest);
    }
  }

  /** One path under the head, kept to its depth. */
  method CollectPath(p: Word, ids: seq<nat>, i: nat, deepIds: seq<seq<seq<nat>>>, exitIds: seq<seq<nat>>, table: Table,
                     ghost deep: seq<seq<Word>>, ghost exits: seq<Word>, prefixes0: seq<Word>, budget: Budget)
    returns (ok: bool, prefixes: seq<Word>, ghost d: nat)
    requires budget.Valid() && table.Valid() && Distinct(prefixes0) && p != [] && Named(table.names, ids, p)
    requires DeepNamed(table.names, deepIds, deep) && AllNamed(table.names, exitIds, exits)
    modifies budget, table.answers
    ensures budget.Valid() && table.Valid() && budget.written == old(budget.written) && budget.held >= old(budget.held)
    ensures d <= |p| && DepthIs(p, Rivals(deep, i, exits), table.contest, d)
    ensures ok ==> Distinct(prefixes) && forall x :: x in prefixes <==> x in prefixes0 || x == p[..d]
    ensures ok ==> budget.held + WordUnits(prefixes0) == old(budget.held) + WordUnits(prefixes)
  {
    var depth := DepthOf(table, ids, i, deepIds, exitIds, p, deep, exits);
    d := depth;
    ok, prefixes := Collect(prefixes0, p[..depth], budget);
  }

  lemma GatheredNext(was: seq<Word>, prefixes: seq<Word>, prefixes0: seq<Word>, h: string, heads: set<string>,
      mine: seq<Word>, n: nat, d: nat,
                     rivals: seq<Word>, contest: Contest)
    requires n < |mine| && h in heads && mine[n] != [] && Gathered(was, prefixes0, h, heads, mine, n, rivals, contest)
    requires if mine[n][0] == h then DepthIs(mine[n], rivals, contest, d) && d <= |mine[n]|
      && (forall x :: x in prefixes <==> x in was || x == mine[n][..d])
      else prefixes == was
    ensures Gathered(prefixes, prefixes0, h, heads, mine, n + 1, rivals, contest)
  {
    forall x ensures x in prefixes <==> x in prefixes0 || HeadGives(h, heads, mine, n + 1, rivals, contest, x) {
      GivesNext(h, heads, mine, n, d, rivals, contest, x);
    }
  }

  /** An alternative's heads in turn: alone where nothing else can have them, and
      otherwise each path under them to its depth. */
  method PrefixesOf(hs: seq<string>, heads: set<string>, i: nat, deep: seq<seq<Word>>, deepIds: seq<seq<seq<nat>>>,
      exitIds: seq<seq<nat>>,
                    table: Table, ghost exits: seq<Word>, budget: Budget)
    returns (ok: bool, prefixes: seq<Word>)
    requires budget.Valid() && table.Valid() && i < |deep|
    requires DeepNamed(table.names, deepIds, deep) && AllNamed(table.names, exitIds, exits)
    requires forall p :: p in deep[i] ==> p != []
    modifies budget, table.answers
    ensures budget.Valid() && table.Valid() && budget.written == old(budget.written) && budget.held >= old(budget.held)
    ensures ok ==> Distinct(prefixes) && Dispatches(prefixes, hs, heads, deep[i], Rivals(deep, i, exits), table.contest)
    ensures ok ==> budget.held == old(budget.held) + WordUnits(prefixes)
  {
    ok, prefixes := true, [];
    ghost var rivals := Rivals(deep, i, exits);
    for a := 0 to |hs|
      invariant ok && budget.Valid() && table.Valid() && budget.written == old(budget.written)
      invariant Distinct(prefixes) && Dispatches(prefixes, hs[..a], heads, deep[i], rivals, table.contest)
      invariant budget.held == old(budget.held) + WordUnits(prefixes)
    {
      ghost var was := prefixes;
      if hs[a] !in heads {
        ok, prefixes := Collect(prefixes, [hs[a]], budget);
      } else {
        ok, prefixes := UnderHead(hs[a], heads, i, deep, deepIds, exitIds, table, exits, prefixes, budget);
      }
      if !ok {
        return;
      }
      assert hs[..a + 1] == hs[..a] + [hs[a]];
      DispatchesNext(was, prefixes, hs[..a], hs[a], heads, deep[i], rivals, table.contest);
    }
    assert hs[..|hs|] == hs;
  }

  ghost predicate Given(hs: seq<string>, heads: set<string>, mine: seq<Word>, rivals: seq<Word>, contest: Contest,
      x: Word) {
    exists h :: h in hs && HeadGives(h, heads, mine, |mine|, rivals, contest, x)
  }

  ghost predicate Dispatches(prefixes: seq<Word>, hs: seq<string>, heads: set<string>, mine: seq<Word>,
      rivals: seq<Word>, contest: Contest) {
    forall x :: x in prefixes <==> Given(hs, heads, mine, rivals, contest, x)
  }

  lemma GivenNext(hs: seq<string>, h: string, heads: set<string>, mine: seq<Word>, rivals: seq<Word>, contest: Contest,
      x: Word)
    ensures Given(hs + [h], heads, mine, rivals, contest, x)
      <==> Given(hs, heads, mine, rivals, contest, x) || HeadGives(h, heads, mine, |mine|, rivals, contest, x)
  {
    if Given(hs, heads, mine, rivals, contest, x) {
      var o :| o in hs && HeadGives(o, heads, mine, |mine|, rivals, contest, x);
      assert o in hs + [h];
    }
    assert h in hs + [h];
  }

  lemma DispatchesNext(was: seq<Word>, prefixes: seq<Word>, hs: seq<string>, h: string, heads: set<string>,
      mine: seq<Word>, rivals: seq<Word>, contest: Contest)
    requires Dispatches(was, hs, heads, mine, rivals, contest)
    requires Gathered(prefixes, was, h, heads, mine, |mine|, rivals, contest)
    ensures Dispatches(prefixes, hs + [h], heads, mine, rivals, contest)
  {
    forall x ensures x in prefixes <==> Given(hs + [h], heads, mine, rivals, contest, x) {
      GivenNext(hs, h, heads, mine, rivals, contest, x);
    }
  }

  /** What is given head by head is what `Dispatched` says. */
  lemma GivenIsDispatched(alts: seq<Sequence>, i: nat, g: Grammar, k: nat, contest: Contest, exits: seq<Word>,
      hs: seq<string>, heads: set<string>,
                          rivals: seq<Word>, x: Word)
    requires i < |alts| && HeadList(alts[i], g, hs) && ContestedSet(alts, i, g, contest, exits, heads)
    ensures Given(hs, heads, DeepPaths(alts[i], g, k, heads), rivals, contest, x)
      <==> Dispatched(alts[i], g, heads, DeepPaths(alts[i], g, k, heads), rivals, contest, x)
  {
    var alt, mine := alts[i], DeepPaths(alts[i], g, k, heads);
    if Given(hs, heads, mine, rivals, contest, x) {
      var h :| h in hs && HeadGives(h, heads, mine, |mine|, rivals, contest, x);
      if h !in heads {
        assert OfHead(alt, g, heads, x);
      } else {
        var a, d :| PathGives(h, mine, |mine|, a, d, rivals, contest, x);
        assert OfPath(mine[a], d, mine, rivals, contest, x);
      }
    }
    if OfHead(alt, g, heads, x) {
      assert x == [x[0]] && HeadGives(x[0], heads, mine, |mine|, rivals, contest, x);
    } else if Dispatched(alt, g, heads, mine, rivals, contest, x) {
      var p, d :| OfPath(p, d, mine, rivals, contest, x);
      DeepHead(alt, g, k, heads, p);
      var a :| 0 <= a < |mine| && mine[a] == p;
      assert PathGives(p[0], mine, |mine|, a, d, rivals, contest, x);
      assert HeadGives(p[0], heads, mine, |mine|, rivals, contest, x);
    }
  }

  // ---- the whole decision ----

  function ChoiceUnits(out: seq<Choice>): nat {
    if out == [] then 0 else WordUnits(out[0].prefixes) + ChoiceUnits(out[1..])
  }

  lemma {:induction false} ChoiceUnitsSnoc(out: seq<Choice>, c: Choice)
    ensures ChoiceUnits(out + [c]) == ChoiceUnits(out) + WordUnits(c.prefixes)
  {
    if out == [] {
      assert [c][1..] == [];
    } else {
      assert (out + [c])[0] == out[0] && (out + [c])[1..] == out[1..] + [c];
      ChoiceUnitsSnoc(out[1..], c);
    }
  }

  /** What is decided for one alternative. */
  ghost predicate Decided(alt: Sequence, g: Grammar, heads: set<string>, mine: seq<Word>, rivals: seq<Word>,
      contest: Contest, c: Choice) {
    && (c.nullable <==> EMPTY in OnePaths(alt, g))
    && Distinct(c.prefixes)
    && forall x :: x in c.prefixes <==> Dispatched(alt, g, heads, mine, rivals, contest, x)
  }

  method DecideOne(alts: seq<Sequence>, i: nat, g: Grammar, k: nat, nullable: bool, hs: seq<string>, heads: set<string>,
      deep: seq<seq<Word>>,
                   deepIds: seq<seq<seq<nat>>>, exitIds: seq<seq<nat>>, table: Table, ghost exits: seq<Word>,
                   budget: Budget)
    returns (ok: bool, c: Choice)
    requires budget.Valid() && table.Valid() && i < |alts| == |deep|
    requires DeepNamed(table.names, deepIds, deep) && AllNamed(table.names, exitIds, exits)
    requires HeadList(alts[i], g, hs) && ContestedSet(alts, i, g, table.contest, exits, heads)
    requires deep[i] == DeepPaths(alts[i], g, k, heads)
    requires nullable <==> EMPTY in OnePaths(alts[i], g)
    modifies budget, table.answers
    ensures budget.Valid() && table.Valid() && budget.written == old(budget.written) && budget.held >= old(budget.held)
    ensures ok ==> Decided(alts[i], g, heads, deep[i], Rivals(deep, i, exits), table.contest, c)
    ensures ok ==> budget.held == old(budget.held) + WordUnits(c.prefixes)
  {
    forall p | p in deep[i] ensures p != [] {
      DeepHead(alts[i], g, k, heads, p);
    }
    var prefixes;
    ok, prefixes := PrefixesOf(hs, heads, i, deep, deepIds, exitIds, table, exits, budget);
    c := Choice(prefixes, nullable);
    if ok {
      forall x
        ensures x in prefixes <==> Dispatched(alts[i], g, heads, deep[i], Rivals(deep, i, exits), table.contest, x)
      {
        GivenIsDispatched(alts, i, g, k, table.contest, exits, hs, heads, Rivals(deep, i, exits), x);
      }
    }
  }

  ghost predicate AllDecided(alts: seq<Sequence>, g: Grammar, exits: seq<Word>, contest: Contest,
      heads: seq<set<string>>, deep: seq<seq<Word>>, out: seq<Choice>) {
    |out| <= |alts| == |heads| == |deep|
      && forall i :: 0 <= i < |out| ==> Decided(alts[i], g, heads[i], deep[i], Rivals(deep, i, exits), contest, out[i])
  }

  /** The dispatch prefixes of a choice.  Written and held never pass the limit; at the
      end only the prefixes are held on top of what was held before. */
  method DispatchPrefixes(alts: seq<Sequence>, g: Grammar, k: nat, contest: Contest, exits: seq<Word>, budget: Budget)
    returns (ok: bool, out: seq<Choice>, ghost heads: seq<set<string>>, ghost deep: seq<seq<Word>>)
    requires budget.Valid() && forall e :: e in exits ==> e != []
    modifies budget
    ensures budget.Valid() && budget.written == old(budget.written)
    ensures ok ==> Decision(alts, g, k, contest, exits, heads, deep)
    ensures ok ==> |out| == |alts| && AllDecided(alts, g, exits, contest, heads, deep, out)
    ensures ok ==> budget.held == old(budget.held) + ChoiceUnits(out)
  {
    out, heads, deep := [], [], [];
    var base := budget.held;
    var firsts, nullable;
    ok, firsts, nullable := FirstTokens(alts, g, budget);
    if !ok {
      return;
    }
    var sets := ContestedHeads(alts, g, firsts, contest, exits);
    var paths;
    ok, paths := Deepen(alts, g, k, sets, budget);
    heads, deep := sets, paths;
    if !ok {
      return;
    }
    ok, out := DecideAll(alts, g, k, contest, exits, firsts, nullable, sets, paths, budget);
    if ok {
      budget.Keep(base, ChoiceUnits(out));
    }
  }

  method DecideAll(alts: seq<Sequence>, g: Grammar, k: nat, contest: Contest, exits: seq<Word>,
      firsts: seq<seq<string>>, nullable: seq<bool>,
                   heads: seq<set<string>>, deep: seq<seq<Word>>, budget: Budget)
    returns (ok: bool, out: seq<Choice>)
    requires budget.Valid() && Decision(alts, g, k, contest, exits, heads, deep)
    requires |firsts| == |nullable| == |alts| && HeadLists(alts, g, firsts) && NullableBits(alts, g, nullable)
    modifies budget
    ensures budget.Valid() && budget.written == old(budget.written)
    ensures ok ==> |out| == |alts| && AllDecided(alts, g, exits, contest, heads, deep, out)
    ensures ok ==> budget.held == old(budget.held) + ChoiceUnits(out)
  {
    var t, deepIds := InternDeep(deep);
    ghost var before := t.names;
    var exitIds;
    t, exitIds := InternAll(t, exits);
    forall i | 0 <= i < |deep| ensures AllNamed(t.names, deepIds[i], deep[i]) {
      NamedLater(before, t.names, deepIds[i], deep[i]);
    }
    var table := new Table(t.names, contest);
    ok, out := true, [];
    for i := 0 to |alts|
      invariant ok && budget.Valid() && table.Valid() && budget.written == old(budget.written)
      invariant fresh(table) && fresh(table.answers)
      invariant |out| == i && AllDecided(alts, g, exits, contest, heads, deep, out)
      invariant budget.held == old(budget.held) + ChoiceUnits(out)
    {
      var c;
      assert HeadList(alts[i], g, firsts[i]);
      ok, c := DecideOne(alts, i, g, k, nullable[i], firsts[i], heads[i], deep, deepIds, exitIds, table, exits, budget);
      if !ok {
        return;
      }
      ChoiceUnitsSnoc(out, c);
      out := out + [c];
    }
  }
}
