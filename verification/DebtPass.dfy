/** Settling a contested tail loop: which pushes can end up inside it, and what each of
    them does to the loop's counter. */
module DebtPass {
  import opened Ir
  import opened Forms
  import opened Analysis
  import SuffixDebt

  // ---- who can reach the recursive rule ----

  ghost predicate RefersTo(g: Grammar, p: string, n: string) {
    exists i :: 0 <= i < |g| && g[i].name == p && n in AltsRefs(g[i].alts)
  }

  ghost predicate CallPath(g: Grammar, p: seq<string>) {
    p != [] && forall i, j :: 0 <= i < j < |p| && j == i + 1 ==> RefersTo(g, p[i], p[j])
  }

  ghost predicate CallsBy(g: Grammar, n: string, target: string, p: seq<string>) {
    CallPath(g, p) && p[0] == n && p[|p| - 1] == target
  }

  /** The target can be reached through rule references. */
  ghost predicate Calls(g: Grammar, n: string, target: string) {
    exists p :: CallsBy(g, n, target, p)
  }

  lemma CallsOn(g: Grammar, p: string, n: string, target: string)
    requires RefersTo(g, p, n) && Calls(g, n, target)
    ensures Calls(g, p, target)
  {
    var path :| CallsBy(g, n, target, path);
    assert CallsBy(g, p, target, [p] + path);
  }

  ghost predicate Backward(g: Grammar, seen: set<string>) {
    forall p, n :: n in seen && RefersTo(g, p, n) ==> p in seen
  }

  lemma {:induction false} BackwardHolds(g: Grammar, seen: set<string>, p: seq<string>)
    requires Backward(g, seen) && CallPath(g, p) && p[|p| - 1] in seen
    ensures p[0] in seen
    decreases |p|
  {
    if |p| > 1 {
      assert p[1..][|p| - 2] == p[|p| - 1];
      BackwardHolds(g, seen, p[1..]);
      assert RefersTo(g, p[0], p[1]);
    }
  }

  /** The rules that refer to one. */
  method CallersOf(g: Grammar, n: string) returns (callers: seq<string>)
    ensures forall p :: p in callers <==> RefersTo(g, p, n)
  {
    callers := [];
    for i := 0 to |g|
      invariant forall p :: p in callers <==> exists j :: 0 <= j < i && g[j].name == p && n in AltsRefs(g[j].alts)
    {
      if n in AltsRefs(g[i].alts) {
        callers := callers + [g[i].name];
      }
    }
  }

  /** What the walk keeps: everything seen can reach the target, and what is seen and
      not queued has its callers seen. */
  ghost predicate Walking(g: Grammar, target: string, seen: set<string>, queue: seq<string>) {
    && target in seen && (forall n :: n in queue ==> n in seen)
    && (forall n :: n in seen ==> Calls(g, n, target))
    && seen <= NameSet(g) + {target}
    && forall p, n :: n in seen && n !in queue && RefersTo(g, p, n) ==> p in seen
  }

  ghost function Unseen(g: Grammar, target: string, seen: set<string>): nat {
    |NameSet(g) + {target} - seen|
  }

  /** The rules from which the target can be reached, itself included. */
  method RefCallersOf(g: Grammar, target: string) returns (seen: set<string>)
    ensures forall n :: n in seen <==> Calls(g, n, target)
  {
    seen := {target};
    var queue := [target];
    assert CallsBy(g, target, target, [target]);
    while queue != []
      invariant Walking(g, target, seen, queue)
      decreases Unseen(g, target, seen), |queue|
    {
      var next := queue[|queue| - 1];
      seen, queue := Expand(g, target, seen, queue[..|queue| - 1], next);
    }
    forall n | Calls(g, n, target) ensures n in seen {
      var p :| CallsBy(g, n, target, p);
      BackwardHolds(g, seen, p);
    }
  }

  ghost predicate SeenTo(callers: seq<string>, i: nat, seen: set<string>)
    requires i <= |callers|
  {
    forall j :: 0 <= j < i ==> callers[j] in seen
  }

  lemma SeenOn(callers: seq<string>, i: nat, seen0: set<string>, seen: set<string>)
    requires i < |callers| && SeenTo(callers, i, seen0) && seen0 <= seen && callers[i] in seen
    ensures SeenTo(callers, i + 1, seen)
  {
  }

  ghost predicate Nearer(g: Grammar, target: string, seen0: set<string>, queue0: seq<string>, seen: set<string>,
      queue: seq<string>) {
    if seen == seen0 then queue == queue0 else Unseen(g, target, seen) < Unseen(g, target, seen0)
  }

  /** Part way through the callers of `next`, the first `i` of them seen. */
  ghost predicate Expanding(g: Grammar, target: string, seen0: set<string>, queue0: seq<string>, seen: set<string>,
      queue: seq<string>) {
    && seen0 <= seen <= NameSet(g) + {target} && target in seen
    && (forall n :: n in queue ==> n in seen)
    && (forall n :: n in seen ==> Calls(g, n, target))
    && (forall n :: n in queue0 ==> n in queue)
    && (forall n :: n in seen ==> n in seen0 || n in queue)
    && Nearer(g, target, seen0, queue0, seen, queue)
  }

  /** One rule's callers seen, those not met before queued. */
  method Expand(g: Grammar, target: string, seen0: set<string>, queue0: seq<string>, next: string)
    returns (seen: set<string>, queue: seq<string>)
    requires Walking(g, target, seen0, queue0 + [next])
    ensures Walking(g, target, seen, queue)
    ensures Nearer(g, target, seen0, queue0, seen, queue)
  {
    var callers := CallersOf(g, next);
    seen, queue := seen0, queue0;
    StartsExpanding(g, target, seen0, queue0, next);
    assert SeenTo(callers, 0, seen);
    hide Walking, Expanding, RefersTo, Calls, Nearer, SeenTo;
    for i := 0 to |callers|
      invariant Expanding(g, target, seen0, queue0, seen, queue)
      invariant SeenTo(callers, i, seen)
    {
      assert callers[i] in callers;
      ghost var before := seen;
      seen, queue := SeeCaller(g, target, seen0, queue0, seen, queue, callers[i], next);
      SeenOn(callers, i, before, seen);
    }
    ExpandedWalking(g, target, seen0, queue0, next, seen, queue, callers);
    ExpandedFewer(g, target, seen0, queue0, seen, queue);
  }

  lemma ExpandedFewer(g: Grammar, target: string, seen0: set<string>, queue0: seq<string>, seen: set<string>,
      queue: seq<string>)
    requires Expanding(g, target, seen0, queue0, seen, queue)
    ensures Nearer(g, target, seen0, queue0, seen, queue)
  {
  }

  lemma StartsExpanding(g: Grammar, target: string, seen0: set<string>, queue0: seq<string>, next: string)
    requires Walking(g, target, seen0, queue0 + [next])
    ensures Calls(g, next, target) && Expanding(g, target, seen0, queue0, seen0, queue0)
  {
    assert next in queue0 + [next] && forall n :: n in queue0 ==> n in queue0 + [next];
  }

  method SeeCaller(g: Grammar, target: string, ghost seen0: set<string>, ghost queue0: seq<string>, seen: set<string>,
      queue: seq<string>, p: string, ghost next: string)
    returns (seen': set<string>, queue': seq<string>)
    requires Expanding(g, target, seen0, queue0, seen, queue) && RefersTo(g, p, next) && Calls(g, next, target)
    ensures Expanding(g, target, seen0, queue0, seen', queue') && seen <= seen' && p in seen'
  {
    seen', queue' := seen, queue;
    if p !in seen {
      CallsOn(g, p, next, target);
      FewerLeft(NameSet(g) + {target}, seen, p);
      seen', queue' := seen + {p}, queue + [p];
    }
  }

  lemma ExpandedWalking(g: Grammar, target: string, seen0: set<string>, queue0: seq<string>, next: string,
      seen: set<string>, queue: seq<string>, callers: seq<string>)
    requires Walking(g, target, seen0, queue0 + [next]) && Expanding(g, target, seen0, queue0, seen, queue)
    requires (forall p :: p in callers <==> RefersTo(g, p, next)) && SeenTo(callers, |callers|, seen)
    ensures Walking(g, target, seen, queue)
  {
    forall p, n | n in seen && n !in queue && RefersTo(g, p, n) ensures p in seen {
      if n == next {
        assert p in callers;
      } else {
        assert n in seen0 && n !in queue0 + [next];
      }
    }
  }

  lemma FewerLeft(all: set<string>, seen: set<string>, n: string)
    requires n in all && n !in seen
    ensures |all - (seen + {n})| < |all - seen|
  {
    assert all - seen == (all - (seen + {n})) + {n};
  }

  // ---- what each push does ----

  datatype Site = Site(rule: nat, alt: nat, at: nat)

  predicate SiteOf(g: Grammar, s: Site) {
    s.rule < |g| && s.alt < |g[s.rule].alts| && s.at < |g[s.rule].alts[s.alt]|
  }

  type Meets = (string, string) -> bool

  predicate MeetsAny(t: string, f: set<string>, meets: Meets) {
    exists u :: u in f && (t == u || meets(t, u))
  }

  /** A push into something that can reach the recursive rule, before a suffix that
      cannot vanish. */
  predicate Owing(g: Grammar, s: Site, carries: set<string>, first: Sets, nullable: set<string>)
    requires SiteOf(g, s)
  {
    var alt := g[s.rule].alts[s.alt];
    alt[s.at].Ref? && alt[s.at].name in carries && alt[s.at + 1..] != []
      && !FirstOfSeq(alt[s.at + 1..], first, nullable).1
  }

  function SuffixAt(g: Grammar, s: Site): Sequence
    requires SiteOf(g, s)
  {
    g[s.rule].alts[s.alt][s.at + 1..]
  }

  function SuffixFirst(g: Grammar, s: Site, first: Sets, nullable: set<string>): set<string>
    requires SiteOf(g, s)
  {
    FirstOfSeq(g[s.rule].alts[s.alt][s.at + 1..], first, nullable).0
  }

  function DeltaAt(g: Grammar, s: Site, loopFirst: set<string>, first: Sets, nullable: set<string>, meets: Meets): nat
    requires SiteOf(g, s)
  {
    if exists t :: t in loopFirst && MeetsAny(t, SuffixFirst(g, s, first, nullable), meets) then 1 else 0
  }

  /** The pushes marked and the tokens owed, for the sites before `done`. */
  ghost predicate Marks(g: Grammar, sites: set<Site>, carries: set<string>, loopFirst: set<string>, first: Sets,
      nullable: set<string>, meets: Meets,
                        pending: map<Site, nat>, owed: set<string>) {
    && (forall s :: s in pending <==> s in sites && SiteOf(g, s) && Owing(g, s, carries, first, nullable))
    && (forall s :: s in pending ==> SiteOf(g, s) && pending[s] == DeltaAt(g, s, loopFirst, first, nullable, meets))
    && (forall t :: t in owed <==> t in loopFirst && exists s ::
      s in pending && SiteOf(g, s) && MeetsAny(t, SuffixFirst(g, s, first, nullable), meets))
  }

  function SitesOf(g: Grammar): set<Site> {
    set i, k, j | 0 <= i < |g| && 0 <= k < |g[i].alts| && 0 <= j < |g[i].alts[k]| :: Site(i, k, j)
  }

  method MarkSite(g: Grammar, s: Site, carries: set<string>, loopFirst: set<string>, first: Sets, nullable: set<string>,
      meets: Meets, pending0: map<Site, nat>, owed0: set<string>, ghost sites: set<Site>)
    returns (pending: map<Site, nat>, owed: set<string>)
    requires SiteOf(g, s) && s !in sites && Marks(g, sites, carries, loopFirst, first, nullable, meets, pending0, owed0)
    ensures Marks(g, sites + {s}, carries, loopFirst, first, nullable, meets, pending, owed)
  {
    pending, owed := pending0, owed0;
    if Owing(g, s, carries, first, nullable) {
      var hits := set t | t in loopFirst && MeetsAny(t, SuffixFirst(g, s, first, nullable), meets);
      owed := owed + hits;
      pending := pending[s := if hits != {} then 1 else 0];
      HitsDelta(g, s, loopFirst, first, nullable, meets, hits);
      OwedMore(g, s, sites, carries, loopFirst, first, nullable, meets, pending0, owed0, pending, hits);
    }
  }

  lemma HitsDelta(g: Grammar, s: Site, loopFirst: set<string>, first: Sets, nullable: set<string>, meets: Meets,
      hits: set<string>)
    requires SiteOf(g, s) && hits == set t | t in loopFirst && MeetsAny(t, SuffixFirst(g, s, first, nullable), meets)
    ensures DeltaAt(g, s, loopFirst, first, nullable, meets) == if hits != {} then 1 else 0
  {
    if t :| t in loopFirst && MeetsAny(t, SuffixFirst(g, s, first, nullable), meets) {
      assert t in hits;
    }
  }

  lemma OwedMore(g: Grammar, s: Site, sites: set<Site>, carries: set<string>, loopFirst: set<string>, first: Sets,
      nullable: set<string>, meets: Meets,
                 pending0: map<Site, nat>, owed0: set<string>, pending: map<Site, nat>, hits: set<string>)
    requires SiteOf(g, s) && s !in sites && Marks(g, sites, carries, loopFirst, first, nullable, meets, pending0, owed0)
    requires pending.Keys == pending0.Keys + {s}
    requires hits == set t | t in loopFirst && MeetsAny(t, SuffixFirst(g, s, first, nullable), meets)
    ensures forall t :: t in owed0 + hits <==> t in loopFirst && exists x ::
      x in pending && SiteOf(g, x) && MeetsAny(t, SuffixFirst(g, x, first, nullable), meets)
  {
    forall t
      ensures t in owed0 + hits <==> t in loopFirst && exists x ::
        x in pending && SiteOf(g, x) && MeetsAny(t, SuffixFirst(g, x, first, nullable), meets)
    {
      if t in owed0 {
        var x :| x in pending0 && SiteOf(g, x) && MeetsAny(t, SuffixFirst(g, x, first, nullable), meets);
        assert x in pending.Keys;
      }
      assert s in pending.Keys;
    }
  }

  /** Every push of the grammar, in order. */
  method MarkAll(g: Grammar, carries: set<string>, loopFirst: set<string>, first: Sets, nullable: set<string>,
      meets: Meets)
    returns (pending: map<Site, nat>, owed: set<string>)
    ensures Marks(g, SitesOf(g), carries, loopFirst, first, nullable, meets, pending, owed)
  {
    pending, owed := map[], {};
    ghost var sites: set<Site> := {};
    for i := 0 to |g|
      invariant Marks(g, sites, carries, loopFirst, first, nullable, meets, pending, owed)
      invariant forall s :: s in sites <==> SiteOf(g, s) && s.rule < i
    {
      for k := 0 to |g[i].alts|
        invariant Marks(g, sites, carries, loopFirst, first, nullable, meets, pending, owed)
        invariant forall s :: s in sites <==> SiteOf(g, s) && (s.rule < i || (s.rule == i && s.alt < k))
      {
        pending, owed, sites := MarkAlt(g, i, k, carries, loopFirst, first, nullable, meets, pending, owed, sites);
      }
    }
    assert sites == SitesOf(g) by {
      forall s ensures s in sites <==> s in SitesOf(g) {
        assert s == Site(s.rule, s.alt, s.at);
      }
    }
  }

  method MarkAlt(g: Grammar, i: nat, k: nat, carries: set<string>, loopFirst: set<string>, first: Sets,
      nullable: set<string>, meets: Meets,
                 pending0: map<Site, nat>, owed0: set<string>, ghost sites0: set<Site>)
    returns (pending: map<Site, nat>, owed: set<string>, ghost sites: set<Site>)
    requires i < |g| && k < |g[i].alts| && Marks(g, sites0, carries, loopFirst, first, nullable, meets, pending0, owed0)
    requires forall j :: 0 <= j < |g[i].alts[k]| ==> Site(i, k, j) !in sites0
    ensures Marks(g, sites, carries, loopFirst, first, nullable, meets, pending, owed)
    ensures forall s :: s in sites <==> s in sites0 || (SiteOf(g, s) && s.rule == i && s.alt == k)
  {
    pending, owed, sites := pending0, owed0, sites0;
    for j := 0 to |g[i].alts[k]|
      invariant Marks(g, sites, carries, loopFirst, first, nullable, meets, pending, owed)
      invariant forall s :: s in sites <==> s in sites0 || (SiteOf(g, s) && s.rule == i && s.alt == k && s.at < j)
    {
      pending, owed := MarkSite(g, Site(i, k, j), carries, loopFirst, first, nullable, meets, pending, owed, sites);
      sites := sites + {Site(i, k, j)};
    }
  }

  // ---- one loop ----

  predicate Mentions(p: Production, name: string) {
    exists k :: 0 <= k < |p.alts| && Ref(name) in p.alts[k]
  }

  datatype Settled = Dropped | Guarded(pending: map<Site, nat>, owed: set<string>)

  method OwnerOf(g: Grammar, loopIdx: nat) returns (owner: Option<nat>)
    requires loopIdx < |g|
    ensures owner.Some? ==> owner.value < |g| && owner.value != loopIdx && Mentions(g[owner.value], g[loopIdx].name)
    ensures owner.None? ==> forall i :: 0 <= i < |g| && i != loopIdx ==> !Mentions(g[i], g[loopIdx].name)
  {
    for i := 0 to |g|
      invariant forall j :: 0 <= j < i && j != loopIdx ==> !Mentions(g[j], g[loopIdx].name)
    {
      if i != loopIdx && Mentions(g[i], g[loopIdx].name) {
        return Some(i);
      }
    }
    return None;
  }

  ghost predicate Carriers(g: Grammar, carries: set<string>, name: string) {
    forall n :: n in carries <==> Calls(g, n, name)
  }

  /** Settle one contested loop: its guard is dropped when nothing owes one of its
      tokens, and otherwise every push that can reach the recursive rule before a
      mandatory suffix is marked, and the owed tokens are recorded. */
  method SettleLoop(g: Grammar, loopIdx: nat, first: Sets, nullable: set<string>, meets: Meets)
    returns (r: Settled, owner: Option<nat>, ghost carries: set<string>)
    requires loopIdx < |g|
    ensures owner.Some? ==> owner.value < |g| && owner.value != loopIdx && Mentions(g[owner.value], g[loopIdx].name)
    ensures owner.None? ==> r.Dropped? && forall i :: 0 <= i < |g| && i != loopIdx ==> !Mentions(g[i], g[loopIdx].name)
    ensures owner.Some? ==> Carriers(g, carries, g[owner.value].name)
    ensures r.Guarded? ==> r.owed != {}
    ensures r.Guarded? ==>
      Marks(g, SitesOf(g), carries, FirstIn(first, g[loopIdx].name), first, nullable, meets, r.pending, r.owed)
    ensures r.Dropped? && owner.Some? ==> forall s :: SiteOf(g, s) && Owing(g, s, carries, first, nullable) ==>
      DeltaAt(g, s, FirstIn(first, g[loopIdx].name), first, nullable, meets) == 0
  {
    var loopFirst := FirstIn(first, g[loopIdx].name);
    carries := {};
    owner := OwnerOf(g, loopIdx);
    if owner.None? {
      return Dropped, owner, carries;
    }
    var reach := RefCallersOf(g, g[owner.value].name);
    carries := reach;
    if loopFirst == {} {
      return Dropped, owner, carries;
    }
    var pending, owed := MarkAll(g, reach, loopFirst, first, nullable, meets);
    if owed == {} {
      NothingOwed(g, carries, loopFirst, first, nullable, meets, pending, owed);
      return Dropped, owner, carries;
    }
    r := Guarded(pending, owed);
  }

  lemma NothingOwed(g: Grammar, carries: set<string>, loopFirst: set<string>, first: Sets, nullable: set<string>,
      meets: Meets,
                    pending: map<Site, nat>, owed: set<string>)
    requires Marks(g, SitesOf(g), carries, loopFirst, first, nullable, meets, pending, owed) && owed == {}
    ensures forall s :: SiteOf(g, s) && Owing(g, s, carries, first, nullable) ==>
      DeltaAt(g, s, loopFirst, first, nullable, meets) == 0
  {
    forall s | SiteOf(g, s) && Owing(g, s, carries, first, nullable)
      ensures DeltaAt(g, s, loopFirst, first, nullable, meets) == 0
    {
      assert s == Site(s.rule, s.alt, s.at) && s in SitesOf(g);
      assert s in pending;
      assert forall t :: t in loopFirst && MeetsAny(t, SuffixFirst(g, s, first, nullable), meets) ==> t in owed;
    }
  }

  // ---- what a mark means ----

  /** The suffix can begin with a token the lexer can take for one of the loop's. */
  ghost predicate Competes(g: Grammar, suffix: Sequence, loopFirst: set<string>, meets: Meets, t: string, u: string) {
    t in loopFirst && Begins(g, suffix, u) && (t == u || meets(t, u))
  }

  /** With exact FIRST sets a push is marked exactly when every way its suffix can go
      takes a token, and it adds one exactly when one of the tokens it can begin with
      meets a token of the loop. */
  lemma MarkMeans(g: Grammar, s: Site, carries: set<string>, loopFirst: set<string>, first: Sets, nullable: set<string>,
      meets: Meets)
    requires FlatGrammar(g) && FirstExact(g, first, nullable) && SiteOf(g, s)
    ensures var alt := g[s.rule].alts[s.alt];
      Owing(g, s, carries, first, nullable) <==>
        alt[s.at].Ref? && alt[s.at].name in carries && !Vanishes(g, alt[s.at + 1..])
    ensures DeltaAt(g, s, loopFirst, first, nullable, meets) == 1 <==>
      exists t, u :: Competes(g, SuffixAt(g, s), loopFirst, meets, t, u)
  {
    var suffix := SuffixAt(g, s);
    assert FlatAlts(g[s.rule].alts) && Flat(g[s.rule].alts[s.alt]) && Flat(suffix);
    if suffix == [] {
      ReachesRefl(g, suffix);
    }
    var f := SuffixFirst(g, s, first, nullable);
    assert forall u :: u in f <==> Begins(g, suffix, u);
    if t :| t in loopFirst && MeetsAny(t, f, meets) {
      var u :| u in f && (t == u || meets(t, u));
      assert Competes(g, suffix, loopFirst, meets, t, u);
    }
    if t, u :| Competes(g, suffix, loopFirst, meets, t, u) {
      assert u in f;
      assert MeetsAny(t, f, meets);
    }
  }

  /** Where competition is token identity, the mark is the one the machine runs on. */
  lemma MarkIsDelta(g: Grammar, s: Site, carries: set<string>, loopFirst: set<string>, first: Sets,
      nullable: set<string>, meets: Meets)
    requires SiteOf(g, s) && Owing(g, s, carries, first, nullable) && forall t, u :: !meets(t, u)
    ensures SuffixDebt.PushDelta(g[s.rule].alts[s.alt][s.at + 1..], loopFirst, first, nullable)
      == Some(DeltaAt(g, s, loopFirst, first, nullable, meets))
  {
    var f := SuffixFirst(g, s, first, nullable);
    if t :| t in loopFirst && MeetsAny(t, f, meets) {
      assert t in f * loopFirst;
    }
    if t :| t in f * loopFirst {
      assert t in loopFirst && MeetsAny(t, f, meets);
    }
  }
}
