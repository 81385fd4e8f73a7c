/** The leading-reference graph of a grammar and the order Paull's algorithm takes
    the rules in: depth first, on an explicit stack of steps. */
module LeadingOrder {
  import opened Ir
  import opened Reachability

  ghost predicate SomeLeads(alts: seq<Sequence>, v: string) {
    exists k :: 0 <= k < |alts| && LeadsWith(alts[k], v)
  }

  /** The rules, of those in `names`, that some alternative begins with. */
  function Targets(alts: seq<Sequence>, names: set<string>): seq<string> {
    if alts == [] then []
    else if alts[0] != [] && alts[0][0].Ref? && alts[0][0].name in names
    then [alts[0][0].name] + Targets(alts[1..], names)
    else Targets(alts[1..], names)
  }

  lemma {:induction false} TargetsLead(alts: seq<Sequence>, names: set<string>, v: string)
    ensures v in Targets(alts, names) <==> v in names && SomeLeads(alts, v)
  {
    if alts != [] {
      TargetsLead(alts[1..], names, v);
      if SomeLeads(alts, v) {
        var k :| 0 <= k < |alts| && LeadsWith(alts[k], v);
        if k > 0 {
          assert LeadsWith(alts[1..][k - 1], v);
        }
      }
      if SomeLeads(alts[1..], v) {
        var k :| 0 <= k < |alts[1..]| && LeadsWith(alts[1..][k], v);
        assert LeadsWith(alts[k + 1], v);
      }
    }
  }

  lemma {:induction false} TargetsNamed(alts: seq<Sequence>, names: set<string>)
    ensures forall v :: v in Targets(alts, names) ==> v in names
  {
    forall v | v in Targets(alts, names) ensures v in names {
      TargetsLead(alts, names, v);
    }
  }

  function RuleMap(prods: Grammar): (r: map<string, Production>)
    ensures r.Keys == NameSet(prods)
    ensures forall n :: n in r ==> r[n].name == n && r[n] in prods
  {
    if prods == [] then map[]
    else
      var n := |prods| - 1;
      assert NameSet(prods) == NameSet(prods[..n]) + {prods[n].name} by {
        assert forall i :: 0 <= i < n ==> prods[..n][i] == prods[i];
      }
      RuleMap(prods[..n])[prods[n].name := prods[n]]
  }

  lemma {:induction false} RuleMapAt(prods: Grammar, i: nat)
    requires i < |prods| && DistinctNames(prods)
    ensures RuleMap(prods)[prods[i].name] == prods[i]
  {
    var n := |prods| - 1;
    if i < n {
      assert prods[..n][i] == prods[i];
      RuleMapAt(prods[..n], i);
    }
  }

  function LeadingGraph(prods: Grammar): (g: Graph)
    ensures g.Keys == NameSet(prods)
  {
    var rules := RuleMap(prods);
    map n | n in rules :: Targets(rules[n].alts, rules.Keys)
  }

  lemma LeadingTotal(prods: Grammar)
    ensures Total(LeadingGraph(prods))
  {
    var rules := RuleMap(prods);
    forall u, v | Edge(LeadingGraph(prods), u, v) ensures v in LeadingGraph(prods) {
      TargetsNamed(rules[u].alts, rules.Keys);
    }
  }

  /** With distinct names the edges are the leading references, literally. */
  lemma LeadingEdge(prods: Grammar, i: nat, v: string)
    requires i < |prods| && DistinctNames(prods)
    ensures Edge(LeadingGraph(prods), prods[i].name, v)
      <==> v in NameSet(prods) && SomeLeads(prods[i].alts, v)
  {
    RuleMapAt(prods, i);
    TargetsLead(prods[i].alts, NameSet(prods), v);
  }

  datatype Step = Enter(name: string) | Exit(name: string)

  /** `u` stands before position `at` of the order. */
  ghost predicate Placed(order: seq<string>, at: int, u: string) {
    exists j :: 0 <= j < at && j < |order| && order[j] == u
  }

  /** Every rule a placed rule leads to stands before it or leads back to it. */
  ghost predicate Settled(g: Graph, order: seq<string>) {
    forall i, v {:trigger Edge(g, order[i], v)} ::
      0 <= i < |order| && Edge(g, order[i], v) ==> Placed(order, i, v) || Reach(g, v, order[i])
  }

  ghost predicate EnterAbove(steps: seq<Step>, j: int, v: string) {
    exists k :: 0 <= j < k < |steps| && steps[k] == Enter(v)
  }

  ghost predicate Colours(g: Graph, colour: map<string, nat>, order: seq<string>, steps: seq<Step>) {
    && (forall v :: v in colour ==> v in g && (colour[v] == 1 || colour[v] == 2))
    && (forall v :: v in colour && colour[v] == 2 <==> v in order)
    && (forall i, j :: 0 <= i < j < |order| ==> order[i] != order[j])
    && (forall j :: 0 <= j < |steps| ==> steps[j].name in g)
    && (forall j :: 0 <= j < |steps| && steps[j].Exit? ==> steps[j].name in colour && colour[steps[j].name] == 1)
    && (forall v :: v in colour && colour[v] == 1 ==> Exit(v) in steps)
    && (forall i, j :: 0 <= i < j < |steps| && steps[i].Exit? && steps[j].Exit? ==> steps[i].name != steps[j].name)
  }

  /** A rule whose exit is still to come reaches every rule above it, and each of its
      edges ends at a coloured rule or one that will be entered before that exit. */
  ghost predicate Pending(g: Graph, colour: map<string, nat>, steps: seq<Step>) {
    && (forall j, k {:trigger steps[j], Reach(g, steps[j].name, steps[k].name)} ::
         0 <= j < k < |steps| && steps[j].Exit? ==> Reach(g, steps[j].name, steps[k].name))
    && (forall j, v {:trigger EnterAbove(steps, j, v)} ::
         0 <= j < |steps| && steps[j].Exit? && Edge(g, steps[j].name, v) && v !in colour ==> EnterAbove(steps, j, v))
  }

  function Entered(targets: seq<string>): (r: seq<Step>)
    ensures |r| == |targets|
    ensures forall i :: 0 <= i < |r| ==> r[i] == Enter(targets[|targets| - 1 - i])
  {
    seq(|targets|, i requires 0 <= i < |targets| => Enter(targets[|targets| - 1 - i]))
  }

  lemma EnterOrder(g: Graph, colour: map<string, nat>, order: seq<string>, steps: seq<Step>, n: string)
    requires steps != [] && steps[|steps| - 1] == Enter(n) && n in g && n !in colour && Total(g)
    requires Colours(g, colour, order, steps)
    ensures Colours(g, colour[n := 1], order, steps[..|steps| - 1] + [Exit(n)] + Entered(g[n]))
  {
    var below := steps[..|steps| - 1];
    var next := below + [Exit(n)] + Entered(g[n]);
    var c := colour[n := 1];
    assert forall j :: |below| < j < |next| ==> next[j].Enter? && next[j].name in g[n];
    forall j | 0 <= j < |next| ensures next[j].name in g {
      if j > |below| { assert Edge(g, n, next[j].name); }
    }
    forall v | v in c && c[v] == 1 ensures Exit(v) in next {
      if v != n {
        var j :| 0 <= j < |steps| && steps[j] == Exit(v);
        assert next[j] == Exit(v);
      } else {
        assert next[|below|] == Exit(n);
      }
    }
  }

  lemma EnterPending(g: Graph, colour: map<string, nat>, steps: seq<Step>, n: string)
    requires steps != [] && steps[|steps| - 1] == Enter(n) && n in g && n !in colour
    requires Pending(g, colour, steps)
    ensures Pending(g, colour[n := 1], steps[..|steps| - 1] + [Exit(n)] + Entered(g[n]))
  {
    var top := |steps| - 1;
    var next := steps[..top] + [Exit(n)] + Entered(g[n]);
    assert forall j :: 0 <= j < top ==> next[j] == steps[j];
    assert next[top] == Exit(n);
    forall j, k | 0 <= j < k < |next| && next[j].Exit? ensures Reach(g, next[j].name, next[k].name) {
      assert j <= top;
      if k < top {
        assert Reach(g, steps[j].name, steps[k].name);
      } else {
        ReachRefl(g, n);
        assert j < top ==> Reach(g, steps[j].name, steps[top].name);
        if k > top {
          ReachEdge(g, n, next[k].name);
          ReachTrans(g, next[j].name, n, next[k].name);
        }
      }
    }
    forall j, v | 0 <= j < |next| && next[j].Exit? && Edge(g, next[j].name, v) && v !in colour[n := 1]
      ensures EnterAbove(next, j, v)
    {
      if j < top {
        assert EnterAbove(steps, j, v);
        var k :| j < k < |steps| && steps[k] == Enter(v);
        assert next[k] == Enter(v);
      } else {
        var i :| 0 <= i < |g[n]| && g[n][i] == v;
        assert next[top + 1 + (|g[n]| - 1 - i)] == Enter(v);
      }
    }
  }

  lemma SkipKeeps(g: Graph, colour: map<string, nat>, order: seq<string>, steps: seq<Step>)
    requires steps != [] && steps[|steps| - 1].Enter? && steps[|steps| - 1].name in colour
    requires Colours(g, colour, order, steps) && Pending(g, colour, steps)
    ensures Colours(g, colour, order, steps[..|steps| - 1]) && Pending(g, colour, steps[..|steps| - 1])
  {
    SkipColours(g, colour, order, steps);
    SkipPending(g, colour, steps);
  }

  lemma SkipColours(g: Graph, colour: map<string, nat>, order: seq<string>, steps: seq<Step>)
    requires steps != [] && steps[|steps| - 1].Enter? && Colours(g, colour, order, steps)
    ensures Colours(g, colour, order, steps[..|steps| - 1])
  {
    var next := steps[..|steps| - 1];
    forall v | v in colour && colour[v] == 1 ensures Exit(v) in next {
      var j :| 0 <= j < |steps| && steps[j] == Exit(v);
      assert next[j] == Exit(v);
    }
  }

  lemma SkipPending(g: Graph, colour: map<string, nat>, steps: seq<Step>)
    requires steps != [] && steps[|steps| - 1].Enter? && steps[|steps| - 1].name in colour
    requires Pending(g, colour, steps)
    ensures Pending(g, colour, steps[..|steps| - 1])
  {
    var next := steps[..|steps| - 1];
    forall j, k | 0 <= j < k < |next| && next[j].Exit? ensures Reach(g, next[j].name, next[k].name) {
      assert Reach(g, steps[j].name, steps[k].name);
    }
    forall j, v | 0 <= j < |next| && next[j].Exit? && Edge(g, next[j].name, v) && v !in colour
      ensures EnterAbove(next, j, v)
    {
      assert EnterAbove(steps, j, v);
      var k :| j < k < |steps| && steps[k] == Enter(v);
      assert next[k] == Enter(v);
    }
  }

  lemma ExitColours(g: Graph, colour: map<string, nat>, order: seq<string>, steps: seq<Step>, n: string)
    requires steps != [] && steps[|steps| - 1] == Exit(n) && Colours(g, colour, order, steps)
    ensures Colours(g, colour[n := 2], order + [n], steps[..|steps| - 1])
  {
    var next := steps[..|steps| - 1];
    forall v | v in colour[n := 2] && colour[n := 2][v] == 1 ensures Exit(v) in next {
      var j :| 0 <= j < |steps| && steps[j] == Exit(v);
      assert next[j] == Exit(v);
    }
  }

  lemma ExitPending(g: Graph, colour: map<string, nat>, steps: seq<Step>, n: string)
    requires steps != [] && steps[|steps| - 1] == Exit(n) && Pending(g, colour, steps)
    ensures Pending(g, colour[n := 2], steps[..|steps| - 1])
  {
    var next := steps[..|steps| - 1];
    forall j, k | 0 <= j < k < |next| && next[j].Exit? ensures Reach(g, next[j].name, next[k].name) {
      assert Reach(g, steps[j].name, steps[k].name);
    }
    forall j, v | 0 <= j < |next| && next[j].Exit? && Edge(g, next[j].name, v) && v !in colour[n := 2]
      ensures EnterAbove(next, j, v)
    {
      assert EnterAbove(steps, j, v);
      var k :| j < k < |steps| && steps[k] == Enter(v);
      assert next[k] == Enter(v);
    }
  }

  lemma ExitSettled(g: Graph, colour: map<string, nat>, order: seq<string>, steps: seq<Step>, n: string)
    requires steps != [] && steps[|steps| - 1] == Exit(n)
    requires Colours(g, colour, order, steps) && Pending(g, colour, steps) && Settled(g, order)
    ensures Settled(g, order + [n])
  {
    var next, top := order + [n], |steps| - 1;
    forall i, v | 0 <= i < |next| && Edge(g, next[i], v) ensures Placed(next, i, v) || Reach(g, v, next[i]) {
      if i < |order| {
        assert Edge(g, order[i], v);
        if Placed(order, i, v) {
          var j :| 0 <= j < i && order[j] == v;
          assert next[j] == v;
        }
      } else {
        assert v in colour by {
          assert v !in colour ==> EnterAbove(steps, top, v);
        }
        if colour[v] == 2 {
          var j :| 0 <= j < |order| && order[j] == v;
          assert next[j] == v;
        } else {
          var j :| 0 <= j < |steps| && steps[j] == Exit(v);
          ReachRefl(g, n);
          assert j < top ==> Reach(g, steps[j].name, steps[top].name);
        }
      }
    }
  }

  ghost predicate Searching(g: Graph, colour: map<string, nat>, order: seq<string>, steps: seq<Step>) {
    Total(g) && Colours(g, colour, order, steps) && Pending(g, colour, steps) && Settled(g, order)
  }

  lemma ExitKeeps(g: Graph, colour: map<string, nat>, order: seq<string>, steps: seq<Step>, n: string)
    requires Searching(g, colour, order, steps) && steps != [] && steps[|steps| - 1] == Exit(n)
    ensures Searching(g, colour[n := 2], order + [n], steps[..|steps| - 1]) && n in colour
  {
    ExitColours(g, colour, order, steps, n);
    ExitPending(g, colour, steps, n);
    ExitSettled(g, colour, order, steps, n);
  }

  lemma EnterKeeps(g: Graph, colour: map<string, nat>, order: seq<string>, steps: seq<Step>, n: string,
                   colour': map<string, nat>, steps': seq<Step>)
    requires Searching(g, colour, order, steps) && steps != [] && steps[|steps| - 1] == Enter(n)
    requires n !in colour && n in g && colour' == colour[n := 1]
    requires steps' == steps[..|steps| - 1] + [Exit(n)] + Entered(g[n])
    ensures Searching(g, colour', order, steps')
    ensures colour'.Keys == colour.Keys + {n} && |g.Keys - colour'.Keys| < |g.Keys - colour.Keys|
  {
    hide Colours, Pending, Settled;
    EnterOrder(g, colour, order, steps, n);
    EnterPending(g, colour, steps, n);
    Shrinks(g.Keys, colour.Keys, n);
    assert colour'.Keys == colour.Keys + {n};
  }

  lemma Begins(g: Graph, colour: map<string, nat>, order: seq<string>, root: string)
    requires Searching(g, colour, order, []) && root in g
    ensures Searching(g, colour, order, [Enter(root)])
  {
    assert forall v :: v in colour && colour[v] == 1 ==> Exit(v) in [];
  }

  method EnterRule(g: Graph, colour: map<string, nat>, ghost order: seq<string>, steps: seq<Step>)
    returns (colour': map<string, nat>, steps': seq<Step>)
    requires Searching(g, colour, order, steps) && steps != []
    requires steps[|steps| - 1].Enter? && steps[|steps| - 1].name !in colour
    ensures Searching(g, colour', order, steps')
    ensures colour'.Keys == colour.Keys + {steps[|steps| - 1].name}
    ensures |g.Keys - colour'.Keys| < |g.Keys - colour.Keys|
  {
    var n := steps[|steps| - 1].name;
    assert steps[|steps| - 1].name in g;
    colour' := colour[n := 1];
    steps' := steps[..|steps| - 1] + [Exit(n)] + Entered(g[n]);
    EnterKeeps(g, colour, order, steps, n, colour', steps');
  }

  method ExitRule(g: Graph, colour: map<string, nat>, order: seq<string>, steps: seq<Step>)
    returns (colour': map<string, nat>, order': seq<string>, steps': seq<Step>)
    requires Searching(g, colour, order, steps) && steps != [] && steps[|steps| - 1].Exit?
    ensures Searching(g, colour', order', steps')
    ensures colour'.Keys == colour.Keys && |steps'| < |steps|
    ensures steps[|steps| - 1].name in colour
  {
    var n := steps[|steps| - 1].name;
    ExitKeeps(g, colour, order, steps, n);
    colour', order', steps' := colour[n := 2], order + [n], steps[..|steps| - 1];
  }

  method Visit(g: Graph, root: string, colour0: map<string, nat>, order0: seq<string>)
    returns (colour: map<string, nat>, order: seq<string>)
    requires Searching(g, colour0, order0, []) && root in g && root !in colour0
    ensures Searching(g, colour, order, [])
    ensures colour0.Keys + {root} <= colour.Keys
  {
    colour, order := colour0, order0;
    var steps := [Enter(root)];
    Begins(g, colour0, order0, root);
    while steps != []
      invariant Searching(g, colour, order, steps)
      invariant colour0.Keys <= colour.Keys
      invariant root in colour || steps == [Enter(root)]
      decreases |g.Keys - colour.Keys|, |steps|
    {
      var top := steps[|steps| - 1];
      if top.Exit? {
        colour, order, steps := ExitRule(g, colour, order, steps);
      } else if top.name in colour {
        SkipKeeps(g, colour, order, steps);
        steps := steps[..|steps| - 1];
      } else {
        colour, steps := EnterRule(g, colour, order, steps);
      }
    }
  }

  lemma Shrinks(all: set<string>, done: set<string>, n: string)
    requires n in all && n !in done
    ensures |all - (done + {n})| < |all - done|
  {
    assert all - done == (all - (done + {n})) + {n};
  }

  method OrderNames(g: Graph, names: seq<string>) returns (order: seq<string>)
    requires Total(g) && (forall i :: 0 <= i < |names| ==> names[i] in g) && (forall n :: n in g ==> n in names)
    ensures Settled(g, order)
    ensures forall i, j :: 0 <= i < j < |order| ==> order[i] != order[j]
    ensures forall n :: n in order <==> n in g
  {
    var colour: map<string, nat> := map[];
    order := [];
    for i := 0 to |names|
      invariant Searching(g, colour, order, [])
      invariant forall j :: 0 <= j < i ==> names[j] in colour
    {
      if names[i] !in colour {
        colour, order := Visit(g, names[i], colour, order);
      }
    }
    AllPlaced(g, colour, order);
  }

  lemma AllPlaced(g: Graph, colour: map<string, nat>, order: seq<string>)
    requires Colours(g, colour, order, []) && forall n :: n in g ==> n in colour
    ensures forall n :: n in order <==> n in g
  {
    forall n | n in g ensures n in order {
      assert colour[n] == 1 ==> Exit(n) in [];
    }
  }

  /** A permutation of the rules in which a rule stands after every rule it leads
      to, those that lead back to it apart. */
  method TopoOrder(prods: Grammar) returns (r: Grammar)
    requires DistinctNames(prods)
    ensures DistinctNames(r) && (forall p :: p in r <==> p in prods)
    ensures |r| == |prods|
    ensures Settled(LeadingGraph(prods), NamesOf(r))
  {
    LeadingTotal(prods);
    var order := OrderNames(LeadingGraph(prods), NamesOf(prods));
    var rules := RuleMap(prods);
    r := seq(|order|, i requires 0 <= i < |order| => assert order[i] in order; rules[order[i]]);
    OrderedRules(prods, order, r);
  }

  lemma OrderedRules(prods: Grammar, order: seq<string>, r: Grammar)
    requires DistinctNames(prods) && forall n :: n in order <==> n in NameSet(prods)
    requires forall i, j :: 0 <= i < j < |order| ==> order[i] != order[j]
    requires |r| == |order| && forall i :: 0 <= i < |r| ==> order[i] in order && r[i] == RuleMap(prods)[order[i]]
    ensures DistinctNames(r) && (forall p :: p in r <==> p in prods) && |r| == |prods| && NamesOf(r) == order
  {
    hide RuleMap;
    OrderedLength(prods, order);
    OrderedSame(prods, order, r);
    OrderedNames(prods, order, r);
  }

  lemma OrderedNames(prods: Grammar, order: seq<string>, r: Grammar)
    requires DistinctNames(prods) && forall i, j :: 0 <= i < j < |order| ==> order[i] != order[j]
    requires |r| == |order| && forall n :: n in order ==> n in NameSet(prods)
    requires forall i :: 0 <= i < |r| ==> order[i] in order && r[i] == RuleMap(prods)[order[i]]
    ensures forall i :: 0 <= i < |r| ==> r[i].name == order[i]
    ensures DistinctNames(r) && NamesOf(r) == order
  {
    forall i | 0 <= i < |r| ensures r[i].name == order[i] {
      assert order[i] in order;
    }
    assert NamesOf(r) == order;
  }

  lemma OrderedSame(prods: Grammar, order: seq<string>, r: Grammar)
    requires DistinctNames(prods) && forall n :: n in order <==> n in NameSet(prods)
    requires |r| == |order| && forall i :: 0 <= i < |r| ==> order[i] in order && r[i] == RuleMap(prods)[order[i]]
    ensures forall p :: p in r <==> p in prods
  {
    forall p ensures p in r <==> p in prods {
      if p in prods {
        OrderedHas(prods, order, r, p);
      }
      if p in r {
        var i :| 0 <= i < |r| && r[i] == p;
        assert order[i] in order;
      }
    }
  }

  lemma OrderedLength(prods: Grammar, order: seq<string>)
    requires DistinctNames(prods) && forall n :: n in order <==> n in NameSet(prods)
    requires forall i, j :: 0 <= i < j < |order| ==> order[i] != order[j]
    ensures |order| == |prods|
  {
    forall n ensures n in order <==> n in NamesOf(prods) {
      if n in NamesOf(prods) {
        var i :| 0 <= i < |prods| && NamesOf(prods)[i] == n;
        assert prods[i].name in NameSet(prods);
      }
    }
    SameLength(order, NamesOf(prods));
  }

  lemma OrderedHas(prods: Grammar, order: seq<string>, r: Grammar, p: Production)
    requires DistinctNames(prods) && forall n :: n in order <==> n in NameSet(prods)
    requires |r| == |order| && forall i :: 0 <= i < |r| ==> order[i] in order && r[i] == RuleMap(prods)[order[i]]
    requires p in prods
    ensures p in r
  {
    var i :| 0 <= i < |prods| && prods[i] == p;
    RuleMapAt(prods, i);
    assert p.name in order;
    var j :| 0 <= j < |order| && order[j] == p.name;
    assert r[j] == p;
  }

  lemma SameLength(a: seq<string>, b: seq<string>)
    requires forall i, j :: 0 <= i < j < |a| ==> a[i] != a[j]
    requires forall i, j :: 0 <= i < j < |b| ==> b[i] != b[j]
    requires forall n :: n in a <==> n in b
    ensures |a| == |b|
  {
    DistinctSize(a);
    DistinctSize(b);
    assert (set n | n in a) == (set n | n in b);
  }

  lemma {:induction false} DistinctSize(a: seq<string>)
    requires forall i, j :: 0 <= i < j < |a| ==> a[i] != a[j]
    ensures |set n | n in a| == |a|
  {
    if a != [] {
      var rest := a[..|a| - 1];
      DistinctSize(rest);
      assert (set n | n in a) == (set n | n in rest) + {a[|a| - 1]};
    }
  }
}
