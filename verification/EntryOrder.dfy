/** The two orders a rule's alternates are put in: the more specific class first, and a
    keyword out of the way of the classes that could take it. */
module EntryOrder {
  import opened Ir
  import opened Prefixes
  import opened Alternates
  import PrefixWalk
  import Ranges
  import Span

  // ---- the specificity ordering ----

  /** The character classes among the tokens, the literals, and the spans of the
      characters they can begin with, where those are known. */
  datatype Heads = Heads(literals: set<string>, classes: set<string>, ranges: map<string, seq<Ranges.Span>>,
    literalRanges: map<string, seq<Ranges.Span>>)

  function Descent(o: Alternate): Option<string> {
    if o.push.Some? then o.push else o.hand
  }

  /** The two go to the same rule, so their order is moot. */
  predicate SameDescent(a: Entry, b: Entry) {
    Descent(a.o).Some? && Descent(a.o) == Descent(b.o)
  }

  /** The spans of the class an entry begins with. */
  function ClassHead(e: Entry, hs: Heads): Option<seq<Ranges.Span>> {
    if e.alt.Some? && e.o.peek != [] && e.o.peek[0] in hs.classes && e.o.peek[0] in hs.ranges
    then Some(hs.ranges[e.o.peek[0]]) else None
  }

  predicate ClashesWith(es: seq<Entry>, hs: Heads, i: nat, j: nat) {
    && i < |es| && j < |es| && i != j && ClassHead(es[i], hs).Some? && ClassHead(es[j], hs).Some?
    && !SameDescent(es[i], es[j]) && Ranges.Sweep(ClassHead(es[i], hs).value, ClassHead(es[j], hs).value, 0, 0)
  }

  predicate Clashes(es: seq<Entry>, hs: Heads, i: nat) {
    exists j: nat :: j < |es| && ClashesWith(es, hs, i, j)
  }

  /** Places in increasing order. */
  predicate Climbing(idxs: seq<nat>) {
    forall a, b :: 0 <= a < b < |idxs| ==> idxs[a] < idxs[b]
  }

  ghost predicate SlotsOf(es: seq<Entry>, hs: Heads, slots: seq<nat>) {
    Climbing(slots) && forall i: nat :: i in slots <==> i < |es| && Clashes(es, hs, i)
  }

  method ClashingSlots(es: seq<Entry>, hs: Heads) returns (slots: seq<nat>)
    ensures SlotsOf(es, hs, slots)
  {
    slots := [];
    for i := 0 to |es|
      invariant Climbing(slots) && forall k: nat :: k in slots <==> k < i && Clashes(es, hs, k)
    {
      var found := false;
      for j := 0 to |es|
        invariant found <==> exists k: nat :: k < j && ClashesWith(es, hs, i, k)
      {
        ghost var before := found;
        if j != i && ClassHead(es[i], hs).Some? && ClassHead(es[j], hs).Some? && !SameDescent(es[i], es[j]) {
          var overlap := Ranges.CharRangesOverlap(ClassHead(es[i], hs).value, ClassHead(es[j], hs).value);
          found := found || overlap;
        }
        assert found <==> before || ClashesWith(es, hs, i, j);
      }
      if found {
        assert forall k :: 0 <= k < |slots| ==> slots[k] in slots;
        slots := slots + [i];
      }
    }
  }

  /** How much the alternative behind an entry can consume, past the lookahead counting
      as more than any. */
  function Reach(e: Entry, g: Grammar): nat {
    if e.alt.None? then 0
    else
      var span := Span.Clamp(Span.SeqSpan(e.alt.value, g, {}), Span.LOOKAHEAD);
      if span.Some? then span.value else 1_000_000_000
  }

  method Reaches(es: seq<Entry>, g: Grammar) returns (r: seq<nat>)
    ensures |r| == |es| && forall i :: 0 <= i < |es| ==> r[i] == Reach(es[i], g)
  {
    r := [];
    for k := 0 to |es|
      invariant |r| == k && forall i :: 0 <= i < k ==> r[i] == Reach(es[i], g)
    {
      var n := 0;
      if es[k].alt.Some? {
        var span := Span.SeqTokenSpan(es[k].alt.value, g);
        n := if span.Some? then span.value else 1_000_000_000;
      }
      r := r + [n];
    }
  }

  /** Longer lookahead first, then the longer alternative, then as they stood. */
  predicate Ahead(es: seq<Entry>, reach: seq<nat>, a: nat, b: nat)
    requires a < |es| == |reach| && b < |es|
  {
    || |es[a].o.peek| > |es[b].o.peek|
    || (|es[a].o.peek| == |es[b].o.peek| && reach[a] > reach[b])
    || (|es[a].o.peek| == |es[b].o.peek| && reach[a] == reach[b] && a < b)
  }

  ghost predicate Within(es: seq<Entry>, idxs: seq<nat>) {
    forall k :: 0 <= k < |idxs| ==> idxs[k] < |es|
  }

  ghost predicate InOrder(es: seq<Entry>, reach: seq<nat>, order: seq<nat>)
    requires |es| == |reach| && Within(es, order)
  {
    forall a, b :: 0 <= a < b < |order| ==> Ahead(es, reach, order[a], order[b])
  }

  method SortSlots(es: seq<Entry>, reach: seq<nat>, slots: seq<nat>) returns (order: seq<nat>)
    requires |es| == |reach| && Within(es, slots) && Climbing(slots)
    ensures multiset(order) == multiset(slots) && Within(es, order) && InOrder(es, reach, order)
  {
    order := [];
    for k := 0 to |slots|
      invariant multiset(order) == multiset(slots[..k]) && Within(es, order) && InOrder(es, reach, order)
    {
      var i := |order|;
      var x := slots[k];
      Earlier(order, slots, k);
      while i > 0 && !Ahead(es, reach, order[i - 1], x)
        invariant 0 <= i <= |order|
        invariant forall j :: i <= j < |order| ==> Ahead(es, reach, x, order[j])
      {
        i := i - 1;
      }
      InsertOrder(es, reach, order, i, x);
      assert slots[..k + 1] == slots[..k] + [x];
      order := order[..i] + [x] + order[i..];
    }
    assert slots[..|slots|] == slots;
  }

  lemma Earlier(order: seq<nat>, slots: seq<nat>, k: nat)
    requires k < |slots| && Climbing(slots) && multiset(order) == multiset(slots[..k])
    ensures forall j :: 0 <= j < |order| ==> order[j] < slots[k]
  {
    forall j | 0 <= j < |order| ensures order[j] < slots[k] {
      assert order[j] in multiset(order);
      assert order[j] in slots[..k];
    }
  }

  lemma InsertOrder(es: seq<Entry>, reach: seq<nat>, order: seq<nat>, i: nat, x: nat)
    requires |es| == |reach| && Within(es, order) && InOrder(es, reach, order) && i <= |order| && x < |es|
    requires forall j :: i <= j < |order| ==> Ahead(es, reach, x, order[j])
    requires i > 0 ==> Ahead(es, reach, order[i - 1], x)
    ensures var next := order[..i] + [x] + order[i..];
      Within(es, next) && InOrder(es, reach, next) && multiset(next) == multiset(order) + multiset{x}
  {
    InsertMultiset(order, i, x);
    forall a | 0 <= a < i ensures Ahead(es, reach, order[a], x) {
      assert a < i - 1 ==> Ahead(es, reach, order[a], order[i - 1]);
    }
    hide Ahead;
    var next := order[..i] + [x] + order[i..];
    forall a, b | 0 <= a < b < |next| ensures Ahead(es, reach, next[a], next[b]) {
      assert next[a] == if a < i then order[a] else if a == i then x else order[a - 1];
      assert next[b] == if b < i then order[b] else if b == i then x else order[b - 1];
    }
  }

  lemma InsertMultiset<T>(q: seq<T>, i: nat, x: T)
    requires i <= |q|
    ensures multiset(q[..i] + [x] + q[i..]) == multiset(q) + multiset{x}
  {
    assert q == q[..i] + q[i..];
  }

  // ---- moving entries among their slots ----

  function Pick(es: seq<Entry>, idxs: seq<nat>): (r: seq<Entry>)
    requires forall k :: 0 <= k < |idxs| ==> idxs[k] < |es|
    ensures |r| == |idxs| && forall k :: 0 <= k < |r| ==> r[k] == es[idxs[k]]
  {
    seq(|idxs|, k requires 0 <= k < |idxs| => es[idxs[k]])
  }

  lemma {:induction false} PickPermuted(es: seq<Entry>, p: seq<nat>, q: seq<nat>)
    requires Within(es, p) && Within(es, q) && multiset(p) == multiset(q)
    ensures multiset(Pick(es, p)) == multiset(Pick(es, q))
  {
    if p == [] {
      NonePermuted(p, q);
    } else {
      var j := HeadOfPermuted(p, q);
      PickPermuted(es, p[1..], Without(q, j));
      PickWithout(es, q, j);
      PickWithout(es, p, 0);
      assert Without(p, 0) == p[1..];
    }
  }

  lemma PickWithout(es: seq<Entry>, q: seq<nat>, j: nat)
    requires Within(es, q) && j < |q|
    ensures multiset(Pick(es, q)) == multiset(Pick(es, Without(q, j))) + multiset{es[q[j]]}
  {
    assert Without(Pick(es, q), j) == Pick(es, Without(q, j));
    WithoutMultiset(Pick(es, q), j);
  }

  /** The entries at `slots` replaced, in turn, by those at `order`. */
  ghost predicate Moved(es: seq<Entry>, slots: seq<nat>, order: seq<nat>, out: seq<Entry>) {
    && |out| == |es| && |slots| == |order| && Within(es, slots) && Within(es, order)
    && (forall k :: 0 <= k < |slots| ==> out[slots[k]] == es[order[k]])
    && (forall i: nat :: i < |es| && i !in slots ==> out[i] == es[i])
  }

  /** Slots that clash hold the clashing entries, the more specific first; every other
      entry stays where it is, and none is lost. */
  ghost predicate BySpecificity(es: seq<Entry>, hs: Heads, g: Grammar, out: seq<Entry>, slots: seq<nat>,
      order: seq<nat>, reach: seq<nat>)
  {
    && SlotsOf(es, hs, slots) && Moved(es, slots, order, out)
    && |reach| == |es| && (forall i :: 0 <= i < |es| ==> reach[i] == Reach(es[i], g))
    && multiset(order) == multiset(slots) && InOrder(es, reach, order)
  }

  /** Entries whose classes overlap are put among their own slots in order of
      specificity. */
  method SpecificityPermute(entries: array<Entry>, hs: Heads, g: Grammar)
    returns (ghost slots: seq<nat>, ghost order: seq<nat>, ghost reach: seq<nat>)
    modifies entries
    ensures BySpecificity(old(entries[..]), hs, g, entries[..], slots, order, reach)
    ensures multiset(entries[..]) == multiset(old(entries[..]))
  {
    var es := entries[..];
    var idxs := ClashingSlots(es, hs);
    slots := idxs;
    SlotsWithin(es, hs, slots);
    if |idxs| < 2 {
      var r := Reaches(es, g);
      order, reach := idxs, r;
      return;
    }
    var spans := Reaches(es, g);
    var sorted := SortSlots(es, spans, idxs);
    order, reach := sorted, spans;
    SameLength(sorted, idxs);
    var picked := Pick(es, sorted);
    assert Moving(es, idxs, sorted, 0, entries[..]);
    for k := 0 to |idxs|
      invariant Moving(es, idxs, sorted, k, entries[..])
    {
      hide Moving;
      MoveOne(es, idxs, sorted, k, entries[..]);
      entries[idxs[k]] := picked[k];
    }
    AllMoved(es, idxs, sorted, entries[..]);
  }

  /** The first `k` slots have been written. */
  ghost predicate Moving(es: seq<Entry>, slots: seq<nat>, order: seq<nat>, k: nat, now: seq<Entry>) {
    && k <= |slots| == |order| && Within(es, slots) && Within(es, order)
    && Moved(es, slots[..k], order[..k], now)
    && multiset(now) + multiset(Pick(es, slots[..k])) == multiset(es) + multiset(Pick(es, order[..k]))
  }

  lemma AllMoved(es: seq<Entry>, slots: seq<nat>, order: seq<nat>, now: seq<Entry>)
    requires Moving(es, slots, order, |slots|, now) && multiset(order) == multiset(slots)
    ensures Moved(es, slots, order, now) && multiset(now) == multiset(es)
  {
    assert slots[..|slots|] == slots && order[..|slots|] == order;
    PickPermuted(es, slots, order);
    var a, b, c := multiset(now), multiset(es), multiset(Pick(es, slots));
    forall y ensures a[y] == b[y] {
      assert (a + c)[y] == (b + c)[y];
    }
  }

  lemma SlotsWithin(es: seq<Entry>, hs: Heads, slots: seq<nat>)
    requires SlotsOf(es, hs, slots)
    ensures Within(es, slots)
  {
    forall k | 0 <= k < |slots| ensures slots[k] < |es| {
      assert slots[k] in slots;
    }
  }

  lemma MoveOne(es: seq<Entry>, slots: seq<nat>, order: seq<nat>, k: nat, now: seq<Entry>)
    requires Moving(es, slots, order, k, now) && Climbing(slots) && k < |slots|
    ensures Moving(es, slots, order, k + 1, now[slots[k] := es[order[k]]])
  {
    var next := now[slots[k] := es[order[k]]];
    assert slots[..k + 1] == slots[..k] + [slots[k]] && order[..k + 1] == order[..k] + [order[k]];
    assert slots[k] !in slots[..k];
    assert now[slots[k]] == es[slots[k]];
    PutMultiset(now, slots[k], es[order[k]]);
    assert Pick(es, slots[..k + 1]) == Pick(es, slots[..k]) + [es[slots[k]]];
    assert Pick(es, order[..k + 1]) == Pick(es, order[..k]) + [es[order[k]]];
    SplitMultiset(Pick(es, slots[..k]), [es[slots[k]]]);
    SplitMultiset(Pick(es, order[..k]), [es[order[k]]]);
    Swapped(multiset(now), multiset(next), multiset(Pick(es, slots[..k])), multiset(es), multiset(Pick(es, order[..k])),
      es[slots[k]], es[order[k]]);
  }

  lemma PutMultiset<T>(q: seq<T>, i: nat, x: T)
    requires i < |q|
    ensures multiset(q[i := x]) + multiset{q[i]} == multiset(q) + multiset{x}
  {
    assert Without(q[i := x], i) == Without(q, i);
    WithoutMultiset(q, i);
    WithoutMultiset(q[i := x], i);
  }

  lemma Swapped<T>(now: multiset<T>, next: multiset<T>, p: multiset<T>, es: multiset<T>, q: multiset<T>, x: T, y: T)
    requires now + p == es + q && next + multiset{x} == now + multiset{y}
    ensures next + (p + multiset{x}) == es + (q + multiset{y})
  {
    assert next + (p + multiset{x}) == (next + multiset{x}) + p;
    assert (now + multiset{y}) + p == (now + p) + multiset{y};
    assert (es + q) + multiset{y} == es + (q + multiset{y});
  }

  // ---- guards for a keyword that a class can take ----

  /** The token `u` can come second after `f`: on some path of the alternative, or after
      the rule where the alternative can end with `f`. */
  ghost predicate SecondOn(p: Path, f: string, follow: seq<string>, u: string) {
    && p.tokens != [] && p.tokens[0] == f
    && if |p.tokens| >= 2 then u == p.tokens[1] else u in follow
  }

  ghost predicate IsSecond(paths: seq<Path>, f: string, follow: seq<string>, u: string) {
    exists i :: 0 <= i < |paths| && SecondOn(paths[i], f, follow, u)
  }

  /** The alternative can end with `f`. */
  ghost predicate CanEnd(paths: seq<Path>, f: string) {
    exists i :: 0 <= i < |paths| && paths[i].tokens == [f]
  }

  /** What one path adds to the tokens that can come second. */
  function MoreSeconds(p: Path, f: string, follow: seq<string>): seq<string> {
    if p.tokens == [] || p.tokens[0] != f then []
    else if |p.tokens| >= 2 then [p.tokens[1]]
    else follow
  }

  /** In order, without repetition. */
  function Adding(us: seq<string>, more: seq<string>): seq<string>
    decreases |more|
  {
    if more == [] then us else Adding(if more[0] in us then us else us + [more[0]], more[1..])
  }

  function SecondsOf(paths: seq<Path>, f: string, follow: seq<string>): seq<string> {
    if paths == [] then []
    else Adding(SecondsOf(paths[..|paths| - 1], f, follow), MoreSeconds(paths[|paths| - 1], f, follow))
  }

  lemma {:induction false} AddingHas(us: seq<string>, more: seq<string>, u: string)
    ensures u in Adding(us, more) <==> u in us || u in more
    decreases |more|
  {
    if more != [] {
      AddingHas(if more[0] in us then us else us + [more[0]], more[1..], u);
      assert more == [more[0]] + more[1..];
    }
  }

  /** They are exactly the tokens that can come second. */
  lemma {:induction false} SecondsAre(paths: seq<Path>, f: string, follow: seq<string>, u: string)
    ensures u in SecondsOf(paths, f, follow) <==> IsSecond(paths, f, follow, u)
  {
    if paths != [] {
      var init := paths[..|paths| - 1];
      SecondsAre(init, f, follow, u);
      AddingHas(SecondsOf(init, f, follow), MoreSeconds(paths[|paths| - 1], f, follow), u);
      SecondsNext(paths, |paths| - 1, f, follow);
      assert paths[..|paths| - 1 + 1] == paths;
    }
  }

  method Seconds(paths: seq<Path>, f: string, follow: seq<string>) returns (known: bool, us: seq<string>)
    ensures !known <==> CanEnd(paths, f) && follow == []
    ensures known ==> us == SecondsOf(paths, f, follow)
  {
    known, us := true, [];
    for i := 0 to |paths|
      invariant known && (CanEnd(paths[..i], f) ==> follow != [])
      invariant us == SecondsOf(paths[..i], f, follow)
    {
      var p := paths[i].tokens;
      SecondsNext(paths, i, f, follow);
      assert paths[..i + 1][..i] == paths[..i];
      if p != [] && p[0] == f {
        if |p| >= 2 {
          us := Added(us, [p[1]]);
        } else if follow == [] {
          return false, us;
        } else {
          us := Added(us, follow);
        }
      }
    }
    assert paths[..|paths|] == paths;
  }

  lemma {:induction false} SecondsNext(paths: seq<Path>, i: nat, f: string, follow: seq<string>)
    requires i < |paths|
    ensures forall u :: IsSecond(paths[..i + 1], f, follow, u) <==>
      IsSecond(paths[..i], f, follow, u) || SecondOn(paths[i], f, follow, u)
    ensures CanEnd(paths[..i + 1], f) <==> CanEnd(paths[..i], f) || paths[i].tokens == [f]
    ensures paths[i].tokens == [f] ==> CanEnd(paths, f)
  {
    var upto := paths[..i + 1];
    assert upto[i] == paths[i] && forall j :: 0 <= j < i ==> upto[j] == paths[..i][j];
  }

  method Added(us: seq<string>, more: seq<string>) returns (r: seq<string>)
    ensures r == Adding(us, more)
  {
    r := us;
    assert more[0..] == more;
    for i := 0 to |more|
      invariant Adding(r, more[i..]) == Adding(us, more)
    {
      assert more[i..][1..] == more[i + 1..];
      if more[i] !in r {
        r := r + [more[i]];
      }
    }
  }

  /** A copy of an alternate that peeks `peek` and pushes `back` of it back. */
  function PeekCopy(o: Alternate, peek: seq<string>, back: nat): Alternate {
    o.(peek := peek, back := back)
  }

  const MAX_GUARDS: nat := 16

  /** The two-token guards for an entry that begins with the literal `f`: `f` with each
      token that can come second; none when that is not known, or they are too many. */
  ghost function GuardList(o: Alternate, alt: Sequence, f: string, consumed: nat, g: Grammar, follow: seq<string>):
      seq<Alternate>
    requires consumed <= 1
  {
    var paths := Prefixes.AltPaths(alt, g, 2, {}, None);
    var us := SecondsOf(paths, f, follow);
    if (CanEnd(paths, f) && follow == []) || |us| > MAX_GUARDS then []
    else seq(|us|, k requires 0 <= k < |us| => PeekCopy(o, [f, us[k]], 2 - consumed))
  }

  method SynthKeywordGuards(w: RuleWriter, o: Alternate, alt: Sequence, f: string, consumed: nat, g: Grammar,
      follow: seq<string>)
    returns (ok: bool, guards: seq<Alternate>)
    requires w.Valid() && consumed <= 1
    modifies w`pre, w.budget
    ensures w.Valid() && w.budget.held >= old(w.budget.held)
    ensures ok ==> w.budget.held == old(w.budget.held) && w.pre == old(w.pre) + OpenUnits(guards)
    ensures ok ==> guards == GuardList(o, alt, f, consumed, g, follow)
  {
    hide SecondsOf, CanEnd, OpenUnits;
    NoUnits();
    var base := w.budget.held;
    guards := [];
    var paths;
    ok, paths := PrefixWalk.AltPrefixesRaw(alt, g, 2, {}, None, w.budget);
    if !ok {
      return;
    }
    var known, us := Seconds(paths, f, follow);
    w.budget.Restore(base);
    if !known || us == [] || |us| > MAX_GUARDS {
      return;
    }
    for i := 0 to |us|
      invariant ok && w.Valid() && w.budget.held == base && w.pre == old(w.pre) + OpenUnits(guards)
      invariant |guards| == i && forall k :: 0 <= k < i ==> guards[k] == PeekCopy(o, [f, us[k]], 2 - consumed)
    {
      var guard := PeekCopy(o, [f, us[i]], 2 - consumed);
      ok := w.Made(guard);
      if !ok {
        return;
      }
      UnitsSnoc(guards, guard);
      guards := guards + [guard];
    }
  }

  /** Where there are guards they peek the literal and exactly the tokens that can come
      second, and go where the entry goes. */
  lemma {:induction false} GuardsAre(o: Alternate, alt: Sequence, f: string, consumed: nat, g: Grammar,
      follow: seq<string>)
    requires consumed <= 1 && GuardList(o, alt, f, consumed, g, follow) != []
    ensures var guards := GuardList(o, alt, f, consumed, g, follow);
      && |guards| <= MAX_GUARDS
      && (forall x :: x in guards ==> |x.peek| == 2 && x.peek[0] == f && Descent(x) == Descent(o))
      && forall u :: (exists x :: x in guards && x.peek == [f, u]) <==>
        IsSecond(Prefixes.AltPaths(alt, g, 2, {}, None), f, follow, u)
  {
    var paths := Prefixes.AltPaths(alt, g, 2, {}, None);
    var us := SecondsOf(paths, f, follow);
    var guards := GuardList(o, alt, f, consumed, g, follow);
    forall u ensures (exists x :: x in guards && x.peek == [f, u]) <==> IsSecond(paths, f, follow, u) {
      SecondsAre(paths, f, follow, u);
      if u in us {
        var k :| 0 <= k < |us| && us[k] == u;
        assert guards[k] in guards;
      }
      if exists x :: x in guards && x.peek == [f, u] {
        var x :| x in guards && x.peek == [f, u];
        var k :| 0 <= k < |guards| && guards[k] == x;
        assert x.peek[1] == us[k] && x.peek[1] == u;
      }
    }
  }

  lemma {:induction false} UnitsSnoc(os: seq<Alternate>, o: Alternate)
    ensures OpenUnits(os + [o]) == OpenUnits(os) + AltUnits(o)
  {
    OpenUnitsCat(os, [o]);
    assert [o][1..] == [];
  }

  // ---- the keyword-shadow ordering ----

  /** An alternate in its place: an entry, or a guard made from one. */
  datatype Placed = Placed(o: Alternate, rank: real, at: nat, from: nat, guard: bool)

  /** The spans of the literal an entry begins with. */
  function LiteralHead(e: Entry, hs: Heads): Option<seq<Ranges.Span>> {
    if e.o.peek != [] && e.o.peek[0] in hs.literals && e.o.peek[0] in hs.literalRanges
    then Some(hs.literalRanges[e.o.peek[0]]) else None
  }

  predicate IsClassEntry(e: Entry, hs: Heads) {
    e.o.peek != [] && e.o.peek[0] in hs.classes && e.o.peek[0] in hs.ranges
  }

  /** The class entry `c` can take the literal that entry `i` begins with, and goes
      elsewhere. */
  predicate Shadows(es: seq<Entry>, hs: Heads, i: nat, c: nat) {
    && i < |es| && c < |es| && es[i].alt.Some? && LiteralHead(es[i], hs).Some? && IsClassEntry(es[c], hs)
    && Ranges.Sweep(LiteralHead(es[i], hs).value, hs.ranges[es[c].o.peek[0]], 0, 0)
    && !SameDescent(es[i], es[c])
  }

  ghost predicate FirstLast(es: seq<Entry>, hs: Heads, i: nat, first: nat, last: nat) {
    Shadows(es, hs, i, first) && Shadows(es, hs, i, last)
      && forall c: nat {:trigger Shadows(es, hs, i, c)} :: Shadows(es, hs, i, c) ==> first <= c <= last
  }

  /** The first and the last class entry that shadow entry `i`. */
  method ShadowsOf(es: seq<Entry>, hs: Heads, i: nat) returns (some: bool, first: nat, last: nat)
    requires i < |es|
    ensures some ==> FirstLast(es, hs, i, first, last)
    ensures !some ==> forall c: nat :: !Shadows(es, hs, i, c)
  {
    some, first, last := false, 0, 0;
    var mine := LiteralHead(es[i], hs);
    if mine.None? || es[i].alt.None? {
      return;
    }
    for c := 0 to |es|
      invariant some ==> Shadows(es, hs, i, first) && Shadows(es, hs, i, last) && first <= last < c
      invariant forall k: nat {:trigger Shadows(es, hs, i, k)} :: k < c && Shadows(es, hs, i, k) ==>
        some && first <= k <= last
    {
      if IsClassEntry(es[c], hs) {
        var hit := Ranges.CharRangesOverlap(mine.value, hs.ranges[es[c].o.peek[0]]);
        if hit && !SameDescent(es[i], es[c]) {
          assert Shadows(es, hs, i, c);
          if !some {
            first := c;
          }
          some, last := true, c;
        }
      }
    }
  }

  function Least(a: real, b: real): real {
    if a < b then a else b
  }

  function Most(a: real, b: real): real {
    if a < b then b else a
  }

  /** What the order depends on besides the entries. */
  datatype Setting = Setting(hs: Heads, g: Grammar, follow: seq<string>)

  ghost predicate Shadowed(es: seq<Entry>, hs: Heads, i: nat) {
    exists c: nat :: Shadows(es, hs, i, c)
  }

  /** The guards of entry `i`: only for a literal that a class shadows and that is peeked
      alone. */
  ghost function GuardsFor(es: seq<Entry>, k: Setting, i: nat): seq<Alternate>
    requires i < |es|
  {
    var o := es[i].o;
    if Shadowed(es, k.hs, i) && |o.peek| == 1 && es[i].alt.Some? && o.back <= 1
    then GuardList(o, es[i].alt.value, o.peek[0], 1 - o.back, k.g, k.follow) else []
  }

  /** Where an entry or a guard stands: its own place when nothing shadows it; the guards,
      and an entry that looks further ahead, before the first class that does; an entry
      with guards behind the last. */
  ghost predicate WellPlaced(es: seq<Entry>, k: Setting, x: Placed) {
    && x.from < |es|
    && (!x.guard ==> x.o == es[x.from].o)
    && (x.guard ==> x.o in GuardsFor(es, k, x.from))
    && if !Shadowed(es, k.hs, x.from) then x.rank == x.from as real
       else exists first: nat, last: nat :: RankedBy(es, k, x, first, last)
  }

  ghost predicate RankedBy(es: seq<Entry>, k: Setting, x: Placed, first: nat, last: nat) {
    && FirstLast(es, k.hs, x.from, first, last) && x.from < |es|
    && x.rank == if x.guard || |es[x.from].o.peek| >= 2 then Least(x.from as real, first as real - 0.5)
                 else if GuardsFor(es, k, x.from) != [] then Most(x.from as real, last as real + 0.5)
                 else x.from as real
  }

  ghost predicate AllPlaced(es: seq<Entry>, k: Setting, ps: seq<Placed>) {
    forall i :: 0 <= i < |ps| ==> WellPlaced(es, k, ps[i])
  }

  function Bodies(ps: seq<Placed>): (r: seq<Alternate>)
    ensures |r| == |ps| && forall k :: 0 <= k < |r| ==> r[k] == ps[k].o
  {
    seq(|ps|, k requires 0 <= k < |ps| => ps[k].o)
  }

  /** The entries among what is placed, without the guards. */
  function Authored(ps: seq<Placed>): seq<Alternate> {
    if ps == [] then []
    else Authored(ps[..|ps| - 1]) + if ps[|ps| - 1].guard then [] else [ps[|ps| - 1].o]
  }

  lemma {:induction false} AuthoredCat(a: seq<Placed>, b: seq<Placed>)
    ensures Authored(a + b) == Authored(a) + Authored(b)
    decreases |b|
  {
    if b == [] {
      assert a + b == a;
    } else {
      var init := b[..|b| - 1];
      assert (a + b)[..|a + b| - 1] == a + init;
      AuthoredCat(a, init);
    }
  }

  /** The guards among what is placed. */
  function Guarding(ps: seq<Placed>): seq<Alternate> {
    if ps == [] then []
    else Guarding(ps[..|ps| - 1]) + if ps[|ps| - 1].guard then [ps[|ps| - 1].o] else []
  }

  lemma {:induction false} GuardingCat(a: seq<Placed>, b: seq<Placed>)
    ensures Guarding(a + b) == Guarding(a) + Guarding(b)
    decreases |b|
  {
    if b == [] {
      assert a + b == a;
    } else {
      var init := b[..|b| - 1];
      assert (a + b)[..|a + b| - 1] == a + init;
      GuardingCat(a, init);
    }
  }

  predicate Sooner(a: Placed, b: Placed) {
    a.rank < b.rank || (a.rank == b.rank && a.at < b.at)
  }

  predicate Ranked(ps: seq<Placed>) {
    forall a, b :: 0 <= a < b < |ps| ==> Sooner(ps[a], ps[b])
  }

  ghost predicate Numbered(ps: seq<Placed>) {
    forall k :: 0 <= k < |ps| ==> ps[k].at == k
  }

  method SortPlaced(ps: seq<Placed>) returns (out: seq<Placed>)
    requires Numbered(ps)
    ensures Ranked(out) && multiset(out) == multiset(ps)
  {
    out := [];
    for k := 0 to |ps|
      invariant Ranked(out) && multiset(out) == multiset(ps[..k])
    {
      var i := |out|;
      var x := ps[k];
      EarlierPlaced(out, ps, k);
      while i > 0 && !Sooner(out[i - 1], x)
        invariant 0 <= i <= |out| && forall j :: i <= j < |out| ==> Sooner(x, out[j])
      {
        i := i - 1;
      }
      InsertRanked(out, i, x);
      InsertMultiset(out, i, x);
      assert ps[..k + 1] == ps[..k] + [x];
      out := out[..i] + [x] + out[i..];
    }
    assert ps[..|ps|] == ps;
  }

  lemma {:induction false} EarlierPlaced(out: seq<Placed>, ps: seq<Placed>, k: nat)
    requires k < |ps| && Numbered(ps) && multiset(out) == multiset(ps[..k])
    ensures forall j :: 0 <= j < |out| ==> out[j].at < ps[k].at
  {
    forall j | 0 <= j < |out| ensures out[j].at < ps[k].at {
      assert out[j] in multiset(out);
      assert out[j] in ps[..k];
    }
  }

  lemma {:induction false} InsertRanked(out: seq<Placed>, i: nat, x: Placed)
    requires Ranked(out) && i <= |out| && (forall j :: i <= j < |out| ==> Sooner(x, out[j]))
    requires i > 0 ==> Sooner(out[i - 1], x)
    ensures Ranked(out[..i] + [x] + out[i..])
  {
    forall a | 0 <= a < i ensures Sooner(out[a], x) {
      assert a < i - 1 ==> Sooner(out[a], out[i - 1]);
    }
    hide Sooner;
    var next := out[..i] + [x] + out[i..];
    forall a, b | 0 <= a < b < |next| ensures Sooner(next[a], next[b]) {
      assert next[a] == if a < i then out[a] else if a == i then x else out[a - 1];
      assert next[b] == if b < i then out[b] else if b == i then x else out[b - 1];
    }
  }

  /** One entry's part of the order: itself, and its guards if it has any. */
  ghost predicate PartFor(es: seq<Entry>, k: Setting, i: nat, part: seq<Placed>) {
    && i < |es| && AllPlaced(es, k, part) && Authored(part) == [es[i].o] && Guarding(part) == GuardsFor(es, k, i)
    && (forall x :: x in part ==> x.from == i)
  }

  lemma {:induction false} NoUnits()
    ensures OpenUnits([]) == 0
  {
  }

  /** One entry placed, with the guards that are worth making for it. */
  method PlaceEntry(w: RuleWriter, es: seq<Entry>, i: nat, k: Setting, at: nat)
    returns (ok: bool, part: seq<Placed>)
    requires w.Valid() && i < |es|
    modifies w`pre, w.budget
    ensures w.Valid() && w.budget.held >= old(w.budget.held)
    ensures ok ==> w.budget.held == old(w.budget.held)
    ensures ok ==> PartFor(es, k, i, part) && forall j :: 0 <= j < |part| ==> part[j].at == at + j
    ensures ok ==> w.pre + AltUnits(es[i].o) == old(w.pre) + OpenUnits(Bodies(part))
  {
    hide PartFor, Authored, OpenUnits, GuardList, Guarding;
    var o := es[i].o;
    var some, first, last := ShadowsOf(es, k.hs, i);
    ok := true;
    if !some || |o.peek| >= 2 {
      var x := Placed(o, if some then Least(i as real, first as real - 0.5) else i as real, at, i, false);
      assert some ==> RankedBy(es, k, x, first, last);
      part := [x];
      OneIsPart(es, k, i, x);
      return;
    }
    var guards := [];
    if o.back <= 1 {
      ok, guards := SynthKeywordGuards(w, o, es[i].alt.value, o.peek[0], 1 - o.back, k.g, k.follow);
      if !ok {
        part := [];
        return;
      }
    } else {
      NoUnits();
    }
    assert guards == GuardsFor(es, k, i);
    var rank := if guards == [] then i as real else Most(i as real, last as real + 0.5);
    part := seq(|guards|, j requires 0 <= j < |guards| =>
      Placed(guards[j], Least(i as real, first as real - 0.5), at + j, i, true));
    var x := Placed(o, rank, at + |guards|, i, false);
    assert RankedBy(es, k, x, first, last);
    GuardsPart(es, k, i, guards, part, x, first, last);
    part := part + [x];
  }

  lemma {:induction false} OneIsPart(es: seq<Entry>, k: Setting, i: nat, x: Placed)
    requires i < |es| && WellPlaced(es, k, x) && x.from == i && !x.guard && GuardsFor(es, k, i) == []
    ensures PartFor(es, k, i, [x]) && OpenUnits(Bodies([x])) == AltUnits(es[i].o)
  {
    assert [x][..0] == [];
    assert Bodies([x]) == [x.o] && [x.o][1..] == [];
  }

  predicate IsGuardAt(x: Placed, i: nat, o: Alternate, rank: real) {
    x.guard && x.from == i && x.o == o && x.rank == rank
  }

  lemma {:induction false} GuardsPart(es: seq<Entry>, k: Setting, i: nat, guards: seq<Alternate>, part: seq<Placed>,
      x: Placed, first: nat, last: nat)
    requires i < |es| && FirstLast(es, k.hs, i, first, last) && |part| == |guards| && guards == GuardsFor(es, k, i)
    requires forall j :: 0 <= j < |part| ==> IsGuardAt(part[j], i, guards[j], Least(i as real, first as real - 0.5))
    requires WellPlaced(es, k, x) && x.from == i && !x.guard
    ensures PartFor(es, k, i, part + [x])
    ensures OpenUnits(Bodies(part + [x])) == OpenUnits(guards) + AltUnits(es[i].o)
  {
    assert x.o == es[i].o;
    hide WellPlaced, OpenUnits, GuardsFor, PartFor, AllPlaced;
    GuardsPlaced(es, k, i, guards, part, first, last);
    hide FirstLast;
    assert Bodies(part + [x]) == guards + [x.o];
    UnitsSnoc(guards, x.o);
    GuardsBefore(es, k, i, guards, part, x);
  }

  lemma {:induction false} GuardsBefore(es: seq<Entry>, k: Setting, i: nat, guards: seq<Alternate>, part: seq<Placed>,
      x: Placed)
    requires i < |es| && |part| == |guards| && guards == GuardsFor(es, k, i) && AllPlaced(es, k, part)
    requires forall j :: 0 <= j < |part| ==> part[j].guard && part[j].o == guards[j] && part[j].from == i
    requires WellPlaced(es, k, x) && x.from == i && !x.guard && x.o == es[i].o
    ensures PartFor(es, k, i, part + [x])
  {
    hide WellPlaced, GuardsFor;
    GuardsOnly(part, guards);
    AuthoredCat(part, [x]);
    GuardingCat(part, [x]);
    assert [x][..0] == [];
    assert forall y :: y in part + [x] ==> y in part || y == x;
  }

  lemma {:induction false} GuardsPlaced(es: seq<Entry>, k: Setting, i: nat, guards: seq<Alternate>, part: seq<Placed>,
      first: nat, last: nat)
    requires i < |es| && FirstLast(es, k.hs, i, first, last) && |part| == |guards| && guards == GuardsFor(es, k, i)
    requires forall j :: 0 <= j < |part| ==> IsGuardAt(part[j], i, guards[j], Least(i as real, first as real - 0.5))
    ensures AllPlaced(es, k, part)
  {
    assert Shadowed(es, k.hs, i);
    hide FirstLast, GuardsFor, Shadowed;
    forall j | 0 <= j < |part| ensures WellPlaced(es, k, part[j]) {
      assert guards[j] in guards;
      assert RankedBy(es, k, part[j], first, last);
    }
  }

  lemma {:induction false} GuardsOnly(ps: seq<Placed>, guards: seq<Alternate>)
    requires |ps| == |guards| && forall j :: 0 <= j < |ps| ==> ps[j].guard && ps[j].o == guards[j]
    ensures Authored(ps) == [] && Guarding(ps) == guards
  {
    if ps != [] {
      var n := |ps| - 1;
      GuardsOnly(ps[..n], guards[..n]);
      assert guards == guards[..n] + [guards[n]];
    }
  }

  ghost function GuardsUpTo(es: seq<Entry>, k: Setting, n: nat): seq<Alternate>
    requires n <= |es|
  {
    if n == 0 then [] else GuardsUpTo(es, k, n - 1) + GuardsFor(es, k, n - 1)
  }

  /** What the first `n` entries have been placed as. */
  ghost predicate Placing(es: seq<Entry>, k: Setting, n: nat, ps: seq<Placed>) {
    && n <= |es| && Numbered(ps) && AllPlaced(es, k, ps)
    && Authored(ps) == Opens(es[..n]) && Guarding(ps) == GuardsUpTo(es, k, n)
  }

  lemma {:induction false} PlaceNext(es: seq<Entry>, k: Setting, n: nat, ps: seq<Placed>, part: seq<Placed>)
    requires n < |es| && Placing(es, k, n, ps) && PartFor(es, k, n, part)
    requires forall j :: 0 <= j < |part| ==> part[j].at == |ps| + j
    ensures Placing(es, k, n + 1, ps + part)
    ensures OpenUnits(Bodies(ps + part)) == OpenUnits(Bodies(ps)) + OpenUnits(Bodies(part))
  {
    hide WellPlaced, Authored, Guarding, OpenUnits, GuardsFor;
    AuthoredCat(ps, part);
    GuardingCat(ps, part);
    assert Opens(es[..n + 1]) == Opens(es[..n]) + [es[n].o];
    assert Bodies(ps + part) == Bodies(ps) + Bodies(part);
    OpenUnitsCat(Bodies(ps), Bodies(part));
  }

  /** The order a rule's alternates end up in: by rank, each where it belongs, the entries
      all there and exactly their guards besides. */
  ghost predicate Reordered(es: seq<Entry>, k: Setting, placed: seq<Placed>, out: seq<Placed>) {
    Placing(es, k, |es|, placed) && Ranked(out) && multiset(out) == multiset(placed)
  }

  /** The entries placed one after the other, each guard charged as it is made. */
  method PlaceAll(w: RuleWriter, es: seq<Entry>, k: Setting) returns (ok: bool, ps: seq<Placed>)
    requires w.Valid()
    modifies w`pre, w.budget
    ensures w.Valid() && w.budget.held >= old(w.budget.held)
    ensures ok ==> w.budget.held == old(w.budget.held) && Placing(es, k, |es|, ps)
    ensures ok ==> w.pre + OpenUnits(Opens(es)) == old(w.pre) + OpenUnits(Bodies(ps))
  {
    ps, ok := [], true;
    for i := 0 to |es|
      invariant ok && w.Valid() && w.budget.held == old(w.budget.held)
      invariant Placing(es, k, i, ps)
      invariant w.pre + OpenUnits(Opens(es[..i])) == old(w.pre) + OpenUnits(Bodies(ps))
    {
      hide Placing, PartFor, OpenUnits, AllPlaced;
      var part;
      ok, part := PlaceEntry(w, es, i, k, |ps|);
      if !ok {
        return;
      }
      PlaceNext(es, k, i, ps, part);
      OpensNext(es, i);
      ps := ps + part;
    }
    assert es[..|es|] == es;
  }

  lemma {:induction false} OpensNext(es: seq<Entry>, i: nat)
    requires i < |es|
    ensures OpenUnits(Opens(es[..i + 1])) == OpenUnits(Opens(es[..i])) + AltUnits(es[i].o)
  {
    assert Opens(es[..i + 1]) == Opens(es[..i]) + [es[i].o];
    UnitsSnoc(Opens(es[..i]), es[i].o);
  }

  /** A literal entry that a class entry shadows gets its guards before the class, and
      itself goes behind it. */
  method ReorderKeywordShadow(w: RuleWriter, es: seq<Entry>, k: Setting)
    returns (ok: bool, out: seq<Placed>, ghost placed: seq<Placed>)
    requires w.Valid()
    modifies w`pre, w.budget
    ensures w.Valid() && w.budget.held >= old(w.budget.held)
    ensures ok ==> w.budget.held == old(w.budget.held) && Reordered(es, k, placed, out)
    ensures ok ==> w.pre + OpenUnits(Opens(es)) == old(w.pre) + OpenUnits(Bodies(out))
  {
    hide AllPlaced, OpenUnits, Authored, Guarding;
    var ps;
    ok, ps := PlaceAll(w, es, k);
    out, placed := ps, ps;
    if ok {
      out := SortPlaced(ps);
      BodiesPermuted(out, ps);
    }
  }

  lemma {:induction false} BodiesPermuted(a: seq<Placed>, b: seq<Placed>)
    requires multiset(a) == multiset(b)
    ensures OpenUnits(Bodies(a)) == OpenUnits(Bodies(b))
    ensures multiset(Authored(a)) == multiset(Authored(b)) && multiset(Guarding(a)) == multiset(Guarding(b))
  {
    if a == [] {
      NonePermuted(a, b);
    } else {
      var j := HeadOfPermuted(a, b);
      BodiesPermuted(a[1..], Without(b, j));
      BodiesWithout(b, j);
      BodiesWithout(a, 0);
      GuardingWithout(b, j);
      GuardingWithout(a, 0);
      assert Without(a, 0) == a[1..];
    }
  }

  lemma {:induction false} BodiesWithout(ps: seq<Placed>, j: nat)
    requires j < |ps|
    ensures OpenUnits(Bodies(ps)) == AltUnits(ps[j].o) + OpenUnits(Bodies(Without(ps, j)))
    ensures multiset(Authored(ps)) == multiset(Authored(Without(ps, j))) + multiset(Authored([ps[j]]))
  {
    assert Without(Bodies(ps), j) == Bodies(Without(ps, j));
    UnitsWithout(Bodies(ps), j);
    AuthoredWithout(ps, j);
  }

  lemma {:induction false} GuardingWithout(ps: seq<Placed>, j: nat)
    requires j < |ps|
    ensures multiset(Guarding(ps)) == multiset(Guarding(Without(ps, j))) + multiset(Guarding([ps[j]]))
  {
    var u, v := ps[..j], ps[j + 1..];
    assert ps == (u + [ps[j]]) + v;
    GuardingCat(u + [ps[j]], v);
    GuardingCat(u, [ps[j]]);
    GuardingCat(u, v);
    SplitMultiset(Guarding(u) + Guarding([ps[j]]), Guarding(v));
    SplitMultiset(Guarding(u), Guarding([ps[j]]));
    SplitMultiset(Guarding(u), Guarding(v));
  }

  lemma {:induction false} AuthoredWithout(ps: seq<Placed>, j: nat)
    requires j < |ps|
    ensures multiset(Authored(ps)) == multiset(Authored(Without(ps, j))) + multiset(Authored([ps[j]]))
  {
    var u, v := ps[..j], ps[j + 1..];
    assert ps == (u + [ps[j]]) + v;
    AuthoredCat(u + [ps[j]], v);
    AuthoredCat(u, [ps[j]]);
    AuthoredCat(u, v);
    SplitMultiset(Authored(u) + Authored([ps[j]]), Authored(v));
    SplitMultiset(Authored(u), Authored([ps[j]]));
    SplitMultiset(Authored(u), Authored(v));
  }

  // ---- what the order is for ----

  lemma {:induction false} PlacedAt(es: seq<Entry>, k: Setting, placed: seq<Placed>, out: seq<Placed>, a: nat)
    requires Reordered(es, k, placed, out) && a < |out|
    ensures out[a] in placed && WellPlaced(es, k, out[a])
  {
    assert out[a] in multiset(out);
    var i :| 0 <= i < |placed| && placed[i] == out[a];
  }

  lemma {:induction false} ClassNoLiteral(es: seq<Entry>, hs: Heads, i: nat)
    requires i < |es| && hs.literals !! hs.classes && IsClassEntry(es[i], hs)
    ensures !Shadowed(es, hs, i)
  {
  }

  /** A class entry keeps its own rank. */
  lemma {:induction false} ClassStays(es: seq<Entry>, k: Setting, x: Placed)
    requires WellPlaced(es, k, x) && k.hs.literals !! k.hs.classes && IsClassEntry(es[x.from], k.hs)
    ensures x.rank == x.from as real
  {
    ClassNoLiteral(es, k.hs, x.from);
  }

  lemma {:induction false} RankedPlaces(out: seq<Placed>, a: nat, b: nat)
    requires Ranked(out) && a < |out| && b < |out| && Sooner(out[a], out[b])
    ensures a < b
  {
  }

  /** A guard, and an entry that looks further ahead, stands before every class entry that
      could take its literal. */
  lemma {:induction false} GuardsFirst(es: seq<Entry>, k: Setting, placed: seq<Placed>, out: seq<Placed>, a: nat,
      b: nat)
    requires Reordered(es, k, placed, out) && k.hs.literals !! k.hs.classes && a < |out| && b < |out|
    requires Shadows(es, k.hs, out[a].from, out[b].from)
    requires out[a].guard || |es[out[a].from].o.peek| >= 2
    ensures a < b
  {
    PlacedAt(es, k, placed, out, a);
    PlacedAt(es, k, placed, out, b);
    ClassStays(es, k, out[b]);
    assert Shadowed(es, k.hs, out[a].from);
    var first: nat, last: nat :| RankedBy(es, k, out[a], first, last);
    RankedPlaces(out, a, b);
  }

  /** An entry that has guards stands behind every class entry that could take its
      literal, so that what it would take alone goes to the class. */
  lemma {:induction false} KeywordBehind(es: seq<Entry>, k: Setting, placed: seq<Placed>, out: seq<Placed>, b: nat,
      c: nat)
    requires Reordered(es, k, placed, out) && k.hs.literals !! k.hs.classes && b < |out| && c < |out|
    requires !out[b].guard && Shadows(es, k.hs, out[b].from, out[c].from) && GuardsFor(es, k, out[b].from) != []
    ensures c < b
  {
    PlacedAt(es, k, placed, out, b);
    PlacedAt(es, k, placed, out, c);
    ClassStays(es, k, out[c]);
    assert Shadowed(es, k.hs, out[b].from);
    var first: nat, last: nat :| RankedBy(es, k, out[b], first, last);
    RankedPlaces(out, c, b);
  }

  /** Entries that no class shadows keep their order. */
  lemma {:induction false} OthersKeepOrder(es: seq<Entry>, k: Setting, placed: seq<Placed>, out: seq<Placed>, a: nat,
      b: nat)
    requires Reordered(es, k, placed, out) && a < |out| && b < |out|
    requires !Shadowed(es, k.hs, out[a].from) && !Shadowed(es, k.hs, out[b].from) && out[a].from < out[b].from
    ensures a < b
  {
    PlacedAt(es, k, placed, out, a);
    PlacedAt(es, k, placed, out, b);
    RankedPlaces(out, a, b);
  }
}
