/** Left factoring: the worklist over the rules, each factored until no run of its
    alternatives shares a prefix the lookahead cannot see past. */
module Factor {
  import opened Ir
  import opened Languages
  import opened Sizes
  import opened FactorSteps
  import opened FreshNames
  import opened Capture
  import Span

  // ---- measures ----

  function NonEmptyCount(alts: seq<Sequence>): nat {
    if alts == [] then 0 else (if alts[0] == [] then 0 else 1) + NonEmptyCount(alts[1..])
  }

  /** The size of the first alternative that is not empty. */
  function FirstSize(alts: seq<Sequence>): nat {
    if alts == [] then 0 else if alts[0] != [] then SeqSize(alts[0]) else FirstSize(alts[1..])
  }

  function Max(a: nat, b: nat): nat { if a < b then b else a }

  function MaxSize(alts: seq<Sequence>): nat {
    if alts == [] then 0 else Max(SeqSize(alts[0]), MaxSize(alts[1..]))
  }

  function BodyMax(g: Grammar): nat {
    if g == [] then 0 else Max(MaxSize(g[0].alts), BodyMax(g[1..]))
  }

  lemma {:induction false} MaxSizeAt(alts: seq<Sequence>, k: nat)
    requires k < |alts|
    ensures SeqSize(alts[k]) <= MaxSize(alts)
  {
    if k > 0 { MaxSizeAt(alts[1..], k - 1); }
  }

  lemma {:induction false} MaxSizeLe(alts: seq<Sequence>, n: nat)
    requires forall k :: 0 <= k < |alts| ==> SeqSize(alts[k]) <= n
    ensures MaxSize(alts) <= n
  {
    if alts != [] { MaxSizeLe(alts[1..], n); }
  }

  lemma {:induction false} BodyMaxAt(g: Grammar, i: nat)
    requires i < |g|
    ensures MaxSize(g[i].alts) <= BodyMax(g)
  {
    if i > 0 { BodyMaxAt(g[1..], i - 1); }
  }

  lemma {:induction false} FirstSizeLe(alts: seq<Sequence>)
    ensures FirstSize(alts) <= MaxSize(alts)
  {
    if alts != [] { FirstSizeLe(alts[1..]); }
  }

  /** How many rules the worklist still visits for one with `n` non-empty
      alternatives, the first of size `s`, none larger than `most`; `body` bounds
      what inlining adds. */
  ghost function Weight(n: nat, s: nat, most: nat, body: nat): nat
    decreases n, s
  {
    var grown := most + body + 3 * n;
    1 + (if s > 0 then Weight(n, s - 1, grown, body) else 0)
      + (if n > 0 then Repeated(n, Weight(n - 1, grown, grown, body)) else 0)
  }

  /** `n` times `x`. */
  ghost function Repeated(n: nat, x: nat): nat {
    if n == 0 then 0 else x + Repeated(n - 1, x)
  }

  lemma {:induction false} RepeatedMono(a: nat, b: nat, x: nat, y: nat)
    requires a <= b && x <= y
    ensures Repeated(a, x) <= Repeated(b, y)
  {
    if a > 0 { RepeatedMono(a - 1, b - 1, x, y); }
  }

  lemma {:induction false} WeightMono(n: nat, s: nat, most: nat, n': nat, s': nat, most': nat, body: nat)
    requires n <= n' && s <= s' && most <= most'
    ensures Weight(n, s, most, body) <= Weight(n', s', most', body)
    decreases n, s
  {
    var grown, grown' := most + body + 3 * n, most' + body + 3 * n';
    if s > 0 {
      WeightMono(n, s - 1, grown, n', s' - 1, grown', body);
    }
    if n > 0 {
      WeightMono(n - 1, grown, grown, n' - 1, grown', grown', body);
      RepeatedMono(n, n', Weight(n - 1, grown, grown, body), Weight(n' - 1, grown', grown', body));
    }
  }

  ghost function AltsWeight(alts: seq<Sequence>, body: nat): nat {
    Weight(NonEmptyCount(alts), FirstSize(alts), MaxSize(alts), body)
  }

  ghost function QueueWeight(queue: Grammar, body: nat): nat {
    if queue == [] then 0 else AltsWeight(queue[0].alts, body) + QueueWeight(queue[1..], body)
  }

  lemma {:induction false} QueueWeightSnoc(queue: Grammar, p: Production, body: nat)
    ensures QueueWeight(queue + [p], body) == QueueWeight(queue, body) + AltsWeight(p.alts, body)
  {
    if queue == [] {
      assert [] + [p] == [p] && [p][1..] == [];
    } else {
      assert (queue + [p])[1..] == queue[1..] + [p];
      QueueWeightSnoc(queue[1..], p, body);
    }
  }

  // ---- members ----

  /** Members are non-empty alternatives, so no more than there are; when there are
      no others, the first of them is the first non-empty alternative. */
  lemma {:induction false} MembersCount(alts: seq<Sequence>, members: seq<nat>, k: nat)
    requires k <= |alts|
    requires forall i :: 0 <= i < |members| ==> k <= members[i] < |alts| && alts[members[i]] != []
    requires forall i, j :: 0 <= i < j < |members| ==> members[i] < members[j]
    ensures |members| <= NonEmptyCount(alts[k..])
    ensures members != [] && |members| == NonEmptyCount(alts[k..]) ==> FirstSize(alts[k..]) == SeqSize(alts[members[0]])
    decreases |alts| - k
  {
    if k < |alts| {
      assert alts[k..][1..] == alts[k + 1..];
      if members != [] && members[0] == k {
        forall i | 0 <= i < |members| - 1 ensures k + 1 <= members[1..][i] {
          assert members[0] < members[i + 1];
        }
        MembersCount(alts, members[1..], k + 1);
      } else {
        forall i | 0 <= i < |members| ensures k + 1 <= members[i] {
          assert i > 0 ==> members[0] < members[i];
        }
        MembersCount(alts, members, k + 1);
      }
    }
  }

  /** From `k` on, `members[j..]` are the members left. */
  ghost predicate LeftFrom(members: seq<nat>, j: nat, k: nat) {
    && j <= |members|
    && (forall i :: 0 <= i < j ==> members[i] < k)
    && (forall i :: j <= i < |members| ==> members[i] >= k)
    && (forall a, b :: 0 <= a < b < |members| ==> members[a] < members[b])
  }

  lemma {:induction false} RebuiltCount(alts: seq<Sequence>, members: seq<nat>, replacement: Sequence, k: nat, j: nat)
    requires k <= |alts| && members != [] && LeftFrom(members, j, k) && replacement != []
    requires forall i :: 0 <= i < |members| ==> members[i] < |alts| && alts[members[i]] != []
    ensures NonEmptyCount(Rebuilt(alts, members, replacement, k)) + (|members| - j)
      == NonEmptyCount(alts[k..]) + (if j == 0 then 1 else 0)
    decreases |alts| - k
  {
    if k < |alts| {
      assert alts[k..][1..] == alts[k + 1..];
      if j < |members| && members[j] == k {
        RebuiltCount(alts, members, replacement, k + 1, j + 1);
        assert k in members;
        assert j > 0 ==> members[0] < k;
      } else {
        assert k !in members;
        RebuiltCount(alts, members, replacement, k + 1, j);
      }
    } else {
      assert j == |members|;
    }
  }

  lemma {:induction false} RebuiltHas(alts: seq<Sequence>, members: seq<nat>, replacement: Sequence, k: nat, i: nat)
    requires k <= |alts| && members != [] && i < |Rebuilt(alts, members, replacement, k)|
    ensures Rebuilt(alts, members, replacement, k)[i] == replacement
      || Rebuilt(alts, members, replacement, k)[i] in alts
    decreases |alts| - k
  {
    if k == members[0] {
      if i > 0 { RebuiltHas(alts, members, replacement, k + 1, i - 1); }
    } else if k in members {
      RebuiltHas(alts, members, replacement, k + 1, i);
    } else if i > 0 {
      RebuiltHas(alts, members, replacement, k + 1, i - 1);
    }
  }

  lemma {:induction false} AltsRefsAt(alts: seq<Sequence>, k: nat)
    requires k < |alts|
    ensures SeqRefs(alts[k]) <= AltsRefs(alts)
  {
    if k > 0 { AltsRefsAt(alts[1..], k - 1); }
  }

  lemma {:induction false} AltsRefsLe(alts: seq<Sequence>, names: set<string>)
    requires forall k :: 0 <= k < |alts| ==> SeqRefs(alts[k]) <= names
    ensures AltsRefs(alts) <= names
  {
    if alts != [] { AltsRefsLe(alts[1..], names); }
  }

  // ---- what a view holds ----

  lemma ViewHolds(alt: Sequence, view: Sequence, head: Element, g: Grammar, names: set<string>)
    requires SeenAs(alt, view, head, g) && SeqRefs(alt) <= names && Resolved(g, names)
    ensures SeqRefs(view) <= names && SeqSize(view) <= SeqSize(alt) + BodyMax(g) && alt != []
  {
    var v := Unwrap(alt);
    UnwrapRefs(alt);
    UnwrapSize(alt);
    if view != v {
      var p := Find(g, v[0].name).value;
      var i :| 0 <= i < |g| && g[i] == p;
      BodyMaxAt(g, i);
      MaxSizeAt(p.alts, 0);
      AltsRefsAt(p.alts, 0);
      var body := Unwrap(p.alts[0]);
      UnwrapRefs(p.alts[0]);
      UnwrapSize(p.alts[0]);
      RefsCat(body, v[1..]);
      RefsCat([v[0]], v[1..]);
      assert v == [v[0]] + v[1..];
      SeqSizeCat(body, v[1..]);
    }
  }

  lemma CutHolds(view: Sequence, plen: nat)
    requires plen <= |view|
    ensures SeqRefs(view[..plen]) <= SeqRefs(view) && SeqRefs(view[plen..]) <= SeqRefs(view)
    ensures SeqSize(view[..plen]) + SeqSize(view[plen..]) == SeqSize(view)
    ensures plen > 0 ==> SeqSize(view[plen..]) < SeqSize(view)
  {
    assert view == view[..plen] + view[plen..];
    RefsCat(view[..plen], view[plen..]);
    SeqSizeCat(view[..plen], view[plen..]);
  }

  // ---- gathering a run ----

  /** The second alternative begins with the first one's head, as it stands or once the
      rule it begins with is put in. */
  predicate Alike(u: Sequence, v: Sequence, g: Grammar) {
    u != [] && v != [] && (ElemEqual(u[0], v[0]) || InlineHead(v, u[0], g).Some?)
  }

  /** How an alternative joins a run, if it does. */
  function JoinedAs(v: Sequence, head: Element, g: Grammar): Option<Sequence>
    requires v != []
  {
    if ElemEqual(head, v[0]) then Some(v) else InlineHead(v, head, g)
  }

  lemma JoinedSeen(alt: Sequence, head: Element, g: Grammar)
    requires Unwrap(alt) != [] && JoinedAs(Unwrap(alt), head, g).Some?
    ensures var view := JoinedAs(Unwrap(alt), head, g).value;
      SeenAs(alt, view, head, g) && view != [] && view[0] == head
  {
    var v := Unwrap(alt);
    if ElemEqual(head, v[0]) {
      ElemEqualSame(head, v[0]);
    } else {
      ElemEqualSame(Unwrap(Find(g, v[0].name).value.alts[0])[0], head);
    }
  }

  /** The run as gathered before alternative `j`, carried to its end. */
  function GatheredFrom(views: seq<Sequence>, head: Element, j: nat, run: Run, g: Grammar,
      disjoint: (Element, Element) -> bool): Run
    requires j <= |views|
    decreases |views| - j
  {
    if j == |views| || views[j] == [] then run
    else
      var joined := JoinedAs(views[j], head, g);
      if joined.Some? then
        GatheredFrom(views, head, j + 1, Run(run.members + [j], run.views + [joined.value]), g, disjoint)
      else if !disjoint(head, views[j][0]) then run
      else GatheredFrom(views, head, j + 1, run, g, disjoint)
  }

  /** `run` with what is gathered from `j` on is `whole`. */
  ghost predicate Gathers(views: seq<Sequence>, head: Element, j: nat, run: Run, g: Grammar,
      disjoint: (Element, Element) -> bool, whole: Run)
    requires j <= |views|
  {
    GatheredFrom(views, head, j, run, g, disjoint) == whole
  }

  lemma GathersOn(views: seq<Sequence>, head: Element, j: nat, run: Run, g: Grammar,
      disjoint: (Element, Element) -> bool, whole: Run)
    requires j < |views| && Gathers(views, head, j, run, g, disjoint, whole)
    ensures views[j] == [] ==> run == whole
    ensures views[j] != [] ==>
      var joined := JoinedAs(views[j], head, g);
      if joined.Some? then
        Gathers(views, head, j + 1, Run(run.members + [j], run.views + [joined.value]), g, disjoint, whole)
      else if !disjoint(head, views[j][0]) then run == whole
      else Gathers(views, head, j + 1, run, g, disjoint, whole)
  {
    hide JoinedAs;
  }

  lemma GathersAll(views: seq<Sequence>, head: Element, j: nat, run: Run, g: Grammar,
      disjoint: (Element, Element) -> bool, whole: Run)
    requires j == |views| && Gathers(views, head, j, run, g, disjoint, whole)
    ensures run == whole
  {
  }

  /** The run that begins at alternative `i`. */
  function Gathered(alts: seq<Sequence>, i: nat, g: Grammar, disjoint: (Element, Element) -> bool): Run
    requires i < |alts| && Unwrap(alts[i]) != []
  {
    GatheredFrom(Views(alts), Unwrap(alts[i])[0], i + 1, Run([i], [Unwrap(alts[i])]), g, disjoint)
  }

  /** The members so far: earlier alternatives, in order, seen with the head in front. */
  ghost predicate Gathering(alts: seq<Sequence>, j: nat, members: seq<nat>, seen: seq<Sequence>, head: Element,
      g: Grammar) {
    && |members| == |seen| && j <= |alts|
    && (forall k :: 0 <= k < |members| ==> members[k] < j)
    && (forall k, l :: 0 <= k < l < |members| ==> members[k] < members[l])
    && (forall k :: 0 <= k < |seen| ==> SeenAs(alts[members[k]], seen[k], head, g))
    && (forall k :: 0 <= k < |seen| ==> seen[k] != [] && seen[k][0] == head)
  }

  lemma Skips(alts: seq<Sequence>, j: nat, members: seq<nat>, seen: seq<Sequence>, head: Element, g: Grammar)
    requires j < |alts| && Gathering(alts, j, members, seen, head, g)
    ensures Gathering(alts, j + 1, members, seen, head, g)
  {
    hide SeenAs;
  }

  lemma Joins(alts: seq<Sequence>, j: nat, members: seq<nat>, seen: seq<Sequence>, head: Element, g: Grammar)
    requires j < |alts| && Gathering(alts, j, members, seen, head, g)
    requires Unwrap(alts[j]) != [] && JoinedAs(Unwrap(alts[j]), head, g).Some?
    ensures Gathering(alts, j + 1, members + [j], seen + [JoinedAs(Unwrap(alts[j]), head, g).value], head, g)
  {
    JoinedSeen(alts[j], head, g);
    hide SeenAs, JoinedAs, Unwrap;
  }

  /** The run that begins at alternative `i`; an alternative that is no member is
      skipped only when its first characters are known to be disjoint from the
      head's, which `disjoint` says. */
  method GatherRun(alts: seq<Sequence>, views: seq<Sequence>, i: nat, g: Grammar, disjoint: (Element, Element) -> bool)
    returns (run: Run)
    requires |views| == |alts| && (forall k :: 0 <= k < |alts| ==> views[k] == Unwrap(alts[k]))
    requires i < |alts| && views[i] != []
    ensures |run.members| == |run.views| >= 1 && run.members[0] == i && run == Gathered(alts, i, g, disjoint)
    ensures |run.members| >= 2 ==> RunOf(run, alts, views[i][0], g) && Shares(run, 1)
    ensures i + 1 < |alts| && Alike(views[i], views[i + 1], g) ==> |run.members| >= 2 && run.members[1] == i + 1
  {
    var head := views[i][0];
    var members: seq<nat>, seen := [i], [views[i]];
    var j := i + 1;
    assert views == Views(alts);
    assert SeenAs(alts[i], views[i], head, g);
    ghost var whole := Gathered(alts, i, g, disjoint);
    assert Gathers(views, head, j, Run(members, seen), g, disjoint, whole);
    assert Gathering(alts, j, members, seen, head, g);
    hide Gathered, SeenAs, Unwrap, Alike, ElemEqual, RunOf, Shares, JoinedAs, Gathering, Gathers, GatheredFrom;
    while j < |alts|
      invariant i < j <= |alts| && |members| == |seen| >= 1
      invariant Gathers(views, head, j, Run(members, seen), g, disjoint, whole)
      invariant members[0] == i && seen[0] == views[i]
      invariant Gathering(alts, j, members, seen, head, g)
      invariant j > i + 1 && Alike(views[i], views[i + 1], g) ==> |members| >= 2 && members[1] == i + 1
      decreases |alts| - j
    {
      var v := views[j];
      GathersOn(views, head, j, Run(members, seen), g, disjoint, whole);
      if v == [] {
        break;
      }
      var joined := JoinedAs(v, head, g);
      Skips(alts, j, members, seen, head, g);
      if joined.Some? {
        Joins(alts, j, members, seen, head, g);
        members, seen := members + [j], seen + [joined.value];
      } else if !disjoint(head, v[0]) {
        break;
      }
      j := j + 1;
    }
    run := Run(members, seen);
    if j == |alts| {
      GathersAll(views, head, j, run, g, disjoint, whole);
    }
    GatheredRun(alts, j, run, head, g);
  }

  lemma GatheredRun(alts: seq<Sequence>, j: nat, run: Run, head: Element, g: Grammar)
    requires Gathering(alts, j, run.members, run.views, head, g) && run.members != []
    requires run.views[0] == Unwrap(alts[run.members[0]])
    ensures |run.members| >= 2 ==> RunOf(run, alts, head, g) && Shares(run, 1)
  {
    hide SeenAs;
    forall k | 0 <= k < |run.views| ensures run.views[k][..1] == run.views[0][..1] {
      assert run.views[k][0] == run.views[0][0];
    }
  }

  method CommonPrefix(run: Run) returns (plen: nat)
    requires run.views != [] && Shares(run, 1)
    ensures plen >= 1 && Shares(run, plen) && !AllEqualAt(run.views, plen)
  {
    plen := 1;
    while AllEqualAt(run.views, plen)
      invariant plen >= 1 && Shares(run, plen)
      decreases |run.views[0]| - plen
    {
      forall k | 0 <= k < |run.views|
        ensures plen + 1 <= |run.views[k]| && run.views[k][..plen + 1] == run.views[0][..plen + 1]
      {
        ElemEqualSame(run.views[0][plen], run.views[k][plen]);
        assert run.views[k][..plen + 1] == run.views[k][..plen] + [run.views[k][plen]];
      }
      plen := plen + 1;
    }
  }

  predicate AllEqualAt(views: seq<Sequence>, at: nat)
    requires views != []
  {
    forall k :: 0 <= k < |views| ==> at < |views[k]| && at < |views[0]| && ElemEqual(views[0][at], views[k][at])
  }

  // ---- tails ----

  predicate HasEqual(tails: seq<Sequence>, tail: Sequence) {
    exists k :: 0 <= k < |tails| && SeqEqual(tails[k], tail)
  }

  /** The distinct tails, the empty one last: it matches anything, so the longer
      continuations must be offered first. */
  method Tails(run: Run, plen: nat) returns (tails: seq<Sequence>)
    requires run.views != [] && Shares(run, plen)
    ensures TailsOf(tails, run, plen) && tails != []
    ensures NonEmptyCount(tails) <= |run.views|
    ensures run.views[0][plen..] == [] ==> NonEmptyCount(tails) < |run.views|
    ensures run.views[0][plen..] != [] ==> tails[0] == run.views[0][plen..]
  {
    var longer: seq<Sequence>, hasEmpty := [], false;
    for k := 0 to |run.views|
      invariant forall t :: t in longer ==> t != []
      invariant forall t :: t in longer ==> exists i :: 0 <= i < k && run.views[i][plen..] == t
      invariant forall i :: 0 <= i < k ==>
        if run.views[i][plen..] == [] then hasEmpty else run.views[i][plen..] in longer
      invariant hasEmpty ==> exists i :: 0 <= i < k && run.views[i][plen..] == []
      invariant |longer| <= k
      invariant k > 0 && run.views[0][plen..] == [] ==> |longer| < k
      invariant k > 0 && run.views[0][plen..] != [] ==> longer != [] && longer[0] == run.views[0][plen..]
    {
      var tail := run.views[k][plen..];
      if tail == [] {
        hasEmpty := true;
      } else if !HasEqual(longer, tail) {
        longer := longer + [tail];
      } else {
        var i :| 0 <= i < |longer| && SeqEqual(longer[i], tail);
        SeqEqualSame(longer[i], tail);
      }
    }
    tails := if hasEmpty then longer + [[]] else longer;
    CountTails(longer, hasEmpty);
  }

  lemma {:induction false} CountTails(longer: seq<Sequence>, hasEmpty: bool)
    requires forall t :: t in longer ==> t != []
    ensures NonEmptyCount(if hasEmpty then longer + [[]] else longer) == |longer|
  {
    var tails := if hasEmpty then longer + [[]] else longer;
    if longer != [] {
      assert longer[0] in longer;
      assert tails[0] == longer[0];
      assert tails[1..] == if hasEmpty then longer[1..] + [[]] else longer[1..];
      assert forall t :: t in longer[1..] ==> t in longer;
      CountTails(longer[1..], hasEmpty);
    } else if hasEmpty {
      assert longer + [[]] == [[]];
      assert tails[1..] == longer;
    }
  }

  // ---- one step ----

  /** What a step promises besides the words: fewer alternatives to go, and a helper
      smaller than the rule in its non-empty alternatives and the first of them. */
  ghost predicate Smaller(alts: seq<Sequence>, step: Step, body: nat) {
    && NonEmptyCount(step.alts) < NonEmptyCount(alts)
    && MaxSize(step.alts) <= MaxSize(alts) + 3
    && (step.helper.Some? ==>
         && MaxSize(step.helper.value.alts) <= MaxSize(alts) + body
         && NonEmptyCount(step.helper.value.alts) <= NonEmptyCount(alts)
         && (NonEmptyCount(step.helper.value.alts) == NonEmptyCount(alts) ==>
              FirstSize(step.helper.value.alts) < FirstSize(alts)))
  }

  ghost predicate Scoped(step: Step, used: set<string>) {
    if step.helper.Some?
    then AltsRefs(step.alts) <= used + {step.helper.value.name} && AltsRefs(step.helper.value.alts) <= used
    else AltsRefs(step.alts) <= used
  }

  lemma RunMembers(run: Run, alts: seq<Sequence>, head: Element, g: Grammar)
    requires RunOf(run, alts, head, g)
    ensures forall k :: 0 <= k < |run.members| ==> alts[run.members[k]] != []
    ensures |run.members| <= NonEmptyCount(alts)
    ensures |run.members| == NonEmptyCount(alts) ==> FirstSize(alts) == SeqSize(alts[run.members[0]])
  {
    forall k | 0 <= k < |run.members| ensures alts[run.members[k]] != [] {
      assert SeenAs(alts[run.members[k]], run.views[k], head, g);
    }
    assert alts[0..] == alts;
    MembersCount(alts, run.members, 0);
  }

  lemma TailsSmaller(run: Run, alts: seq<Sequence>, head: Element, g: Grammar, plen: nat, tails: seq<Sequence>,
      names: set<string>)
    requires RunOf(run, alts, head, g) && plen >= 1 && Shares(run, plen) && TailsOf(tails, run, plen) && tails != []
    requires AltsRefs(alts) <= names && Resolved(g, names)
    requires NonEmptyCount(tails) <= |run.views|
    requires run.views[0][plen..] == [] ==> NonEmptyCount(tails) < |run.views|
    requires run.views[0][plen..] != [] ==> tails[0] == run.views[0][plen..]
    ensures MaxSize(tails) <= MaxSize(alts) + BodyMax(g) && AltsRefs(tails) <= names
    ensures NonEmptyCount(tails) <= NonEmptyCount(alts)
    ensures NonEmptyCount(tails) == NonEmptyCount(alts) ==> FirstSize(tails) < FirstSize(alts)
  {
    RunMembers(run, alts, head, g);
    forall t | 0 <= t < |tails| ensures SeqSize(tails[t]) <= MaxSize(alts) + BodyMax(g) && SeqRefs(tails[t]) <= names {
      assert tails[t] in tails;
      var k :| 0 <= k < |run.views| && run.views[k][plen..] == tails[t];
      MemberHolds(run, alts, head, g, plen, k, names);
    }
    MaxSizeLe(tails, MaxSize(alts) + BodyMax(g));
    AltsRefsLe(tails, names);
    UnwrapSize(alts[run.members[0]]);
    CutHolds(run.views[0], plen);
  }

  lemma MemberHolds(run: Run, alts: seq<Sequence>, head: Element, g: Grammar, plen: nat, k: nat, names: set<string>)
    requires RunOf(run, alts, head, g) && Shares(run, plen) && k < |run.views|
    requires AltsRefs(alts) <= names && Resolved(g, names)
    ensures SeqSize(run.views[k][plen..]) <= MaxSize(alts) + BodyMax(g)
    ensures SeqRefs(run.views[k][plen..]) <= names && SeqRefs(run.views[k][..plen]) <= names
  {
    AltsRefsAt(alts, run.members[k]);
    MaxSizeAt(alts, run.members[k]);
    ViewHolds(alts[run.members[k]], run.views[k], head, g, names);
    CutHolds(run.views[k], plen);
  }

  lemma {:induction false} FactoredHolds(prefix: Sequence, rest: Sequence, tails: seq<Sequence>, helper: string,
      names: set<string>)
    requires rest in tails && prefix != [] && SeqRefs(prefix) <= names && SeqRefs(rest) <= names
    ensures var f := Factored(prefix, tails, helper);
      && f != [] && SeqSize(f) <= SeqSize(prefix) + (if |tails| == 1 then SeqSize(rest) else 1)
      && SeqRefs(f) <= names + (if |tails| == 1 then {} else {helper})
  {
    if |tails| == 1 {
      assert tails[0] == rest;
      RefsCat(prefix, rest);
      SeqSizeCat(prefix, rest);
    } else {
      RefsCat(prefix, [Ref(helper)]);
      SeqSizeCat(prefix, [Ref(helper)]);
      assert [Ref(helper)][1..] == [];
    }
  }

  lemma ReplacementHolds(run: Run, alts: seq<Sequence>, head: Element, g: Grammar, plen: nat, tails: seq<Sequence>,
                         helper: string, wrapped: bool, names: set<string>)
    requires RunOf(run, alts, head, g) && plen >= 1 && Shares(run, plen) && TailsOf(tails, run, plen)
    requires AltsRefs(alts) <= names && Resolved(g, names)
    ensures var r := Replacement(wrapped, Factored(run.views[0][..plen], tails, helper));
      && r != [] && SeqSize(r) <= MaxSize(alts) + 3
      && SeqRefs(r) <= names + (if |tails| == 1 then {} else {helper})
  {
    hide ElemRefs, ElemSize, SeqRefs, SeqSize;
    var prefix, rest := run.views[0][..plen], run.views[0][plen..];
    UnwrapSize(alts[run.members[0]]);
    MaxSizeAt(alts, run.members[0]);
    CutHolds(run.views[0], plen);
    MemberHolds(run, alts, head, g, plen, 0, names);
    FactoredHolds(prefix, rest, tails, helper, names);
    WrappedHolds(Factored(prefix, tails, helper));
  }

  lemma WrappedHolds(factored: Sequence)
    ensures SeqSize([GroupOf([factored])]) == SeqSize(factored) + 2
    ensures SeqRefs([GroupOf([factored])]) == SeqRefs(factored)
  {
    var e := GroupOf([factored]);
    GroupOfSize([factored]);
    AltsSizeOne(factored);
    assert [e][1..] == [] && e.alts[1..] == [];
    assert GroupRefs(e.alts) == SeqRefs(e.alts[0].els) + GroupRefs(e.alts[1..]);
  }

  lemma RebuiltHolds(alts: seq<Sequence>, members: seq<nat>, replacement: Sequence, names: set<string>, size: nat)
    requires members != [] && SeqRefs(replacement) <= names && AltsRefs(alts) <= names
    requires SeqSize(replacement) <= size && MaxSize(alts) <= size
    ensures AltsRefs(Rebuilt(alts, members, replacement, 0)) <= names
    ensures MaxSize(Rebuilt(alts, members, replacement, 0)) <= size
  {
    var r := Rebuilt(alts, members, replacement, 0);
    forall i | 0 <= i < |r| ensures SeqRefs(r[i]) <= names && SeqSize(r[i]) <= size {
      RebuiltHas(alts, members, replacement, 0, i);
      if r[i] in alts {
        var k :| 0 <= k < |alts| && alts[k] == r[i];
        AltsRefsAt(alts, k);
        MaxSizeAt(alts, k);
      }
    }
    AltsRefsLe(r, names);
    MaxSizeLe(r, size);
  }

  lemma RebuiltFewer(run: Run, alts: seq<Sequence>, head: Element, g: Grammar, replacement: Sequence)
    requires RunOf(run, alts, head, g) && replacement != []
    ensures NonEmptyCount(Rebuilt(alts, run.members, replacement, 0)) < NonEmptyCount(alts)
  {
    RunMembers(run, alts, head, g);
    assert alts[0..] == alts;
    RebuiltCount(alts, run.members, replacement, 0, 0);
  }

  predicate AllWrapped(alts: seq<Sequence>, members: seq<nat>) {
    forall k :: 0 <= k < |members| && members[k] < |alts| ==> |alts[members[k]]| == 1 && alts[members[k]][0].Group?
  }

  /** What a rule of `g`, or one under way, may refer to. */
  function Scope(g: Grammar, used: set<string>): set<string> {
    used + Dangling(g)
  }

  ghost predicate FactNameOf(n: string, base: string, k: nat) {
    n == Numbered(base + "$fact", k, "")
  }

  /** The name of a helper factoring mints. */
  ghost predicate FactName(n: string) {
    exists base, k: nat :: FactNameOf(n, base, k)
  }

  ghost predicate Minted(step: Step, used: set<string>) {
    step.helper.Some? ==> step.helper.value.name !in used && FactName(step.helper.value.name)
  }

  /** The helper holds the tails of the run, and bears the first free name; there is none
      where the tails are all the same. */
  ghost predicate HelperFor(step: Step, name: string, used: set<string>, run: Run, plen: nat)
    requires run.views != [] && Shares(run, plen)
  {
    match step.helper
    case Some(helper) => helper.name == FreshName(name + "$fact", "", 0, used) && TailsOf(helper.alts, run, plen)
    case None => exists tail :: TailsOf([tail], run, plen)
  }

  /** The step a run makes: the run replaced by its prefix and the choice of tails. */
  method FactorRun(name: string, alts: seq<Sequence>, run: Run, plen: nat, ghost head: Element, used: set<string>,
      g: Grammar)
    returns (step: Step)
    requires RunOf(run, alts, head, g) && plen >= 1 && Shares(run, plen)
    requires AltsRefs(alts) <= Scope(g, used) && Resolved(g, Scope(g, used))
    ensures KeepsWords(alts, step, g) && Smaller(alts, step, BodyMax(g)) && Scoped(step, Scope(g, used))
    ensures Minted(step, used)
    ensures HelperFor(step, name, used, run, plen)
  {
    hide Scope;
    ghost var names := Scope(g, used);
    var tails := Tails(run, plen);
    var helper := FindFresh(name + "$fact", "", 0, used);
    assert FactNameOf(helper, name, FirstFree(name + "$fact", "", 0, used, used));
    var wrapped := AllWrapped(alts, run.members);
    var factored := Factored(run.views[0][..plen], tails, helper);
    var replacement := Replacement(wrapped, factored);
    step := Step(Rebuilt(alts, run.members, replacement, 0),
                 if |tails| == 1 then None else Some(Production(helper, tails)));
    assert |tails| == 1 ==> tails == [tails[0]];
    TailsSmaller(run, alts, head, g, plen, tails, names);
    ReplacementHolds(run, alts, head, g, plen, tails, helper, wrapped, names);
    RebuiltHolds(alts, run.members, replacement, names + (if |tails| == 1 then {} else {helper}), MaxSize(alts) + 3);
    RebuiltFewer(run, alts, head, g, replacement);
    RunKeeps(run, alts, head, g, plen, tails, helper, wrapped, step);
  }

  lemma RunKeeps(run: Run, alts: seq<Sequence>, head: Element, g: Grammar, plen: nat, tails: seq<Sequence>,
                 helper: string, wrapped: bool, step: Step)
    requires RunOf(run, alts, head, g) && Shares(run, plen) && TailsOf(tails, run, plen)
    requires step == Step(
      Rebuilt(alts, run.members, Replacement(wrapped, Factored(run.views[0][..plen], tails, helper)), 0),
      if |tails| == 1 then None else Some(Production(helper, tails)))
    ensures KeepsWords(alts, step, g)
  {
    forall m: Model | Inlines(m, g)
      && (step.helper.Some? ==> At(m, step.helper.value.name) == AltsLang(step.helper.value.alts, m))
      ensures AltsLang(step.alts, m) == AltsLang(alts, m)
    {
      StepKeepsWords(run, alts, head, g, plen, tails, helper, wrapped, m);
    }
  }

  function Views(alts: seq<Sequence>): (v: seq<Sequence>)
    ensures |v| == |alts| && forall k :: 0 <= k < |alts| ==> v[k] == Unwrap(alts[k])
  {
    seq(|alts|, k requires 0 <= k < |alts| => Unwrap(alts[k]))
  }

  /** The run's longest shared prefix is no longer than the dispatch lookahead. */
  ghost predicate PrefixWithin(run: Run, alts: seq<Sequence>, i: nat, plen: nat, g: Grammar)
    requires i < |alts| && Unwrap(alts[i]) != []
  {
    && RunOf(run, alts, Unwrap(alts[i])[0], g) && run.members[0] == i
    && plen >= 1 && Shares(run, plen) && !AllEqualAt(run.views, plen)
    && Span.Clamp(Span.SeqSpan(run.views[0][..plen], g, {}), Span.LOOKAHEAD).Some?
  }

  /** The run gathered at an alternative, if it has another member, is one the lookahead
      tells apart, and a neighbour that begins alike is its second member. */
  ghost predicate NeighboursDecided(alts: seq<Sequence>, i: nat, g: Grammar, disjoint: (Element, Element) -> bool) {
    i + 1 < |alts| && Unwrap(alts[i]) != [] ==>
      var run := Gathered(alts, i, g, disjoint);
      && (|run.members| >= 2 ==> exists plen :: PrefixWithin(run, alts, i, plen, g))
      && (Alike(Unwrap(alts[i]), Unwrap(alts[i + 1]), g) ==> |run.members| >= 2 && run.members[1] == i + 1)
  }

  ghost predicate Decided(alts: seq<Sequence>, g: Grammar, disjoint: (Element, Element) -> bool) {
    forall i :: 0 <= i < |alts| ==> NeighboursDecided(alts, i, g, disjoint)
  }

  /** The step is that of a gathered run whose longest shared prefix may be longer than
      the lookahead. */
  ghost predicate TakenFrom(name: string, alts: seq<Sequence>, used: set<string>, g: Grammar,
      disjoint: (Element, Element) -> bool, step: Step)
  {
    exists i: nat, plen: nat :: TakenAt(name, alts, used, g, disjoint, step, i, plen)
  }

  ghost predicate TakenAt(name: string, alts: seq<Sequence>, used: set<string>, g: Grammar,
      disjoint: (Element, Element) -> bool, step: Step, i: nat, plen: nat)
  {
    SharesBeyondAt(alts, i, plen, g, disjoint) && HelperFor(step, name, used, Gathered(alts, i, g, disjoint), plen)
  }

  ghost predicate SharesBeyondAt(alts: seq<Sequence>, i: nat, plen: nat, g: Grammar,
      disjoint: (Element, Element) -> bool) {
    i + 1 < |alts| && Unwrap(alts[i]) != [] &&
    var run := Gathered(alts, i, g, disjoint);
    && RunOf(run, alts, Unwrap(alts[i])[0], g) && run.members[0] == i && plen >= 1 && Shares(run, plen)
    && !AllEqualAt(run.views, plen)
    && Span.Clamp(Span.SeqSpan(run.views[0][..plen], g, {}), Span.LOOKAHEAD).None?
  }

  lemma TakenHere(name: string, alts: seq<Sequence>, used: set<string>, g: Grammar,
      disjoint: (Element, Element) -> bool, step: Step, i: nat, plen: nat)
    requires SharesBeyondAt(alts, i, plen, g, disjoint)
    requires HelperFor(step, name, used, Gathered(alts, i, g, disjoint), plen)
    ensures TakenFrom(name, alts, used, g, disjoint, step)
  {
    hide SharesBeyondAt, HelperFor;
    assert TakenAt(name, alts, used, g, disjoint, step, i, plen);
  }

  /** One factoring step over a rule's alternatives: the first run that shares a
      prefix beyond the lookahead. `None` when there is none. */
  method FactorOnce(name: string, alts: seq<Sequence>, used: set<string>, g: Grammar, disjoint: (Element,
      Element) -> bool)
    returns (r: Option<Step>)
    requires AltsRefs(alts) <= Scope(g, used) && Resolved(g, Scope(g, used))
    ensures |alts| < 2 ==> r.None?
    ensures r.None? ==> Decided(alts, g, disjoint)
    ensures r.Some? ==> TakenFrom(name, alts, used, g, disjoint, r.value)
    ensures r.Some? ==>
      && KeepsWords(alts, r.value, g) && Smaller(alts, r.value, BodyMax(g)) && Scoped(r.value, Scope(g, used))
      && Minted(r.value, used)
  {
    var views := Views(alts);
    hide KeepsWords, Smaller, Scoped, Minted, Scope, AltsRefs, TakenFrom;
    for i := 0 to (if |alts| > 0 then |alts| - 1 else 0)
      invariant forall k :: 0 <= k < i ==> NeighboursDecided(alts, k, g, disjoint)
    {
      if views[i] != [] {
        var run := GatherRun(alts, views, i, g, disjoint);
        if |run.members| >= 2 {
          var plen := CommonPrefix(run);
          var span := Span.SeqTokenSpan(run.views[0][..plen], g);
          if span.None? || span.value > Span.LOOKAHEAD {
            assert SharesBeyondAt(alts, i, plen, g, disjoint);
            var step := FactorRun(name, alts, run, plen, views[i][0], used, g);
            TakenHere(name, alts, used, g, disjoint, step, i, plen);
            return Some(step);
          }
          assert PrefixWithin(run, alts, i, plen, g);
        }
      }
    }
    return None;
  }

  // ---- the worklist ----

  /** The grammar under way holds each single-alternative rule of `g` as it was, and
      refers to nothing new but its helpers.  It derives all that `g` does; the rules of
      `g` derive exactly what they did, unless a helper has taken the name of a rule that
      some reference misses. */
  ghost predicate Sound(g: Grammar, cur: Grammar, used: set<string>) {
    && DistinctNames(cur) && NameSet(cur) == used && NameSet(g) <= used
    && (forall n :: n in used ==> n in NameSet(g) || FactName(n))
    && Resolved(cur, Scope(g, used)) && Resolved(g, Scope(g, used))
    && (forall i :: 0 <= i < |g| && |g[i].alts| == 1 ==> g[i] in cur)
    && Language(g) <= Language(cur)
    && (NoneTaken(g, cur) ==> KeptWords(g, cur))
  }

  ghost function Stepped(cur: Grammar, k: nat, step: Step): Grammar
    requires k < |cur|
  {
    cur[k := Production(cur[k].name, step.alts)] + if step.helper.Some? then [step.helper.value] else []
  }

  function UsedAfter(used: set<string>, step: Step): set<string> {
    used + if step.helper.Some? then {step.helper.value.name} else {}
  }

  lemma SteppedShape(g: Grammar, cur: Grammar, used: set<string>, k: nat, step: Step)
    requires DistinctNames(cur) && NameSet(cur) == used && Resolved(cur, Scope(g, used))
    requires k < |cur| && Scoped(step, Scope(g, used)) && Minted(step, used)
    ensures var next := Stepped(cur, k, step);
      && DistinctNames(next) && NameSet(next) == UsedAfter(used, step)
      && Resolved(next, Scope(g, UsedAfter(used, step)))
  {
    var next := Stepped(cur, k, step);
    forall i | 0 <= i < |next|
      ensures AltsRefs(next[i].alts) <= Scope(g, UsedAfter(used, step)) && next[i].name in UsedAfter(used, step)
    {
      if i < |cur| { assert cur[i].name in NameSet(cur); }
    }
    forall i, j | 0 <= i < j < |next| ensures next[i].name != next[j].name {
      assert cur[i].name in NameSet(cur);
    }
    SteppedNames(cur, k, step);
  }

  lemma SteppedNames(cur: Grammar, k: nat, step: Step)
    requires k < |cur|
    ensures NameSet(Stepped(cur, k, step)) == UsedAfter(NameSet(cur), step)
  {
    var next := Stepped(cur, k, step);
    forall n | n in UsedAfter(NameSet(cur), step) ensures n in NameSet(next) {
      if n in NameSet(cur) {
        var i :| 0 <= i < |cur| && cur[i].name == n;
        assert next[i].name == n;
      } else {
        assert next[|cur|].name == n;
      }
    }
    forall n | n in NameSet(next) ensures n in UsedAfter(NameSet(cur), step) {
      var i :| 0 <= i < |next| && next[i].name == n;
      assert i < |cur| ==> cur[i].name == n;
    }
  }

  /** Every single-alternative rule of `g` derives its body in the language of a
      grammar that holds it. */
  lemma InlinesLanguage(g: Grammar, cur: Grammar)
    requires DistinctNames(cur) && forall i :: 0 <= i < |g| && |g[i].alts| == 1 ==> g[i] in cur
    ensures Inlines(Language(cur), g)
  {
    forall i | 0 <= i < |g| && |g[i].alts| == 1
      ensures At(Language(cur), g[i].name) == SeqLang(g[i].alts[0], Language(cur))
    {
      var j :| 0 <= j < |cur| && cur[j] == g[i];
      RuleLanguage(cur, j);
      assert g[i].alts == [g[i].alts[0]];
      AltsOne(g[i].alts[0], Language(cur));
    }
  }

  lemma SteppedHolds(g: Grammar, cur: Grammar, k: nat, step: Step)
    requires k < |cur| && |cur[k].alts| != 1
    requires forall i :: 0 <= i < |g| && |g[i].alts| == 1 ==> g[i] in cur
    ensures forall i :: 0 <= i < |g| && |g[i].alts| == 1 ==> g[i] in Stepped(cur, k, step)
  {
    forall i | 0 <= i < |g| && |g[i].alts| == 1 ensures g[i] in Stepped(cur, k, step) {
      var j :| 0 <= j < |cur| && cur[j] == g[i];
      assert Stepped(cur, k, step)[j] == g[i];
    }
  }

  /** The stepped grammar derives all the grammar did. */
  lemma SteppedDerivesAll(g: Grammar, cur: Grammar, used: set<string>, k: nat, step: Step)
    requires k < |cur| && DistinctNames(Stepped(cur, k, step))
    requires KeepsWords(cur[k].alts, step, g) && Inlines(Language(Stepped(cur, k, step)), g)
    ensures Language(cur) <= Language(Stepped(cur, k, step))
  {
    var next := Stepped(cur, k, step);
    var m := Language(next);
    LanguageFixed(next);
    if step.helper.Some? {
      RuleLanguage(next, |cur|);
    }
    forall n, w | (n, w) in Apply(cur, m) ensures (n, w) in m {
      var i :| ProducedBy(n, w, cur, i, m);
      if i == k {
        assert ProducedBy(n, w, next, k, m);
      } else {
        assert ProducedBy(n, w, next, i, m);
      }
    }
    LanguageLeast(cur, m);
  }

  /** And no more, the helper apart. */
  lemma SteppedDerivesNoMore(g: Grammar, cur: Grammar, used: set<string>, k: nat, step: Step, m: Model)
    requires k < |cur| && DistinctNames(cur) && NameSet(cur) <= used && Resolved(cur, used) && Scoped(step, used)
    requires Resolved(g, used) && NameSet(g) <= used && Inlines(Language(cur), g) && KeepsWords(cur[k].alts, step, g)
    requires step.helper.Some? ==> step.helper.value.name !in used
    requires m == if step.helper.None? then Language(cur)
      else Assign(Language(cur), step.helper.value.name, AltsLang(step.helper.value.alts, Language(cur)))
    ensures Language(Stepped(cur, k, step)) <= m
  {
    var m0 := Language(cur);
    assert Agree(m0, m, used) by {
      if step.helper.Some? {
        AssignAgree(m0, step.helper.value.name, AltsLang(step.helper.value.alts, m0), used);
      }
    }
    if step.helper.Some? {
      AssignAt(m0, step.helper.value.name, AltsLang(step.helper.value.alts, m0));
      AltsAgree(step.helper.value.alts, m0, m);
    }
    InlinesAgree(g, m0, m, used);
    RuleLanguage(cur, k);
    AltsAgree(cur[k].alts, m0, m);
    assert AltsLang(step.alts, m) == At(m0, cur[k].name);
    var next := Stepped(cur, k, step);
    forall n, w | (n, w) in Apply(next, m) ensures (n, w) in m {
      var i :| ProducedBy(n, w, next, i, m);
      if i == |cur| {
        assert w in At(m, n);
      } else {
        assert cur[i].name in NameSet(cur);
        if i != k {
          AltsAgree(cur[i].alts, m0, m);
          RuleLanguage(cur, i);
        }
        assert w in At(m0, n);
        assert w in At(m, n);
      }
    }
    LanguageLeast(next, m);
  }

  lemma InlinesAgree(g: Grammar, m: Model, m': Model, used: set<string>)
    requires Inlines(m, g) && Agree(m, m', used) && Resolved(g, used) && NameSet(g) <= used
    ensures Inlines(m', g)
  {
    forall i | 0 <= i < |g| && |g[i].alts| == 1 ensures At(m', g[i].name) == SeqLang(g[i].alts[0], m') {
      assert g[i].name in NameSet(g);
      AltsRefsAt(g[i].alts, 0);
      SeqAgree(g[i].alts[0], m, m');
    }
  }

  lemma StepSound(g: Grammar, cur: Grammar, used: set<string>, k: nat, step: Step)
    requires Sound(g, cur, used) && k < |cur| && |cur[k].alts| != 1
    requires KeepsWords(cur[k].alts, step, g) && Scoped(step, Scope(g, used)) && Minted(step, used)
    ensures Sound(g, Stepped(cur, k, step), UsedAfter(used, step))
  {
    var next := Stepped(cur, k, step);
    SteppedShape(g, cur, used, k, step);
    SteppedHolds(g, cur, k, step);
    InlinesLanguage(g, cur);
    InlinesLanguage(g, next);
    SteppedDerivesAll(g, cur, used, k, step);
    if Dangling(g) !! UsedAfter(used, step) {
      StepKeeps(g, cur, used, k, step);
    }
  }

  /** A helper whose name no reference misses changes no rule's words. */
  lemma StepKeeps(g: Grammar, cur: Grammar, used: set<string>, k: nat, step: Step)
    requires Sound(g, cur, used) && k < |cur| && |cur[k].alts| != 1
    requires KeepsWords(cur[k].alts, step, g) && Scoped(step, Scope(g, used)) && Minted(step, used)
    requires Inlines(Language(cur), g) && Language(cur) <= Language(Stepped(cur, k, step))
    requires Dangling(g) !! UsedAfter(used, step)
    ensures KeptWords(g, Stepped(cur, k, step))
  {
    var next, names := Stepped(cur, k, step), Scope(g, used);
    var m0 := Language(cur);
    var m := if step.helper.Some? then Assign(m0, step.helper.value.name, AltsLang(step.helper.value.alts, m0)) else m0;
    SteppedDerivesNoMore(g, cur, names, k, step, m);
    forall n | n in NameSet(g) ensures At(Language(next), n) == At(Language(g), n) {
      SameAt(m0, Language(next), m, n, step, names);
    }
  }

  lemma SameAt(m0: Model, m1: Model, m: Model, n: string, step: Step, used: set<string>)
    requires m0 <= m1 <= m && n in used && (step.helper.Some? ==> step.helper.value.name !in used)
    requires m == if step.helper.Some? then Assign(m0, step.helper.value.name, AltsLang(step.helper.value.alts, m0))
      else m0
    ensures At(m1, n) == At(m0, n)
  {
    if step.helper.Some? {
      AssignAt(m0, step.helper.value.name, AltsLang(step.helper.value.alts, m0));
    }
    forall w | w in At(m1, n) ensures w in At(m0, n) {
      assert (n, w) in m;
      assert w in At(m, n);
    }
  }

  // ---- the weights of one rule's rounds ----

  ghost function Grown(n: nat, most: nat, body: nat): nat { most + body + 3 * n }

  /** What a helper of the first round may weigh. */
  ghost function FirstRound(n: nat, s: nat, most: nat, body: nat): nat {
    if s > 0 then Weight(n, s - 1, Grown(n, most, body), body) else 0
  }

  /** What a helper of any other round, or with fewer alternatives, may weigh. */
  ghost function LaterRound(n: nat, most: nat, body: nat): nat {
    if n > 0 then Weight(n - 1, Grown(n, most, body), Grown(n, most, body), body) else 0
  }

  lemma {:induction false} WeightSplits(n: nat, s: nat, most: nat, body: nat)
    ensures Weight(n, s, most, body) == 1 + FirstRound(n, s, most, body) + Repeated(n, LaterRound(n, most, body))
  {
  }

  /** A helper minted in round `r` of a rule that began with `n` non-empty
      alternatives weighs no more than that round allows. */
  lemma HelperWeight(alts: seq<Sequence>, step: Step, r: nat, n: nat, s: nat, most: nat, body: nat)
    requires Smaller(alts, step, body) && step.helper.Some?
    requires NonEmptyCount(alts) + r <= n && MaxSize(alts) <= most + 3 * r && (r == 0 ==> FirstSize(alts) == s)
    ensures n > 0
    ensures AltsWeight(step.helper.value.alts, body) <= LaterRound(n, most, body)
      || (r == 0 && AltsWeight(step.helper.value.alts, body) <= FirstRound(n, s, most, body))
  {
    var h := step.helper.value.alts;
    var grown := Grown(n, most, body);
    FirstSizeLe(h);
    if NonEmptyCount(h) < n {
      WeightMono(NonEmptyCount(h), FirstSize(h), MaxSize(h), n - 1, grown, grown, body);
    } else {
      WeightMono(n, FirstSize(h), MaxSize(h), n, s - 1, grown, body);
    }
  }

  lemma QueueStep(out: Grammar, p: Production, queue: Grammar, step: Step)
    ensures var cur := out + [p] + queue;
      Stepped(cur, |out|, step)
        == out + [Production(p.name, step.alts)] + (queue + if step.helper.Some? then [step.helper.value] else [])
  {
    var cur := out + [p] + queue;
    assert cur[|out|] == p;
    assert cur[|out| := Production(p.name, step.alts)] == out + [Production(p.name, step.alts)] + queue;
  }

  lemma SoundHere(g: Grammar, out: Grammar, p: Production, queue: Grammar, used: set<string>)
    requires Sound(g, out + [p] + queue, used)
    ensures (out + [p] + queue)[|out|] == p && AltsRefs(p.alts) <= Scope(g, used) && Resolved(g, Scope(g, used))
  {
    assert (out + [p] + queue)[|out|] == p;
  }

  /** One round: a step, if there is one, the rule rewritten and its helper queued. */
  method FactorRound(g: Grammar, out: Grammar, p: Production, queue: Grammar, used: set<string>,
      disjoint: (Element, Element) -> bool)
    returns (step: Option<Step>, p': Production, queue': Grammar, used': set<string>)
    requires Sound(g, out + [p] + queue, used)
    ensures Sound(g, out + [p'] + queue', used') && p'.name == p.name
    ensures step.None? ==> p' == p && queue' == queue && Decided(p.alts, g, disjoint)
    ensures step.Some? ==>
      && p'.alts == step.value.alts && Smaller(p.alts, step.value, BodyMax(g))
      && queue' == queue + HelperOf(step.value)
  {
    hide Sound, KeepsWords, Scoped, Smaller, Decided, Minted, Scope;
    p', queue', used' := p, queue, used;
    SoundHere(g, out, p, queue, used);
    step := FactorOnce(p.name, p.alts, used, g, disjoint);
    if step.Some? {
      StepSound(g, out + [p] + queue, used, |out|, step.value);
      QueueStep(out, p, queue, step.value);
      p', queue', used' := Production(p.name, step.value.alts), queue + HelperOf(step.value),
        UsedAfter(used, step.value);
    }
  }

  function HelperOf(step: Step): Grammar {
    if step.helper.Some? then [step.helper.value] else []
  }

  /** What a round puts in the queue weighs no more than the round allows. */
  lemma RoundWeight(alts: seq<Sequence>, step: Step, queue: Grammar, r: nat, n: nat, s: nat, most: nat, body: nat)
    requires Smaller(alts, step, body)
    requires NonEmptyCount(alts) + r <= n && MaxSize(alts) <= most + 3 * r && (r == 0 ==> FirstSize(alts) == s)
    ensures NonEmptyCount(step.alts) + r + 1 <= n && MaxSize(step.alts) <= most + 3 * (r + 1)
    ensures QueueWeight(queue + HelperOf(step), body)
      <= QueueWeight(queue, body) + (if r == 0 then FirstRound(n, s, most, body) else 0) + LaterRound(n, most, body)
    ensures NonEmptyCount(step.alts) < NonEmptyCount(alts)
  {
    hide Weight, AltsWeight;
    if step.helper.Some? {
      HelperWeight(alts, step, r, n, s, most, body);
      QueueWeightSnoc(queue, step.helper.value, body);
    } else {
      assert queue + [] == queue;
    }
  }

  /** All the rounds of one rule. */
  method FactorRule(g: Grammar, out: Grammar, p: Production, queue: Grammar, used: set<string>, disjoint: (Element,
      Element) -> bool)
    returns (p': Production, queue': Grammar, used': set<string>)
    requires Sound(g, out + [p] + queue, used)
    ensures Sound(g, out + [p'] + queue', used') && p'.name == p.name && queue <= queue'
    ensures Decided(p'.alts, g, disjoint)
    ensures QueueWeight(queue', BodyMax(g)) < QueueWeight(queue, BodyMax(g)) + AltsWeight(p.alts, BodyMax(g))
  {
    hide Sound, Smaller, Weight, Decided, BodyMax, NonEmptyCount, MaxSize, FirstSize, QueueWeight;
    hide FirstRound, LaterRound;
    ghost var body, n, s, most := BodyMax(g), NonEmptyCount(p.alts), FirstSize(p.alts), MaxSize(p.alts);
    ghost var r := 0;
    p', queue', used' := p, queue, used;
    while true
      invariant Sound(g, out + [p'] + queue', used') && p'.name == p.name && queue <= queue'
      invariant NonEmptyCount(p'.alts) + r <= n && MaxSize(p'.alts) <= most + 3 * r
      invariant r == 0 ==> p' == p && queue' == queue
      invariant QueueWeight(queue', body)
        <= QueueWeight(queue, body) + (if r == 0 then 0 else FirstRound(n, s, most, body))
          + Repeated(r, LaterRound(n, most, body))
      decreases NonEmptyCount(p'.alts)
    {
      var step;
      ghost var p0, queue0 := p', queue';
      step, p', queue', used' := FactorRound(g, out, p', queue', used', disjoint);
      if step.None? {
        break;
      }
      RoundWeight(p0.alts, step.value, queue0, r, n, s, most, body);
      r := r + 1;
    }
    WeightSplits(n, s, most, body);
    RepeatedMono(r, n, LaterRound(n, most, body), LaterRound(n, most, body));
  }

  lemma StartSound(g: Grammar)
    requires DistinctNames(g)
    ensures Sound(g, g, NameSet(g))
  {
    forall i | 0 <= i < |g| ensures g[i] in g {
    }
  }

  ghost predicate AllDecided(out: Grammar, g: Grammar, disjoint: (Element, Element) -> bool) {
    forall i :: 0 <= i < |out| ==> Decided(out[i].alts, g, disjoint)
  }

  /** The rule at the head of the queue factored and put out, its helpers queued at the
      end. */
  method FactorNext(g: Grammar, out: Grammar, queue: Grammar, used: set<string>, disjoint: (Element, Element) -> bool)
    returns (out': Grammar, queue': Grammar, used': set<string>)
    requires queue != [] && Sound(g, out + queue, used) && Leads(g, out + queue) && AllDecided(out, g, disjoint)
    ensures Sound(g, out' + queue', used') && Leads(g, out' + queue') && AllDecided(out', g, disjoint)
    ensures QueueWeight(queue', BodyMax(g)) < QueueWeight(queue, BodyMax(g))
  {
    var p, rest := queue[0], queue[1..];
    FirstQueued(out, queue, BodyMax(g));
    hide Sound, Leads, Decided, AllDecided, BodyMax, AltsWeight, QueueWeight;
    var p';
    p', queue', used' := FactorRule(g, out, p, rest, used, disjoint);
    StillLeads(g, out, p, p', rest, queue');
    OneMoreDecided(out, p', g, disjoint);
    out' := out + [p'];
  }

  lemma FirstQueued(out: Grammar, queue: Grammar, body: nat)
    requires queue != []
    ensures out + queue == out + [queue[0]] + queue[1..]
    ensures QueueWeight(queue, body) == AltsWeight(queue[0].alts, body) + QueueWeight(queue[1..], body)
  {
  }

  lemma OneMoreDecided(out: Grammar, p: Production, g: Grammar, disjoint: (Element, Element) -> bool)
    requires AllDecided(out, g, disjoint) && Decided(p.alts, g, disjoint)
    ensures AllDecided(out + [p], g, disjoint)
  {
    hide Decided;
  }

  /** Every rule derives all the words it did and, unless a helper has taken the name of a
      rule that some reference misses, exactly those, whatever `disjoint` lets a run skip
      over; and the worklist comes to its end. */
  method LeftFactor(g: Grammar, disjoint: (Element, Element) -> bool) returns (r: Grammar)
    requires DistinctNames(g)
    ensures DistinctNames(r) && Leads(g, r) && NameSet(g) <= NameSet(r)
    ensures Language(g) <= Language(r) && (NoneTaken(g, r) ==> KeptWords(g, r))
    ensures (forall n :: n in Dangling(g) ==> !FactName(n)) ==> KeptWords(g, r)
    ensures forall n :: n in NameSet(r) ==> n in NameSet(g) || FactName(n)
    ensures Resolved(r, Scope(g, NameSet(r)))
    ensures AllDecided(r, g, disjoint)
  {
    hide FactName, Scope, KeptWords;
    var queue, used := g, NameSet(g);
    r := [];
    StartSound(g);
    assert r + queue == g;
    while queue != []
      invariant Sound(g, r + queue, used) && Leads(g, r + queue) && AllDecided(r, g, disjoint)
      decreases QueueWeight(queue, BodyMax(g))
    {
      r, queue, used := FactorNext(g, r, queue, used, disjoint);
    }
    assert r + queue == r;
  }

  /** The rules of `g` come first, in their order. */
  ghost predicate Leads(g: Grammar, cur: Grammar) {
    |g| <= |cur| && forall i :: 0 <= i < |g| ==> cur[i].name == g[i].name
  }

  lemma StillLeads(g: Grammar, out: Grammar, p: Production, p': Production, rest: Grammar, queue: Grammar)
    requires Leads(g, out + [p] + rest) && p'.name == p.name && rest <= queue
    ensures Leads(g, out + [p'] + queue)
  {
    var before, after := out + [p] + rest, out + [p'] + queue;
    forall i | 0 <= i < |g| ensures after[i].name == g[i].name {
      assert before[i].name == after[i].name;
    }
  }
}
