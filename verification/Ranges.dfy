/** Character coverages as lists of spans, and their partition into atoms no two of
    which share a character. */
module Ranges {

  datatype Range = Range(lo: int, hi: int)

  type Span = r: Range | r.lo <= r.hi witness Range(0, 0)

  predicate InSpan(c: int, r: Span) {
    r.lo <= c <= r.hi
  }

  /** The character is covered. */
  ghost predicate In(c: int, rs: seq<Span>) {
    exists i :: 0 <= i < |rs| && InSpan(c, rs[i])
  }

  ghost predicate SameCover(a: seq<Span>, b: seq<Span>) {
    forall c :: In(c, a) <==> In(c, b)
  }

  /** Sorted, and with a gap after each span. */
  predicate Normal(rs: seq<Span>) {
    forall i, j :: 0 <= i < j < |rs| ==> rs[i].hi + 1 < rs[j].lo
  }

  // ---- sorting ----

  predicate Before(a: Span, b: Span) {
    a.lo < b.lo || (a.lo == b.lo && a.hi <= b.hi)
  }

  predicate Sorted(rs: seq<Span>) {
    forall i, j :: 0 <= i < j < |rs| ==> Before(rs[i], rs[j])
  }

  method Sort(rs: seq<Span>) returns (out: seq<Span>)
    ensures Sorted(out) && SameCover(out, rs) && |out| == |rs|
  {
    out := [];
    for k := 0 to |rs|
      invariant |out| == k && Sorted(out) && SameCover(out, rs[..k])
    {
      var i := |out|;
      while i > 0 && !Before(out[i - 1], rs[k])
        invariant 0 <= i <= |out|
        invariant forall j :: i <= j < |out| ==> Before(rs[k], out[j])
      {
        i := i - 1;
      }
      InsertCover(out, i, rs[k], rs[..k]);
      assert rs[..k + 1] == rs[..k] + [rs[k]];
      out := out[..i] + [rs[k]] + out[i..];
    }
    assert rs[..|rs|] == rs;
  }

  lemma InCat(c: int, a: seq<Span>, b: seq<Span>)
    ensures In(c, a + b) <==> In(c, a) || In(c, b)
  {
    if In(c, a) {
      var i :| 0 <= i < |a| && InSpan(c, a[i]);
      assert (a + b)[i] == a[i];
    }
    if In(c, b) {
      var i :| 0 <= i < |b| && InSpan(c, b[i]);
      assert (a + b)[|a| + i] == b[i];
    }
  }

  lemma InsertCover(out: seq<Span>, i: nat, r: Span, done: seq<Span>)
    requires i <= |out| && SameCover(out, done)
    ensures SameCover(out[..i] + [r] + out[i..], done + [r])
  {
    assert out == out[..i] + out[i..];
    forall c ensures In(c, out[..i] + [r] + out[i..]) <==> In(c, done + [r]) {
      InCat(c, out[..i] + [r], out[i..]);
      InCat(c, out[..i], [r]);
      InCat(c, out[..i], out[i..]);
      InCat(c, done, [r]);
    }
  }

  // ---- normalising ----

  /** Sorted spans merged where they touch or overlap. */
  method NormalizeRanges(rs: seq<Span>) returns (out: seq<Span>)
    ensures Normal(out) && SameCover(out, rs)
  {
    if |rs| < 2 {
      return rs;
    }
    var sorted := Sort(rs);
    out := [sorted[0]];
    for k := 1 to |sorted|
      invariant out != [] && Normal(out) && SameCover(out, sorted[..k])
      invariant out[|out| - 1].lo <= sorted[k - 1].lo
    {
      var cur, last := sorted[k], out[|out| - 1];
      assert Before(sorted[k - 1], cur);
      assert sorted[..k + 1] == sorted[..k] + [cur];
      if cur.lo <= last.hi + 1 {
        var merged: Span := if last.hi < cur.hi then Range(last.lo, cur.hi) else last;
        assert out == out[..|out| - 1] + [last];
        MergeCover(out[..|out| - 1], last, cur, merged, sorted[..k]);
        out := out[..|out| - 1] + [merged];
      } else {
        AppendCover(out, cur, sorted[..k]);
        out := out + [cur];
      }
    }
    assert sorted[..|sorted|] == sorted;
  }

  lemma AppendCover(out: seq<Span>, r: Span, done: seq<Span>)
    requires SameCover(out, done)
    ensures SameCover(out + [r], done + [r])
  {
    forall c ensures In(c, out + [r]) <==> In(c, done + [r]) {
      InCat(c, out, [r]);
      InCat(c, done, [r]);
    }
  }

  lemma InOne(c: int, r: Span)
    ensures In(c, [r]) <==> InSpan(c, r)
  {
    assert [r][0] == r;
  }

  lemma MergeCover(init: seq<Span>, last: Span, cur: Span, merged: Span, done: seq<Span>)
    requires SameCover(init + [last], done) && last.lo <= cur.lo <= last.hi + 1
    requires merged == if last.hi < cur.hi then Range(last.lo, cur.hi) else last
    ensures SameCover(init + [merged], done + [cur])
  {
    forall c ensures In(c, init + [merged]) <==> In(c, done + [cur]) {
      InCat(c, init, [merged]);
      InCat(c, init, [last]);
      InCat(c, done, [cur]);
      InOne(c, merged);
      InOne(c, last);
      InOne(c, cur);
    }
  }

  lemma GapAfterHead(rs: seq<Span>)
    requires Normal(rs) && rs != []
    ensures !In(rs[0].hi + 1, rs)
  {
  }

  lemma NormalHead(a: seq<Span>, b: seq<Span>)
    requires Normal(a) && Normal(b) && SameCover(a, b) && a != [] && b != []
    ensures a[0].lo <= b[0].lo && (a[0].lo == b[0].lo ==> a[0].hi <= b[0].hi)
  {
    assert InSpan(b[0].lo, b[0]) && In(b[0].lo, b);
    var i :| 0 <= i < |a| && InSpan(b[0].lo, a[i]);
    var c := b[0].hi + 1;
    GapAfterHead(b);
    assert InSpan(c, a[0]) ==> In(c, a);
  }

  lemma TailCover(a: seq<Span>, b: seq<Span>)
    requires Normal(a) && Normal(b) && SameCover(a, b) && a != [] && b != [] && a[0] == b[0]
    ensures SameCover(a[1..], b[1..])
  {
    assert a == [a[0]] + a[1..] && b == [b[0]] + b[1..];
    forall c ensures In(c, a[1..]) <==> In(c, b[1..]) {
      InCat(c, [a[0]], a[1..]);
      InCat(c, [b[0]], b[1..]);
      InOne(c, a[0]);
    }
  }

  /** A coverage has one normal form, so normalising depends on nothing but the
      characters covered. */
  lemma {:induction false} NormalUnique(a: seq<Span>, b: seq<Span>)
    requires Normal(a) && Normal(b) && SameCover(a, b)
    ensures a == b
    decreases |a|
  {
    if a == [] || b == [] {
      if a != [] {
        assert InSpan(a[0].lo, a[0]) && In(a[0].lo, a);
      } else if b != [] {
        assert InSpan(b[0].lo, b[0]) && In(b[0].lo, b);
      }
    } else {
      NormalHead(a, b);
      NormalHead(b, a);
      TailCover(a, b);
      NormalUnique(a[1..], b[1..]);
    }
  }

  // ---- do two coverages share a character ----

  /** The sweep from places `i` and `j`: the side whose span ends first moves on. */
  function Sweep(a: seq<Span>, b: seq<Span>, i: nat, j: nat): bool
    decreases |a| + |b| - i - j
  {
    if i < |a| && j < |b| then
      if a[i].lo <= b[j].hi && b[j].lo <= a[i].hi then true
      else if a[i].hi < b[j].hi then Sweep(a, b, i + 1, j)
      else Sweep(a, b, i, j + 1)
    else false
  }

  ghost predicate Shares(a: seq<Span>, b: seq<Span>) {
    exists c :: In(c, a) && In(c, b)
  }

  method CharRangesOverlap(a: seq<Span>, b: seq<Span>) returns (r: bool)
    ensures r == Sweep(a, b, 0, 0)
  {
    var i, j := 0, 0;
    while i < |a| && j < |b|
      invariant i <= |a| && j <= |b|
      invariant Sweep(a, b, i, j) == Sweep(a, b, 0, 0)
      decreases |a| + |b| - i - j
    {
      if a[i].lo <= b[j].hi && b[j].lo <= a[i].hi {
        return true;
      }
      if a[i].hi < b[j].hi {
        i := i + 1;
      } else {
        j := j + 1;
      }
    }
    return false;
  }

  /** What the sweep finds is there, whatever the order of the spans. */
  lemma {:induction false} SweepSound(a: seq<Span>, b: seq<Span>, i: nat, j: nat)
    requires Sweep(a, b, i, j)
    ensures Shares(a, b)
    decreases |a| + |b| - i - j
  {
    if a[i].lo <= b[j].hi && b[j].lo <= a[i].hi {
      var c := if a[i].lo <= b[j].lo then b[j].lo else a[i].lo;
      assert InSpan(c, a[i]) && InSpan(c, b[j]);
      assert In(c, a) && In(c, b);
    } else if a[i].hi < b[j].hi {
      SweepSound(a, b, i + 1, j);
    } else {
      SweepSound(a, b, i, j + 1);
    }
  }

  /** On the sides it was written for, where no span brings in a character that lies
      below an earlier span unless an earlier span has it too.  Sorting by the low
      bound is enough for that. */
  ghost predicate Climbs(a: seq<Span>) {
    forall c, m, k :: 0 <= m < k < |a| && InSpan(c, a[k]) && c < a[m].lo ==> In(c, a[..k])
  }

  predicate LowSorted(a: seq<Span>) {
    forall m, k :: 0 <= m < k < |a| ==> a[m].lo <= a[k].lo
  }

  lemma LowSortedClimbs(a: seq<Span>)
    requires LowSorted(a)
    ensures Climbs(a)
  {
  }

  lemma NormalClimbs(a: seq<Span>)
    requires Normal(a)
    ensures LowSorted(a) && Climbs(a)
  {
  }

  /** The first span that holds a covered character. */
  lemma {:induction false} FirstHolds(a: seq<Span>, c: int) returns (k: nat)
    requires In(c, a)
    ensures k < |a| && InSpan(c, a[k]) && !In(c, a[..k])
    decreases |a|
  {
    var init := a[..|a| - 1];
    assert a == init + [a[|a| - 1]];
    if In(c, init) {
      k := FirstHolds(init, c);
      assert a[..k] == init[..k];
    } else {
      InCat(c, init, [a[|a| - 1]]);
      InOne(c, a[|a| - 1]);
      k := |a| - 1;
    }
  }

  /** Every earlier span ends before the character. */
  lemma EarlierBelow(a: seq<Span>, c: int, k: nat)
    requires Climbs(a) && k < |a| && InSpan(c, a[k]) && !In(c, a[..k])
    ensures forall m :: 0 <= m < k ==> a[m].hi < c
  {
    forall m | 0 <= m < k ensures a[m].hi < c {
      assert a[..k][m] == a[m];
    }
  }

  /** A shared character is found when the spans before those that hold it end
      before it. */
  lemma {:induction false} SweepFinds(a: seq<Span>, b: seq<Span>, i: nat, j: nat, k: nat, l: nat, c: int)
    requires i <= k < |a| && j <= l < |b| && InSpan(c, a[k]) && InSpan(c, b[l])
    requires (forall m :: 0 <= m < k ==> a[m].hi < c) && (forall m :: 0 <= m < l ==> b[m].hi < c)
    ensures Sweep(a, b, i, j)
    decreases |a| + |b| - i - j
  {
    if a[i].lo <= b[j].hi && b[j].lo <= a[i].hi {
    } else if a[i].hi < b[j].hi {
      SweepFinds(a, b, i + 1, j, k, l, c);
    } else {
      SweepFinds(a, b, i, j + 1, k, l, c);
    }
  }

  ghost predicate Decides(a: seq<Span>, b: seq<Span>) {
    Sweep(a, b, 0, 0) <==> Shares(a, b)
  }

  /** When both sides climb, the sweep finds exactly what they share. */
  lemma ClimbsDecides(a: seq<Span>, b: seq<Span>)
    requires Climbs(a) && Climbs(b)
    ensures Decides(a, b)
  {
    if Sweep(a, b, 0, 0) {
      SweepSound(a, b, 0, 0);
    }
    if Shares(a, b) {
      var c :| In(c, a) && In(c, b);
      var k := FirstHolds(a, c);
      var l := FirstHolds(b, c);
      EarlierBelow(a, c, k);
      EarlierBelow(b, c, l);
      SweepFinds(a, b, 0, 0, k, l, c);
    }
  }

  /** A character that no span has before one that lies above it is passed over. */
  lemma {:induction false} SweepMissesLeft(a: seq<Span>, c: int, i: nat, m: nat)
    requires i <= m < |a| && c < a[m].lo && !In(c, a[..m])
    ensures !Sweep(a, [Range(c, c)], i, 0)
    decreases m - i
  {
    assert !Sweep(a, [Range(c, c)], i, 1);
    if i < m {
      assert a[..m][i] == a[i];
      SweepMissesLeft(a, c, i + 1, m);
    }
  }

  lemma {:induction false} SweepMissesRight(b: seq<Span>, c: int, j: nat, m: nat)
    requires j <= m < |b| && c < b[m].lo && !In(c, b[..m])
    ensures !Sweep([Range(c, c)], b, 0, j)
    decreases m - j
  {
    assert !Sweep([Range(c, c)], b, 1, j);
    if j < m {
      assert b[..m][j] == b[j];
      SweepMissesRight(b, c, j + 1, m);
    }
  }

  lemma OneIsNormal(c: int)
    ensures Normal([Range(c, c)])
  {
  }

  lemma NotYet(a: seq<Span>, c: int, m: nat, k: nat)
    requires m < k < |a| && !In(c, a[..k])
    ensures !In(c, a[..m])
  {
    assert a[..k] == a[..m] + a[m..k];
    InCat(c, a[..m], a[m..k]);
  }

  /** The exact condition on either side: it climbs if and only if the sweep is right
      against every coverage in normal form on the other. */
  lemma DecidesExactly(a: seq<Span>)
    ensures Climbs(a) <==> forall b: seq<Span> :: Normal(b) ==> Decides(a, b)
    ensures Climbs(a) <==> forall b: seq<Span> :: Normal(b) ==> Decides(b, a)
  {
    if Climbs(a) {
      forall b: seq<Span> | Normal(b) ensures Decides(a, b) && Decides(b, a) {
        NormalClimbs(b);
        ClimbsDecides(a, b);
        ClimbsDecides(b, a);
      }
    } else {
      var c, m, k :| 0 <= m < k < |a| && InSpan(c, a[k]) && c < a[m].lo && !In(c, a[..k]);
      var one: seq<Span> := [Range(c, c)];
      OneIsNormal(c);
      NotYet(a, c, m, k);
      SweepMissesLeft(a, c, 0, m);
      SweepMissesRight(a, c, 0, m);
      InOne(c, one[0]);
      assert In(c, a) && In(c, one);
      assert Shares(a, one) && Shares(one, a);
      assert !Decides(a, one) && !Decides(one, a);
    }
  }

  lemma OverlapExact(a: seq<Span>, b: seq<Span>)
    requires Normal(a) && Normal(b)
    ensures Sweep(a, b, 0, 0) <==> Shares(a, b)
  {
    NormalClimbs(a);
    NormalClimbs(b);
    ClimbsDecides(a, b);
  }

  /** Sorting by the low bound is enough; merging is not needed. */
  lemma LowSortedExact(a: seq<Span>, b: seq<Span>)
    requires LowSorted(a) && LowSorted(b)
    ensures Sweep(a, b, 0, 0) <==> Shares(a, b)
  {
    LowSortedClimbs(a);
    LowSortedClimbs(b);
    ClimbsDecides(a, b);
  }

  /** The spans the walk returns for the group ( "z" / "a" ), literals that tell case
      apart, against those of "a": the shared character is passed over, and the group
      is just what the condition shuts out. */
  lemma GroupPassedOver()
    ensures var group: seq<Span> := [Range('z' as int, 'z' as int), Range('a' as int, 'a' as int)];
            var letter: seq<Span> := [Range('a' as int, 'a' as int)];
            && In('a' as int, group) && In('a' as int, letter) && !Sweep(group, letter, 0, 0)
            && !Climbs(group) && Normal(letter)
  {
    var c := 'a' as int;
    var group: seq<Span>, letter: seq<Span> := [Range('z' as int, 'z' as int), Range(c, c)], [Range(c, c)];
    assert InSpan(c, group[1]) && InSpan(c, letter[0]);
    assert group[..0] == [] && !In(c, group[..0]);
    SweepMissesLeft(group, c, 0, 0);
    assert group[..1] == [group[0]];
    InOne(c, group[0]);
  }

  // ---- the partition ----

  predicate Increasing(ps: seq<int>) {
    forall i, j :: 0 <= i < j < |ps| ==> ps[i] < ps[j]
  }

  ghost predicate IsCutOf(p: int, rs: seq<Span>) {
    exists i :: 0 <= i < |rs| && (p == rs[i].lo || p == rs[i].hi + 1)
  }

  ghost predicate IsCut(p: int, coverages: seq<seq<Span>>) {
    exists k :: 0 <= k < |coverages| && IsCutOf(p, coverages[k])
  }

  /** A cut point put in its place, unless it is there already. */
  method AddPoint(ps: seq<int>, p: int) returns (out: seq<int>)
    requires Increasing(ps)
    ensures Increasing(out) && forall q :: q in out <==> q in ps || q == p
  {
    if p in ps {
      return ps;
    }
    var i := |ps|;
    while i > 0 && ps[i - 1] > p
      invariant 0 <= i <= |ps| && forall j :: i <= j < |ps| ==> ps[j] > p
    {
      i := i - 1;
    }
    InsertPoint(ps, i, p);
    out := ps[..i] + [p] + ps[i..];
  }

  lemma InsertPoint(ps: seq<int>, i: nat, p: int)
    requires Increasing(ps) && i <= |ps| && (forall j :: i <= j < |ps| ==> ps[j] > p) && (i > 0 ==> ps[i - 1] < p)
    ensures Increasing(ps[..i] + [p] + ps[i..])
    ensures forall q :: q in ps[..i] + [p] + ps[i..] <==> q in ps || q == p
  {
    assert forall j :: 0 <= j < i ==> ps[j] <= ps[i - 1];
    InsertIncreasing(ps[..i], p, ps[i..]);
    assert ps == ps[..i] + ps[i..];
    InsertMembers(ps[..i], p, ps[i..]);
  }

  lemma InsertIncreasing(u: seq<int>, p: int, v: seq<int>)
    requires Increasing(u) && Increasing(v) && (forall x :: x in u ==> x < p) && (forall x :: x in v ==> p < x)
    ensures Increasing(u + [p] + v)
  {
    var out := u + [p] + v;
    forall j, k | 0 <= j < k < |out| ensures out[j] < out[k] {
      assert j < |u| ==> out[j] == u[j] && out[j] in u;
      assert k > |u| ==> out[k] == v[k - |u| - 1] && out[k] in v;
      assert k < |u| ==> out[k] == u[k];
      assert j > |u| ==> out[j] == v[j - |u| - 1];
    }
  }

  lemma InsertMembers(u: seq<int>, p: int, v: seq<int>)
    ensures forall q :: q in u + [p] + v <==> q in u + v || q == p
  {
  }

  method CutsOf(ps: seq<int>, rs: seq<Span>) returns (out: seq<int>)
    requires Increasing(ps)
    ensures Increasing(out) && forall q :: q in out <==> q in ps || IsCutOf(q, rs)
  {
    out := ps;
    for i := 0 to |rs|
      invariant Increasing(out) && forall q :: q in out <==> q in ps || IsCutOf(q, rs[..i])
    {
      out := AddPoint(out, rs[i].lo);
      out := AddPoint(out, rs[i].hi + 1);
      CutNext(rs, i);
    }
    assert rs[..|rs|] == rs;
  }

  lemma CutNext(rs: seq<Span>, i: nat)
    requires i < |rs|
    ensures forall q :: IsCutOf(q, rs[..i + 1]) <==> IsCutOf(q, rs[..i]) || q == rs[i].lo || q == rs[i].hi + 1
  {
    forall q ensures IsCutOf(q, rs[..i + 1]) <==> IsCutOf(q, rs[..i]) || q == rs[i].lo || q == rs[i].hi + 1 {
      if IsCutOf(q, rs[..i]) {
        var j :| 0 <= j < i && (q == rs[..i][j].lo || q == rs[..i][j].hi + 1);
        assert rs[..i + 1][j] == rs[..i][j];
      }
      assert rs[..i + 1][i] == rs[i];
    }
  }

  method CutPoints(coverages: seq<seq<Span>>) returns (out: seq<int>)
    ensures Increasing(out) && forall q :: q in out <==> IsCut(q, coverages)
  {
    out := [];
    for k := 0 to |coverages|
      invariant Increasing(out) && forall q :: q in out <==> IsCut(q, coverages[..k])
    {
      out := CutsOf(out, coverages[k]);
      assert coverages[..k + 1] == coverages[..k] + [coverages[k]];
    }
    assert coverages[..|coverages|] == coverages;
  }

  /** Some span of the coverage holds the whole piece. */
  predicate Covers(rs: seq<Span>, lo: int, hi: int) {
    exists i :: 0 <= i < |rs| && rs[i].lo <= lo && hi <= rs[i].hi
  }

  /** No cut falls inside the piece. */
  ghost predicate Uncut(lo: int, hi: int, coverages: seq<seq<Span>>) {
    forall p :: lo < p <= hi ==> !IsCut(p, coverages)
  }

  /** A piece with no cut inside is in a coverage whole or not at all. */
  lemma WholeOrNone(lo: int, hi: int, coverages: seq<seq<Span>>, k: nat, c: int)
    requires Uncut(lo, hi, coverages) && k < |coverages| && lo <= c <= hi
    ensures In(c, coverages[k]) <==> Covers(coverages[k], lo, hi)
  {
    if In(c, coverages[k]) {
      var i :| 0 <= i < |coverages[k]| && InSpan(c, coverages[k][i]);
      var r := coverages[k][i];
      assert IsCutOf(r.lo, coverages[k]) && IsCutOf(r.hi + 1, coverages[k]);
      assert IsCut(r.lo, coverages) && IsCut(r.hi + 1, coverages);
    }
    if Covers(coverages[k], lo, hi) {
      var i :| 0 <= i < |coverages[k]| && coverages[k][i].lo <= lo && hi <= coverages[k][i].hi;
      assert InSpan(c, coverages[k][i]);
    }
  }

  /** An atom is a piece between neighbouring cuts that some coverage holds. */
  ghost predicate IsAtom(a: Span, coverages: seq<seq<Span>>) {
    && IsCut(a.lo, coverages) && IsCut(a.hi + 1, coverages) && Uncut(a.lo, a.hi, coverages)
    && exists k :: 0 <= k < |coverages| && Covers(coverages[k], a.lo, a.hi)
  }

  ghost predicate Ordered(atoms: seq<Span>) {
    forall i, j :: 0 <= i < j < |atoms| ==> atoms[i].hi < atoms[j].lo
  }

  ghost predicate Held(coverages: seq<seq<Span>>, lo: int, hi: int) {
    exists k :: 0 <= k < |coverages| && Covers(coverages[k], lo, hi)
  }

  method HeldBySome(coverages: seq<seq<Span>>, lo: int, hi: int) returns (covered: bool)
    ensures covered <==> Held(coverages, lo, hi)
  {
    for k := 0 to |coverages|
      invariant forall j :: 0 <= j < k ==> !Covers(coverages[j], lo, hi)
    {
      for i := 0 to |coverages[k]|
        invariant forall j :: 0 <= j < i ==> !(coverages[k][j].lo <= lo && hi <= coverages[k][j].hi)
      {
        if coverages[k][i].lo <= lo && hi <= coverages[k][i].hi {
          return true;
        }
      }
    }
    return false;
  }

  ghost predicate PieceKept(points: seq<int>, i: int, coverages: seq<seq<Span>>, atoms: seq<Span>)
    requires Increasing(points) && 0 <= i < |points| - 1
  {
    Held(coverages, points[i], points[i + 1] - 1) ==> Range(points[i], points[i + 1] - 1) in atoms
  }

  /** The piece between two neighbouring cuts, kept when some coverage holds it. */
  method AddPiece(points: seq<int>, i: nat, coverages: seq<seq<Span>>, atoms0: seq<Span>) returns (atoms: seq<Span>)
    requires Increasing(points) && i + 1 < |points| && forall q :: q in points <==> IsCut(q, coverages)
    requires Ordered(atoms0) && forall a :: a in atoms0 ==> IsAtom(a, coverages) && a.hi < points[i]
    requires forall j :: 0 <= j < i ==> PieceKept(points, j, coverages, atoms0)
    ensures Ordered(atoms) && forall a :: a in atoms ==> IsAtom(a, coverages) && a.hi < points[i + 1]
    ensures forall j :: 0 <= j < i + 1 ==> PieceKept(points, j, coverages, atoms)
  {
    atoms := atoms0;
    var lo, hi := points[i], points[i + 1] - 1;
    var covered := HeldBySome(coverages, lo, hi);
    if covered {
      PieceIsAtom(points, i, coverages);
      PiecesKeptMore(points, i, coverages, atoms, Range(lo, hi));
      atoms := atoms + [Range(lo, hi)];
    }
  }

  /** Atoms: the pieces between neighbouring cut points that some coverage holds. */
  method PartitionRanges(coverages: seq<seq<Span>>) returns (atoms: seq<Span>)
    ensures Ordered(atoms)
    ensures forall a :: a in atoms ==> IsAtom(a, coverages)
    ensures forall k, c :: 0 <= k < |coverages| && In(c, coverages[k]) ==> In(c, atoms)
  {
    var points := CutPoints(coverages);
    atoms := [];
    var i := 0;
    while i + 1 < |points|
      invariant i == 0 || i < |points|
      invariant Ordered(atoms)
      invariant forall a :: a in atoms ==> IsAtom(a, coverages) && a.hi < points[i]
      invariant forall j :: 0 <= j < i ==> PieceKept(points, j, coverages, atoms)
    {
      atoms := AddPiece(points, i, coverages, atoms);
      i := i + 1;
    }
    forall k, c | 0 <= k < |coverages| && In(c, coverages[k]) ensures In(c, atoms) {
      CoveredInAtom(points, coverages, atoms, k, c);
    }
  }

  lemma PiecesKeptMore(points: seq<int>, i: nat, coverages: seq<seq<Span>>, atoms: seq<Span>, a: Span)
    requires Increasing(points) && i < |points| - 1 && a == Range(points[i], points[i + 1] - 1)
    requires forall j :: 0 <= j < i ==> PieceKept(points, j, coverages, atoms)
    ensures forall j :: 0 <= j < i + 1 ==> PieceKept(points, j, coverages, atoms + [a])
  {
    forall j | 0 <= j < i + 1 ensures PieceKept(points, j, coverages, atoms + [a]) {
      if j < i {
        assert PieceKept(points, j, coverages, atoms);
      }
    }
  }

  lemma PieceIsAtom(points: seq<int>, i: nat, coverages: seq<seq<Span>>)
    requires Increasing(points) && i + 1 < |points| && forall q :: q in points <==> IsCut(q, coverages)
    requires Held(coverages, points[i], points[i + 1] - 1)
    ensures IsAtom(Range(points[i], points[i + 1] - 1), coverages)
  {
    assert points[i] in points && points[i + 1] in points;
    forall p | points[i] < p <= points[i + 1] - 1 ensures !IsCut(p, coverages) {
      assert p !in points;
    }
  }

  /** The neighbouring cuts a character stands between. */
  lemma {:induction false} Between(points: seq<int>, j: nat, c: int) returns (i: nat)
    requires Increasing(points) && j < |points| && points[0] <= c < points[j]
    ensures i + 1 < |points| && points[i] <= c < points[i + 1]
    decreases j
  {
    if c < points[j - 1] {
      i := Between(points, j - 1, c);
    } else {
      i := j - 1;
    }
  }

  lemma CoveredInAtom(points: seq<int>, coverages: seq<seq<Span>>, atoms: seq<Span>, k: nat, c: int)
    requires Increasing(points) && forall q :: q in points <==> IsCut(q, coverages)
    requires forall j :: 0 <= j < |points| - 1 ==> PieceKept(points, j, coverages, atoms)
    requires k < |coverages| && In(c, coverages[k])
    ensures In(c, atoms)
  {
    var l :| 0 <= l < |coverages[k]| && InSpan(c, coverages[k][l]);
    var r := coverages[k][l];
    assert IsCutOf(r.lo, coverages[k]) && IsCutOf(r.hi + 1, coverages[k]);
    assert IsCut(r.lo, coverages) && IsCut(r.hi + 1, coverages);
    assert r.lo in points && r.hi + 1 in points;
    var j :| 0 <= j < |points| && points[j] == r.hi + 1;
    var i := Between(points, j, c);
    PieceUncut(points, i, coverages);
    WholeOrNone(points[i], points[i + 1] - 1, coverages, k, c);
    assert Held(coverages, points[i], points[i + 1] - 1);
    assert PieceKept(points, i, coverages, atoms);
    var atom: Span := Range(points[i], points[i + 1] - 1);
    var m :| 0 <= m < |atoms| && atoms[m] == atom;
    assert InSpan(c, atoms[m]);
  }

  lemma PieceUncut(points: seq<int>, i: nat, coverages: seq<seq<Span>>)
    requires Increasing(points) && i + 1 < |points| && forall q :: q in points <==> IsCut(q, coverages)
    ensures Uncut(points[i], points[i + 1] - 1, coverages)
  {
    forall p | points[i] < p <= points[i + 1] - 1 ensures !IsCut(p, coverages) {
      assert p !in points;
    }
  }

  // ---- what the partition is for ----

  /** The atoms that make up a coverage are exactly its characters. */
  lemma CoverageIsAtoms(coverages: seq<seq<Span>>, atoms: seq<Span>, k: nat, c: int)
    requires forall a :: a in atoms ==> IsAtom(a, coverages)
    requires forall j, d :: 0 <= j < |coverages| && In(d, coverages[j]) ==> In(d, atoms)
    requires k < |coverages|
    ensures In(c, coverages[k]) <==> exists a :: a in atoms && InSpan(c, a) && Covers(coverages[k], a.lo, a.hi)
  {
    if In(c, coverages[k]) {
      assert In(c, atoms);
      var m :| 0 <= m < |atoms| && InSpan(c, atoms[m]);
      assert atoms[m] in atoms;
      WholeOrNone(atoms[m].lo, atoms[m].hi, coverages, k, c);
    }
    if exists a :: a in atoms && InSpan(c, a) && Covers(coverages[k], a.lo, a.hi) {
      var a :| a in atoms && InSpan(c, a) && Covers(coverages[k], a.lo, a.hi);
      WholeOrNone(a.lo, a.hi, coverages, k, c);
    }
  }

  lemma NormalEdge(rs: seq<Span>, p: int)
    requires Normal(rs) && IsCutOf(p, rs)
    ensures In(p, rs) <==> !In(p - 1, rs)
  {
    var i :| 0 <= i < |rs| && (p == rs[i].lo || p == rs[i].hi + 1);
    if p == rs[i].lo {
      assert InSpan(p, rs[i]);
      assert forall j :: 0 <= j < |rs| ==> !InSpan(p - 1, rs[j]);
    } else {
      assert InSpan(p - 1, rs[i]);
      assert forall j :: 0 <= j < |rs| ==> !InSpan(p, rs[j]);
    }
  }

  /** The partition is no finer than it must be: two atoms that touch differ in some
      coverage. */
  lemma AtomsDiffer(coverages: seq<seq<Span>>, a: Span, b: Span) returns (k: nat)
    requires (forall i :: 0 <= i < |coverages| ==> Normal(coverages[i]))
    requires IsAtom(a, coverages) && IsAtom(b, coverages) && a.hi + 1 == b.lo
    ensures k < |coverages| && (Covers(coverages[k], a.lo, a.hi) <==> !Covers(coverages[k], b.lo, b.hi))
  {
    k :| 0 <= k < |coverages| && IsCutOf(b.lo, coverages[k]);
    NormalEdge(coverages[k], b.lo);
    WholeOrNone(a.lo, a.hi, coverages, k, a.hi);
    WholeOrNone(b.lo, b.hi, coverages, k, b.lo);
  }

  // ---- the classes of a grammar ----

  ghost predicate AllNormal(coverages: seq<seq<Span>>) {
    forall i :: 0 <= i < |coverages| ==> Normal(coverages[i])
  }

  /** Another class can match one of the class's characters. */
  ghost predicate Contested(coverages: seq<seq<Span>>, k: int)
    requires 0 <= k < |coverages|
  {
    exists j :: 0 <= j < |coverages| && j != k && Shares(coverages[k], coverages[j])
  }

  method IsContested(coverages: seq<seq<Span>>, k: nat) returns (hit: bool)
    requires AllNormal(coverages) && k < |coverages|
    ensures hit <==> Contested(coverages, k)
  {
    for j := 0 to |coverages|
      invariant forall i :: 0 <= i < j && i != k ==> !Shares(coverages[k], coverages[i])
    {
      if j != k {
        var overlap := CharRangesOverlap(coverages[k], coverages[j]);
        OverlapExact(coverages[k], coverages[j]);
        if overlap {
          return true;
        }
      }
    }
    return false;
  }

  /** Contested classes give up their matchers for shared atoms; the others keep
      theirs. */
  method AnalyseClasses(coverages: seq<seq<Span>>) returns (contested: seq<bool>, chosen: seq<seq<Span>>,
      atoms: seq<Span>)
    requires AllNormal(coverages)
    ensures |contested| == |coverages| && forall k :: 0 <= k < |coverages| ==>
      (contested[k] <==> Contested(coverages, k))
    ensures forall x :: x in chosen <==> exists k :: 0 <= k < |coverages| && contested[k] && coverages[k] == x
    ensures Ordered(atoms) && forall a :: a in atoms ==> IsAtom(a, chosen)
    ensures forall k, c :: 0 <= k < |coverages| && contested[k] && In(c, coverages[k]) ==> In(c, atoms)
  {
    contested, chosen := [], [];
    for k := 0 to |coverages|
      invariant |contested| == k
      invariant forall i :: 0 <= i < k ==> (contested[i] <==> Contested(coverages, i))
      invariant forall x :: x in chosen <==> exists i :: 0 <= i < k && contested[i] && coverages[i] == x
    {
      var hit := IsContested(coverages, k);
      contested := contested + [hit];
      if hit {
        chosen := chosen + [coverages[k]];
      }
    }
    atoms := PartitionRanges(chosen);
    forall k, c | 0 <= k < |coverages| && contested[k] && In(c, coverages[k]) ensures In(c, atoms) {
      assert coverages[k] in chosen;
      var i :| 0 <= i < |chosen| && chosen[i] == coverages[k];
      assert In(c, chosen[i]);
    }
  }

  /** A character of a class that keeps its matcher matches no atom and no other
      class. */
  lemma UncontestedAlone(coverages: seq<seq<Span>>, chosen: seq<seq<Span>>, atoms: seq<Span>, k: nat, c: int)
    requires k < |coverages| && !Contested(coverages, k) && In(c, coverages[k])
    requires forall x :: x in chosen ==> exists j ::
      0 <= j < |coverages| && Contested(coverages, j) && coverages[j] == x
    requires forall a :: a in atoms ==> IsAtom(a, chosen)
    ensures !In(c, atoms)
    ensures forall j :: 0 <= j < |coverages| && j != k ==> !In(c, coverages[j])
  {
    forall j | 0 <= j < |coverages| && j != k ensures !In(c, coverages[j]) {
      assert !Shares(coverages[k], coverages[j]);
    }
    forall i | 0 <= i < |atoms| ensures !InSpan(c, atoms[i]) {
      assert IsAtom(atoms[i], chosen);
      var l :| 0 <= l < |chosen| && Covers(chosen[l], atoms[i].lo, atoms[i].hi);
      assert chosen[l] in chosen;
      var j :| 0 <= j < |coverages| && Contested(coverages, j) && coverages[j] == chosen[l];
      var m :| 0 <= m < |chosen[l]| && chosen[l][m].lo <= atoms[i].lo && atoms[i].hi <= chosen[l][m].hi;
      assert InSpan(c, atoms[i]) ==> InSpan(c, coverages[j][m]);
    }
  }
}
