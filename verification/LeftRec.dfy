/** Left-recursion elimination: the driver, its charges and its loops. */
module LeftRec {
  import opened Ir
  import opened Languages
  import opened Sizes
  import opened LeftRecSteps
  import opened LeftRecRuns
  import opened FreshNames
  import opened Reachability
  import opened LeadingOrder
  import opened CycleScan

  ghost predicate SameAlts(a: seq<Sequence>, b: seq<Sequence>) {
    forall m: Model :: AltsLang(a, m) == AltsLang(b, m)
  }

  predicate NoEmptyAlt(alts: seq<Sequence>) {
    forall i :: 0 <= i < |alts| ==> alts[i] != []
  }

  // ---- the charges ----

  function Floored(n: int): nat { if n < 0 then 0 else n }

  /** Despite the capped walk, accepts exactly when the split's growth fits. */
  method ChargeExpansion(alt: Sequence, added: nat) returns (r: Option<nat>)
    requires alt != [] && PresentOf(alt[0]).Some? && added <= MAX_ELEMENTS
    ensures r == if added + SplitGain(alt) <= MAX_ELEMENTS then Some(added + SplitGain(alt)) else None
  {
    var present := PresentOf(alt[0]).value;
    var remaining := MAX_ELEMENTS - added;
    var lead := ElemSize(alt[0]);
    var written := DeepSize(present + alt[1..], remaining + lead + 2);
    SeqSizeCat(present, alt[1..]);
    var gain := Floored(written + 1 - lead);
    if gain > remaining {
      return None;
    }
    return Some(added + gain);
  }

  /** Accepts exactly when the alternatives the substitution adds fit. */
  method ChargeSubstitution(target: seq<Sequence>, source: Production, gained: nat) returns (r: Option<nat>)
    requires gained <= MAX_EXPANSION
    ensures var gain := Led(target, source.name) * AltGain(|source.alts|);
      r == if gained + gain <= MAX_EXPANSION then Some(gained + gain) else None
  {
    var led := 0;
    for k := 0 to |target|
      invariant led + Led(target[k..], source.name) == Led(target, source.name)
    {
      if LeadsWith(target[k], source.name) {
        led := led + 1;
      }
    }
    var gain := led * AltGain(|source.alts|);
    if gain <= MAX_EXPANSION - gained {
      return Some(gained + gain);
    }
    return None;
  }

  lemma CopiesGrow(m: nat, tail: nat, held: nat)
    requires m > 1
    ensures m * (1 + tail) + held - 2 - tail >= tail + held
    ensures m * (1 + tail) >= 2 + 2 * tail
  {
  }

  lemma {:induction false} LedGain(alts: seq<Sequence>, source: Production)
    requires source.alts != [] && Led(alts, source.name) > 0
    ensures SubstituteGain(alts, source) >= SeqSize(Flatten(source.alts)) - 1
  {
    if LeadsWith(alts[0], source.name) {
      OneMore(|source.alts| - 1, 1 + SeqSize(alts[0][1..]));
    } else {
      LedGain(alts[1..], source);
    }
  }

  lemma CappedTailGain(alt: Sequence, source: Production, held: nat, tail: nat, room: nat)
    requires alt != [] && held == SeqSize(Flatten(source.alts))
    requires tail == if |source.alts| > 1 then Min(SeqSize(alt[1..]), room + 2) else 0
    ensures var gain := Floored(|source.alts| * (1 + tail) + held - (2 + tail));
      && (gain <= room <==> ReplaceGain(alt, source) <= room)
      && (gain <= room ==> gain == ReplaceGain(alt, source))
  {
    var m, t := |source.alts|, SeqSize(alt[1..]);
    if m > 1 {
      CopiesGrow(m, tail, held);
      CopiesGrow(m, t, held);
    } else if m == 0 {
      assert source.alts == [] && held == 0;
    }
  }

  /** Despite the capped walks, accepts exactly when the substitution's growth fits. */
  method ChargeElements(target: seq<Sequence>, source: Production, added: nat) returns (r: Option<nat>)
    requires added <= MAX_ELEMENTS
    ensures var gain := SubstituteGain(target, source);
      r == if added + gain <= MAX_ELEMENTS then Some(added + gain) else None
  {
    var remaining := MAX_ELEMENTS - added;
    var m := |source.alts|;
    var held := DeepSize(Flatten(source.alts), remaining + 2);
    if Led(target, source.name) > 0 && held > remaining + 1 {
      LedGain(target, source);
      return None;
    }
    if Led(target, source.name) == 0 {
      NoneLed(target, source);
      return Some(added);
    }
    var gain := 0;
    for k := 0 to |target|
      invariant gain + SubstituteGain(target[k..], source) == SubstituteGain(target, source)
      invariant gain <= remaining
    {
      var alt := target[k];
      if LeadsWith(alt, source.name) {
        var tail := 0;
        if m > 1 {
          tail := DeepSize(alt[1..], remaining - gain + 2);
        }
        CappedTailGain(alt, source, held, tail, remaining - gain);
        gain := gain + Floored(m * (1 + tail) + held - (2 + tail));
        if gain > remaining {
          return None;
        }
      }
      assert target[k..][1..] == target[k + 1..];
    }
    return Some(added + gain);
  }

  lemma {:induction false} NoneLed(alts: seq<Sequence>, source: Production)
    requires Led(alts, source.name) == 0
    ensures SubstituteGain(alts, source) == 0
  {
    if alts != [] {
      NoneLed(alts[1..], source);
    }
  }

  // ---- splitting nullable prefixes ----

  lemma SplitSame(alts: seq<Sequence>, k: nat, all: seq<Sequence>)
    requires k < |alts| && alts[k] != [] && PresentOf(alts[k][0]).Some? && SameAlts(alts, all)
    ensures SameAlts(SplitAlt(alts, k), all)
  {
    forall m: Model ensures AltsLang(SplitAlt(alts, k), m) == AltsLang(all, m) {
      SplitAltLang(alts, k, m);
    }
  }

  lemma SplitTooBig(p: Production, added: nat, n: nat, alts: seq<Sequence>, total: nat)
    requires SplitsTo(p, added, n, alts, total) && n < SplitGuard(p) && Splittable(p.name, alts)
    requires total + SplitGain(alts[FirstHidden(alts, p.name)]) > MAX_ELEMENTS
    ensures OversizedSplit(p, added)
  {
    hide SplitsTo;
    assert SplitRefused(p.name, alts, total);
  }

  lemma SplitFits(p: Production, added: nat, n: nat, alts: seq<Sequence>, total: nat)
    requires SplitsTo(p, added, n, alts, total) && Splittable(p.name, alts)
    requires total + SplitGain(alts[FirstHidden(alts, p.name)]) <= MAX_ELEMENTS
    ensures var k := FirstHidden(alts, p.name); SplitsTo(p, added, n + 1, SplitAlt(alts, k), total + SplitGain(alts[k]))
  {
    hide SplitsTo;
    var k := FirstHidden(alts, p.name);
    SplitsMore(p, added, n, alts, total, SplitAlt(alts, k), total + SplitGain(alts[k]));
  }

  /** Splitting sugar takes no leading reference away. */
  lemma SplitLeads(alts: seq<Sequence>, k: nat)
    requires k < |alts| && alts[k] != [] && PresentOf(alts[k][0]).Some?
    ensures forall n :: HasLeading(alts, n) ==> HasLeading(SplitAlt(alts, k), n)
  {
    forall n | HasLeading(alts, n) ensures HasLeading(SplitAlt(alts, k), n) {
      var l :| 0 <= l < |alts| && LeadsWith(alts[l], n);
      var l' := if l < k then l else l + 1;
      assert SplitAlt(alts, k)[l'] == alts[l];
    }
  }

  /** A rule after `n` splits: reached within the limit, with the same words in every
      model, no larger than what was charged. */
  ghost predicate Expanding(p: Production, added: nat, n: nat, alts: seq<Sequence>, total: nat) {
    && added <= total <= MAX_ELEMENTS && SplitsTo(p, added, n, alts, total)
    && SameAlts(alts, p.alts)
    && AltsSize(alts) <= AltsSize(p.alts) + (total - added)
    && (NoEmptyAlt(p.alts) ==> NoEmptyAlt(alts))
    && (alts == p.alts || |alts| > 1)
    && (forall m :: HasLeading(p.alts, m) ==> HasLeading(alts, m))
    && (NoneHidden(p) ==> alts == p.alts && total == added)
  }

  lemma ExpandsFrom(p: Production, added: nat)
    requires added <= MAX_ELEMENTS
    ensures Expanding(p, added, 0, p.alts, added)
  {
  }

  lemma ExpandsOn(p: Production, added: nat, n: nat, alts: seq<Sequence>, total: nat)
    requires Expanding(p, added, n, alts, total) && Splittable(p.name, alts)
    requires total + SplitGain(alts[FirstHidden(alts, p.name)]) <= MAX_ELEMENTS
    ensures var k := FirstHidden(alts, p.name);
      Expanding(p, added, n + 1, SplitAlt(alts, k), total + SplitGain(alts[k]))
  {
    hide SplitsTo, SameAlts, AltsSize, HasLeading;
    var k := FirstHidden(alts, p.name);
    HiddenTail(alts[k], p.name);
    SplitFits(p, added, n, alts, total);
    SplitAltSize(alts, k);
    SplitSame(alts, k, p.alts);
    SplitLeads(alts, k);
  }

  /** Splits the leading nullable sugar of every hidden left recursion of one rule,
      as long as the round guard lasts; refused exactly when splits that fit lead to one
      that does not. */
  method ExpandPrefixes(p: Production, added: nat) returns (r: Result<(Production, nat)>, rounds: nat)
    requires added <= MAX_ELEMENTS
    ensures r.Ok? ==> r.value.0.name == p.name && Expanding(p, added, rounds, r.value.0.alts, r.value.1)
    ensures r.Ok? ==> rounds <= SplitGuard(p) && (rounds < SplitGuard(p) ==> NoneHidden(r.value.0))
    ensures r.Err? ==> r.error == ElementLimit && r.rule == p.name
    ensures r.Err? <==> OversizedSplit(p, added)
    ensures NoneHidden(p) ==> r == Ok((p, added))
  {
    hide OversizedSplit, SplitsTo, SameAlts, AltsSize, HasLeading;
    var alts, total := p.alts, added;
    var guard := SplitGuard(p);
    rounds := 0;
    ExpandsFrom(p, added);
    while rounds < guard
      invariant rounds <= guard && Expanding(p, added, rounds, alts, total)
    {
      var k := FirstHidden(alts, p.name);
      if k == |alts| {
        NotOversized(p, added, rounds, alts, total);
        return Ok((Production(p.name, alts), total)), rounds;
      }
      HiddenTail(alts[k], p.name);
      var charged := ChargeExpansion(alts[k], total);
      if charged.None? {
        SplitTooBig(p, added, rounds, alts, total);
        return Err(p.name, ElementLimit), rounds;
      }
      ExpandsOn(p, added, rounds, alts, total);
      total := charged.value;
      alts := SplitAlt(alts, k);
      rounds := rounds + 1;
    }
    NotOversized(p, added, rounds, alts, total);
    return Ok((Production(p.name, alts), total)), rounds;
  }

  // ---- substituting earlier rules ----

  /** Every rule before the `n`th leads only to rules after itself. */
  ghost predicate OrderedBelow(prods: Grammar, n: int) {
    forall i :: 0 <= i < n && i < |prods| ==> LeadsPast(prods[i].alts, prods, i + 1)
  }

  lemma SubstituteStep(prods: Grammar, i: nat, j: nat)
    requires i < |prods| && j < |prods| && i != j && DistinctNames(prods)
    ensures Language(prods[i := Production(prods[i].name, Substitute(prods[i].alts, prods[j]))]) == Language(prods)
  {
    var alts := Substitute(prods[i].alts, prods[j]);
    var next := prods[i := Production(prods[i].name, alts)];
    RuleLanguage(prods, j);
    SubstituteLang(prods[i].alts, prods[j], Language(prods));
    RuleLanguage(prods, i);
    RuleLanguage(next, j);
    SubstituteLang(prods[i].alts, prods[j], Language(next));
    RuleLanguage(next, i);
    RewriteRule(prods, i, alts);
  }

  lemma {:induction false} SubstituteLeads(alts: seq<Sequence>, prods: Grammar, j: nat)
    requires j < |prods| && DistinctNames(prods)
    requires LeadsPast(alts, prods, j) && LeadsPast(prods[j].alts, prods, j + 1)
    requires NoEmptyAlt(alts) && NoEmptyAlt(prods[j].alts)
    ensures LeadsPast(Substitute(alts, prods[j]), prods, j + 1)
    ensures NoEmptyAlt(Substitute(alts, prods[j]))
  {
    if alts != [] {
      SubstituteLeads(alts[1..], prods, j);
      var head := SubstituteOne(alts[0], prods[j]);
      assert NoEmptyAlt(head) && LeadsPast(head, prods, j + 1);
    }
  }

  /** Rule `i` after `n` substitutions: reached within the limits, with the same words,
      and no larger than what was charged. */
  ghost predicate Unfolding(prods: Grammar, i: nat, alts: seq<Sequence>, gained: nat, added: nat, total: nat, n: nat)
    requires i < |prods|
  {
    && UnfoldsTo(prods, i, added, n, alts, gained, total)
    && added <= total <= MAX_ELEMENTS && gained <= MAX_EXPANSION
    && Language(prods[i := Production(prods[i].name, alts)]) == Language(prods)
    && AltsSize(alts) <= AltsSize(prods[i].alts) + (total - added)
    && |alts| <= |prods[i].alts| + gained
  }

  /** The rules before `i` are in order and none of the first rules has an empty
      alternative. */
  ghost predicate TameBelow(prods: Grammar, i: nat)
    requires i < |prods|
  {
    OrderedBelow(prods, i) && forall j :: 0 <= j <= i ==> NoEmptyAlt(prods[j].alts)
  }

  function Reached(error: Option<Error>, alts: seq<Sequence>, gained: nat, total: nat): Unfold {
    if error.Some? then Over(error.value) else Unfold(alts, gained, total)
  }

  /** One earlier rule substituted where an alternative leads with it. */
  method SubstituteRule(prods: Grammar, i: nat, j: nat, alts0: seq<Sequence>, gained0: nat, ghost added: nat,
      total0: nat, ghost n: nat)
    returns (error: Option<Error>, alts: seq<Sequence>, gained: nat, total: nat)
    requires j < i < |prods| && DistinctNames(prods) && Unfolding(prods, i, alts0, gained0, added, total0, n)
    requires HasLeading(alts0, prods[j].name)
    ensures error.None? ==> Unfolding(prods, i, alts, gained, added, total, n + 1)
    ensures TameBelow(prods, i) && NoEmptyAlt(alts0) && LeadsPast(alts0, prods, j) ==>
      NoEmptyAlt(alts) && LeadsPast(alts, prods, j + 1)
    ensures error.Some? ==>
      (error.value == ElementLimit || error.value == ExpansionLimit) && OversizedUnfolding(prods, i, added, error.value)
    ensures UnfoldAt(prods, j, Unfold(alts0, gained0, total0)) == Reached(error, alts, gained, total)
  {
    hide UnfoldsTo, Language;
    error, alts, gained, total := None, Substitute(alts0, prods[j]), gained0, total0;
    if TameBelow(prods, i) && NoEmptyAlt(alts0) && LeadsPast(alts0, prods, j) {
      SubstituteLeads(alts0, prods, j);
    }
    var more := ChargeSubstitution(alts0, prods[j], gained0);
    if more.None? {
      assert UnfoldRefused(prods, i, j, alts0, gained0, total0, ExpansionLimit);
      return Some(ExpansionLimit), alts, gained, total;
    }
    var charged := ChargeElements(alts0, prods[j], total0);
    if charged.None? {
      assert UnfoldRefused(prods, i, j, alts0, gained0, total0, ElementLimit);
      return Some(ElementLimit), alts, gained, total;
    }
    SubstituteCount(alts0, prods[j]);
    SubstituteSize(alts0, prods[j]);
    SubstituteInPlace(prods, i, j, alts0);
    gained, total := more.value, charged.value;
    UnfoldsMore(prods, i, added, n, j, alts0, gained0, total0, alts, gained, total);
  }

  lemma UnfoldsMore(prods: Grammar, i: nat, added: nat, n: nat, j: nat, alts0: seq<Sequence>, gained0: nat, total0: nat,
      alts: seq<Sequence>, gained: nat, total: nat)
    requires i < |prods| && UnfoldsTo(prods, i, added, n, alts0, gained0, total0)
    requires UnfoldStep(prods, i, j, alts0, gained0, total0, alts, gained, total)
    ensures UnfoldsTo(prods, i, added, n + 1, alts, gained, total)
  {
    hide UnfoldStep;
    assert n + 1 != 0;
  }

  method SubstituteIfLed(prods: Grammar, i: nat, j: nat, alts0: seq<Sequence>, gained0: nat, ghost added: nat,
      total0: nat, ghost n: nat)
    returns (error: Option<Error>, alts: seq<Sequence>, gained: nat, total: nat, led: bool, ghost n': nat)
    requires j < i < |prods| && DistinctNames(prods) && Unfolding(prods, i, alts0, gained0, added, total0, n)
    ensures error.None? ==> Unfolding(prods, i, alts, gained, added, total, n')
    ensures n' == if led then n + 1 else n
    ensures TameBelow(prods, i) && NoEmptyAlt(alts0) && LeadsPast(alts0, prods, j) ==>
      NoEmptyAlt(alts) && LeadsPast(alts, prods, j + 1)
    ensures error.Some? ==>
      (error.value == ElementLimit || error.value == ExpansionLimit) && OversizedUnfolding(prods, i, added, error.value)
    ensures LeadsPast(alts0, prods, i) ==> !led
    ensures !led ==>
      error.None? && alts == alts0 && total == total0 && (LeadsPast(alts0, prods, j) ==> LeadsPast(alts0, prods, j + 1))
    ensures UnfoldAt(prods, j, Unfold(alts0, gained0, total0)) == Reached(error, alts, gained, total)
  {
    hide Unfolding, OversizedUnfolding;
    error, alts, gained, total, led := None, alts0, gained0, total0, HasLeading(alts0, prods[j].name);
    n' := n;
    if led {
      error, alts, gained, total := SubstituteRule(prods, i, j, alts0, gained0, added, total0, n);
      n' := n + 1;
    }
  }

  ghost predicate Unmoved(alts0: seq<Sequence>, total0: nat, alts: seq<Sequence>, total: nat) {
    alts == alts0 && total == total0
  }

  /** One round over the earlier rules. */
  method SubstituteRound(prods: Grammar, i: nat, alts0: seq<Sequence>, gained0: nat, ghost added: nat, total0: nat,
      ghost n: nat)
    returns (error: Option<Error>, alts: seq<Sequence>, gained: nat, total: nat, changed: bool, ghost n': nat)
    requires i < |prods| && DistinctNames(prods) && Unfolding(prods, i, alts0, gained0, added, total0, n)
    ensures error.None? ==> Unfolding(prods, i, alts, gained, added, total, n') && (if changed then n' > n else n' == n)
    ensures error.None? && !changed ==> Unmoved(alts0, total0, alts, total) && LeadsPast(alts, prods, i)
    ensures error.None? && LeadsPast(alts0, prods, i) ==> !changed
    ensures error.None? && TameBelow(prods, i) && NoEmptyAlt(alts0) ==> NoEmptyAlt(alts) && LeadsPast(alts, prods, i)
    ensures error.Some? ==>
      (error.value == ElementLimit || error.value == ExpansionLimit) && OversizedUnfolding(prods, i, added, error.value)
    ensures LeadsPast(alts0, prods, i) ==> error.None?
    ensures RoundFrom(prods, i, 0, Unfold(alts0, gained0, total0)) == Reached(error, alts, gained, total)
  {
    hide Unfolding, OversizedUnfolding, TameBelow, UnfoldAt;
    error, alts, gained, total, changed := None, alts0, gained0, total0, false;
    n' := n;
    for j := 0 to i
      invariant error.None? && Unfolding(prods, i, alts, gained, added, total, n')
      invariant RoundFrom(prods, i, j, Unfold(alts, gained, total))
        == RoundFrom(prods, i, 0, Unfold(alts0, gained0, total0))
      invariant if changed then n' > n else n' == n
      invariant !changed ==> alts == alts0 && total == total0 && LeadsPast(alts, prods, j)
      invariant LeadsPast(alts0, prods, i) ==> !changed
      invariant TameBelow(prods, i) && NoEmptyAlt(alts0) ==> NoEmptyAlt(alts) && LeadsPast(alts, prods, j)
    {
      var led;
      error, alts, gained, total, led, n' := SubstituteIfLed(prods, i, j, alts, gained, added, total, n');
      if error.Some? {
        RoundStays(prods, i, j + 1, Over(error.value));
        return;
      }
      changed := changed || led;
    }
  }

  /** Substitute every earlier rule that rule `i` leads with, again until nothing changes
      or the round guard stops it. */
  method SubstituteRounds(prods: Grammar, i: nat, added: nat)
    returns (error: Option<Error>, alts: seq<Sequence>, gained: nat, total: nat, rounds: nat, ghost n: nat)
    requires i < |prods| && DistinctNames(prods) && added <= MAX_ELEMENTS
    ensures error.None? ==> rounds <= n && Unfolding(prods, i, alts, gained, added, total, n)
    ensures error.None? && rounds <= |prods| ==> LeadsPast(alts, prods, i)
    ensures error.None? && TameBelow(prods, i) ==> LeadsPast(alts, prods, i) && NoEmptyAlt(alts) && rounds <= 1
    ensures error.Some? ==> error.value == ElementLimit || error.value == ExpansionLimit
    ensures error.Some? ==> OversizedUnfolding(prods, i, added, error.value)
    ensures Unfolds(prods, i, added) == Reached(error, alts, gained, total)
  {
    error, alts, gained, total, rounds, n := None, prods[i].alts, 0, added, 0, 0;
    var guard := |prods| + 1;
    var changed := true;
    StartsUnfolding(prods, i, added);
    hide Unfolding, TameBelow, Unfolds, RoundFrom, OversizedUnfolding, NoEmptyAlt, LeadsPast, DistinctNames, Rounds;
    hide Unmoved, UnfoldAt, OnCourse, Reached;
    while rounds < guard && changed
      invariant error.None? && rounds <= guard && rounds <= n
      invariant Unfolding(prods, i, alts, gained, added, total, n)
      invariant !changed ==> rounds <= |prods| && LeadsPast(alts, prods, i)
      invariant TameBelow(prods, i) ==> NoEmptyAlt(alts) && rounds <= 1 && (rounds > 0 ==> LeadsPast(alts, prods, i))
      invariant OnCourse(prods, i, added, guard - rounds, Reached(None, alts, gained, total))
      decreases guard - rounds, changed
    {
      ghost var before := Unfold(alts, gained, total);
      error, alts, gained, total, changed, n := SubstituteRound(prods, i, alts, gained, added, total, n);
      AfterRound(prods, i, added, guard - rounds, before, error, alts, gained, total);
      if error.Some? {
        return;
      }
      if changed {
        rounds := rounds + 1;
      }
    }
    NoMoreRounds(prods, i, added, guard - rounds, alts, gained, total);
  }

  /** The inner loop of Paull's algorithm for rule `i`. */
  method SubstituteEarlier(prods: Grammar, i: nat, added: nat)
    returns (r: Result<(Production, nat)>, rounds: nat, ghost n: nat)
    requires i < |prods| && DistinctNames(prods) && added <= MAX_ELEMENTS
    ensures r.Ok? ==>
      && r.value.0.name == prods[i].name
      && Language(prods[i := r.value.0]) == Language(prods)
      && added <= r.value.1 <= MAX_ELEMENTS
      && AltsSize(r.value.0.alts) <= AltsSize(prods[i].alts) + (r.value.1 - added)
      && |r.value.0.alts| <= |prods[i].alts| + MAX_EXPANSION
    ensures r.Ok? ==> rounds <= n && exists gained: nat ::
      Unfolding(prods, i, r.value.0.alts, gained, added, r.value.1, n)
    ensures r.Ok? && rounds <= |prods| ==> LeadsPast(r.value.0.alts, prods, i)
    ensures r.Ok? && TameBelow(prods, i) ==>
      LeadsPast(r.value.0.alts, prods, i) && NoEmptyAlt(r.value.0.alts) && rounds <= 1
    ensures r.Err? ==>
      && r.rule == prods[i].name && (r.error == ElementLimit || r.error == ExpansionLimit)
      && OversizedUnfolding(prods, i, added, r.error)
    ensures LeadsPast(prods[i].alts, prods, i) ==> r == Ok((prods[i], added))
    ensures match Unfolds(prods, i, added)
            case Over(error) => r == Err(prods[i].name, error)
            case Unfold(alts, _, total) => r == Ok((Production(prods[i].name, alts), total))
  {
    var error, alts, gained, total;
    error, alts, gained, total, rounds, n := SubstituteRounds(prods, i, added);
    SettledAlready(prods, i, added);
    hide Unfolding, TameBelow, Unfolds, OversizedUnfolding, NoEmptyAlt, LeadsPast, Language, AltsSize;
    if error.Some? {
      return Err(prods[i].name, error.value), rounds, n;
    }
    EndsUnfolding(prods, i, alts, gained, added, total, n);
    r := Ok((Production(prods[i].name, alts), total));
  }

  /** A rule that leads with no earlier rule is left as it is. */
  lemma SettledAlready(prods: Grammar, i: nat, added: nat)
    requires i < |prods|
    ensures LeadsPast(prods[i].alts, prods, i) ==> Unfolds(prods, i, added) == Unfold(prods[i].alts, 0, added)
  {
    hide LeadsPast;
    if LeadsPast(prods[i].alts, prods, i) {
      RoundsStay(prods, i, |prods| + 1, Unfold(prods[i].alts, 0, added));
    }
  }

  /** With `n` rounds left, `u` comes to what all the rounds do. */
  ghost predicate OnCourse(prods: Grammar, i: nat, added: nat, n: nat, u: Unfold)
    requires i < |prods|
  {
    Rounds(prods, i, n, u) == Unfolds(prods, i, added)
  }

  /** A refusal is what the rounds come to; what a round changes is left to the others. */
  lemma AfterRound(prods: Grammar, i: nat, added: nat, n: nat, u: Unfold, error: Option<Error>, alts: seq<Sequence>,
      gained: nat, total: nat)
    requires i < |prods| && n > 0 && u.Unfold? && OnCourse(prods, i, added, n, Reached(None, u.alts, u.gained, u.total))
    requires RoundFrom(prods, i, 0, u) == Reached(error, alts, gained, total)
    ensures error.Some? ==> Unfolds(prods, i, added) == Reached(error, alts, gained, total)
    ensures error.None? ==> OnCourse(prods, i, added, n - 1, Reached(None, alts, gained, total))
    ensures error.None? && LeadsPast(alts, prods, i) ==>
      OnCourse(prods, i, added, n, Reached(None, alts, gained, total))
  {
    hide RoundFrom, LeadsPast, Unfolds;
    var v := Reached(error, alts, gained, total);
    if v.Over? || LeadsPast(v.alts, prods, i) {
      RoundsStay(prods, i, n - 1, v);
      RoundsStay(prods, i, n, v);
    }
  }

  lemma NoMoreRounds(prods: Grammar, i: nat, added: nat, n: nat, alts: seq<Sequence>, gained: nat, total: nat)
    requires i < |prods| && OnCourse(prods, i, added, n, Reached(None, alts, gained, total))
    requires n == 0 || LeadsPast(alts, prods, i)
    ensures Unfolds(prods, i, added) == Reached(None, alts, gained, total)
  {
    hide RoundFrom, LeadsPast, Unfolds;
    if n > 0 {
      RoundsStay(prods, i, n, Reached(None, alts, gained, total));
    }
  }

  lemma StartsUnfolding(prods: Grammar, i: nat, added: nat)
    requires i < |prods| && added <= MAX_ELEMENTS
    ensures Unfolding(prods, i, prods[i].alts, 0, added, added, 0)
    ensures OnCourse(prods, i, added, |prods| + 1, Reached(None, prods[i].alts, 0, added))
    ensures TameBelow(prods, i) ==> NoEmptyAlt(prods[i].alts)
  {
    assert prods[i := Production(prods[i].name, prods[i].alts)] == prods;
  }

  lemma EndsUnfolding(prods: Grammar, i: nat, alts: seq<Sequence>, gained: nat, added: nat, total: nat, n: nat)
    requires i < |prods| && Unfolding(prods, i, alts, gained, added, total, n)
    ensures Language(prods[i := Production(prods[i].name, alts)]) == Language(prods)
    ensures added <= total <= MAX_ELEMENTS && AltsSize(alts) <= AltsSize(prods[i].alts) + (total - added)
    ensures |alts| <= |prods[i].alts| + MAX_EXPANSION
  {
    hide UnfoldsTo, Language, AltsSize;
  }

  lemma SubstituteInPlace(prods: Grammar, i: nat, j: nat, alts: seq<Sequence>)
    requires j < i < |prods| && DistinctNames(prods)
    ensures Language(prods[i := Production(prods[i].name, Substitute(alts, prods[j]))])
         == Language(prods[i := Production(prods[i].name, alts)])
  {
    var now := prods[i := Production(prods[i].name, alts)];
    SubstituteStep(now, i, j);
    assert now[i := Production(prods[i].name, Substitute(alts, prods[j]))]
        == prods[i := Production(prods[i].name, Substitute(alts, prods[j]))];
  }

  // ---- direct left recursion ----

  /** The base name itself when it is free, the first free numbered one otherwise. */
  method FreshDebtCounter(rule: string, used: set<string>) returns (name: string)
    ensures name == CounterFor(rule, used) && WordName(name) && "debt_" + Sanitized(rule) <= name
  {
    name := "debt_" + Sanitized(rule);
    if name in used {
      var base := name + "_";
      NumberedWords(base, FirstFree(base, "", 1, used, used));
      name := FindFresh(base, "", 1, used);
    }
  }

  /** A name the engine's condition parser reads as one word. */
  predicate WordName(name: string) {
    forall i :: 0 <= i < |name| ==> WordChar(name[i])
  }

  lemma {:induction false} DecimalWords(n: nat)
    ensures WordName(Decimal(n))
  {
    if n >= 10 {
      DecimalWords(n / 10);
    }
  }

  lemma NumberedWords(base: string, n: nat)
    requires WordName(base)
    ensures WordName(Numbered(base, n, "")) && base <= Numbered(base, n, "")
  {
    DecimalWords(n);
  }

  lemma DirectStep(prods: Grammar, i: nat, guard: Option<string>)
    requires i < |prods| && DistinctNames(prods)
    ensures Tails(prods[i].alts, prods[i].name) != [] ==>
      Language(prods[i := Production(prods[i].name, LoopForm(prods[i].alts, prods[i].name, guard))]) == Language(prods)
    ensures Tails(prods[i].alts, prods[i].name) == [] ==>
      Language(prods[i := Production(prods[i].name, Seeds(prods[i].alts, prods[i].name))]) == Language(prods)
  {
    var name, old_ := prods[i].name, prods[i].alts;
    RuleLanguage(prods, i);
    if Tails(old_, name) != [] {
      var next := prods[i := Production(name, LoopForm(old_, name, guard))];
      RuleLanguage(next, i);
      LoopBelow(old_, name, guard, Language(prods));
      LoopAbove(old_, name, guard, Language(next));
      RewriteRule(prods, i, LoopForm(old_, name, guard));
    } else {
      var next := prods[i := Production(name, Seeds(old_, name))];
      RuleLanguage(next, i);
      SeedsAlone(old_, name, Language(prods));
      SeedsAlone(old_, name, Language(next));
      RewriteRule(prods, i, Seeds(old_, name));
    }
  }

  predicate RefersTo(alts: seq<Sequence>, name: string) {
    name in AltsRefs(alts)
  }

  lemma {:induction false} SeedsLead(alts: seq<Sequence>, name: string)
    ensures forall k :: 0 <= k < |Seeds(alts, name)| ==>
      Seeds(alts, name)[k] in alts && !LeadsWith(Seeds(alts, name)[k], name)
  {
    if alts != [] {
      SeedsLead(alts[1..], name);
    }
  }

  lemma DirectLeads(prods: Grammar, i: nat, guard: Option<string>)
    requires i < |prods| && DistinctNames(prods)
    requires LeadsPast(prods[i].alts, prods, i) && NoEmptyAlt(prods[i].alts)
    ensures var alts, name := prods[i].alts, prods[i].name;
      && LeadsPast(Seeds(alts, name), prods, i + 1) && NoEmptyAlt(Seeds(alts, name))
      && LeadsPast(LoopForm(alts, name, guard), prods, i + 1) && NoEmptyAlt(LoopForm(alts, name, guard))
  {
    var alts, name := prods[i].alts, prods[i].name;
    SeedsLead(alts, name);
    var seeds := Seeds(alts, name);
    forall k, j | 0 <= k < |seeds| && 0 <= j < i + 1 ensures !LeadsWith(seeds[k], prods[j].name) {
      if j < i {
        var l :| 0 <= l < |alts| && alts[l] == seeds[k];
      }
    }
    var loop := LoopForm(alts, name, guard);
    forall k, j | 0 <= k < |loop| && 0 <= j < i + 1 ensures !LeadsWith(loop[k], prods[j].name) {
      if |seeds| == 1 && |seeds[0]| == 1 {
        assert !LeadsWith(seeds[0], prods[j].name);
      }
    }
  }

  /** The rule derives no word at all. */
  ghost predicate Barren(prods: Grammar, name: string) {
    forall w :: (name, w) !in Language(prods)
  }

  lemma {:induction false} NoneLeading(alts: seq<Sequence>, name: string)
    requires !HasLeading(alts, name)
    ensures Seeds(alts, name) == alts && Tails(alts, name) == []
  {
    if alts != [] {
      assert forall k :: 0 <= k < |alts[1..]| ==> alts[1..][k] == alts[k + 1];
      assert !LeadsWith(alts[0], name);
      NoneLeading(alts[1..], name);
    }
  }

  lemma {:induction false} AllLeading(alts: seq<Sequence>, name: string, k: nat)
    requires Seeds(alts, name) == [] && k < |alts|
    ensures LeadsWith(alts[k], name)
  {
    if k > 0 {
      AllLeading(alts[1..], name, k - 1);
    }
  }

  lemma LeadingBarren(s: Sequence, name: string, m: Model)
    requires LeadsWith(s, name) && At(m, name) == iset{}
    ensures SeqLang(s, m) == iset{}
  {
    forall w ensures w !in SeqLang(s, m) {
      assert !Splits(w, iset{}, SeqLang(s[1..], m));
    }
  }

  /** A rule with nothing to start from derives nothing. */
  lemma PureIsBarren(prods: Grammar, i: nat)
    requires i < |prods| && DistinctNames(prods) && Seeds(prods[i].alts, prods[i].name) == []
    ensures Barren(prods, prods[i].name)
  {
    var name, l := prods[i].name, Language(prods);
    var m := Assign(l, name, iset{});
    AssignAt(l, name, iset{});
    forall n, w | (n, w) in Apply(prods, m) ensures (n, w) in m {
      var j :| ProducedBy(n, w, prods, j, m);
      var k := AltsElim(w, prods[j].alts, m);
      if j == i {
        AllLeading(prods[i].alts, name, k);
        LeadingBarren(prods[i].alts[k], name, m);
      } else {
        assert m <= l;
        SeqMono(prods[j].alts[k], m, l);
        AltsIntro(k, w, prods[j].alts, l);
        RuleLanguage(prods, j);
        assert w in At(l, n);
      }
    }
    LanguageLeast(prods, m);
  }

  /** Rewrites rule `i`'s direct left recursion to its iterative form; refused when
      the rule has nothing to start from. */
  method EliminateDirect(prods: Grammar, i: nat, counters: set<string>)
    returns (r: Result<Production>, counters': set<string>)
    requires i < |prods| && DistinctNames(prods)
    ensures r.Err? <==> Seeds(prods[i].alts, prods[i].name) == [] && Tails(prods[i].alts, prods[i].name) != []
    ensures r.Err? ==> r.error == PurelyLeftRecursive && r.rule == prods[i].name && Barren(prods, r.rule)
    ensures (r, counters') == DirectOf(prods[i].name, prods[i].alts, counters)
    ensures !HasLeading(prods[i].alts, prods[i].name) ==> r == Ok(prods[i])
    ensures r.Ok? ==>
      && r.value.name == prods[i].name && DirectForm(r.value.name, prods[i].alts, r.value.alts)
      && Language(prods[i := r.value]) == Language(prods)
      && AltsSize(r.value.alts) <= AltsSize(prods[i].alts) + 3
      && |r.value.alts| <= |prods[i].alts|
    ensures r.Ok? && LeadsPast(prods[i].alts, prods, i) && NoEmptyAlt(prods[i].alts) ==>
      LeadsPast(r.value.alts, prods, i + 1) && NoEmptyAlt(r.value.alts)
  {
    var name, alts := prods[i].name, prods[i].alts;
    var seeds, tails := Seeds(alts, name), Tails(alts, name);
    counters' := counters;
    if !HasLeading(alts, name) {
      NoneLeading(alts, name);
    }
    PartsSize(alts, name);
    SeedsCount(alts, name);
    if tails == [] {
      DirectStep(prods, i, None);
      if LeadsPast(alts, prods, i) && NoEmptyAlt(alts) {
        DirectLeads(prods, i, None);
      }
      return Ok(Production(name, seeds)), counters;
    }
    if seeds == [] {
      PureIsBarren(prods, i);
      return Err(name, PurelyLeftRecursive), counters;
    }
    var guard := None;
    if RefersTo(seeds, name) {
      var counter := FreshDebtCounter(name, counters);
      guard := Some(counter);
      counters' := counters + {counter};
    }
    DirectStep(prods, i, guard);
    LoopSize(alts, name, guard);
    if LeadsPast(alts, prods, i) && NoEmptyAlt(alts) {
      DirectLeads(prods, i, guard);
    }
    r := Ok(Production(name, LoopForm(alts, name, guard)));
  }

  lemma {:induction false} SeedsCount(alts: seq<Sequence>, name: string)
    ensures |Seeds(alts, name)| <= |alts|
  {
    if alts != [] {
      SeedsCount(alts[1..], name);
    }
  }

  // ---- the driver ----

  /** No alternative is empty and no rule is an exempt alias. */
  predicate Tame(prods: Grammar, cyclic: set<string>) {
    forall i :: 0 <= i < |prods| ==> NoEmptyAlt(prods[i].alts) && !ExemptAlias(prods[i], cyclic)
  }

  ghost predicate SameNames(a: Grammar, b: Grammar) {
    |a| == |b| && forall i :: 0 <= i < |a| ==> a[i].name == b[i].name
  }

  /** Where the loop over the rules has got to: the first `i` are rewritten. */
  ghost predicate Rewritten(start: Grammar, prods: Grammar, i: nat, added: nat, total: nat) {
    && i <= |start| && SameNames(prods, start) && DistinctNames(prods)
    && Language(prods) == Language(start)
    && added <= total <= MAX_ELEMENTS
    && GrammarSize(prods) + added <= GrammarSize(start) + total + 3 * i
    && (forall j :: i <= j < |start| ==> prods[j] == start[j])
    && (forall j :: 0 <= j < |start| ==> |prods[j].alts| <= |start[j].alts| + MAX_EXPANSION)
  }

  ghost predicate NoEmptyAlts(prods: Grammar) {
    forall j :: 0 <= j < |prods| ==> NoEmptyAlt(prods[j].alts)
  }

  lemma LeadsPastNames(alts: seq<Sequence>, a: Grammar, b: Grammar, n: int)
    requires SameNames(a, b) && LeadsPast(alts, a, n)
    ensures LeadsPast(alts, b, n)
  {
    forall k, j | 0 <= k < |alts| && 0 <= j < n && j < |b| ensures !LeadsWith(alts[k], b[j].name) {
      assert a[j].name == b[j].name;
    }
  }

  lemma OrderedSnoc(prods: Grammar, i: nat, p: Production)
    requires i < |prods| && p.name == prods[i].name
    requires OrderedBelow(prods, i) && LeadsPast(p.alts, prods, i + 1)
    requires NoEmptyAlts(prods) && NoEmptyAlt(p.alts)
    ensures OrderedBelow(prods[i := p], i + 1) && NoEmptyAlts(prods[i := p])
  {
    var next := prods[i := p];
    forall k | 0 <= k < i + 1 ensures LeadsPast(next[k].alts, next, k + 1) {
      LeadsPastNames(next[k].alts, prods, next, k + 1);
    }
  }

  /** A refusal names a rule that derives nothing, or a run of steps that fit leads to
      one that does not. */
  ghost predicate Justified(g: Grammar, rule: string, error: Error) {
    match error
    case PurelyLeftRecursive => Barren(g, rule)
    case ElementLimit => SplitStuck(g, rule) || UnfoldStuck(g, rule, error)
    case ExpansionLimit => UnfoldStuck(g, rule, error)
    case _ => false
  }

  /** No alternative begins with a reference to a rule. */
  predicate NothingLeads(g: Grammar) {
    forall i, j :: 0 <= i < |g| && 0 <= j < |g| ==> !HasLeading(g[i].alts, g[j].name)
  }

  predicate NothingHidden(g: Grammar) {
    forall i :: 0 <= i < |g| ==> NoneHidden(g[i])
  }

  /** What a turn's substitutions come to: nothing for an exempt alias. */
  ghost predicate Unfolded(prods: Grammar, i: nat, cyclic: set<string>, added: nat, p: Production, total: nat, n: nat,
      gained: nat)
    requires i < |prods|
  {
    && p.name == prods[i].name && Unfolding(prods, i, p.alts, gained, added, total, n)
    && (if ExemptAlias(prods[i], cyclic) then n == 0 else LeadsPast(p.alts, prods, i) || n > |prods|)
    && (TameBelow(prods, i) && !ExemptAlias(prods[i], cyclic) ==> LeadsPast(p.alts, prods, i) && NoEmptyAlt(p.alts))
    && (NothingLeads(prods) ==> p == prods[i] && total == added)
  }

  /** The substitutions of one turn. */
  method UnfoldRule(prods: Grammar, i: nat, cyclic: set<string>, added: nat)
    returns (r: Result<(Production, nat)>, ghost n: nat, ghost gained: nat)
    requires i < |prods| && DistinctNames(prods) && added <= MAX_ELEMENTS
    ensures r.Ok? ==> Unfolded(prods, i, cyclic, added, r.value.0, r.value.1, n, gained)
    ensures r.Err? ==>
      && (r.error == ElementLimit || r.error == ExpansionLimit) && r.rule == prods[i].name
      && !ExemptAlias(prods[i], cyclic) && OversizedUnfolding(prods, i, added, r.error)
    ensures NothingLeads(prods) ==> r.Ok?
    ensures !ExemptAlias(prods[i], cyclic) ==>
      match Unfolds(prods, i, added)
      case Over(error) => r == Err(prods[i].name, error)
      case Unfold(alts, _, total) => r == Ok((Production(prods[i].name, alts), total))
    ensures ExemptAlias(prods[i], cyclic) ==> r == Ok((prods[i], added))
  {
    n, gained := 0, 0;
    assert prods[i := prods[i]] == prods;
    assert UnfoldsTo(prods, i, added, 0, prods[i].alts, 0, added);
    hide UnfoldsTo, OversizedUnfolding, Language, AltsSize, Unfolds;
    if ExemptAlias(prods[i], cyclic) {
      return Ok((prods[i], added)), n, gained;
    }
    var rounds;
    r, rounds, n := SubstituteEarlier(prods, i, added);
    if r.Ok? {
      gained :| Unfolding(prods, i, r.value.0.alts, gained, added, r.value.1, n);
    }
  }

  /** One turn of the driver's loop: substitution, unless the rule is an exempt
      alias, and direct elimination. */
  method EliminateRule(prods: Grammar, i: nat, cyclic: set<string>, added: nat, counters: set<string>)
    returns (r: Result<(Production, nat)>, counters': set<string>)
    requires i < |prods| && DistinctNames(prods) && added <= MAX_ELEMENTS
    ensures r.Ok? ==>
      && r.value.0.name == prods[i].name
      && Language(prods[i := r.value.0]) == Language(prods)
      && added <= r.value.1 <= MAX_ELEMENTS
      && AltsSize(r.value.0.alts) <= AltsSize(prods[i].alts) + (r.value.1 - added) + 3
      && |r.value.0.alts| <= |prods[i].alts| + MAX_EXPANSION
    ensures r.Ok? && OrderedBelow(prods, i) && NoEmptyAlts(prods) && !ExemptAlias(prods[i], cyclic) ==>
      LeadsPast(r.value.0.alts, prods, i + 1) && NoEmptyAlt(r.value.0.alts)
    ensures r.Ok? ==> Turn(prods, i, cyclic, added, r.value.0, r.value.1)
    ensures r.Err? ==>
      if r.error == PurelyLeftRecursive then Barren(prods, r.rule)
      else
        && (r.error == ElementLimit || r.error == ExpansionLimit) && r.rule == prods[i].name
        && !ExemptAlias(prods[i], cyclic) && OversizedUnfolding(prods, i, added, r.error)
    ensures NothingLeads(prods) ==> r == Ok((prods[i], added))
    ensures (r, counters') == TurnOf(prods, i, cyclic, added, counters)
  {
    hide Language, AltsSize, OversizedUnfolding, DirectForm, UnfoldsTo, ExemptAlias, Unfolds, DirectOf;
    counters' := counters;
    var sub, n, gained := UnfoldRule(prods, i, cyclic, added);
    if sub.Err? {
      return Err(sub.rule, sub.error), counters;
    }
    var p, total := sub.value.0, sub.value.1;
    var now := prods[i := p];
    var direct;
    direct, counters' := EliminateDirect(now, i, counters);
    if direct.Err? {
      return Err(direct.rule, direct.error), counters';
    }
    assert now[i := direct.value] == prods[i := direct.value];
    if LeadsPast(p.alts, prods, i) {
      LeadsPastNames(p.alts, prods, now, i);
    }
    if LeadsPast(direct.value.alts, now, i + 1) {
      LeadsPastNames(direct.value.alts, now, prods, i + 1);
    }
    assert TurnVia(prods, i, cyclic, added, direct.value, total, n, p.alts, gained);
    r := Ok((direct.value, total));
  }

  /** The driver's state: where it has got to, and what it has kept. */
  ghost predicate Driven(start: Grammar, prods: Grammar, i: nat, cyclic: set<string>, added: nat, total: nat) {
    && Rewritten(start, prods, i, added, total)
    && (Tame(start, cyclic) ==> OrderedBelow(prods, i) && NoEmptyAlts(prods))
    && (NothingLeads(start) ==> prods == start)
  }

  lemma RewrittenOn(start: Grammar, prods: Grammar, i: nat, added: nat, total: nat, p: Production, total': nat)
    requires i < |start| && Rewritten(start, prods, i, added, total) && p.name == prods[i].name
    requires Language(prods[i := p]) == Language(prods) && total <= total' <= MAX_ELEMENTS
    requires AltsSize(p.alts) <= AltsSize(prods[i].alts) + (total' - total) + 3
    requires |p.alts| <= |prods[i].alts| + MAX_EXPANSION
    ensures Rewritten(start, prods[i := p], i + 1, added, total')
  {
    hide Language, AltsSize;
    GrammarSizeAt(prods, i, p);
  }

  lemma DrivenOn(start: Grammar, prods: Grammar, i: nat, cyclic: set<string>, added: nat, total: nat, p: Production,
      total': nat)
    requires i < |start| && Driven(start, prods, i, cyclic, added, total) && p.name == prods[i].name
    requires Language(prods[i := p]) == Language(prods) && total <= total' <= MAX_ELEMENTS
    requires AltsSize(p.alts) <= AltsSize(prods[i].alts) + (total' - total) + 3
    requires |p.alts| <= |prods[i].alts| + MAX_EXPANSION
    requires Tame(start, cyclic) ==> LeadsPast(p.alts, prods, i + 1) && NoEmptyAlt(p.alts)
    requires NothingLeads(start) ==> p == prods[i]
    ensures Driven(start, prods[i := p], i + 1, cyclic, added, total')
  {
    RewrittenOn(start, prods, i, added, total, p, total');
    hide Rewritten, Language, AltsSize, LeadsPast, NoEmptyAlt, NoEmptyAlts, OrderedBelow, Tame, NothingLeads;
    if Tame(start, cyclic) {
      OrderedSnoc(prods, i, p);
    }
    if NothingLeads(start) {
      assert prods[i := p] == prods;
    }
  }

  lemma DrivesMore(start: Grammar, cyclic: set<string>, added: nat, i: nat, prods: Grammar, total: nat, p: Production,
      total': nat)
    requires DrivesTo(start, cyclic, added, i, prods, total) && i < |prods| && Turn(prods, i, cyclic, total, p, total')
    ensures DrivesTo(start, cyclic, added, i + 1, prods[i := p], total')
  {
    hide Turn;
    assert DriveStep(cyclic, i, prods, total, prods[i := p], total');
  }

  method EliminateOrdered(start: Grammar, cyclic: set<string>, added: nat) returns (r: Result<Grammar>)
    requires DistinctNames(start) && added <= MAX_ELEMENTS
    ensures r.Ok? ==> exists total: nat ::
      Rewritten(start, r.value, |start|, added, total) && DrivesTo(start, cyclic, added, |start|, r.value, total)
    ensures r.Ok? && Tame(start, cyclic) ==> OrderedBelow(r.value, |start|)
    ensures r.Err? ==>
      if r.error == PurelyLeftRecursive then Barren(start, r.rule)
      else (r.error == ElementLimit || r.error == ExpansionLimit) && Stuck(start, cyclic, added, r.rule, r.error)
    ensures NothingLeads(start) ==> r == Ok(start)
    ensures r == DriveFrom(start, 0, cyclic, added, {})
  {
    var prods, total := start, added;
    var counters: set<string> := {};
    assert Driven(start, prods, 0, cyclic, added, total);
    hide Driven, DrivesTo, TurnOf, Tame, Rewritten, NothingLeads, OrderedBelow, Barren, Stuck, DistinctNames;
    for i := 0 to |start|
      invariant |prods| == |start|
      invariant Driven(start, prods, i, cyclic, added, total) && DrivesTo(start, cyclic, added, i, prods, total)
      invariant DriveFrom(prods, i, cyclic, total, counters) == DriveFrom(start, 0, cyclic, added, {})
    {
      var next;
      next, counters := DriveRule(start, prods, i, cyclic, added, total, counters);
      if next.Err? {
        return Err(next.rule, next.error);
      }
      prods, total := prods[i := next.value.0], next.value.1;
    }
    DrivenThrough(start, prods, cyclic, added, total);
    r := Ok(prods);
  }

  /** One turn of the driver, seen from the rules as they were given. */
  method DriveRule(ghost start: Grammar, prods: Grammar, i: nat, cyclic: set<string>, ghost added: nat, total: nat,
      counters: set<string>)
    returns (next: Result<(Production, nat)>, counters': set<string>)
    requires i < |start| == |prods| && Driven(start, prods, i, cyclic, added, total)
    requires DrivesTo(start, cyclic, added, i, prods, total)
    ensures next.Ok? ==> Driven(start, prods[i := next.value.0], i + 1, cyclic, added, next.value.1)
    ensures next.Ok? ==> DrivesTo(start, cyclic, added, i + 1, prods[i := next.value.0], next.value.1)
    ensures next.Err? ==>
      if next.error == PurelyLeftRecursive then Barren(start, next.rule)
      else
        && (next.error == ElementLimit || next.error == ExpansionLimit)
        && Stuck(start, cyclic, added, next.rule, next.error)
    ensures NothingLeads(start) ==> next.Ok?
    ensures (next, counters') == TurnOf(prods, i, cyclic, total, counters)
  {
    hide Driven, DrivesTo, Turn, TurnOf, Tame, NothingLeads, OrderedBelow, Barren, Stuck, DistinctNames;
    hide OversizedUnfolding, LeadsPast, NoEmptyAlt, NoEmptyAlts, Language, AltsSize, ExemptAlias;
    TurnBegins(start, prods, i, cyclic, added, total);
    next, counters' := EliminateRule(prods, i, cyclic, total, counters);
    if next.Err? {
      RefusedHere(start, prods, i, cyclic, added, total, next.rule, next.error);
    } else {
      DrivenOn(start, prods, i, cyclic, added, total, next.value.0, next.value.1);
      DrivesMore(start, cyclic, added, i, prods, total, next.value.0, next.value.1);
    }
  }

  lemma TurnBegins(start: Grammar, prods: Grammar, i: nat, cyclic: set<string>, added: nat, total: nat)
    requires i < |start| && Driven(start, prods, i, cyclic, added, total)
    ensures |prods| == |start| && DistinctNames(prods) && total <= MAX_ELEMENTS
    ensures Tame(start, cyclic) ==> OrderedBelow(prods, i) && NoEmptyAlts(prods) && !ExemptAlias(prods[i], cyclic)
    ensures NothingLeads(start) ==> NothingLeads(prods)
  {
    hide Language, NothingLeads, OrderedBelow, GrammarSize;
  }

  /** What is refused in a turn is refused of the rules as they were given. */
  lemma RefusedHere(start: Grammar, prods: Grammar, i: nat, cyclic: set<string>, added: nat, total: nat, rule: string,
      error: Error)
    requires i < |start| == |prods| && Driven(start, prods, i, cyclic, added, total)
    requires DrivesTo(start, cyclic, added, i, prods, total)
    requires
      if error == PurelyLeftRecursive then Barren(prods, rule)
      else
        && rule == prods[i].name && !ExemptAlias(prods[i], cyclic)
        && OversizedUnfolding(prods, i, total, error)
    ensures
      if error == PurelyLeftRecursive then Barren(start, rule)
      else Stuck(start, cyclic, added, rule, error)
  {
    hide Language, DrivesTo, ExemptAlias, OversizedUnfolding;
    if error != PurelyLeftRecursive {
      assert StuckAt(start, cyclic, added, i, prods, total, rule, error);
    }
  }

  lemma DrivenThrough(start: Grammar, prods: Grammar, cyclic: set<string>, added: nat, total: nat)
    requires Driven(start, prods, |start|, cyclic, added, total)
    ensures Rewritten(start, prods, |start|, added, total)
    ensures Tame(start, cyclic) ==> OrderedBelow(prods, |start|)
    ensures NothingLeads(start) ==> prods == start
  {
  }

  lemma {:induction false} SameAltsStage(a: Grammar, b: Grammar, h: nat)
    requires SameNames(a, b) && forall i :: 0 <= i < |a| ==> SameAlts(a[i].alts, b[i].alts)
    ensures Stage(a, h) == Stage(b, h)
  {
    if h > 0 {
      SameAltsStage(a, b, h - 1);
      var m := Stage(a, h - 1);
      forall n, w ensures (n, w) in Apply(a, m) <==> (n, w) in Apply(b, m) {
        if (n, w) in Apply(a, m) {
          var i :| ProducedBy(n, w, a, i, m);
          assert SameAlts(a[i].alts, b[i].alts) && ProducedBy(n, w, b, i, m);
        }
        if (n, w) in Apply(b, m) {
          var i :| ProducedBy(n, w, b, i, m);
          assert SameAlts(a[i].alts, b[i].alts) && ProducedBy(n, w, a, i, m);
        }
      }
    }
  }

  lemma SameAltsLanguage(a: Grammar, b: Grammar)
    requires SameNames(a, b) && forall i :: 0 <= i < |a| ==> SameAlts(a[i].alts, b[i].alts)
    ensures Language(a) == Language(b)
  {
    forall n, w ensures (n, w) in Language(a) <==> (n, w) in Language(b) {
      if (n, w) in Language(a) {
        var h: nat :| DerivesIn(n, w, a, h);
        SameAltsStage(a, b, h);
        assert DerivesIn(n, w, b, h);
      }
      if (n, w) in Language(b) {
        var h: nat :| DerivesIn(n, w, b, h);
        SameAltsStage(a, b, h);
        assert DerivesIn(n, w, a, h);
      }
    }
  }

  /** The first `i` rules have had their nullable prefixes split. */
  ghost predicate Split(g: Grammar, out: Grammar, i: nat, added: nat) {
    && SameNames(out, g) && added <= MAX_ELEMENTS && i <= |g|
    && (forall j :: 0 <= j < |g| ==> SameAlts(out[j].alts, g[j].alts))
    && (forall j :: i <= j < |g| ==> out[j] == g[j])
    && GrammarSize(out) <= GrammarSize(g) + added
  }

  ghost predicate SplitKeeps(g: Grammar, out: Grammar, added: nat) {
    && (NoEmptyAlts(g) ==> NoEmptyAlts(out))
    && (forall i :: 0 <= i < |g| && i < |out| ==> out[i] == g[i] || |out[i].alts| > 1)
    && (forall i, n :: 0 <= i < |g| && i < |out| && HasLeading(g[i].alts, n) ==> HasLeading(out[i].alts, n))
    && (NothingHidden(g) ==> out == g && added == 0)
  }

  lemma SplitOn(g: Grammar, out: Grammar, i: nat, added: nat, p: Production, added': nat)
    requires i < |g| && Split(g, out, i, added) && p.name == g[i].name && SameAlts(p.alts, g[i].alts)
    requires added <= added' <= MAX_ELEMENTS && AltsSize(p.alts) <= AltsSize(g[i].alts) + (added' - added)
    ensures Split(g, out[i := p], i + 1, added')
  {
    hide AltsLang;
    GrammarSizeAt(out, i, p);
  }

  lemma SplitKeepsOn(g: Grammar, out: Grammar, i: nat, added: nat, p: Production, added': nat)
    requires i < |g| == |out| && out[i] == g[i] && SplitKeeps(g, out, added) && p.name == g[i].name
    requires NoEmptyAlt(g[i].alts) ==> NoEmptyAlt(p.alts)
    requires p.alts == g[i].alts || |p.alts| > 1
    requires forall n :: HasLeading(g[i].alts, n) ==> HasLeading(p.alts, n)
    requires NoneHidden(g[i]) ==> p == g[i] && added' == added
    ensures SplitKeeps(g, out[i := p], added')
  {
    if NothingHidden(g) {
      assert out[i := p] == out;
    }
  }

  lemma SplitStuckHere(g: Grammar, i: nat, out: Grammar, added: nat, next: Result<(Production, nat)>)
    requires SplitsAll(g, i, out, added) && i < |g| && next.Err? && next.rule == g[i].name
    requires OversizedSplit(g[i], added)
    requires next == Ok((g[i], added)) || !NoneHidden(g[i])
    ensures !NothingHidden(g) && SplitStuck(g, next.rule)
  {
    hide SplitsAll;
  }

  lemma SplitTurned(p: Production, added: nat, n: nat, alts: seq<Sequence>, total: nat)
    requires SplitsTo(p, added, n, alts, total) && (n == SplitGuard(p) || FirstHidden(alts, p.name) == |alts|)
    ensures SplitTurn(p, added, alts, total)
  {
  }

  lemma SplitAllOn(g: Grammar, i: nat, out: Grammar, added: nat, n: nat, p: Production, added': nat)
    requires i < |g| && Split(g, out, i, added) && SplitKeeps(g, out, added) && SplitsAll(g, i, out, added)
    requires p.name == g[i].name && Expanding(g[i], added, n, p.alts, added')
    requires n <= SplitGuard(g[i]) && (n < SplitGuard(g[i]) ==> NoneHidden(p))
    ensures Split(g, out[i := p], i + 1, added') && SplitKeeps(g, out[i := p], added')
    ensures SplitsAll(g, i + 1, out[i := p], added')
  {
    hide SplitsAll, SplitsTo, GrammarSize, SameAlts, AltsSize;
    SplitTurned(g[i], added, n, p.alts, added');
    SplitsAllMore(g, i, out, added, p, added');
    hide SplitTurn;
    SplitOn(g, out, i, added, p, added');
    SplitKeepsOn(g, out, i, added, p, added');
  }

  lemma SplitsAllMore(g: Grammar, i: nat, out: Grammar, added: nat, p: Production, added': nat)
    requires SplitsAll(g, i, out, added) && i < |g| == |out| && p.name == g[i].name
    requires SplitTurn(g[i], added, p.alts, added')
    ensures SplitsAll(g, i + 1, out[i := p], added')
  {
    hide SplitTurn;
    assert SplitRule(g, i, out, added, out[i := p], added');
  }

  /** Every rule's nullable prefixes split. */
  method ExpandAll(g: Grammar) returns (r: Result<(Grammar, nat)>)
    requires DistinctNames(g)
    ensures r.Ok? ==>
      && SameNames(r.value.0, g)
      && Language(r.value.0) == Language(g)
      && r.value.1 <= MAX_ELEMENTS
      && GrammarSize(r.value.0) <= GrammarSize(g) + r.value.1
      && SplitKeeps(g, r.value.0, r.value.1)
    ensures r.Ok? ==> SplitsAll(g, |g|, r.value.0, r.value.1)
    ensures r.Err? ==> !NothingHidden(g) && r.error == ElementLimit && SplitStuck(g, r.rule)
  {
    var out := g;
    var added: nat := 0;
    SplitStarts(g);
    hide OversizedSplit, SplitTurn, SplitStuck, Split, SplitsAll, SplitKeeps;
    hide SameNames, GrammarSize, Language, DistinctNames, NothingHidden, NoneHidden, FirstHidden;
    for i := 0 to |g|
      invariant Split(g, out, i, added) && SplitKeeps(g, out, added) && SplitsAll(g, i, out, added)
    {
      hide Expanding;
      SplitHere(g, out, i, added);
      var next, rounds := ExpandPrefixes(g[i], added);
      if next.Err? {
        SplitStuckHere(g, i, out, added, next);
        return Err(next.rule, next.error);
      }
      SplitAllOn(g, i, out, added, rounds, next.value.0, next.value.1);
      out, added := out[i := next.value.0], next.value.1;
    }
    SplitEnds(g, out, added);
    r := Ok((out, added));
  }

  lemma SplitStarts(g: Grammar)
    ensures Split(g, g, 0, 0) && SplitKeeps(g, g, 0) && SplitsAll(g, 0, g, 0)
  {
  }

  lemma SplitHere(g: Grammar, out: Grammar, i: nat, added: nat)
    requires Split(g, out, i, added)
    ensures added <= MAX_ELEMENTS && |out| == |g|
  {
  }

  lemma SplitEnds(g: Grammar, out: Grammar, added: nat)
    requires Split(g, out, |g|, added)
    ensures SameNames(out, g) && Language(out) == Language(g) && added <= MAX_ELEMENTS
    ensures GrammarSize(out) <= GrammarSize(g) + added
  {
    hide SameAlts, GrammarSize, Language;
    SameAltsLanguage(out, g);
  }

  lemma {:induction false} PermutedSize(a: Grammar, b: Grammar)
    requires DistinctNames(a) && DistinctNames(b) && (forall p :: p in a <==> p in b)
    ensures GrammarSize(a) == GrammarSize(b)
  {
    if a == [] {
      assert forall k :: 0 <= k < |b| ==> b[k] in b;
    } else {
      assert a[0] in b;
      var j :| 0 <= j < |b| && b[j] == a[0];
      var rest := b[..j] + b[j + 1..];
      RemovedSize(b, j);
      forall p ensures p in a[1..] <==> p in rest {
        RemovedHas(a, 0, p);
        RemovedHas(b, j, p);
        assert a[..0] + a[1..] == a[1..];
      }
      PermutedSize(a[1..], rest);
    }
  }

  lemma RemovedHas(g: Grammar, j: nat, p: Production)
    requires j < |g| && DistinctNames(g)
    ensures p in g[..j] + g[j + 1..] <==> p in g && p != g[j]
  {
    var rest := g[..j] + g[j + 1..];
    if p in g && p != g[j] {
      var k :| 0 <= k < |g| && g[k] == p;
      assert rest[if k < j then k else k - 1] == p;
    }
    if p in rest {
      var k :| 0 <= k < |rest| && rest[k] == p;
      assert g[if k < j then k else k + 1] == p;
    }
  }

  lemma {:induction false} RemovedSize(g: Grammar, j: nat)
    requires j < |g|
    ensures GrammarSize(g) == AltsSize(g[j].alts) + GrammarSize(g[..j] + g[j + 1..])
  {
    if j == 0 {
      assert g[..0] + g[1..] == g[1..];
    } else {
      RemovedSize(g[1..], j - 1);
      var rest := g[..j] + g[j + 1..];
      assert rest[0] == g[0] && rest[1..] == g[1..][..j - 1] + g[1..][j..];
    }
  }

  /** A grammar whose rules lead only to later ones has no leading cycle, in
      whatever order its rules are written down. */
  lemma OrderedAcyclic(prods: Grammar, g: Grammar, u: string)
    requires DistinctNames(prods) && DistinctNames(g) && (forall p :: p in g <==> p in prods)
    requires OrderedBelow(prods, |prods|)
    ensures !OnCycle(LeadingGraph(g), u)
  {
    if OnCycle(LeadingGraph(g), u) {
      var v :| Edge(LeadingGraph(g), u, v) && Reach(LeadingGraph(g), v, u);
      var i, j := EdgeClimbs(prods, g, u, v);
      var above := set k | j <= k < |prods| :: prods[k].name;
      forall x, y | x in above && Edge(LeadingGraph(g), x, y) ensures y in above {
        var a, b := EdgeClimbs(prods, g, x, y);
        var k :| j <= k < |prods| && prods[k].name == x;
        assert a == k;
      }
      assert prods[j].name in above;
      ReachStays(LeadingGraph(g), above, v, u);
    }
  }

  lemma EdgeClimbs(prods: Grammar, g: Grammar, u: string, v: string) returns (i: nat, j: nat)
    requires DistinctNames(prods) && DistinctNames(g) && (forall p :: p in g <==> p in prods)
    requires OrderedBelow(prods, |prods|) && Edge(LeadingGraph(g), u, v)
    ensures i < j < |prods| && prods[i].name == u && prods[j].name == v
  {
    var a :| 0 <= a < |g| && g[a].name == u;
    LeadingEdge(g, a, v);
    var b :| 0 <= b < |g| && g[b].name == v;
    assert g[a] in prods && g[b] in prods;
    i :| 0 <= i < |prods| && prods[i] == g[a];
    j :| 0 <= j < |prods| && prods[j] == g[b];
    var k :| 0 <= k < |g[a].alts| && LeadsWith(g[a].alts[k], v);
    assert LeadsPast(prods[i].alts, prods, i + 1);
    assert LeadsWith(prods[i].alts[k], prods[j].name);
  }

  /** The rules back in the order they were declared in. */
  method RestoreOrder(prods: Grammar, names: seq<string>) returns (r: Grammar)
    requires DistinctNames(prods) && (forall n :: n in names <==> n in NameSet(prods))
    requires forall i, j :: 0 <= i < j < |names| ==> names[i] != names[j]
    ensures DistinctNames(r) && NamesOf(r) == names && forall p :: p in r <==> p in prods
  {
    var rules := RuleMap(prods);
    r := [];
    for i := 0 to |names|
      invariant |r| == i && forall k :: 0 <= k < i ==> names[k] in rules && r[k] == rules[names[k]]
    {
      assert names[i] in names;
      r := r + [rules[names[i]]];
    }
    forall i | 0 <= i < |r| ensures names[i] in names {
    }
    OrderedRules(prods, names, r);
  }

  lemma TameOrdered(split: Grammar, ordered: Grammar, cyclic: set<string>)
    requires Tame(split, cyclic) && forall p :: p in ordered <==> p in split
    ensures Tame(ordered, cyclic)
  {
    forall i | 0 <= i < |ordered| ensures NoEmptyAlt(ordered[i].alts) && !ExemptAlias(ordered[i], cyclic) {
      assert ordered[i] in split;
      var j :| 0 <= j < |split| && split[j] == ordered[i];
    }
  }

  lemma TameSplit(g: Grammar, split: Grammar, added: nat, cyclic: set<string>)
    requires Tame(g, cyclic) && SameNames(split, g) && SplitKeeps(g, split, added)
    ensures Tame(split, cyclic)
  {
    forall i | 0 <= i < |split| ensures NoEmptyAlt(split[i].alts) && !ExemptAlias(split[i], cyclic) {
      assert split[i] == g[i] || |split[i].alts| > 1;
      assert NoEmptyAlts(g);
    }
  }

  lemma NamesMatch(split: Grammar, prods: Grammar, g: Grammar)
    requires SameNames(split, g) && DistinctNames(g)
    requires |prods| == |g| && DistinctNames(prods)
    requires forall n :: n in NameSet(prods) <==> n in NameSet(split)
    ensures forall n :: n in NamesOf(g) <==> n in NameSet(prods)
  {
    forall n ensures n in NamesOf(g) <==> n in NameSet(prods) {
      if n in NameSet(split) {
        var i :| 0 <= i < |split| && split[i].name == n;
        assert NamesOf(g)[i] == n;
      }
      if n in NamesOf(g) {
        var i :| 0 <= i < |g| && NamesOf(g)[i] == n;
        assert split[i].name == n;
      }
    }
  }

  lemma SameNameSet(a: Grammar, b: Grammar)
    requires (forall p :: p in a <==> p in b) || SameNames(a, b)
    ensures NameSet(a) == NameSet(b)
  {
    if !SameNames(a, b) {
      forall n ensures n in NameSet(a) <==> n in NameSet(b) {
        if n in NameSet(a) {
          var i :| 0 <= i < |a| && a[i].name == n;
          assert a[i] in b;
        }
        if n in NameSet(b) {
          var i :| 0 <= i < |b| && b[i].name == n;
          assert b[i] in a;
        }
      }
    } else {
      forall n ensures n in NameSet(a) <==> n in NameSet(b) {
        if n in NameSet(a) {
          var i :| 0 <= i < |a| && a[i].name == n;
          assert b[i].name == n;
        }
        if n in NameSet(b) {
          var i :| 0 <= i < |b| && b[i].name == n;
          assert a[i].name == n;
        }
      }
    }
  }

  /** The rules in Paull's order, and which of them are on a leading cycle. */
  method OrderForPaull(split: Grammar) returns (ordered: Grammar, cyclic: set<string>)
    requires DistinctNames(split)
    ensures DistinctNames(ordered) && |ordered| == |split| && NameSet(ordered) == NameSet(split)
    ensures Language(ordered) == Language(split) && GrammarSize(ordered) == GrammarSize(split)
    ensures PaullOrder(split, ordered, cyclic)
    ensures forall v {:trigger v in cyclic} :: v in cyclic <==> v in NameSet(split) && OnCycle(LeadingGraph(split), v)
  {
    ordered := TopoOrder(split);
    SameRules(ordered, split);
    PermutedSize(ordered, split);
    SameNameSet(ordered, split);
    cyclic := FindCyclic(ordered);
    SameLeading(ordered, split);
  }

  /** The leading references do not depend on the order of the rules. */
  lemma SameLeading(a: Grammar, b: Grammar)
    requires DistinctNames(a) && DistinctNames(b) && forall p :: p in a <==> p in b
    ensures forall u, v :: Edge(LeadingGraph(a), u, v) <==> Edge(LeadingGraph(b), u, v)
    ensures forall u :: OnCycle(LeadingGraph(a), u) <==> OnCycle(LeadingGraph(b), u)
  {
    SameNameSet(a, b);
    forall u, v ensures Edge(LeadingGraph(a), u, v) <==> Edge(LeadingGraph(b), u, v) {
      LeadingMoves(a, b, u, v);
      LeadingMoves(b, a, u, v);
    }
    CyclesGrow(LeadingGraph(a), LeadingGraph(b));
    CyclesGrow(LeadingGraph(b), LeadingGraph(a));
  }

  lemma LeadingMoves(a: Grammar, b: Grammar, u: string, v: string)
    requires DistinctNames(a) && DistinctNames(b) && (forall p :: p in a ==> p in b) && NameSet(a) == NameSet(b)
    ensures Edge(LeadingGraph(a), u, v) ==> Edge(LeadingGraph(b), u, v)
  {
    if Edge(LeadingGraph(a), u, v) {
      var i :| 0 <= i < |a| && a[i].name == u;
      LeadingEdge(a, i, v);
      assert a[i] in b;
      var j :| 0 <= j < |b| && b[j] == a[i];
      LeadingEdge(b, j, v);
    }
  }

  /** More edges, no fewer cycles. */
  lemma CyclesGrow(g: Graph, h: Graph)
    requires forall u, v :: Edge(g, u, v) ==> Edge(h, u, v)
    ensures forall u :: OnCycle(g, u) ==> OnCycle(h, u)
  {
    forall u | OnCycle(g, u) ensures OnCycle(h, u) {
      var v :| Edge(g, u, v) && Reach(g, v, u);
      var p :| Links(g, p, v, u);
      assert Links(h, p, v, u);
    }
  }

  /** Splitting keeps every leading cycle. */
  lemma SplitCycles(g: Grammar, split: Grammar, added: nat)
    requires DistinctNames(g) && SameNames(split, g) && SplitKeeps(g, split, added)
    ensures forall u :: OnCycle(LeadingGraph(g), u) ==> OnCycle(LeadingGraph(split), u)
  {
    SameNameSet(g, split);
    forall u, v | Edge(LeadingGraph(g), u, v) ensures Edge(LeadingGraph(split), u, v) {
      var i :| 0 <= i < |g| && g[i].name == u;
      LeadingEdge(g, i, v);
      LeadingEdge(split, i, v);
      assert HasLeading(g[i].alts, v);
    }
    CyclesGrow(LeadingGraph(g), LeadingGraph(split));
  }

  method FindCyclic(prods: Grammar) returns (cyclic: set<string>)
    ensures forall v {:trigger v in cyclic} :: v in cyclic <==> v in NameSet(prods) && OnCycle(LeadingGraph(prods), v)
  {
    LeadingTotal(prods);
    forall v | v in NameSet(prods) ensures v in NamesOf(prods) {
      var i :| 0 <= i < |prods| && prods[i].name == v;
      assert NamesOf(prods)[i] == v;
    }
    cyclic := FindCycleMembers(LeadingGraph(prods), NamesOf(prods));
  }

  lemma SameDeclared(prods: Grammar, g: Grammar, out: Grammar)
    requires DistinctNames(prods) && DistinctNames(out) && SameNames(out, g)
    requires (forall p :: p in out <==> p in prods) && (forall p :: p in prods <==> p in g)
    ensures out == g
  {
    forall i | 0 <= i < |g| ensures out[i] == g[i] {
      assert g[i] in out;
      var j :| 0 <= j < |out| && out[j] == g[i];
      assert out[j].name == out[i].name;
    }
  }

  method Declared(prods: Grammar, g: Grammar) returns (out: Grammar)
    requires DistinctNames(prods) && DistinctNames(g) && |prods| == |g| && NameSet(prods) == NameSet(g)
    ensures SameNames(out, g) && Language(out) == Language(prods) && GrammarSize(out) == GrammarSize(prods)
    ensures OrderedBelow(prods, |prods|) ==> forall u :: !OnCycle(LeadingGraph(out), u)
    ensures forall p :: p in out <==> p in prods
    ensures (forall p :: p in prods <==> p in g) ==> out == g
  {
    NamesMatch(g, prods, g);
    out := RestoreOrder(prods, NamesOf(g));
    assert forall i :: 0 <= i < |g| ==> NamesOf(out)[i] == NamesOf(g)[i];
    SameRules(out, prods);
    PermutedSize(out, prods);
    if OrderedBelow(prods, |prods|) {
      forall u ensures !OnCycle(LeadingGraph(out), u) {
        OrderedAcyclic(prods, out, u);
      }
    }
    if forall p :: p in prods <==> p in g {
      SameDeclared(prods, g, out);
    }
  }

  lemma NothingLeadsOn(g: Grammar, ordered: Grammar)
    requires NothingLeads(g) && forall p :: p in ordered <==> p in g
    ensures NothingLeads(ordered)
  {
    forall i, j | 0 <= i < |ordered| && 0 <= j < |ordered| ensures !HasLeading(ordered[i].alts, ordered[j].name) {
      assert ordered[i] in g && ordered[j] in g;
    }
  }

  /** Whenever elimination does not refuse the grammar, every rule derives exactly
      the words it did before, the rules stand in their declared order, and the
      grammar has grown by no more than the element limit and three for each rule.
      With no empty alternative and no alias left alone, no cycle of leading references
      is left; the rules on a leading cycle, through which no alias is left alone, are
      at least those the grammar as written has there. */
  method Eliminate(g: Grammar) returns (r: Result<Grammar>, ghost cyclic: set<string>)
    requires DistinctNames(g)
    ensures r.Ok? ==>
      && SameNames(r.value, g)
      && Language(r.value) == Language(g)
      && GrammarSize(r.value) <= GrammarSize(g) + MAX_ELEMENTS + 3 * |g|
    ensures r.Ok? ==> forall u :: u in NameSet(g) && OnCycle(LeadingGraph(g), u) ==> u in cyclic
    ensures r.Ok? && NothingHidden(g) ==> forall u :: u in cyclic ==> OnCycle(LeadingGraph(g), u)
    ensures r.Ok? && Tame(g, cyclic) ==> forall u :: !OnCycle(LeadingGraph(r.value), u)
    ensures r.Ok? ==> Completes(g, r.value)
    ensures r.Err? ==> Justified(g, r.rule, r.error)
    ensures Answers(g, r)
    ensures NothingHidden(g) && NothingLeads(g) ==> r == Ok(g)
  {
    hide SplitsAll, SplitStuck, Stuck, Language, GrammarSize, OnCycle, SplitKeeps, DrivesTo, PaullOrder;
    hide Completes, UnfoldStuck, Tame, Answers, DriveFrom;
    cyclic := {};
    var split := ExpandAll(g);
    if split.Err? {
      AnswersSplit(g, split.rule, split.error);
      return Err(split.rule, split.error), cyclic;
    }
    var ordered, marked := OrderForPaull(split.value.0);
    cyclic := marked;
    SameNameSet(split.value.0, g);
    SplitCycles(g, split.value.0, split.value.1);
    UnsplitStays(g, split.value.0, split.value.1);
    if NothingLeads(g) && NothingHidden(g) {
      NothingLeadsOn(g, ordered);
    }
    if Tame(g, cyclic) {
      TameSplit(g, split.value.0, split.value.1, cyclic);
      TameOrdered(split.value.0, ordered, cyclic);
    }
    var done := EliminateOrdered(ordered, marked, split.value.1);
    if done.Err? {
      if done.error != PurelyLeftRecursive {
        StuckBy(g, split.value.0, split.value.1, ordered, cyclic, done.rule, done.error);
      }
      AnswersBy(g, Err(done.rule, done.error), split.value.0, split.value.1, ordered, cyclic);
      return Err(done.rule, done.error), cyclic;
    }
    ghost var total: nat :| Rewritten(ordered, done.value, |ordered|, split.value.1, total)
      && DrivesTo(ordered, marked, split.value.1, |ordered|, done.value, total);
    SameNameSet(done.value, ordered);
    var out := Declared(done.value, g);
    CompletesBy(g, out, split.value.0, split.value.1, ordered, marked, done.value, total);
    AnswersBy(g, Ok(out), split.value.0, split.value.1, ordered, cyclic);
    r := Ok(out);
  }

  lemma StuckBy(g: Grammar, split: Grammar, added: nat, ordered: Grammar, cyclic: set<string>, rule: string,
      error: Error)
    requires SplitsAll(g, |g|, split, added) && PaullOrder(split, ordered, cyclic)
    requires Stuck(ordered, cyclic, added, rule, error)
    ensures UnfoldStuck(g, rule, error)
  {
    hide SplitsAll, PaullOrder, Stuck;
    assert StuckAfter(g, split, added, ordered, cyclic, rule, error);
  }

  lemma AnswersSplit(g: Grammar, rule: string, error: Error)
    requires error == ElementLimit && SplitStuck(g, rule)
    ensures Answers(g, Err(rule, error))
  {
    hide SplitStuck;
  }

  lemma AnswersBy(g: Grammar, r: Result<Grammar>, split: Grammar, added: nat, ordered: Grammar, cyclic: set<string>)
    requires SplitsAll(g, |g|, split, added) && PaullOrder(split, ordered, cyclic)
    requires match DriveFrom(ordered, 0, cyclic, added, {})
      case Err(rule, error) => r == Err(rule, error)
      case Ok(done) => r.Ok? && SameNames(r.value, g) && forall p :: p in r.value <==> p in done
    ensures Answers(g, r)
  {
    hide SplitsAll, PaullOrder, DriveFrom;
    assert AnswersAs(g, r, split, added, ordered, cyclic);
  }

  lemma CompletesBy(g: Grammar, out: Grammar, split: Grammar, added: nat, ordered: Grammar, cyclic: set<string>,
      done: Grammar, total: nat)
    requires SplitsAll(g, |g|, split, added) && PaullOrder(split, ordered, cyclic)
    requires DrivesTo(ordered, cyclic, added, |ordered|, done, total)
    requires SameNames(out, g) && forall p :: p in out <==> p in done
    ensures Completes(g, out)
  {
    hide SplitsAll, PaullOrder, DrivesTo;
    assert Through(g, out, split, added, ordered, cyclic, done, total);
  }

  lemma UnsplitStays(g: Grammar, split: Grammar, added: nat)
    requires SplitKeeps(g, split, added)
    ensures NothingHidden(g) ==> split == g
  {
  }
}
