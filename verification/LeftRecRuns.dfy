/** The runs of left-recursion elimination: the states its charged steps lead to, each
    step within the limits.  A refusal for growth is a state some run comes to whose next
    step does not fit. */
module LeftRecRuns {
  import opened Ir
  import opened Sizes
  import opened FreshNames
  import opened LeftRecSteps
  import opened Reachability
  import opened LeadingOrder

  // ---- splitting nullable prefixes ----

  function FirstHidden(alts: seq<Sequence>, name: string): (k: nat)
    ensures k <= |alts|
    ensures k < |alts| ==> IsHidden(alts[k], name)
    ensures forall j :: 0 <= j < k ==> !IsHidden(alts[j], name)
  {
    if alts == [] then 0
    else if IsHidden(alts[0], name) then 0
    else 1 + FirstHidden(alts[1..], name)
  }

  lemma HiddenTail(alt: Sequence, name: string)
    requires IsHidden(alt, name)
    ensures alt != [] && PresentOf(alt[0]).Some? && PresentOf(alt[0]).value != [] && alt[1..] != []
    ensures !alt[0].Ref?
  {
    assert HiddenFrom(alt[1..], name, true);
  }

  predicate NoneHidden(p: Production) {
    FirstHidden(p.alts, p.name) == |p.alts|
  }

  /** The alternative to be split next can be. */
  predicate Splittable(name: string, alts: seq<Sequence>) {
    var k := FirstHidden(alts, name);
    k < |alts| && alts[k] != [] && PresentOf(alts[k][0]).Some?
  }

  /** One split, its growth charged to the total and within the limit. */
  predicate SplitStep(name: string, alts: seq<Sequence>, total: nat, alts': seq<Sequence>, total': nat) {
    && Splittable(name, alts)
    && alts' == SplitAlt(alts, FirstHidden(alts, name))
    && total' == total + SplitGain(alts[FirstHidden(alts, name)]) <= MAX_ELEMENTS
  }

  /** `n` splits of a rule. */
  ghost predicate SplitsTo(p: Production, added: nat, n: nat, alts: seq<Sequence>, total: nat) {
    if n == 0 then alts == p.alts && total == added
    else exists alts0, total0: nat {:trigger SplitStep(p.name, alts0, total0, alts, total)} ::
      SplitsTo(p, added, n - 1, alts0, total0) && SplitStep(p.name, alts0, total0, alts, total)
  }

  /** How many splits the round guard allows. */
  function SplitGuard(p: Production): nat {
    |Flatten(p.alts)| + 1
  }

  /** The next split would take the total past the limit. */
  predicate SplitRefused(name: string, alts: seq<Sequence>, total: nat) {
    Splittable(name, alts) && total + SplitGain(alts[FirstHidden(alts, name)]) > MAX_ELEMENTS
  }

  /** Splits that fit lead to one that does not. */
  ghost predicate OversizedSplit(p: Production, added: nat) {
    exists n: nat, alts, total: nat ::
      n < SplitGuard(p) && SplitsTo(p, added, n, alts, total) && SplitRefused(p.name, alts, total)
  }

  lemma SplitsMore(p: Production, added: nat, n: nat, alts0: seq<Sequence>, total0: nat, alts: seq<Sequence>,
      total: nat)
    requires SplitsTo(p, added, n, alts0, total0) && SplitStep(p.name, alts0, total0, alts, total)
    ensures SplitsTo(p, added, n + 1, alts, total)
  {
    hide SplitStep;
    assert n + 1 != 0;
  }

  /** The state before the last split. */
  lemma SplitsLess(p: Production, added: nat, n: nat, alts: seq<Sequence>, total: nat)
    returns (alts0: seq<Sequence>, total0: nat)
    requires SplitsTo(p, added, n, alts, total) && n > 0
    ensures SplitsTo(p, added, n - 1, alts0, total0) && SplitStep(p.name, alts0, total0, alts, total)
  {
    hide SplitStep;
    alts0, total0 :| SplitsTo(p, added, n - 1, alts0, total0) && SplitStep(p.name, alts0, total0, alts, total);
  }

  lemma SplitsNone(p: Production, added: nat, alts: seq<Sequence>, total: nat)
    requires SplitsTo(p, added, 0, alts, total)
    ensures alts == p.alts && total == added
  {
  }

  lemma SplitStepUnique(name: string, alts: seq<Sequence>, total: nat, a: seq<Sequence>, s: nat, b: seq<Sequence>,
      t: nat)
    requires SplitStep(name, alts, total, a, s) && SplitStep(name, alts, total, b, t)
    ensures a == b && s == t
  {
  }

  lemma {:induction false} SplitsUnique(p: Production, added: nat, n: nat, a: seq<Sequence>, s: nat, b: seq<Sequence>,
      t: nat)
    requires SplitsTo(p, added, n, a, s) && SplitsTo(p, added, n, b, t)
    ensures a == b && s == t
    decreases n
  {
    hide SplitStep, SplitsTo;
    if n == 0 {
      SplitsNone(p, added, a, s);
      SplitsNone(p, added, b, t);
    } else {
      var a0, s0 := SplitsLess(p, added, n, a, s);
      var b0, t0 := SplitsLess(p, added, n, b, t);
      SplitsUnique(p, added, n - 1, a0, s0, b0, t0);
      SplitStepUnique(p.name, a0, s0, a, s, b, t);
    }
  }

  /** The state a run was in `n` splits from its start, and that it could go on. */
  lemma {:induction false} SplitsThrough(p: Production, added: nat, n: nat, m: nat, a: seq<Sequence>, s: nat)
    returns (b: seq<Sequence>, t: nat)
    requires SplitsTo(p, added, m, a, s) && n < m
    ensures SplitsTo(p, added, n, b, t) && !SplitRefused(p.name, b, t)
    decreases m
  {
    hide SplitsTo;
    var a0, s0 := SplitsLess(p, added, m, a, s);
    if n == m - 1 {
      b, t := a0, s0;
    } else {
      b, t := SplitsThrough(p, added, n, m - 1, a0, s0);
    }
  }

  lemma RefusedHidden(name: string, alts: seq<Sequence>, total: nat)
    requires SplitRefused(name, alts, total)
    ensures FirstHidden(alts, name) < |alts|
  {
  }

  /** A run that ends settled, or at the guard, is never refused. */
  lemma NotOversized(p: Production, added: nat, m: nat, a: seq<Sequence>, s: nat)
    requires SplitsTo(p, added, m, a, s) && (m < SplitGuard(p) ==> FirstHidden(a, p.name) == |a|)
    ensures !OversizedSplit(p, added)
  {
    hide SplitsTo, SplitRefused;
    if OversizedSplit(p, added) {
      var n: nat, b, t: nat :| n < SplitGuard(p) && SplitsTo(p, added, n, b, t) && SplitRefused(p.name, b, t);
      if n < m {
        var c, u := SplitsThrough(p, added, n, m, a, s);
        SplitsUnique(p, added, n, b, t, c, u);
      } else {
        var c, u := b, t;
        if m < n {
          c, u := SplitsThrough(p, added, m, n, b, t);
          SplitsUnique(p, added, m, a, s, c, u);
          GoesOn(p, added, m, n, b, t, a, s);
        } else {
          SplitsUnique(p, added, m, a, s, b, t);
          RefusedHidden(p.name, b, t);
        }
      }
    }
  }

  /** A run goes on from each state it passes through. */
  lemma {:induction false} GoesOn(p: Production, added: nat, m: nat, n: nat, b: seq<Sequence>, t: nat, a: seq<Sequence>,
      s: nat)
    requires m < n && SplitsTo(p, added, n, b, t) && SplitsTo(p, added, m, a, s)
    ensures FirstHidden(a, p.name) < |a|
    decreases n
  {
    hide SplitsTo;
    var b0, t0 := SplitsLess(p, added, n, b, t);
    if m == n - 1 {
      SplitsUnique(p, added, m, a, s, b0, t0);
    } else {
      GoesOn(p, added, m, n - 1, b0, t0, a, s);
    }
  }

  /** One rule split until nothing is hidden or the guard is reached. */
  ghost predicate SplitTurn(p: Production, added: nat, alts: seq<Sequence>, total: nat) {
    exists n: nat :: SplitsTo(p, added, n, alts, total) && (n == SplitGuard(p) || FirstHidden(alts, p.name) == |alts|)
  }

  /** The first `i` rules split, one after the other. */
  ghost predicate SplitsAll(g: Grammar, i: nat, out: Grammar, added: nat) {
    if i == 0 then out == g && added == 0
    else exists out0, added0: nat {:trigger SplitRule(g, i - 1, out0, added0, out, added)} ::
      SplitsAll(g, i - 1, out0, added0) && SplitRule(g, i - 1, out0, added0, out, added)
  }

  ghost predicate SplitRule(g: Grammar, i: nat, out0: Grammar, added0: nat, out: Grammar, added: nat) {
    && i < |g| && i < |out0| == |out| && g[i].name == out[i].name
    && out == out0[i := out[i]] && SplitTurn(g[i], added0, out[i].alts, added)
  }

  ghost predicate SplitStuck(g: Grammar, rule: string) {
    exists i: nat, out, added: nat ::
      SplitsAll(g, i, out, added) && i < |g| && g[i].name == rule && OversizedSplit(g[i], added)
  }

  // ---- substituting earlier rules ----

  /** No alternative begins with a reference to one of the first `n` rules. */
  ghost predicate LeadsPast(alts: seq<Sequence>, prods: Grammar, n: int) {
    forall k, j :: 0 <= k < |alts| && 0 <= j < n && j < |prods| ==> !LeadsWith(alts[k], prods[j].name)
  }

  predicate HasLeading(alts: seq<Sequence>, name: string) {
    exists k :: 0 <= k < |alts| && LeadsWith(alts[k], name)
  }

  /** The alternatives a substitution adds. */
  function AddedAlts(alts: seq<Sequence>, source: Production): nat {
    Led(alts, source.name) * AltGain(|source.alts|)
  }

  /** One substitution of an earlier rule, both its charges within the limits. */
  predicate UnfoldStep(prods: Grammar, i: nat, j: nat, alts: seq<Sequence>, gained: nat, total: nat,
      alts': seq<Sequence>, gained': nat, total': nat)
  {
    && j < i && j < |prods| && HasLeading(alts, prods[j].name) && alts' == Substitute(alts, prods[j])
    && gained' == gained + AddedAlts(alts, prods[j]) <= MAX_EXPANSION
    && total' == total + SubstituteGain(alts, prods[j]) <= MAX_ELEMENTS
  }

  /** `n` substitutions into rule `i`. */
  ghost predicate UnfoldsTo(prods: Grammar, i: nat, added: nat, n: nat, alts: seq<Sequence>, gained: nat, total: nat)
    requires i < |prods|
  {
    if n == 0 then alts == prods[i].alts && gained == 0 && total == added
    else exists j: nat, alts0, gained0: nat, total0: nat
      {:trigger UnfoldStep(prods, i, j, alts0, gained0, total0, alts, gained, total)} ::
      && UnfoldsTo(prods, i, added, n - 1, alts0, gained0, total0)
      && UnfoldStep(prods, i, j, alts0, gained0, total0, alts, gained, total)
  }

  /** The next substitution would add too many alternatives to the rule, or else too
      many elements to what was charged before. */
  predicate UnfoldRefused(prods: Grammar, i: nat, j: nat, alts: seq<Sequence>, gained: nat, total: nat, error: Error) {
    && j < i && j < |prods| && HasLeading(alts, prods[j].name)
    && if gained + AddedAlts(alts, prods[j]) > MAX_EXPANSION then error == ExpansionLimit
       else error == ElementLimit && total + SubstituteGain(alts, prods[j]) > MAX_ELEMENTS
  }

  /** Substitutions that fit lead to one that does not. */
  ghost predicate OversizedUnfolding(prods: Grammar, i: nat, added: nat, error: Error)
    requires i < |prods|
  {
    exists n: nat, j: nat, alts, gained: nat, total: nat ::
      UnfoldsTo(prods, i, added, n, alts, gained, total) && UnfoldRefused(prods, i, j, alts, gained, total, error)
  }

  // ---- in the order the driver makes them ----

  /** Where the substitutions into a rule have got to, or why they stopped. */
  datatype Unfold = Unfold(alts: seq<Sequence>, gained: nat, total: nat) | Over(error: Error)

  /** One earlier rule considered. */
  function UnfoldAt(prods: Grammar, j: nat, u: Unfold): Unfold
    requires j < |prods|
  {
    if u.Over? || !HasLeading(u.alts, prods[j].name) then u
    else if u.gained + AddedAlts(u.alts, prods[j]) > MAX_EXPANSION then Over(ExpansionLimit)
    else if u.total + SubstituteGain(u.alts, prods[j]) > MAX_ELEMENTS then Over(ElementLimit)
    else
      Unfold(Substitute(u.alts, prods[j]), u.gained + AddedAlts(u.alts, prods[j]),
             u.total + SubstituteGain(u.alts, prods[j]))
  }

  /** What is left of a round over the earlier rules, from the `j`th on. */
  function RoundFrom(prods: Grammar, i: nat, j: nat, u: Unfold): Unfold
    requires j <= i <= |prods|
    decreases i - j
  {
    if j == i then u else RoundFrom(prods, i, j + 1, UnfoldAt(prods, j, u))
  }

  function Rounds(prods: Grammar, i: nat, n: nat, u: Unfold): Unfold
    requires i <= |prods|
  {
    if n == 0 then u else Rounds(prods, i, n - 1, RoundFrom(prods, i, 0, u))
  }

  /** All the rounds the guard allows for rule `i`. */
  function Unfolds(prods: Grammar, i: nat, added: nat): Unfold
    requires i < |prods|
  {
    Rounds(prods, i, |prods| + 1, Unfold(prods[i].alts, 0, added))
  }

  lemma {:induction false} RoundStays(prods: Grammar, i: nat, j: nat, u: Unfold)
    requires j <= i <= |prods| && (u.Over? || LeadsPast(u.alts, prods, i))
    ensures RoundFrom(prods, i, j, u) == u
    decreases i - j
  {
    if j < i {
      RoundStays(prods, i, j + 1, u);
    }
  }

  lemma {:induction false} RoundsStay(prods: Grammar, i: nat, n: nat, u: Unfold)
    requires i <= |prods| && (u.Over? || LeadsPast(u.alts, prods, i))
    ensures Rounds(prods, i, n, u) == u
  {
    if n > 0 {
      RoundStays(prods, i, 0, u);
      RoundsStay(prods, i, n - 1, u);
    }
  }

  // ---- the loop over the rules ----

  /** An alias nothing recursive runs through: elimination leaves it alone. */
  predicate ExemptAlias(p: Production, cyclic: set<string>) {
    |p.alts| == 1 && |p.alts[0]| == 1 && p.alts[0][0].Ref? && p.name !in cyclic && p.alts[0][0].name !in cyclic
  }

  /** Direct elimination: the alternatives that do not begin with the rule, or the loop
      form. */
  ghost predicate DirectForm(name: string, alts: seq<Sequence>, alts': seq<Sequence>) {
    if Tails(alts, name) == [] then alts' == Seeds(alts, name)
    else Seeds(alts, name) != [] && exists guard :: alts' == LoopForm(alts, name, guard)
  }

  /** A rule name reduced to word characters, one underscore for any other. */
  function Sanitized(name: string): string {
    seq(|name|, i requires 0 <= i < |name| => if WordChar(name[i]) then name[i] else '_')
  }

  predicate WordChar(c: char) {
    'a' <= c <= 'z' || 'A' <= c <= 'Z' || '0' <= c <= '9' || c == '_'
  }

  /** The name of a rule's debt counter: the base name when it is free, and otherwise the
      first free numbered one. */
  function CounterFor(rule: string, used: set<string>): (name: string)
    ensures name !in used
  {
    var base := "debt_" + Sanitized(rule);
    if base in used then FreshName(base + "_", "", 1, used) else base
  }

  /** Direct elimination with the counters handed out so far: refused when there are tails
      and nothing to start from. */
  function DirectOf(name: string, alts: seq<Sequence>, counters: set<string>): (Result<Production>, set<string>) {
    var seeds := Seeds(alts, name);
    if Tails(alts, name) == [] then (Ok(Production(name, seeds)), counters)
    else if seeds == [] then (Err(name, PurelyLeftRecursive), counters)
    else if name !in AltsRefs(seeds) then (Ok(Production(name, LoopForm(alts, name, None))), counters)
    else
      var counter := CounterFor(name, counters);
      (Ok(Production(name, LoopForm(alts, name, Some(counter)))), counters + {counter})
  }

  /** One rule's turn as the driver takes it. */
  function TurnOf(prods: Grammar, i: nat, cyclic: set<string>, added: nat, counters: set<string>):
      (Result<(Production, nat)>, set<string>)
    requires i < |prods|
  {
    var u := if ExemptAlias(prods[i], cyclic) then Unfold(prods[i].alts, 0, added) else Unfolds(prods, i, added);
    match u
    case Over(error) => (Err(prods[i].name, error), counters)
    case Unfold(alts, _, total) =>
      var (direct, counters') := DirectOf(prods[i].name, alts, counters);
      if direct.Err? then (Err(direct.rule, direct.error), counters') else (Ok((direct.value, total)), counters')
  }

  /** The turns from rule `i` on. */
  function DriveFrom(prods: Grammar, i: nat, cyclic: set<string>, total: nat, counters: set<string>): Result<Grammar>
    requires i <= |prods|
    decreases |prods| - i
  {
    if i == |prods| then Ok(prods)
    else
      var (turn, counters') := TurnOf(prods, i, cyclic, total, counters);
      if turn.Err? then Err(turn.rule, turn.error)
      else DriveFrom(prods[i := turn.value.0], i + 1, cyclic, turn.value.1, counters')
  }

  /** One rule's turn: substitution until the rule leads with no earlier one, or as many
      rounds as the guard allows, and direct elimination. */
  ghost predicate TurnVia(prods: Grammar, i: nat, cyclic: set<string>, added: nat, p: Production, total: nat, n: nat,
      alts: seq<Sequence>, gained: nat)
    requires i < |prods|
  {
    && UnfoldsTo(prods, i, added, n, alts, gained, total)
    && (if ExemptAlias(prods[i], cyclic) then n == 0 else LeadsPast(alts, prods, i) || n > |prods|)
    && p.name == prods[i].name && DirectForm(p.name, alts, p.alts)
  }

  ghost predicate Turn(prods: Grammar, i: nat, cyclic: set<string>, added: nat, p: Production, total: nat)
    requires i < |prods|
  {
    exists n: nat, alts, gained: nat :: TurnVia(prods, i, cyclic, added, p, total, n, alts, gained)
  }

  /** The turns of the first `i` rules. */
  ghost predicate DrivesTo(start: Grammar, cyclic: set<string>, added: nat, i: nat, prods: Grammar, total: nat) {
    if i == 0 then prods == start && total == added
    else exists prods0, total0: nat {:trigger DriveStep(cyclic, i - 1, prods0, total0, prods, total)} ::
      DrivesTo(start, cyclic, added, i - 1, prods0, total0) && DriveStep(cyclic, i - 1, prods0, total0, prods, total)
  }

  ghost predicate DriveStep(cyclic: set<string>, i: nat, prods0: Grammar, total0: nat, prods: Grammar, total: nat) {
    && i < |prods0| == |prods|
    && prods == prods0[i := prods[i]] && Turn(prods0, i, cyclic, total0, prods[i], total)
  }

  /** Some rule's turn comes to a substitution that does not fit. */
  ghost predicate Stuck(start: Grammar, cyclic: set<string>, added: nat, rule: string, error: Error) {
    exists i: nat, prods, total: nat :: StuckAt(start, cyclic, added, i, prods, total, rule, error)
  }

  ghost predicate StuckAt(start: Grammar, cyclic: set<string>, added: nat, i: nat, prods: Grammar, total: nat,
      rule: string, error: Error)
  {
    && DrivesTo(start, cyclic, added, i, prods, total) && i < |prods| && prods[i].name == rule
    && !ExemptAlias(prods[i], cyclic) && OversizedUnfolding(prods, i, total, error)
  }

  // ---- the whole pass ----

  /** The rules in the order they are worked through, and those on a leading cycle. */
  ghost predicate PaullOrder(split: Grammar, ordered: Grammar, cyclic: set<string>) {
    && |ordered| == |split| && (forall p :: p in ordered <==> p in split)
    && Settled(LeadingGraph(split), NamesOf(ordered))
    && forall v {:trigger v in cyclic} :: v in cyclic <==> v in NameSet(split) && OnCycle(LeadingGraph(ordered), v)
  }

  /** A run of the whole pass: every rule split, the rules ordered, each given its turn,
      and put back in the order they were declared in. */
  ghost predicate Through(g: Grammar, out: Grammar, split: Grammar, added: nat, ordered: Grammar, cyclic: set<string>,
      done: Grammar, total: nat)
  {
    && SplitsAll(g, |g|, split, added) && PaullOrder(split, ordered, cyclic)
    && DrivesTo(ordered, cyclic, added, |ordered|, done, total)
    && NamesOf(out) == NamesOf(g) && forall p :: p in out <==> p in done
  }

  ghost predicate Completes(g: Grammar, out: Grammar) {
    exists split, added: nat, ordered, cyclic, done, total: nat ::
      Through(g, out, split, added, ordered, cyclic, done, total)
  }

  /** What the whole pass answers once the rules are split and ordered: what the driver
      does, refusals included. */
  ghost predicate AnswersAs(g: Grammar, r: Result<Grammar>, split: Grammar, added: nat, ordered: Grammar,
      cyclic: set<string>)
  {
    && SplitsAll(g, |g|, split, added) && PaullOrder(split, ordered, cyclic)
    && match DriveFrom(ordered, 0, cyclic, added, {})
       case Err(rule, error) => r == Err(rule, error)
       case Ok(done) => r.Ok? && NamesOf(r.value) == NamesOf(g) && forall p :: p in r.value <==> p in done
  }

  /** The pass splits the rules, and refuses if a split does not fit; and then answers as
      the driver. */
  ghost predicate Answers(g: Grammar, r: Result<Grammar>) {
    || (r.Err? && r.error == ElementLimit && SplitStuck(g, r.rule))
    || exists split, added: nat, ordered, cyclic :: AnswersAs(g, r, split, added, ordered, cyclic)
  }

  ghost predicate StuckAfter(g: Grammar, split: Grammar, added: nat, ordered: Grammar, cyclic: set<string>,
      rule: string, error: Error)
  {
    SplitsAll(g, |g|, split, added) && PaullOrder(split, ordered, cyclic) && Stuck(ordered, cyclic, added, rule, error)
  }

  /** Every rule is split, the rules are ordered, and a run over them comes to a
      substitution that does not fit. */
  ghost predicate UnfoldStuck(g: Grammar, rule: string, error: Error) {
    exists split, added: nat, ordered, cyclic :: StuckAfter(g, split, added, ordered, cyclic, rule, error)
  }
}
