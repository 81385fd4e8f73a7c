/** Left-recursion elimination refers to nothing it was not given: every reference of
    its result is one of the grammar's. */
module LeftRecKeeps {
  import opened Ir
  import opened LeftRecSteps
  import opened LeftRecRuns
  import DesugarProofs

  // ---- references, sequence by sequence ----

  /** Every alternative refers within `names`. */
  ghost predicate RefsIn(alts: seq<Sequence>, names: set<string>) {
    forall k :: 0 <= k < |alts| ==> SeqRefs(alts[k]) <= names
  }

  lemma {:induction false} RefsInAlts(alts: seq<Sequence>, names: set<string>)
    ensures RefsIn(alts, names) <==> AltsRefs(alts) <= names
  {
    if alts != [] {
      RefsInAlts(alts[1..], names);
      if RefsIn(alts, names) {
        assert forall k :: 0 <= k < |alts[1..]| ==> alts[1..][k] == alts[k + 1];
      }
      if AltsRefs(alts) <= names {
        forall k | 0 <= k < |alts| ensures SeqRefs(alts[k]) <= names {
          assert k > 0 ==> alts[k] == alts[1..][k - 1];
        }
      }
    }
  }

  lemma {:induction false} TailRefs(s: Sequence)
    requires s != []
    ensures SeqRefs(s) == ElemRefs(s[0]) + SeqRefs(s[1..])
  {
  }

  // ---- the three rewrites ----

  lemma {:induction false} PresentRefs(e: Element)
    requires PresentOf(e).Some?
    ensures SeqRefs(PresentOf(e).value) <= ElemRefs(e)
  {
    match e
    case Opt(i) => DesugarProofs.RefsFew(i, i);
    case Star(i, _) => DesugarProofs.RefsFew(i, e);
    case Rep(_, None, i) => DesugarProofs.RefsFew(i, e);
    case Rep(_, Some(n), i) => DesugarProofs.RefsFew(i, Rep(0, Some(if n > 0 then n - 1 else 0), i));
  }

  lemma {:induction false} SplitRefs(alts: seq<Sequence>, k: nat, names: set<string>)
    requires k < |alts| && alts[k] != [] && PresentOf(alts[k][0]).Some? && RefsIn(alts, names)
    ensures RefsIn(SplitAlt(alts, k), names)
  {
    var present, rest := PresentOf(alts[k][0]).value, alts[k][1..];
    PresentRefs(alts[k][0]);
    RefsCat(present, rest);
    TailRefs(alts[k]);
    assert SeqRefs(alts[k]) <= names;
    var out := SplitAlt(alts, k);
    forall i | 0 <= i < |out| ensures SeqRefs(out[i]) <= names {
      assert i < k ==> out[i] == alts[i];
      assert i > k + 1 ==> out[i] == alts[i - 1];
    }
  }

  lemma {:induction false} SubstituteRefs(alts: seq<Sequence>, source: Production, names: set<string>)
    requires RefsIn(alts, names) && RefsIn(source.alts, names)
    ensures RefsIn(Substitute(alts, source), names)
  {
    if alts != [] {
      assert forall k :: 0 <= k < |alts[1..]| ==> alts[1..][k] == alts[k + 1];
      SubstituteRefs(alts[1..], source, names);
      OneRefs(alts[0], source, names);
    }
  }

  lemma {:induction false} OneRefs(alt: Sequence, source: Production, names: set<string>)
    requires SeqRefs(alt) <= names && RefsIn(source.alts, names)
    ensures RefsIn(SubstituteOne(alt, source), names)
  {
    if LeadsWith(alt, source.name) {
      TailRefs(alt);
      forall k | 0 <= k < |source.alts| ensures SeqRefs(source.alts[k] + alt[1..]) <= names {
        RefsCat(source.alts[k], alt[1..]);
      }
    }
  }

  lemma {:induction false} PartsRefs(alts: seq<Sequence>, name: string, names: set<string>)
    requires RefsIn(alts, names)
    ensures RefsIn(Seeds(alts, name), names) && RefsIn(Tails(alts, name), names)
  {
    if alts != [] {
      assert forall k :: 0 <= k < |alts[1..]| ==> alts[1..][k] == alts[k + 1];
      PartsRefs(alts[1..], name, names);
      if alts[0] != [] {
        TailRefs(alts[0]);
      }
    }
  }

  lemma {:induction false} GroupOfRefs(alts: seq<Sequence>, names: set<string>)
    requires RefsIn(alts, names)
    ensures GroupRefs(GroupOf(alts).alts) <= names
  {
    if alts != [] {
      var owned := GroupOf(alts).alts;
      assert owned[1..] == GroupOf(alts[1..]).alts;
      assert forall k :: 0 <= k < |alts[1..]| ==> alts[1..][k] == alts[k + 1];
      GroupOfRefs(alts[1..], names);
    }
  }

  lemma {:induction false} ChoiceRefs(alts: seq<Sequence>, names: set<string>)
    requires RefsIn(alts, names)
    ensures ElemRefs(ChoiceOf(alts)) <= names
  {
    GroupOfRefs(alts, names);
    if |alts| == 1 && |alts[0]| == 1 {
      TailRefs(alts[0]);
    }
  }

  lemma {:induction false} DirectRefs(name: string, alts: seq<Sequence>, alts': seq<Sequence>, names: set<string>)
    requires DirectForm(name, alts, alts') && RefsIn(alts, names)
    ensures RefsIn(alts', names)
  {
    PartsRefs(alts, name, names);
    if Tails(alts, name) != [] {
      var guard :| alts' == LoopForm(alts, name, guard);
      ChoiceRefs(Seeds(alts, name), names);
      ChoiceRefs(Tails(alts, name), names);
      DesugarProofs.RefsFew(ChoiceOf(Seeds(alts, name)), Star(ChoiceOf(Tails(alts, name)), guard));
    }
  }

  // ---- over the runs ----

  lemma {:induction false} SplitsRefs(p: Production, added: nat, n: nat, alts: seq<Sequence>, total: nat,
      names: set<string>)
    requires SplitsTo(p, added, n, alts, total) && RefsIn(p.alts, names)
    ensures RefsIn(alts, names)
    decreases n
  {
    hide SplitsTo, RefsIn;
    if n == 0 {
      SplitsNone(p, added, alts, total);
    } else {
      var alts0, total0 := SplitsLess(p, added, n, alts, total);
      SplitsRefs(p, added, n - 1, alts0, total0, names);
      SplitRefs(alts0, FirstHidden(alts0, p.name), names);
    }
  }

  ghost predicate GrammarIn(g: Grammar, names: set<string>) {
    forall i :: 0 <= i < |g| ==> RefsIn(g[i].alts, names)
  }

  lemma {:induction false} SplitsAllRefs(g: Grammar, i: nat, out: Grammar, added: nat, names: set<string>)
    requires SplitsAll(g, i, out, added) && GrammarIn(g, names)
    ensures GrammarIn(out, names)
    decreases i
  {
    hide RefsIn, SplitTurn;
    if i > 0 {
      var out0, added0: nat :| SplitsAll(g, i - 1, out0, added0) && SplitRule(g, i - 1, out0, added0, out, added);
      SplitsAllRefs(g, i - 1, out0, added0, names);
      TurnRefs(g[i - 1], added0, out[i - 1].alts, added, names);
    }
  }

  lemma {:induction false} TurnRefs(p: Production, added: nat, alts: seq<Sequence>, total: nat, names: set<string>)
    requires SplitTurn(p, added, alts, total) && RefsIn(p.alts, names)
    ensures RefsIn(alts, names)
  {
    hide SplitsTo;
    var n: nat :| SplitsTo(p, added, n, alts, total) && (n == SplitGuard(p) || FirstHidden(alts, p.name) == |alts|);
    SplitsRefs(p, added, n, alts, total, names);
  }

  lemma {:induction false} UnfoldsRefs(prods: Grammar, i: nat, added: nat, n: nat, alts: seq<Sequence>, gained: nat,
      total: nat, names: set<string>)
    requires i < |prods| && UnfoldsTo(prods, i, added, n, alts, gained, total) && GrammarIn(prods, names)
    ensures RefsIn(alts, names)
    decreases n
  {
    hide RefsIn, GrammarIn, UnfoldStep;
    if n > 0 {
      var j: nat, alts0, gained0: nat, total0: nat :|
        && UnfoldsTo(prods, i, added, n - 1, alts0, gained0, total0)
        && UnfoldStep(prods, i, j, alts0, gained0, total0, alts, gained, total);
      UnfoldsRefs(prods, i, added, n - 1, alts0, gained0, total0, names);
      UnfoldRefs(prods, i, j, alts0, gained0, total0, alts, gained, total, names);
    } else {
      RefsAt(prods, i, names);
    }
  }

  lemma RefsAt(prods: Grammar, i: nat, names: set<string>)
    requires i < |prods| && GrammarIn(prods, names)
    ensures RefsIn(prods[i].alts, names)
  {
    hide RefsIn;
  }

  lemma UnfoldRefs(prods: Grammar, i: nat, j: nat, alts0: seq<Sequence>, gained0: nat, total0: nat, alts: seq<Sequence>,
      gained: nat, total: nat, names: set<string>)
    requires UnfoldStep(prods, i, j, alts0, gained0, total0, alts, gained, total)
    requires RefsIn(alts0, names) && GrammarIn(prods, names)
    ensures RefsIn(alts, names)
  {
    hide RefsIn, Substitute, HasLeading, AddedAlts, SubstituteGain;
    SubstituteRefs(alts0, prods[j], names);
  }

  lemma {:induction false} DrivesRefs(start: Grammar, cyclic: set<string>, added: nat, i: nat, prods: Grammar,
      total: nat, names: set<string>)
    requires DrivesTo(start, cyclic, added, i, prods, total) && GrammarIn(start, names)
    ensures GrammarIn(prods, names)
    decreases i
  {
    hide RefsIn, Turn;
    if i > 0 {
      var prods0, total0: nat :|
        DrivesTo(start, cyclic, added, i - 1, prods0, total0) && DriveStep(cyclic, i - 1, prods0, total0, prods, total);
      DrivesRefs(start, cyclic, added, i - 1, prods0, total0, names);
      RuleTurnRefs(prods0, i - 1, cyclic, total0, prods[i - 1], total, names);
    }
  }

  lemma {:induction false} RuleTurnRefs(prods: Grammar, i: nat, cyclic: set<string>, added: nat, p: Production,
      total: nat, names: set<string>)
    requires i < |prods| && Turn(prods, i, cyclic, added, p, total) && GrammarIn(prods, names)
    ensures RefsIn(p.alts, names)
  {
    hide RefsIn, DirectForm, UnfoldsTo;
    var n: nat, alts, gained: nat :| TurnVia(prods, i, cyclic, added, p, total, n, alts, gained);
    UnfoldsRefs(prods, i, added, n, alts, gained, total, names);
    DirectRefs(p.name, alts, p.alts, names);
  }

  lemma {:induction false} MembersRefs(a: Grammar, b: Grammar, names: set<string>)
    requires GrammarIn(a, names) && forall p :: p in b ==> p in a
    ensures GrammarIn(b, names)
  {
    hide RefsIn;
    forall i | 0 <= i < |b| ensures RefsIn(b[i].alts, names) {
      assert b[i] in a;
    }
  }

  lemma {:induction false} ResolvedIn(g: Grammar, names: set<string>)
    ensures Resolved(g, names) <==> GrammarIn(g, names)
  {
    hide RefsIn;
    forall i | 0 <= i < |g| ensures AltsRefs(g[i].alts) <= names <==> RefsIn(g[i].alts, names) {
      RefsInAlts(g[i].alts, names);
    }
  }

  /** A grammar whose references are all within `names` comes out of elimination so. */
  lemma {:induction false} EliminationKeepsResolved(g: Grammar, out: Grammar, names: set<string>)
    requires Completes(g, out) && Resolved(g, names)
    ensures Resolved(out, names)
  {
    hide SplitsAll, DrivesTo, PaullOrder, GrammarIn, Resolved;
    var split, added: nat, ordered, cyclic, done, total: nat :|
      Through(g, out, split, added, ordered, cyclic, done, total);
    ResolvedIn(g, names);
    SplitsAllRefs(g, |g|, split, added, names);
    InPaullOrder(split, ordered, cyclic);
    MembersRefs(split, ordered, names);
    DrivesRefs(ordered, cyclic, added, |ordered|, done, total, names);
    MembersRefs(done, out, names);
    ResolvedIn(out, names);
  }

  lemma {:induction false} InPaullOrder(split: Grammar, ordered: Grammar, cyclic: set<string>)
    requires PaullOrder(split, ordered, cyclic)
    ensures forall p :: p in ordered <==> p in split
  {
  }
}
