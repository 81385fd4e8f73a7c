/** From a rule's dispatch decision to the alternates it is written with, and what the
    budget is charged on the way. */
module ChoiceEmit {
  import opened Ir
  import opened Languages
  import opened Alternates
  import opened EntryOrder
  import Dispatch
  import DispatchRun
  import FreshNames

  // ---- one rule ----

  /** Every entry among the alternates, and none fewer units than were charged. */
  method FinishRule(w: RuleWriter, name: string, made: seq<Entry>, loop: bool, close: seq<Alternate>, k: Setting)
    returns (ok: bool, rs: RuleSpec, ghost out: seq<Placed>, ghost es: seq<Entry>)
    requires w.Valid() && w.pre == OpenUnits(Opens(made))
    modifies w, w.budget
    ensures w.Valid() && w.budget.held >= old(w.budget.held)
    ensures ok ==> w.budget.held == old(w.budget.held) && w.pre == 0 && w.log == old(w.log) + [(name, rs)]
    ensures ok ==> rs.open == (if loop then [LoopEntry(name)] else []) + Bodies(out)
    ensures ok ==> rs.close == if loop then [] else close
    ensures ok ==> multiset(Authored(out)) == multiset(Opens(made))
    ensures ok ==> Specific(made, k, es) && exists placed :: Reordered(es, k, placed, out)
  {
    rs, out, es := RuleSpec([], []), [], [];
    var entries := new Entry[|made|](i requires 0 <= i < |made| => made[i]);
    assert entries[..] == made;
    ghost var slots, order, reach := SpecificityPermute(entries, k.hs, k.g);
    var now := entries[..];
    es := now;
    assert BySpecificity(made, k.hs, k.g, es, slots, order, reach);
    OpensPermuted(es, made);
    var placed;
    ghost var before;
    ok, placed, before := ReorderKeywordShadow(w, now, k);
    if !ok {
      return;
    }
    assert es[..|es|] == es;
    BodiesPermuted(placed, before);
    UnitsPermuted(Opens(es), Opens(made));
    var opens := (if loop then [LoopEntry(name)] else []) + Bodies(placed);
    OpenUnitsCat(if loop then [LoopEntry(name)] else [], Bodies(placed));
    rs, out := RuleSpec(opens, if loop then [] else close), placed;
    ok := w.Commit(name, rs, w.pre);
  }

  /** The entries in order of specificity. */
  ghost predicate Specific(made: seq<Entry>, k: Setting, es: seq<Entry>) {
    exists slots, order, reach :: BySpecificity(made, k.hs, k.g, es, slots, order, reach)
  }

  /** The entry of a loop hands over to the loop itself. */
  function LoopEntry(name: string): Alternate {
    Alternate([], 0, None, Some(name))
  }

  lemma {:induction false} OpensPermuted(a: seq<Entry>, b: seq<Entry>)
    requires multiset(a) == multiset(b)
    ensures multiset(Opens(a)) == multiset(Opens(b))
  {
    if a == [] {
      NonePermuted(a, b);
    } else {
      var j := HeadOfPermuted(a, b);
      OpensPermuted(a[1..], Without(b, j));
      assert Without(Opens(b), j) == Opens(Without(b, j));
      WithoutMultiset(Opens(b), j);
      assert Opens(a) == [a[0].o] + Opens(a[1..]);
    }
  }

  // ---- the entries of a choice ----

  /** The rule an alternative of a choice compiles to. */
  function Impl(name: string, i: nat): string {
    name + "$alt" + FreshNames.Decimal(i)
  }

  /** Peek at `s`, push all of it back, and go to `to`: a loop hands over, any other
      choice pushes. */
  function Peek(s: seq<string>, to: string, loop: bool): Alternate {
    Alternate(s, |s|, if loop then None else Some(to), if loop then Some(to) else None)
  }

  function PeekAll(words: seq<Word>, to: string, loop: bool, alt: Option<Sequence>): seq<Entry> {
    seq(|words|, k requires 0 <= k < |words| => Entry(Peek(words[k], to, loop), alt))
  }

  function Single(toks: seq<string>): seq<Word> {
    seq(|toks|, k requires 0 <= k < |toks| => [toks[k]])
  }

  /** One entry for each prefix the alternative needs, or for each token it can begin
      with. */
  function ContentOf(alt: Sequence, c: Dispatch.Choice, firsts: seq<string>, to: string, loop: bool): seq<Entry> {
    if alt == [] then []
    else PeekAll(if c.prefixes != [] then c.prefixes else Single(firsts), to, loop, Some(alt))
  }

  function Content(alts: seq<Sequence>, choices: seq<Dispatch.Choice>, firsts: seq<Option<seq<string>>>, name: string,
      loop: bool, n: nat): seq<Entry>
    requires n <= |alts| == |choices| == |firsts|
  {
    if n == 0 then []
    else
      Content(alts, choices, firsts, name, loop, n - 1)
        + ContentOf(alts[n - 1], choices[n - 1],
          if firsts[n - 1].Some? then firsts[n - 1].value else [], Impl(name, n - 1), loop)
  }

  /** An alternative that can match nothing is reached on what may follow the rule, and
      without a look as the last resort. */
  function EpsilonOf(follow: seq<string>, to: string): seq<Entry> {
    PeekAll(Single(follow), to, false, None) + [Entry(Alternate([], 0, Some(to), None), None)]
  }

  function Epsilon(alts: seq<Sequence>, choices: seq<Dispatch.Choice>, follow: seq<string>, name: string, loop: bool,
      n: nat): seq<Entry>
    requires n <= |alts| == |choices|
  {
    if n == 0 then []
    else
      Epsilon(alts, choices, follow, name, loop, n - 1)
        + if alts[n - 1] != [] && choices[n - 1].nullable && !loop then EpsilonOf(follow, Impl(name, n - 1)) else []
  }

  /** The way out of the rule, on each of `words`. */
  function Leaving(words: seq<Word>, back: nat): seq<Entry> {
    seq(|words|, k requires 0 <= k < |words| => Entry(Alternate(words[k], back, None, None), None))
  }

  function Fallback(follow: seq<string>, helper: bool): seq<Entry> {
    (if helper then Leaving(Single(follow), 1) else []) + [Entry(Alternate([], 0, None, None), None)]
  }

  /** The rules the alternatives compile to. */
  function Impls(alts: seq<Sequence>, chains: seq<seq<(string, RuleSpec)>>, n: nat): seq<(string, RuleSpec)>
    requires n <= |alts| == |chains|
  {
    if n == 0 then [] else Impls(alts, chains, n - 1) + if alts[n - 1] == [] then [] else chains[n - 1]
  }

  /** Entries charged one by one as they are made. */
  method MakeAll(w: RuleWriter, entries: seq<Entry>, more: seq<Entry>) returns (ok: bool)
    requires w.Valid() && w.pre == OpenUnits(Opens(entries))
    modifies w`pre, w.budget
    ensures w.Valid() && w.budget.held == old(w.budget.held)
    ensures ok ==> w.pre == OpenUnits(Opens(entries + more))
  {
    ok := true;
    assert entries + more[..0] == entries;
    for i := 0 to |more|
      invariant ok && w.Valid() && w.budget.held == old(w.budget.held)
      invariant w.pre == OpenUnits(Opens(entries + more[..i]))
    {
      ok := w.Made(more[i].o);
      if !ok {
        return;
      }
      assert Opens(entries + more[..i + 1]) == Opens(entries + more[..i]) + [more[i].o];
      UnitsSnoc(Opens(entries + more[..i]), more[i].o);
    }
    assert more[..|more|] == more;
  }

  /** Guards put in front cost what they cost behind. */
  lemma {:induction false} FrontUnits(a: seq<Entry>, b: seq<Entry>)
    ensures OpenUnits(Opens(a + b)) == OpenUnits(Opens(b + a))
  {
    assert Opens(a + b) == Opens(a) + Opens(b) && Opens(b + a) == Opens(b) + Opens(a);
    OpenUnitsCat(Opens(a), Opens(b));
    OpenUnitsCat(Opens(b), Opens(a));
  }

  datatype Outcome = Finished | TooMuch | Ambiguous(at: nat)

  /** The entries of the alternatives with content, and the rules behind them. */
  method MakeContent(w: RuleWriter, name: string, alts: seq<Sequence>, chains: seq<seq<(string, RuleSpec)>>,
      choices: seq<Dispatch.Choice>, firsts: seq<Option<seq<string>>>, loop: bool)
    returns (r: Outcome, entries: seq<Entry>)
    requires w.Valid() && w.pre == 0 && |alts| == |chains| == |choices| == |firsts|
    modifies w, w.budget
    ensures w.Valid() && w.budget.held == old(w.budget.held)
    ensures r.Ambiguous? ==> r.at < |alts| && alts[r.at] != [] && choices[r.at].prefixes == [] && firsts[r.at].None?
    ensures r.Finished? ==>
      && entries == Content(alts, choices, firsts, name, loop, |alts|) && w.pre == OpenUnits(Opens(entries))
      && w.log == old(w.log) + Impls(alts, chains, |alts|)
  {
    entries := [];
    assert Opens(entries) == [] && w.log == old(w.log) + [];
    for i := 0 to |alts|
      invariant w.Valid() && w.budget.held == old(w.budget.held) && w.pre == OpenUnits(Opens(entries))
      invariant Gone(alts, choices, firsts, name, loop, chains, i, entries, old(w.log), w.log)
    {
      hide OpenUnits, Gone, RuleWriter.Valid;
      ghost var entries0, log0 := entries, w.log;
      if alts[i] != [] {
        r, entries := MakeAlternative(w, entries, alts[i], i, chains[i], choices[i], firsts[i], Impl(name, i), loop);
        if !r.Finished? {
          return;
        }
      }
      GoneOn(alts, choices, firsts, name, loop, chains, i, entries0, old(w.log), log0, entries, w.log);
    }
    return Finished, entries;
  }

  /** How far the entries and the rules behind them have got. */
  ghost predicate Gone(alts: seq<Sequence>, choices: seq<Dispatch.Choice>, firsts: seq<Option<seq<string>>>,
      name: string, loop: bool, chains: seq<seq<(string, RuleSpec)>>, i: nat, entries: seq<Entry>,
      start: seq<(string, RuleSpec)>, log: seq<(string, RuleSpec)>)
    requires i <= |alts| == |choices| == |firsts| == |chains|
  {
    entries == Content(alts, choices, firsts, name, loop, i) && log == start + Impls(alts, chains, i)
  }

  lemma {:induction false} GoneOn(alts: seq<Sequence>, choices: seq<Dispatch.Choice>, firsts: seq<Option<seq<string>>>,
      name: string, loop: bool, chains: seq<seq<(string, RuleSpec)>>, i: nat, entries: seq<Entry>,
      start: seq<(string, RuleSpec)>, log: seq<(string, RuleSpec)>, entries': seq<Entry>, log': seq<(string, RuleSpec)>)
    requires i < |alts| == |choices| == |firsts| == |chains|
    requires Gone(alts, choices, firsts, name, loop, chains, i, entries, start, log)
    requires alts[i] == [] ==> entries' == entries && log' == log
    requires alts[i] != [] ==> log' == log + chains[i]
    requires alts[i] != [] ==>
      entries' == entries + ContentOf(alts[i], choices[i],
        if firsts[i].Some? then firsts[i].value else [], Impl(name, i), loop)
    ensures Gone(alts, choices, firsts, name, loop, chains, i + 1, entries', start, log')
  {
  }

  method MakeAlternative(w: RuleWriter, entries0: seq<Entry>, alt: Sequence, i: nat, chain: seq<(string, RuleSpec)>,
      choice: Dispatch.Choice, first: Option<seq<string>>, to: string, loop: bool)
    returns (r: Outcome, entries: seq<Entry>)
    requires w.Valid() && w.pre == OpenUnits(Opens(entries0)) && alt != []
    modifies w, w.budget
    ensures w.Valid() && w.budget.held == old(w.budget.held)
    ensures r.Ambiguous? ==> r.at == i && choice.prefixes == [] && first.None?
    ensures r.Finished? ==>
      && entries == entries0 + ContentOf(alt, choice, if first.Some? then first.value else [], to, loop)
      && w.pre == OpenUnits(Opens(entries)) && w.log == old(w.log) + chain
  {
    hide OpenUnits, ContentOf;
    entries := entries0;
    var ok := w.CommitAll(chain);
    if !ok {
      return TooMuch, entries;
    }
    if choice.prefixes == [] && first.None? {
      return Ambiguous(i), entries;
    }
    var more := ContentOf(alt, choice, if first.Some? then first.value else [], to, loop);
    ok := MakeAll(w, entries, more);
    entries := entries + more;
    r := if ok then Finished else TooMuch;
  }

  method MakeEpsilon(w: RuleWriter, name: string, alts: seq<Sequence>, choices: seq<Dispatch.Choice>,
      follow: seq<string>, loop: bool, entries: seq<Entry>)
    returns (ok: bool, out: seq<Entry>)
    requires w.Valid() && w.pre == OpenUnits(Opens(entries)) && |alts| == |choices|
    modifies w`pre, w.budget
    ensures w.Valid() && w.budget.held == old(w.budget.held)
    ensures ok ==> out == entries + Epsilon(alts, choices, follow, name, loop, |alts|) && w.pre == OpenUnits(Opens(out))
  {
    ok, out := true, entries;
    assert entries + [] == entries;
    hide OpenUnits, EpsilonOf;
    for i := 0 to |alts|
      invariant ok && w.Valid() && w.budget.held == old(w.budget.held)
      invariant out == entries + Epsilon(alts, choices, follow, name, loop, i) && w.pre == OpenUnits(Opens(out))
    {
      hide OpenUnits, Epsilon, EpsilonOf, RuleWriter.Valid, Opens;
      EpsilonNext(alts, choices, follow, name, loop, i, entries);
      if alts[i] != [] && choices[i].nullable && !loop {
        var more := EpsilonOf(follow, Impl(name, i));
        ok := MakeAll(w, out, more);
        if !ok {
          return;
        }
        out := out + more;
      }
    }
  }

  lemma {:induction false} EpsilonNext(alts: seq<Sequence>, choices: seq<Dispatch.Choice>, follow: seq<string>,
      name: string, loop: bool, i: nat, entries: seq<Entry>)
    requires i < |alts| == |choices|
    ensures entries + Epsilon(alts, choices, follow, name, loop, i + 1)
      == entries + Epsilon(alts, choices, follow, name, loop, i)
        + if alts[i] != [] && choices[i].nullable && !loop then EpsilonOf(follow, Impl(name, i)) else []
  {
  }

  /** The way out, if the rule has an empty alternative: for a repetition's helper on
      what may follow, the guards on two tokens ahead of everything. */
  method MakeFallback(w: RuleWriter, entries: seq<Entry>, follow: seq<string>, pairs: seq<Word>, helper: bool)
    returns (ok: bool, out: seq<Entry>)
    requires w.Valid() && w.pre == OpenUnits(Opens(entries))
    modifies w`pre, w.budget
    ensures w.Valid() && w.budget.held == old(w.budget.held)
    ensures ok ==> w.pre == OpenUnits(Opens(out))
    ensures ok ==> out == (if helper then Leaving(pairs, 2) else []) + entries + Fallback(follow, helper)
  {
    out := entries;
    if helper {
      var peeks := Leaving(Single(follow), 1);
      ok := MakeAll(w, out, peeks);
      if !ok {
        return;
      }
      out := out + peeks;
      var guards := Leaving(pairs, 2);
      ok := MakeAll(w, out, guards);
      if !ok {
        return;
      }
      FrontUnits(out, guards);
      out := guards + out;
    }
    var bare := [Entry(Alternate([], 0, None, None), None)];
    ok := MakeAll(w, out, bare);
    out := out + bare;
    assert ok ==> out == (if helper then Leaving(pairs, 2) else []) + entries + Fallback(follow, helper);
  }

  /** The entries a choice is emitted with, before they are put in order. */
  function Made(alts: seq<Sequence>, choices: seq<Dispatch.Choice>, firsts: seq<Option<seq<string>>>,
      follow: seq<string>, pairs: seq<Word>, name: string, helper: bool, loop: bool): seq<Entry>
    requires |alts| == |choices| == |firsts|
  {
    var body := Content(alts, choices, firsts, name, loop, |alts|) + Epsilon(alts, choices, follow, name, loop, |alts|);
    if [] in alts then (if helper then Leaving(pairs, 2) else []) + body + Fallback(follow, helper) else body
  }

  const K: nat := 4

  /** A rule with several alternatives: each decided by the prefixes it needs, its own
      rules written, and the choice among them.  Whatever the reorderings do, what is
      charged in all is what the rules hold, and nothing stays held. */
  method EmitChoice(w: RuleWriter, name: string, alts: seq<Sequence>, chains: seq<seq<(string, RuleSpec)>>,
      firsts: seq<Option<seq<string>>>, follow: seq<string>, pairs: seq<Word>, helper: bool, loop: bool,
      close: seq<Alternate>, contest: Dispatch.Contest, exits: seq<Word>, hs: Heads, g: Grammar)
    returns (r: Outcome, rs: RuleSpec, ghost choices: seq<Dispatch.Choice>, ghost out: seq<Placed>,
             ghost es: seq<Entry>)
    requires w.Valid() && w.pre == 0 && |alts| == |chains| == |firsts| && forall e :: e in exits ==> e != []
    modifies w, w.budget
    ensures w.Valid()
    ensures r.Finished? ==> w.budget.held == old(w.budget.held) && w.pre == 0
    ensures r.Finished? ==> w.log == old(w.log) + Impls(alts, chains, |alts|) + [(name, rs)]
    ensures r.Finished? ==> |choices| == |alts| && exists heads, deep ::
      && Dispatch.Decision(alts, g, K, contest, exits, heads, deep)
      && DispatchRun.AllDecided(alts, g, exits, contest, heads, deep, choices)
    ensures r.Finished? ==> rs.open == (if loop then [LoopEntry(name)] else []) + Bodies(out)
    ensures r.Finished? ==> rs.close == if loop then [] else close
    ensures r.Finished? ==>
      multiset(Authored(out)) == multiset(Opens(Made(alts, choices, firsts, follow, pairs, name, helper, loop)))
    ensures r.Finished? ==>
      && Specific(Made(alts, choices, firsts, follow, pairs, name, helper, loop), Setting(hs, g, follow), es)
      && exists placed :: Reordered(es, Setting(hs, g, follow), placed, out)
  {
    rs, choices, out, es := RuleSpec([], []), [], [], [];
    var base := w.budget.held;
    hide OpenUnits, Impls, Bodies, Authored, Opens, Specific, Reordered, Dispatch.Decision, DispatchRun.AllDecided;
    var ok, cs, heads, deep := DispatchRun.DispatchPrefixes(alts, g, K, contest, exits, w.budget);
    if !ok {
      return TooMuch, rs, choices, out, es;
    }
    choices := cs;
    assert Dispatch.Decision(alts, g, K, contest, exits, heads, deep);
    var entries;
    r, entries := MakeContent(w, name, alts, chains, cs, firsts, loop);
    if !r.Finished? {
      return;
    }
    w.budget.Restore(base);
    ok, entries := MakeEpsilon(w, name, alts, cs, follow, loop, entries);
    if ok && [] in alts {
      ok, entries := MakeFallback(w, entries, follow, pairs, helper);
    }
    if ok {
      ok, rs, out, es := FinishRule(w, name, entries, loop, close, Setting(hs, g, follow));
    }
    if !ok {
      r := TooMuch;
    }
  }
}
