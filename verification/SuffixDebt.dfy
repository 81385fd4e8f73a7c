/** The suffix-debt counter of a contested left-recursion tail loop.

    A rule `A` repeats tail tokens after a base that is an atom or an `A` between an
    opening and a closing token.  The emitted loop is greedy, so a closing token that
    is also a tail token would be eaten by the inner loop; the counter says how many
    closing tokens the enclosing frames still owe, and the loop leaves the contested
    ones alone while it is not zero. */
module SuffixDebt {
  import opened Ir
  import opened Languages
  import opened Analysis

  // ---- the annotation ----

  /** What a push followed by `suffix` does to the loop's counter: nothing when the
      suffix can vanish, one more when it can begin with a token of the loop, and
      otherwise back to zero. */
  function PushDelta(suffix: Sequence, loopFirst: set<string>, first: Sets, nullable: set<string>): Option<nat> {
    if suffix == [] then None
    else
      var (f, vanishes) := FirstOfSeq(suffix, first, nullable);
      if vanishes then None else if f * loopFirst != {} then Some(1) else Some(0)
  }

  /** The counter a pushed rule starts with: zero resets it, any other amount is added,
      and an unmarked push hands it on. */
  function Pushed(n: nat, delta: Option<nat>): nat {
    match delta
    case None => n
    case Some(d) => if d == 0 then 0 else n + d
  }

  // ---- the family of grammars ----

  /** `A = A t / ... / o A c / ... / z / ...`. */
  datatype Family = Family(rule: string, tails: seq<string>, wraps: seq<(string, string)>, atoms: seq<string>) {
    /** An alternative is chosen by its first token. */
    predicate Valid() {
      && (forall i, j :: 0 <= i < j < |wraps| ==> wraps[i].0 != wraps[j].0)
      && (forall i :: 0 <= i < |wraps| ==> wraps[i].0 !in atoms)
    }

    function Alternatives(): seq<Sequence> {
      seq(|tails|, i requires 0 <= i < |tails| => [Ref(rule), Term(tails[i])])
      + seq(|wraps|, i requires 0 <= i < |wraps| => [Term(wraps[i].0), Ref(rule), Term(wraps[i].1)])
      + seq(|atoms|, i requires 0 <= i < |atoms| => [Term(atoms[i])])
    }

    function Source(): Grammar {
      [Production(rule, Alternatives())]
    }

    ghost function Words(): Lang {
      At(Language(Source()), rule)
    }

    predicate Closes(t: string) {
      exists i :: 0 <= i < |wraps| && wraps[i].1 == t
    }

    /** The tail tokens that some enclosing frame can owe. */
    predicate Owed(t: string) {
      t in tails && Closes(t)
    }

    /** The branches the loop may take with its counter at `n`: the guard asks for zero
        on the owed ones. */
    predicate Takes(t: string, n: nat) {
      t in tails && (Owed(t) ==> n == 0)
    }

    function Delta(closing: string): Option<nat> {
      PushDelta([Term(closing)], set t | t in tails, map[], {})
    }
  }

  lemma DeltaIs(f: Family, closing: string)
    ensures f.Delta(closing) == Some(if closing in f.tails then 1 else 0)
  {
    var loopFirst := set t | t in f.tails;
    assert FirstOfSeq([Term(closing)], map[], {}) == ({closing}, false);
    assert closing in {closing} * loopFirst <==> closing in f.tails;
    assert {closing} * loopFirst != {} <==> closing in {closing} * loopFirst;
  }

  // ---- the machine ----

  /** A rule instance on the stack with its counter: about to read a base, waiting for
      its closing token, or in its loop. */
  datatype Frame = Base(n: nat) | Closing(tok: string, n: nat) | Loop(n: nat)

  function WrapOf(f: Family, o: string): (r: Option<string>)
    ensures r.Some? ==> (o, r.value) in f.wraps
    ensures r.None? ==> forall i :: 0 <= i < |f.wraps| ==> f.wraps[i].0 != o
  {
    FindWrap(f.wraps, o)
  }

  function FindWrap(wraps: seq<(string, string)>, o: string): (r: Option<string>)
    ensures r.Some? ==> (o, r.value) in wraps
    ensures r.None? ==> forall i :: 0 <= i < |wraps| ==> wraps[i].0 != o
  {
    if wraps == [] then None
    else if wraps[0].0 == o then
      assert wraps[0] == (o, wraps[0].1);
      Some(wraps[0].1)
    else FindWrap(wraps[1..], o)
  }

  /** The run of the emitted rules on a stack, top first.  A parent's counter is its
      own: what its children count never comes back up. */
  predicate Accepts(f: Family, stack: seq<Frame>, input: Word)
    decreases |input|, |stack|
  {
    if stack == [] then input == []
    else
      match stack[0]
      case Base(n) =>
        if input == [] then false
        else if input[0] in f.atoms then Accepts(f, [Loop(n)] + stack[1..], input[1..])
        else
          var c := WrapOf(f, input[0]);
          c.Some? && Accepts(f, Opened(f, c.value, n, stack[1..]), input[1..])
      case Closing(c, n) =>
        input != [] && input[0] == c && Accepts(f, [Loop(n)] + stack[1..], input[1..])
      case Loop(n) =>
        if input != [] && f.Takes(input[0], n) then Accepts(f, stack, input[1..])
        else Accepts(f, stack[1..], input)
  }

  predicate Parses(f: Family, w: Word) {
    Accepts(f, [Base(0)], w)
  }

  // ---- the words the machine reads ----

  ghost predicate Run(f: Family, w: Word, n: nat) {
    forall i :: 0 <= i < |w| ==> f.Takes(w[i], n)
  }

  /** What an `A` pushed with counter `n` reads. */
  ghost predicate Reads(f: Family, w: Word, n: nat)
    decreases |w|, 1
  {
    w != [] && if w[0] in f.atoms then Run(f, w[1..], n) else exists k :: 0 < k < |w| && ReadsWrap(f, w, n, k)
  }

  ghost predicate ReadsWrap(f: Family, w: Word, n: nat, k: int)
    decreases |w|, 0
  {
    0 < k < |w| && WrapOf(f, w[0]) == Some(w[k]) && Reads(f, w[1..k], Pushed(n, f.Delta(w[k]))) && Run(f, w[k + 1..], n)
  }

  ghost predicate FrameReads(f: Family, frame: Frame, w: Word) {
    match frame
    case Base(n) => Reads(f, w, n)
    case Closing(c, n) => w != [] && w[0] == c && Run(f, w[1..], n)
    case Loop(n) => Run(f, w, n)
  }

  ghost predicate StackReads(f: Family, stack: seq<Frame>, w: Word)
    decreases |stack|
  {
    if stack == [] then w == [] else exists k :: StackSplit(f, stack, w, k)
  }

  ghost predicate StackSplit(f: Family, stack: seq<Frame>, w: Word, k: int)
    requires stack != []
    decreases |stack|, 0
  {
    0 <= k <= |w| && FrameReads(f, stack[0], w[..k]) && StackReads(f, stack[1..], w[k..])
  }

  // ---- the machine accepts exactly what it reads ----

  lemma StackSplitIntro(f: Family, stack: seq<Frame>, u: Word, v: Word)
    requires stack != [] && FrameReads(f, stack[0], u) && StackReads(f, stack[1..], v)
    ensures StackReads(f, stack, u + v)
  {
    assert (u + v)[..|u|] == u && (u + v)[|u|..] == v;
    assert StackSplit(f, stack, u + v, |u|);
  }

  lemma StackSplitElim(f: Family, stack: seq<Frame>, w: Word) returns (u: Word, v: Word)
    requires stack != [] && StackReads(f, stack, w)
    ensures w == u + v && FrameReads(f, stack[0], u) && StackReads(f, stack[1..], v)
  {
    var k :| StackSplit(f, stack, w, k);
    u, v := w[..k], w[k..];
  }

  lemma ReadsAtom(f: Family, z: string, r: Word, n: nat)
    requires z in f.atoms && Run(f, r, n)
    ensures Reads(f, [z] + r, n)
  {
    assert ([z] + r)[1..] == r;
  }

  lemma ReadsWrapped(f: Family, o: string, u: Word, c: string, r: Word, n: nat)
    requires o !in f.atoms && WrapOf(f, o) == Some(c) && Reads(f, u, Pushed(n, f.Delta(c))) && Run(f, r, n)
    ensures Reads(f, [o] + u + [c] + r, n)
  {
    var w := [o] + u + [c] + r;
    var k := |u| + 1;
    assert w[1..k] == u && w[k] == c && w[k + 1..] == r;
    assert ReadsWrap(f, w, n, k);
  }

  /** The word of a wrapped `A`, taken apart. */
  lemma ReadsElim(f: Family, w: Word, n: nat) returns (u: Word, c: string, r: Word)
    requires Reads(f, w, n) && w[0] !in f.atoms
    ensures w == [w[0]] + u + [c] + r && |u| < |w|
    ensures WrapOf(f, w[0]) == Some(c) && Reads(f, u, Pushed(n, f.Delta(c))) && Run(f, r, n)
  {
    var k :| 0 < k < |w| && ReadsWrap(f, w, n, k);
    u, c, r := w[1..k], w[k], w[k + 1..];
  }

  lemma {:induction false} AcceptsReads(f: Family, stack: seq<Frame>, input: Word)
    requires Accepts(f, stack, input)
    ensures StackReads(f, stack, input)
    decreases |input|, |stack|
  {
    if stack != [] {
      match stack[0] {
        case Base(n) => BaseReads(f, stack, input);
        case Closing(c, n) =>
          AcceptsReads(f, [Loop(n)] + stack[1..], input[1..]);
          var u, v := StackSplitElim(f, [Loop(n)] + stack[1..], input[1..]);
          assert ([input[0]] + u)[1..] == u;
          StackSplitIntro(f, stack, [input[0]] + u, v);
          assert [input[0]] + u + v == input;
        case Loop(n) =>
          if input != [] && f.Takes(input[0], n) {
            AcceptsReads(f, stack, input[1..]);
            var u, v := StackSplitElim(f, stack, input[1..]);
            StackSplitIntro(f, stack, [input[0]] + u, v);
            assert [input[0]] + u + v == input;
          } else {
            AcceptsReads(f, stack[1..], input);
            StackSplitIntro(f, stack, [], input);
            assert [] + input == input;
          }
      }
    }
  }

  /** The stack after a base pushed an inner `A`. */
  function Opened(f: Family, c: string, n: nat, below: seq<Frame>): seq<Frame> {
    [Base(Pushed(n, f.Delta(c))), Closing(c, n)] + below
  }

  lemma OpenedElim(f: Family, c: string, n: nat, below: seq<Frame>, w: Word) returns (x: Word, r: Word, v: Word)
    requires StackReads(f, Opened(f, c, n, below), w)
    ensures w == x + [c] + r + v && Reads(f, x, Pushed(n, f.Delta(c))) && Run(f, r, n) && StackReads(f, below, v)
  {
    var stack := Opened(f, c, n, below);
    var u;
    x, u := StackSplitElim(f, stack, w);
    var lower := stack[1..];
    assert lower[0] == Closing(c, n) && lower[1..] == below;
    var y;
    y, v := StackSplitElim(f, lower, u);
    r := y[1..];
    assert y == [c] + r;
  }

  lemma OpenedIntro(f: Family, c: string, n: nat, below: seq<Frame>, x: Word, r: Word, v: Word)
    requires Reads(f, x, Pushed(n, f.Delta(c))) && Run(f, r, n) && StackReads(f, below, v)
    ensures StackReads(f, Opened(f, c, n, below), x + [c] + r + v)
  {
    var stack := Opened(f, c, n, below);
    var lower := stack[1..];
    assert lower[0] == Closing(c, n) && lower[1..] == below;
    assert ([c] + r)[1..] == r;
    StackSplitIntro(f, lower, [c] + r, v);
    StackSplitIntro(f, stack, x, [c] + r + v);
    assert x + ([c] + r + v) == x + [c] + r + v;
  }

  lemma {:induction false} BaseReads(f: Family, stack: seq<Frame>, input: Word)
    requires Accepts(f, stack, input) && stack != [] && stack[0].Base?
    ensures StackReads(f, stack, input)
    decreases |input|, |stack|, 0
  {
    var n, below := stack[0].n, stack[1..];
    if input[0] in f.atoms {
      AcceptsReads(f, [Loop(n)] + below, input[1..]);
      var u, v := StackSplitElim(f, [Loop(n)] + below, input[1..]);
      ReadsAtom(f, input[0], u, n);
      StackSplitIntro(f, stack, [input[0]] + u, v);
      assert [input[0]] + u + v == input;
    } else {
      var c := WrapOf(f, input[0]).value;
      AcceptsReads(f, Opened(f, c, n, below), input[1..]);
      WrapReads(f, stack, input[0], input[1..], c);
      assert input == [input[0]] + input[1..];
    }
  }

  lemma WrapReads(f: Family, stack: seq<Frame>, o: string, rest: Word, c: string)
    requires stack != [] && stack[0].Base? && o !in f.atoms && WrapOf(f, o) == Some(c)
    requires StackReads(f, Opened(f, c, stack[0].n, stack[1..]), rest)
    ensures StackReads(f, stack, [o] + rest)
  {
    var x, r, v := OpenedElim(f, c, stack[0].n, stack[1..], rest);
    WrapJoined(f, stack, o, x, c, r, v);
    assert [o] + x + [c] + r + v == [o] + (x + [c] + r + v);
  }

  lemma WrapJoined(f: Family, stack: seq<Frame>, o: string, x: Word, c: string, r: Word, v: Word)
    requires stack != [] && stack[0].Base? && o !in f.atoms && WrapOf(f, o) == Some(c)
    requires Reads(f, x, Pushed(stack[0].n, f.Delta(c))) && Run(f, r, stack[0].n) && StackReads(f, stack[1..], v)
    ensures StackReads(f, stack, [o] + x + [c] + r + v)
  {
    ReadsWrapped(f, o, x, c, r, stack[0].n);
    StackSplitIntro(f, stack, [o] + x + [c] + r, v);
  }

  /** Counters as pushes set them: the bottom starts at zero, and every other frame
      stands on the one that pushed it. */
  ghost predicate Counted(f: Family, stack: seq<Frame>) {
    stack == []
    || (|stack| == 1 && stack[0].n == 0)
    || (|stack| > 1 && stack[1].Closing? && f.Closes(stack[1].tok)
      && stack[0].n == Pushed(stack[1].n, f.Delta(stack[1].tok)) && Counted(f, stack[1..]))
  }

  lemma CountedTop(f: Family, stack: seq<Frame>, top: Frame)
    requires stack != [] && Counted(f, stack) && top.n == stack[0].n
    ensures Counted(f, [top] + stack[1..])
  {
    assert ([top] + stack[1..])[1..] == stack[1..];
  }

  /** A loop stops no later than it should: what stands below never begins with a token
      the loop takes. */
  lemma LoopYields(f: Family, stack: seq<Frame>, v: Word)
    requires stack != [] && stack[0].Loop? && Counted(f, stack) && StackReads(f, stack[1..], v) && v != []
    ensures !f.Takes(v[0], stack[0].n)
  {
    if |stack| > 1 {
      var below := stack[1..];
      var x, y := StackSplitElim(f, below, v);
      var c := below[0].tok;
      DeltaIs(f, c);
      assert v[0] == c;
    }
  }

  lemma WrapCloses(f: Family, o: string, c: string)
    requires WrapOf(f, o) == Some(c)
    ensures f.Closes(c)
  {
    var i :| 0 <= i < |f.wraps| && f.wraps[i] == (o, c);
  }

  /** Whatever the frames of a stack read in turn, the machine accepts. */
  lemma {:induction false} ReadsAccepts(f: Family, stack: seq<Frame>, input: Word)
    requires f.Valid() && Counted(f, stack) && StackReads(f, stack, input)
    ensures Accepts(f, stack, input)
    decreases |input|, |stack|, 1
  {
    if stack != [] {
      var u, v := StackSplitElim(f, stack, input);
      match stack[0] {
        case Base(n) => BaseAccepts(f, stack, input, u, v);
        case Closing(c, n) =>
          CountedTop(f, stack, Loop(n));
          assert input[1..] == u[1..] + v;
          assert ([Loop(n)] + stack[1..])[1..] == stack[1..];
          StackSplitIntro(f, [Loop(n)] + stack[1..], u[1..], v);
          ReadsAccepts(f, [Loop(n)] + stack[1..], input[1..]);
        case Loop(n) => LoopAccepts(f, stack, input, u, v);
      }
    }
  }

  lemma CountedBelow(f: Family, stack: seq<Frame>)
    requires stack != [] && Counted(f, stack)
    ensures Counted(f, stack[1..])
  {
  }

  lemma {:induction false} LoopAccepts(f: Family, stack: seq<Frame>, input: Word, u: Word, v: Word)
    requires f.Valid() && Counted(f, stack) && stack != [] && stack[0].Loop?
    requires input == u + v && Run(f, u, stack[0].n) && StackReads(f, stack[1..], v)
    ensures Accepts(f, stack, input)
    decreases |input|, |stack|, 0
  {
    if u == [] {
      assert input == v;
      if v != [] {
        LoopYields(f, stack, v);
      }
      CountedBelow(f, stack);
      ReadsAccepts(f, stack[1..], input);
    } else {
      assert f.Takes(u[0], stack[0].n) && input[0] == u[0];
      assert input[1..] == u[1..] + v;
      StackSplitIntro(f, stack, u[1..], v);
      ReadsAccepts(f, stack, input[1..]);
    }
  }

  lemma {:induction false} BaseAccepts(f: Family, stack: seq<Frame>, input: Word, u: Word, v: Word)
    requires f.Valid() && Counted(f, stack) && stack != [] && stack[0].Base?
    requires input == u + v && Reads(f, u, stack[0].n) && StackReads(f, stack[1..], v)
    ensures Accepts(f, stack, input)
    decreases |input|, |stack|, 0, 1
  {
    var n, below := stack[0].n, stack[1..];
    assert input[0] == u[0];
    if u[0] in f.atoms {
      var next := [Loop(n)] + below;
      CountedTop(f, stack, Loop(n));
      assert next[1..] == below && input[1..] == u[1..] + v;
      StackSplitIntro(f, next, u[1..], v);
      ReadsAccepts(f, next, input[1..]);
    } else {
      WrapAccepts(f, stack, input, u, v);
    }
  }

  lemma {:induction false} WrapAccepts(f: Family, stack: seq<Frame>, input: Word, u: Word, v: Word)
    requires f.Valid() && Counted(f, stack) && stack != [] && stack[0].Base?
    requires input == u + v && Reads(f, u, stack[0].n) && u[0] !in f.atoms && StackReads(f, stack[1..], v)
    ensures Accepts(f, stack, input)
    decreases |input|, |stack|, 0, 0
  {
    var n, below := stack[0].n, stack[1..];
    var x, c, r := ReadsElim(f, u, n);
    OpenedIntro(f, c, n, below, x, r, v);
    OpenedCounted(f, stack, u[0], c);
    assert input[1..] == x + [c] + r + v;
    ReadsAccepts(f, Opened(f, c, n, below), input[1..]);
  }

  lemma OpenedCounted(f: Family, stack: seq<Frame>, o: string, c: string)
    requires stack != [] && Counted(f, stack) && WrapOf(f, o) == Some(c)
    ensures Counted(f, Opened(f, c, stack[0].n, stack[1..]))
  {
    var n, below := stack[0].n, stack[1..];
    CountedTop(f, stack, Closing(c, n));
    WrapCloses(f, o, c);
    assert Opened(f, c, n, below)[1..] == [Closing(c, n)] + below;
  }

  /** The machine accepts exactly the words an `A` with nothing owed reads. */
  lemma ParsesIsReads(f: Family, w: Word)
    requires f.Valid()
    ensures Parses(f, w) <==> Reads(f, w, 0)
  {
    var stack := [Base(0)];
    assert stack[1..] == [];
    if Parses(f, w) {
      AcceptsReads(f, stack, w);
      var u, v := StackSplitElim(f, stack, w);
      assert w == u;
    }
    if Reads(f, w, 0) {
      StackSplitIntro(f, stack, w, []);
      assert w + [] == w;
      ReadsAccepts(f, stack, w);
    }
  }

  // ---- what it reads is in the language ----

  lemma TailWord(f: Family, u: Word, t: string)
    requires u in f.Words() && t in f.tails
    ensures u + [t] in f.Words()
  {
    var m := Language(f.Source());
    var i :| 0 <= i < |f.tails| && f.tails[i] == t;
    assert f.Alternatives()[i] == [Ref(f.rule), Term(t)];
    PairLang(Ref(f.rule), Term(t), m);
    CatIntro(u, [t], At(m, f.rule), ElemLang(Term(t), m));
    AltWord(f, i, u + [t]);
  }

  lemma AltWord(f: Family, i: nat, w: Word)
    requires i < |f.Alternatives()| && w in SeqLang(f.Alternatives()[i], Language(f.Source()))
    ensures w in f.Words()
  {
    AltsIntro(i, w, f.Alternatives(), Language(f.Source()));
    RuleLanguage(f.Source(), 0);
  }

  lemma WrapLang(o: string, n: string, c: string, m: Model)
    ensures SeqLang([Term(o), Ref(n), Term(c)], m) == Cat(iset{[o]}, Cat(At(m, n), iset{[c]}))
  {
    assert [Term(o), Ref(n), Term(c)] == [Term(o)] + [Ref(n), Term(c)];
    SeqCons(Term(o), [Ref(n), Term(c)], m);
    PairLang(Ref(n), Term(c), m);
  }

  lemma WrapWord(f: Family, o: string, u: Word, c: string)
    requires u in f.Words() && WrapOf(f, o) == Some(c)
    ensures [o] + u + [c] in f.Words()
  {
    var m := Language(f.Source());
    var j :| 0 <= j < |f.wraps| && f.wraps[j] == (o, c);
    var i := |f.tails| + j;
    assert f.Alternatives()[i] == [Term(o), Ref(f.rule), Term(c)];
    WrapLang(o, f.rule, c, m);
    CatIntro(u, [c], At(m, f.rule), iset{[c]});
    CatIntro([o], u + [c], iset{[o]}, Cat(At(m, f.rule), iset{[c]}));
    assert [o] + (u + [c]) == [o] + u + [c];
    AltWord(f, i, [o] + u + [c]);
  }

  lemma AtomWord(f: Family, z: string)
    requires z in f.atoms
    ensures [z] in f.Words()
  {
    var m := Language(f.Source());
    var j :| 0 <= j < |f.atoms| && f.atoms[j] == z;
    var i := |f.tails| + |f.wraps| + j;
    assert f.Alternatives()[i] == [Term(z)];
    SeqOne(Term(z), m);
    AltWord(f, i, [z]);
  }

  lemma {:induction false} RunWord(f: Family, u: Word, r: Word, n: nat)
    requires u in f.Words() && Run(f, r, n)
    ensures u + r in f.Words()
    decreases |r|
  {
    if r == [] {
      assert u + r == u;
    } else {
      assert f.Takes(r[0], n);
      TailWord(f, u, r[0]);
      RunWord(f, u + [r[0]], r[1..], n);
      assert u + [r[0]] + r[1..] == u + r;
    }
  }

  lemma {:induction false} ReadsWords(f: Family, w: Word, n: nat)
    requires Reads(f, w, n)
    ensures w in f.Words()
    decreases |w|
  {
    if w[0] in f.atoms {
      AtomWord(f, w[0]);
      RunWord(f, [w[0]], w[1..], n);
      assert [w[0]] + w[1..] == w;
    } else {
      var u, c, r := ReadsElim(f, w, n);
      ReadsWords(f, u, Pushed(n, f.Delta(c)));
      WrapWord(f, w[0], u, c);
      RunWord(f, [w[0]] + u + [c], r, n);
    }
  }

  // ---- with one contested token everything in the language is read ----

  predicate AtMostOneOwed(f: Family) {
    forall i, j :: 0 <= i < |f.wraps| && 0 <= j < |f.wraps| && f.Owed(f.wraps[i].1) && f.Owed(f.wraps[j].1) ==>
      f.wraps[i].1 == f.wraps[j].1
  }

  ghost predicate TailsOnly(f: Family, w: Word) {
    forall i :: 0 <= i < |w| ==> w[i] in f.tails
  }

  ghost predicate Yields(f: Family, w: Word, u: Word, s: Word) {
    w == u + s && Reads(f, u, 1) && TailsOnly(f, s)
  }

  /** Read whole when nothing is owed, and up to a run of tails when something is. */
  ghost predicate Readable(f: Family, w: Word) {
    Reads(f, w, 0) && exists u, s :: Yields(f, w, u, s)
  }

  lemma RunGrows(f: Family, w: Word, s: Word, n: nat)
    requires Reads(f, w, n) && Run(f, s, n)
    ensures Reads(f, w + s, n)
  {
    if w[0] in f.atoms {
      ReadsAtom(f, w[0], w[1..] + s, n);
      assert [w[0]] + (w[1..] + s) == w + s;
    } else {
      var u, c, r := ReadsElim(f, w, n);
      ReadsWrapped(f, w[0], u, c, r + s, n);
      assert [w[0]] + u + [c] + (r + s) == w + s;
    }
  }

  /** Only whether something is owed matters. */
  lemma {:induction false} OnlyZeroMatters(f: Family, w: Word, n: nat, m: nat)
    requires Reads(f, w, n) && n > 0 && m > 0
    ensures Reads(f, w, m)
    decreases |w|
  {
    if w[0] in f.atoms {
      ReadsAtom(f, w[0], w[1..], m);
      assert [w[0]] + w[1..] == w;
    } else {
      var u, c, r := ReadsElim(f, w, n);
      DeltaIs(f, c);
      if c in f.tails {
        OnlyZeroMatters(f, u, n + 1, m + 1);
      }
      ReadsWrapped(f, w[0], u, c, r, m);
    }
  }

  lemma AtomReadable(f: Family, z: string)
    requires z in f.atoms
    ensures Readable(f, [z])
  {
    assert [z] + [] == [z];
    ReadsAtom(f, z, [], 0);
    ReadsAtom(f, z, [], 1);
    assert Yields(f, [z], [z], []);
  }

  lemma TailReadable(f: Family, w: Word, t: string)
    requires Readable(f, w) && t in f.tails
    ensures Readable(f, w + [t])
  {
    RunGrows(f, w, [t], 0);
    var u, s :| Yields(f, w, u, s);
    assert w + [t] == u + (s + [t]);
    assert Yields(f, w + [t], u, s + [t]);
  }

  /** Where a run of tails up to a closing token first has that token. */
  lemma {:induction false} FirstOf(c: string, s: Word) returns (s1: Word, s2: Word)
    ensures s + [c] == s1 + [c] + s2 && c !in s1
    ensures forall t :: t in s1 ==> t in s
    ensures |s1| + |s2| == |s| && forall i :: 0 <= i < |s2| ==> s2[i] == (s + [c])[|s1| + 1 + i]
  {
    if s == [] {
      s1, s2 := [], [];
    } else if s[0] == c {
      s1, s2 := [], s[1..] + [c];
      assert s + [c] == [c] + (s[1..] + [c]);
    } else {
      var t1;
      t1, s2 := FirstOf(c, s[1..]);
      s1 := [s[0]] + t1;
      assert s + [c] == [s[0]] + (s[1..] + [c]);
      assert s1 + [c] + s2 == [s[0]] + (t1 + [c] + s2);
    }
  }

  lemma SplitTails(f: Family, c: string, s: Word) returns (s1: Word, s2: Word)
    requires TailsOnly(f, s) && c in f.tails
    ensures s + [c] == s1 + [c] + s2 && c !in s1 && TailsOnly(f, s1) && TailsOnly(f, s2)
  {
    s1, s2 := FirstOf(c, s);
    assert TailsOnly(f, s + [c]);
    assert forall i :: 0 <= i < |s1| ==> s1[i] in s;
  }

  lemma OwedWrapReads(f: Family, o: string, a: Word, c: string, n: nat)
    requires f.Valid() && WrapOf(f, o) == Some(c) && c in f.tails && Reads(f, a, 1)
    ensures Reads(f, [o] + a + [c], n)
  {
    WrapHead(f, o, c);
    DeltaIs(f, c);
    OnlyZeroMatters(f, a, 1, n + 1);
    ReadsWrapped(f, o, a, c, [], n);
    assert [o] + a + [c] + [] == [o] + a + [c];
  }

  lemma WrapHead(f: Family, o: string, c: string)
    requires f.Valid() && WrapOf(f, o) == Some(c)
    ensures o !in f.atoms
  {
    var i :| 0 <= i < |f.wraps| && f.wraps[i] == (o, c);
  }

  /** The tails before the first owed token are not owed themselves. */
  lemma UnowedRun(f: Family, s1: Word, o: string, c: string)
    requires AtMostOneOwed(f) && WrapOf(f, o) == Some(c) && c in f.tails && c !in s1 && TailsOnly(f, s1)
    ensures Run(f, s1, 1)
  {
    WrapCloses(f, o, c);
    var j :| 0 <= j < |f.wraps| && f.wraps[j].1 == c;
    forall i | 0 <= i < |s1| ensures f.Takes(s1[i], 1) {
      assert f.Owed(f.wraps[j].1);
    }
  }

  lemma WrapRejoined(o: string, u: Word, a: Word, s: Word, s1: Word, s2: Word, c: string)
    requires u == a + s && s + [c] == s1 + [c] + s2
    ensures [o] + u + [c] == [o] + (a + s1) + [c] + s2
  {
    assert [o] + u + [c] == [o] + a + (s + [c]);
    assert [o] + (a + s1) + [c] + s2 == [o] + a + (s1 + [c] + s2);
  }

  lemma OwedWrapReadable(f: Family, o: string, u: Word, c: string)
    requires f.Valid() && AtMostOneOwed(f) && WrapOf(f, o) == Some(c) && c in f.tails && Readable(f, u)
    ensures Readable(f, [o] + u + [c])
  {
    var a, s :| Yields(f, u, a, s);
    var s1, s2 := SplitTails(f, c, s);
    WrapRejoined(o, u, a, s, s1, s2, c);
    hide Family.Valid, AtMostOneOwed, WrapOf, Reads;
    UnowedRun(f, s1, o, c);
    RunGrows(f, a, s1, 1);
    var inner := [o] + (a + s1) + [c];
    OwedWrapReads(f, o, a + s1, c, 0);
    OwedWrapReads(f, o, a + s1, c, 1);
    assert Run(f, s2, 0);
    RunGrows(f, inner, s2, 0);
    assert Yields(f, inner + s2, inner, s2);
  }

  lemma BarrierReadable(f: Family, o: string, u: Word, c: string)
    requires f.Valid() && WrapOf(f, o) == Some(c) && c !in f.tails && Readable(f, u)
    ensures Readable(f, [o] + u + [c])
  {
    WrapHead(f, o, c);
    DeltaIs(f, c);
    ReadsWrapped(f, o, u, c, [], 0);
    ReadsWrapped(f, o, u, c, [], 1);
    var w := [o] + u + [c];
    assert w + [] == w;
    assert Yields(f, w, w, []);
  }

  ghost function Readables(f: Family): Model {
    iset w: Word | Readable(f, w) :: (f.rule, w)
  }

  lemma AlternativeReadable(f: Family, i: nat, w: Word)
    requires f.Valid() && AtMostOneOwed(f) && i < |f.Alternatives()| && w in SeqLang(f.Alternatives()[i], Readables(f))
    ensures Readable(f, w)
  {
    var m := Readables(f);
    if i < |f.tails| {
      var t := f.tails[i];
      assert f.Alternatives()[i] == [Ref(f.rule), Term(t)];
      PairLang(Ref(f.rule), Term(t), m);
      var u, v := CatElim(w, At(m, f.rule), ElemLang(Term(t), m));
      TailReadable(f, u, t);
    } else if i < |f.tails| + |f.wraps| {
      WrapAltReadable(f, i - |f.tails|, w);
    } else {
      var z := f.atoms[i - |f.tails| - |f.wraps|];
      assert f.Alternatives()[i] == [Term(z)];
      SeqOne(Term(z), m);
      AtomReadable(f, z);
    }
  }

  lemma WrapAltReadable(f: Family, j: nat, w: Word)
    requires f.Valid() && AtMostOneOwed(f) && j < |f.wraps|
    requires w in SeqLang([Term(f.wraps[j].0), Ref(f.rule), Term(f.wraps[j].1)], Readables(f))
    ensures Readable(f, w)
  {
    var m, o, c := Readables(f), f.wraps[j].0, f.wraps[j].1;
    WrapLang(o, f.rule, c, m);
    var x, y := CatElim(w, iset{[o]}, Cat(At(m, f.rule), iset{[c]}));
    var u, v := CatElim(y, At(m, f.rule), iset{[c]});
    WrapUnique(f, j);
    if c in f.tails {
      OwedWrapReadable(f, o, u, c);
    } else {
      BarrierReadable(f, o, u, c);
    }
    assert w == [o] + u + [c];
  }

  lemma WrapUnique(f: Family, j: nat)
    requires f.Valid() && j < |f.wraps|
    ensures WrapOf(f, f.wraps[j].0) == Some(f.wraps[j].1)
  {
    var r := WrapOf(f, f.wraps[j].0);
    if r.Some? {
      var i :| 0 <= i < |f.wraps| && f.wraps[i] == (f.wraps[j].0, r.value);
    }
  }

  lemma WordsReadable(f: Family, w: Word)
    requires f.Valid() && AtMostOneOwed(f) && w in f.Words()
    ensures Readable(f, w)
  {
    var g, m := f.Source(), Readables(f);
    forall n, x | (n, x) in Apply(g, m) ensures (n, x) in m {
      var q :| ProducedBy(n, x, g, q, m);
      var i := AltsElim(x, f.Alternatives(), m);
      AlternativeReadable(f, i, x);
    }
    LanguageLeast(g, m);
  }

  // ---- the exact condition ----

  /** The machine never accepts a word outside the language. */
  lemma ParsesSound(f: Family, w: Word)
    requires f.Valid() && Parses(f, w)
    ensures w in f.Words()
  {
    ParsesIsReads(f, w);
    ReadsWords(f, w, 0);
  }

  /** With two owed tokens the count cannot say which of them is owed: after `o z` the
      loop leaves `d` alone although the frame below waits for `c`. */
  lemma TwoOwedFails(f: Family, i: nat, j: nat, z: string) returns (w: Word)
    requires f.Valid() && i < |f.wraps| && j < |f.wraps| && z in f.atoms
    requires f.Owed(f.wraps[i].1) && f.Owed(f.wraps[j].1) && f.wraps[i].1 != f.wraps[j].1
    ensures w == [f.wraps[i].0, z, f.wraps[j].1, f.wraps[i].1]
    ensures w in f.Words() && !Parses(f, w)
  {
    var o, c, d := f.wraps[i].0, f.wraps[i].1, f.wraps[j].1;
    w := [o, z, d, c];
    AtomWord(f, z);
    TailWord(f, [z], d);
    WrapUnique(f, i);
    WrapWord(f, o, [z] + [d], c);
    assert [o] + ([z] + [d]) + [c] == w;
    DeltaIs(f, c);
    WrapHead(f, o, c);
    var inner := Opened(f, c, 0, []);
    assert !Accepts(f, [Closing(c, 0)], [d, c]);
    var loop := [Loop(1), Closing(c, 0)];
    assert loop[1..] == [Closing(c, 0)];
    assert !f.Takes(d, 1);
    assert !Accepts(f, loop, [d, c]);
    assert inner == [Base(1), Closing(c, 0)] && [Loop(1)] + inner[1..] == loop;
    assert [z, d, c][1..] == [d, c];
    assert !Accepts(f, inner, [z, d, c]);
    assert w[1..] == [z, d, c] && [Base(0)][1..] == [];
  }

  /** The emitted rules accept exactly the language of the rule they were made from when
      at most one token is contested, and in no other case. */
  lemma DebtExact(f: Family)
    requires f.Valid() && f.atoms != []
    ensures (forall w :: Parses(f, w) <==> w in f.Words()) <==> AtMostOneOwed(f)
  {
    if AtMostOneOwed(f) {
      forall w ensures Parses(f, w) <==> w in f.Words() {
        if Parses(f, w) {
          ParsesSound(f, w);
        } else if w in f.Words() {
          WordsReadable(f, w);
          ParsesIsReads(f, w);
        }
      }
    } else {
      var i: nat, j: nat :| i < |f.wraps| && j < |f.wraps| && f.Owed(f.wraps[i].1) && f.Owed(f.wraps[j].1)
        && f.wraps[i].1 != f.wraps[j].1;
      var w := TwoOwedFails(f, i, j, f.atoms[0]);
    }
  }

  /** `A = A "y" / A "w" / "x" A "y" / "(" A ")" / "z"`. */
  const DOCUMENTED: Family := Family("A", ["y", "w"], [("x", "y"), ("(", ")")], ["z"])

  lemma DocumentedExact(w: Word)
    ensures Parses(DOCUMENTED, w) <==> w in DOCUMENTED.Words()
  {
    assert DOCUMENTED.wraps[0].0 != DOCUMENTED.wraps[1].0;
    assert ")" !in DOCUMENTED.tails;
    DebtExact(DOCUMENTED);
  }
}
