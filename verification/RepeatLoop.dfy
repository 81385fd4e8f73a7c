/** The rules a grammar compiles to once its repetitions are loops: a loop stays in the
    frame it was pushed into, with a counter that tells the iteration entering it from
    those coming back.

    The grammar is flat, as desugaring leaves it; some of its rules, of the form
    H = item H / (empty), are marked to be emitted as loops, the others push what they
    refer to.  Items may have alternatives, be empty, and lead back to the loop they
    stand in.  Which alternative a rule takes, and whether a loop goes on, is the
    dispatcher's business and is left open. */
module RepeatLoop {
  import opened Ir
  import opened Languages
  import Desugar
  import DesugarProofs

  /** The grammar, and the names of the rules emitted as loops. */
  datatype Emitted = Emitted(g: Grammar, loops: set<string>)

  function AltsOf(m: Emitted, n: string): seq<Sequence> {
    var p := Find(m.g, n);
    if p.Some? then p.value.alts else []
  }

  predicate LoopShape(n: string, alts: seq<Sequence>) {
    |alts| == 2 && |alts[0]| == 2 && alts == Desugar.LoopAlts(n, alts[0][0])
  }

  predicate Emittable(m: Emitted) {
    FlatGrammar(m.g) && forall n :: n in m.loops ==> LoopShape(n, AltsOf(m, n))
  }

  /** What a loop repeats. */
  function ItemOf(m: Emitted, n: string): (item: Element)
    requires Emittable(m) && n in m.loops
    ensures AltsOf(m, n) == Desugar.LoopAlts(n, item) && FlatElem(item)
  {
    assert AltsOf(m, n) == Find(m.g, n).value.alts;
    assert Flat(AltsOf(m, n)[0]);
    AltsOf(m, n)[0][0]
  }

  ghost function Means(m: Emitted, n: string): Lang {
    At(Language(m.g), n)
  }

  // ---- the machine ----

  /** Where a frame stands: opening its rule, part of the way through an alternative,
      waiting for the reference an alternative has come to, pushed at input position
      `mark`, or in one of a loop's own rules. */
  datatype Code =
    | Open
    | Rest(els: Sequence)
    | Wait(els: Sequence, mark: nat)
    | Take
    | Close(mark: nat)
    | Back

  /** A stack slot: the rule pushed into it, where and at what depth, the counter, and
      the node a loop accumulates the words of its items into. */
  datatype Frame = Frame(goal: string, from: nat, depth: nat, code: Code, n: nat, node: Option<seq<Word>>)

  datatype Config = Config(stack: seq<Frame>, pos: nat)

  /** An alternate's amount: zero resets the counter, any other is added. */
  function Counted(n: nat, amount: nat): nat {
    if amount == 0 then 0 else n + amount
  }

  /** A rule pushed takes its counter from the frame that pushed it. */
  function Pushed(goal: string, n: nat, c: Config): Frame {
    Frame(goal, c.pos, |c.stack| + 1, Open, n, None)
  }

  /** The top frame replaced, in the slot it has, the input read up to `pos`. */
  function Replaced(c: Config, code: Code, n: nat, node: Option<seq<Word>>, pos: nat): Config
    requires c.stack != []
  {
    var top := c.stack[0];
    Config([Frame(top.goal, top.from, top.depth, code, n, node)] + c.stack[1..], pos)
  }

  /** The top frame left at `code`, a rule pushed on it with the frame's counter. */
  function Pushing(c: Config, code: Code, n: nat, goal: string): Config
    requires c.stack != []
  {
    var below := Replaced(c, code, n, c.stack[0].node, c.pos);
    Config([Pushed(goal, n, below)] + below.stack, c.pos)
  }

  function Popped(c: Config): Config
    requires c.stack != []
  {
    Config(c.stack[1..], c.pos)
  }

  predicate Reads(w: Word, pos: nat, e: Element) {
    e.Term? && pos < |w| && w[pos] == e.tok
  }

  /** The entry of a loop, taken while its counter is 0, makes the node and counts;
      after that the loop leaves, hands over to its iteration, or, where the item is a
      token, takes it and comes round. */
  ghost predicate LoopStep(m: Emitted, w: Word, c: Config, c': Config)
    requires Emittable(m) && c.stack != [] && c.stack[0].goal in m.loops
  {
    var top := c.stack[0];
    var item := ItemOf(m, top.goal);
    if top.n == 0 then c' == Replaced(c, Open, Counted(top.n, 1), Some([]), c.pos)
    else
      || c' == Popped(c)
      || (item.Ref? && c' == Replaced(c, Take, top.n, top.node, c.pos))
      || (Reads(w, c.pos, item) && top.node.Some?
          && c' == Replaced(c, Open, top.n, Some(top.node.value + [[w[c.pos]]]), c.pos + 1))
  }

  /** Another rule takes one of its alternatives. */
  ghost predicate PlainStep(m: Emitted, c: Config, c': Config)
    requires c.stack != []
  {
    exists k :: Chooses(m, c, c', k)
  }

  predicate Chooses(m: Emitted, c: Config, c': Config, k: int)
    requires c.stack != []
  {
    var top := c.stack[0];
    0 <= k < |AltsOf(m, top.goal)| && c' == Replaced(c, Rest(AltsOf(m, top.goal)[k]), top.n, top.node, c.pos)
  }

  /** The next element of an alternative: the end pops, a token is read, a reference is
      pushed. */
  predicate RestStep(w: Word, c: Config, c': Config, els: Sequence)
    requires c.stack != []
  {
    var top := c.stack[0];
    if els == [] then c' == Popped(c)
    else if els[0].Ref? then c' == Pushing(c, Wait(els, c.pos), top.n, els[0].name)
    else Reads(w, c.pos, els[0]) && c' == Replaced(c, Rest(els[1..]), top.n, top.node, c.pos + 1)
  }

  ghost predicate Step(m: Emitted, w: Word, c: Config, c': Config)
    requires Emittable(m)
  {
    c.stack != [] && c.pos <= |w| &&
    var top := c.stack[0];
    match top.code
    case Open => if top.goal in m.loops then LoopStep(m, w, c, c') else PlainStep(m, c, c')
    case Rest(els) => RestStep(w, c, c', els)
    case Wait(els, _) => els != [] && c' == Replaced(c, Rest(els[1..]), top.n, top.node, c.pos)
    case Take =>
      && top.goal in m.loops && ItemOf(m, top.goal).Ref?
      && c' == Pushing(c, Close(c.pos), Counted(top.n, 0), ItemOf(m, top.goal).name)
    case Close(mark) =>
      && mark <= c.pos && top.node.Some?
      && c' == Replaced(c, Back, Counted(top.n, 1), Some(top.node.value + [w[mark..c.pos]]), c.pos)
    case Back => c' == Replaced(c, Open, top.n, top.node, c.pos)
  }

  ghost predicate Trace(m: Emitted, w: Word, cs: seq<Config>)
    requires Emittable(m)
  {
    cs != [] && forall i, j :: 0 <= i < j < |cs| && j == i + 1 ==> Step(m, w, cs[i], cs[j])
  }

  ghost predicate RunOf(m: Emitted, w: Word, cs: seq<Config>, c: Config, c': Config)
    requires Emittable(m)
  {
    Trace(m, w, cs) && cs[0] == c && cs[|cs| - 1] == c'
  }

  ghost predicate Runs(m: Emitted, w: Word, c: Config, c': Config)
    requires Emittable(m)
  {
    exists cs :: RunOf(m, w, cs, c, c')
  }

  function Initial(root: string): Config {
    Config([Frame(root, 0, 1, Open, 0, None)], 0)
  }

  /** Some run takes the whole word. */
  ghost predicate Accepted(m: Emitted, root: string, w: Word)
    requires Emittable(m)
  {
    Runs(m, w, Initial(root), Config([], |w|))
  }

  // ---- what every step keeps ----

  function Concat(ws: seq<Word>): Word {
    if ws == [] then [] else Concat(ws[..|ws| - 1]) + ws[|ws| - 1]
  }

  /** The node holds words of the item that together are what was read since the loop
      was pushed. */
  ghost predicate Holds(m: Emitted, w: Word, goal: string, node: Option<seq<Word>>, from: nat, to: nat)
    requires Emittable(m) && goal in m.loops
  {
    && node.Some? && from <= to <= |w| && Concat(node.value) == w[from..to]
    && forall i :: 0 <= i < |node.value| ==> node.value[i] in ElemLang(ItemOf(m, goal), Language(m.g))
  }

  ghost predicate PartOf(m: Emitted, goal: string, k: int, done: Sequence, els: Sequence, u: Word) {
    0 <= k < |AltsOf(m, goal)| && AltsOf(m, goal)[k] == done + els && u in SeqLang(done, Language(m.g))
  }

  /** `els` is what is left of an alternative after a part that derives `u`. */
  ghost predicate PartWay(m: Emitted, goal: string, els: Sequence, u: Word) {
    exists k, done :: PartOf(m, goal, k, done, els, u)
  }

  /** A frame of a rule that is no loop: the counter never leaves 0 and no node is made. */
  ghost predicate PlainOk(m: Emitted, w: Word, f: Frame, to: nat) {
    && f.from <= to <= |w| && f.n == 0 && f.node.None?
    && match f.code
       case Open => f.from == to
       case Rest(els) => PartWay(m, f.goal, els, w[f.from..to])
       case Wait(els, mark) =>
         f.from <= mark <= to && els != [] && els[0].Ref? && PartWay(m, f.goal, els, w[f.from..mark])
       case _ => false
  }

  /** A loop's frame: freshly pushed, or with the one node of its entry. */
  ghost predicate LoopOk(m: Emitted, w: Word, f: Frame, to: nat)
    requires Emittable(m) && f.goal in m.loops
  {
    && f.from <= to <= |w|
    && match f.code
       case Open =>
         if f.n == 0 then f.from == to && f.node.None? else f.n == 1 && Holds(m, w, f.goal, f.node, f.from, to)
       case Take => f.n == 1 && ItemOf(m, f.goal).Ref? && Holds(m, w, f.goal, f.node, f.from, to)
       case Close(mark) =>
         f.n == 0 && mark <= to && ItemOf(m, f.goal).Ref? && Holds(m, w, f.goal, f.node, f.from, mark)
       case Back => f.n == 1 && Holds(m, w, f.goal, f.node, f.from, to)
       case _ => false
  }

  /** What a frame has done by input position `to`, apart from the rule it waits for. */
  ghost predicate FrameOk(m: Emitted, w: Word, f: Frame, to: nat)
    requires Emittable(m)
  {
    if f.goal in m.loops then LoopOk(m, w, f, to) else PlainOk(m, w, f, to)
  }

  predicate Waits(f: Frame) {
    f.code.Wait? || f.code.Close?
  }

  function Awaited(m: Emitted, f: Frame): Element
    requires Emittable(m)
  {
    match f.code
    case Wait(els, _) => if els == [] then Prose("") else els[0]
    case _ => if f.goal in m.loops then ItemOf(m, f.goal) else Prose("")
  }

  /** The rule the top frame waited for has come back, having read a word of its own. */
  ghost predicate Returned(m: Emitted, w: Word, f: Frame, to: nat)
    requires Emittable(m)
  {
    && FrameOk(m, w, f, to)
    && (Waits(f) ==> f.code.mark <= to && w[f.code.mark..to] in ElemLang(Awaited(m, f), Language(m.g)))
  }

  /** The frame was pushed by the one below it. */
  ghost predicate PushedBy(m: Emitted, w: Word, f: Frame, below: Frame)
    requires Emittable(m)
  {
    FrameOk(m, w, below, f.from) && Waits(below) && Awaited(m, below) == Ref(f.goal) && f.from == below.code.mark
  }

  ghost predicate StackOk(m: Emitted, w: Word, root: string, stack: seq<Frame>)
    requires Emittable(m)
  {
    && (forall i :: 0 <= i < |stack| ==> stack[i].depth == |stack| - i)
    && (forall i, j :: 0 <= i < j < |stack| && j == i + 1 ==> PushedBy(m, w, stack[i], stack[j]))
    && (stack != [] ==> stack[|stack| - 1].goal == root && stack[|stack| - 1].from == 0)
  }

  ghost predicate Inv(m: Emitted, w: Word, root: string, c: Config)
    requires Emittable(m)
  {
    && c.pos <= |w| && StackOk(m, w, root, c.stack)
    && if c.stack == [] then w[..c.pos] in Means(m, root) else Returned(m, w, c.stack[0], c.pos)
  }

  lemma ReplaceKeeps(m: Emitted, w: Word, root: string, c: Config, code: Code, n: nat, node: Option<seq<Word>>,
      pos: nat)
    requires Emittable(m) && Inv(m, w, root, c) && c.stack != [] && c.pos <= pos <= |w|
    requires Returned(m, w, Frame(c.stack[0].goal, c.stack[0].from, c.stack[0].depth, code, n, node), pos)
    ensures Inv(m, w, root, Replaced(c, code, n, node, pos))
  {
    hide ItemOf, PartWay, LoopOk, PlainOk, Emittable, Language;
    var d := Replaced(c, code, n, node, pos);
    assert forall i :: 0 < i < |d.stack| ==> d.stack[i] == c.stack[i];
    if |c.stack| > 1 {
      assert PushedBy(m, w, c.stack[0], c.stack[1]);
    }
  }

  lemma PushKeeps(m: Emitted, w: Word, root: string, c: Config, code: Code, n: nat, goal: string)
    requires Emittable(m) && Inv(m, w, root, c) && c.stack != [] && n == 0
    requires var b := Frame(c.stack[0].goal, c.stack[0].from, c.stack[0].depth, code, n, c.stack[0].node);
      FrameOk(m, w, b, c.pos) && Waits(b) && b.code.mark == c.pos && Awaited(m, b) == Ref(goal)
    ensures Inv(m, w, root, Pushing(c, code, n, goal))
  {
    hide ItemOf, PartWay, Emittable, Language;
    var d := Pushing(c, code, n, goal);
    assert forall i :: 1 < i < |d.stack| ==> d.stack[i] == c.stack[i - 1];
    if |c.stack| > 1 {
      assert PushedBy(m, w, c.stack[0], c.stack[1]);
    }
    forall i, j | 0 <= i < j < |d.stack| && j == i + 1 ensures PushedBy(m, w, d.stack[i], d.stack[j]) {
      if i > 1 {
        assert PushedBy(m, w, c.stack[i - 1], c.stack[j - 1]);
      }
    }
  }

  /** A frame that has read a word of its rule hands it to the frame that waits. */
  lemma PopKeeps(m: Emitted, w: Word, root: string, c: Config)
    requires Emittable(m) && Inv(m, w, root, c) && c.stack != []
    requires c.stack[0].from <= c.pos && w[c.stack[0].from..c.pos] in Means(m, c.stack[0].goal)
    ensures Inv(m, w, root, Popped(c))
  {
    hide ItemOf, PartWay, Emittable, Language;
    var d := Popped(c);
    assert forall i :: 0 <= i < |d.stack| ==> d.stack[i] == c.stack[i + 1];
    forall i, j | 0 <= i < j < |d.stack| && j == i + 1 ensures PushedBy(m, w, d.stack[i], d.stack[j]) {
      assert PushedBy(m, w, c.stack[i + 1], c.stack[j + 1]);
    }
    if |c.stack| > 1 {
      assert PushedBy(m, w, c.stack[0], c.stack[1]);
      WaitsOn(m, w, c.stack[1], c.stack[0].from, c.pos);
    }
  }

  lemma WaitsOn(m: Emitted, w: Word, f: Frame, from: nat, to: nat)
    requires Emittable(m) && FrameOk(m, w, f, from) && Waits(f) && f.code.mark == from <= to <= |w|
    ensures FrameOk(m, w, f, to)
  {
  }

  // ---- what a frame has read when it leaves ----

  lemma {:induction false} ConcatIter(ws: seq<Word>, a: Lang)
    requires forall i :: 0 <= i < |ws| ==> ws[i] in a
    ensures Concat(ws) in Iter(a)
  {
    IterUnfold(a);
    if ws != [] {
      ConcatIter(ws[..|ws| - 1], a);
      CatIntro(Concat(ws[..|ws| - 1]), ws[|ws| - 1], Iter(a), a);
    }
  }

  /** A rule's alternatives derive words of the rule. */
  lemma AltMeans(m: Emitted, goal: string, k: nat, u: Word)
    requires k < |AltsOf(m, goal)| && u in SeqLang(AltsOf(m, goal)[k], Language(m.g))
    ensures u in Means(m, goal)
  {
    var p := Find(m.g, goal).value;
    var i :| 0 <= i < |m.g| && m.g[i] == p;
    LanguageFixed(m.g);
    AltsIntro(k, u, p.alts, Language(m.g));
    assert ProducedBy(goal, u, m.g, i, Language(m.g));
  }

  lemma LoopMeans(m: Emitted, goal: string)
    requires Emittable(m) && goal in m.loops
    ensures Iter(ElemLang(ItemOf(m, goal), Language(m.g))) <= Means(m, goal)
  {
    var item := ItemOf(m, goal);
    forall u | u in AltsLang(AltsOf(m, goal), Language(m.g)) ensures u in Means(m, goal) {
      var k := AltsElim(u, AltsOf(m, goal), Language(m.g));
      AltMeans(m, goal, k, u);
    }
    DesugarProofs.LoopCovers(goal, item, Language(m.g));
  }

  lemma LeavesLoop(m: Emitted, w: Word, f: Frame, to: nat)
    requires Emittable(m) && f.goal in m.loops && f.from <= to && Holds(m, w, f.goal, f.node, f.from, to)
    ensures w[f.from..to] in Means(m, f.goal)
  {
    LoopMeans(m, f.goal);
    ConcatIter(f.node.value, ElemLang(ItemOf(m, f.goal), Language(m.g)));
  }

  lemma LeavesRest(m: Emitted, goal: string, u: Word)
    requires PartWay(m, goal, [], u)
    ensures u in Means(m, goal)
  {
    var k, done :| PartOf(m, goal, k, done, [], u);
    assert done + [] == done;
    AltMeans(m, goal, k, u);
  }

  lemma HoldsMore(m: Emitted, w: Word, goal: string, ws: seq<Word>, from: nat, mark: nat, to: nat)
    requires Emittable(m) && goal in m.loops && Holds(m, w, goal, Some(ws), from, mark) && mark <= to <= |w|
    requires w[mark..to] in ElemLang(ItemOf(m, goal), Language(m.g))
    ensures Holds(m, w, goal, Some(ws + [w[mark..to]]), from, to)
  {
    var ws' := ws + [w[mark..to]];
    assert ws'[..|ws'| - 1] == ws;
    assert w[from..mark] + w[mark..to] == w[from..to];
  }

  lemma PartMore(m: Emitted, goal: string, els: Sequence, u: Word, v: Word)
    requires PartWay(m, goal, els, u) && els != [] && v in ElemLang(els[0], Language(m.g))
    ensures PartWay(m, goal, els[1..], u + v)
  {
    hide SeqLang, ElemLang, Language, Cat, AltsOf;
    var k, done :| PartOf(m, goal, k, done, els, u);
    var done' := done + [els[0]];
    assert done + els == done' + els[1..];
    SeqCat(done, [els[0]], Language(m.g));
    SeqOne(els[0], Language(m.g));
    CatIntro(u, v, SeqLang(done, Language(m.g)), ElemLang(els[0], Language(m.g)));
    assert PartOf(m, goal, k, done', els[1..], u + v);
  }

  lemma PartStarts(m: Emitted, goal: string, k: nat)
    requires k < |AltsOf(m, goal)|
    ensures PartWay(m, goal, AltsOf(m, goal)[k], [])
  {
    assert [] + AltsOf(m, goal)[k] == AltsOf(m, goal)[k];
    assert PartOf(m, goal, k, [], AltsOf(m, goal)[k], []);
  }

  // ---- step by step ----

  lemma LoopKeeps(m: Emitted, w: Word, root: string, c: Config, c': Config)
    requires Emittable(m) && Inv(m, w, root, c) && c.stack != [] && c.stack[0].goal in m.loops
    requires c.stack[0].code == Open && LoopStep(m, w, c, c')
    ensures Inv(m, w, root, c')
  {
    hide PartWay, StackOk, Emittable, Language;
    var top := c.stack[0];
    if top.n == 0 {
      assert w[top.from..c.pos] == [];
      ReplaceKeeps(m, w, root, c, Open, 1, Some([]), c.pos);
    } else if c' == Popped(c) {
      LeavesLoop(m, w, top, c.pos);
      PopKeeps(m, w, root, c);
    } else if c'.pos == c.pos {
      ReplaceKeeps(m, w, root, c, Take, top.n, top.node, c.pos);
    } else {
      assert w[c.pos..c.pos + 1] == [w[c.pos]];
      HoldsMore(m, w, top.goal, top.node.value, top.from, c.pos, c.pos + 1);
      ReplaceKeeps(m, w, root, c, Open, top.n, Some(top.node.value + [[w[c.pos]]]), c.pos + 1);
    }
  }

  lemma RestKeeps(m: Emitted, w: Word, root: string, c: Config, c': Config, els: Sequence)
    requires Emittable(m) && Inv(m, w, root, c) && c.stack != [] && c.stack[0].code == Rest(els)
    requires RestStep(w, c, c', els)
    ensures Inv(m, w, root, c')
  {
    hide PartWay, StackOk, Emittable, Language;
    var top := c.stack[0];
    if els == [] {
      LeavesRest(m, top.goal, w[top.from..c.pos]);
      PopKeeps(m, w, root, c);
    } else if els[0].Ref? {
      PushKeeps(m, w, root, c, Wait(els, c.pos), top.n, els[0].name);
    } else {
      assert w[top.from..c.pos] + [w[c.pos]] == w[top.from..c.pos + 1];
      PartMore(m, top.goal, els, w[top.from..c.pos], [w[c.pos]]);
      ReplaceKeeps(m, w, root, c, Rest(els[1..]), top.n, top.node, c.pos + 1);
    }
  }

  lemma WaitKeeps(m: Emitted, w: Word, root: string, c: Config, c': Config, els: Sequence, mark: nat)
    requires Emittable(m) && Inv(m, w, root, c) && c.stack != [] && c.stack[0].code == Wait(els, mark)
    requires Step(m, w, c, c')
    ensures Inv(m, w, root, c')
  {
    hide PartWay, StackOk, Emittable, Language;
    var top := c.stack[0];
    assert w[top.from..mark] + w[mark..c.pos] == w[top.from..c.pos];
    PartMore(m, top.goal, els, w[top.from..mark], w[mark..c.pos]);
    ReplaceKeeps(m, w, root, c, Rest(els[1..]), top.n, top.node, c.pos);
  }

  /** Every step keeps the invariant. */
  lemma StepKeeps(m: Emitted, w: Word, root: string, c: Config, c': Config)
    requires Emittable(m) && Inv(m, w, root, c) && Step(m, w, c, c')
    ensures Inv(m, w, root, c')
  {
    hide PartWay, StackOk, Emittable, Language;
    var top := c.stack[0];
    match top.code {
      case Open =>
        if top.goal in m.loops {
          LoopKeeps(m, w, root, c, c');
        } else {
          var k :| Chooses(m, c, c', k);
          PartStarts(m, top.goal, k);
          assert w[top.from..c.pos] == [];
          ReplaceKeeps(m, w, root, c, Rest(AltsOf(m, top.goal)[k]), top.n, top.node, c.pos);
        }
      case Rest(els) => RestKeeps(m, w, root, c, c', els);
      case Wait(els, mark) => WaitKeeps(m, w, root, c, c', els, mark);
      case Take => PushKeeps(m, w, root, c, Close(c.pos), Counted(top.n, 0), ItemOf(m, top.goal).name);
      case Close(mark) =>
        HoldsMore(m, w, top.goal, top.node.value, top.from, mark, c.pos);
        ReplaceKeeps(m, w, root, c, Back, Counted(top.n, 1), Some(top.node.value + [w[mark..c.pos]]), c.pos);
      case Back => ReplaceKeeps(m, w, root, c, Open, top.n, top.node, c.pos);
    }
  }

  lemma {:induction false} TraceKeeps(m: Emitted, w: Word, root: string, cs: seq<Config>, i: nat)
    requires Emittable(m) && Trace(m, w, cs) && Inv(m, w, root, cs[0]) && i < |cs|
    ensures Inv(m, w, root, cs[i])
    decreases i
  {
    if i > 0 {
      TraceKeeps(m, w, root, cs, i - 1);
      assert Step(m, w, cs[i - 1], cs[i]);
      StepKeeps(m, w, root, cs[i - 1], cs[i]);
    }
  }

  // ---- counters, depths and nodes over every run ----

  /** How far the frame in slot `k` from the top has been fed. */
  function FedTo(c: Config, k: nat): nat
    requires k < |c.stack|
  {
    if c.stack[k].code.Close? then c.stack[k].code.mark else if k == 0 then c.pos else c.stack[k - 1].from
  }

  /** A frame at the entry of its loop. */
  predicate AtEntry(m: Emitted, f: Frame) {
    f.goal in m.loops && f.code.Open? && f.n == 0
  }

  /** In every configuration of every run each counter is 0 or 1 and each slot is at
      the depth it was pushed at.  A rule that is no loop has counter 0 and no node; a
      loop has no node before its entry, and from then on the words of its items in
      the node are together exactly what was read since it was pushed. */
  lemma EveryRun(m: Emitted, root: string, w: Word, cs: seq<Config>, i: nat, k: nat)
    requires Emittable(m) && Trace(m, w, cs) && cs[0] == Initial(root) && i < |cs| && k < |cs[i].stack|
    ensures var f := cs[i].stack[k]; var to := FedTo(cs[i], k);
      && f.n <= 1 && f.depth == |cs[i].stack| - k
      && (f.goal !in m.loops || AtEntry(m, f) ==> f.n == 0 && f.node.None?)
      && (f.goal in m.loops && !AtEntry(m, f) ==> Holds(m, w, f.goal, f.node, f.from, to))
  {
    TraceKeeps(m, w, root, cs, i);
    FrameNode(m, w, root, cs[i], k);
  }

  lemma FrameNode(m: Emitted, w: Word, root: string, c: Config, k: nat)
    requires Emittable(m) && Inv(m, w, root, c) && k < |c.stack|
    ensures var f := c.stack[k]; var to := FedTo(c, k);
      && f.n <= 1 && f.depth == |c.stack| - k
      && (f.goal !in m.loops || AtEntry(m, f) ==> f.n == 0 && f.node.None?)
      && (f.goal in m.loops && !AtEntry(m, f) ==> Holds(m, w, f.goal, f.node, f.from, to))
  {
    hide PartWay, Emittable, Language;
    if k > 0 {
      assert PushedBy(m, w, c.stack[k - 1], c.stack[k]);
    }
  }

  /** The frame at depth `d`. */
  function Slot(c: Config, d: nat): Frame
    requires 0 < d <= |c.stack|
  {
    c.stack[|c.stack| - d]
  }

  /** What a push creates enters afresh: counter 0 and no node. */
  lemma PushesAfresh(m: Emitted, w: Word, root: string, c: Config, c': Config)
    requires Emittable(m) && Inv(m, w, root, c) && Step(m, w, c, c') && |c'.stack| > |c.stack|
    ensures |c'.stack| == |c.stack| + 1
    ensures var f := c'.stack[0];
      f.code == Open && f.n == 0 && f.node.None? && f.from == c'.pos && f.depth == |c'.stack|
  {
    hide PartWay, StackOk, Emittable, Language, Holds;
  }

  /** The step about to be taken allocates the node of the slot. */
  predicate Allocates(m: Emitted, c: Config, d: nat) {
    0 < d == |c.stack| && AtEntry(m, c.stack[0])
  }

  function One(b: bool): nat {
    if b then 1 else 0
  }

  /** A step allocates a slot's node just when it enters the slot's loop, and never
      takes a node away. */
  lemma NodeStep(m: Emitted, w: Word, root: string, c: Config, c': Config, d: nat)
    requires Emittable(m) && Inv(m, w, root, c) && Step(m, w, c, c') && 0 < d <= |c.stack| && d <= |c'.stack|
    ensures One(Slot(c', d).node.Some?) == One(Slot(c, d).node.Some?) + One(Allocates(m, c, d))
    ensures Slot(c, d).goal == Slot(c', d).goal
  {
    hide PartWay, StackOk, Emittable, Language, Holds, AltsOf, ElemLang, Step;
    if d < |c.stack| {
      BelowStays(m, w, c, c', d);
    } else {
      TopStep(m, w, root, c, c', d);
    }
  }

  lemma BelowStays(m: Emitted, w: Word, c: Config, c': Config, d: nat)
    requires Emittable(m) && Step(m, w, c, c') && 0 < d < |c.stack| && d <= |c'.stack|
    ensures Slot(c', d) == Slot(c, d)
  {
    hide Emittable, AltsOf, ItemOf;
    assert Slot(c, d) == c.stack[1..][|c.stack| - d - 1];
  }

  lemma TopStep(m: Emitted, w: Word, root: string, c: Config, c': Config, d: nat)
    requires Emittable(m) && Inv(m, w, root, c) && Step(m, w, c, c') && 0 < d == |c.stack| <= |c'.stack|
    ensures One(Slot(c', d).node.Some?) == One(Slot(c, d).node.Some?) + One(Allocates(m, c, d))
    ensures Slot(c, d).goal == Slot(c', d).goal
  {
    hide PartWay, StackOk, Emittable, Language, Holds, AltsOf, ElemLang;
  }

  /** From `i` to `j` the slot at depth `d` has held one frame, pushed at `i`. */
  ghost predicate Lives(cs: seq<Config>, d: nat, i: nat, j: nat) {
    && d > 0 && i <= j < |cs| && (i == 0 || |cs[i - 1].stack| < d)
    && forall t :: i <= t <= j ==> d <= |cs[t].stack|
  }

  /** How often the slot's node is allocated before `j`. */
  function Allocations(m: Emitted, cs: seq<Config>, d: nat, i: nat, j: nat): nat
    requires i <= j <= |cs|
  {
    if i == j then 0 else Allocations(m, cs, d, i, j - 1) + One(Allocates(m, cs[j - 1], d))
  }

  lemma LivesFrom(m: Emitted, root: string, w: Word, cs: seq<Config>, d: nat, i: nat)
    requires Emittable(m) && Trace(m, w, cs) && cs[0] == Initial(root) && Lives(cs, d, i, i)
    ensures Slot(cs[i], d).node.None?
  {
    if i > 0 {
      TraceKeeps(m, w, root, cs, i - 1);
      assert Step(m, w, cs[i - 1], cs[i]);
      PushesAfresh(m, w, root, cs[i - 1], cs[i]);
    }
  }

  /** However long a frame lives, its node is allocated at most once, and it has one
      just when that has happened. */
  lemma {:induction false} AllocatedOnce(m: Emitted, root: string, w: Word, cs: seq<Config>, d: nat, i: nat, j: nat)
    requires Emittable(m) && Trace(m, w, cs) && cs[0] == Initial(root) && Lives(cs, d, i, j)
    ensures Allocations(m, cs, d, i, j) == One(Slot(cs[j], d).node.Some?)
    ensures Slot(cs[i], d).goal == Slot(cs[j], d).goal
    decreases j - i
  {
    hide Step, Emittable, Language, Inv, Slot, Allocates;
    if i == j {
      LivesFrom(m, root, w, cs, d, i);
    } else {
      AllocatedOnce(m, root, w, cs, d, i, j - 1);
      TraceKeeps(m, w, root, cs, j - 1);
      assert Step(m, w, cs[j - 1], cs[j]);
      NodeStep(m, w, root, cs[j - 1], cs[j], d);
    }
  }

  /** By the time a loop is left it has been entered, and its node allocated, exactly
      once; a rule that is no loop never allocates. */
  lemma LeftAfterOne(m: Emitted, root: string, w: Word, cs: seq<Config>, d: nat, i: nat, j: nat)
    requires Emittable(m) && Trace(m, w, cs) && cs[0] == Initial(root) && Lives(cs, d, i, j)
    requires j + 1 < |cs| && |cs[j + 1].stack| < d
    ensures Allocations(m, cs, d, i, j + 1) == One(Slot(cs[i], d).goal in m.loops)
  {
    AllocatedOnce(m, root, w, cs, d, i, j);
    TraceKeeps(m, w, root, cs, j);
    assert Step(m, w, cs[j], cs[j + 1]);
    LeavesWithNode(m, w, root, cs[j], cs[j + 1], d);
  }

  lemma LeavesWithNode(m: Emitted, w: Word, root: string, c: Config, c': Config, d: nat)
    requires Emittable(m) && Inv(m, w, root, c) && Step(m, w, c, c') && 0 < d <= |c.stack| && |c'.stack| < d
    ensures d == |c.stack| && !Allocates(m, c, d)
    ensures Slot(c, d).node.Some? <==> Slot(c, d).goal in m.loops
  {
    hide PartWay, StackOk, Emittable, Language;
  }

  // ---- every word of the language has a run ----

  lemma RunsRefl(m: Emitted, w: Word, c: Config)
    requires Emittable(m)
    ensures Runs(m, w, c, c)
  {
    assert RunOf(m, w, [c], c, c);
  }

  lemma RunsTrans(m: Emitted, w: Word, a: Config, b: Config, c: Config)
    requires Emittable(m) && Runs(m, w, a, b) && Runs(m, w, b, c)
    ensures Runs(m, w, a, c)
  {
    hide Emittable, Step;
    var p :| RunOf(m, w, p, a, b);
    var q :| RunOf(m, w, q, b, c);
    assert RunOf(m, w, p + q[1..], a, c);
  }

  lemma RunsStep(m: Emitted, w: Word, a: Config, b: Config, c: Config)
    requires Emittable(m) && Step(m, w, a, b) && Runs(m, w, b, c)
    ensures Runs(m, w, a, c)
  {
    hide Emittable, Step;
    assert RunOf(m, w, [a, b], a, b);
    RunsTrans(m, w, a, b, c);
  }

  /** A frame with the counter and node it should have, on `below`. */
  function Top(f: Frame, code: Code, n: nat, node: Option<seq<Word>>, below: seq<Frame>, pos: nat): Config {
    Config([Frame(f.goal, f.from, f.depth, code, n, node)] + below, pos)
  }

  lemma SplitSlice(w: Word, p: nat, q: nat, a: Lang, b: Lang) returns (k: nat)
    requires p <= q <= |w| && w[p..q] in Cat(a, b)
    ensures p <= k <= q && w[p..k] in a && w[k..q] in b
  {
    var u, v := CatElim(w[p..q], a, b);
    k := p + |u|;
    assert w[p..q][..|u|] == w[p..k] && w[p..q][|u|..] == w[k..q];
  }

  lemma OneToken(w: Word, p: nat, q: nat, t: string)
    requires p <= q <= |w| && w[p..q] == [t]
    ensures q == p + 1 && w[p] == t
  {
    assert w[p..q][0] == w[p];
  }

  /** Which alternative derived a word of a rule, and one level below. */
  lemma Derived(m: Emitted, goal: string, u: Word, h: nat) returns (k: nat)
    requires DistinctNames(m.g) && u in At(Stage(m.g, h), goal)
    ensures h > 0 && k < |AltsOf(m, goal)| && u in SeqLang(AltsOf(m, goal)[k], Stage(m.g, h - 1))
  {
    assert (goal, u) in Apply(m.g, Stage(m.g, h - 1));
    var i :| ProducedBy(goal, u, m.g, i, Stage(m.g, h - 1));
    k := AltsElim(u, m.g[i].alts, Stage(m.g, h - 1));
    var p := Find(m.g, goal).value;
    var j :| 0 <= j < |m.g| && m.g[j] == p;
    assert i == j;
  }

  /** A pushed rule runs through any word it derives. */
  lemma {:induction false} RuleRuns(m: Emitted, w: Word, f: Frame, below: seq<Frame>, p: nat, q: nat, h: nat)
    requires Emittable(m) && DistinctNames(m.g) && p <= q <= |w| && w[p..q] in At(Stage(m.g, h), f.goal)
    ensures Runs(m, w, Top(f, Open, 0, None, below, p), Config(below, q))
    decreases h, 1, 0
  {
    hide Emittable, Stage;
    var c := Top(f, Open, 0, None, below, p);
    assert c.stack[1..] == below;
    if f.goal in m.loops {
      LoopRuns(m, w, f, [], below, p, q, h);
      RunsStep(m, w, c, Top(f, Open, 1, Some([]), below, p), Config(below, q));
    } else {
      var k := Derived(m, f.goal, w[p..q], h);
      var els := AltsOf(m, f.goal)[k];
      FlatAlt(m, f.goal, k);
      RestRuns(m, w, f, els, below, p, q, h - 1);
      var next := Top(f, Rest(els), 0, None, below, p);
      assert Chooses(m, c, next, k);
      RunsStep(m, w, c, next, Config(below, q));
    }
  }

  lemma FlatAlt(m: Emitted, goal: string, k: nat)
    requires Emittable(m) && k < |AltsOf(m, goal)|
    ensures Flat(AltsOf(m, goal)[k])
  {
  }

  /** What is left of an alternative runs through any word it derives. */
  lemma {:induction false} RestRuns(m: Emitted, w: Word, f: Frame, els: Sequence, below: seq<Frame>, p: nat, q: nat,
      h: nat)
    requires Emittable(m) && DistinctNames(m.g) && Flat(els) && p <= q <= |w|
    requires w[p..q] in SeqLang(els, Stage(m.g, h))
    ensures Runs(m, w, Top(f, Rest(els), 0, None, below, p), Config(below, q))
    decreases h, 2, |els|
  {
    hide Emittable, Stage;
    var c := Top(f, Rest(els), 0, None, below, p);
    var last := Config(below, q);
    assert c.stack[1..] == below;
    if els == [] {
      RunsRefl(m, w, last);
      RunsStep(m, w, c, last, last);
    } else {
      var k := SplitSlice(w, p, q, ElemLang(els[0], Stage(m.g, h)), SeqLang(els[1..], Stage(m.g, h)));
      var next := Top(f, Rest(els[1..]), 0, None, below, k);
      RestRuns(m, w, f, els[1..], below, k, q, h);
      assert FlatElem(els[0]);
      if els[0].Ref? {
        var pushed := Pushing(c, Wait(els, p), 0, els[0].name);
        RuleRuns(m, w, pushed.stack[0], pushed.stack[1..], p, k, h);
        assert Top(pushed.stack[0], Open, 0, None, pushed.stack[1..], p) == pushed;
        RestReturns(m, w, c, pushed, next, els, k);
      } else {
        OneToken(w, p, k, els[0].tok);
        RunsRefl(m, w, next);
        RunsStep(m, w, c, next, next);
      }
      RunsTrans(m, w, c, next, last);
    }
  }

  lemma RestReturns(m: Emitted, w: Word, c: Config, pushed: Config, next: Config, els: Sequence, k: nat)
    requires Emittable(m) && c.stack != [] && c.pos <= k <= |w| && els != [] && els[0].Ref?
    requires c.stack[0].code == Rest(els) && c.stack[0].n == 0 && c.stack[0].node.None?
    requires pushed == Pushing(c, Wait(els, c.pos), 0, els[0].name)
    requires Runs(m, w, pushed, Config(pushed.stack[1..], k))
    requires next == Replaced(c, Rest(els[1..]), 0, None, k)
    ensures Runs(m, w, c, next)
  {
    hide Emittable, Runs;
    var back := Config(pushed.stack[1..], k);
    assert Replaced(back, Rest(els[1..]), 0, None, k) == next;
    RunsRefl(m, w, next);
    RunsStep(m, w, back, next, next);
    RunsTrans(m, w, pushed, back, next);
    RunsStep(m, w, c, pushed, next);
  }

  /** A word of a loop is empty or begins with a word of its item. */
  lemma LoopDerived(m: Emitted, goal: string, u: Word, h: nat)
    requires Emittable(m) && DistinctNames(m.g) && goal in m.loops && u in At(Stage(m.g, h), goal)
    ensures h > 0
    ensures u == [] || u in Cat(ElemLang(ItemOf(m, goal), Stage(m.g, h - 1)), At(Stage(m.g, h - 1), goal))
  {
    var k := Derived(m, goal, u, h);
    PairLang(ItemOf(m, goal), Ref(goal), Stage(m.g, h - 1));
  }

  /** A loop that has been entered runs through any word it derives. */
  lemma {:induction false} LoopRuns(m: Emitted, w: Word, f: Frame, node: seq<Word>, below: seq<Frame>, p: nat, q: nat,
      h: nat)
    requires Emittable(m) && DistinctNames(m.g) && f.goal in m.loops && p <= q <= |w|
    requires w[p..q] in At(Stage(m.g, h), f.goal)
    ensures Runs(m, w, Top(f, Open, 1, Some(node), below, p), Config(below, q))
    decreases h, 0, 0
  {
    hide Emittable, Stage, Runs, ElemLang;
    var c := Top(f, Open, 1, Some(node), below, p);
    var last := Config(below, q);
    assert c.stack[1..] == below;
    LoopDerived(m, f.goal, w[p..q], h);
    if p == q {
      RunsRefl(m, w, last);
      RunsStep(m, w, c, last, last);
    } else {
      var item := ItemOf(m, f.goal);
      var k := SplitSlice(w, p, q, ElemLang(item, Stage(m.g, h - 1)), At(Stage(m.g, h - 1), f.goal));
      var next := Top(f, Open, 1, Some(node + [w[p..k]]), below, k);
      LoopRuns(m, w, f, node + [w[p..k]], below, k, q, h - 1);
      ItemRuns(m, w, f, node, below, p, k, h - 1);
      RunsTrans(m, w, c, next, last);
    }
  }

  /** One turn of the loop. */
  lemma {:induction false} ItemRuns(m: Emitted, w: Word, f: Frame, node: seq<Word>, below: seq<Frame>, p: nat, k: nat,
      h: nat)
    requires Emittable(m) && DistinctNames(m.g) && f.goal in m.loops && p <= k <= |w|
    requires w[p..k] in ElemLang(ItemOf(m, f.goal), Stage(m.g, h))
    ensures Runs(m, w, Top(f, Open, 1, Some(node), below, p), Top(f, Open, 1, Some(node + [w[p..k]]), below, k))
    decreases h, 3, 0
  {
    hide Emittable, Stage, Runs;
    var item := ItemOf(m, f.goal);
    var c := Top(f, Open, 1, Some(node), below, p);
    var next := Top(f, Open, 1, Some(node + [w[p..k]]), below, k);
    assert c.stack[1..] == below;
    if item.Ref? {
      var taking := Replaced(c, Take, 1, Some(node), p);
      var pushed := Pushing(taking, Close(p), 0, item.name);
      RuleRuns(m, w, pushed.stack[0], pushed.stack[1..], p, k, h);
      assert Top(pushed.stack[0], Open, 0, None, pushed.stack[1..], p) == pushed;
      LoopTurns(m, w, c, taking, pushed, next, node, k);
    } else {
      OneToken(w, p, k, item.tok);
      assert w[p..k] == [w[p]];
      RunsRefl(m, w, next);
      RunsStep(m, w, c, next, next);
    }
  }

  lemma LoopTurns(m: Emitted, w: Word, c: Config, taking: Config, pushed: Config, next: Config, node: seq<Word>,
      k: nat)
    requires Emittable(m) && c.stack != [] && c.stack[0].goal in m.loops && c.pos <= k <= |w|
    requires c.stack[0].code == Open && c.stack[0].n == 1 && c.stack[0].node == Some(node)
    requires ItemOf(m, c.stack[0].goal).Ref? && taking == Replaced(c, Take, 1, Some(node), c.pos)
    requires pushed == Pushing(taking, Close(c.pos), 0, ItemOf(m, c.stack[0].goal).name)
    requires next == Replaced(c, Open, 1, Some(node + [w[c.pos..k]]), k)
    requires Runs(m, w, pushed, Config(pushed.stack[1..], k))
    ensures Runs(m, w, c, next)
  {
    hide Emittable, Runs;
    var ended := Config(pushed.stack[1..], k);
    var counted := Replaced(c, Back, 1, Some(node + [w[c.pos..k]]), k);
    assert counted == Replaced(ended, Back, 1, Some(node + [w[c.pos..k]]), k);
    assert next == Replaced(counted, Open, 1, Some(node + [w[c.pos..k]]), k);
    RunsRefl(m, w, next);
    RunsStep(m, w, counted, next, next);
    RunsStep(m, w, ended, counted, next);
    RunsTrans(m, w, pushed, ended, next);
    RunsStep(m, w, taking, pushed, next);
    RunsStep(m, w, c, taking, next);
  }

  lemma InitialOk(m: Emitted, w: Word, root: string)
    requires Emittable(m)
    ensures Inv(m, w, root, Initial(root))
  {
  }

  /** The runs of the emitted rules accept exactly the language of the grammar: the
      loops, the counters and the nodes change nothing, whatever the items are. */
  lemma AcceptedExactly(m: Emitted, root: string, w: Word)
    requires Emittable(m) && DistinctNames(m.g)
    ensures Accepted(m, root, w) <==> w in At(Language(m.g), root)
  {
    hide Emittable, Stage;
    assert w[0..|w|] == w && w[..|w|] == w;
    if Accepted(m, root, w) {
      var cs :| RunOf(m, w, cs, Initial(root), Config([], |w|));
      InitialOk(m, w, root);
      TraceKeeps(m, w, root, cs, |cs| - 1);
    }
    if w in At(Language(m.g), root) {
      var h: nat :| DerivesIn(root, w, m.g, h);
      var f := Initial(root).stack[0];
      var none: seq<Frame> := [];
      assert Top(f, Open, 0, None, none, 0) == Initial(root);
      RuleRuns(m, w, f, none, 0, |w|, h);
    }
  }
}
