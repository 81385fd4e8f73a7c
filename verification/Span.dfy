/** The most tokens a sequence can span, for deciding whether a choice's lookahead
    can see past it: the plain recursive measure, the measure in limited room, and
    the walk with a stack of its own that computes it. */
module Span {
  import opened Ir
  import opened Sizes
  import opened Languages

  const LOOKAHEAD: nat := 4

  // ---- the plain measure ----

  function Added(a: Option<nat>, b: Option<nat>): Option<nat> {
    if a.Some? && b.Some? then Some(a.value + b.value) else None
  }

  function Larger(a: nat, b: nat): nat { if a < b then b else a }

  function Most(a: Option<nat>, b: Option<nat>): Option<nat> {
    if a.Some? && b.Some? then Some(Larger(a.value, b.value)) else None
  }

  function Scaled(n: nat, a: Option<nat>): Option<nat> {
    if a.Some? then Some(n * a.value) else None
  }

  lemma Entering(g: Grammar, onWay: set<string>, name: string)
    requires name !in onWay && Find(g, name).Some?
    ensures |NameSet(g) - (onWay + {name})| < |NameSet(g) - onWay|
  {
    assert NameSet(g) - onWay == (NameSet(g) - (onWay + {name})) + {name};
  }

  lemma {:induction false} UnownedSize(alts: seq<Owned>)
    ensures AltsSize(Unowned(alts)) == GroupSize(alts)
  {
    if alts != [] {
      assert Unowned(alts)[1..] == Unowned(alts[1..]);
      UnownedSize(alts[1..]);
    }
  }

  /** `None` is unbounded or unknown. */
  function ElemSpan(e: Element, g: Grammar, onWay: set<string>): Option<nat>
    decreases |NameSet(g) - onWay|, ElemSize(e), 0
  {
    match e
    case Term(_) => Some(1)
    case Prose(_) => None
    case Star(_, _) => None
    case Plus(_) => None
    case Opt(i) => ElemSpan(i, g, onWay)
    case Rep(_, None, _) => None
    case Rep(_, Some(n), i) => if n == 0 then Some(0) else Scaled(n, ElemSpan(i, g, onWay))
    case Group(alts) => UnownedSize(alts); AltsSpan(Unowned(alts), g, onWay)
    case Ref(name) =>
      if name in onWay || Find(g, name).None? || Find(g, name).value.alts == [] then None
      else Entering(g, onWay, name); AltsSpan(Find(g, name).value.alts, g, onWay + {name})
  }

  function SeqSpan(s: Sequence, g: Grammar, onWay: set<string>): Option<nat>
    decreases |NameSet(g) - onWay|, SeqSize(s), 1
  {
    if s == [] then Some(0) else Added(ElemSpan(s[0], g, onWay), SeqSpan(s[1..], g, onWay))
  }

  function AltsSpan(alts: seq<Sequence>, g: Grammar, onWay: set<string>): Option<nat>
    decreases |NameSet(g) - onWay|, AltsSize(alts), 1
  {
    if alts == [] then Some(0) else Most(SeqSpan(alts[0], g, onWay), AltsSpan(alts[1..], g, onWay))
  }

  // ---- a span bounds the words ----

  ghost predicate Bounds(n: nat, l: Lang) {
    forall w :: w in l ==> |w| <= n
  }

  lemma CatBounds(a: Lang, b: Lang, i: nat, j: nat)
    requires Bounds(i, a) && Bounds(j, b)
    ensures Bounds(i + j, Cat(a, b))
  {
    forall w | w in Cat(a, b) ensures |w| <= i + j {
      var u, v := CatElim(w, a, b);
    }
  }

  lemma {:induction false} PowBounds(a: Lang, i: nat, n: nat)
    requires Bounds(i, a)
    ensures Bounds(n * i, Pow(a, n))
  {
    if n > 0 {
      PowBounds(a, i, n - 1);
      CatBounds(a, Pow(a, n - 1), i, (n - 1) * i);
      assert i + (n - 1) * i == n * i;
    }
  }

  lemma BetweenBounds(a: Lang, i: nat, lo: nat, hi: nat)
    requires Bounds(i, a)
    ensures Bounds(hi * i, Between(a, lo, hi))
  {
    forall w | w in Between(a, lo, hi) ensures |w| <= hi * i {
      var n: nat :| lo <= n <= hi && Times(w, a, n);
      PowBounds(a, i, n);
      assert n * i <= hi * i by { MulLe(n, hi, i); }
    }
  }

  lemma NoneBounds(a: Lang, lo: nat)
    ensures Bounds(0, Between(a, lo, 0))
  {
    forall w | w in Between(a, lo, 0) ensures w == [] {
      var k: nat :| lo <= k <= 0 && Times(w, a, k);
    }
  }

  lemma MulLe(a: nat, b: nat, c: nat)
    requires a <= b
    ensures a * c <= b * c
  {
  }

  lemma {:induction false} ElemSpanBounds(e: Element, g: Grammar, onWay: set<string>)
    requires DistinctNames(g) && ElemSpan(e, g, onWay).Some?
    ensures Bounds(ElemSpan(e, g, onWay).value, ElemLang(e, Language(g)))
    decreases |NameSet(g) - onWay|, ElemSize(e), 0
  {
    match e
    case Term(_) =>
    case Opt(i) => ElemSpanBounds(i, g, onWay);
    case Rep(lo, Some(n), i) =>
      if n > 0 {
        ElemSpanBounds(i, g, onWay);
        BetweenBounds(ElemLang(i, Language(g)), ElemSpan(i, g, onWay).value, lo, n);
      } else {
        NoneBounds(ElemLang(i, Language(g)), lo);
      }
    case Group(alts) =>
      UnownedSize(alts);
      AltsSpanBounds(Unowned(alts), g, onWay);
      GroupPlain(alts, Language(g));
    case Ref(name) => RefSpanBounds(name, g, onWay);
  }

  lemma {:induction false} RefSpanBounds(name: string, g: Grammar, onWay: set<string>)
    requires DistinctNames(g) && ElemSpan(Ref(name), g, onWay).Some?
    ensures Bounds(ElemSpan(Ref(name), g, onWay).value, At(Language(g), name))
    decreases |NameSet(g) - onWay|, 0, 2
  {
    Entering(g, onWay, name);
    var p := Find(g, name).value;
    AltsSpanBounds(p.alts, g, onWay + {name});
    var i :| 0 <= i < |g| && g[i] == p;
    RuleLanguage(g, i);
  }

  lemma {:induction false} SeqSpanBounds(s: Sequence, g: Grammar, onWay: set<string>)
    requires DistinctNames(g) && SeqSpan(s, g, onWay).Some?
    ensures Bounds(SeqSpan(s, g, onWay).value, SeqLang(s, Language(g)))
    decreases |NameSet(g) - onWay|, SeqSize(s), 1
  {
    if s != [] {
      ElemSpanBounds(s[0], g, onWay);
      SeqSpanBounds(s[1..], g, onWay);
      CatBounds(ElemLang(s[0], Language(g)), SeqLang(s[1..], Language(g)),
                ElemSpan(s[0], g, onWay).value, SeqSpan(s[1..], g, onWay).value);
    }
  }

  lemma {:induction false} AltsSpanBounds(alts: seq<Sequence>, g: Grammar, onWay: set<string>)
    requires DistinctNames(g) && AltsSpan(alts, g, onWay).Some?
    ensures Bounds(AltsSpan(alts, g, onWay).value, AltsLang(alts, Language(g)))
    decreases |NameSet(g) - onWay|, AltsSize(alts), 1
  {
    if alts == [] {
      forall w | w in AltsLang([], Language(g)) ensures false { var i := AltsElim(w, [], Language(g)); }
    } else {
      SeqSpanBounds(alts[0], g, onWay);
      AltsSpanBounds(alts[1..], g, onWay);
      assert alts == [alts[0]] + alts[1..];
      AltsCat([alts[0]], alts[1..], Language(g));
      AltsOne(alts[0], Language(g));
    }
  }

  // ---- the measure in limited room ----

  function ElemIn(e: Element, room: nat, g: Grammar, onWay: set<string>): Option<nat>
    decreases |NameSet(g) - onWay|, ElemSize(e), 0
  {
    match e
    case Term(_) => Some(1)
    case Prose(_) => None
    case Star(_, _) => None
    case Plus(_) => None
    case Opt(i) => ElemIn(i, room, g, onWay)
    case Rep(_, None, _) => None
    case Rep(_, Some(n), i) => if n == 0 then Some(0) else Scaled(n, ElemIn(i, room / n, g, onWay))
    case Group(alts) => UnownedSize(alts); AltsIn(Unowned(alts), 0, room, g, onWay)
    case Ref(name) =>
      if name in onWay || Find(g, name).None? || Find(g, name).value.alts == [] then None
      else Entering(g, onWay, name); AltsIn(Find(g, name).value.alts, 0, room, g, onWay + {name})
  }

  /** The rest of a sequence, `total` spanned so far: given up past `room`. */
  function SeqIn(s: Sequence, total: nat, room: nat, g: Grammar, onWay: set<string>): Option<nat>
    decreases |NameSet(g) - onWay|, SeqSize(s), 1
  {
    if total > room then None
    else if s == [] then Some(total)
    else
      var n := ElemIn(s[0], room - total, g, onWay);
      if n.None? then None else SeqIn(s[1..], total + n.value, room, g, onWay)
  }

  function AltsIn(alts: seq<Sequence>, most: nat, room: nat, g: Grammar, onWay: set<string>): Option<nat>
    decreases |NameSet(g) - onWay|, AltsSize(alts), 1
  {
    if alts == [] then Some(most)
    else
      var n := SeqIn(alts[0], 0, room, g, onWay);
      if n.None? then None else AltsIn(alts[1..], Larger(most, n.value), room, g, onWay)
  }

  /** The two agree on spans that fit, and neither fits when the other does not. */
  ghost predicate Agrees(limited: Option<nat>, span: Option<nat>, room: nat) {
    if span.Some? && span.value <= room then limited == span
    else limited.None? || limited.value > room
  }

  function Clamp(span: Option<nat>, room: nat): Option<nat> {
    if span.Some? && span.value <= room then span else None
  }

  lemma DividedRoom(n: nat, k: nat, room: nat)
    requires n > 0
    ensures n * k <= room <==> k <= room / n
  {
    var q := room / n;
    assert n * q <= room < n * (q + 1);
    if k <= q { MulLe(k, q, n); } else { MulLe(q + 1, k, n); }
  }

  /** Copies: the room divided among them. */
  lemma TimesAgrees(limited: Option<nat>, span: Option<nat>, n: nat, room: nat)
    requires n > 0 && Agrees(limited, span, room / n)
    ensures Agrees(Scaled(n, limited), Scaled(n, span), room)
  {
    if limited.Some? {
      DividedRoom(n, limited.value, room);
    }
    if span.Some? {
      DividedRoom(n, span.value, room);
    }
  }

  lemma {:induction false} ElemInAgrees(e: Element, room: nat, g: Grammar, onWay: set<string>)
    ensures Agrees(ElemIn(e, room, g, onWay), ElemSpan(e, g, onWay), room)
    decreases |NameSet(g) - onWay|, ElemSize(e), 0
  {
    match e
    case Opt(i) => ElemInAgrees(i, room, g, onWay);
    case Rep(_, Some(n), i) =>
      if n > 0 {
        ElemInAgrees(i, room / n, g, onWay);
        TimesAgrees(ElemIn(i, room / n, g, onWay), ElemSpan(i, g, onWay), n, room);
      }
    case Group(alts) =>
      UnownedSize(alts);
      AltsInClamps(Unowned(alts), 0, room, g, onWay);
    case Ref(name) => RefInAgrees(name, room, g, onWay);
    case _ =>
  }

  lemma {:induction false} RefInAgrees(name: string, room: nat, g: Grammar, onWay: set<string>)
    ensures Agrees(ElemIn(Ref(name), room, g, onWay), ElemSpan(Ref(name), g, onWay), room)
    decreases |NameSet(g) - onWay|, 0, 2
  {
    if !(name in onWay || Find(g, name).None? || Find(g, name).value.alts == []) {
      Entering(g, onWay, name);
      AltsInClamps(Find(g, name).value.alts, 0, room, g, onWay + {name});
    }
  }

  lemma {:induction false} SeqInClamps(s: Sequence, total: nat, room: nat, g: Grammar, onWay: set<string>)
    ensures SeqIn(s, total, room, g, onWay) == Clamp(Added(Some(total), SeqSpan(s, g, onWay)), room)
    decreases |NameSet(g) - onWay|, SeqSize(s), 1
  {
    if total <= room && s != [] {
      ElemInAgrees(s[0], room - total, g, onWay);
      var n := ElemIn(s[0], room - total, g, onWay);
      if n.Some? {
        SeqInClamps(s[1..], total + n.value, room, g, onWay);
      }
    }
  }

  lemma {:induction false} AltsInClamps(alts: seq<Sequence>, most: nat, room: nat, g: Grammar, onWay: set<string>)
    requires most <= room
    ensures AltsIn(alts, most, room, g, onWay) == Clamp(Most(Some(most), AltsSpan(alts, g, onWay)), room)
    decreases |NameSet(g) - onWay|, AltsSize(alts), 1
  {
    if alts != [] {
      SeqInClamps(alts[0], 0, room, g, onWay);
      var n := SeqIn(alts[0], 0, room, g, onWay);
      if n.Some? {
        AltsInClamps(alts[1..], Larger(most, n.value), room, g, onWay);
      }
    }
  }

  // ---- the walk ----

  datatype Frame =
    | SeqFrame(elements: Sequence, at: nat, total: nat, seqRoom: nat)
    | AltsFrame(alternatives: seq<Sequence>, next: nat, most: nat, room: nat, rule: Option<string>)
    | RepFrame(times: nat)

  /** What the frame on top was waiting for, once it is known. */
  datatype Back = Waiting | Known(span: Option<nat>)

  /** The rules on the way: those the stack's frames have entered. */
  ghost function OnWay(stack: seq<Frame>): set<string> {
    if stack == [] then {} else OnWay(stack[..|stack| - 1]) + RuleOf(stack[|stack| - 1])
  }

  ghost function RuleOf(f: Frame): set<string> {
    if f.AltsFrame? && f.rule.Some? then {f.rule.value} else {}
  }

  ghost predicate FrameFits(f: Frame) {
    match f
    case SeqFrame(s, at, _, _) => at <= |s|
    case AltsFrame(alts, next, _, _, _) => next <= |alts|
    case RepFrame(_) => true
  }

  /** What the top frame comes to, the rest of its work done recursively. */
  ghost function FrameValue(f: Frame, back: Back, g: Grammar, onWay: set<string>): Option<nat>
    requires FrameFits(f)
  {
    if back == Known(None) then None
    else
      match f
      case SeqFrame(s, at, total, room) =>
        SeqIn(s[at..], if back.Known? then total + back.span.value else total, room, g, onWay)
      case AltsFrame(alts, next, most, room, _) =>
        AltsIn(alts[next..], if back.Known? then Larger(most, back.span.value) else most, room, g, onWay)
      case RepFrame(times) => if back.Known? then Scaled(times, back.span) else None
  }

  /** What the whole walk comes to from here. */
  ghost function Resume(stack: seq<Frame>, back: Back, g: Grammar): Option<nat>
    requires stack != [] && forall i :: 0 <= i < |stack| ==> FrameFits(stack[i])
    decreases |stack|
  {
    var rest := stack[..|stack| - 1];
    var value := FrameValue(stack[|stack| - 1], back, g, OnWay(stack));
    if rest == [] then value else Resume(rest, Known(value), g)
  }

  ghost predicate Fits(stack: seq<Frame>) {
    forall i :: 0 <= i < |stack| ==> FrameFits(stack[i])
  }

  /** No rule is entered twice. */
  ghost predicate EnteredOnce(stack: seq<Frame>) {
    stack == [] || (EnteredOnce(stack[..|stack| - 1]) && RuleOf(stack[|stack| - 1]) !! OnWay(stack[..|stack| - 1]))
  }

  lemma Pushed(stack: seq<Frame>, f: Frame, back: Back, g: Grammar)
    requires Fits(stack) && FrameFits(f)
    ensures Fits(stack + [f]) && OnWay(stack + [f]) == OnWay(stack) + RuleOf(f)
    ensures EnteredOnce(stack) && RuleOf(f) !! OnWay(stack) ==> EnteredOnce(stack + [f])
    ensures Resume(stack + [f], back, g) ==
      var value := FrameValue(f, back, g, OnWay(stack) + RuleOf(f));
      if stack == [] then value else Resume(stack, Known(value), g)
  {
    assert (stack + [f])[..|stack|] == stack;
  }

  // ---- the walk ends ----

  ghost function ElemCost(e: Element, g: Grammar, onWay: set<string>): nat
    decreases |NameSet(g) - onWay|, ElemSize(e), 0
  {
    match e
    case Opt(i) => ElemCost(i, g, onWay)
    case Rep(_, Some(n), i) => if n == 0 then 0 else 1 + ElemCost(i, g, onWay)
    case Group(alts) => UnownedSize(alts); 1 + AltsCost(Unowned(alts), g, onWay)
    case Ref(name) =>
      if name in onWay || Find(g, name).None? || Find(g, name).value.alts == [] then 0
      else Entering(g, onWay, name); 1 + AltsCost(Find(g, name).value.alts, g, onWay + {name})
    case _ => 0
  }

  ghost function SeqCost(s: Sequence, g: Grammar, onWay: set<string>): nat
    decreases |NameSet(g) - onWay|, SeqSize(s), 1
  {
    if s == [] then 0 else 1 + ElemCost(s[0], g, onWay) + SeqCost(s[1..], g, onWay)
  }

  ghost function AltsCost(alts: seq<Sequence>, g: Grammar, onWay: set<string>): nat
    decreases |NameSet(g) - onWay|, AltsSize(alts), 1
  {
    if alts == [] then 0 else 2 + SeqCost(alts[0], g, onWay) + AltsCost(alts[1..], g, onWay)
  }

  ghost function FrameCost(f: Frame, g: Grammar, onWay: set<string>): nat
    requires FrameFits(f)
  {
    match f
    case SeqFrame(s, at, _, _) => 1 + SeqCost(s[at..], g, onWay)
    case AltsFrame(alts, next, _, _, _) => 1 + AltsCost(alts[next..], g, onWay)
    case RepFrame(_) => 1
  }

  /** What is left to do, in steps. */
  ghost function StackCost(stack: seq<Frame>, g: Grammar): nat
    requires Fits(stack)
    decreases |stack|
  {
    if stack == [] then 0
    else StackCost(stack[..|stack| - 1], g) + FrameCost(stack[|stack| - 1], g, OnWay(stack))
  }

  lemma PushedCost(stack: seq<Frame>, f: Frame, g: Grammar)
    requires Fits(stack) && FrameFits(f)
    ensures Fits(stack + [f])
    ensures StackCost(stack + [f], g) == StackCost(stack, g) + FrameCost(f, g, OnWay(stack) + RuleOf(f))
  {
    assert (stack + [f])[..|stack|] == stack;
  }

  ghost predicate Walking(stack: seq<Frame>, onWay: set<string>) {
    Fits(stack) && EnteredOnce(stack) && onWay == OnWay(stack)
  }

  method PushFrame(stack: seq<Frame>, onWay: set<string>, f: Frame, ghost back: Back, ghost g: Grammar)
    returns (stack': seq<Frame>, onWay': set<string>)
    requires Walking(stack, onWay) && FrameFits(f) && RuleOf(f) !! onWay
    ensures Walking(stack', onWay') && stack' != [] && onWay' == onWay + RuleOf(f)
    ensures stack' == stack + [f]
    ensures StackCost(stack', g) == StackCost(stack, g) + FrameCost(f, g, onWay')
    ensures stack != [] ==> Resume(stack', back, g) == Resume(stack, Known(FrameValue(f, back, g, onWay')), g)
  {
    Pushed(stack, f, back, g);
    PushedCost(stack, f, g);
    stack' := stack + [f];
    onWay' := if f.AltsFrame? && f.rule.Some? then onWay + {f.rule.value} else onWay;
  }

  predicate Wraps(e: Element) {
    e.Opt? || (e.Rep? && e.max.Some? && e.max.value > 0)
  }

  /** Down through options and bounded repetitions: an option spans at most what is
      in it, and what is repeated `n` times has an `n`th of the room. */
  method Descend(e: Element, room: nat, stack: seq<Frame>, onWay: set<string>, ghost g: Grammar)
    returns (e': Element, room': nat, stack': seq<Frame>)
    requires Walking(stack, onWay) && stack != []
    ensures Walking(stack', onWay) && stack' != [] && !Wraps(e')
    ensures Resume(stack', Known(ElemIn(e', room', g, onWay)), g) == Resume(stack, Known(ElemIn(e, room, g, onWay)), g)
    ensures StackCost(stack', g) + ElemCost(e', g, onWay) <= StackCost(stack, g) + ElemCost(e, g, onWay)
  {
    e', room', stack' := e, room, stack;
    while Wraps(e')
      invariant Walking(stack', onWay) && stack' != []
      invariant Resume(stack', Known(ElemIn(e', room', g, onWay)), g)
        == Resume(stack, Known(ElemIn(e, room, g, onWay)), g)
      invariant StackCost(stack', g) + ElemCost(e', g, onWay) <= StackCost(stack, g) + ElemCost(e, g, onWay)
      decreases e'
    {
      if e'.Rep? {
        var n := e'.max.value;
        ghost var inner := ElemIn(e'.inner, room' / n, g, onWay);
        assert Scaled(n, inner) == ElemIn(e', room', g, onWay);
        var same;
        stack', same := PushFrame(stack', onWay, RepFrame(n), Known(inner), g);
        room' := room' / n;
      }
      e' := e'.inner;
    }
  }

  lemma AltsFrameFresh(alts: seq<Sequence>, room: nat, rule: Option<string>, g: Grammar, onWay: set<string>)
    ensures FrameValue(AltsFrame(alts, 0, 0, room, rule), Waiting, g, onWay) == AltsIn(alts, 0, room, g, onWay)
    ensures FrameCost(AltsFrame(alts, 0, 0, room, rule), g, onWay) == 1 + AltsCost(alts, g, onWay)
  {
    assert alts[0..] == alts;
  }

  method EnterAlts(alts: seq<Sequence>, room: nat, rule: Option<string>, stack: seq<Frame>, onWay: set<string>,
      ghost g: Grammar)
    returns (stack': seq<Frame>, onWay': set<string>)
    requires Walking(stack, onWay) && stack != [] && (rule.Some? ==> rule.value !in onWay)
    ensures Walking(stack', onWay') && stack' != []
    ensures onWay' == onWay + if rule.Some? then {rule.value} else {}
    ensures Resume(stack', Waiting, g) == Resume(stack, Known(AltsIn(alts, 0, room, g, onWay')), g)
    ensures StackCost(stack', g) == StackCost(stack, g) + 1 + AltsCost(alts, g, onWay')
  {
    stack', onWay' := PushFrame(stack, onWay, AltsFrame(alts, 0, 0, room, rule), Waiting, g);
    AltsFrameFresh(alts, room, rule, g, onWay');
  }

  /** Begins the span of an element: what it spans when that is known at once, or
      the frames that will work it out. */
  method BeginSpan(e: Element, room: nat, stack: seq<Frame>, onWay: set<string>, g: Grammar)
    returns (back: Back, stack': seq<Frame>, onWay': set<string>)
    requires Walking(stack, onWay) && stack != []
    ensures Walking(stack', onWay') && stack' != []
    ensures Resume(stack', back, g) == Resume(stack, Known(ElemIn(e, room, g, onWay)), g)
    ensures StackCost(stack', g) <= StackCost(stack, g) + ElemCost(e, g, onWay)
  {
    var el, left, now := Descend(e, room, stack, onWay, g);
    stack', onWay' := now, onWay;
    if el.Group? {
      back := Waiting;
      stack', onWay' := EnterAlts(Unowned(el.alts), left, None, now, onWay, g);
      assert onWay' == onWay;
    } else if el.Ref? && el.name !in onWay && Find(g, el.name).Some? && Find(g, el.name).value.alts != [] {
      back := Waiting;
      stack', onWay' := EnterAlts(Find(g, el.name).value.alts, left, Some(el.name), now, onWay, g);
    } else if el.Term? {
      back := Known(Some(1));
    } else if el.Rep? && el.max.Some? {
      back := Known(Some(0));
    } else {
      back := Known(None);
    }
  }

  /** The frame on top is done and comes to `span`. */
  lemma Popped(stack: seq<Frame>, back: Back, g: Grammar)
    requires Fits(stack) && EnteredOnce(stack) && stack != []
    ensures var rest, top := stack[..|stack| - 1], stack[|stack| - 1];
      && Fits(rest) && EnteredOnce(rest) && OnWay(rest) == OnWay(stack) - RuleOf(top)
      && StackCost(rest, g) < StackCost(stack, g)
      && (rest != [] ==> Resume(rest, Known(FrameValue(top, back, g, OnWay(stack))), g) == Resume(stack, back, g))
  {
  }

  /** The top frame replaced by one that has got further. */
  lemma Replaced(stack: seq<Frame>, f: Frame, back: Back, back': Back, g: Grammar)
    requires Fits(stack) && stack != [] && FrameFits(f) && RuleOf(f) == RuleOf(stack[|stack| - 1])
    requires EnteredOnce(stack)
    ensures var next, top := stack[|stack| - 1 := f], stack[|stack| - 1];
      && Fits(next) && OnWay(next) == OnWay(stack) && EnteredOnce(next)
      && StackCost(next, g) == StackCost(stack, g) - FrameCost(top, g, OnWay(stack)) + FrameCost(f, g, OnWay(stack))
      && (FrameValue(f, back', g, OnWay(stack)) == FrameValue(top, back, g, OnWay(stack))
          ==> Resume(next, back', g) == Resume(stack, back, g))
  {
    var n := |stack| - 1;
    assert stack[n := f][..n] == stack[..n];
  }

  /** The walk over the sequence `first`: its span while that is at most the
      lookahead, and `None` past it or when there is none. */
  method SeqTokenSpan(first: Sequence, g: Grammar) returns (span: Option<nat>)
    ensures span == Clamp(SeqSpan(first, g, {}), LOOKAHEAD)
  {
    var stack: seq<Frame> := [SeqFrame(first, 0, 0, LOOKAHEAD)];
    var onWay: set<string> := {};
    var back := Waiting;
    StartOf(first, g);
    while true
      invariant Walking(stack, onWay) && stack != []
      invariant Resume(stack, back, g) == Clamp(SeqSpan(first, g, {}), LOOKAHEAD)
      decreases StackCost(stack, g)
    {
      var top := stack[|stack| - 1];
      var done, value;
      done, value, back, stack, onWay := StepTop(stack, onWay, back, g);
      if done {
        return value;
      }
    }
  }

  lemma StartOf(first: Sequence, g: Grammar)
    ensures var stack := [SeqFrame(first, 0, 0, LOOKAHEAD)];
      && Walking(stack, {}) && Resume(stack, Waiting, g) == Clamp(SeqSpan(first, g, {}), LOOKAHEAD)
  {
    var f := SeqFrame(first, 0, 0, LOOKAHEAD);
    assert [] + [f] == [f] && first[0..] == first;
    Pushed([], f, Waiting, g);
    SeqInClamps(first, 0, LOOKAHEAD, g, {});
  }

  /** The frame on top is popped with what it comes to. */
  method FinishTop(stack: seq<Frame>, onWay: set<string>, ghost back: Back, value: Option<nat>, g: Grammar)
    returns (done: bool, back': Back, stack': seq<Frame>, onWay': set<string>)
    requires Walking(stack, onWay) && stack != []
    requires value == FrameValue(stack[|stack| - 1], back, g, onWay)
    ensures Walking(stack', onWay') && StackCost(stack', g) < StackCost(stack, g)
    ensures done ==> Resume(stack, back, g) == value
    ensures !done ==> stack' != [] && Resume(stack', back', g) == Resume(stack, back, g)
  {
    Popped(stack, back, g);
    var top := stack[|stack| - 1];
    stack' := stack[..|stack| - 1];
    onWay' := if top.AltsFrame? && top.rule.Some? then onWay - {top.rule.value} else onWay;
    done := stack' == [];
    back' := Known(value);
  }

  method StepTop(stack: seq<Frame>, onWay: set<string>, back: Back, g: Grammar)
    returns (done: bool, value: Option<nat>, back': Back, stack': seq<Frame>, onWay': set<string>)
    requires Walking(stack, onWay) && stack != []
    ensures Walking(stack', onWay') && StackCost(stack', g) < StackCost(stack, g)
    ensures done ==> value == Resume(stack, back, g)
    ensures !done ==> stack' != [] && Resume(stack', back', g) == Resume(stack, back, g)
  {
    var top := stack[|stack| - 1];
    if back == Known(None) {
      value := None;
      done, back', stack', onWay' := FinishTop(stack, onWay, back, None, g);
    } else {
      match top
      case RepFrame(times) =>
        value := if back.Known? then Scaled(times, back.span) else None;
        done, back', stack', onWay' := FinishTop(stack, onWay, back, value, g);
      case SeqFrame(_, _, _, _) =>
        done, value, back', stack', onWay' := StepSeq(stack, onWay, back, g);
      case AltsFrame(_, _, _, _, _) =>
        done, value, back', stack', onWay' := StepAlts(stack, onWay, back, g);
    }
  }

  method StepSeq(stack: seq<Frame>, onWay: set<string>, back: Back, g: Grammar)
    returns (done: bool, value: Option<nat>, back': Back, stack': seq<Frame>, onWay': set<string>)
    requires Walking(stack, onWay) && stack != [] && stack[|stack| - 1].SeqFrame? && back != Known(None)
    ensures Walking(stack', onWay') && StackCost(stack', g) < StackCost(stack, g)
    ensures done ==> value == Resume(stack, back, g)
    ensures !done ==> stack' != [] && Resume(stack', back', g) == Resume(stack, back, g)
  {
    var SeqFrame(elements, at, total0, room) := stack[|stack| - 1];
    var total := if back.Known? then total0 + back.span.value else total0;
    if total > room {
      value := None;
      done, back', stack', onWay' := FinishTop(stack, onWay, back, value, g);
    } else if at == |elements| {
      value := Some(total);
      done, back', stack', onWay' := FinishTop(stack, onWay, back, value, g);
    } else {
      var f := SeqFrame(elements, at + 1, total, room);
      var n := |stack| - 1;
      ghost var here := Known(ElemIn(elements[at], room - total, g, onWay));
      NextElement(elements, at, total, room, g, onWay);
      Replaced(stack, f, back, here, g);
      done, value := false, None;
      back', stack', onWay' := BeginSpan(elements[at], room - total, stack[n := f], onWay, g);
    }
  }

  lemma NextElement(elements: Sequence, at: nat, total: nat, room: nat, g: Grammar, onWay: set<string>)
    requires at < |elements| && total <= room
    ensures var n := ElemIn(elements[at], room - total, g, onWay);
      SeqIn(elements[at..], total, room, g, onWay)
        == FrameValue(SeqFrame(elements, at + 1, total, room), Known(n), g, onWay)
    ensures SeqCost(elements[at..], g, onWay)
      == 1 + ElemCost(elements[at], g, onWay) + SeqCost(elements[at + 1..], g, onWay)
  {
    assert elements[at..][1..] == elements[at + 1..];
  }

  method StepAlts(stack: seq<Frame>, onWay: set<string>, back: Back, g: Grammar)
    returns (done: bool, value: Option<nat>, back': Back, stack': seq<Frame>, onWay': set<string>)
    requires Walking(stack, onWay) && stack != [] && stack[|stack| - 1].AltsFrame? && back != Known(None)
    ensures Walking(stack', onWay') && StackCost(stack', g) < StackCost(stack, g)
    ensures done ==> value == Resume(stack, back, g)
    ensures !done ==> stack' != [] && Resume(stack', back', g) == Resume(stack, back, g)
  {
    var AltsFrame(alternatives, next, most0, room, rule) := stack[|stack| - 1];
    var most := if back.Known? then Larger(most0, back.span.value) else most0;
    if next == |alternatives| {
      value := Some(most);
      done, back', stack', onWay' := FinishTop(stack, onWay, back, value, g);
    } else {
      var f := AltsFrame(alternatives, next + 1, most, room, rule);
      var n := |stack| - 1;
      ghost var here := Known(SeqIn(alternatives[next], 0, room, g, onWay));
      NextAlternative(alternatives, next, most, room, rule, g, onWay);
      Replaced(stack, f, back, here, g);
      done, value, back' := false, None, Waiting;
      assert onWay + {} == onWay;
      stack', onWay' := PushFrame(stack[n := f], onWay, SeqFrame(alternatives[next], 0, 0, room), Waiting, g);
    }
  }

  lemma NextAlternative(alts: seq<Sequence>, next: nat, most: nat, room: nat, rule: Option<string>, g: Grammar,
      onWay: set<string>)
    requires next < |alts|
    ensures var n := SeqIn(alts[next], 0, room, g, onWay);
      && AltsIn(alts[next..], most, room, g, onWay)
        == FrameValue(AltsFrame(alts, next + 1, most, room, rule), Known(n), g, onWay)
      && n == FrameValue(SeqFrame(alts[next], 0, 0, room), Waiting, g, onWay)
    ensures AltsCost(alts[next..], g, onWay) == 2 + SeqCost(alts[next], g, onWay) + AltsCost(alts[next + 1..], g, onWay)
    ensures FrameCost(SeqFrame(alts[next], 0, 0, room), g, onWay) == 1 + SeqCost(alts[next], g, onWay)
  {
    assert alts[next..][1..] == alts[next + 1..];
    assert alts[next][0..] == alts[next];
  }

  /** A span the walk finds bounds the tokens of every word of the sequence. */
  lemma SpanBoundsWords(s: Sequence, g: Grammar, w: Word)
    requires DistinctNames(g) && Clamp(SeqSpan(s, g, {}), LOOKAHEAD).Some? && w in SeqLang(s, Language(g))
    ensures |w| <= Clamp(SeqSpan(s, g, {}), LOOKAHEAD).value
  {
    SeqSpanBounds(s, g, {});
  }
}
