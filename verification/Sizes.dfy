/** Deep sizes: what left-recursion elimination charges for an element, an
    alternative and a grammar, and the capped walk that measures them. */
module Sizes {
  import opened Ir

  function ElemSize(e: Element): (n: nat)
    ensures n >= 1
    decreases e
  {
    match e
    case Term(_) => 1
    case Prose(_) => 1
    case Ref(_) => 1
    case Opt(i) => 1 + ElemSize(i)
    case Star(i, _) => 1 + ElemSize(i)
    case Plus(i) => 1 + ElemSize(i)
    case Rep(_, _, i) => 1 + ElemSize(i)
    case Group(alts) => 1 + GroupSize(alts)
  }

  /** 1 for each alternative of a group and the sizes of what is in it. */
  function GroupSize(alts: seq<Owned>): nat
    decreases alts
  {
    if alts == [] then 0 else 1 + SeqSize(alts[0].els) + GroupSize(alts[1..])
  }

  function SeqSize(s: Sequence): (n: nat)
    ensures n >= |s|
    decreases s
  {
    if s == [] then 0 else ElemSize(s[0]) + SeqSize(s[1..])
  }

  function AltsSize(alts: seq<Sequence>): (n: nat)
    ensures n >= |alts|
  {
    if alts == [] then 0 else 1 + SeqSize(alts[0]) + AltsSize(alts[1..])
  }

  function GrammarSize(g: Grammar): nat {
    if g == [] then 0 else AltsSize(g[0].alts) + GrammarSize(g[1..])
  }

  lemma {:induction false} SeqSizeCat(s: Sequence, t: Sequence)
    ensures SeqSize(s + t) == SeqSize(s) + SeqSize(t)
  {
    if s == [] {
      assert s + t == t;
    } else {
      assert (s + t)[0] == s[0] && (s + t)[1..] == s[1..] + t;
      SeqSizeCat(s[1..], t);
    }
  }

  lemma {:induction false} AltsSizeCat(a: seq<Sequence>, b: seq<Sequence>)
    ensures AltsSize(a + b) == AltsSize(a) + AltsSize(b)
  {
    if a == [] {
      assert a + b == b;
    } else {
      assert (a + b)[0] == a[0] && (a + b)[1..] == a[1..] + b;
      AltsSizeCat(a[1..], b);
    }
  }

  lemma SpliceSize(alts: seq<Sequence>, k: nat, parts: seq<Sequence>)
    requires k < |alts|
    ensures AltsSize(alts[..k] + parts + alts[k + 1..]) == AltsSize(alts) - 1 - SeqSize(alts[k]) + AltsSize(parts)
  {
    AltsSizeCat(alts[..k] + parts, alts[k + 1..]);
    AltsSizeCat(alts[..k], parts);
    assert alts == alts[..k] + [alts[k]] + alts[k + 1..];
    AltsSizeCat(alts[..k] + [alts[k]], alts[k + 1..]);
    AltsSizeCat(alts[..k], [alts[k]]);
    AltsSizeOne(alts[k]);
  }

  lemma AltsSizeOne(s: Sequence)
    ensures AltsSize([s]) == 1 + SeqSize(s)
  {
    assert [s][1..] == [];
  }

  lemma AltsSizeTwo(s: Sequence, t: Sequence)
    ensures AltsSize([s, t]) == 2 + SeqSize(s) + SeqSize(t)
  {
    assert [s, t] == [s] + [t];
    AltsSizeCat([s], [t]);
    AltsSizeOne(s);
    AltsSizeOne(t);
  }

  lemma PairSize(x: Element, y: Element)
    ensures SeqSize([x, y]) == ElemSize(x) + ElemSize(y)
  {
    assert [x, y] == [x] + [y] && [x][1..] == [] && [y][1..] == [];
    SeqSizeCat([x], [y]);
  }

  lemma {:induction false} GroupOfSize(alts: seq<Sequence>)
    ensures GroupSize(GroupOf(alts).alts) == AltsSize(alts)
  {
    if alts != [] {
      assert GroupOf(alts).alts[1..] == GroupOf(alts[1..]).alts;
      GroupOfSize(alts[1..]);
    }
  }

  lemma {:induction false} GrammarSizeAt(g: Grammar, i: nat, p: Production)
    requires i < |g|
    ensures GrammarSize(g[i := p]) == GrammarSize(g) - AltsSize(g[i].alts) + AltsSize(p.alts)
    ensures AltsSize(g[i].alts) <= GrammarSize(g)
  {
    if i == 0 {
      assert g[0 := p][1..] == g[1..];
    } else {
      assert g[i := p][1..] == g[1..][i - 1 := p];
      GrammarSizeAt(g[1..], i - 1, p);
    }
  }

  /** The elements of a list of alternatives, one after another. */
  function Flatten(alts: seq<Sequence>): Sequence {
    if alts == [] then [] else alts[0] + Flatten(alts[1..])
  }

  function FlattenOwned(alts: seq<Owned>): Sequence {
    if alts == [] then [] else alts[0].els + FlattenOwned(alts[1..])
  }

  lemma {:induction false} FlattenOwnedSize(alts: seq<Owned>)
    ensures GroupSize(alts) == |alts| + SeqSize(FlattenOwned(alts))
  {
    if alts != [] {
      FlattenOwnedSize(alts[1..]);
      SeqSizeCat(alts[0].els, FlattenOwned(alts[1..]));
    }
  }

  function Min(a: nat, b: nat): nat { if a < b then a else b }

  /** What a popped element leaves on the walk's stack. */
  function Nested(e: Element): Sequence {
    match e
    case Opt(i) => [i]
    case Star(i, _) => [i]
    case Plus(i) => [i]
    case Rep(_, _, i) => [i]
    case Group(alts) => FlattenOwned(alts)
    case _ => []
  }

  function OwnSize(e: Element): nat {
    if e.Group? then 1 + |e.alts| else 1
  }

  lemma NestedSize(e: Element)
    ensures ElemSize(e) == OwnSize(e) + SeqSize(Nested(e))
  {
    match e
    case Group(alts) => FlattenOwnedSize(alts);
    case Opt(i) => assert [i][1..] == [];
    case Star(i, _) => assert [i][1..] == [];
    case Plus(i) => assert [i][1..] == [];
    case Rep(_, _, i) => assert [i][1..] == [];
    case _ =>
  }

  lemma SeqSizeLast(s: Sequence)
    requires s != []
    ensures SeqSize(s) == SeqSize(s[..|s| - 1]) + ElemSize(s[|s| - 1])
  {
    assert s == s[..|s| - 1] + [s[|s| - 1]];
    SeqSizeCat(s[..|s| - 1], [s[|s| - 1]]);
    assert [s[|s| - 1]][1..] == [];
  }

  /** The walk with a stack of its own that gives up at `cap`: the size itself
      below the cap, and the cap from there on. */
  method DeepSize(elements: Sequence, cap: nat) returns (size: nat)
    requires cap > 0
    ensures size == Min(SeqSize(elements), cap)
  {
    var stack := elements;
    size := 0;
    while stack != []
      invariant size + SeqSize(stack) == SeqSize(elements)
      invariant size < cap
      decreases SeqSize(stack)
    {
      var el := stack[|stack| - 1];
      SeqSizeLast(stack);
      NestedSize(el);
      stack := stack[..|stack| - 1];
      size := size + OwnSize(el);
      if size >= cap {
        return cap;
      }
      SeqSizeCat(stack, Nested(el));
      stack := stack + Nested(el);
    }
  }
}
