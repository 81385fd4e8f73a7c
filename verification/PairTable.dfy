/** The answers one decision keeps: its tokens numbered once, each ordered pair of
    them asked at most once. */
module PairTable {
  import opened Languages
  import opened Dispatch

  const MEMO_PAIRS: nat := 0x40_0000

  datatype Answer = Unasked | No | Yes

  /** The tokens numbered so far, in order, with the number of each. */
  datatype Interned = Interned(names: seq<string>, index: map<string, nat>) {
    predicate Valid() {
      forall t :: t in index ==> index[t] < |names| && names[index[t]] == t
    }
  }

  predicate Named(names: seq<string>, ids: seq<nat>, w: Word) {
    |ids| == |w| && forall i :: 0 <= i < |ids| ==> ids[i] < |names| && names[ids[i]] == w[i]
  }

  predicate AllNamed(names: seq<string>, ids: seq<seq<nat>>, ws: seq<Word>) {
    |ids| == |ws| && forall i :: 0 <= i < |ids| ==> Named(names, ids[i], ws[i])
  }

  /** A path's tokens as numbers; tokens not met before are numbered next. */
  method Intern(t0: Interned, w: Word) returns (t: Interned, ids: seq<nat>)
    requires t0.Valid()
    ensures t.Valid() && t0.names <= t.names && Named(t.names, ids, w)
  {
    t, ids := t0, [];
    for i := 0 to |w|
      invariant t.Valid() && t0.names <= t.names && Named(t.names, ids, w[..i])
    {
      if w[i] !in t.index {
        t := Interned(t.names + [w[i]], t.index[w[i] := |t.names|]);
      }
      ids := ids + [t.index[w[i]]];
      assert w[..i + 1] == w[..i] + [w[i]];
    }
    assert w[..|w|] == w;
  }

  method InternAll(t0: Interned, ws: seq<Word>) returns (t: Interned, ids: seq<seq<nat>>)
    requires t0.Valid()
    ensures t.Valid() && t0.names <= t.names && AllNamed(t.names, ids, ws)
  {
    t, ids := t0, [];
    for i := 0 to |ws|
      invariant t.Valid() && t0.names <= t.names && AllNamed(t.names, ids, ws[..i])
    {
      var more;
      t, more := Intern(t, ws[i]);
      ids := ids + [more];
      assert ws[..i + 1] == ws[..i] + [ws[i]];
    }
    assert ws[..|ws|] == ws;
  }

  lemma MulMono(x: nat, y: nat, w: nat)
    requires x <= y
    ensures x * w <= y * w
  {
    assert y * w == x * w + (y - x) * w;
  }

  lemma SlotOf(a: nat, b: nat, width: nat)
    requires a < width && b < width
    ensures a * width + b < width * width
    ensures (a * width + b) / width == a && (a * width + b) % width == b
  {
    MulMono(a + 1, width, width);
    assert (a + 1) * width == a * width + width;
    DivMod(a, b, width);
  }

  lemma {:induction false} DivMod(a: nat, b: nat, width: nat)
    requires b < width
    ensures (a * width + b) / width == a && (a * width + b) % width == b
  {
    var n := a * width + b;
    var q, r := n / width, n % width;
    assert n == q * width + r;
    if q < a {
      MulMono(q + 1, a, width);
    } else if q > a {
      MulMono(a + 1, q, width);
    }
  }

  class Table {
    const names: seq<string>
    const contest: Contest
    const dense: bool
    const answers: array<Answer>

    ghost predicate Valid()
      reads this, answers
    {
      && (dense ==> answers.Length == |names| * |names|)
      && forall s :: 0 <= s < answers.Length && dense ==>
           |names| > 0 && s / |names| < |names| && Holds(answers[s], s)
    }

    ghost predicate Holds(a: Answer, s: nat)
      requires |names| > 0 && s / |names| < |names|
    {
      a.Unasked? || (a.Yes? <==> contest(names[s / |names|], names[s % |names|]))
    }

    constructor (names: seq<string>, contest: Contest)
      ensures Valid() && this.names == names && this.contest == contest && fresh(answers)
    {
      this.names := names;
      this.contest := contest;
      var pairs := |names| * |names|;
      dense := pairs <= MEMO_PAIRS;
      answers := new Answer[if pairs <= MEMO_PAIRS then pairs else 0](_ => Unasked);
      new;
      forall s | 0 <= s < answers.Length && dense ensures |names| > 0 && s / |names| < |names| {
        SlotRow(s, |names|);
      }
    }

    /** The answer `contest` gives, asked once while the table has room for it. */
    method Meets(a: nat, b: nat) returns (yes: bool)
      requires Valid() && a < |names| && b < |names|
      modifies answers
      ensures Valid()
      ensures yes == contest(names[a], names[b])
    {
      if !dense {
        return contest(names[a], names[b]);
      }
      var slot := a * |names| + b;
      SlotOf(a, b, |names|);
      if answers[slot] != Unasked {
        return answers[slot] == Yes;
      }
      yes := contest(names[a], names[b]);
      answers[slot] := if yes then Yes else No;
    }
  }

  lemma SlotRow(s: nat, width: nat)
    requires s < width * width
    ensures width > 0 && s / width < width
  {
    assert width > 0;
    var q := s / width;
    assert s == q * width + s % width;
    assert q >= width ==> width * width <= q * width;
  }
}
