/** The cycle scan of left-recursion elimination: Tarjan's algorithm with the
    depth-first search carried on an explicit stack of frames.  It returns exactly
    the nodes that reach themselves by one or more edges. */
module CycleScan {
  import opened Reachability

  datatype Frame = Frame(name: string, targets: seq<string>, next: nat)

  datatype State = State(
    index: nat,
    stack: seq<string>,
    onStack: set<string>,
    indices: map<string, nat>,
    lowlinks: map<string, nat>,
    cyclic: set<string>)

  // ---- the invariant ----

  ghost predicate Shape(g: Graph, st: State) {
    && st.indices.Keys == st.lowlinks.Keys
    && st.indices.Keys <= g.Keys
    && (forall v :: v in st.indices ==> st.indices[v] < st.index)
    && (forall v :: v in st.onStack <==> v in st.stack)
    && (forall v :: v in st.onStack ==> v in st.indices)
    && (forall i, j :: 0 <= i < j < |st.stack| ==> st.indices[st.stack[i]] < st.indices[st.stack[j]])
    && (forall u, v :: u in st.indices && v in st.indices && st.indices[u] == st.indices[v] ==> u == v)
  }

  ghost predicate FramesShape(g: Graph, st: State, fs: seq<Frame>)
    requires Shape(g, st)
  {
    && (forall k :: 0 <= k < |fs| ==>
         fs[k].name in st.onStack && fs[k].targets == g[fs[k].name] && fs[k].next <= |fs[k].targets|)
    && (forall k, l :: 0 <= k < l < |fs| ==> st.indices[fs[k].name] < st.indices[fs[l].name])
  }

  ghost predicate Gray(fs: seq<Frame>, v: string) {
    exists k :: 0 <= k < |fs| && fs[k].name == v
  }

  ghost predicate Popped(st: State, v: string) {
    v in st.indices && v !in st.onStack
  }

  /** The scan has followed the edge from `v`, which is in the frame's segment. */
  ghost predicate Seen(g: Graph, f: Frame, v: string, w: string) {
    if v == f.name then f.next <= |f.targets| && w in f.targets[..f.next] else Edge(g, v, w)
  }

  /** Followed edges end at discovered nodes, and those of a popped node at popped ones. */
  ghost predicate EdgesSeen(g: Graph, st: State, fs: seq<Frame>) {
    && (forall v, w :: v in st.indices && !Gray(fs, v) && Edge(g, v, w) ==> w in st.indices)
    && (forall k, w :: 0 <= k < |fs| && Seen(g, fs[k], fs[k].name, w) ==> w in st.indices)
    && (forall v, w :: Popped(st, v) && Edge(g, v, w) ==> Popped(st, w))
  }

  ghost predicate BacksTo(g: Graph, st: State, fs: seq<Frame>, v: string, k: int)
    requires v in st.indices
  {
    && 0 <= k < |fs| && fs[k].name in st.indices
    && st.indices[fs[k].name] <= st.indices[v]
    && Reach(g, v, fs[k].name)
  }

  ghost predicate Backed(g: Graph, st: State, fs: seq<Frame>, v: string) {
    v in st.indices && exists k :: BacksTo(g, st, fs, v, k)
  }

  /** A frame reaches everything above it on the stack, and everything on the stack
      reaches a frame at or below it. */
  ghost predicate Connected(g: Graph, st: State, fs: seq<Frame>)
    requires Shape(g, st) && FramesShape(g, st, fs)
  {
    && (forall k, v {:trigger Reach(g, fs[k].name, v)} ::
         0 <= k < |fs| && v in st.onStack && st.indices[fs[k].name] <= st.indices[v] ==>
         Reach(g, fs[k].name, v))
    && (forall v {:trigger Backed(g, st, fs, v)} :: v in st.onStack ==> Backed(g, st, fs, v))
  }

  ghost predicate InSegment(st: State, fs: seq<Frame>, k: int, v: string) {
    && 0 <= k < |fs| && v in st.onStack && v in st.indices && fs[k].name in st.indices
    && st.indices[fs[k].name] <= st.indices[v]
    && (forall l :: k < l < |fs| ==> fs[l].name in st.indices && st.indices[v] < st.indices[fs[l].name])
  }

  ghost predicate LowAt(g: Graph, st: State, u: string, w: string)
    requires u in st.lowlinks
  {
    w in st.onStack && w in st.indices && st.indices[w] == st.lowlinks[u] && Reach(g, u, w)
  }

  ghost predicate Low(g: Graph, st: State, u: string) {
    u in st.lowlinks && exists w :: LowAt(g, st, u, w)
  }

  /** A frame's lowlink is the index of a node on the stack that it reaches, and no
      edge followed from its segment ends lower on the stack. */
  ghost predicate Lows(g: Graph, st: State, fs: seq<Frame>)
    requires Shape(g, st) && FramesShape(g, st, fs)
  {
    && (forall k :: 0 <= k < |fs| ==>
         st.lowlinks[fs[k].name] <= st.indices[fs[k].name])
    && (forall k {:trigger Low(g, st, fs[k].name)} :: 0 <= k < |fs| ==> Low(g, st, fs[k].name))
    && (forall k, v, w {:trigger InSegment(st, fs, k, v), Seen(g, fs[k], v, w)} ::
         InSegment(st, fs, k, v) && w in st.onStack && Seen(g, fs[k], v, w) ==>
         st.lowlinks[fs[k].name] <= st.indices[w])
  }

  ghost predicate CyclicExact(g: Graph, st: State) {
    forall v {:trigger v in st.cyclic} :: v in st.cyclic <==> Popped(st, v) && OnCycle(g, v)
  }

  ghost predicate Inv(g: Graph, st: State, fs: seq<Frame>) {
    && Total(g)
    && Shape(g, st)
    && FramesShape(g, st, fs)
    && EdgesSeen(g, st, fs)
    && Connected(g, st, fs)
    && Lows(g, st, fs)
    && CyclicExact(g, st)
  }

  // ---- the steps ----

  function Opened(st: State, name: string): State {
    State(st.index + 1, st.stack + [name], st.onStack + {name},
          st.indices[name := st.index], st.lowlinks[name := st.index], st.cyclic)
  }

  function Lowered(st: State, name: string, low: nat): State
    requires name in st.lowlinks
  {
    st.(lowlinks := st.lowlinks[name := if low < st.lowlinks[name] then low else st.lowlinks[name]])
  }

  ghost function Top(fs: seq<Frame>): Frame
    requires fs != []
  {
    fs[|fs| - 1]
  }

  /** The frames of `fs` with nothing changed but how far the top one has got. */
  ghost predicate SameNames(fs: seq<Frame>, fs': seq<Frame>) {
    && |fs| <= |fs'|
    && forall k {:trigger fs'[k]} {:trigger fs[k]} :: 0 <= k < |fs| ==>
         && fs'[k].name == fs[k].name && fs'[k].targets == fs[k].targets
         && (k < |fs| - 1 ==> fs'[k].next == fs[k].next)
  }

  /** The top frame follows its next edge, to `t`. */
  ghost predicate Follows(fs: seq<Frame>, fs': seq<Frame>, t: string) {
    && SameNames(fs, fs')
    && (fs != [] ==>
         && Top(fs).next < |Top(fs).targets| && Top(fs).targets[Top(fs).next] == t
         && fs'[|fs| - 1].next == Top(fs).next + 1)
  }

  /** As `Follows`, and a new frame is opened for `t`. */
  ghost predicate Opens(g: Graph, fs: seq<Frame>, fs': seq<Frame>, t: string) {
    Follows(fs, fs', t) && |fs'| == |fs| + 1 && t in g && fs'[|fs|] == Frame(t, g[t], 0)
  }

  /** A followed edge had been followed before or is the one just followed. */
  lemma SeenFollowed(g: Graph, fs: seq<Frame>, fs': seq<Frame>, t: string, k: nat, v: string, w: string)
    requires Follows(fs, fs', t) && k < |fs| && Seen(g, fs'[k], v, w)
    ensures Seen(g, fs[k], v, w) || (k == |fs| - 1 && v == fs[k].name && w == t)
  {
    if k == |fs| - 1 && v == fs[k].name {
      var i :| 0 <= i < fs'[k].next && fs'[k].targets[i] == w;
      if i < fs[k].next {
        assert w == fs[k].targets[..fs[k].next][i];
      }
    }
  }

  lemma SameGray(fs: seq<Frame>, fs': seq<Frame>, v: string)
    requires SameNames(fs, fs') && Gray(fs, v)
    ensures Gray(fs', v)
  {
    var k :| 0 <= k < |fs| && fs[k].name == v;
    assert fs'[k].name == v;
  }

  // Opening a node nothing has discovered, from the root or from the top frame.

  lemma OpenStack(g: Graph, st: State, t: string)
    requires Shape(g, st) && t in g && t !in st.indices
    ensures Shape(g, Opened(st, t))
  {
  }

  lemma OpenFrames(g: Graph, st: State, fs: seq<Frame>, fs': seq<Frame>, t: string)
    requires Shape(g, st) && Shape(g, Opened(st, t)) && FramesShape(g, st, fs)
    requires t !in st.indices && Opens(g, fs, fs', t)
    ensures FramesShape(g, Opened(st, t), fs')
  {
    var st' := Opened(st, t);
    forall k | 0 <= k < |fs'|
      ensures fs'[k].name in st'.onStack && fs'[k].targets == g[fs'[k].name] && fs'[k].next <= |fs'[k].targets|
    {
      if k < |fs| {
        assert fs'[k].name == fs[k].name;
      }
    }
    OpenFramesOrdered(g, st, fs, fs', t);
  }

  lemma OpenFramesOrdered(g: Graph, st: State, fs: seq<Frame>, fs': seq<Frame>, t: string)
    requires Shape(g, st) && FramesShape(g, st, fs) && t !in st.indices && Opens(g, fs, fs', t)
    requires forall k :: 0 <= k < |fs'| ==> fs'[k].name in Opened(st, t).indices
    ensures forall k, l :: 0 <= k < l < |fs'| ==>
      Opened(st, t).indices[fs'[k].name] < Opened(st, t).indices[fs'[l].name]
  {
    var st' := Opened(st, t);
    forall k, l | 0 <= k < l < |fs'| ensures st'.indices[fs'[k].name] < st'.indices[fs'[l].name] {
      assert fs'[k].name == fs[k].name;
      if l < |fs| {
        assert fs'[l].name == fs[l].name;
      }
    }
  }

  lemma OpenEdges(g: Graph, st: State, fs: seq<Frame>, fs': seq<Frame>, t: string)
    requires Shape(g, st) && FramesShape(g, st, fs) && EdgesSeen(g, st, fs)
    requires t !in st.indices && Opens(g, fs, fs', t)
    ensures EdgesSeen(g, Opened(st, t), fs')
  {
    var st' := Opened(st, t);
    forall v, w | v in st'.indices && !Gray(fs', v) && Edge(g, v, w) ensures w in st'.indices {
      assert fs'[|fs|].name == t;
      if Gray(fs, v) {
        SameGray(fs, fs', v);
      }
    }
    forall k, w | 0 <= k < |fs'| && Seen(g, fs'[k], fs'[k].name, w) ensures w in st'.indices {
      if k < |fs| {
        SeenFollowed(g, fs, fs', t, k, fs'[k].name, w);
        assert fs'[k].name == fs[k].name;
      }
    }
    forall v, w | Popped(st', v) && Edge(g, v, w) ensures Popped(st', w) {
      assert Popped(st, v) && Popped(st, w);
    }
  }

  lemma OpenReaches(g: Graph, st: State, fs: seq<Frame>, fs': seq<Frame>, t: string, k: nat, v: string)
    requires Shape(g, st) && FramesShape(g, st, fs) && Connected(g, st, fs)
    requires t !in st.indices && Opens(g, fs, fs', t)
    requires k < |fs'| && v in Opened(st, t).onStack && fs'[k].name in Opened(st, t).indices
    requires v in Opened(st, t).indices && Opened(st, t).indices[fs'[k].name] <= Opened(st, t).indices[v]
    ensures Reach(g, fs'[k].name, v)
  {
    ReachRefl(g, t);
    if k < |fs| {
      assert fs'[k].name == fs[k].name;
      if v == t {
        var top := fs[|fs| - 1].name;
        assert Edge(g, top, t);
        ReachEdge(g, top, t);
        assert Reach(g, fs[k].name, top);
        ReachTrans(g, fs[k].name, top, t);
      } else {
        assert Reach(g, fs[k].name, v);
      }
    }
  }

  lemma OpenConnected(g: Graph, st: State, fs: seq<Frame>, fs': seq<Frame>, t: string)
    requires Shape(g, st) && FramesShape(g, st, fs) && Connected(g, st, fs)
    requires t !in st.indices && Opens(g, fs, fs', t)
    requires Shape(g, Opened(st, t)) && FramesShape(g, Opened(st, t), fs')
    ensures Connected(g, Opened(st, t), fs')
  {
    var st' := Opened(st, t);
    forall k, v | 0 <= k < |fs'| && v in st'.onStack && st'.indices[fs'[k].name] <= st'.indices[v]
      ensures Reach(g, fs'[k].name, v)
    {
      OpenReaches(g, st, fs, fs', t, k, v);
    }
    forall v | v in st'.onStack ensures Backed(g, st', fs', v) {
      if v == t {
        ReachRefl(g, t);
        assert BacksTo(g, st', fs', t, |fs|);
      } else {
        assert Backed(g, st, fs, v);
        var k :| BacksTo(g, st, fs, v, k);
        assert fs'[k].name == fs[k].name;
        assert BacksTo(g, st', fs', v, k);
      }
    }
  }

  lemma OpenLow(g: Graph, st: State, fs: seq<Frame>, fs': seq<Frame>, t: string, k: nat)
    requires Shape(g, st) && FramesShape(g, st, fs) && Lows(g, st, fs)
    requires t !in st.indices && Opens(g, fs, fs', t) && k < |fs'|
    ensures var st' := Opened(st, t);
      && fs'[k].name in st'.indices && st'.lowlinks[fs'[k].name] <= st'.indices[fs'[k].name]
      && Low(g, st', fs'[k].name)
  {
    var st' := Opened(st, t);
    if k < |fs| {
      assert fs'[k].name == fs[k].name;
      assert Low(g, st, fs[k].name);
      var w :| LowAt(g, st, fs[k].name, w);
      assert LowAt(g, st', fs'[k].name, w);
    } else {
      ReachRefl(g, t);
      assert LowAt(g, st', t, t);
    }
  }

  lemma OpenBound(g: Graph, st: State, fs: seq<Frame>, fs': seq<Frame>, t: string, k: nat, v: string, w: string)
    requires Shape(g, st) && FramesShape(g, st, fs) && EdgesSeen(g, st, fs) && Lows(g, st, fs)
    requires t !in st.indices && Opens(g, fs, fs', t)
    requires InSegment(Opened(st, t), fs', k, v) && w in Opened(st, t).onStack && Seen(g, fs'[k], v, w)
    ensures fs'[k].name in Opened(st, t).lowlinks && w in Opened(st, t).indices
    ensures Opened(st, t).lowlinks[fs'[k].name] <= Opened(st, t).indices[w]
  {
    if k < |fs| {
      assert fs'[k].name == fs[k].name && fs'[|fs|].name == t;
      if w != t {
        assert InSegment(st, fs, k, v) by {
          forall l | k < l < |fs| ensures fs[l].name in st.indices && st.indices[v] < st.indices[fs[l].name] {
            assert fs'[l].name == fs[l].name;
          }
        }
        SeenFollowed(g, fs, fs', t, k, v, w);
        assert Seen(g, fs[k], v, w);
      } else {
        assert st.lowlinks[fs[k].name] <= st.indices[fs[k].name] < st.index;
      }
    }
  }

  lemma OpenKeeps(g: Graph, st: State, fs: seq<Frame>, fs': seq<Frame>, t: string)
    requires Inv(g, st, fs) && t !in st.indices && Opens(g, fs, fs', t)
    ensures Inv(g, Opened(st, t), fs')
  {
    var st' := Opened(st, t);
    OpenStack(g, st, t);
    OpenFrames(g, st, fs, fs', t);
    OpenEdges(g, st, fs, fs', t);
    OpenConnected(g, st, fs, fs', t);
    forall k | 0 <= k < |fs'|
      ensures st'.lowlinks[fs'[k].name] <= st'.indices[fs'[k].name] && Low(g, st', fs'[k].name)
    {
      OpenLow(g, st, fs, fs', t, k);
    }
    forall k, v, w | InSegment(st', fs', k, v) && w in st'.onStack && Seen(g, fs'[k], v, w)
      ensures st'.lowlinks[fs'[k].name] <= st'.indices[w]
    {
      OpenBound(g, st, fs, fs', t, k, v, w);
    }
    assert CyclicExact(g, st');
  }

  // Following an edge to a discovered node.

  ghost function Lowest(st: State, f: string, t: string): State
    requires f in st.lowlinks && t in st.indices
  {
    if t in st.onStack then Lowered(st, f, st.indices[t]) else st
  }

  lemma FollowStack(g: Graph, st: State, fs: seq<Frame>, fs': seq<Frame>, t: string)
    requires Shape(g, st) && FramesShape(g, st, fs) && fs != []
    requires t in st.indices && Follows(fs, fs', t) && |fs'| == |fs|
    ensures Shape(g, Lowest(st, Top(fs).name, t)) && FramesShape(g, Lowest(st, Top(fs).name, t), fs')
  {
    FollowShape(g, st, fs, t);
    hide Shape;
    forall k, l | 0 <= k < l < |fs'| ensures st.indices[fs'[k].name] < st.indices[fs'[l].name] {
      assert fs'[k].name == fs[k].name && fs'[l].name == fs[l].name;
    }
  }

  lemma FollowShape(g: Graph, st: State, fs: seq<Frame>, t: string)
    requires Shape(g, st) && FramesShape(g, st, fs) && fs != [] && t in st.indices
    ensures Shape(g, Lowest(st, Top(fs).name, t))
  {
  }

  lemma FollowEdges(g: Graph, st: State, fs: seq<Frame>, fs': seq<Frame>, t: string)
    requires Shape(g, st) && FramesShape(g, st, fs) && EdgesSeen(g, st, fs)
    requires t in st.indices && Follows(fs, fs', t) && |fs'| == |fs|
    ensures EdgesSeen(g, st, fs')
  {
    forall v, w | v in st.indices && !Gray(fs', v) && Edge(g, v, w) ensures w in st.indices {
      if Gray(fs, v) {
        SameGray(fs, fs', v);
      }
    }
    forall k, w | 0 <= k < |fs'| && Seen(g, fs'[k], fs'[k].name, w) ensures w in st.indices {
      assert fs'[k].name == fs[k].name;
      SeenFollowed(g, fs, fs', t, k, fs[k].name, w);
    }
  }

  lemma FollowConnected(g: Graph, st: State, st': State, fs: seq<Frame>, fs': seq<Frame>)
    requires Shape(g, st) && FramesShape(g, st, fs) && Connected(g, st, fs)
    requires st' == st.(lowlinks := st'.lowlinks) && SameNames(fs, fs') && |fs'| == |fs|
    requires Shape(g, st') && FramesShape(g, st', fs')
    ensures Connected(g, st', fs')
  {
    forall k, v | 0 <= k < |fs'| && v in st'.onStack && st'.indices[fs'[k].name] <= st'.indices[v]
      ensures Reach(g, fs'[k].name, v)
    {
      assert fs'[k].name == fs[k].name;
      assert Reach(g, fs[k].name, v);
    }
    forall v | v in st'.onStack ensures Backed(g, st', fs', v) {
      assert Backed(g, st, fs, v);
      var k :| BacksTo(g, st, fs, v, k);
      assert fs'[k].name == fs[k].name;
      assert BacksTo(g, st', fs', v, k);
    }
  }

  lemma FollowLow(g: Graph, st: State, fs: seq<Frame>, t: string, k: nat)
    requires Shape(g, st) && FramesShape(g, st, fs) && Lows(g, st, fs) && k < |fs|
    requires t in st.indices && Edge(g, Top(fs).name, t)
    ensures var st' := Lowest(st, Top(fs).name, t);
      st'.lowlinks[fs[k].name] <= st'.indices[fs[k].name] && Low(g, st', fs[k].name)
  {
    var f := Top(fs).name;
    var st' := Lowest(st, f, t);
    assert Low(g, st, fs[k].name);
    var w :| LowAt(g, st, fs[k].name, w);
    if st'.lowlinks[fs[k].name] == st.lowlinks[fs[k].name] {
      assert LowAt(g, st', fs[k].name, w);
    } else {
      ReachEdge(g, f, t);
      assert LowAt(g, st', f, t);
    }
  }

  lemma FollowBound(g: Graph, st: State, fs: seq<Frame>, fs': seq<Frame>, t: string, k: nat, v: string, w: string)
    requires Shape(g, st) && FramesShape(g, st, fs) && Lows(g, st, fs) && fs != []
    requires t in st.indices && Follows(fs, fs', t) && |fs'| == |fs|
    requires InSegment(st, fs', k, v) && w in st.onStack && Seen(g, fs'[k], v, w)
    ensures Lowest(st, Top(fs).name, t).lowlinks[fs[k].name] <= st.indices[w]
  {
    assert InSegment(st, fs, k, v) by {
      assert fs'[k].name == fs[k].name;
      forall l | k < l < |fs| ensures fs[l].name in st.indices && st.indices[v] < st.indices[fs[l].name] {
        assert fs'[l].name == fs[l].name;
      }
    }
    SeenFollowed(g, fs, fs', t, k, v, w);
  }

  lemma FollowLows(g: Graph, st: State, fs: seq<Frame>, fs': seq<Frame>, t: string)
    requires Shape(g, st) && FramesShape(g, st, fs) && Lows(g, st, fs) && fs != []
    requires t in st.indices && Follows(fs, fs', t) && |fs'| == |fs|
    ensures Shape(g, Lowest(st, Top(fs).name, t)) && FramesShape(g, Lowest(st, Top(fs).name, t), fs')
    ensures Lows(g, Lowest(st, Top(fs).name, t), fs')
  {
    var st' := Lowest(st, Top(fs).name, t);
    FollowStack(g, st, fs, fs', t);
    forall k | 0 <= k < |fs'|
      ensures st'.lowlinks[fs'[k].name] <= st'.indices[fs'[k].name] && Low(g, st', fs'[k].name)
    {
      assert fs'[k].name == fs[k].name;
      assert Edge(g, Top(fs).name, t);
      FollowLow(g, st, fs, t, k);
    }
    forall k, v, w | InSegment(st', fs', k, v) && w in st'.onStack && Seen(g, fs'[k], v, w)
      ensures st'.lowlinks[fs'[k].name] <= st'.indices[w]
    {
      assert fs'[k].name == fs[k].name;
      assert InSegment(st, fs', k, v);
      FollowBound(g, st, fs, fs', t, k, v, w);
    }
  }

  lemma FollowKeeps(g: Graph, st: State, fs: seq<Frame>, fs': seq<Frame>, t: string)
    requires Inv(g, st, fs) && fs != [] && t in st.indices && Follows(fs, fs', t) && |fs'| == |fs|
    ensures Inv(g, Lowest(st, Top(fs).name, t), fs')
  {
    var st' := Lowest(st, Top(fs).name, t);
    FollowLows(g, st, fs, fs', t);
    hide Shape, FramesShape, Lows;
    FollowEdges(g, st, fs, fs', t);
    FollowConnected(g, st, st', fs, fs');
    hide Connected;
    assert EdgesSeen(g, st', fs');
    assert CyclicExact(g, st');
  }

  // Leaving a frame whose edges have all been followed.

  /** `rest` is `fs` without its top frame, every edge of which has been followed. */
  ghost predicate Leaves(fs: seq<Frame>, rest: seq<Frame>) {
    && fs != [] && Top(fs).next == |Top(fs).targets|
    && |rest| == |fs| - 1
    && forall k {:trigger rest[k]} {:trigger fs[k]} :: 0 <= k < |rest| ==> rest[k] == fs[k]
  }

  lemma AllSeen(g: Graph, st: State, fs: seq<Frame>, w: string)
    requires Shape(g, st) && FramesShape(g, st, fs) && EdgesSeen(g, st, fs)
    requires fs != [] && Top(fs).next == |Top(fs).targets| && Edge(g, Top(fs).name, w)
    ensures Seen(g, fs[|fs| - 1], Top(fs).name, w) && w in st.indices
  {
    var f := fs[|fs| - 1];
    assert f.targets[..f.next] == f.targets == g[f.name];
    assert Seen(g, fs[|fs| - 1], fs[|fs| - 1].name, w);
  }

  lemma LowerGray(fs: seq<Frame>, rest: seq<Frame>, v: string)
    requires Leaves(fs, rest) && Gray(fs, v) && v != Top(fs).name
    ensures Gray(rest, v)
  {
    var k :| 0 <= k < |fs| && fs[k].name == v;
    assert rest[k].name == v;
  }

  lemma LeaveEdges(g: Graph, st: State, fs: seq<Frame>, rest: seq<Frame>)
    requires Shape(g, st) && FramesShape(g, st, fs) && EdgesSeen(g, st, fs) && Leaves(fs, rest)
    ensures EdgesSeen(g, st, rest)
  {
    forall v, w | v in st.indices && !Gray(rest, v) && Edge(g, v, w) ensures w in st.indices {
      if v == Top(fs).name {
        AllSeen(g, st, fs, w);
      } else if Gray(fs, v) {
        LowerGray(fs, rest, v);
      }
    }
    forall k, w | 0 <= k < |rest| && Seen(g, rest[k], rest[k].name, w) ensures w in st.indices {
      assert rest[k] == fs[k];
    }
  }

  /** A node a lower frame's node is reached from: the top frame's, when it is left on
      the stack, reaches below itself. */
  lemma LeaveBacked(g: Graph, st: State, fs: seq<Frame>, rest: seq<Frame>, v: string)
    requires Shape(g, st) && FramesShape(g, st, fs) && Connected(g, st, fs) && Lows(g, st, fs) && Leaves(fs, rest)
    requires st.lowlinks[Top(fs).name] != st.indices[Top(fs).name] && v in st.onStack
    ensures Backed(g, st, rest, v)
  {
    var n := |fs| - 1;
    assert Backed(g, st, fs, v);
    var k :| BacksTo(g, st, fs, v, k);
    if k < n {
      assert BacksTo(g, st, rest, v, k);
    } else {
      var f := fs[n].name;
      assert Low(g, st, f);
      var w :| LowAt(g, st, f, w);
      assert Backed(g, st, fs, w);
      var low :| BacksTo(g, st, fs, w, low);
      assert low < n;
      ReachTrans(g, v, f, w);
      ReachTrans(g, v, w, fs[low].name);
      assert BacksTo(g, st, rest, v, low);
    }
  }

  ghost function Carried(st: State, rest: seq<Frame>, f: string): State
    requires f in st.lowlinks && (rest != [] ==> Top(rest).name in st.lowlinks)
  {
    if rest == [] then st else Lowered(st, Top(rest).name, st.lowlinks[f])
  }

  lemma LeaveStack(g: Graph, st: State, fs: seq<Frame>, rest: seq<Frame>)
    requires Shape(g, st) && FramesShape(g, st, fs) && Leaves(fs, rest)
    ensures rest != [] ==> Top(rest).name in st.lowlinks
    ensures FramesShape(g, st, rest)
    ensures Shape(g, Carried(st, rest, Top(fs).name)) && FramesShape(g, Carried(st, rest, Top(fs).name), rest)
  {
    forall k, l | 0 <= k < l < |rest| ensures st.indices[rest[k].name] < st.indices[rest[l].name] {
      assert rest[k] == fs[k] && rest[l] == fs[l];
    }
  }

  lemma LeaveLow(g: Graph, st: State, fs: seq<Frame>, rest: seq<Frame>, k: nat)
    requires Shape(g, st) && FramesShape(g, st, fs) && Connected(g, st, fs) && Lows(g, st, fs) && Leaves(fs, rest)
    requires k < |rest| && Top(rest).name in st.lowlinks
    ensures var st' := Carried(st, rest, Top(fs).name);
      st'.lowlinks[fs[k].name] <= st'.indices[fs[k].name] && Low(g, st', fs[k].name)
  {
    var n := |fs| - 1;
    var f, u := fs[n].name, fs[k].name;
    var st' := Carried(st, rest, f);
    if st'.lowlinks[u] == st.lowlinks[u] {
      assert Low(g, st, u);
      var w :| LowAt(g, st, u, w);
      assert LowAt(g, st', u, w);
    } else {
      assert Low(g, st, f);
      var w :| LowAt(g, st, f, w);
      assert Reach(g, fs[k].name, f);
      ReachTrans(g, u, f, w);
      assert LowAt(g, st', u, w);
    }
  }

  lemma LastSegment(g: Graph, st: State, fs: seq<Frame>, rest: seq<Frame>, k: nat, v: string)
    requires Shape(g, st) && FramesShape(g, st, fs) && Leaves(fs, rest) && InSegment(st, rest, k, v)
    requires st.indices[Top(fs).name] <= st.indices[v]
    ensures k == |fs| - 2
  {
    var l := |fs| - 2;
    assert rest[l] == fs[l] && st.indices[fs[l].name] < st.indices[fs[l + 1].name];
  }

  lemma LeaveBound(g: Graph, st: State, fs: seq<Frame>, rest: seq<Frame>, k: nat, v: string, w: string)
    requires Shape(g, st) && FramesShape(g, st, fs) && EdgesSeen(g, st, fs) && Lows(g, st, fs) && Leaves(fs, rest)
    requires InSegment(st, rest, k, v) && w in st.onStack && Seen(g, fs[k], v, w)
    ensures st.lowlinks[fs[k].name] <= st.indices[w] || (k == |fs| - 2 && st.lowlinks[Top(fs).name] <= st.indices[w])
  {
    var n := |fs| - 1;
    assert rest[k] == fs[k];
    if st.indices[fs[n].name] <= st.indices[v] {
      assert k == n - 1 by {
        LastSegment(g, st, fs, rest, k, v);
      }
      assert InSegment(st, fs, n, v);
      if v == fs[n].name {
        AllSeen(g, st, fs, w);
      }
      assert Seen(g, fs[n], v, w);
    } else {
      assert InSegment(st, fs, k, v) by {
        forall l | k < l < |fs| ensures fs[l].name in st.indices && st.indices[v] < st.indices[fs[l].name] {
          if l < n { assert rest[l] == fs[l]; }
        }
      }
    }
  }

  lemma LeaveConnected(g: Graph, st: State, fs: seq<Frame>, rest: seq<Frame>)
    requires Shape(g, st) && FramesShape(g, st, fs) && Connected(g, st, fs) && Lows(g, st, fs) && Leaves(fs, rest)
    requires st.lowlinks[Top(fs).name] != st.indices[Top(fs).name] && FramesShape(g, st, rest)
    ensures Connected(g, st, rest)
  {
    forall v | v in st.onStack ensures Backed(g, st, rest, v) {
      LeaveBacked(g, st, fs, rest, v);
    }
    LowerReaches(g, st, fs, rest);
  }

  lemma LowerReaches(g: Graph, st: State, fs: seq<Frame>, rest: seq<Frame>)
    requires Shape(g, st) && FramesShape(g, st, fs) && Connected(g, st, fs) && Leaves(fs, rest)
    requires FramesShape(g, st, rest)
    ensures forall k, v {:trigger Reach(g, rest[k].name, v)} ::
      0 <= k < |rest| && v in st.onStack && st.indices[rest[k].name] <= st.indices[v] ==> Reach(g, rest[k].name, v)
  {
    forall k, v | 0 <= k < |rest| && v in st.onStack && st.indices[rest[k].name] <= st.indices[v]
      ensures Reach(g, rest[k].name, v)
    {
      LowerReach(g, st, fs, rest, k, v);
    }
  }

  lemma LowerReach(g: Graph, st: State, fs: seq<Frame>, rest: seq<Frame>, k: nat, v: string)
    requires Shape(g, st) && FramesShape(g, st, fs) && Connected(g, st, fs) && Leaves(fs, rest)
    requires k < |rest| && v in st.onStack && rest[k].name in st.indices && st.indices[rest[k].name] <= st.indices[v]
    ensures Reach(g, rest[k].name, v)
  {
    assert rest[k] == fs[k];
    assert Reach(g, fs[k].name, v);
  }

  lemma LeaveLowsAt(g: Graph, st: State, fs: seq<Frame>, rest: seq<Frame>, st': State)
    requires Shape(g, st) && FramesShape(g, st, fs) && Connected(g, st, fs) && Lows(g, st, fs)
    requires Leaves(fs, rest) && (rest != [] ==> Top(rest).name in st.lowlinks)
    requires st' == Carried(st, rest, Top(fs).name)
    requires Shape(g, st') && FramesShape(g, st', rest)
    ensures forall k :: 0 <= k < |rest| ==> st'.lowlinks[rest[k].name] <= st'.indices[rest[k].name]
    ensures forall k {:trigger Low(g, st', rest[k].name)} :: 0 <= k < |rest| ==> Low(g, st', rest[k].name)
  {
    forall k | 0 <= k < |rest|
      ensures st'.lowlinks[rest[k].name] <= st'.indices[rest[k].name] && Low(g, st', rest[k].name)
    {
      assert rest[k] == fs[k];
      LeaveLow(g, st, fs, rest, k);
    }
  }

  lemma LeaveLows(g: Graph, st: State, fs: seq<Frame>, rest: seq<Frame>, st': State)
    requires Shape(g, st) && FramesShape(g, st, fs) && EdgesSeen(g, st, fs) && Connected(g, st, fs) && Lows(g, st, fs)
    requires Leaves(fs, rest) && (rest != [] ==> Top(rest).name in st.lowlinks)
    requires st' == Carried(st, rest, Top(fs).name)
    requires Shape(g, st') && FramesShape(g, st', rest)
    ensures Lows(g, st', rest)
  {
    LeaveLowsAt(g, st, fs, rest, st');
    forall k, v, w | InSegment(st', rest, k, v) && w in st'.onStack && Seen(g, rest[k], v, w)
      ensures st'.lowlinks[rest[k].name] <= st'.indices[w]
    {
      LeaveCarried(g, st, fs, rest, k, v, w);
    }
  }

  lemma LeaveCarried(g: Graph, st: State, fs: seq<Frame>, rest: seq<Frame>, k: nat, v: string, w: string)
    requires Shape(g, st) && FramesShape(g, st, fs) && EdgesSeen(g, st, fs) && Lows(g, st, fs) && Leaves(fs, rest)
    requires k < |rest| && Top(rest).name in st.lowlinks
    requires InSegment(Carried(st, rest, Top(fs).name), rest, k, v) && w in st.onStack && Seen(g, rest[k], v, w)
    ensures Carried(st, rest, Top(fs).name).lowlinks[rest[k].name] <= st.indices[w]
  {
    hide Shape, FramesShape, EdgesSeen, Lows, Seen;
    assert rest[k] == fs[k];
    assert InSegment(st, rest, k, v);
    LeaveBound(g, st, fs, rest, k, v, w);
  }

  /** The top frame is left on the stack: its lowlink is another node's. */
  lemma LeaveKeeps(g: Graph, st: State, fs: seq<Frame>, rest: seq<Frame>)
    requires Inv(g, st, fs) && Leaves(fs, rest)
    requires st.lowlinks[Top(fs).name] != st.indices[Top(fs).name]
    ensures rest != [] ==> Top(rest).name in st.lowlinks
    ensures Inv(g, Carried(st, rest, Top(fs).name), rest)
  {
    LeaveStack(g, st, fs, rest);
    var st' := Carried(st, rest, Top(fs).name);
    LeaveEdges(g, st, fs, rest);
    LeaveConnected(g, st, fs, rest);
    FollowConnected(g, st, st', rest, rest);
    LeaveLows(g, st, fs, rest, st');
    assert EdgesSeen(g, st', rest);
    assert CyclicExact(g, st');
  }

  // Popping a component.

  ghost function Cut(st: State, rest: seq<string>, cyclic: set<string>): State {
    st.(stack := rest, onStack := (set v | v in rest), cyclic := cyclic)
  }

  /** What the top frame's component holds when its lowlink is its own index: the
      stack from the frame's node up. */
  ghost predicate TopComponent(st: State, fs: seq<Frame>, low: seq<string>, scc: seq<string>) {
    fs != [] && st.stack == low + scc && scc != [] && scc[0] == Top(fs).name
  }

  /** The top frame is the root of its component. */
  ghost predicate Rooted(st: State, fs: seq<Frame>) {
    fs != [] && Top(fs).name in st.indices && Top(fs).name in st.lowlinks
    && st.lowlinks[Top(fs).name] == st.indices[Top(fs).name]
  }

  ghost function Below(st: State, scc: seq<string>): set<string> {
    set v | v in st.indices && (v in scc || v !in st.onStack)
  }

  lemma ComponentIndices(g: Graph, st: State, fs: seq<Frame>, low: seq<string>, scc: seq<string>, v: string)
    requires Shape(g, st) && TopComponent(st, fs, low, scc) && v in st.onStack && Top(fs).name in st.indices
    ensures v in scc <==> st.indices[Top(fs).name] <= st.indices[v]
    ensures v in scc <==> v !in low
  {
    var i :| 0 <= i < |st.stack| && st.stack[i] == v;
    var n := |low|;
    assert st.stack[n] == scc[0];
    if i >= n {
      assert v == scc[i - n];
      forall j | 0 <= j < n ensures low[j] != v {
        assert st.stack[j] == low[j];
      }
    } else {
      assert v == low[i];
      forall j | 0 <= j < |scc| ensures scc[j] != v {
        assert st.stack[n + j] == scc[j];
      }
    }
  }

  lemma ComponentSegment(g: Graph, st: State, fs: seq<Frame>, low: seq<string>, scc: seq<string>, u: string, v: string)
    requires Shape(g, st) && FramesShape(g, st, fs) && EdgesSeen(g, st, fs) && TopComponent(st, fs, low, scc)
    requires Top(fs).next == |Top(fs).targets| && u in scc && u in st.onStack && Edge(g, u, v)
    ensures InSegment(st, fs, |fs| - 1, u) && Seen(g, fs[|fs| - 1], u, v) && v in st.indices
  {
    var n := |fs| - 1;
    ComponentIndices(g, st, fs, low, scc, u);
    if u == fs[n].name {
      AllSeen(g, st, fs, v);
    } else {
      forall k | 0 <= k < |fs| ensures fs[k].name != u {
        if k < n {
          assert st.indices[fs[k].name] < st.indices[fs[n].name];
        }
      }
      assert !Gray(fs, u);
    }
  }

  /** The component and everything popped before it keep their edges among them. */
  lemma ComponentClosed(g: Graph, st: State, fs: seq<Frame>, low: seq<string>, scc: seq<string>)
    requires Shape(g, st) && FramesShape(g, st, fs) && EdgesSeen(g, st, fs) && Lows(g, st, fs)
    requires TopComponent(st, fs, low, scc) && Top(fs).next == |Top(fs).targets| && Rooted(st, fs)
    ensures ClosedUnder(g, Below(st, scc))
  {
    forall u, v | u in Below(st, scc) && Edge(g, u, v) ensures v in Below(st, scc) {
      if u in st.onStack {
        ComponentSegment(g, st, fs, low, scc, u, v);
        if v in st.onStack {
          ComponentIndices(g, st, fs, low, scc, v);
        }
      } else {
        assert Popped(st, u) && Popped(st, v);
      }
    }
  }

  lemma ComponentStrong(g: Graph, st: State, fs: seq<Frame>, low: seq<string>, scc: seq<string>, v: string)
    requires Shape(g, st) && FramesShape(g, st, fs) && Connected(g, st, fs)
    requires TopComponent(st, fs, low, scc) && ClosedUnder(g, Below(st, scc)) && v in scc
    ensures Reach(g, Top(fs).name, v) && Reach(g, v, Top(fs).name)
  {
    var n := |fs| - 1;
    assert v in st.stack && v in st.onStack;
    ComponentIndices(g, st, fs, low, scc, v);
    assert Reach(g, fs[n].name, v);
    assert Backed(g, st, fs, v);
    var k :| BacksTo(g, st, fs, v, k);
    ReachStays(g, Below(st, scc), v, fs[k].name);
    ComponentIndices(g, st, fs, low, scc, fs[k].name);
    assert k == n;
  }

  lemma PoppedStays(g: Graph, st: State, fs: seq<Frame>, w: string, f: string)
    requires EdgesSeen(g, st, fs) && Popped(st, w) && Reach(g, w, f)
    ensures Popped(st, f)
  {
    var popped := set v | v in st.indices && v !in st.onStack;
    forall u, v | u in popped && Edge(g, u, v) ensures v in popped {
      assert Popped(st, u) && Popped(st, v);
    }
    ReachStays(g, popped, w, f);
  }

  lemma SingleCyclic(g: Graph, st: State, fs: seq<Frame>, f: string)
    requires Shape(g, st) && EdgesSeen(g, st, fs) && ClosedUnder(g, Below(st, [f])) && f in st.onStack
    ensures OnCycle(g, f) <==> Edge(g, f, f)
  {
    if Edge(g, f, f) {
      ReachRefl(g, f);
    } else if OnCycle(g, f) {
      var w :| Edge(g, f, w) && Reach(g, w, f);
      assert f in Below(st, [f]) && w in Below(st, [f]) && w != f;
      assert Popped(st, w);
      PoppedStays(g, st, fs, w, f);
    }
  }

  /** A component is a cycle when it holds two nodes or its one node leads to itself. */
  lemma ComponentCyclic(g: Graph, st: State, fs: seq<Frame>, low: seq<string>, scc: seq<string>, v: string)
    requires Shape(g, st) && FramesShape(g, st, fs) && EdgesSeen(g, st, fs) && Connected(g, st, fs)
    requires TopComponent(st, fs, low, scc) && ClosedUnder(g, Below(st, scc)) && v in scc
    ensures OnCycle(g, v) <==> |scc| > 1 || Edge(g, scc[0], scc[0])
  {
    var f := Top(fs).name;
    if |scc| > 1 {
      var u := if v == f then scc[1] else f;
      assert st.stack[|low|] == f && st.stack[|low| + 1] == scc[1];
      ComponentStrong(g, st, fs, low, scc, v);
      ComponentStrong(g, st, fs, low, scc, u);
      ReachTrans(g, v, f, u);
      ReachTrans(g, u, f, v);
      MutualCycle(g, v, u);
    } else {
      assert scc == [f] && v == f;
      assert f in st.stack && f in st.onStack;
      SingleCyclic(g, st, fs, f);
    }
  }

  lemma CutStack(g: Graph, st: State, fs: seq<Frame>, low: seq<string>, scc: seq<string>, cyclic: set<string>)
    requires Shape(g, st) && TopComponent(st, fs, low, scc) && Top(fs).name in st.indices
    ensures Shape(g, Cut(st, low, cyclic))
    ensures forall v :: v in low <==> v in st.onStack && v !in scc
  {
    forall v ensures v in low <==> v in st.onStack && v !in scc {
      if v in low {
        assert v in st.stack;
      }
      if v in st.onStack {
        ComponentIndices(g, st, fs, low, scc, v);
      }
    }
    forall i, j | 0 <= i < j < |low| ensures st.indices[low[i]] < st.indices[low[j]] {
      assert st.stack[i] == low[i] && st.stack[j] == low[j];
    }
  }

  lemma CutFrames(g: Graph, st: State, fs: seq<Frame>, rest: seq<Frame>, low: seq<string>, scc: seq<string>,
      cyclic: set<string>)
    requires Shape(g, st) && FramesShape(g, st, fs) && TopComponent(st, fs, low, scc) && Leaves(fs, rest)
    requires Shape(g, Cut(st, low, cyclic))
    ensures FramesShape(g, Cut(st, low, cyclic), rest)
  {
    forall k | 0 <= k < |rest| ensures rest[k].name in low {
      assert rest[k] == fs[k];
      ComponentIndices(g, st, fs, low, scc, fs[k].name);
    }
    forall k, l | 0 <= k < l < |rest| ensures st.indices[rest[k].name] < st.indices[rest[l].name] {
      assert rest[k] == fs[k] && rest[l] == fs[l];
    }
  }

  lemma CutEdges(g: Graph, st: State, fs: seq<Frame>, rest: seq<Frame>, low: seq<string>, scc: seq<string>,
      cyclic: set<string>)
    requires Shape(g, st) && FramesShape(g, st, fs) && EdgesSeen(g, st, fs)
    requires TopComponent(st, fs, low, scc) && Leaves(fs, rest) && ClosedUnder(g, Below(st, scc))
    ensures EdgesSeen(g, Cut(st, low, cyclic), rest)
  {
    var st' := Cut(st, low, cyclic);
    LeaveEdges(g, st, fs, rest);
    CutStack(g, st, fs, low, scc, cyclic);
    forall v, w | Popped(st', v) && Edge(g, v, w) ensures Popped(st', w) {
      assert v in Below(st, scc) && w in Below(st, scc);
    }
  }

  lemma CutBacked(g: Graph, st: State, fs: seq<Frame>, rest: seq<Frame>, low: seq<string>, scc: seq<string>,
      cyclic: set<string>, v: string)
    requires Shape(g, st) && FramesShape(g, st, fs) && Connected(g, st, fs)
    requires TopComponent(st, fs, low, scc) && Leaves(fs, rest) && v in low
    ensures Backed(g, Cut(st, low, cyclic), rest, v)
  {
    CutStack(g, st, fs, low, scc, cyclic);
    ComponentIndices(g, st, fs, low, scc, v);
    assert Backed(g, st, fs, v);
    var k :| BacksTo(g, st, fs, v, k);
    assert rest[k] == fs[k];
    assert BacksTo(g, Cut(st, low, cyclic), rest, v, k);
  }

  lemma CutLow(g: Graph, st: State, fs: seq<Frame>, rest: seq<Frame>, low: seq<string>, scc: seq<string>,
      cyclic: set<string>, k: nat)
    requires Shape(g, st) && FramesShape(g, st, fs) && Lows(g, st, fs)
    requires TopComponent(st, fs, low, scc) && Leaves(fs, rest) && k < |rest|
    ensures Low(g, Cut(st, low, cyclic), rest[k].name)
  {
    CutStack(g, st, fs, low, scc, cyclic);
    assert rest[k] == fs[k];
    assert Low(g, st, fs[k].name);
    var w :| LowAt(g, st, fs[k].name, w);
    assert st.indices[fs[k].name] < st.indices[fs[|fs| - 1].name];
    ComponentIndices(g, st, fs, low, scc, w);
    assert LowAt(g, Cut(st, low, cyclic), rest[k].name, w);
  }

  lemma CutBound(g: Graph, st: State, fs: seq<Frame>, rest: seq<Frame>, low: seq<string>, scc: seq<string>,
      cyclic: set<string>,
                 k: nat, v: string, w: string)
    requires Shape(g, st) && FramesShape(g, st, fs) && Lows(g, st, fs)
    requires TopComponent(st, fs, low, scc) && Leaves(fs, rest) && k < |rest|
    requires InSegment(Cut(st, low, cyclic), rest, k, v) && w in low && Seen(g, rest[k], v, w)
    ensures w in st.indices && st.lowlinks[rest[k].name] <= st.indices[w]
  {
    CutStack(g, st, fs, low, scc, cyclic);
    assert rest[k] == fs[k];
    ComponentIndices(g, st, fs, low, scc, v);
    assert InSegment(st, fs, k, v) by {
      forall l | k < l < |fs| ensures fs[l].name in st.indices && st.indices[v] < st.indices[fs[l].name] {
        if l < |rest| { assert rest[l] == fs[l]; }
      }
    }
    assert Seen(g, fs[k], v, w);
  }

  function WithComponent(g: Graph, cyclic: set<string>, scc: seq<string>): set<string>
    requires scc != []
  {
    if |scc| > 1 || Edge(g, scc[0], scc[0]) then cyclic + (set v | v in scc) else cyclic
  }

  lemma CutCyclic(g: Graph, st: State, fs: seq<Frame>, low: seq<string>, scc: seq<string>)
    requires Inv(g, st, fs) && TopComponent(st, fs, low, scc) && ClosedUnder(g, Below(st, scc))
    ensures CyclicExact(g, Cut(st, low, WithComponent(g, st.cyclic, scc)))
  {
    var st' := Cut(st, low, WithComponent(g, st.cyclic, scc));
    CutStack(g, st, fs, low, scc, st'.cyclic);
    forall v ensures v in st'.cyclic <==> Popped(st', v) && OnCycle(g, v) {
      assert v in st.cyclic <==> Popped(st, v) && OnCycle(g, v);
      if v in scc {
        assert v in st.stack && v in st.onStack;
        ComponentCyclic(g, st, fs, low, scc, v);
      }
    }
  }

  lemma CutConnected(g: Graph, st: State, fs: seq<Frame>, rest: seq<Frame>, low: seq<string>, scc: seq<string>,
      cyclic: set<string>)
    requires Shape(g, st) && FramesShape(g, st, fs) && Connected(g, st, fs)
    requires TopComponent(st, fs, low, scc) && Leaves(fs, rest)
    requires Shape(g, Cut(st, low, cyclic)) && FramesShape(g, Cut(st, low, cyclic), rest)
    ensures Connected(g, Cut(st, low, cyclic), rest)
  {
    var st' := Cut(st, low, cyclic);
    CutStack(g, st, fs, low, scc, cyclic);
    forall v | v in st'.onStack ensures Backed(g, st', rest, v) {
      CutBacked(g, st, fs, rest, low, scc, cyclic, v);
    }
    forall k, v | 0 <= k < |rest| && v in st'.onStack && st'.indices[rest[k].name] <= st'.indices[v]
      ensures Reach(g, rest[k].name, v)
    {
      LowerReach(g, st, fs, rest, k, v);
    }
  }

  lemma CutLows(g: Graph, st: State, fs: seq<Frame>, rest: seq<Frame>, low: seq<string>, scc: seq<string>,
      cyclic: set<string>)
    requires Shape(g, st) && FramesShape(g, st, fs) && Lows(g, st, fs)
    requires TopComponent(st, fs, low, scc) && Leaves(fs, rest)
    requires Shape(g, Cut(st, low, cyclic)) && FramesShape(g, Cut(st, low, cyclic), rest)
    ensures Lows(g, Cut(st, low, cyclic), rest)
  {
    var st' := Cut(st, low, cyclic);
    forall k | 0 <= k < |rest|
      ensures st'.lowlinks[rest[k].name] <= st'.indices[rest[k].name] && Low(g, st', rest[k].name)
    {
      assert rest[k] == fs[k];
      CutLow(g, st, fs, rest, low, scc, cyclic, k);
    }
    forall k, v, w | InSegment(st', rest, k, v) && w in st'.onStack && Seen(g, rest[k], v, w)
      ensures st'.lowlinks[rest[k].name] <= st'.indices[w]
    {
      CutBound(g, st, fs, rest, low, scc, cyclic, k, v, w);
    }
  }

  lemma PopKeeps(g: Graph, st: State, fs: seq<Frame>, rest: seq<Frame>, low: seq<string>, scc: seq<string>)
    requires Inv(g, st, fs) && TopComponent(st, fs, low, scc) && Leaves(fs, rest) && Rooted(st, fs)
    ensures Inv(g, Cut(st, low, WithComponent(g, st.cyclic, scc)), rest)
  {
    var cyclic := WithComponent(g, st.cyclic, scc);
    ComponentClosed(g, st, fs, low, scc);
    CutStack(g, st, fs, low, scc, cyclic);
    CutFrames(g, st, fs, rest, low, scc, cyclic);
    CutEdges(g, st, fs, rest, low, scc, cyclic);
    CutCyclic(g, st, fs, low, scc);
    CutConnected(g, st, fs, rest, low, scc, cyclic);
    CutLows(g, st, fs, rest, low, scc, cyclic);
  }

  /** Carrying the lowlink of a popped component's root to the frame below it
      changes nothing. */
  lemma CarryNothing(g: Graph, st: State, fs: seq<Frame>, rest: seq<Frame>, st': State)
    requires Shape(g, st) && FramesShape(g, st, fs) && Lows(g, st, fs) && Leaves(fs, rest) && rest != []
    requires Rooted(st, fs) && st'.lowlinks == st.lowlinks
    ensures Top(rest).name in st'.lowlinks
    ensures Lowered(st', Top(rest).name, st.lowlinks[Top(fs).name]) == st'
  {
    var p := fs[|rest| - 1].name;
    assert rest[|rest| - 1] == fs[|rest| - 1];
    assert st.lowlinks[p] <= st.indices[p] < st.indices[fs[|fs| - 1].name];
    assert st.lowlinks[p := st.lowlinks[p]] == st.lowlinks;
  }

  // ---- the scan ----

  /** Pops the stack down to and with `name`, as a component is popped. */
  method PopComponent(stack: seq<string>, name: string) returns (rest: seq<string>, scc: seq<string>)
    requires name in stack
    requires forall i, j :: 0 <= i < j < |stack| ==> stack[i] != stack[j]
    ensures stack == rest + scc && scc != [] && scc[0] == name
  {
    rest, scc := stack, [];
    var done := false;
    while !done
      invariant stack == rest + scc
      invariant if done then scc != [] && scc[0] == name else name in rest
      decreases |rest|, !done
    {
      var w := rest[|rest| - 1];
      rest, scc := rest[..|rest| - 1], [w] + scc;
      done := w == name;
    }
  }

  /** Between two searches: no frame open and nothing on the stack. */
  ghost predicate Idle(g: Graph, st: State) {
    && Total(g) && Shape(g, st) && st.onStack == {}
    && (forall v, w :: v in st.indices && Edge(g, v, w) ==> w in st.indices)
    && CyclicExact(g, st)
  }

  lemma IdleInv(g: Graph, st: State)
    requires Idle(g, st)
    ensures Inv(g, st, [])
  {
  }

  /** With no frame open nothing is on the stack. */
  lemma InvIdle(g: Graph, st: State)
    requires Inv(g, st, [])
    ensures Idle(g, st)
  {
    forall v ensures v !in st.onStack {
      assert v in st.onStack ==> Backed(g, st, [], v);
    }
    forall v, w | v in st.indices && Edge(g, v, w) ensures w in st.indices {
      assert !Gray([], v);
    }
  }

  method StrongConnect(g: Graph, root: string, start: State) returns (st: State)
    requires Idle(g, start) && root in g && root !in start.indices
    ensures Idle(g, st) && root in st.indices
    ensures start.indices.Keys <= st.indices.Keys
  {
    IdleInv(g, start);
    st := Opened(start, root);
    var frames := [Frame(root, g[root], 0)];
    OpenKeeps(g, start, [], frames, root);
    while frames != []
      invariant Inv(g, st, frames)
      invariant root in st.indices && start.indices.Keys <= st.indices.Keys
      decreases |g.Keys - st.indices.Keys|, |frames|,
        if frames == [] then 0 else |Top(frames).targets| - Top(frames).next
    {
      var frame := frames[|frames| - 1];
      if frame.next < |frame.targets| {
        st, frames := FollowEdge(g, st, frames);
      } else {
        st, frames := LeaveFrame(g, st, frames);
      }
    }
    InvIdle(g, st);
  }

  lemma PushOpens(g: Graph, fs: seq<Frame>, advanced: seq<Frame>, t: string)
    requires Follows(fs, advanced, t) && |advanced| == |fs| && t in g
    ensures Opens(g, fs, advanced + [Frame(t, g[t], 0)], t)
  {
    var fs' := advanced + [Frame(t, g[t], 0)];
    forall k | 0 <= k < |fs| ensures fs'[k] == advanced[k] {
    }
  }

  /** The top frame's next edge: a new frame for a node not seen before, a lower
      lowlink for one still on the stack. */
  method FollowEdge(g: Graph, st: State, frames: seq<Frame>) returns (st': State, frames': seq<Frame>)
    requires Inv(g, st, frames) && frames != [] && Top(frames).next < |Top(frames).targets|
    ensures Inv(g, st', frames') && frames' != []
    ensures st.indices.Keys <= st'.indices.Keys
    ensures
      || |g.Keys - st'.indices.Keys| < |g.Keys - st.indices.Keys|
      || (&& |frames'| == |frames| && st'.indices == st.indices
          && |Top(frames').targets| - Top(frames').next < |Top(frames).targets| - Top(frames).next)
  {
    var frame := frames[|frames| - 1];
    var target := frame.targets[frame.next];
    assert frame == Top(frames) && Edge(g, frame.name, target);
    var advanced := frames[|frames| - 1 := frame.(next := frame.next + 1)];
    assert Follows(frames, advanced, target);
    if target !in st.indices {
      frames' := advanced + [Frame(target, g[target], 0)];
      PushOpens(g, frames, advanced, target);
      OpenKeeps(g, st, frames, frames', target);
      st' := Opened(st, target);
      Smaller(g.Keys - st'.indices.Keys, g.Keys - st.indices.Keys);
    } else {
      frames' := advanced;
      FollowKeeps(g, st, frames, frames', target);
      st' := st;
      if target in st.onStack {
        st' := Lowered(st, frame.name, st.indices[target]);
      }
    }
  }

  /** The top frame is done: its component is popped when it is the root of one, and
      its lowlink is carried to the frame below. */
  method LeaveFrame(g: Graph, st: State, frames: seq<Frame>) returns (st': State, frames': seq<Frame>)
    requires Inv(g, st, frames) && frames != [] && Top(frames).next == |Top(frames).targets|
    ensures Inv(g, st', frames') && |frames'| == |frames| - 1 && st'.indices == st.indices
  {
    var frame := frames[|frames| - 1];
    frames' := frames[..|frames| - 1];
    if st.lowlinks[frame.name] == st.indices[frame.name] {
      assert frame.name in st.onStack && frame.name in st.stack;
      var low, scc := PopComponent(st.stack, frame.name);
      PopKeeps(g, st, frames, frames', low, scc);
      st' := st.(stack := low, onStack := (set v | v in low), cyclic := WithComponent(g, st.cyclic, scc));
      if frames' != [] {
        CarryNothing(g, st, frames, frames', st');
        st' := Lowered(st', frames'[|frames'| - 1].name, st.lowlinks[frame.name]);
      }
    } else {
      LeaveKeeps(g, st, frames, frames');
      st' := st;
      if frames' != [] {
        st' := Lowered(st, frames'[|frames'| - 1].name, st.lowlinks[frame.name]);
      }
    }
  }

  lemma Smaller(a: set<string>, b: set<string>)
    requires a < b
    ensures |a| < |b|
  {
    var x :| x in b && x !in a;
    assert a <= b - {x};
    NoLarger(a, b - {x});
  }

  lemma {:induction false} NoLarger(a: set<string>, b: set<string>)
    requires a <= b
    ensures |a| <= |b|
  {
    if a != {} {
      var x :| x in a;
      NoLarger(a - {x}, b - {x});
    }
  }

  /** Exactly the nodes on a cycle, for every graph. */
  method FindCycleMembers(g: Graph, names: seq<string>) returns (cyclic: set<string>)
    requires Total(g)
    requires forall i :: 0 <= i < |names| ==> names[i] in g
    requires forall v :: v in g ==> v in names
    ensures forall v {:trigger v in cyclic} :: v in cyclic <==> v in g && OnCycle(g, v)
  {
    var st := State(0, [], {}, map[], map[], {});
    for i := 0 to |names|
      invariant Idle(g, st)
      invariant forall j :: 0 <= j < i ==> names[j] in st.indices
    {
      if names[i] !in st.indices {
        st := StrongConnect(g, names[i], st);
      }
    }
    cyclic := st.cyclic;
  }
}
