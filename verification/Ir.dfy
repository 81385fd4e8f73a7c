/** The intermediate representation every pass of the compiler reads and writes.

    An element is a terminal, a reference or a piece of sugar; a sequence is one
    alternative; a production is a name with its alternatives; a grammar is a
    sequence of productions.  The three spellings of a terminal the passes treat
    alike (literal, regular expression, engine token) are one constructor keyed
    by the token they become: a key that begins with # is the name of an engine
    token or of the rule a literal was lifted from, one that begins with / is a
    regular expression, and any other is a literal without a name. */
module Ir {

  datatype Option<+T> = None | Some(value: T)

  datatype Result<+T> = Ok(value: T) | Err(rule: string, error: Error)

  /** Why a pass refuses a grammar, besides the rule it names. */
  datatype Error = ElementLimit | ExpansionLimit | PurelyLeftRecursive | NonConsumingLoop | BadBounds | RepeatLimit

  datatype Element =
    | Term(tok: string)
    | Prose(text: string)
    | Ref(name: string)
    | Opt(inner: Element)
    | Star(inner: Element, guard: Option<string>)
    | Plus(inner: Element)
    | Rep(min: nat, max: Option<nat>, inner: Element)
    | Group(alts: seq<Owned>)

  type Sequence = seq<Element>

  /** An alternative of a group: a sequence the group owns. */
  datatype Owned = Owned(els: Sequence)

  function GroupOf(alts: seq<Sequence>): Element {
    Group(seq(|alts|, i requires 0 <= i < |alts| => Owned(alts[i])))
  }

  datatype Production = Production(name: string, alts: seq<Sequence>)

  type Grammar = seq<Production>

  predicate IsRefTo(e: Element, name: string) {
    e.Ref? && e.name == name
  }

  predicate LeadsWith(alt: Sequence, name: string) {
    alt != [] && IsRefTo(alt[0], name)
  }

  function Unowned(alts: seq<Owned>): seq<Sequence> {
    seq(|alts|, i requires 0 <= i < |alts| => alts[i].els)
  }

  function NamesOf(prods: Grammar): (r: seq<string>)
    ensures |r| == |prods| && forall i :: 0 <= i < |r| ==> r[i] == prods[i].name
  {
    seq(|prods|, i requires 0 <= i < |prods| => prods[i].name)
  }

  function NameSet(prods: Grammar): set<string> {
    set i | 0 <= i < |prods| :: prods[i].name
  }

  /** The first rule of that name. */
  function Find(g: Grammar, name: string): (r: Option<Production>)
    ensures r.Some? ==> r.value in g && r.value.name == name && name in NameSet(g)
    ensures r.None? ==> forall i :: 0 <= i < |g| ==> g[i].name != name
  {
    if g == [] then None
    else if g[0].name == name then Some(g[0])
    else
      var r := Find(g[1..], name);
      assert r.Some? ==> exists i :: 0 <= i < |g[1..]| && g[1..][i].name == name && g[1..][i] == g[i + 1];
      r
  }

  ghost predicate DistinctNames(g: Grammar) {
    forall i, j :: 0 <= i < j < |g| ==> g[i].name != g[j].name
  }

  /** The rules a piece of grammar refers to, sugar included.  Prose that nothing has
      resolved counts as a reference to the empty name, which no rule bears. */
  function ElemRefs(e: Element): set<string>
    decreases e
  {
    match e
    case Term(_) => {}
    case Prose(_) => {""}
    case Ref(n) => {n}
    case Opt(i) => ElemRefs(i)
    case Star(i, _) => ElemRefs(i)
    case Plus(i) => ElemRefs(i)
    case Rep(_, _, i) => ElemRefs(i)
    case Group(alts) => GroupRefs(alts)
  }

  function GroupRefs(alts: seq<Owned>): set<string>
    decreases alts
  {
    if alts == [] then {} else SeqRefs(alts[0].els) + GroupRefs(alts[1..])
  }

  function SeqRefs(s: Sequence): set<string>
    decreases s
  {
    if s == [] then {} else ElemRefs(s[0]) + SeqRefs(s[1..])
  }

  function AltsRefs(alts: seq<Sequence>): set<string> {
    if alts == [] then {} else SeqRefs(alts[0]) + AltsRefs(alts[1..])
  }

  lemma {:induction false} RefsCat(s: Sequence, t: Sequence)
    ensures SeqRefs(s + t) == SeqRefs(s) + SeqRefs(t)
  {
    if s == [] {
      assert s + t == t;
    } else {
      assert (s + t)[0] == s[0] && (s + t)[1..] == s[1..] + t;
      RefsCat(s[1..], t);
    }
  }

  /** Every reference is to one of `names`: emission refuses any other. */
  predicate Resolved(g: Grammar, names: set<string>) {
    forall i :: 0 <= i < |g| ==> AltsRefs(g[i].alts) <= names
  }

  /** The references to no rule. */
  function Dangling(g: Grammar): set<string> {
    set i, n | 0 <= i < |g| && n in AltsRefs(g[i].alts) && n !in NameSet(g) :: n
  }

  /** Sequences of terminals and references only, as desugaring leaves them. */
  predicate FlatElem(e: Element) {
    e.Term? || e.Ref?
  }

  predicate Flat(s: Sequence) {
    forall i :: 0 <= i < |s| ==> FlatElem(s[i])
  }

  predicate FlatAlts(alts: seq<Sequence>) {
    forall i :: 0 <= i < |alts| ==> Flat(alts[i])
  }

  predicate FlatGrammar(g: Grammar) {
    forall i :: 0 <= i < |g| ==> FlatAlts(g[i].alts)
  }
}
