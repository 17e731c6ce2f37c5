/** The tree the brokers form through their parent links, and how one message can spread
    over it when nobody sends it back over the link it came from. */
module BrokerTree {
  import opened Outcomes
  import opened BrokerModel

  datatype Node = Node(config: Config, parent: Option<string>, addr: Addr)

  /** Brokers by id; depth counts the links to the root and rules out cycles. */
  datatype Tree = Tree(nodes: map<string, Node>, depth: map<string, nat>) {
    ghost predicate Valid() {
      && depth.Keys == nodes.Keys
      && (forall b :: b in nodes ==> ValidNode(b))
      && (forall a, b :: a in nodes && b in nodes && nodes[a].addr == nodes[b].addr ==> a == b)
    }

    ghost predicate ValidNode(b: string)
      requires depth.Keys == nodes.Keys && b in nodes
    {
      var n := nodes[b];
      && b != "" && n.config.id == b && n.config.Valid() && (n.config.hasParent <==> n.parent.Some?)
      && (n.parent.Some? ==> n.parent.value in nodes && depth[b] == depth[n.parent.value] + 1)
    }

    predicate IsChild(b: string, p: string) {
      b in nodes && nodes[b].parent == Some(p)
    }

    predicate HasParent(b: string) {
      b in nodes && nodes[b].parent.Some?
    }
  }

  // ---------- subtrees ----------

  /** x lies in the subtree below top. */
  ghost predicate Within(t: Tree, top: string, x: string)
    requires t.Valid() && x in t.nodes
    decreases t.depth[x]
  {
    x == top || (t.nodes[x].parent.Some? && Within(t, top, t.nodes[x].parent.value))
  }

  lemma {:induction false} WithinDepth(t: Tree, top: string, x: string)
    requires t.Valid() && x in t.nodes && top in t.nodes && Within(t, top, x)
    ensures t.depth[top] <= t.depth[x] && (t.depth[top] == t.depth[x] ==> top == x)
    decreases t.depth[x]
  {
    if x != top { WithinDepth(t, top, t.nodes[x].parent.value); }
  }

  lemma {:induction false} WithinParent(t: Tree, u: string, p: string, x: string)
    requires t.Valid() && x in t.nodes && t.IsChild(u, p) && Within(t, u, x)
    ensures Within(t, p, x) && x != p
    decreases t.depth[x]
  {
    WithinDepth(t, u, x);
    if x != u { WithinParent(t, u, p, t.nodes[x].parent.value); }
  }

  lemma {:induction false} SiblingsApart(t: Tree, u: string, w: string, p: string, x: string)
    requires t.Valid() && x in t.nodes && t.IsChild(u, p) && t.IsChild(w, p) && Within(t, u, x) && Within(t, w, x)
    ensures u == w
    decreases t.depth[x]
  {
    if x == u {
      WithinDepth(t, w, x);
    } else if x == w {
      WithinDepth(t, u, x);
    } else {
      SiblingsApart(t, u, w, p, t.nodes[x].parent.value);
    }
  }

  // ---------- links ----------

  /** One direction of the link between a broker and its parent. */
  datatype Hop = Up(child: string) | Down(child: string)

  predicate IsLink(t: Tree, h: Hop) {
    t.HasParent(h.child)
  }

  function Sender(t: Tree, h: Hop): string
    requires IsLink(t, h)
  {
    if h.Up? then h.child else t.nodes[h.child].parent.value
  }

  function Receiver(t: Tree, h: Hop): string
    requires IsLink(t, h)
  {
    if h.Up? then t.nodes[h.child].parent.value else h.child
  }

  function Reverse(h: Hop): Hop {
    match h case Up(b) => Down(b) case Down(b) => Up(b)
  }

  /** The brokers on the receiving side of a link. */
  ghost function Far(t: Tree, h: Hop): (f: set<string>)
    requires t.Valid() && IsLink(t, h)
    ensures f <= t.nodes.Keys
  {
    set x | x in t.nodes && (Within(t, h.child, x) <==> h.Down?)
  }

  lemma ReceiverIsFar(t: Tree, h: Hop)
    requires t.Valid() && IsLink(t, h)
    ensures Receiver(t, h) in Far(t, h) && Sender(t, h) !in Far(t, h)
  {
    var p := t.nodes[h.child].parent.value;
    if Within(t, h.child, p) { WithinDepth(t, h.child, p); }
  }

  /** Going on from the receiver, but not back, stays on the far side. */
  lemma FarShrinks(t: Tree, h: Hop, next: Hop)
    requires t.Valid() && IsLink(t, h) && IsLink(t, next) && Sender(t, next) == Receiver(t, h) && next != Reverse(h)
    ensures Far(t, next) <= Far(t, h)
  {
    forall x | x in Far(t, next) ensures x in Far(t, h) {
      match (h, next) {
        case (Up(u), Up(v)) =>
          if Within(t, u, x) { WithinParent(t, u, v, x); }
        case (Up(u), Down(w)) =>
          if Within(t, u, x) { SiblingsApart(t, u, w, Receiver(t, h), x); }
        case (Down(v), Down(w)) =>
          WithinParent(t, w, v, x);
        case (Down(v), Up(u)) =>
          assert false;
      }
    }
  }

  /** Two ways on from the same broker lead to separate sides. */
  lemma WaysApart(t: Tree, a: Hop, b: Hop)
    requires t.Valid() && IsLink(t, a) && IsLink(t, b) && Sender(t, a) == Sender(t, b) && a != b
    ensures Far(t, a) !! Far(t, b)
  {
    forall x | x in Far(t, a) && x in Far(t, b) ensures false {
      match (a, b) {
        case (Up(u), Down(w)) => WithinParent(t, w, u, x);
        case (Down(w), Up(u)) => WithinParent(t, w, u, x);
        case (Down(v), Down(w)) => SiblingsApart(t, v, w, Sender(t, a), x);
        case (Up(u), Up(v)) =>
      }
    }
  }

  // ---------- the spread of one message ----------

  /** Who has handled the message, in order; over which links it was sent, in order; and
      the links whose message was not handled: still on its way, or lost. */
  datatype Wave = Wave(handled: seq<string>, sent: seq<Hop>, open: set<Hop>)

  const QUIET := Wave([], [], {})

  predicate Distinct<T(==)>(s: seq<T>) {
    forall i, j :: 0 <= i < j < |s| ==> s[i] != s[j]
  }

  function Elements<T>(s: seq<T>): set<T> {
    set x | x in s
  }

  /** Nobody beyond the link has handled the message. */
  ghost predicate Untouched(t: Tree, handled: seq<string>, h: Hop)
    requires t.Valid() && IsLink(t, h)
  {
    forall x :: x in handled ==> x !in Far(t, h)
  }

  /** Every sent message went over a link of its own, in one direction only, from a broker
      that had handled it. */
  ghost predicate OneWay(t: Tree, w: Wave) {
    && Distinct(w.sent)
    && forall h :: h in w.sent ==> IsLink(t, h) && Sender(t, h) in w.handled && Reverse(h) !in w.sent
  }

  ghost predicate OpenLinks(t: Tree, w: Wave)
    requires t.Valid()
  {
    && (forall h :: h in w.open ==> IsLink(t, h) && Untouched(t, w.handled, h))
    && (forall a, b :: a in w.open && b in w.open && a != b ==> Far(t, a) !! Far(t, b))
  }

  ghost predicate Spreading(t: Tree, w: Wave)
    requires t.Valid()
  {
    HandledOnce(t, w) && OneWay(t, w) && OpenLinks(t, w) && Counted(w)
  }

  ghost predicate HandledOnce(t: Tree, w: Wave) {
    Distinct(w.handled) && (forall x :: x in w.handled ==> x in t.nodes)
  }

  /** One broker starts; each further one handled what one link brought. */
  ghost predicate Counted(w: Wave) {
    if w.handled == [] then w == QUIET else |w.sent| + 1 == |w.open| + |w.handled|
  }

  /** Links a broker may send over after receiving over a link, or from a client. */
  ghost predicate Onward(t: Tree, x: string, back: Option<Hop>, next: seq<Hop>) {
    && Distinct(next)
    && forall n :: n in next ==> IsLink(t, n) && Sender(t, n) == x && Some(n) != back
  }

  function Started(x: string, next: seq<Hop>): Wave {
    Wave([x], next, Elements(next))
  }

  function Passed(w: Wave, h: Hop, x: string, next: seq<Hop>): Wave {
    Wave(w.handled + [x], w.sent + next, w.open - {h} + Elements(next))
  }

  lemma {:induction false} ElementsCount<T>(s: seq<T>)
    requires Distinct(s)
    ensures |Elements(s)| == |s|
  {
    if s != [] {
      ElementsCount(s[1..]);
      assert Elements(s) == {s[0]} + Elements(s[1..]);
    }
  }

  /** The links onward are all new, and so are their far sides. */
  lemma OnwardIsNew(t: Tree, w: Wave, h: Hop, n: Hop)
    requires t.Valid() && Spreading(t, w) && h in w.open
    requires IsLink(t, n) && Sender(t, n) == Receiver(t, h) && n != Reverse(h)
    ensures Receiver(t, h) !in w.handled
    ensures Untouched(t, w.handled + [Receiver(t, h)], n)
    ensures n !in w.sent && Reverse(n) !in w.sent && n !in w.open
    ensures forall o :: o in w.open && o != h ==> Far(t, o) !! Far(t, n)
  {
    ReceiverIsFar(t, h);
    ReceiverIsFar(t, n);
    FarShrinks(t, h, n);
    assert Sender(t, Reverse(n)) == Receiver(t, n);
    if n in w.open { ReceiverIsFar(t, n); }
    hide Far;
    assert Receiver(t, n) in Far(t, h);
  }

  lemma PassOneWay(t: Tree, w: Wave, h: Hop, next: seq<Hop>)
    requires t.Valid() && Spreading(t, w) && h in w.open && Onward(t, Receiver(t, h), Some(Reverse(h)), next)
    ensures OneWay(t, Passed(w, h, Receiver(t, h), next))
  {
    var x := Receiver(t, h);
    forall n | n in next ensures n !in w.sent && Reverse(n) !in w.sent && Reverse(n) !in next {
      OnwardIsNew(t, w, h, n);
      ReceiverIsFar(t, n);
      assert Sender(t, Reverse(n)) == Receiver(t, n) != x;
    }
    hide OpenLinks, Far;
    AppendOneWay(t, w, h, x, next);
  }

  lemma AppendOneWay(t: Tree, w: Wave, h: Hop, x: string, next: seq<Hop>)
    requires OneWay(t, w) && Onward(t, x, Some(Reverse(h)), next)
    requires forall n :: n in next ==> n !in w.sent && Reverse(n) !in w.sent && Reverse(n) !in next
    ensures OneWay(t, Passed(w, h, x, next))
  {
    DistinctAppend(w.sent, next);
    forall o | o in w.sent ensures Reverse(o) !in next {
      assert Reverse(o) in next ==> Reverse(Reverse(o)) == o;
    }
  }

  lemma DistinctAppend<T>(a: seq<T>, b: seq<T>)
    requires Distinct(a) && Distinct(b) && forall x :: x in b ==> x !in a
    ensures Distinct(a + b)
  {
    forall i, j | 0 <= i < j < |a + b| ensures (a + b)[i] != (a + b)[j] {
      if i < |a| <= j { assert (a + b)[j] in b && (a + b)[i] in a; }
    }
  }

  lemma PassOpenLinks(t: Tree, w: Wave, h: Hop, next: seq<Hop>)
    requires t.Valid() && Spreading(t, w) && h in w.open && Onward(t, Receiver(t, h), Some(Reverse(h)), next)
    ensures OpenLinks(t, Passed(w, h, Receiver(t, h), next))
  {
    var x := Receiver(t, h);
    var w' := Passed(w, h, x, next);
    ReceiverIsFar(t, h);
    forall o | o in w'.open ensures IsLink(t, o) && Untouched(t, w'.handled, o) {
      if o in next { OnwardIsNew(t, w, h, o); }
    }
    forall a, b | a in w'.open && b in w'.open && a != b ensures Far(t, a) !! Far(t, b) {
      PassApart(t, w, h, next, a, b);
    }
  }

  lemma PassApart(t: Tree, w: Wave, h: Hop, next: seq<Hop>, a: Hop, b: Hop)
    requires t.Valid() && Spreading(t, w) && h in w.open && Onward(t, Receiver(t, h), Some(Reverse(h)), next)
    requires a in Passed(w, h, Receiver(t, h), next).open && b in Passed(w, h, Receiver(t, h), next).open && a != b
    ensures IsLink(t, a) && IsLink(t, b) && Far(t, a) !! Far(t, b)
  {
    hide Far, OneWay, Distinct, Untouched;
    if a in next && b in next {
      WaysApart(t, a, b);
    } else if a in next {
      OnwardIsNew(t, w, h, a);
    } else if b in next {
      OnwardIsNew(t, w, h, b);
    }
  }

  /** Handling closes one link and opens the new ones. */
  lemma PassCount(w: Wave, h: Hop, x: string, next: seq<Hop>)
    requires Counted(w) && h in w.open && Distinct(next)
    requires forall n :: n in next ==> n !in w.open
    ensures Counted(Passed(w, h, x, next))
  {
    ElementsCount(next);
    assert |w.open - {h}| == |w.open| - 1;
    assert (w.open - {h}) !! Elements(next);
  }

  lemma PassHandled(t: Tree, w: Wave, h: Hop, x: string, next: seq<Hop>)
    requires HandledOnce(t, w) && x in t.nodes && x !in w.handled
    ensures HandledOnce(t, Passed(w, h, x, next))
  {
    DistinctAppend(w.handled, [x]);
  }

  lemma PassNew(t: Tree, w: Wave, h: Hop, next: seq<Hop>)
    requires t.Valid() && Spreading(t, w) && h in w.open && Onward(t, Receiver(t, h), Some(Reverse(h)), next)
    ensures Distinct(next) && Receiver(t, h) !in w.handled && Receiver(t, h) in t.nodes
    ensures forall n :: n in next ==> n !in w.open
  {
    ReceiverIsFar(t, h);
    forall n | n in next ensures n !in w.open { OnwardIsNew(t, w, h, n); }
  }

  /** One broker passing the message on keeps the spread one-way and apart. */
  lemma Pass(t: Tree, w: Wave, h: Hop, next: seq<Hop>)
    requires t.Valid() && Spreading(t, w) && h in w.open && Onward(t, Receiver(t, h), Some(Reverse(h)), next)
    ensures Receiver(t, h) !in w.handled && Spreading(t, Passed(w, h, Receiver(t, h), next))
  {
    PassOneWay(t, w, h, next);
    PassOpenLinks(t, w, h, next);
    PassNew(t, w, h, next);
    hide OneWay, OpenLinks, Onward, HandledOnce, Counted;
    PassCount(w, h, Receiver(t, h), next);
    PassHandled(t, w, h, Receiver(t, h), next);
  }

  lemma Start(t: Tree, x: string, next: seq<Hop>)
    requires t.Valid() && x in t.nodes && Onward(t, x, None, next)
    ensures Spreading(t, Started(x, next))
  {
    ElementsCount(next);
    forall n | n in next ensures Receiver(t, n) != x && Untouched(t, [x], n) && Reverse(n) !in next {
      ReceiverIsFar(t, n);
      assert Sender(t, Reverse(n)) == Receiver(t, n);
    }
    forall a, b | a in next && b in next && a != b ensures Far(t, a) !! Far(t, b) { WaysApart(t, a, b); }
  }

  lemma OpenReceiver(t: Tree, w: Wave, h: Hop)
    requires t.Valid() && OpenLinks(t, w) && h in w.open
    ensures Receiver(t, h) in t.nodes && Receiver(t, h) !in w.handled
    ensures forall o :: o in w.open - {h} ==> Receiver(t, h) !in Far(t, o)
  {
    ReceiverIsFar(t, h);
    hide Far, Within;
    assert forall o :: o in w.open && o != h ==> Far(t, o) !! Far(t, h);
  }

  lemma {:induction false} InjectiveCount<K, V>(m: map<K, V>)
    requires forall a, b :: a in m && b in m && m[a] == m[b] ==> a == b
    ensures |m.Values| == |m|
  {
    if m != map[] {
      var k :| k in m;
      InjectiveCount(m - {k});
      assert m.Values == (m - {k}).Values + {m[k]};
      assert (m - {k}).Keys == m.Keys - {k};
      assert |m - {k}| == |(m - {k}).Keys| && |m| == |m.Keys|;
    }
  }

  /** Receivers of open links: all different, none has handled the message. */
  lemma OpenReceivers(t: Tree, w: Wave) returns (r: set<string>)
    requires t.Valid() && OpenLinks(t, w)
    ensures |r| == |w.open| && r <= t.nodes.Keys && (forall x :: x in r ==> x !in w.handled)
  {
    var m := map h | h in w.open :: Receiver(t, h);
    forall h | h in w.open
      ensures m[h] in t.nodes && m[h] !in w.handled && forall o :: o in w.open && o != h ==> m[o] != m[h]
    {
      OpenReceiver(t, w, h);
      forall o | o in w.open && o != h ensures m[o] != m[h] { ReceiverIsFar(t, o); }
    }
    InjectiveCount(m);
    assert m.Keys == w.open;
    r := m.Values;
  }

  /** Whatever was lost or not: each broker handles the message at most once, no link
      carries it twice or both ways, and fewer messages are sent than there are brokers. */
  lemma SpreadIsBounded(t: Tree, w: Wave)
    requires t.Valid() && Spreading(t, w)
    ensures Distinct(w.handled) && Distinct(w.sent) && forall h :: h in w.sent ==> Reverse(h) !in w.sent
    ensures |w.handled| <= |t.nodes|
    ensures w.handled != [] ==> |w.sent| <= |t.nodes| - 1
  {
    var waiting := OpenReceivers(t, w);
    ElementsCount(w.handled);
    DisjointCount(waiting, Elements(w.handled), t.nodes.Keys);
  }

  lemma DisjointCount(a: set<string>, b: set<string>, all: set<string>)
    requires a !! b && a <= all && b <= all
    ensures |a| + |b| <= |all|
  {
    SubsetCount(a + b, all);
  }

  lemma {:induction false} SubsetCount<T>(a: set<T>, b: set<T>)
    requires a <= b
    ensures |a| <= |b|
  {
    assert b == a + (b - a);
  }
}
