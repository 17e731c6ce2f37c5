/** Routing state over reliable, ordered links: with HELLO sent first, subscriptions and
    regions reach the brokers above. */
module OverlayRouting {
  import opened Outcomes
  import opened BrokerModel
  import opened BrokerRuns
  import opened ClosestFilter
  import opened Routing
  import opened BrokerTree
  import opened Overlay
  import opened OverlayPublish
  import opened OverlayRuns

  /** Links that lose nothing and deliver in order. */
  predicate Ordered(e: NetEvent) {
    !e.Lose? && (e.Arrive? ==> e.i == 0)
  }

  predicate AllOrdered(es: seq<NetEvent>) {
    forall i :: 0 <= i < |es| ==> Ordered(es[i])
  }

  ghost predicate Subscribes(q: seq<Packet>, k: string) {
    exists i :: 0 <= i < |q| && IsSubscribe(q[i].msg, k)
  }

  lemma AfterUp(t: Tree, st: map<string, State>, flight: Hop -> seq<Packet>, wave: Wave, x: string,
                r: (State, Effects), probe: bool, b: string)
    requires t.HasParent(b)
    ensures After(t, st, flight, wave, x, r, probe).flight(Up(b))
            == flight(Up(b)) + if x == b then Packets(r.1.up, probe) else []
  {
  }

  /** What is on the link from b to its parent, once the first message is taken if it arrives. */
  function Rest(net: Net, e: NetEvent, b: string): seq<Packet> {
    var q := net.flight(Up(b));
    if e.Arrive? && e.hop == Up(b) && q != [] then q[1..] else q
  }

  lemma TakenFirst(flight: Hop -> seq<Packet>, h: Hop, b: string)
    requires flight(h) != []
    ensures Taken(flight, h, 0)(Up(b)) == if h == Up(b) then flight(h)[1..] else flight(Up(b))
  {
    assert flight(h)[..0] + flight(h)[1..] == flight(h)[1..];
  }

  ghost predicate Adds(q: seq<Packet>, up: seq<Msg>, q': seq<Packet>) {
    exists probe :: q' == q + Packets(up, probe)
  }

  /** What a step of the net does to the link from b to its parent. */
  lemma UpLink(t: Tree, net: Net, e: NetEvent, b: string)
    requires t.Valid() && States(t, net) && Enabled(t, net, e) && Ordered(e) && t.HasParent(b)
    ensures t.nodes[b].config.Valid()
    ensures var l := LocalEvent(t, net, e);
            if l.Some? && l.value.0 == b
            then Adds(Rest(net, e, b), Step(t.nodes[b].config, net.st[b], l.value.1).1.up,
                      NetStep(t, net, e).flight(Up(b)))
            else NetStep(t, net, e).flight(Up(b)) == Rest(net, e, b)
  {
    assert t.ValidNode(b);
    hide Handle, IsLookup, ClientMsg, CleanupExpired, IsBrokerAddr, After, Taken, Tree.Valid, Tree.ValidNode;
    match e {
      case Client(x, m, from, who, now, probe) =>
        var r := Handled(t, net, x, m, from, who, now);
        AfterUp(t, net.st, net.flight, if probe then Started(x, Used(x, r.1)) else net.wave, x, r, probe, b);
      case Arrive(h, i, who, now) =>
        var x, p := Receiver(t, h), net.flight(h)[0];
        var r := Handled(t, net, x, p.msg, t.nodes[Sender(t, h)].addr, who, now);
        AfterUp(t, net.st, Taken(net.flight, h, 0),
                if p.probe then Passed(net.wave, h, x, Used(x, r.1)) else net.wave, x, r, p.probe, b);
        TakenFirst(net.flight, h, b);
      case Tick(x, now) =>
        assert net.flight(Up(b)) + Packets([], false) == net.flight(Up(b));
    }
  }

  // ---------- subscriptions ----------

  /** Between a broker b and its parent: b is registered or its HELLO comes next, and each
      key b announced is active above or its announcement is on its way. */
  ghost predicate LinkRouted(b: string, c: Config, q: seq<Packet>, me: State, above: State) {
    && Greeted(b, c, q, above)
    && forall k :: k in me.otParent ==> Subscribes(q, k) || b in ActiveFor(above, k)
  }

  ghost predicate Greeted(b: string, c: Config, q: seq<Packet>, above: State) {
    b in above.children || (q != [] && q[0].msg == HelloMsg(c))
  }

  /** b itself takes a step. */
  lemma RoutedBelow(b: string, c: Config, q: seq<Packet>, me: State, above: State, e: Event, q': seq<Packet>)
    requires c.Valid() && WellFormed(me) && LinkRouted(b, c, q, me, above) && Adds(q, Step(c, me, e).1.up, q')
    ensures LinkRouted(b, c, q', Step(c, me, e).0, above)
  {
    hide Step;
    var (after, fx) := Step(c, me, e);
    RoutingStep(c, me, e);
    var probe :| q' == q + Packets(fx.up, probe);
    forall k | k in after.otParent ensures Subscribes(q', k) || b in ActiveFor(above, k) {
      if k in me.otParent {
        if Subscribes(q, k) {
          var i :| 0 <= i < |q| && IsSubscribe(q[i].msg, k);
          assert q'[i] == q[i];
        }
      } else {
        assert CountAnnouncing(fx.up, k) == 1;
        var i := AnnouncementAt(fx.up, k);
        assert q'[|q| + i].msg == fx.up[i];
      }
    }
  }

  lemma {:induction false} AnnouncementAt(up: seq<Msg>, k: string) returns (i: nat)
    requires CountAnnouncing(up, k) > 0
    ensures i < |up| && IsSubscribe(up[i], k)
  {
    if IsSubscribe(up[0], k) {
      i := 0;
    } else {
      var j := AnnouncementAt(up[1..], k);
      i := j + 1;
    }
  }

  /** The parent takes a step that is not about b's link. */
  lemma RoutedAbove(b: string, cb: Config, q: seq<Packet>, me: State, c: Config, above: State, e: Event)
    requires c.Valid() && WellFormed(above) && LinkRouted(b, cb, q, me, above)
    ensures LinkRouted(b, cb, q, me, Step(c, above, e).0)
  {
    hide Step;
    RoutingStep(c, above, e);
  }

  lemma HelloArrives(c: Config, cb: Config, s: State, from: Addr, who: string, now: int)
    requires c.Valid() && WellFormed(s)
    ensures cb.id in Step(c, s, Receive(HelloMsg(cb), from, who, now)).0.children
  {
    hide Hull;
  }

  lemma SubscribeArrives(c: Config, cb: Config, s: State, m: Msg, from: Addr, who: string, now: int, k: string)
    requires c.Valid() && WellFormed(s) && FromBelow(cb, m) && IsSubscribe(m, k) && who != ""
    ensures who in ActiveFor(Step(c, s, Receive(m, from, who, now)).0, k)
  {
    SubscribeGrows(c, s, m, from, who, now);
    hide HandleSubscribe;
  }

  /** The parent handles the first message on b's link. */
  lemma RoutedArrival(t: Tree, b: string, p: string, q: seq<Packet>, me: State, above: State, who: string, now: int)
    requires t.Valid() && t.IsChild(b, p) && t.nodes[b].config.Valid() && t.nodes[p].config.Valid() && WellFormed(above)
    requires KnownChildren(t, p, above.children) && IsLookup(above.children, t.nodes[b].addr, who)
    requires q != [] && FromBelow(t.nodes[b].config, q[0].msg) && LinkRouted(b, t.nodes[b].config, q, me, above)
    ensures LinkRouted(b, t.nodes[b].config, q[1..], me,
                       Step(t.nodes[p].config, above, Receive(q[0].msg, t.nodes[b].addr, who, now)).0)
  {
    var c, cb, m, from := t.nodes[p].config, t.nodes[b].config, q[0].msg, t.nodes[b].addr;
    var e := Receive(m, from, who, now);
    var after := Step(c, above, e).0;
    assert t.ValidNode(b);
    RoutingStep(c, above, e);
    LookupIsSender(t, p, above.children, b, who);
    hide Step, Tree.Valid, Tree.ValidNode, IsLookup, KnownChildren, WellFormed, FromBelow, CountAnnouncing;
    if b !in above.children { HelloArrives(c, cb, above, from, who, now); }
    forall k | k in me.otParent ensures Subscribes(q[1..], k) || b in ActiveFor(after, k) {
      if IsSubscribe(m, k) {
        SubscribeArrives(c, cb, above, m, from, who, now, k);
      } else if Subscribes(q, k) {
        var i :| 0 <= i < |q| && IsSubscribe(q[i].msg, k);
        assert q[1..][i - 1] == q[i];
      }
    }
  }

  // ---------- over the net ----------

  function ParentOf(t: Tree, b: string): string
    requires t.HasParent(b)
  {
    t.nodes[b].parent.value
  }

  ghost predicate Routed(t: Tree, net: Net)
    requires t.Valid() && States(t, net)
  {
    forall b :: t.HasParent(b) ==> RoutedAt(t, net, b)
  }

  ghost predicate RoutedAt(t: Tree, net: Net, b: string)
    requires t.Valid() && States(t, net) && t.HasParent(b)
  {
    assert t.ValidNode(b);
    LinkRouted(b, t.nodes[b].config, net.flight(Up(b)), net.st[b], net.st[ParentOf(t, b)])
  }

  /** The step of broker x in a step of the net, if it is the one that moves. */
  ghost function StepOf(t: Tree, net: Net, e: NetEvent, x: string): Option<Event>
    requires t.Valid() && States(t, net) && Enabled(t, net, e)
  {
    var l := LocalEvent(t, net, e);
    if l.Some? && l.value.0 == x then Some(l.value.1) else None
  }

  /** A broker's state after its step, if it takes one. */
  ghost predicate Moves(c: Config, s: State, e: Option<Event>, s': State) {
    c.Valid() && WellFormed(s) && s' == if e.Some? then Step(c, s, e.value).0 else s
  }

  lemma BrokerMoves(t: Tree, net: Net, e: NetEvent, x: string)
    requires t.Valid() && States(t, net) && Enabled(t, net, e) && x in t.nodes
    ensures States(t, NetStep(t, net, e))
    ensures Moves(t.nodes[x].config, net.st[x], StepOf(t, net, e, x), NetStep(t, net, e).st[x])
  {
    hide NetStep, Enabled, Step, LocalEvent, Tree.Valid, Tree.ValidNode, WellFormed;
    ConfigIsValid(t, x);
    StepStates(t, net, e);
    OneBrokerSteps(t, net, e);
  }

  /** One broker of a link took a step, or neither did. */
  lemma RoutedEnds(b: string, cb: Config, c: Config, q: seq<Packet>, me: State, above: State, q': seq<Packet>,
                   me': State, above': State, below: Option<Event>, over: Option<Event>)
    requires LinkRouted(b, cb, q, me, above) && (below.None? || over.None?)
    requires Moves(cb, me, below, me') && Moves(c, above, over, above')
    requires if below.Some? then Adds(q, Step(cb, me, below.value).1.up, q') else q' == q
    ensures LinkRouted(b, cb, q', me', above')
  {
    hide Step, LinkRouted, Adds, WellFormed;
    if below.Some? {
      RoutedBelow(b, cb, q, me, above, below.value, q');
    } else if over.Some? {
      RoutedAbove(b, cb, q, me, c, above, over.value);
    }
  }

  lemma RoutedElse(t: Tree, net: Net, e: NetEvent, b: string)
    requires t.Valid() && Sound(t, net) && Enabled(t, net, e) && Ordered(e) && t.HasParent(b) && RoutedAt(t, net, b)
    requires !(e.Arrive? && e.hop == Up(b))
    ensures States(t, NetStep(t, net, e)) && RoutedAt(t, NetStep(t, net, e), b)
  {
    var p := ParentOf(t, b);
    assert t.ValidNode(b) && p in t.nodes && p != b;
    hide Sound, Ordered, NetStep, Enabled, Step, LinkRouted, Flight, Known, Spreading, LocalEvent, Adds, Tree.Valid,
         Tree.ValidNode, Moves, WellFormed;
    BrokerMoves(t, net, e, b);
    BrokerMoves(t, net, e, p);
    UpLink(t, net, e, b);
    var after := NetStep(t, net, e);
    RoutedEnds(b, t.nodes[b].config, t.nodes[p].config, net.flight(Up(b)), net.st[b], net.st[p],
               after.flight(Up(b)), after.st[b], after.st[p], StepOf(t, net, e, b), StepOf(t, net, e, p));
  }

  lemma RoutedTaken(t: Tree, net: Net, e: NetEvent, b: string)
    requires t.Valid() && Sound(t, net) && Enabled(t, net, e) && Ordered(e) && t.HasParent(b) && RoutedAt(t, net, b)
    requires e.Arrive? && e.hop == Up(b)
    ensures States(t, NetStep(t, net, e)) && RoutedAt(t, NetStep(t, net, e), b)
  {
    var p := ParentOf(t, b);
    assert t.ValidNode(b) && p in t.nodes && p != b;
    hide NetStep, Step, LinkRouted, Flight, Fits, Taken, Spreading, Adds, Tree.Valid, Tree.ValidNode, WellFormed,
         IsLookup, KnownChildren;
    FlightTaken(t, net.flight, net.wave.open, e.hop, e.i);
    BrokerMoves(t, net, e, b);
    BrokerMoves(t, net, e, p);
    UpLink(t, net, e, b);
    RoutedArrival(t, b, p, net.flight(Up(b)), net.st[b], net.st[p], e.who, e.now);
  }

  lemma StartRouted(t: Tree)
    requires t.Valid()
    ensures Routed(t, StartNet(t))
  {
  }

  lemma {:induction false} AlwaysRouted(t: Tree, es: seq<NetEvent>)
    requires t.Valid() && AllOrdered(es)
    ensures Routed(t, NetRun(t, es))
  {
    hide RoutedAt, NetStep, Enabled, Sound;
    if es == [] {
      StartRouted(t);
    } else {
      var before, e := NetRun(t, es[..|es| - 1]), es[|es| - 1];
      AlwaysRouted(t, es[..|es| - 1]);
      AlwaysSound(t, es[..|es| - 1]);
      if Enabled(t, before, e) {
        forall b | t.HasParent(b) ensures RoutedAt(t, NetRun(t, es), b) {
          if e.Arrive? && e.hop == Up(b) { RoutedTaken(t, before, e, b); } else { RoutedElse(t, before, e, b); }
        }
      }
    }
  }

  /** The links from x up to u's parent carry no announcement of the key. */
  ghost predicate PathSettled(t: Tree, net: Net, x: string, k: string)
    requires t.Valid() && x in t.nodes
  {
    forall u :: t.HasParent(u) && Within(t, u, x) ==> !Subscribes(net.flight(Up(u)), k)
  }

  lemma {:induction false} WantedUpThePath(t: Tree, es: seq<NetEvent>, u: string, x: string, path: string, k: string)
    requires t.Valid() && AllOrdered(es) && x in t.nodes && path in t.nodes && t.HasParent(u) && Within(t, u, x)
    requires Within(t, x, path) && PathSettled(t, NetRun(t, es), path, k)
    requires ActiveFor(NetRun(t, es).st[x], k) != {} || GroupOf(NetRun(t, es).st[x], k) != []
    ensures u in ActiveFor(NetRun(t, es).st[ParentOf(t, u)], k)
    decreases t.depth[x]
  {
    var net := NetRun(t, es);
    assert t.ValidNode(x) && t.ValidNode(u);
    NetRunsAreLocal(t, es, x);
    WantedIsAnnounced(t.nodes[x].config, LocalRun(t, es, x));
    hide NetRun, Run, LocalRun;
    if t.HasParent(x) {
      AlwaysRouted(t, es);
      assert RoutedAt(t, net, x);
      assert k in net.st[x].otParent;
      assert !Subscribes(net.flight(Up(x)), k);
      assert x in ActiveFor(net.st[ParentOf(t, x)], k);
    }
    if u != x {
      WithinParent(t, x, ParentOf(t, x), path);
      WantedUpThePath(t, es, u, ParentOf(t, x), path, k);
    }
  }

  /** Over reliable ordered links: whenever no SUBSCRIBE for the key is in flight on the path
      above a broker with a subscriber for it, every broker above lists the child on the path
      as active for the key, whatever expired meanwhile. */
  lemma SubscriptionsReachAncestors(t: Tree, es: seq<NetEvent>, x: string, u: string, k: string)
    requires t.Valid() && AllOrdered(es) && x in t.nodes && GroupOf(NetRun(t, es).st[x], k) != []
    requires PathSettled(t, NetRun(t, es), x, k)
    requires t.HasParent(u) && Within(t, u, x)
    ensures u in ActiveFor(NetRun(t, es).st[ParentOf(t, u)], k)
  {
    WantedUpThePath(t, es, u, x, x, k);
  }

  /** No broker of the tree announces a key to its parent twice, over any links. */
  lemma BrokersAnnounceOnce(t: Tree, es: seq<NetEvent>, b: string, k: string)
    requires t.Valid() && b in t.nodes
    ensures t.nodes[b].config.Valid()
    ensures Announcements(t.nodes[b].config, LocalRun(t, es, b), k) == One(k in NetRun(t, es).st[b].otParent)
  {
    NetRunsAreLocal(t, es, b);
    AnnouncedOnce(t.nodes[b].config, LocalRun(t, es, b), k);
  }
}
