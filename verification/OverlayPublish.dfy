/** One publication in the tree: handled at most once by each broker, never sent back, dead
    after fewer messages than there are brokers, whatever is braked, filtered, lost or reordered. */
module OverlayPublish {
  import opened Outcomes
  import opened BrokerModel
  import opened BrokerTree
  import opened Overlay

  /** Registered children are children in the tree, at their own addresses. */
  ghost predicate KnownChildren(t: Tree, b: string, children: map<string, Child>) {
    forall u :: u in children ==> t.IsChild(u, b) && children[u].addr == t.nodes[u].addr
  }

  ghost predicate Known(t: Tree, st: map<string, State>) {
    forall b :: b in st ==> KnownChildren(t, b, st[b].children)
  }

  predicate Fits(t: Tree, h: Hop, m: Msg)
    requires IsLink(t, h)
  {
    if h.Up? then FromBelow(t.nodes[h.child].config, m) else FromAbove(m)
  }

  /** A link's messages: of the kinds brokers send there, at most one of them the followed publication. */
  ghost predicate LinkOk(t: Tree, open: set<Hop>, h: Hop, q: seq<Packet>) {
    && (q != [] ==> IsLink(t, h))
    && (forall i :: 0 <= i < |q| ==> Fits(t, h, q[i].msg) && (q[i].probe ==> h in open && q[i].msg.kind == PUBLISH))
    && (forall i, j :: 0 <= i < j < |q| ==> !(q[i].probe && q[j].probe))
  }

  ghost predicate Flight(t: Tree, flight: Hop -> seq<Packet>, open: set<Hop>) {
    forall h :: LinkOk(t, open, h, flight(h))
  }

  ghost predicate Sound(t: Tree, net: Net)
    requires t.Valid()
  {
    States(t, net) && Known(t, net.st) && Flight(t, net.flight, net.wave.open) && Spreading(t, net.wave)
  }

  // ---------- links ----------

  lemma LinkWithout(t: Tree, open: set<Hop>, h: Hop, q: seq<Packet>, i: nat)
    requires LinkOk(t, open, h, q) && i < |q|
    ensures LinkOk(t, open, h, Without(q, i))
    ensures q[i].probe ==> LinkOk(t, open - {h}, h, Without(q, i))
  {
    var r := Without(q, i);
    assert forall j :: 0 <= j < |r| ==> r[j] == q[if j < i then j else j + 1];
    hide Fits;
  }

  lemma LinkGrows(t: Tree, open: set<Hop>, more: set<Hop>, h: Hop, q: seq<Packet>, added: seq<Packet>)
    requires LinkOk(t, open, h, q) && LinkOk(t, more, h, added)
    requires added != [] && added[0].probe ==> h !in open
    requires |added| > 1 ==> forall i :: 0 <= i < |added| ==> !added[i].probe
    ensures LinkOk(t, open + more, h, q + added)
  {
    hide Fits;
    assert forall j :: 0 <= j < |q + added| ==> (q + added)[j] == if j < |q| then q[j] else added[j - |q|];
  }

  lemma LinkWider(t: Tree, open: set<Hop>, more: set<Hop>, h: Hop, q: seq<Packet>)
    requires LinkOk(t, open, h, q) && (h in open ==> h in more)
    ensures LinkOk(t, more, h, q)
  {
    hide Fits;
  }

  /** What one broker emits fits its links. */
  lemma EmittedOk(t: Tree, b: string, fx: Effects, probe: bool, h: Hop)
    requires b in t.nodes && AllFromBelow(t.nodes[b].config, fx.up) && AllFromAbove(fx.down)
    requires probe ==> |fx.up| <= 1 && (fx.up != [] ==> fx.up[0].kind == PUBLISH)
    ensures var added := Emitted(t, b, fx, probe, h);
            && LinkOk(t, if probe then Elements(Used(b, fx)) else {}, h, added)
            && (|added| > 1 ==> forall i :: 0 <= i < |added| ==> !added[i].probe)
  {
    hide FromBelow, FromAbove, Listing;
    if IsLink(t, h) && Sender(t, h) == b {
      if h.Up? {
        assert fx.up != [] ==> Used(b, fx)[0] == h;
        assert forall i :: 0 <= i < |fx.up| ==> FromBelow(t.nodes[b].config, fx.up[i]);
      } else if h.child in fx.down {
        assert FromAbove(fx.down[h.child]);
        assert fx.down[h.child].kind == PUBLISH by { AboveIsPublish(fx.down[h.child]); }
        assert h in Listing(fx.down.Keys);
      }
    }
  }

  lemma AboveIsPublish(m: Msg)
    requires FromAbove(m)
    ensures m.kind == PUBLISH
  {
  }

  /** What the followed publication's handling may put on links. */
  ghost predicate ProbeEffects(fx: Effects) {
    |fx.up| <= 1 && (fx.up != [] ==> fx.up[0].kind == PUBLISH)
  }

  lemma FlightAfter(t: Tree, st: map<string, State>, flight: Hop -> seq<Packet>, open: set<Hop>, wave: Wave,
                    b: string, r: (State, Effects), probe: bool)
    requires b in t.nodes && Flight(t, flight, open)
    requires AllFromBelow(t.nodes[b].config, r.1.up) && AllFromAbove(r.1.down)
    requires probe ==> ProbeEffects(r.1) && forall n :: n in Used(b, r.1) ==> n !in open
    requires wave.open == if probe then open + Elements(Used(b, r.1)) else open
    ensures Flight(t, After(t, st, flight, wave, b, r, probe).flight, wave.open)
  {
    hide LinkOk, AllFromBelow, AllFromAbove, Used;
    forall h ensures LinkOk(t, wave.open, h, flight(h) + Emitted(t, b, r.1, probe, h)) {
      assert LinkOk(t, open, h, flight(h));
      var used := if probe then Elements(Used(b, r.1)) else {};
      EmittedOk(t, b, r.1, probe, h);
      EmittedProbe(t, used, h, Emitted(t, b, r.1, probe, h));
      LinkGrows(t, open, used, h, flight(h), Emitted(t, b, r.1, probe, h));
      assert open + {} == open;
    }
  }

  lemma EmittedProbe(t: Tree, used: set<Hop>, h: Hop, q: seq<Packet>)
    requires LinkOk(t, used, h, q)
    ensures q != [] && q[0].probe ==> h in used
  {
  }

  lemma FlightTaken(t: Tree, flight: Hop -> seq<Packet>, open: set<Hop>, h: Hop, i: nat)
    requires Flight(t, flight, open) && i < |flight(h)|
    ensures Flight(t, Taken(flight, h, i), open)
    ensures flight(h)[i].probe ==> h in open && Flight(t, Taken(flight, h, i), open - {h})
    ensures IsLink(t, h) && Fits(t, h, flight(h)[i].msg)
    ensures flight(h)[i].probe ==> flight(h)[i].msg.kind == PUBLISH
  {
    LinkFirst(t, open, h, flight(h), i);
    hide LinkOk, Fits;
    forall k ensures LinkOk(t, open, k, Taken(flight, h, i)(k)) {
      assert LinkOk(t, open, k, flight(k));
      if k == h { LinkWithout(t, open, h, flight(h), i); }
    }
    if flight(h)[i].probe {
      forall k ensures LinkOk(t, open - {h}, k, Taken(flight, h, i)(k)) {
        assert LinkOk(t, open, k, flight(k));
        if k == h { LinkWithout(t, open, h, flight(h), i); } else { LinkWider(t, open, open - {h}, k, flight(k)); }
      }
    }
  }

  lemma LinkFirst(t: Tree, open: set<Hop>, h: Hop, q: seq<Packet>, i: nat)
    requires LinkOk(t, open, h, q) && i < |q|
    ensures IsLink(t, h) && Fits(t, h, q[i].msg) && (q[i].probe ==> h in open && q[i].msg.kind == PUBLISH)
  {
  }

  // ---------- brokers ----------

  lemma PublishStaysKnown(t: Tree, b: string, c: Config, s: State, m: Msg, from: Addr, who: string, now: int)
    requires c.Valid() && WellFormed(s) && KnownChildren(t, b, s.children) && m.kind == PUBLISH
    ensures KnownChildren(t, b, Handle(c, s, m, from, who, now).0.children)
  {
    PublishKeepsChildren(c, s, m, from, who, now);
    hide HandlePublish;
  }

  /** Only a child's own HELLO registers it, at the address it came from. */
  lemma ChildrenStayKnown(t: Tree, b: string, s: State, m: Msg, from: Addr, who: string, now: int)
    requires t.Valid() && b in t.nodes && t.nodes[b].config.Valid() && WellFormed(s) && KnownChildren(t, b, s.children)
    requires m.kind == HELLO ==> m.name.Some? && t.IsChild(m.name.value, b) && from == t.nodes[m.name.value].addr
    ensures KnownChildren(t, b, Handle(t.nodes[b].config, s, m, from, who, now).0.children)
  {
    var c := t.nodes[b].config;
    hide Handle, Tree.Valid;
    if m.kind == PUBLISH {
      PublishStaysKnown(t, b, c, s, m, from, who, now);
    } else {
      ChildrenAfter(c, s, m, from, who, now);
    }
  }

  /** A child recognised by its address is the one the message came from. */
  lemma LookupIsSender(t: Tree, b: string, children: map<string, Child>, u: string, who: string)
    requires t.Valid() && KnownChildren(t, b, children) && t.IsChild(u, b) && IsLookup(children, t.nodes[u].addr, who)
    ensures u in children ==> who == u
    ensures u !in children ==> who == ""
  {
  }

  lemma UsedOnward(t: Tree, b: string, fx: Effects, back: Option<Hop>)
    requires fx.up != [] ==> t.HasParent(b) && back != Some(Up(b))
    requires forall u :: u in fx.down ==> t.IsChild(u, b) && back != Some(Down(u))
    ensures Onward(t, b, back, Used(b, fx))
  {
    hide Listing;
  }

  /** Where the followed publication goes on: over links of its broker, never back. */
  lemma GoesOnward(t: Tree, b: string, s: State, m: Msg, from: Addr, who: string, now: int, back: Option<Hop>)
    requires t.Valid() && b in t.nodes && t.nodes[b].config.Valid() && WellFormed(s) && KnownChildren(t, b, s.children)
    requires m.kind == PUBLISH
    requires match back
             case None => true
             case Some(Up(x)) => x == b && m.flags.fromParent
             case Some(Down(u)) => t.IsChild(u, b) && m.flags.fromChild && IsLookup(s.children, t.nodes[u].addr, who)
    ensures var fx := Handle(t.nodes[b].config, s, m, from, who, now).1;
            Onward(t, b, back, Used(b, fx)) && ProbeEffects(fx)
  {
    hide HandlePublish, Used, Onward, AllFromBelow, AllFromAbove, IsLookup;
    var c := t.nodes[b].config;
    var fx := HandlePublish(c, s, m, from, who, now).1;
    assert t.ValidNode(b);
    PublishEffects(c, s, m, from, who, now);
    PublishKinds(c, s, m, from, who, now);
    if back.Some? && back.value.Down? {
      LookupIsSender(t, b, s.children, back.value.child, who);
      assert FromId(c, m, from, who) == who;
    }
    hide Tree.Valid, Tree.ValidNode, FromId;
    UsedOnward(t, b, fx, back);
  }

  lemma PublishKinds(c: Config, s: State, m: Msg, from: Addr, who: string, now: int)
    requires c.Valid() && WellFormed(s)
    ensures var fx := HandlePublish(c, s, m, from, who, now).1;
            (fx.up != [] ==> fx.up[0].kind == PUBLISH) && (m.name.None? ==> fx == NOTHING)
  {
    hide PublishLocal, DownChildren, DownTargets, DownSends, CachePut, PublishStats, BrakeAllows, BrakeWindows, FromId,
         PubKey;
  }

  // ---------- the invariant over runs ----------

  lemma StartSound(t: Tree)
    requires t.Valid()
    ensures Sound(t, StartNet(t))
  {
    hide Tree.Valid, Flight, Spreading;
    assert Spreading(t, QUIET) by { QuietSpreads(t); }
    StartFlight(t);
  }

  lemma QuietSpreads(t: Tree)
    requires t.Valid()
    ensures Spreading(t, QUIET)
  {
  }

  lemma StartFlight(t: Tree)
    requires t.Valid()
    ensures Flight(t, StartNet(t).flight, {})
  {
    hide Tree.Valid, Tree.ValidNode;
    forall h ensures LinkOk(t, {}, h, StartNet(t).flight(h)) {
    }
  }

  lemma KnownAfter(t: Tree, st: map<string, State>, b: string, s: State)
    requires Known(t, st) && KnownChildren(t, b, s.children)
    ensures Known(t, st[b := s])
  {
    hide KnownChildren;
  }

  lemma ClientSound(t: Tree, net: Net, e: NetEvent)
    requires t.Valid() && Sound(t, net) && Enabled(t, net, e) && e.Client?
    ensures Sound(t, NetStep(t, net, e))
  {
    var c, s := t.nodes[e.b].config, net.st[e.b];
    assert t.ValidNode(e.b);
    StepStates(t, net, e);
    assert Known(t, NetStep(t, net, e).st) by {
      ChildrenStayKnown(t, e.b, s, e.m, e.from, e.who, e.now);
      KnownAfter(t, net.st, e.b, Handled(t, net, e.b, e.m, e.from, e.who, e.now).0);
    }
    ClientFlight(t, net, e);
  }

  lemma ClientFlight(t: Tree, net: Net, e: NetEvent)
    requires t.Valid() && Sound(t, net) && Enabled(t, net, e) && e.Client?
    ensures Flight(t, NetStep(t, net, e).flight, NetStep(t, net, e).wave.open) && Spreading(t, NetStep(t, net, e).wave)
  {
    var c, s := t.nodes[e.b].config, net.st[e.b];
    var r := Handled(t, net, e.b, e.m, e.from, e.who, e.now);
    assert t.ValidNode(e.b);
    HandleEffects(c, s, e.m, e.from, e.who, e.now);
    hide Handle, AllFromBelow, AllFromAbove, Flight;
    if e.probe {
      GoesOnward(t, e.b, s, e.m, e.from, e.who, e.now, None);
      ProbeStarts(t, net.st, net.flight, e.b, r);
    } else {
      FlightAfter(t, net.st, net.flight, net.wave.open, net.wave, e.b, r, false);
    }
  }

  lemma ProbeStarts(t: Tree, st: map<string, State>, flight: Hop -> seq<Packet>, b: string, r: (State, Effects))
    requires t.Valid() && b in t.nodes && Flight(t, flight, {})
    requires AllFromBelow(t.nodes[b].config, r.1.up) && AllFromAbove(r.1.down)
    requires Onward(t, b, None, Used(b, r.1)) && ProbeEffects(r.1)
    ensures Spreading(t, Started(b, Used(b, r.1)))
    ensures var wave := Started(b, Used(b, r.1)); Flight(t, After(t, st, flight, wave, b, r, true).flight, wave.open)
  {
    hide AllFromBelow, AllFromAbove, Flight, Used, Spreading, ProbeEffects, Onward;
    Start(t, b, Used(b, r.1));
    FlightAfter(t, st, flight, {}, Started(b, Used(b, r.1)), b, r, true);
  }

  lemma ArriveSound(t: Tree, net: Net, e: NetEvent)
    requires t.Valid() && Sound(t, net) && Enabled(t, net, e) && e.Arrive?
    ensures Sound(t, NetStep(t, net, e))
  {
    var h, p := e.hop, net.flight(e.hop)[e.i];
    var b, from := Receiver(t, h), t.nodes[Sender(t, h)].addr;
    var c, s := t.nodes[b].config, net.st[b];
    var r := Handled(t, net, b, p.msg, from, e.who, e.now);
    assert t.ValidNode(b) && t.ValidNode(Sender(t, h));
    StepStates(t, net, e);
    HandleEffects(c, s, p.msg, from, e.who, e.now);
    FlightTaken(t, net.flight, net.wave.open, h, e.i);
    assert Known(t, NetStep(t, net, e).st) by {
      ChildrenStayKnown(t, b, s, p.msg, from, e.who, e.now);
      KnownAfter(t, net.st, b, r.0);
    }
    ArriveFlight(t, net, e);
  }

  lemma ArriveFlight(t: Tree, net: Net, e: NetEvent)
    requires t.Valid() && Sound(t, net) && Enabled(t, net, e) && e.Arrive?
    ensures Flight(t, NetStep(t, net, e).flight, NetStep(t, net, e).wave.open) && Spreading(t, NetStep(t, net, e).wave)
  {
    var h, p := e.hop, net.flight(e.hop)[e.i];
    var b, from := Receiver(t, h), t.nodes[Sender(t, h)].addr;
    var c, s := t.nodes[b].config, net.st[b];
    var r := Handled(t, net, b, p.msg, from, e.who, e.now);
    assert t.ValidNode(b) && t.ValidNode(Sender(t, h));
    HandleEffects(c, s, p.msg, from, e.who, e.now);
    FlightTaken(t, net.flight, net.wave.open, h, e.i);
    var flight := Taken(net.flight, h, e.i);
    hide Handle, AllFromBelow, AllFromAbove, Flight, Taken;
    if p.probe {
      GoesOnward(t, b, s, p.msg, from, e.who, e.now, Some(Reverse(h)));
      hide Onward, ProbeEffects, Used, Spreading;
      Pass(t, net.wave, h, Used(b, r.1));
      PassNew(t, net.wave, h, Used(b, r.1));
      FlightAfter(t, net.st, flight, net.wave.open - {h}, Passed(net.wave, h, b, Used(b, r.1)), b, r, true);
    } else {
      FlightAfter(t, net.st, flight, net.wave.open, net.wave, b, r, false);
    }
  }

  lemma SoundStep(t: Tree, net: Net, e: NetEvent)
    requires t.Valid() && Sound(t, net) && Enabled(t, net, e)
    ensures Sound(t, NetStep(t, net, e))
  {
    match e {
      case Client(_, _, _, _, _, _) => ClientSound(t, net, e);
      case Arrive(_, _, _, _) => ArriveSound(t, net, e);
      case Lose(h, i) => FlightTaken(t, net.flight, net.wave.open, h, i);
      case Tick(b, now) =>
        StepStates(t, net, e);
        KnownAfter(t, net.st, b, CleanupExpired(net.st[b], now));
    }
  }

  lemma {:induction false} AlwaysSound(t: Tree, es: seq<NetEvent>)
    requires t.Valid()
    ensures Sound(t, NetRun(t, es))
  {
    hide Sound, NetStep, Enabled;
    if es == [] {
      StartSound(t);
    } else {
      AlwaysSound(t, es[..|es| - 1]);
      var before, e := NetRun(t, es[..|es| - 1]), es[|es| - 1];
      if Enabled(t, before, e) { SoundStep(t, before, e); }
    }
  }

  /** In any tree of brokers, under loss and reordering, whatever brakes and quadrant filters
      do: a client's publication is handled at most once by each broker, no link carries it
      twice or in both directions, and at most one message fewer than there are brokers is sent. */
  lemma PublicationSpreadsOnce(t: Tree, es: seq<NetEvent>)
    requires t.Valid()
    ensures var w := NetRun(t, es).wave;
            && Distinct(w.handled) && |w.handled| <= |t.nodes|
            && Distinct(w.sent) && (forall h :: h in w.sent ==> Reverse(h) !in w.sent)
            && (w.handled != [] ==> |w.sent| <= |t.nodes| - 1)
  {
    AlwaysSound(t, es);
    SpreadIsBounded(t, NetRun(t, es).wave);
  }
}
