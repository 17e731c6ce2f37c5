/** Each broker of the tree goes through a run of its own, and what brokers send to addresses
    leaves the tree: it reaches clients, except a HELLO's acknowledgement, which brokers ignore. */
module OverlayRuns {
  import opened Outcomes
  import opened Geo
  import opened BrokerModel
  import opened BrokerRuns
  import opened BrakeRate
  import opened ClosestFilter
  import opened BrokerTree
  import opened Overlay
  import opened OverlayPublish

  function BrokerAddrs(t: Tree): set<Addr> {
    set b | b in t.nodes :: t.nodes[b].addr
  }

  predicate Avoids(group: seq<GeoClient>, bad: set<Addr>) {
    forall i :: 0 <= i < |group| ==> group[i].addr !in bad
  }

  ghost predicate AllAvoid(s: State, bad: set<Addr>) {
    forall k :: Avoids(GroupOf(s, k), bad)
  }

  ghost predicate OutAvoids(out: seq<Delivery>, bad: set<Addr>) {
    forall i :: 0 <= i < |out| ==> out[i].to !in bad
  }

  lemma {:induction false} SendsAvoid(m: Numbers, group: seq<GeoClient>, at: Point, raw: Msg, bad: set<Addr>)
    requires Avoids(group, bad)
    ensures OutAvoids(DeliverSends(m, group, at, raw), bad) && Avoids(DeliverClients(m, group, at), bad)
  {
    hide Nearer;
    if group != [] {
      assert Avoids(group[1..], bad);
      assert group[0].addr !in bad;
      SendsAvoid(m, group[1..], at, raw, bad);
    }
  }

  /** A subscriber's address is the one its subscription came from. */
  lemma GroupsAvoid(c: Config, s: State, e: Event, bad: set<Addr>)
    requires c.Valid() && WellFormed(s) && AllAvoid(s, bad)
    requires e.Receive? && e.m.kind == SUBSCRIBE && !e.m.flags.fromChild ==> e.from !in bad
    ensures AllAvoid(Step(c, s, e).0, bad)
  {
    hide Step, Admitted, PublishesOn, PubKey, DeliverClients, DeliverSends, Erases;
    forall k ensures Avoids(GroupOf(Step(c, s, e).0, k), bad) {
      GroupStep(c, s, e, k);
      assert Avoids(GroupOf(s, k), bad);
      if PublishesOn(c, e, k) { SendsAvoid(c.numbers, GroupOf(s, k), PointOf(e.m), e.m, bad); }
    }
  }

  /** Whatever a broker sends to an address goes to a subscriber of its own or back to the sender. */
  lemma OutGoesOut(c: Config, s: State, e: Event, bad: set<Addr>)
    requires c.Valid() && WellFormed(s) && AllAvoid(s, bad) && e.Receive? && e.m.kind != HELLO
    requires e.m.kind == SUBSCRIBE && !e.m.flags.fromChild ==> e.from !in bad
    ensures OutAvoids(Step(c, s, e).1.out, bad)
  {
    if IsPub(e) {
      var k := PubKey(c, e.m);
      PublishOutcome(c, s, e);
      LocalOutcome(c, s, e, k);
      assert Avoids(GroupOf(s, k), bad);
      SendsAvoid(c.numbers, GroupOf(s, k), PointOf(e.m), e.m, bad);
      hide Step, PublishLocal, Admitted, PubKey, DeliverClients, DeliverSends;
    } else if e.m.kind == SUBSCRIBE {
      hide SubscribeFromChild, SubscribeFromClient, SubCounted;
      if e.m.name.Some? {
        FromChildFrame(c, s, e.m.name.value, e.who);
        if !e.m.flags.fromChild {
          hide Step;
          JoinOut(c, s, e, SubKey(c, e.m));
        }
      }
    } else {
      hide HandlePublish, Hull, PubCounted;
      if e.m.kind == PUBLISH { PublishNameless(c, s, e.m, e.from, e.who, e.now); }
    }
  }

  // ---------- over the overlay ----------

  /** The broker and the event it goes through when the net takes a step. */
  ghost function LocalEvent(t: Tree, net: Net, e: NetEvent): Option<(string, Event)>
    requires t.Valid() && States(t, net) && Enabled(t, net, e)
  {
    match e
    case Client(b, m, from, who, now, _) => Some((b, Receive(m, from, who, now)))
    case Arrive(h, i, who, now) =>
      Some((Receiver(t, h), Receive(net.flight(h)[i].msg, t.nodes[Sender(t, h)].addr, who, now)))
    case Lose(_, _) => None
    case Tick(b, now) => Some((b, Cleanup(now)))
  }

  /** The net moves one broker at a time, by that broker's own step. */
  lemma OneBrokerSteps(t: Tree, net: Net, e: NetEvent)
    requires t.Valid() && States(t, net) && Enabled(t, net, e)
    ensures var l := LocalEvent(t, net, e);
            if l.None? then NetStep(t, net, e).st == net.st
            else l.value.0 in t.nodes && t.nodes[l.value.0].config.Valid()
                 && NetStep(t, net, e).st
                    == net.st[l.value.0 := Step(t.nodes[l.value.0].config, net.st[l.value.0], l.value.1).0]
  {
    hide Handle, CleanupExpired, IsLookup, ClientMsg;
    var l := LocalEvent(t, net, e);
    if l.Some? { assert t.ValidNode(l.value.0); }
  }

  /** The events one broker went through in a run of the net. */
  ghost function LocalRun(t: Tree, es: seq<NetEvent>, b: string): seq<Event>
    requires t.Valid()
  {
    if es == [] then [] else
      var before, e := NetRun(t, es[..|es| - 1]), es[|es| - 1];
      var rest := LocalRun(t, es[..|es| - 1], b);
      if !Enabled(t, before, e) then rest else
        var l := LocalEvent(t, before, e);
        if l.Some? && l.value.0 == b then rest + [l.value.1] else rest
  }

  /** Every broker of the net goes through a run of its own: what holds in all runs of a
      broker holds of each broker in the tree. */
  lemma {:induction false} NetRunsAreLocal(t: Tree, es: seq<NetEvent>, b: string)
    requires t.Valid() && b in t.nodes
    ensures t.nodes[b].config.Valid() && NetRun(t, es).st[b] == Run(t.nodes[b].config, LocalRun(t, es, b))
  {
    assert t.ValidNode(b);
    hide Step, NetStep, Enabled, LocalEvent, Tree.Valid, Tree.ValidNode, WellFormed;
    if es != [] {
      hide Run;
      var before, e := NetRun(t, es[..|es| - 1]), es[|es| - 1];
      NetRunsAreLocal(t, es[..|es| - 1], b);
      if Enabled(t, before, e) {
        OneBrokerSteps(t, before, e);
        var l := LocalEvent(t, before, e);
        if l.Some? && l.value.0 == b {
          RunOneMore(t.nodes[b].config, LocalRun(t, es[..|es| - 1], b), l.value.1);
        }
      }
    }
  }

  ghost predicate Acknowledges(out: seq<Delivery>) {
    forall i :: 0 <= i < |out| ==> out[i].msg.kind == HELLO_ACK
  }

  /** A subscription registered for delivery comes from a client. */
  lemma SubscribersAreClients(t: Tree, net: Net, e: NetEvent)
    requires t.Valid() && Sound(t, net) && Enabled(t, net, e)
    ensures var l := LocalEvent(t, net, e);
            l.Some? && l.value.1.Receive? && l.value.1.m.kind == SUBSCRIBE && !l.value.1.m.flags.fromChild
            ==> l.value.1.from !in BrokerAddrs(t)
  {
    if e.Arrive? { FlightTaken(t, net.flight, net.wave.open, e.hop, e.i); }
  }

  lemma AvoidStep(t: Tree, net: Net, e: NetEvent, b: string)
    requires t.Valid() && Sound(t, net) && Enabled(t, net, e) && b in t.nodes && AllAvoid(net.st[b], BrokerAddrs(t))
    ensures AllAvoid(NetStep(t, net, e).st[b], BrokerAddrs(t))
  {
    hide Step, NetStep, LocalEvent, Tree.ValidNode, AllAvoid;
    OneBrokerSteps(t, net, e);
    SubscribersAreClients(t, net, e);
    hide Enabled;
    var l := LocalEvent(t, net, e);
    if l.Some? && l.value.0 == b { GroupsAvoid(t.nodes[b].config, net.st[b], l.value.1, BrokerAddrs(t)); }
  }

  lemma {:induction false} SubscribersAvoidBrokers(t: Tree, es: seq<NetEvent>, b: string)
    requires t.Valid() && b in t.nodes
    ensures AllAvoid(NetRun(t, es).st[b], BrokerAddrs(t))
  {
    hide NetStep, Enabled, Tree.Valid, Sound, AllAvoid;
    if es == [] {
      InitialAvoids(t.nodes[b].config, BrokerAddrs(t));
    } else {
      var before, e := NetRun(t, es[..|es| - 1]), es[|es| - 1];
      SubscribersAvoidBrokers(t, es[..|es| - 1], b);
      AlwaysSound(t, es[..|es| - 1]);
      if Enabled(t, before, e) { AvoidStep(t, before, e, b); }
    }
  }

  lemma InitialAvoids(c: Config, bad: set<Addr>)
    ensures AllAvoid(Initial(c), bad)
  {
  }

  /** In every run no delivery goes to a broker, except acknowledgements of HELLO. */
  lemma DeliveriesLeaveTheTree(t: Tree, es: seq<NetEvent>, e: NetEvent)
    requires t.Valid() && Enabled(t, NetRun(t, es), e)
    ensures var l := LocalEvent(t, NetRun(t, es), e);
            l.Some? ==>
              && l.value.0 in t.nodes && t.nodes[l.value.0].config.Valid()
              && var out := Step(t.nodes[l.value.0].config, NetRun(t, es).st[l.value.0], l.value.1).1.out;
                 OutAvoids(out, BrokerAddrs(t)) || Acknowledges(out)
  {
    hide NetStep, LocalEvent, Enabled, Tree.ValidNode, Sound, AllAvoid, Handle, CleanupExpired;
    var net := NetRun(t, es);
    OneBrokerSteps(t, net, e);
    AlwaysSound(t, es);
    SubscribersAreClients(t, net, e);
    var l := LocalEvent(t, net, e);
    if l.Some? && l.value.1.Receive? {
      var b, le := l.value.0, l.value.1;
      SubscribersAvoidBrokers(t, es, b);
      if le.m.kind == HELLO {
        HelloOut(t.nodes[b].config, net.st[b], le);
      } else {
        OutGoesOut(t.nodes[b].config, net.st[b], le, BrokerAddrs(t));
      }
    }
  }

  lemma HelloOut(c: Config, s: State, e: Event)
    requires c.Valid() && WellFormed(s) && e.Receive? && e.m.kind == HELLO
    ensures Acknowledges(Step(c, s, e).1.out)
  {
    hide Hull;
  }
}
