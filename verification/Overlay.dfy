/** The brokers of a tree and the messages between them: clients send, links deliver in any
    order or lose, brokers handle and clean up. Follows one publication through the tree. */
module Overlay {
  import opened Outcomes
  import opened BrokerModel
  import opened BrokerRuns
  import opened BrokerTree

  /** A message on a link; probe marks the publication that is followed. */
  datatype Packet = Packet(msg: Msg, probe: bool)

  datatype Net = Net(st: map<string, State>, flight: Hop -> seq<Packet>, wave: Wave)

  datatype NetEvent =
    | Client(b: string, m: Msg, from: Addr, who: string, now: int, probe: bool)
    | Arrive(hop: Hop, i: nat, who: string, now: int)
    | Lose(hop: Hop, i: nat)
    | Tick(b: string, now: int)

  /** Each broker with a parent opens with HELLO. */
  ghost function StartNet(t: Tree): Net
    requires t.Valid()
  {
    Net(map b | b in t.nodes :: Initial(t.nodes[b].config),
        h => if IsLink(t, h) && h.Up? then [Packet(HelloMsg(t.nodes[h.child].config), false)] else [],
        QUIET)
  }

  /** What clients send: no broker's message kinds and no broker's flags. */
  predicate ClientMsg(m: Msg) {
    && (m.kind == SUBSCRIBE || m.kind == PUBLISH || m.kind == HEARTBEAT || m.kind == OTHER)
    && !m.flags.fromChild && !m.flags.fromParent
  }

  predicate IsBrokerAddr(t: Tree, a: Addr) {
    exists b :: b in t.nodes && t.nodes[b].addr == a
  }

  ghost predicate States(t: Tree, net: Net) {
    net.st.Keys == t.nodes.Keys && forall b :: b in net.st ==> WellFormed(net.st[b])
  }

  predicate Enabled(t: Tree, net: Net, e: NetEvent)
    requires net.st.Keys == t.nodes.Keys
  {
    match e
    case Client(b, m, from, who, _, probe) =>
      && b in t.nodes && ClientMsg(m) && !IsBrokerAddr(t, from) && IsLookup(net.st[b].children, from, who)
      && (probe ==> m.kind == PUBLISH && net.wave == QUIET)
    case Arrive(h, i, who, _) =>
      && IsLink(t, h) && i < |net.flight(h)| && Sender(t, h) in t.nodes && Receiver(t, h) in t.nodes
      && IsLookup(net.st[Receiver(t, h)].children, t.nodes[Sender(t, h)].addr, who)
    case Lose(h, i) => i < |net.flight(h)|
    case Tick(b, _) => b in t.nodes
  }

  function Without<T>(s: seq<T>, i: nat): seq<T> {
    if i < |s| then s[..i] + s[i + 1..] else s
  }

  function Packets(msgs: seq<Msg>, probe: bool): seq<Packet> {
    seq(|msgs|, i requires 0 <= i < |msgs| => Packet(msgs[i], probe))
  }

  /** What one broker's effects put on a link. */
  function Emitted(t: Tree, b: string, fx: Effects, probe: bool, h: Hop): seq<Packet> {
    if !IsLink(t, h) || Sender(t, h) != b then []
    else if h.Up? then Packets(fx.up, probe)
    else if h.child in fx.down then [Packet(fx.down[h.child], probe)] else []
  }

  /** The links used, in some order. */
  ghost function Used(b: string, fx: Effects): seq<Hop> {
    (if fx.up == [] then [] else [Up(b)]) + Listing(fx.down.Keys)
  }

  ghost function Listing(s: set<string>): (r: seq<Hop>)
    ensures Distinct(r) && (forall h :: h in r <==> h.Down? && h.child in s)
  {
    if s == {} then [] else var x :| x in s; [Down(x)] + Listing(s - {x})
  }

  ghost function Handled(t: Tree, net: Net, b: string, m: Msg, from: Addr, who: string, now: int): (State, Effects)
    requires t.Valid() && States(t, net) && b in t.nodes
  {
    assert t.ValidNode(b);
    Handle(t.nodes[b].config, net.st[b], m, from, who, now)
  }

  /** The net once broker b has handled a message taken off the links. */
  ghost function After(t: Tree, st: map<string, State>, flight: Hop -> seq<Packet>, wave: Wave, b: string,
                    r: (State, Effects), probe: bool): Net {
    Net(st[b := r.0], h => flight(h) + Emitted(t, b, r.1, probe, h), wave)
  }

  lemma AfterState(t: Tree, st: map<string, State>, flight: Hop -> seq<Packet>, wave: Wave, b: string,
                    r: (State, Effects), probe: bool)
    ensures After(t, st, flight, wave, b, r, probe).st == st[b := r.0]
  {
  }

  ghost function Taken(flight: Hop -> seq<Packet>, h: Hop, i: nat): Hop -> seq<Packet> {
    k => if k == h then Without(flight(k), i) else flight(k)
  }

  ghost function NetStep(t: Tree, net: Net, e: NetEvent): Net
    requires t.Valid() && States(t, net) && Enabled(t, net, e)
  {
    match e
    case Client(b, m, from, who, now, probe) =>
      var r := Handled(t, net, b, m, from, who, now);
      After(t, net.st, net.flight, if probe then Started(b, Used(b, r.1)) else net.wave, b, r, probe)
    case Arrive(h, i, who, now) =>
      var b, p := Receiver(t, h), net.flight(h)[i];
      var r := Handled(t, net, b, p.msg, t.nodes[Sender(t, h)].addr, who, now);
      var wave := if p.probe then Passed(net.wave, h, b, Used(b, r.1)) else net.wave;
      After(t, net.st, Taken(net.flight, h, i), wave, b, r, p.probe)
    case Lose(h, i) => net.(flight := Taken(net.flight, h, i))
    case Tick(b, now) => net.(st := net.st[b := CleanupExpired(net.st[b], now)])
  }

  lemma ConfigIsValid(t: Tree, b: string)
    requires t.Valid() && b in t.nodes
    ensures t.nodes[b].config.Valid()
  {
    assert t.ValidNode(b);
  }

  lemma StepStates(t: Tree, net: Net, e: NetEvent)
    requires t.Valid() && States(t, net) && Enabled(t, net, e)
    ensures States(t, NetStep(t, net, e))
  {
    hide Handle, WellFormed, IsLookup, ClientMsg, CleanupExpired;
    match e {
      case Client(b, m, from, who, now, probe) =>
        assert t.ValidNode(b);
        HandleWellFormed(t.nodes[b].config, net.st[b], m, from, who, now);
      case Arrive(h, i, who, now) =>
        var b := Receiver(t, h);
        assert t.ValidNode(b);
        HandleWellFormed(t.nodes[b].config, net.st[b], net.flight(h)[i].msg, t.nodes[Sender(t, h)].addr, who, now);
      case Lose(h, i) =>
      case Tick(b, now) => CleanupWellFormed(net.st[b], now);
    }
  }

  /** The net after a run from the start; an event that is not enabled does nothing. */
  ghost function NetRun(t: Tree, es: seq<NetEvent>): (net: Net)
    requires t.Valid()
    ensures States(t, net)
  {
    if es == [] then StartNet(t) else
      var before, e := NetRun(t, es[..|es| - 1]), es[|es| - 1];
      if Enabled(t, before, e) then StepStates(t, before, e); NetStep(t, before, e) else before
  }

  lemma EmptyRun(t: Tree)
    requires t.Valid()
    ensures NetRun(t, []) == StartNet(t)
  {
  }

  lemma NetRunOneMore(t: Tree, es: seq<NetEvent>, e: NetEvent)
    requires t.Valid() && Enabled(t, NetRun(t, es), e)
    ensures NetRun(t, es + [e]) == NetStep(t, NetRun(t, es), e)
  {
    assert (es + [e])[..|es|] == es;
    hide NetStep, Enabled, Tree.Valid;
  }

  // ---------- what brokers put on links ----------

  /** The only messages a broker sends to its parent. */
  predicate FromBelow(c: Config, m: Msg) {
    match m.kind
    case PUBLISH => m.flags == FROM_CHILD
    case SUBSCRIBE => m.flags == FROM_CHILD && m.name.Some?
    case REGION_UPDATE => m.name == Some(c.id) && m.region.Some?
    case HELLO => m == HelloMsg(c)
    case _ => false
  }

  predicate FromAbove(m: Msg) {
    m.kind == PUBLISH && m.flags == FROM_PARENT
  }

  predicate AllFromBelow(c: Config, msgs: seq<Msg>) {
    forall i :: 0 <= i < |msgs| ==> FromBelow(c, msgs[i]) && msgs[i].kind != HELLO
  }

  predicate AllFromAbove(msgs: map<string, Msg>) {
    forall u :: u in msgs ==> FromAbove(msgs[u])
  }

  lemma SubscribeEffects(c: Config, s: State, m: Msg, from: Addr, who: string, now: int)
    ensures var fx := HandleSubscribe(c, s, m, from, who, now).1;
            AllFromBelow(c, fx.up) && fx.down == map[]
  {
    hide SubscribeFromChild, SubscribeFromClient, SubCounted, ExtendRegion, SubKey, Registered;
    if m.name.Some? {
      FromChildFrame(c, s, m.name.value, who);
      FromClientFrame(c, s, m, from, now);
    }
  }

  lemma PublishEffects(c: Config, s: State, m: Msg, from: Addr, who: string, now: int)
    requires c.Valid() && WellFormed(s)
    ensures var fx := HandlePublish(c, s, m, from, who, now).1;
            && AllFromBelow(c, fx.up) && AllFromAbove(fx.down)
            && |fx.up| <= 1 && (m.flags.fromParent || !c.hasParent ==> fx.up == [])
            && fx.down.Keys <= s.children.Keys
            && (FromId(c, m, from, who) !in fx.down || m.name.None?)
  {
    hide PublishLocal, DownChildren, CachePut, PublishStats, BrakeAllows, BrakeWindows, WantsCloser, FromId, PubKey;
  }

  lemma HandleEffects(c: Config, s: State, m: Msg, from: Addr, who: string, now: int)
    requires c.Valid() && WellFormed(s)
    ensures var fx := Handle(c, s, m, from, who, now).1;
            AllFromBelow(c, fx.up) && AllFromAbove(fx.down)
  {
    hide HandleSubscribe, HandlePublish, Hull;
    SubscribeEffects(c, s, m, from, who, now);
    PublishEffects(c, s, m, from, who, now);
  }
}
