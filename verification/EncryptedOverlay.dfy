/** The encrypted tree of brokers simulates the plaintext tree on digests, message by message
    and over any links. */
module EncryptedOverlay {
  import opened Outcomes
  import opened BrokerModel
  import opened BrokerRuns
  import opened BrokerTree
  import opened Overlay
  import opened OverlayRuns
  import opened Encryption

  // ---------- what brokers pass on is honest ----------

  ghost predicate AllHonest(sc: Scheme, ms: seq<Msg>) {
    forall i :: 0 <= i < |ms| ==> Honest(sc, ms[i])
  }

  ghost predicate HonestEffects(sc: Scheme, fx: Effects) {
    AllHonest(sc, fx.up) && forall u :: u in fx.down ==> Honest(sc, fx.down[u])
  }

  lemma BelowIsHonest(c: Config, sc: Scheme, ms: seq<Msg>)
    requires AllFromBelow(c, ms) && forall i :: 0 <= i < |ms| ==> ms[i].kind != PUBLISH
    ensures AllHonest(sc, ms)
  {
    hide Sealed, SealedPair, SealedFor;
  }

  lemma PublishPassesOn(c: Config, sc: Scheme, s: State, m: Msg, from: Addr, who: string, now: int)
    requires Keyed(c, sc) && c.Valid() && WellFormed(s) && Honest(sc, m) && m.kind == PUBLISH
    ensures HonestEffects(sc, HandlePublish(c, s, m, from, who, now).1)
  {
    PlainNamed(sc, m);
    SameKey(c, sc, m);
    SameForward(c, sc, m, PubKey(c, m), FROM_CHILD);
    SameForward(c, sc, m, PubKey(c, m), FROM_PARENT);
    hide PublishLocal, DownTargets, DownChildren, CachePut, PubKey, FromId, PublishStats, BrakeAllows, BrakeWindows,
         Forwarded, Keyed, Honest, SealedFor;
  }

  lemma StepPassesOn(c: Config, sc: Scheme, s: State, e: Event)
    requires Keyed(c, sc) && c.Valid() && WellFormed(s) && (e.Receive? ==> Honest(sc, e.m))
    ensures HonestEffects(sc, Step(c, s, e).1)
  {
    hide HandlePublish, HandleSubscribe, Hull, Keyed, Sealed, SealedPair, SealedFor;
    if e.Receive? {
      match e.m.kind {
        case PUBLISH => PublishPassesOn(c, sc, s, e.m, e.from, e.who, e.now);
        case SUBSCRIBE =>
          SubscribeEffects(c, s, e.m, e.from, e.who, e.now);
          SubscribeSendsNoPublish(c, s, e.m, e.from, e.who, e.now);
          BelowIsHonest(c, sc, HandleSubscribe(c, s, e.m, e.from, e.who, e.now).1.up);
        case REGION_UPDATE =>
        case HELLO =>
        case HELLO_ACK =>
        case OTHER =>
        case HEARTBEAT =>
      }
    }
  }

  lemma SubscribeSendsNoPublish(c: Config, s: State, m: Msg, from: Addr, who: string, now: int)
    ensures var up := HandleSubscribe(c, s, m, from, who, now).1.up; forall i :: 0 <= i < |up| ==> up[i].kind != PUBLISH
  {
    hide SubscribeFromChild, SubscribeFromClient, SubCounted, ExtendRegion, SubKey, Registered;
    if m.name.Some? {
      FromChildFrame(c, s, m.name.value, who);
      FromClientFrame(c, s, m, from, now);
    }
  }

  // ---------- erasing a whole net ----------

  function PlainTree(t: Tree): Tree {
    Tree(map b | b in t.nodes :: t.nodes[b].(config := PlainConfig(t.nodes[b].config)), t.depth)
  }

  ghost predicate KeyedTree(t: Tree, sc: Scheme) {
    forall b :: b in t.nodes ==> Keyed(t.nodes[b].config, sc)
  }

  function PlainPackets(sc: Scheme, q: seq<Packet>): seq<Packet> {
    seq(|q|, i requires 0 <= i < |q| => Packet(PlainMsg(sc, q[i].msg), q[i].probe))
  }

  function PlainStates(sc: Scheme, st: map<string, State>): map<string, State> {
    map b | b in st :: PlainState(sc, st[b])
  }

  function PlainNetEvent(sc: Scheme, e: NetEvent): NetEvent {
    match e
    case Client(b, m, from, who, now, probe) => Client(b, PlainMsg(sc, m), from, who, now, probe)
    case _ => e
  }

  function PlainNetEvents(sc: Scheme, es: seq<NetEvent>): seq<NetEvent> {
    seq(|es|, i requires 0 <= i < |es| => PlainNetEvent(sc, es[i]))
  }

  ghost predicate HonestClients(sc: Scheme, es: seq<NetEvent>) {
    forall i :: 0 <= i < |es| && es[i].Client? ==> Honest(sc, es[i].m)
  }

  /** The same states and the same messages in flight, erased; the same spread. */
  ghost predicate Mirrors(sc: Scheme, net: Net, plain: Net) {
    && plain.st == PlainStates(sc, net.st) && plain.wave == net.wave
    && forall h :: plain.flight(h) == PlainPackets(sc, net.flight(h))
  }

  ghost predicate HonestQueue(sc: Scheme, q: seq<Packet>) {
    forall i :: 0 <= i < |q| ==> Honest(sc, q[i].msg)
  }

  ghost predicate HonestNet(sc: Scheme, net: Net) {
    && (forall b :: b in net.st ==> SealedState(sc, net.st[b]))
    && forall h :: HonestQueue(sc, net.flight(h))
  }

  lemma PlainTreeValid(t: Tree)
    requires t.Valid()
    ensures PlainTree(t).Valid()
  {
    var pt := PlainTree(t);
    forall b | b in pt.nodes ensures pt.ValidNode(b) { assert t.ValidNode(b); }
  }

  lemma SameEmitted(t: Tree, sc: Scheme, b: string, fx: Effects, probe: bool, h: Hop)
    ensures Emitted(PlainTree(t), b, PlainEffects(sc, fx), probe, h) == PlainPackets(sc, Emitted(t, b, fx, probe, h))
    ensures HonestEffects(sc, fx) ==> HonestQueue(sc, Emitted(t, b, fx, probe, h))
  {
    hide PlainMsg, Honest;
  }

  lemma SameUsed(sc: Scheme, b: string, fx: Effects)
    ensures Used(b, PlainEffects(sc, fx)) == Used(b, fx)
  {
    assert PlainDown(sc, fx.down).Keys == fx.down.Keys;
    hide Listing, PlainMsg;
  }

  lemma SameAppend(sc: Scheme, q: seq<Packet>, more: seq<Packet>)
    ensures PlainPackets(sc, q + more) == PlainPackets(sc, q) + PlainPackets(sc, more)
    ensures HonestQueue(sc, q) && HonestQueue(sc, more) ==> HonestQueue(sc, q + more)
  {
    hide PlainMsg, Honest;
    assert forall i :: 0 <= i < |q + more| ==> (q + more)[i] == if i < |q| then q[i] else more[i - |q|];
  }

  lemma SameWithout(sc: Scheme, q: seq<Packet>, i: nat)
    ensures PlainPackets(sc, Without(q, i)) == Without(PlainPackets(sc, q), i)
    ensures HonestQueue(sc, q) ==> HonestQueue(sc, Without(q, i))
  {
    hide PlainMsg, Honest;
    if i < |q| {
      SameAppend(sc, q[..i], q[i + 1..]);
      assert PlainPackets(sc, q[..i]) == PlainPackets(sc, q)[..i];
      assert PlainPackets(sc, q[i + 1..]) == PlainPackets(sc, q)[i + 1..];
    }
  }

  ghost predicate SameFlight(sc: Scheme, flight: Hop -> seq<Packet>, plain: Hop -> seq<Packet>) {
    forall h :: plain(h) == PlainPackets(sc, flight(h)) && HonestQueue(sc, flight(h))
  }

  lemma SameTaken(sc: Scheme, flight: Hop -> seq<Packet>, plain: Hop -> seq<Packet>, h: Hop, i: nat)
    requires SameFlight(sc, flight, plain)
    ensures SameFlight(sc, Taken(flight, h, i), Taken(plain, h, i))
  {
    hide PlainPackets, HonestQueue, Without;
    SameWithout(sc, flight(h), i);
  }

  /** Both nets after corresponding steps of the same broker. */
  lemma SameAfter(t: Tree, sc: Scheme, st: map<string, State>, flight: Hop -> seq<Packet>, plain: Hop -> seq<Packet>,
                  wave: Wave, b: string, r: (State, Effects), probe: bool)
    requires SameFlight(sc, flight, plain) && HonestEffects(sc, r.1)
    requires SealedState(sc, r.0) && forall x :: x in st ==> SealedState(sc, st[x])
    ensures var net := After(t, st, flight, wave, b, r, probe);
            var pnet := After(PlainTree(t), PlainStates(sc, st), plain, wave, b,
                (PlainState(sc, r.0), PlainEffects(sc, r.1)), probe);
            Mirrors(sc, net, pnet) && HonestNet(sc, net)
  {
    hide PlainPackets, HonestQueue, HonestEffects, PlainState, SealedState, PlainEffects, Emitted;
    forall h
      ensures plain(h) + Emitted(PlainTree(t), b, PlainEffects(sc, r.1), probe, h)
          == PlainPackets(sc, flight(h) + Emitted(t, b, r.1, probe, h))
      ensures HonestQueue(sc, flight(h) + Emitted(t, b, r.1, probe, h))
    {
      SameEmitted(t, sc, b, r.1, probe, h);
      SameAppend(sc, flight(h), Emitted(t, b, r.1, probe, h));
    }
  }

  lemma SameAddresses(t: Tree, a: Addr)
    ensures IsBrokerAddr(PlainTree(t), a) <==> IsBrokerAddr(t, a)
  {
    var pt := PlainTree(t);
    assert forall b :: b in t.nodes ==> b in pt.nodes && pt.nodes[b].addr == t.nodes[b].addr;
    assert forall b :: b in pt.nodes ==> b in t.nodes;
  }

  lemma SameTables(sc: Scheme, net: Net, plain: Net)
    requires Mirrors(sc, net, plain)
    ensures plain.st.Keys == net.st.Keys && (forall b :: b in net.st ==> plain.st[b].children == net.st[b].children)
    ensures forall h :: |plain.flight(h)| == |net.flight(h)|
  {
  }

  lemma SameEnabled(t: Tree, sc: Scheme, net: Net, plain: Net, e: NetEvent)
    requires t.Valid() && States(t, net) && Mirrors(sc, net, plain)
    ensures plain.st.Keys == PlainTree(t).nodes.Keys
    ensures Enabled(PlainTree(t), plain, PlainNetEvent(sc, e)) <==> Enabled(t, net, e)
  {
    hide IsLookup, IsBrokerAddr, Tree.Valid, Tree.ValidNode, PlainPackets, PlainStates, PlainMsg, ClientMsg, WellFormed;
    SameTables(sc, net, plain);
    hide Mirrors;
    match e {
      case Client(b, m, from, who, now, probe) =>
        SameClientMsg(sc, m);
        SameAddresses(t, from);
      case Arrive(h, i, who, now) => SameLink(t, h);
      case Lose(h, i) =>
      case Tick(b, now) =>
    }
  }

  lemma SameClientMsg(sc: Scheme, m: Msg)
    ensures (ClientMsg(PlainMsg(sc, m)) <==> ClientMsg(m)) && PlainMsg(sc, m).kind == m.kind
  {
  }

  lemma SameLink(t: Tree, h: Hop)
    ensures IsLink(PlainTree(t), h) <==> IsLink(t, h)
    ensures IsLink(t, h) ==> Sender(PlainTree(t), h) == Sender(t, h) && Receiver(PlainTree(t), h) == Receiver(t, h)
  {
  }

  /** A broker handling a message, encrypted and erased. */
  lemma SameHandled(t: Tree, sc: Scheme, net: Net, plain: Net, b: string, m: Msg, from: Addr, who: string, now: int)
    requires t.Valid() && PlainTree(t).Valid() && KeyedTree(t, sc) && States(t, net) && Mirrors(sc, net, plain)
             && HonestNet(sc, net)
    requires b in t.nodes && Honest(sc, m)
    ensures States(PlainTree(t), plain)
    ensures var r := Handled(t, net, b, m, from, who, now);
            && Handled(PlainTree(t), plain, b, PlainMsg(sc, m), from, who, now)
               == (PlainState(sc, r.0), PlainEffects(sc, r.1))
            && SealedState(sc, r.0) && HonestEffects(sc, r.1)
  {
    assert t.ValidNode(b);
    hide PlainState, PlainEffects, SealedState, HonestEffects, PlainMsg, Honest, Keyed, Handle, WellFormed,
         Tree.ValidNode;
    PlainStatesOk(t, sc, net, plain);
    SameStep(t.nodes[b].config, sc, net.st[b], Receive(m, from, who, now));
    StepPassesOn(t.nodes[b].config, sc, net.st[b], Receive(m, from, who, now));
  }

  lemma PlainStatesOk(t: Tree, sc: Scheme, net: Net, plain: Net)
    requires t.Valid() && States(t, net) && Mirrors(sc, net, plain)
    ensures States(PlainTree(t), plain)
  {
    hide WellFormed;
    forall b | b in net.st ensures WellFormed(PlainState(sc, net.st[b])) { SameWellFormed(sc, net.st[b]); }
  }

  ghost predicate Mirrored(t: Tree, sc: Scheme, net: Net, plain: Net)
    requires t.Valid()
  {
    States(t, net) && Mirrors(sc, net, plain) && HonestNet(sc, net)
  }

  lemma MirrorClient(t: Tree, sc: Scheme, net: Net, plain: Net, e: NetEvent)
    requires t.Valid() && PlainTree(t).Valid() && KeyedTree(t, sc) && Mirrored(t, sc, net, plain) && Enabled(t, net, e)
    requires e.Client? && Honest(sc, e.m)
    ensures States(PlainTree(t), plain) && Enabled(PlainTree(t), plain, PlainNetEvent(sc, e))
    ensures var net', plain' := NetStep(t, net, e), NetStep(PlainTree(t), plain, PlainNetEvent(sc, e));
            Mirrors(sc, net', plain') && HonestNet(sc, net')
  {
    SameEnabled(t, sc, net, plain, e);
    SameHandled(t, sc, net, plain, e.b, e.m, e.from, e.who, e.now);
    var r := Handled(t, net, e.b, e.m, e.from, e.who, e.now);
    SameUsed(sc, e.b, r.1);
    assert SameFlight(sc, net.flight, plain.flight);
    hide After, Handled, Enabled, PlainPackets, HonestQueue, HonestEffects, PlainState, PlainStates, SealedState,
         PlainEffects, Tree.Valid, PlainMsg, Used, Honest;
    SameAfter(t, sc, net.st, net.flight, plain.flight,
              if e.probe then Started(e.b, Used(e.b, r.1)) else net.wave, e.b, r, e.probe);
  }

  lemma ArriveHandled(t: Tree, sc: Scheme, net: Net, plain: Net, e: NetEvent)
    requires t.Valid() && PlainTree(t).Valid() && KeyedTree(t, sc) && Mirrored(t, sc, net, plain)
             && Enabled(t, net, e) && e.Arrive?
    ensures States(PlainTree(t), plain) && Enabled(PlainTree(t), plain, e) && PlainNetEvent(sc, e) == e
    ensures var b, from, p := Receiver(t, e.hop), t.nodes[Sender(t, e.hop)].addr, net.flight(e.hop)[e.i];
            var r := Handled(t, net, b, p.msg, from, e.who, e.now);
            && Receiver(PlainTree(t), e.hop) == b && PlainTree(t).nodes[Sender(PlainTree(t), e.hop)].addr == from
            && plain.flight(e.hop)[e.i] == Packet(PlainMsg(sc, p.msg), p.probe)
            && Handled(PlainTree(t), plain, b, PlainMsg(sc, p.msg), from, e.who, e.now)
                == (PlainState(sc, r.0), PlainEffects(sc, r.1))
            && SealedState(sc, r.0) && HonestEffects(sc, r.1)
  {
    hide PlainState, SealedState, PlainEffects, HonestEffects, PlainMsg, Honest, Tree.Valid, KeyedTree, Handled;
    SameEnabled(t, sc, net, plain, e);
    SameLink(t, e.hop);
    var p := net.flight(e.hop)[e.i];
    assert HonestQueue(sc, net.flight(e.hop));
    SameHandled(t, sc, net, plain, Receiver(t, e.hop), p.msg, t.nodes[Sender(t, e.hop)].addr, e.who, e.now);
  }

  lemma MirrorArrive(t: Tree, sc: Scheme, net: Net, plain: Net, e: NetEvent)
    requires t.Valid() && PlainTree(t).Valid() && KeyedTree(t, sc) && Mirrored(t, sc, net, plain)
             && Enabled(t, net, e) && e.Arrive?
    ensures States(PlainTree(t), plain) && Enabled(PlainTree(t), plain, PlainNetEvent(sc, e))
    ensures var net', plain' := NetStep(t, net, e), NetStep(PlainTree(t), plain, PlainNetEvent(sc, e));
            Mirrors(sc, net', plain') && HonestNet(sc, net')
  {
    hide After, Handled, PlainPackets, HonestQueue, HonestEffects, PlainState, PlainStates, SealedState, PlainEffects,
         Tree.Valid, PlainMsg, Used, Honest, Taken, KeyedTree, IsLookup, WellFormed;
    ArriveHandled(t, sc, net, plain, e);
    var h, b, p := e.hop, Receiver(t, e.hop), net.flight(e.hop)[e.i];
    var r := Handled(t, net, b, p.msg, t.nodes[Sender(t, h)].addr, e.who, e.now);
    SameUsed(sc, b, r.1);
    assert SameFlight(sc, net.flight, plain.flight);
    SameTaken(sc, net.flight, plain.flight, h, e.i);
    SameAfter(t, sc, net.st, Taken(net.flight, h, e.i), Taken(plain.flight, h, e.i),
              if p.probe then Passed(net.wave, h, b, Used(b, r.1)) else net.wave, b, r, p.probe);
  }

  lemma MirrorQuiet(t: Tree, sc: Scheme, net: Net, plain: Net, e: NetEvent)
    requires t.Valid() && PlainTree(t).Valid() && KeyedTree(t, sc) && Mirrored(t, sc, net, plain)
             && Enabled(t, net, e) && (e.Lose? || e.Tick?)
    ensures States(PlainTree(t), plain) && Enabled(PlainTree(t), plain, PlainNetEvent(sc, e))
    ensures var net', plain' := NetStep(t, net, e), NetStep(PlainTree(t), plain, PlainNetEvent(sc, e));
            Mirrors(sc, net', plain') && HonestNet(sc, net')
  {
    hide States, HonestQueue, PlainPackets, PlainState, SealedState, Enabled, Tree.Valid, CleanupExpired, Taken,
         PlainTree, KeyedTree;
    SameEnabled(t, sc, net, plain, e);
    PlainStatesOk(t, sc, net, plain);
    if e.Lose? {
      assert SameFlight(sc, net.flight, plain.flight);
      SameTaken(sc, net.flight, plain.flight, e.hop, e.i);
    } else {
      MirrorTick(t, sc, net, plain, e);
    }
  }

  lemma MirrorTick(t: Tree, sc: Scheme, net: Net, plain: Net, e: NetEvent)
    requires t.Valid() && PlainTree(t).Valid() && Mirrored(t, sc, net, plain) && Enabled(t, net, e) && e.Tick?
    requires States(PlainTree(t), plain) && Enabled(PlainTree(t), plain, e)
    ensures var net', plain' := NetStep(t, net, e), NetStep(PlainTree(t), plain, e);
            Mirrors(sc, net', plain') && HonestNet(sc, net')
  {
    hide HonestQueue, PlainPackets, PlainState, SealedState, Tree.Valid, CleanupExpired, PlainTree, WellFormed;
    SameCleanup(sc, net.st[e.b], e.now);
  }

  lemma StartMirrors(t: Tree, sc: Scheme)
    requires t.Valid() && PlainTree(t).Valid()
    ensures Mirrored(t, sc, StartNet(t), StartNet(PlainTree(t)))
  {
    var net, plain := StartNet(t), StartNet(PlainTree(t));
    forall b | b in t.nodes
      ensures PlainState(sc, Initial(t.nodes[b].config)) == Initial(PlainConfig(t.nodes[b].config))
      ensures SealedState(sc, Initial(t.nodes[b].config))
    {
      SameInitial(t.nodes[b].config, sc);
    }
    StartSameFlight(t, sc);
    hide Initial, PlainState, SealedState, Tree.Valid, Tree.ValidNode, HonestQueue, PlainPackets;
  }

  lemma StartSameFlight(t: Tree, sc: Scheme)
    requires t.Valid() && PlainTree(t).Valid()
    ensures SameFlight(sc, StartNet(t).flight, StartNet(PlainTree(t)).flight)
  {
    hide Initial, Tree.Valid, Tree.ValidNode;
    var net, plain := StartNet(t), StartNet(PlainTree(t));
    forall h ensures plain.flight(h) == PlainPackets(sc, net.flight(h)) && HonestQueue(sc, net.flight(h)) {
      SameLink(t, h);
      if IsLink(t, h) { SameHello(t.nodes[h.child].config, sc); }
    }
  }

  lemma SameHello(c: Config, sc: Scheme)
    ensures HelloMsg(PlainConfig(c)) == PlainMsg(sc, HelloMsg(c)) && Honest(sc, HelloMsg(c))
  {
  }

  /** Whatever the links lose or reorder, a run of the encrypted tree with honest clients is the
      plaintext run on digests: every broker's state and every message in flight are the
      plaintext ones with the blinded values erased, and the followed publication takes the
      same way. A name is hashed exactly once, on paths of any length. */
  lemma {:induction false} EncryptedTreeIsPlaintextTree(t: Tree, sc: Scheme, es: seq<NetEvent>)
    requires t.Valid() && KeyedTree(t, sc) && HonestClients(sc, es)
    ensures PlainTree(t).Valid()
    ensures Mirrored(t, sc, NetRun(t, es), NetRun(PlainTree(t), PlainNetEvents(sc, es)))
  {
    PlainTreeValid(t);
    hide NetStep, Enabled, PlainNetEvent, Mirrors, HonestNet, Tree.Valid, PlainTree, KeyedTree, Honest;
    if es == [] {
      StartMirrors(t, sc);
    } else {
      var before, e := es[..|es| - 1], es[|es| - 1];
      var pes := PlainNetEvents(sc, es);
      assert pes[..|pes| - 1] == PlainNetEvents(sc, before) && pes[|pes| - 1] == PlainNetEvent(sc, e);
      EncryptedTreeIsPlaintextTree(t, sc, before);
      var net, plain := NetRun(t, before), NetRun(PlainTree(t), PlainNetEvents(sc, before));
      SameEnabled(t, sc, net, plain, e);
      if Enabled(t, net, e) {
        if e.Client? { MirrorClient(t, sc, net, plain, e); }
        else if e.Arrive? { MirrorArrive(t, sc, net, plain, e); }
        else { MirrorQuiet(t, sc, net, plain, e); }
      }
    }
  }

  // ---------- deliveries ----------

  function PlainLocal(sc: Scheme, l: Option<(string, Event)>): Option<(string, Event)> {
    if l.None? then None else Some((l.value.0, PlainEvent(sc, l.value.1)))
  }

  /** Corresponding steps of the two nets are corresponding steps of the same broker. */
  lemma SameLocalEvent(t: Tree, sc: Scheme, net: Net, plain: Net, e: NetEvent)
    requires t.Valid() && PlainTree(t).Valid() && Mirrored(t, sc, net, plain) && Enabled(t, net, e)
    requires e.Client? ==> Honest(sc, e.m)
    ensures States(PlainTree(t), plain) && Enabled(PlainTree(t), plain, PlainNetEvent(sc, e))
    ensures LocalEvent(PlainTree(t), plain, PlainNetEvent(sc, e)) == PlainLocal(sc, LocalEvent(t, net, e))
    ensures var l := LocalEvent(t, net, e);
            l.Some? ==> l.value.0 in t.nodes && (l.value.1.Receive? ==> Honest(sc, l.value.1.m))
  {
    hide PlainMsg, Honest, Tree.Valid, WellFormed, IsLookup, ClientMsg, PlainState, SealedState;
    SameEnabled(t, sc, net, plain, e);
    PlainStatesOk(t, sc, net, plain);
    if e.Arrive? {
      SameLink(t, e.hop);
      assert HonestQueue(sc, net.flight(e.hop));
      assert plain.flight(e.hop) == PlainPackets(sc, net.flight(e.hop));
    }
  }

  /** After any run over any links, and for every next step: the broker that moves delivers to the
      same addresses in the same order in both trees, and sends the same to its parent and its
      children, erased. */
  lemma EncryptedTreeDeliversAlike(t: Tree, sc: Scheme, es: seq<NetEvent>, e: NetEvent)
    requires t.Valid() && KeyedTree(t, sc) && HonestClients(sc, es) && (e.Client? ==> Honest(sc, e.m))
    requires Enabled(t, NetRun(t, es), e)
    ensures PlainTree(t).Valid()
    ensures var plain, pe := NetRun(PlainTree(t), PlainNetEvents(sc, es)), PlainNetEvent(sc, e);
            && Enabled(PlainTree(t), plain, pe)
            && LocalEvent(PlainTree(t), plain, pe) == PlainLocal(sc, LocalEvent(t, NetRun(t, es), e))
    ensures var l := LocalEvent(t, NetRun(t, es), e);
            l.Some? ==>
              var (b, le) := l.value;
              && b in t.nodes && t.nodes[b].config.Valid() && PlainConfig(t.nodes[b].config).Valid()
              && var plain := NetRun(PlainTree(t), PlainNetEvents(sc, es)).st[b];
                 Step(PlainConfig(t.nodes[b].config), plain, PlainEvent(sc, le)).1
                 == PlainEffects(sc, Step(t.nodes[b].config, NetRun(t, es).st[b], le).1)
  {
    EncryptedTreeIsPlaintextTree(t, sc, es);
    var net, plain := NetRun(t, es), NetRun(PlainTree(t), PlainNetEvents(sc, es));
    hide NetRun, Step, Honest, LocalEvent, Enabled, PlainState, PlainEffects, SealedState, WellFormed, PlainEvent,
         Keyed, PlainTree;
    SameLocalEvent(t, sc, net, plain, e);
    var l := LocalEvent(t, net, e);
    if l.Some? {
      var b := l.value.0;
      assert t.ValidNode(b);
      SameStep(t.nodes[b].config, sc, net.st[b], l.value.1);
    }
  }
}
