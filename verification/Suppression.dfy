/** One service keeps another from its subscribers: a run of two brokers in which nothing is
    lost or braked, and a subscriber never hears of the only publication on its service. */
module Suppression {
  import opened Outcomes
  import opened Geo
  import opened BrokerModel
  import opened BrokerRuns
  import opened BrakeRate
  import opened ClosestFilter
  import opened Regions
  import opened QuadrantFilter
  import opened BrokerTree
  import opened Overlay
  import opened OverlayRouting

  // ---------- the messages ----------

  function Announce(child: string, at: Point, service: string, from: Addr, now: int): Event {
    Receive(Msg(SUBSCRIBE, Some(service), Some(at), FROM_CHILD, None, None, None, []), from, child, now)
  }

  function Publication(service: string, p: Point, payload: seq<int>): Msg {
    Msg(PUBLISH, Some(service), Some(p), NO_FLAGS, None, None, None, payload)
  }

  function Publishes(service: string, p: Point, payload: seq<int>, client: Addr, now: int): Event {
    Receive(Publication(service, p, payload), client, "", now)
  }

  // ---------- one broker ----------

  /** A child has said HELLO and announced both services. */
  function Introduced(child: string, at: Point, a: string, b: string, from: Addr, now: int): seq<Event> {
    [HelloAt(child, at, from, now), Announce(child, at, a, from, now), Announce(child, at, b, from, now)]
  }

  /** The child is known at its place, active for some services, and nothing was considered for it. */
  ghost predicate Listening(s: State, c: Config, child: string, at: Point, from: Addr, services: set<string>) {
    && s.children.Keys == {child} && s.children[child].region == PointRegion(at) && s.children[child].addr == from
    && s.children[child].closestQuad == [c.numbers.max, c.numbers.max, c.numbers.max, c.numbers.max]
    && (forall k :: k in services ==> child in Lookup(s.childActive, k, {}))
  }

  lemma HelloListens(c: Config, child: string, at: Point, from: Addr, now: int)
    requires c.Valid()
    ensures Listening(Step(c, Initial(c), HelloAt(child, at, from, now)).0, c, child, at, from, {})
  {
    hide Hull;
  }

  lemma AnnounceListens(c: Config, s: State, child: string, at: Point, services: set<string>, k: string, from: Addr,
                        now: int)
    requires c.Valid() && WellFormed(s) && Listening(s, c, child, at, from, services) && child != ""
    ensures Listening(Step(c, s, Announce(child, at, k, from, now)).0, c, child, at, from, services + {k})
  {
    FromChildFrame(c, s, k, child);
    hide SubscribeFromChild, SubCounted, Announcement;
  }

  lemma IntroducedListens(c: Config, child: string, at: Point, a: string, b: string, from: Addr, now: int)
    requires c.Valid() && child != ""
    ensures Listening(Run(c, Introduced(child, at, a, b, from, now)), c, child, at, from, {a, b})
  {
    var none: seq<Event> := [];
    var hello := HelloAt(child, at, from, now);
    var first, second := Announce(child, at, a, from, now), Announce(child, at, b, from, now);
    assert Run(c, none) == Initial(c);
    RunOneMore(c, none, hello);
    RunOneMore(c, [hello], first);
    RunOneMore(c, [hello, first], second);
    assert none + [hello] == [hello] && [hello] + [first] == [hello, first];
    assert [hello, first] + [second] == [hello, first, second];
    hide Run, Step, Listening;
    HelloListens(c, child, at, from, now);
    AnnounceListens(c, Run(c, [hello]), child, at, {}, a, from, now);
    AnnounceListens(c, Run(c, [hello, first]), child, at, {} + {a}, b, from, now);
    assert {} + {a} + {b} == {a, b};
  }

  /** A first publication is considered for the child and, below the maximal distance, forwarded. */
  lemma FirstIsForwarded(c: Config, s: State, child: string, at: Point, from: Addr, services: set<string>, k: string,
                         p: Point, payload: seq<int>,
                         client: Addr, now: int)
    requires c.Valid() && WellFormed(s) && Listening(s, c, child, at, from, services) && k in services
    requires c.ClientAddrStr(client) != child && QuadrantDistance(c, s.children[child], p) < c.numbers.max
    ensures var e := Publishes(k, p, payload, client, now);
            Considers(c, s, e, child) && child in Step(c, s, e).1.down
  {
    var e := Publishes(k, p, payload, client, now);
    PublishKeeps(c, s, e, child, 0);
    hide Step, QuadrantDistance, Region.QuadrantOf;
  }

  /** For every broker, place and pair of services: after a child was introduced, a publication
      on b is forwarded to it; but it is not once a publication on a from the same place was
      handled first. */
  lemma OneServiceSuppressesAnother(c: Config, child: string, at: Point, a: string, b: string, p: Point, pa: seq<int>,
                                    pb: seq<int>,
                                    from: Addr, client: Addr, now: int)
    requires c.Valid() && child != "" && c.ClientAddrStr(client) != child
    requires var region := PointRegion(at);
             GeoDistance(c.numbers, p, region.QuadrantCenter(region.QuadrantOf(p))) < c.numbers.max
    ensures var es := Introduced(child, at, a, b, from, now);
            var ea, eb := Publishes(a, p, pa, client, now), Publishes(b, p, pb, client, now);
            && child in Step(c, Run(c, es), ea).1.down
            && child in Step(c, Run(c, es), eb).1.down
            && child !in Step(c, Run(c, es + [ea]), eb).1.down
  {
    var es := Introduced(child, at, a, b, from, now);
    var ea, eb := Publishes(a, p, pa, client, now), Publishes(b, p, pb, client, now);
    IntroducedListens(c, child, at, a, b, from, now);
    var s := Run(c, es);
    FirstIsForwarded(c, s, child, at, from, {a, b}, a, p, pa, client, now);
    FirstIsForwarded(c, s, child, at, from, {a, b}, b, p, pb, client, now);
    PublishRegion(c, s, ea);
    RunOneMore(c, es, ea);
    assert es + [ea] + [] == es + [ea];
    hide Run, Step, Considers, Introduced;
    OtherServicesAreSuppressed(c, es, ea, [], eb, child);
  }

  // ---------- two brokers ----------

  const CLIENT := Addr(1, 0)

  /** A root and one broker below it, both at the origin, that brake from the second event on. */
  function Pair(base: Config): Tree {
    var limited := base.(brakeLimit := 1);
    Tree(map["r" := Node(Placed(limited, "r", false, ORIGIN), None, Addr(0, 0)),
             "m" := Node(Placed(limited, "m", true, ORIGIN), Some("r"), Addr(0, 1))],
         map["r" := 0, "m" := 1])
  }

  ghost predicate IsPair(t: Tree) {
    && t.Valid() && t.nodes.Keys == {"r", "m"} && t.IsChild("m", "r") && t.nodes["r"].parent.None?
    && (forall b :: b in t.nodes ==> t.nodes[b].config.at == ORIGIN && t.nodes[b].config.brakeLimit == 1)
    && !IsBrokerAddr(t, CLIENT)
  }

  lemma PairIsValid(base: Config)
    requires base.Valid()
    ensures IsPair(Pair(base))
  {
    var t := Pair(base);
    assert t.ValidNode("r") && t.ValidNode("m");
  }

  ghost predicate OnLinks(flight: Hop -> seq<Packet>, up: seq<Msg>, down: seq<Msg>) {
    && flight(Up("m")) == Packets(up, false) && flight(Down("m")) == Packets(down, false)
    && forall h :: h != Up("m") && h != Down("m") ==> flight(h) == []
  }

  /** Both brokers went through these events, and these messages are on the two links. */
  ghost predicate PairAt(t: Tree, net: Net, top: seq<Event>, below: seq<Event>, up: seq<Msg>, down: seq<Msg>)
    requires IsPair(t)
  {
    && States(t, net) && OnLinks(net.flight, up, down)
    && t.nodes["r"].config.Valid() && t.nodes["m"].config.Valid()
    && net.st["r"] == Run(t.nodes["r"].config, top) && net.st["m"] == Run(t.nodes["m"].config, below)
  }

  lemma PacketsAppend(a: seq<Msg>, b: seq<Msg>)
    ensures Packets(a, false) + Packets(b, false) == Packets(a + b, false)
  {
  }

  function DownTo(fx: Effects): seq<Msg> {
    if "m" in fx.down then [fx.down["m"]] else []
  }

  lemma AfterOnLinks(t: Tree, st: map<string, State>, flight: Hop -> seq<Packet>, wave: Wave, b: string,
                     r: (State, Effects),
                     up: seq<Msg>, down: seq<Msg>)
    requires IsPair(t) && OnLinks(flight, up, down)
    ensures OnLinks(After(t, st, flight, wave, b, r, false).flight,
                    if b == "m" then up + r.1.up else up, if b == "r" then down + DownTo(r.1) else down)
  {
    hide Tree.Valid;
    assert forall u :: t.HasParent(u) ==> u == "m";
    PacketsAppend(up, r.1.up);
    PacketsAppend(down, DownTo(r.1));
    assert Packets(DownTo(r.1), false) == if "m" in r.1.down then [Packet(r.1.down["m"], false)] else [];
    assert forall q: seq<Packet> :: q + [] == q;
  }

  lemma ConfigsValid(t: Tree)
    requires IsPair(t)
    ensures t.nodes["r"].config.Valid() && t.nodes["m"].config.Valid()
    ensures t.nodes["r"].config.id == "r" && t.nodes["m"].config.id == "m"
    ensures !t.nodes["r"].config.hasParent && t.nodes["m"].config.hasParent
  {
    assert t.ValidNode("r") && t.ValidNode("m");
  }

  /** A client's message at one of the two brokers. */
  lemma ClientMoves(t: Tree, net: Net, top: seq<Event>, below: seq<Event>, up: seq<Msg>, down: seq<Msg>, b: string,
                    m: Msg, now: int)
    requires IsPair(t) && PairAt(t, net, top, below, up, down) && b in t.nodes
    requires Enabled(t, net, Client(b, m, CLIENT, "", now, false))
    ensures var e, next := Receive(m, CLIENT, "", now), NetStep(t, net, Client(b, m, CLIENT, "", now, false));
            if b == "r"
            then PairAt(t, next, top + [e], below, up, down + DownTo(Step(t.nodes["r"].config, net.st["r"], e).1))
            else PairAt(t, next, top, below + [e], up + Step(t.nodes["m"].config, net.st["m"], e).1.up, down)
  {
    var e := Receive(m, CLIENT, "", now);
    StepStates(t, net, Client(b, m, CLIENT, "", now, false));
    ConfigsValid(t);
    RunOneMore(t.nodes["r"].config, top, e);
    RunOneMore(t.nodes["m"].config, below, e);
    hide Handle, Run, OnLinks, Tree.Valid, IsLookup, IsBrokerAddr, WellFormed;
    AfterOnLinks(t, net.st, net.flight, net.wave, b, Handled(t, net, b, m, CLIENT, "", now), up, down);
  }

  lemma TakenOnLinks(flight: Hop -> seq<Packet>, up: seq<Msg>, down: seq<Msg>)
    requires OnLinks(flight, up, down)
    ensures up != [] ==> OnLinks(Taken(flight, Up("m"), 0), up[1..], down)
    ensures down != [] ==> OnLinks(Taken(flight, Down("m"), 0), up, down[1..])
  {
    var u, d := Packets(up, false), Packets(down, false);
    if up != [] { assert u[..0] + u[1..] == Packets(up[1..], false); }
    if down != [] { assert d[..0] + d[1..] == Packets(down[1..], false); }
  }

  /** The first message on one of the two links arrives. */
  lemma LinkMoves(t: Tree, net: Net, top: seq<Event>, below: seq<Event>, up: seq<Msg>, down: seq<Msg>, h: Hop,
                  who: string, now: int)
    requires IsPair(t) && PairAt(t, net, top, below, up, down) && Enabled(t, net, Arrive(h, 0, who, now))
    requires h == Up("m") || h == Down("m")
    ensures (h.Up? ==> up != []) && (h.Down? ==> down != [])
    ensures var next := NetStep(t, net, Arrive(h, 0, who, now));
            if h.Up? then
              var e := Receive(up[0], t.nodes["m"].addr, who, now);
              PairAt(t, next, top + [e], below, up[1..], down + DownTo(Step(t.nodes["r"].config, net.st["r"], e).1))
            else
              var e := Receive(down[0], t.nodes["r"].addr, who, now);
              PairAt(t, next, top, below + [e], up + Step(t.nodes["m"].config, net.st["m"], e).1.up, down[1..])
  {
    var x, from, p := Receiver(t, h), t.nodes[Sender(t, h)].addr, net.flight(h)[0];
    StepStates(t, net, Arrive(h, 0, who, now));
    ConfigsValid(t);
    assert p.msg == if h.Up? then up[0] else down[0];
    RunOneMore(t.nodes["r"].config, top, Receive(p.msg, from, who, now));
    RunOneMore(t.nodes["m"].config, below, Receive(p.msg, from, who, now));
    TakenOnLinks(net.flight, up, down);
    var r := Handled(t, net, x, p.msg, from, who, now);
    hide Handle, Run, Tree.Valid, IsLookup, IsBrokerAddr, WellFormed, Taken, After;
    if h.Up? {
      AfterOnLinks(t, net.st, Taken(net.flight, h, 0), net.wave, x, r, up[1..], down);
    } else {
      AfterOnLinks(t, net.st, Taken(net.flight, h, 0), net.wave, x, r, up, down[1..]);
    }
    AfterState(t, net.st, Taken(net.flight, h, 0), net.wave, x, r, false);
    hide OnLinks;
  }

  // ---------- what the two brokers do ----------

  predicate Unbraked(s: State) {
    s.stats.brakedUp == 0 && s.stats.brakedLocal == 0
  }

  /** The root braked nothing and has no subscribers. */
  predicate CalmTop(c: Config, s: State) {
    !c.hasParent && s.subs == map[] && Unbraked(s)
  }

  predicate IsTopEvent(e: Event) {
    e.Receive? && (e.m.kind == HELLO || e.m.kind == PUBLISH || (e.m.kind == SUBSCRIBE && e.m.flags.fromChild))
  }

  /** What a publication counts as braked, and what it does to the subscribers. */
  lemma PublishMarks(c: Config, s: State, m: Msg, from: Addr, who: string, now: int)
    requires c.Valid() && WellFormed(s) && m.name.Some?
    ensures var t := HandlePublish(c, s, m, from, who, now).0;
            var up := PublishUp(c, s.brakeUp, m, PubKey(c, m), now);
            var local := PublishLocal(c, s.brakeLocal, s.subs, m, PubKey(c, m), now);
            && t.subs == local.subs && t.stats.brakedUp == s.stats.brakedUp + One(up.braked)
            && t.stats.brakedLocal == s.stats.brakedLocal + One(local.braked)
  {
    hide PublishUp, PublishLocal, DownTargets, DownChildren, DownSends, CachePut, PubKey, FromId;
  }

  lemma CalmPublish(c: Config, s: State, m: Msg, from: Addr, who: string, now: int)
    requires c.Valid() && WellFormed(s) && CalmTop(c, s)
    ensures CalmTop(c, HandlePublish(c, s, m, from, who, now).0)
  {
    if m.name.None? {
      PublishNameless(c, s, m, from, who, now);
    } else {
      PublishMarks(c, s, m, from, who, now);
    }
    hide HandlePublish, PubKey, BrakeAllows, BrakeWindows;
  }

  lemma CalmStep(c: Config, s: State, e: Event)
    requires c.Valid() && WellFormed(s) && CalmTop(c, s) && IsTopEvent(e)
    ensures CalmTop(c, Step(c, s, e).0)
  {
    hide HandlePublish, Hull, SubscribeFromChild;
    CalmPublish(c, s, e.m, e.from, e.who, e.now);
    if e.m.name.Some? { FromChildFrame(c, s, e.m.name.value, e.who); }
  }

  lemma {:induction false} CalmRun(c: Config, es: seq<Event>)
    requires c.Valid() && !c.hasParent && forall i :: 0 <= i < |es| ==> IsTopEvent(es[i])
    ensures CalmTop(c, Run(c, es))
  {
    hide Step, IsTopEvent;
    if es != [] {
      CalmRun(c, es[..|es| - 1]);
      CalmStep(c, Run(c, es[..|es| - 1]), es[|es| - 1]);
    }
  }

  /** What goes down carries the key and the parent's flag. */
  lemma SentDown(c: Config, s: State, m: Msg, from: Addr, who: string, now: int, child: string)
    requires c.Valid() && WellFormed(s) && m.name.Some? && m.blind.None?
    ensures var fx := HandlePublish(c, s, m, from, who, now).1;
            child in fx.down ==> fx.down[child] == Forwarded(m, m.name.value, FROM_PARENT)
  {
    hide PublishUp, PublishLocal, DownTargets, DownChildren, CachePut, PublishStats, FromId, Forwarded;
  }

  lemma NothingDown(c: Config, s: State, e: Event)
    requires c.Valid() && WellFormed(s) && e.Receive? && (e.m.kind == HELLO || e.m.kind == SUBSCRIBE)
    ensures Step(c, s, e).1.down == map[]
  {
    hide Hull, HandleSubscribe;
    SubscribeEffects(c, s, e.m, e.from, e.who, e.now);
  }

  /** The lower broker before the publication arrives: at its place, childless, nothing braked. */
  predicate CalmBelow(s: State, announced: set<string>) {
    && s.region == PointRegion(ORIGIN) && s.children == map[] && s.brakeLocal == map[] && s.otParent == announced
    && Unbraked(s)
  }

  lemma SubscribesBelow(c: Config, s: State, announced: set<string>, k: string, now: int)
    requires c.Valid() && WellFormed(s) && c.hasParent && c.at == ORIGIN && CalmBelow(s, announced) && k !in announced
    ensures var e := SubscriptionAt(k, ORIGIN, CLIENT, now);
            var (t, fx) := Step(c, s, e);
            && CalmBelow(t, announced + {k}) && fx.up == [SubscribeUp(c, k)]
            && GroupOf(t, k) == GroupOf(s, k) + [NewClient(e.m, CLIENT, c.numbers.max)]
            && forall other :: other != k ==> GroupOf(t, other) == GroupOf(s, other)
  {
    var e := SubscriptionAt(k, ORIGIN, CLIENT, now);
    FromClientFrame(c, s, e.m, CLIENT, now);
    assert Registered(c, s.cache, e.m, k, CLIENT) == NewClient(e.m, CLIENT, c.numbers.max);
    hide SubscribeFromClient, Registered, NewClient;
  }

  /** A publication from the parent, below: nothing goes up, nothing is braked. */
  lemma PublicationBelow(c: Config, s: State, announced: set<string>, m: Msg, from: Addr, now: int)
    requires c.Valid() && WellFormed(s) && CalmBelow(s, announced) && c.brakeLimit == 1
    requires m.kind == PUBLISH && m.name.Some? && m.flags == FROM_PARENT
    ensures var e := Receive(m, from, "", now);
            var (t, fx) := Step(c, s, e);
            && fx.up == [] && Unbraked(t)
            && forall other :: other != m.name.value ==> GroupOf(t, other) == GroupOf(s, other)
  {
    var e := Receive(m, from, "", now);
    var local := PublishLocal(c, s.brakeLocal, s.subs, m, m.name.value, now);
    PublishEffects(c, s, m, from, "", now);
    assert !local.braked by { hide DeliverClients, DeliverSends, PassesGate, CallsMatch; }
    PublishMarks(c, s, m, from, "", now);
    StepIsPublish(c, s, e);
    hide Step, PublishLocal;
    forall other | other != m.name.value ensures GroupOf(Step(c, s, e).0, other) == GroupOf(s, other) {
      GroupStep(c, s, e, other);
      OnlyItsKey(c, e, other);
    }
  }

  lemma OnlyItsKey(c: Config, e: Event, other: string)
    requires e.Receive? && e.m.kind == PUBLISH && e.m.name.Some? && e.m.flags == FROM_PARENT && other != e.m.name.value
    ensures !PublishesOn(c, e, other) && !Joins(c, e, other) && forall s: State :: !Erases(s, e, other)
  {
  }

  // ---------- the story, step by step ----------

  const HELLO_ARRIVES := Arrive(Up("m"), 0, "", 0)
  const ANNOUNCEMENT_ARRIVES := Arrive(Up("m"), 0, "m", 0)
  const PUBLICATION_ARRIVES := Arrive(Down("m"), 0, "", 0)

  function Joining(k: string): NetEvent {
    Client("m", SubscriptionAt(k, ORIGIN, CLIENT, 0).m, CLIENT, "", 0, false)
  }

  function Publishing(k: string, p: Point): NetEvent {
    Client("r", Publication(k, p, []), CLIENT, "", 0, false)
  }

  lemma StartsAt(t: Tree)
    requires IsPair(t)
    ensures PairAt(t, StartNet(t), [], [], [HelloMsg(t.nodes["m"].config)], [])
  {
    ConfigsValid(t);
    hide Tree.Valid;
    assert forall u :: t.HasParent(u) ==> u == "m";
    var none: seq<Msg> := [];
    assert Packets(none, false) == [];
    assert Packets([HelloMsg(t.nodes["m"].config)], false) == [Packet(HelloMsg(t.nodes["m"].config), false)];
  }

  /** A message for a broker without children arrives as from nobody it knows. */
  lemma ArrivesUnknown(t: Tree, net: Net, up: seq<Msg>, down: seq<Msg>, h: Hop)
    requires IsPair(t) && States(t, net) && OnLinks(net.flight, up, down) && (h == Up("m") || h == Down("m"))
    requires if h.Up? then up != [] && net.st["r"].children == map[] else down != [] && net.st["m"].children == map[]
    ensures Enabled(t, net, Arrive(h, 0, "", 0))
  {
    hide Tree.Valid, WellFormed;
  }

  lemma EmptyRunIsInitial(c: Config)
    requires c.Valid()
    ensures Run(c, []) == Initial(c) && Initial(c).children == map[]
  {
  }

  lemma HelloHappens(t: Tree, net: Net)
    requires IsPair(t) && PairAt(t, net, [], [], [HelloMsg(t.nodes["m"].config)], [])
    ensures Enabled(t, net, HELLO_ARRIVES)
    ensures PairAt(t, NetStep(t, net, HELLO_ARRIVES), [HelloAt("m", ORIGIN, t.nodes["m"].addr, 0)], [], [], [])
  {
    hide NetStep, Run, Step, Tree.Valid, OnLinks, WellFormed, Enabled, Initial, IsBrokerAddr;
    ConfigsValid(t);
    var c, hello := t.nodes["r"].config, HelloMsg(t.nodes["m"].config);
    var e := HelloAt("m", ORIGIN, t.nodes["m"].addr, 0);
    EmptyRunIsInitial(c);
    ArrivesUnknown(t, net, [hello], [], Up("m"));
    assert hello == e.m;
    NothingDown(c, net.st["r"], e);
    LinkMoves(t, net, [], [], [hello], [], Up("m"), "", 0);
    var none: seq<Msg>, start: seq<Event> := [], [];
    assert [hello][1..] == none && none + DownTo(Step(c, net.st["r"], e).1) == none && start + [e] == [e];
  }

  lemma JoiningHappens(t: Tree, net: Net, top: seq<Event>, below: seq<Event>, up: seq<Msg>, k: string,
                       announced: set<string>)
    requires IsPair(t) && PairAt(t, net, top, below, up, []) && CalmBelow(net.st["m"], announced) && k !in announced
    ensures Enabled(t, net, Joining(k))
    ensures var c, e, next := t.nodes["m"].config, SubscriptionAt(k, ORIGIN, CLIENT, 0), NetStep(t, net, Joining(k));
            && PairAt(t, next, top, below + [e], up + [SubscribeUp(c, k)], [])
            && CalmBelow(next.st["m"], announced + {k})
            && GroupOf(next.st["m"], k) == GroupOf(net.st["m"], k) + [NewClient(e.m, CLIENT, c.numbers.max)]
            && forall other :: other != k ==> GroupOf(next.st["m"], other) == GroupOf(net.st["m"], other)
  {
    ConfigsValid(t);
    var c, e := t.nodes["m"].config, SubscriptionAt(k, ORIGIN, CLIENT, 0);
    assert Enabled(t, net, Joining(k));
    SubscribesBelow(c, net.st["m"], announced, k, 0);
    ClientMoves(t, net, top, below, up, [], "m", e.m, 0);
    RunOneMore(c, below, e);
    hide NetStep, Run, Step, Tree.Valid, OnLinks, WellFormed, CalmBelow, GroupOf, NewClient;
  }

  lemma AnnouncementHappens(t: Tree, net: Net, top: seq<Event>, below: seq<Event>, up: seq<Msg>, k: string,
                            services: set<string>)
    requires IsPair(t) && PairAt(t, net, top, below, up, []) && up != [] && up[0] == SubscribeUp(t.nodes["m"].config, k)
    requires Listening(net.st["r"], t.nodes["r"].config, "m", ORIGIN, t.nodes["m"].addr, services)
    ensures Enabled(t, net, ANNOUNCEMENT_ARRIVES)
    ensures var e, next := Announce("m", ORIGIN, k, t.nodes["m"].addr, 0), NetStep(t, net, ANNOUNCEMENT_ARRIVES);
            && PairAt(t, next, top + [e], below, up[1..], []) && next.st["m"] == net.st["m"]
            && Listening(next.st["r"], t.nodes["r"].config, "m", ORIGIN, t.nodes["m"].addr, services + {k})
  {
    ConfigsValid(t);
    var c, e := t.nodes["r"].config, Announce("m", ORIGIN, k, t.nodes["m"].addr, 0);
    assert Enabled(t, net, ANNOUNCEMENT_ARRIVES);
    assert up[0] == e.m;
    NothingDown(c, net.st["r"], e);
    AnnounceListens(c, net.st["r"], "m", ORIGIN, services, k, t.nodes["m"].addr, 0);
    LinkMoves(t, net, top, below, up, [], Up("m"), "m", 0);
    RunOneMore(c, top, e);
    hide NetStep, Run, Step, Tree.Valid, OnLinks, WellFormed, Listening;
  }

  /** Clients of the root are recognised as such. */
  lemma ClientAtTop(t: Tree, net: Net, k: string, p: Point)
    requires IsPair(t) && States(t, net) && net.st["r"].children.Keys == {"m"}
    requires net.st["r"].children["m"].addr == t.nodes["m"].addr
    ensures Enabled(t, net, Publishing(k, p))
  {
    hide Tree.Valid, WellFormed;
  }

  lemma PublishingHappens(t: Tree, net: Net, top: seq<Event>, below: seq<Event>, down: seq<Msg>, k: string, p: Point)
    requires IsPair(t) && PairAt(t, net, top, below, [], down)
    requires net.st["r"].children.Keys == {"m"} && net.st["r"].children["m"].addr == t.nodes["m"].addr
    ensures Enabled(t, net, Publishing(k, p))
    ensures var c, e, next := t.nodes["r"].config, Publishes(k, p, [], CLIENT, 0), NetStep(t, net, Publishing(k, p));
            && PairAt(t, next, top + [e], below, [], down + DownTo(Step(c, net.st["r"], e).1))
            && next.st["m"] == net.st["m"]
            && next.st["r"].children.Keys == {"m"} && next.st["r"].children["m"].addr == t.nodes["m"].addr
  {
    ConfigsValid(t);
    var c, e := t.nodes["r"].config, Publishes(k, p, [], CLIENT, 0);
    ClientAtTop(t, net, k, p);
    PublishKeepsChildren(c, net.st["r"], e.m, CLIENT, "", 0);
    StepIsPublish(c, net.st["r"], e);
    ClientMoves(t, net, top, below, [], down, "r", e.m, 0);
    RunOneMore(c, top, e);
    hide NetStep, Run, Step, Tree.Valid, OnLinks, WellFormed, HandlePublish, DownTo;
  }

  lemma ArrivalHappens(t: Tree, net: Net, top: seq<Event>, below: seq<Event>, m: Msg, announced: set<string>)
    requires IsPair(t) && PairAt(t, net, top, below, [], [m]) && CalmBelow(net.st["m"], announced)
    requires m.kind == PUBLISH && m.name.Some? && m.flags == FROM_PARENT
    ensures Enabled(t, net, PUBLICATION_ARRIVES)
    ensures var next := NetStep(t, net, PUBLICATION_ARRIVES);
            && States(t, next) && OnLinks(next.flight, [], []) && next.st["r"] == net.st["r"] && Unbraked(next.st["m"])
            && forall other :: other != m.name.value ==> GroupOf(next.st["m"], other) == GroupOf(net.st["m"], other)
  {
    hide NetStep, Run, Step, Tree.Valid, OnLinks, WellFormed, GroupOf, Unbraked, Enabled, IsBrokerAddr;
    ConfigsValid(t);
    var c, e := t.nodes["m"].config, Receive(m, t.nodes["r"].addr, "", 0);
    ArrivesUnknown(t, net, [], [m], Down("m"));
    PublicationBelow(c, net.st["m"], announced, m, t.nodes["r"].addr, 0);
    LinkMoves(t, net, top, below, [], [m], Down("m"), "", 0);
    RunOneMore(c, below, e);
    var none: seq<Msg> := [];
    assert [m][1..] == none && none + Step(c, net.st["m"], e).1.up == none;
  }

  // ---------- the whole story ----------

  /** Every event of the run is enabled in its turn. */
  ghost predicate AllHappen(t: Tree, es: seq<NetEvent>)
    requires t.Valid()
  {
    es != [] ==> AllHappen(t, es[..|es| - 1]) && Enabled(t, NetRun(t, es[..|es| - 1]), es[|es| - 1])
  }

  lemma Happens(t: Tree, es: seq<NetEvent>, e: NetEvent)
    requires t.Valid() && AllHappen(t, es) && Enabled(t, NetRun(t, es), e)
    ensures NetRun(t, es + [e]) == NetStep(t, NetRun(t, es), e) && AllHappen(t, es + [e])
  {
    hide NetStep, NetRun, Enabled, Tree.Valid;
    NetRunOneMore(t, es, e);
    assert (es + [e])[..|es|] == es;
  }

  function Subscribed(a: string, b: string): seq<NetEvent> {
    [] + [HELLO_ARRIVES] + [Joining(a)] + [Joining(b)]
  }

  /** The lower broker said HELLO. */
  lemma HelloFirst(t: Tree, a: string, b: string)
    requires IsPair(t)
    ensures var net, one := NetRun(t, [] + [HELLO_ARRIVES]), [] + [HELLO_ARRIVES];
            && AllHappen(t, one) && PairAt(t, net, [HelloAt("m", ORIGIN, t.nodes["m"].addr, 0)], [], [], [])
            && CalmBelow(net.st["m"], {}) && GroupOf(net.st["m"], a) == [] && GroupOf(net.st["m"], b) == []
  {
    hide NetStep, Run, Step, Tree.Valid, OnLinks, WellFormed, Enabled, NetRun, StartNet, AllHappen, GroupOf, CalmBelow;
    var none: seq<NetEvent> := [];
    EmptyStory(t);
    StartsAt(t);
    HelloHappens(t, NetRun(t, none));
    Happens(t, none, HELLO_ARRIVES);
    BelowAtFirst(t, NetRun(t, none + [HELLO_ARRIVES]), a, b);
  }

  /** It has a subscriber for the first service, and none yet for the second. */
  lemma FirstJoins(t: Tree, a: string, b: string)
    requires IsPair(t) && a != b
    ensures var es := [] + [HELLO_ARRIVES] + [Joining(a)];
            && AllHappen(t, es)
            && PairAt(t, NetRun(t, es), [HelloAt("m", ORIGIN, t.nodes["m"].addr, 0)],
                      [SubscriptionAt(a, ORIGIN, CLIENT, 0)],
                      [SubscribeUp(t.nodes["m"].config, a)], [])
            && CalmBelow(NetRun(t, es).st["m"], {a}) && GroupOf(NetRun(t, es).st["m"], b) == []
  {
    hide NetStep, Run, Step, Tree.Valid, OnLinks, WellFormed, Enabled, NetRun, StartNet;
    hide AllHappen, NewClient, GroupOf, CalmBelow, HelloAt, SubscribeUp;
    HelloFirst(t, a, b);
    var one := [] + [HELLO_ARRIVES];
    JoiningHappens(t, NetRun(t, one), [HelloAt("m", ORIGIN, t.nodes["m"].addr, 0)], [], [], a, {});
    Happens(t, one, Joining(a));
    var join, sent := SubscriptionAt(a, ORIGIN, CLIENT, 0), SubscribeUp(t.nodes["m"].config, a);
    assert [] + [join] == [join] && [] + [sent] == [sent] && {} + {a} == {a};
  }

  /** The lower broker said HELLO and has a subscriber for each service. */
  lemma BothSubscribe(t: Tree, a: string, b: string)
    requires IsPair(t) && a != b
    ensures var net, cm, m := NetRun(t, Subscribed(a, b)), t.nodes["m"].config, t.nodes["m"].addr;
            && AllHappen(t, Subscribed(a, b))
            && PairAt(t, net, [HelloAt("m", ORIGIN, m, 0)],
                      [SubscriptionAt(a, ORIGIN, CLIENT, 0), SubscriptionAt(b, ORIGIN, CLIENT, 0)],
                      [SubscribeUp(cm, a), SubscribeUp(cm, b)], [])
            && CalmBelow(net.st["m"], {a, b})
            && GroupOf(net.st["m"], b) == [NewClient(SubscriptionAt(b, ORIGIN, CLIENT, 0).m, CLIENT, cm.numbers.max)]
  {
    hide NetStep, Run, Step, Tree.Valid, OnLinks, WellFormed, Enabled, NetRun, StartNet;
    hide AllHappen, NewClient, GroupOf, CalmBelow, HelloAt, SubscribeUp;
    FirstJoins(t, a, b);
    var two, cm := [] + [HELLO_ARRIVES] + [Joining(a)], t.nodes["m"].config;
    var joinA, joinB := SubscriptionAt(a, ORIGIN, CLIENT, 0), SubscriptionAt(b, ORIGIN, CLIENT, 0);
    var first, second := SubscribeUp(cm, a), SubscribeUp(cm, b);
    JoiningHappens(t, NetRun(t, two), [HelloAt("m", ORIGIN, t.nodes["m"].addr, 0)], [joinA], [first], b, {a});
    Happens(t, two, Joining(b));
    assert {a} + {b} == {a, b} && [joinA] + [joinB] == [joinA, joinB] && [first] + [second] == [first, second];
    var group: seq<GeoClient> := [];
    var cl := NewClient(joinB.m, CLIENT, cm.numbers.max);
    assert group + [cl] == [cl];
  }

  lemma EmptyStory(t: Tree)
    requires t.Valid()
    ensures AllHappen(t, []) && NetRun(t, []) == StartNet(t)
  {
    EmptyRun(t);
  }

  lemma BelowAtFirst(t: Tree, net: Net, a: string, b: string)
    requires IsPair(t) && States(t, net) && t.nodes["m"].config.Valid() && net.st["m"] == Run(t.nodes["m"].config, [])
    ensures CalmBelow(net.st["m"], {}) && GroupOf(net.st["m"], a) == [] && GroupOf(net.st["m"], b) == []
  {
    EmptyRunIsInitial(t.nodes["m"].config);
    hide Tree.Valid, WellFormed;
  }

  function Told(a: string, b: string): seq<NetEvent> {
    Subscribed(a, b) + [ANNOUNCEMENT_ARRIVES] + [ANNOUNCEMENT_ARRIVES]
  }

  /** The root has heard of both subscriptions, and nothing is in flight. */
  lemma BothAnnounced(t: Tree, a: string, b: string)
    requires IsPair(t) && a != b
    ensures var net, cm, m := NetRun(t, Told(a, b)), t.nodes["m"].config, t.nodes["m"].addr;
            && AllHappen(t, Told(a, b))
            && PairAt(t, net, Introduced("m", ORIGIN, a, b, m, 0),
                      [SubscriptionAt(a, ORIGIN, CLIENT, 0), SubscriptionAt(b, ORIGIN, CLIENT, 0)], [], [])
            && CalmBelow(net.st["m"], {a, b})
            && Listening(net.st["r"], t.nodes["r"].config, "m", ORIGIN, m, {a, b})
            && GroupOf(net.st["m"], b) == [NewClient(SubscriptionAt(b, ORIGIN, CLIENT, 0).m, CLIENT, cm.numbers.max)]
  {
    hide NetStep, Run, Step, Tree.Valid, OnLinks, WellFormed, Enabled, NetRun, StartNet, AllHappen, NewClient, GroupOf,
         CalmBelow, Subscribed, Listening;
    var m, cm := t.nodes["m"].addr, t.nodes["m"].config;
    var below := [SubscriptionAt(a, ORIGIN, CLIENT, 0), SubscriptionAt(b, ORIGIN, CLIENT, 0)];
    var hello := HelloAt("m", ORIGIN, m, 0);
    var three := Subscribed(a, b);
    BothSubscribe(t, a, b);
    HelloIsHeard(t, NetRun(t, three), m);
    AnnouncementHappens(t, NetRun(t, three), [hello], below, [SubscribeUp(cm, a), SubscribeUp(cm, b)], a, {});
    Happens(t, three, ANNOUNCEMENT_ARRIVES);
    var four := three + [ANNOUNCEMENT_ARRIVES];
    var first := Announce("m", ORIGIN, a, m, 0);
    assert [SubscribeUp(cm, a), SubscribeUp(cm, b)][1..] == [SubscribeUp(cm, b)];
    AnnouncementHappens(t, NetRun(t, four), [hello] + [first], below, [SubscribeUp(cm, b)], b, {} + {a});
    Happens(t, four, ANNOUNCEMENT_ARRIVES);
    assert [SubscribeUp(cm, b)][1..] == [];
    assert {} + {a} + {b} == {a, b};
    assert [hello] + [first] + [Announce("m", ORIGIN, b, m, 0)] == Introduced("m", ORIGIN, a, b, m, 0);
  }

  lemma HelloIsHeard(t: Tree, net: Net, m: Addr)
    requires IsPair(t) && t.nodes["r"].config.Valid() && "r" in net.st
    requires net.st["r"] == Run(t.nodes["r"].config, [HelloAt("m", ORIGIN, m, 0)])
    ensures Listening(net.st["r"], t.nodes["r"].config, "m", ORIGIN, m, {})
  {
    var c, hello := t.nodes["r"].config, HelloAt("m", ORIGIN, m, 0);
    var none: seq<Event> := [];
    EmptyRunIsInitial(c);
    RunOneMore(c, none, hello);
    assert none + [hello] == [hello];
    hide Run, Step, Tree.Valid, Listening;
    HelloListens(c, "m", ORIGIN, m, 0);
  }

  function Story(a: string, b: string, p: Point): seq<NetEvent> {
    Told(a, b) + [Publishing(a, p)] + [Publishing(b, p)] + [PUBLICATION_ARRIVES]
  }

  /** Nothing is in flight or was braked, and the only subscriber of the service, at the origin,
      is where it started. */
  ghost predicate NeverHeard(net: Net, b: string, max: real) {
    && (forall h :: net.flight(h) == []) && "r" in net.st && "m" in net.st
    && Unbraked(net.st["r"]) && Unbraked(net.st["m"])
    && |GroupOf(net.st["m"], b)| == 1
    && var cl := GroupOf(net.st["m"], b)[0]; cl.at == ORIGIN && cl.closest == max
  }

  /** What the root sends down for the two publications: the first, and not the second. */
  lemma OnlyFirstGoesDown(t: Tree, a: string, b: string, p: Point)
    requires IsPair(t) && t.nodes["r"].config.ClientAddrStr(CLIENT) != "m"
    requires GeoDistance(t.nodes["r"].config.numbers, p, ORIGIN) < t.nodes["r"].config.numbers.max
    ensures t.nodes["r"].config.Valid()
    ensures var c, top := t.nodes["r"].config, Introduced("m", ORIGIN, a, b, t.nodes["m"].addr, 0);
            var ea, eb := Publishes(a, p, [], CLIENT, 0), Publishes(b, p, [], CLIENT, 0);
            && DownTo(Step(c, Run(c, top), ea).1) == [Forwarded(ea.m, a, FROM_PARENT)]
            && DownTo(Step(c, Run(c, top + [ea]), eb).1) == []
            && CalmTop(c, Run(c, top + [ea] + [eb]))
  {
    ConfigsValid(t);
    hide Run, Step, HandlePublish, Tree.Valid, Forwarded, Introduced, IsTopEvent, CalmTop;
    var c, m := t.nodes["r"].config, t.nodes["m"].addr;
    var top := Introduced("m", ORIGIN, a, b, m, 0);
    var ea, eb := Publishes(a, p, [], CLIENT, 0), Publishes(b, p, [], CLIENT, 0);
    assert PointRegion(ORIGIN).QuadrantCenter(PointRegion(ORIGIN).QuadrantOf(p)) == ORIGIN;
    OneServiceSuppressesAnother(c, "m", ORIGIN, a, b, p, [], [], m, CLIENT, 0);
    SentDown(c, Run(c, top), ea.m, CLIENT, "", 0, "m");
    StepIsPublish(c, Run(c, top), ea);
    TopEvents(a, b, p, m);
    CalmRun(c, top + [ea] + [eb]);
  }

  lemma TopEvents(a: string, b: string, p: Point, m: Addr)
    ensures var ea, eb := Publishes(a, p, [], CLIENT, 0), Publishes(b, p, [], CLIENT, 0);
            var es := Introduced("m", ORIGIN, a, b, m, 0) + [ea] + [eb];
            forall i :: 0 <= i < |es| ==> IsTopEvent(es[i])
  {
  }

  /** The rest of the story, from the moment both subscriptions are known. */
  lemma PublishedInVain(t: Tree, a: string, b: string, p: Point)
    requires IsPair(t) && a != b && t.nodes["r"].config.ClientAddrStr(CLIENT) != "m"
    requires GeoDistance(t.nodes["r"].config.numbers, p, ORIGIN) < t.nodes["r"].config.numbers.max
    ensures AllHappen(t, Story(a, b, p))
    ensures NeverHeard(NetRun(t, Story(a, b, p)), b, t.nodes["m"].config.numbers.max)
  {
    hide NetStep, Run, Step, Tree.Valid, OnLinks, WellFormed, Enabled, NetRun, StartNet, AllHappen, NewClient, GroupOf,
         CalmBelow, Told, Introduced, Forwarded, DownTo, CalmTop, Unbraked;
    var m, c := t.nodes["m"].addr, t.nodes["r"].config;
    var top := Introduced("m", ORIGIN, a, b, m, 0);
    var below := [SubscriptionAt(a, ORIGIN, CLIENT, 0), SubscriptionAt(b, ORIGIN, CLIENT, 0)];
    var ea, eb := Publishes(a, p, [], CLIENT, 0), Publishes(b, p, [], CLIENT, 0);
    BothAnnounced(t, a, b);
    OnlyFirstGoesDown(t, a, b, p);
    var told := Told(a, b);
    PublishingHappens(t, NetRun(t, told), top, below, [], a, p);
    Happens(t, told, Publishing(a, p));
    var first := told + [Publishing(a, p)];
    var sent := Forwarded(ea.m, a, FROM_PARENT);
    assert [] + [sent] == [sent];
    PublishingHappens(t, NetRun(t, first), top + [ea], below, [sent], b, p);
    Happens(t, first, Publishing(b, p));
    var second := first + [Publishing(b, p)];
    assert [sent] + [] == [sent];
    ForwardedShape(ea.m, a);
    ArrivalHappens(t, NetRun(t, second), top + [ea] + [eb], below, sent, {a, b});
    Happens(t, second, PUBLICATION_ARRIVES);
    InVain(t, NetRun(t, second + [PUBLICATION_ARRIVES]), a, b, top + [ea] + [eb]);
  }

  lemma ForwardedShape(m: Msg, key: string)
    ensures var sent := Forwarded(m, key, FROM_PARENT);
            sent.kind == PUBLISH && sent.name == Some(key) && sent.flags == FROM_PARENT
  {
  }

  lemma InVain(t: Tree, net: Net, a: string, b: string, top: seq<Event>)
    requires IsPair(t) && States(t, net) && OnLinks(net.flight, [], []) && Unbraked(net.st["m"])
    requires t.nodes["r"].config.Valid()
    requires net.st["r"] == Run(t.nodes["r"].config, top) && CalmTop(t.nodes["r"].config, net.st["r"])
    requires GroupOf(net.st["m"], b)
             == [NewClient(SubscriptionAt(b, ORIGIN, CLIENT, 0).m, CLIENT, t.nodes["m"].config.numbers.max)]
    ensures NeverHeard(net, b, t.nodes["m"].config.numbers.max)
  {
    hide Run, Tree.Valid, WellFormed;
    forall h ensures net.flight(h) == [] {
      assert h != Up("m") && h != Down("m") ==> net.flight(h) == [];
    }
  }

  lemma PairNumbers(base: Config)
    requires base.Valid()
    ensures IsPair(Pair(base))
    ensures var c := Pair(base).nodes["r"].config;
            && c.numbers == base.numbers && c.ClientAddrStr(CLIENT) == base.ClientAddrStr(CLIENT)
            && Pair(base).nodes["m"].config.numbers == base.numbers
  {
    PairIsValid(base);
    hide Tree.Valid;
  }

  lemma StoryIsOrdered(a: string, b: string, p: Point)
    ensures AllOrdered(Story(a, b, p)) && Publishing(b, p) in Story(a, b, p)
  {
    assert Story(a, b, p)[6] == Publishing(b, p);
  }

  /** Across the tree a subscriber need not have the nearest publication of its service: over
      links that lose nothing, with nothing braked, a publication on another service from the
      same place, handled first, keeps the only publication on its own from ever reaching it. */
  lemma SuppressedAcrossTheTree(base: Config, a: string, b: string, p: Point) returns (t: Tree, es: seq<NetEvent>)
    requires base.Valid() && a != b && base.ClientAddrStr(CLIENT) != "m"
    requires GeoDistance(base.numbers, p, ORIGIN) < base.numbers.max
    ensures t.Valid() && AllOrdered(es) && AllHappen(t, es)
    ensures Publishing(b, p) in es
    ensures NeverHeard(NetRun(t, es), b, base.numbers.max)
  {
    hide NetRun, AllHappen, NeverHeard, Tree.Valid, Story, AllOrdered, Publishing, Pair, GeoDistance;
    t, es := Pair(base), Story(a, b, p);
    PairNumbers(base);
    StoryIsOrdered(a, b, p);
    PublishedInVain(t, a, b, p);
  }
}
