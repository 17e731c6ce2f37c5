/** The broker object of src/broker/broker.cpp: its handlers update maps, queues and
    counters in place. Each is proved to do what BrokerModel says of it. */
module BrokerObject {
  import opened Outcomes
  import opened Geo
  import opened BrokerModel
  import opened NumberTheory
  import BlindedMatch

  lemma DownNone(c: Config, children: map<string, Child>, at: Point)
    requires AllQuads(children)
    ensures DownChildren(c, children, {}, at) == children
  {
  }

  /** Choosing one more child updates one entry of the children and one of the sends. */
  lemma DownOne(c: Config, children: map<string, Child>, m: Msg, key: string, chosen: set<string>, id: string,
                at: Point)
    requires AllQuads(children) && id in children && id !in chosen
    ensures DownChildren(c, children, chosen, at)[id] == children[id]
    ensures DownChildren(c, children, chosen + {id}, at)
            == DownChildren(c, children, chosen, at)[id := Noted(c, children[id], at)]
    ensures DownSends(m, key, chosen + {id}) == DownSends(m, key, chosen)[id := Forwarded(m, key, FROM_PARENT)]
    ensures |chosen + {id}| == |chosen| + 1
  {
  }

  /** The activity times once every key outside todo was looked up. */
  ghost function Touched(s: State, todo: set<string>): map<string, int> {
    map k | k in s.lastActive.Keys + (s.subs.Keys - todo) :: Lookup(s.lastActive, k, 0)
  }

  lemma TouchNone(s: State)
    ensures Touched(s, s.subs.Keys) == s.lastActive
    ensures forall now :: CleanupExpired(s, now).lastActive == Touched(s, {}) - Expired(s, now)
  {
    assert s.lastActive.Keys + (s.subs.Keys - {}) == s.lastActive.Keys + s.subs.Keys;
  }

  lemma TouchOne(s: State, todo: set<string>, name: string)
    requires todo <= s.subs.Keys && name in todo
    ensures name in Touched(s, todo) <==> name in s.lastActive
    ensures name in s.lastActive ==> Touched(s, todo)[name] == s.lastActive[name]
    ensures Touched(s, todo - {name}) == if name in s.lastActive then Touched(s, todo) else Touched(s, todo)[name := 0]
  {
  }

  /** The stages of handlePublish, put together. */
  lemma PublishAssembled(c: Config, s: State, m: Msg, from: Addr, who: string, now: int,
                         up: UpStep, targets: set<string>, local: LocalStep)
    requires c.Valid() && WellFormed(s) && m.name.Some?
    requires up == PublishUp(c, s.brakeUp, m, PubKey(c, m), now)
    requires targets == DownTargets(c, s.children, Lookup(s.childActive, PubKey(c, m), {}), FromId(c, m, from, who),
                                    PointOf(m))
    requires local == PublishLocal(c, s.brakeLocal, s.subs, m, PubKey(c, m), now)
    ensures HandlePublish(c, s, m, from, who, now)
            == (State(s.region, DownChildren(c, s.children, targets, PointOf(m)), local.subs,
                      CachePut(s.cache, PubKey(c, m), CachedPub(PointOf(m), m)), s.lastActive,
                      up.brakeUp, local.brakeLocal, s.childActive, s.otParent,
                      PublishStats(s.stats, up, targets, local)),
                Effects(up.sends, DownSends(m, PubKey(c, m), targets), local.out))
  {
  }

  function CountMatch(st: Stats, called: bool, hit: bool): Stats {
    st.(matchCalls := st.matchCalls + One(called), matchHits := st.matchHits + One(hit))
  }

  /** What deciding one more child adds to the targets decided. */
  lemma TargetStep(c: Config, children: map<string, Child>, active: set<string>, fromId: string, at: Point,
                   todo: set<string>, id: string)
    requires AllQuads(children) && id in todo && todo <= active
    ensures var all := DownTargets(c, children, active, fromId, at);
            && (id in all <==> id != fromId && id in children && WantsCloser(c, children[id], at))
            && all - (todo - {id}) == if id in all then (all - todo) + {id} else all - todo
  {
  }

  /** One name of the loop: look its time up, then possibly erase it. */
  lemma TouchStep(s: State, todo: set<string>, gone: set<string>, name: string)
    requires todo <= s.subs.Keys && name in todo && name !in gone
    ensures var a := Touched(s, todo) - gone;
            var b := if name in a then a else a[name := 0];
            && b == Touched(s, todo - {name}) - gone
            && b - {name} == Touched(s, todo - {name}) - (gone + {name})
            && name in b && b[name] == Lookup(s.lastActive, name, 0)
  {
    TouchOne(s, todo, name);
    hide Touched;
  }

  lemma ExpireStep(s: State, now: int, todo: set<string>, name: string)
    requires name in todo && todo <= s.subs.Keys
    ensures name in Expired(s, now) <==> now - Lookup(s.lastActive, name, 0) > TTL_SECONDS
    ensures Expired(s, now) - (todo - {name})
            == if name in Expired(s, now) then (Expired(s, now) - todo) + {name} else Expired(s, now) - todo
    ensures Expired(s, now) - s.subs.Keys == {}
  {
  }

  lemma MinusStep<V>(m: map<string, V>, gone: set<string>, name: string)
    ensures (m - gone) - {name} == m - (gone + {name})
  {
  }

  /** The erasing loop of cleanupExpired. */
  method CleanupLoop(ghost s: State, subs0: map<string, seq<GeoClient>>, active0: map<string, int>,
                     cache0: map<string, seq<CachedPub>>, up0: Windows, local0: Windows, now: int)
    returns (subs: map<string, seq<GeoClient>>, active: map<string, int>, cache: map<string, seq<CachedPub>>,
             up: Windows, local: Windows)
    requires s.subs == subs0 && s.lastActive == active0 && s.cache == cache0 && s.brakeUp == up0
    requires s.brakeLocal == local0
    ensures subs == subs0 - Expired(s, now) && cache == cache0 - Expired(s, now)
    ensures up == up0 - Expired(s, now) && local == local0 - Expired(s, now)
    ensures active == Touched(s, {}) - Expired(s, now)
  {
    TouchNone(s);
    subs, active, cache, up, local := subs0, active0, cache0, up0, local0;
    ghost var gone: set<string> := {};
    var todo := subs0.Keys;
    assert gone == Expired(s, now) - todo;
    hide Touched, Expired;
    while todo != {}
      invariant todo <= subs0.Keys && gone == Expired(s, now) - todo
      invariant subs == subs0 - gone && cache == cache0 - gone && up == up0 - gone && local == local0 - gone
      invariant active == Touched(s, todo) - gone
      decreases todo
    {
      var name :| name in todo;
      TouchStep(s, todo, gone, name);
      ExpireStep(s, now, todo, name);
      todo := todo - {name};
      if name !in active { active := active[name := 0]; }
      if now - active[name] > TTL_SECONDS {
        MinusStep(subs0, gone, name);
        MinusStep(cache0, gone, name);
        MinusStep(up0, gone, name);
        MinusStep(local0, gone, name);
        active := active - {name};
        cache := cache - {name};
        up := up - {name};
        local := local - {name};
        subs := subs - {name};
        gone := gone + {name};
      }
    }
    assert gone == Expired(s, now);
  }

  /** The forwarding loop: nearest distances are updated child by child. */
  method DownLoop(c: Config, children: map<string, Child>, active: set<string>, m: Msg, key: string, fromId: string)
    returns (kids: map<string, Child>, down: map<string, Msg>, count: nat, ghost targets: set<string>)
    requires AllQuads(children)
    ensures targets == DownTargets(c, children, active, fromId, PointOf(m))
    ensures kids == DownChildren(c, children, targets, PointOf(m))
    ensures down == DownSends(m, key, targets) && count == |targets|
  {
    var at := PointOf(m);
    ghost var all := DownTargets(c, children, active, fromId, at);
    var todo := active;
    kids, down, count, targets := children, map[], 0, {};
    DownNone(c, children, at);
    assert down == DownSends(m, key, targets);
    assert targets == all - todo;
    hide DownChildren, DownSends, DownTargets;
    while todo != {}
      invariant todo <= active && targets == all - todo
      invariant kids == DownChildren(c, children, targets, at)
      invariant down == DownSends(m, key, targets)
      invariant count == |targets|
      decreases todo
    {
      var id :| id in todo;
      TargetStep(c, children, active, fromId, at, todo, id);
      todo := todo - {id};
      if id != fromId && id in kids {
        DownOne(c, children, m, key, targets, id, at);
        var child := kids[id];
        var q := child.region.QuadrantOf(at);
        var dist := GeoDistance(c.numbers, at, child.region.QuadrantCenter(q));
        if dist < child.closestQuad[q] {
          kids := kids[id := child.(closestQuad := child.closestQuad[q := dist])];
          down := down[id := Forwarded(m, key, FROM_PARENT)];
          count := count + 1;
          targets := targets + {id};
        }
      }
    }
    assert all - todo == all;
  }

  /** The delivery loop over one group. */
  method DeliverLoop(numbers: Numbers, group: seq<GeoClient>, at: Point, m: Msg)
    returns (updated: seq<GeoClient>, out: seq<Delivery>)
    ensures updated == DeliverClients(numbers, group, at) && out == DeliverSends(numbers, group, at, m)
  {
    updated, out := [], [];
    for i := 0 to |group|
      invariant DeliverClients(numbers, group, at) == updated + DeliverClients(numbers, group[i..], at)
      invariant DeliverSends(numbers, group, at, m) == out + DeliverSends(numbers, group[i..], at, m)
    {
      var gc := group[i];
      ghost var rest := group[i..];
      assert rest[0] == gc && rest[1..] == group[i + 1..];
      var dist := GeoDistance(numbers, at, gc.at);
      if dist < gc.closest {
        assert DeliverSends(numbers, rest, at, m)
               == [Delivery(gc.addr, m)] + DeliverSends(numbers, group[i + 1..], at, m);
        out := out + [Delivery(gc.addr, m)];
        gc := gc.(closest := dist);
      } else {
        assert DeliverSends(numbers, rest, at, m) == DeliverSends(numbers, group[i + 1..], at, m);
      }
      assert DeliverClients(numbers, rest, at) == [gc] + DeliverClients(numbers, group[i + 1..], at);
      updated := updated + [gc];
    }
    assert group[|group|..] == [];
  }

  class DnsMulticastBroker {
    const c: Config

    var region: Region
    var children: map<string, Child>
    var subscribers: map<string, seq<GeoClient>>
    var pubCache: map<string, seq<CachedPub>>
    var lastActive: map<string, int>
    var brakeCountUp: Windows
    var brakeCountLocal: Windows
    var childActive: map<string, set<string>>
    var otParent: set<string>

    var stats: Stats

    ghost function AsState(): State
      reads this
    {
      State(region, children, subscribers, pubCache, lastActive, brakeCountUp, brakeCountLocal,
            childActive, otParent, stats)
    }

    ghost predicate Valid()
      reads this
    {
      c.Valid() && WellFormed(AsState())
    }

    constructor (config: Config)
      requires config.Valid()
      ensures c == config && Valid() && AsState() == Initial(config)
    {
      c := config;
      region := PointRegion(config.at);
      children, subscribers, pubCache, lastActive := map[], map[], map[], map[];
      brakeCountUp, brakeCountLocal, childActive, otParent := map[], map[], map[], {};
      stats := Stats(0, 0, 0, 0, 0, 0, 0, 0, 0);
    }

    method ExecuteMatch(bvalN: Blinded, bvalM1: Blinded, bvalM2: Blinded) returns (hit: bool)
      requires c.Valid() && c.heEnabled
      modifies this`stats
      ensures hit == BlindedMatch.ExecuteMatch(c.heN, c.heMu, bvalN, bvalM1, bvalM2)
      ensures stats == CountMatch(old(stats), true, hit)
    {
      stats := stats.(matchCalls := stats.matchCalls + 1);
      if bvalN.None? || bvalM1.None? || bvalM2.None? { return false; }
      var n, nSq := c.heN, Square(c.heN);
      var y1 := (bvalN.value * bvalM1.value) % nSq;
      var lY1 := BlindedMatch.TruncatedDiv(y1 - 1, n);
      var diff1 := (lY1 * c.heMu) % n;
      if diff1 >= n / 2 { return false; }
      var y2 := (bvalN.value * bvalM2.value) % nSq;
      var lY2 := BlindedMatch.TruncatedDiv(y2 - 1, n);
      var diff2 := (lY2 * c.heMu) % n;
      if diff2 <= n / 2 { return false; }
      stats := stats.(matchHits := stats.matchHits + 1);
      return true;
    }

    method BrakeAllows(dir: BrakeDir, service: string, at: Point, now: int) returns (ok: bool)
      modifies this`brakeCountUp, this`brakeCountLocal, this`stats
      ensures var before := if dir.UpwardBrake? then old(brakeCountUp) else old(brakeCountLocal);
              ok == BrokerModel.BrakeAllows(c, before, service, at, now)
              && (if dir.UpwardBrake?
                  then && brakeCountUp == BrakeWindows(c, before, service, at, now)
                       && brakeCountLocal == old(brakeCountLocal)
                       && stats == old(stats).(brakedUp := old(stats).brakedUp + One(!ok))
                  else brakeCountLocal == BrakeWindows(c, before, service, at, now) && brakeCountUp == old(brakeCountUp)
                       && stats == old(stats).(brakedLocal := old(stats).brakedLocal + One(!ok)))
    {
      var q := GetQuadrant(at);
      var windows := if dir.UpwardBrake? then brakeCountUp else brakeCountLocal;
      var queue := WindowOf(windows, service, q);
      while queue != [] && now - queue[0] > c.brakeWindow
        invariant Prune(queue, now, c.brakeWindow) == Prune(WindowOf(windows, service, q), now, c.brakeWindow)
        decreases |queue|
      {
        queue := queue[1..];
      }
      ok := |queue| < c.brakeLimit;
      queue := queue + if ok then [now] else [];
      windows := windows[service := Lookup(windows, service, map[])[q := queue]];
      if dir.UpwardBrake? {
        brakeCountUp := windows;
        if !ok { stats := stats.(brakedUp := stats.brakedUp + 1); }
      } else {
        brakeCountLocal := windows;
        if !ok { stats := stats.(brakedLocal := stats.brakedLocal + 1); }
      }
    }

    /** Visiting the children in any order ends with the least region covering the
        broker's own point and every child. */
    method UpdateMyRegion()
      modifies this`region
      ensures region == Hull(c, children)
    {
      region := PointRegion(c.at);
      var todo := children.Keys;
      ghost var done: map<string, Child> := map[];
      while todo != {}
        invariant todo <= children.Keys && done.Keys == children.Keys - todo
        invariant forall id :: id in done ==> done[id] == children[id]
        invariant IsHull(region, PointRegion(c.at), done)
        decreases todo
      {
        var id :| id in todo;
        HullAdd(region, PointRegion(c.at), done, id, children[id]);
        region := Merge(region, children[id].region);
        done := done[id := children[id]];
        todo := todo - {id};
      }
      assert done == children;
      HullUnique(region, Hull(c, children), PointRegion(c.at), children);
    }

    method FindChildByAddr(addr: Addr) returns (who: string)
      ensures IsLookup(children, addr, who)
    {
      var todo := children.Keys;
      while todo != {}
        invariant todo <= children.Keys
        invariant forall id :: id in children && id !in todo ==> children[id].addr != addr
        decreases todo
      {
        var id :| id in todo;
        if children[id].addr == addr { return id; }
        todo := todo - {id};
      }
      return "";
    }

    /** Announce a subscription to the parent, once. */
    method ForwardSubscribe(key: string) returns (up: seq<Msg>)
      modifies this`otParent
      ensures up == Announcement(c, old(otParent), key) && otParent == Announced(c, old(otParent), key)
    {
      up := [];
      if c.hasParent && key !in otParent {
        up := [SubscribeUp(c, key)];
        otParent := otParent + {key};
      }
    }

    /** The scan over the cache of a query. */
    method Nearest(pubs: seq<CachedPub>, at: Point) returns (best: Option<nat>, bestDist: real)
      ensures best == NearestCached(c.numbers, pubs, at, |pubs|)
      ensures bestDist == if best.Some? then GeoDistance(c.numbers, at, pubs[best.value].at) else c.numbers.max
    {
      best, bestDist := None, c.numbers.max;
      for i := 0 to |pubs|
        invariant best == NearestCached(c.numbers, pubs, at, i)
        invariant bestDist == if best.Some? then GeoDistance(c.numbers, at, pubs[best.value].at) else c.numbers.max
      {
        var d := GeoDistance(c.numbers, at, pubs[i].at);
        if d < bestDist { best, bestDist := Some(i), d; }
      }
    }

    /** A forwarded subscription: remember the child, tell the parent once. */
    method SubscribeChild(name: string, who: string) returns (fx: Effects)
      requires Valid()
      modifies this`childActive, this`otParent
      ensures var t := SubscribeFromChild(c, old(AsState()), name, who);
              childActive == t.0.childActive && otParent == t.0.otParent && fx == t.1
    {
      if who == "" { return NOTHING; }
      childActive := childActive[name := Lookup(childActive, name, {}) + {who}];
      var up := ForwardSubscribe(name);
      fx := Effects(up, map[], []);
    }

    /** A client's subscription: register it, grow the region, answer a query from the cache. */
    method SubscribeClient(m: Msg, from: Addr, now: int) returns (fx: Effects)
      requires Valid() && m.name.Some?
      modifies this`subscribers, this`lastActive, this`region, this`otParent
      ensures var t := SubscribeFromClient(c, old(AsState()), m, from, now);
              subscribers == t.0.subs && lastActive == t.0.lastActive && region == t.0.region
              && otParent == t.0.otParent && fx == t.1
    {
      var at := PointOf(m);
      var key := if m.blind.Some? && c.heEnabled then c.HashName(m.name.value) else m.name.value;
      var gc := NewClient(m, from, c.numbers.max);
      lastActive := lastActive[key := now];
      var oldRegion := region;
      region := Region(Min(region.minLat, at.lat), Max(region.maxLat, at.lat),
                       Min(region.minLon, at.lon), Max(region.maxLon, at.lon));
      var up := if c.hasParent && region != oldRegion then [RegionMsg(c, region)] else [];
      var out := [];
      if m.flags.queryMode {
        var pubs := Lookup(pubCache, key, []);
        var best, bestDist := Nearest(pubs, at);
        if best.Some? {
          out := [Delivery(from, pubs[best.value].raw)];
          gc := gc.(closest := bestDist);
        }
      }
      assert gc == Registered(c, pubCache, m, key, from);
      subscribers := subscribers[key := Lookup(subscribers, key, []) + [gc]];
      var subUp := ForwardSubscribe(key);
      fx := Effects(up + subUp, map[], out);
    }

    method HandleSubscribe(m: Msg, from: Addr, now: int) returns (fx: Effects, who: string)
      requires Valid()
      modifies this`stats, this`childActive, this`otParent, this`subscribers, this`lastActive, this`region
      ensures IsLookup(old(children), from, who)
      ensures var t := BrokerModel.HandleSubscribe(c, old(AsState()), m, from, who, now); AsState() == t.0 && fx == t.1
      ensures Valid()
    {
      who := FindChildByAddr(from);
      stats := SubCounted(stats);
      fx := NOTHING;
      if m.name.None? { return; }
      if m.flags.fromChild {
        fx := SubscribeChild(m.name.value, who);
      } else {
        fx := SubscribeClient(m, from, now);
      }
    }

    /** The loop over the children registered for a key, in any order. */
    method ForwardDown(m: Msg, key: string, fromId: string) returns (down: map<string, Msg>, ghost targets: set<string>)
      requires AllQuads(children)
      modifies this`children, this`stats
      ensures targets == DownTargets(c, old(children), Lookup(childActive, key, {}), fromId, PointOf(m))
      ensures children == DownChildren(c, old(children), targets, PointOf(m))
      ensures down == DownSends(m, key, targets)
      ensures stats == CountDown(old(stats), |targets|)
    {
      var kids, count;
      kids, down, count, targets := DownLoop(c, children, Lookup(childActive, key, {}), m, key, fromId);
      children := kids;
      stats := stats.(forwardDown := stats.forwardDown + count);
    }

    /** The loop over the subscribers of a key. */
    method DeliverGroup(key: string, m: Msg) returns (out: seq<Delivery>)
      requires key in subscribers
      modifies this`subscribers, this`stats
      ensures subscribers == old(subscribers)[key := DeliverClients(c.numbers, old(subscribers)[key], PointOf(m))]
      ensures out == DeliverSends(c.numbers, old(subscribers)[key], PointOf(m), m)
      ensures stats == old(stats).(deliveredLocal := old(stats).deliveredLocal + |out|)
    {
      var at := PointOf(m);
      var group := subscribers[key];
      var updated: seq<GeoClient>;
      updated, out := DeliverLoop(c.numbers, group, at, m);
      stats := stats.(deliveredLocal := stats.deliveredLocal + |out|);
      subscribers := subscribers[key := updated];
    }

    /** The gate before encrypted delivery: match against the group's first subscriber. */
    method PassGate(m: Msg, first: GeoClient) returns (pass: bool)
      requires c.Valid()
      modifies this`stats
      ensures pass == PassesGate(c, m, first)
      ensures stats == CountMatch(old(stats), CallsMatch(c, m, first), CallsMatch(c, m, first) && pass)
    {
      if !c.heEnabled || m.blind.None? { return true; }
      if first.m1.None? { return false; }
      pass := ExecuteMatch(m.blind.value, first.m1, first.m2);
    }

    /** The last part of handlePublish: brake, match gate, delivery. */
    method DeliverLocal(m: Msg, key: string, now: int) returns (out: seq<Delivery>, ghost step: LocalStep)
      requires c.Valid()
      modifies this`subscribers, this`brakeCountUp, this`brakeCountLocal, this`stats
      ensures step == PublishLocal(c, old(brakeCountLocal), old(subscribers), m, key, now)
      ensures out == step.out && subscribers == step.subs && brakeCountLocal == step.brakeLocal
      ensures stats == CountLocal(old(stats), step) && brakeCountUp == old(brakeCountUp)
    {
      step := PublishLocal(c, brakeCountLocal, subscribers, m, key, now);
      out := [];
      if key !in subscribers || subscribers[key] == [] { return; }
      if c.scope == Local || c.scope == Both {
        var ok := BrakeAllows(LocalBrake, key, PointOf(m), now);
        if !ok { return; }
      }
      var pass := PassGate(m, subscribers[key][0]);
      if !pass { return; }
      out := DeliverGroup(key, m);
    }

    /** The upward part of handlePublish, behind its brake when the scope asks for it. */
    method ForwardUp(m: Msg, key: string, now: int) returns (up: seq<Msg>, ghost step: UpStep)
      modifies this`brakeCountUp, this`brakeCountLocal, this`stats
      ensures step == PublishUp(c, old(brakeCountUp), m, key, now)
      ensures up == step.sends && brakeCountUp == step.brakeUp
      ensures stats == CountUp(old(stats), step) && brakeCountLocal == old(brakeCountLocal)
    {
      step := PublishUp(c, brakeCountUp, m, key, now);
      up := [];
      if c.hasParent && !m.flags.fromParent {
        var ok := true;
        if c.scope == Upward || c.scope == Both { ok := BrakeAllows(UpwardBrake, key, PointOf(m), now); }
        if ok {
          up := [Forwarded(m, key, FROM_CHILD)];
          stats := stats.(forwardUp := stats.forwardUp + 1);
        }
      }
    }

    /** The cache keeps the last ten publications of a service. */
    method StorePublication(key: string, at: Point, m: Msg)
      modifies this`pubCache
      ensures pubCache == CachePut(old(pubCache), key, CachedPub(at, m))
    {
      var cached := Lookup(pubCache, key, []) + [CachedPub(at, m)];
      if |cached| > MAX_PUB_CACHE { cached := cached[1..]; }
      pubCache := pubCache[key := cached];
    }

    /** handlePublish once the service key is known: store, forward up, forward down, deliver. */
    method PublishKeyed(m: Msg, key: string, fromId: string, now: int)
      returns (fx: Effects, ghost up: UpStep, ghost targets: set<string>, ghost local: LocalStep)
      requires c.Valid() && AllQuads(children)
      modifies this`pubCache, this`brakeCountUp, this`brakeCountLocal, this`children, this`subscribers, this`stats
      ensures up == PublishUp(c, old(brakeCountUp), m, key, now)
      ensures targets == DownTargets(c, old(children), Lookup(childActive, key, {}), fromId, PointOf(m))
      ensures local == PublishLocal(c, old(brakeCountLocal), old(subscribers), m, key, now)
      ensures pubCache == CachePut(old(pubCache), key, CachedPub(PointOf(m), m))
      ensures children == DownChildren(c, old(children), targets, PointOf(m))
      ensures brakeCountUp == up.brakeUp && brakeCountLocal == local.brakeLocal && subscribers == local.subs
      ensures stats == CountLocal(CountDown(CountUp(old(stats), up), |targets|), local)
      ensures fx == Effects(up.sends, DownSends(m, key, targets), local.out)
    {
      hide PointOf, CachePut, PublishUp, PublishLocal, DownTargets, DownChildren, DownSends, CountUp, CountDown,
           CountLocal;
      var ups, down, out;
      StorePublication(key, PointOf(m), m);
      ups, up := ForwardUp(m, key, now);
      down, targets := ForwardDown(m, key, fromId);
      out, local := DeliverLocal(m, key, now);
      fx := Effects(ups, down, out);
    }

    method HandlePublish(m: Msg, from: Addr, now: int) returns (fx: Effects, who: string)
      requires Valid()
      modifies this`pubCache, this`brakeCountUp, this`brakeCountLocal, this`children, this`subscribers, this`stats
      ensures IsLookup(old(children), from, who)
      ensures var t := BrokerModel.HandlePublish(c, old(AsState()), m, from, who, now); AsState() == t.0 && fx == t.1
    {
      hide PubKey, FromId, PointOf, CachePut, PublishUp, PublishLocal, DownTargets, DownChildren, DownSends,
           CountUp, CountDown, CountLocal, BrokerModel.HandlePublish;
      ghost var s := AsState();
      who := FindChildByAddr(from);
      stats := PubCounted(stats);
      if m.name.None? {
        PublishNameless(c, s, m, from, who, now);
        return NOTHING, who;
      }
      ghost var up, targets, local;
      fx, up, targets, local := PublishKeyed(m, PubKey(c, m), FromId(c, m, from, who), now);
      PublishAssembled(c, s, m, from, who, now, up, targets, local);
    }

    method HandleHeartbeat(m: Msg, now: int)
      requires Valid()
      modifies this`lastActive
      ensures AsState() == BrokerModel.HandleHeartbeat(old(AsState()), m, now)
    {
      if m.name.None? { return; }
      lastActive := lastActive[m.name.value := now];
    }

    method HandleHello(m: Msg, from: Addr) returns (fx: Effects)
      requires Valid()
      modifies this`children, this`region
      ensures (AsState(), fx) == BrokerModel.HandleHello(c, old(AsState()), m, from)
      ensures Valid()
    {
      fx := NOTHING;
      if m.name.None? || m.coords.None? { return; }
      var id, at := m.name.value, m.coords.value;
      var quads := if id in children then children[id].closestQuad
                   else [c.numbers.max, c.numbers.max, c.numbers.max, c.numbers.max];
      children := children[id := Child(from, at, PointRegion(at), quads)];
      UpdateMyRegion();
      fx := Effects([], map[], [Delivery(from, HelloAck(c))]);
    }

    method HandleRegionUpdate(m: Msg) returns (fx: Effects)
      requires Valid()
      modifies this`children, this`region
      ensures (AsState(), fx) == BrokerModel.HandleRegionUpdate(c, old(AsState()), m)
      ensures Valid()
    {
      fx := NOTHING;
      if m.name.None? || m.region.None? { return; }
      var id := m.name.value;
      if id !in children { return; }
      children := children[id := children[id].(region := m.region.value)];
      var oldRegion := region;
      UpdateMyRegion();
      if c.hasParent && region != oldRegion {
        fx := Effects([RegionMsg(c, region)], map[], []);
      }
    }

    method CleanupExpired(now: int)
      requires Valid()
      modifies this`subscribers, this`lastActive, this`pubCache, this`brakeCountUp, this`brakeCountLocal
      ensures AsState() == BrokerModel.CleanupExpired(old(AsState()), now)
      ensures Valid()
    {
      ghost var s := AsState();
      TouchNone(s);
      subscribers, lastActive, pubCache, brakeCountUp, brakeCountLocal :=
        CleanupLoop(s, subscribers, lastActive, pubCache, brakeCountUp, brakeCountLocal, now);
    }

    /** The dispatch of the event loop. */
    method Dispatch(m: Msg, from: Addr, now: int) returns (fx: Effects, who: string)
      requires Valid()
      modifies this
      ensures IsLookup(old(children), from, who)
      ensures var t := Handle(c, old(AsState()), m, from, who, now); AsState() == t.0 && fx == t.1
      ensures Valid()
    {
      who := FindChildByAddr(from);
      fx := NOTHING;
      match m.kind {
        case SUBSCRIBE => fx, who := HandleSubscribe(m, from, now);
        case PUBLISH =>
          ghost var s := AsState();
          fx, who := HandlePublish(m, from, now);
          HandleWellFormed(c, s, m, from, who, now);
        case HEARTBEAT => HandleHeartbeat(m, now);
        case HELLO => fx := HandleHello(m, from);
        case REGION_UPDATE => fx := HandleRegionUpdate(m);
        case HELLO_ACK =>
        case OTHER =>
      }
    }
  }
}
