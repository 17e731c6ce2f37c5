/** One broker of src/broker/broker.cpp as functions: what each handler does to the
    state and what it sends. The object in Broker.dfy is proved against these. */
module BrokerModel {
  import opened Outcomes
  import opened Geo
  import BlindedMatch

  type Blinded = BlindedMatch.Blinded

  // ---------- messages ----------

  datatype Kind = SUBSCRIBE | PUBLISH | HEARTBEAT | HELLO | HELLO_ACK | REGION_UPDATE | OTHER

  /** The flag bits; an absent FLAGS field is no bit set. */
  datatype Flags = Flags(queryMode: bool, fromChild: bool, fromParent: bool)

  const NO_FLAGS := Flags(false, false, false)
  const FROM_CHILD := Flags(false, true, false)
  const FROM_PARENT := Flags(false, false, true)

  /** A parsed message. The two blinded values are optional fields that may hold the empty string. */
  datatype Msg = Msg(kind: Kind, name: Option<string>, coords: Option<Point>, flags: Flags, region: Option<Region>,
                     blind: Option<Blinded>, blindHi: Option<Blinded>, payload: seq<int>)

  datatype Addr = Addr(ip: nat, port: nat)

  datatype Delivery = Delivery(to: Addr, msg: Msg)

  /** What a handler sends: to the parent (in order), to children by id, and to addresses. */
  datatype Effects = Effects(up: seq<Msg>, down: map<string, Msg>, out: seq<Delivery>)

  const NOTHING := Effects([], map[], [])

  // ---------- state ----------

  datatype Scope = Upward | Local | Both

  /** The configuration, the key material, and the parts of the platform left uninterpreted:
      arithmetic, the string hash, decimal printing and the printing of addresses. */
  datatype Config = Config(id: string, hasParent: bool, at: Point, brakeLimit: int, brakeWindow: int, scope: Scope,
                           heEnabled: bool, heN: nat, heMu: nat,
                           numbers: Numbers, hash: string -> nat, decimal: nat -> string, addrStr: Addr -> string)
  {
    ghost predicate Valid() {
      heEnabled ==> heN > 0
    }

    function ClientAddrStr(a: Addr): string {
      addrStr(a)
    }

    function HashName(name: string): string {
      decimal(hash(name))
    }
  }

  /** A configuration under another name, at another place. */
  function Placed(base: Config, id: string, hasParent: bool, at: Point): Config {
    base.(id := id, hasParent := hasParent, at := at)
  }

  datatype GeoClient = GeoClient(addr: Addr, at: Point, closest: real, m1: Blinded, m2: Blinded)

  datatype CachedPub = CachedPub(at: Point, raw: Msg)

  datatype Child = Child(addr: Addr, at: Point, region: Region, closestQuad: seq<real>)

  /** Per service and per quadrant, the queue of admission times. */
  type Windows = map<string, map<int, seq<int>>>

  datatype Stats = Stats(forwardUp: nat, forwardDown: nat, deliveredLocal: nat, brakedUp: nat, brakedLocal: nat,
                         matchCalls: nat, matchHits: nat, pubReceived: nat, subReceived: nat)

  datatype State = State(region: Region, children: map<string, Child>, subs: map<string, seq<GeoClient>>,
                         cache: map<string, seq<CachedPub>>, lastActive: map<string, int>,
                         brakeUp: Windows, brakeLocal: Windows,
                         childActive: map<string, set<string>>, otParent: set<string>, stats: Stats)

  function Initial(c: Config): State {
    State(PointRegion(c.at), map[], map[], map[], map[], map[], map[], map[], {}, Stats(0, 0, 0, 0, 0, 0, 0, 0, 0))
  }

  /** Every child has one nearest distance per quadrant. */
  predicate WellFormed(s: State) {
    AllQuads(s.children)
  }

  predicate AllQuads(children: map<string, Child>) {
    forall id :: id in children ==> |children[id].closestQuad| == 4
  }

  const TTL_SECONDS := 15
  const MAX_PUB_CACHE := 10

  function Lookup<K, V>(m: map<K, V>, k: K, default: V): V {
    if k in m then m[k] else default
  }

  // ---------- the brake ----------

  /** The two directions keep separate windows. */
  datatype BrakeDir = UpwardBrake | LocalBrake

  function GetQuadrant(p: Point): int {
    if p.lat >= 0.0 then (if p.lon >= 0.0 then 0 else 1) else (if p.lon >= 0.0 then 2 else 3)
  }

  /** The queue after the expired entries at its front were popped. */
  function Prune(queue: seq<int>, now: int, window: int): seq<int> {
    if queue != [] && now - queue[0] > window then Prune(queue[1..], now, window) else queue
  }

  function WindowOf(w: Windows, service: string, q: int): seq<int> {
    Lookup(Lookup(w, service, map[]), q, [])
  }

  function BrakeAdmits(queue: seq<int>, now: int, limit: int, window: int): bool {
    |Prune(queue, now, window)| < limit
  }

  function BrakeQueue(queue: seq<int>, now: int, limit: int, window: int): seq<int> {
    Prune(queue, now, window) + if BrakeAdmits(queue, now, limit, window) then [now] else []
  }

  function BrakeWindows(c: Config, w: Windows, service: string, at: Point, now: int): Windows {
    var q := GetQuadrant(at);
    w[service := Lookup(w, service, map[])[q := BrakeQueue(WindowOf(w, service, q), now, c.brakeLimit, c.brakeWindow)]]
  }

  function BrakeAllows(c: Config, w: Windows, service: string, at: Point, now: int): bool {
    BrakeAdmits(WindowOf(w, service, GetQuadrant(at)), now, c.brakeLimit, c.brakeWindow)
  }

  // ---------- regions ----------

  /** The least region covering a region and every child's. */
  ghost predicate IsHull(hull: Region, r: Region, children: map<string, Child>) {
    && hull.Covers(r)
    && (forall id :: id in children ==> hull.Covers(children[id].region))
    && (forall o: Region :: o.Covers(r) && (forall id :: id in children ==> o.Covers(children[id].region))
                            ==> o.Covers(hull))
  }

  function ExtendRegion(r: Region, p: Point): Region {
    Region(Min(r.minLat, p.lat), Max(r.maxLat, p.lat), Min(r.minLon, p.lon), Max(r.maxLon, p.lon))
  }

  // ---------- SUBSCRIBE ----------

  /** findChildByAddr: a child with that address, or the empty string if there is none. */
  predicate IsLookup(children: map<string, Child>, addr: Addr, who: string) {
    if exists id :: id in children && children[id].addr == addr
    then who in children && children[who].addr == addr
    else who == ""
  }

  function SubscribeUp(c: Config, key: string): Msg {
    Msg(SUBSCRIBE, Some(key), Some(c.at), FROM_CHILD, None, None, None, [])
  }

  function RegionMsg(c: Config, r: Region): Msg {
    Msg(REGION_UPDATE, Some(c.id), None, NO_FLAGS, Some(r), None, None, [])
  }

  /** The first of the n leading publications at the least distance below the maximum. */
  function NearestCached(m: Numbers, pubs: seq<CachedPub>, at: Point, n: nat): Option<nat>
    requires n <= |pubs|
    ensures NearestCached(m, pubs, at, n).Some? ==> NearestCached(m, pubs, at, n).value < n
  {
    if n == 0 then None else
      var best := NearestCached(m, pubs, at, n - 1);
      var bestDist := if best.None? then m.max else GeoDistance(m, at, pubs[best.value].at);
      if GeoDistance(m, at, pubs[n - 1].at) < bestDist then Some(n - 1) else best
  }

  function SubKey(c: Config, m: Msg): string
    requires m.name.Some?
  {
    if m.blind.Some? && c.heEnabled then c.HashName(m.name.value) else m.name.value
  }

  /** Whether a subscription to a key still has to be announced to the parent. */
  predicate Announces(c: Config, otParent: set<string>, key: string) {
    c.hasParent && key !in otParent
  }

  function Announcement(c: Config, otParent: set<string>, key: string): seq<Msg> {
    if Announces(c, otParent, key) then [SubscribeUp(c, key)] else []
  }

  function Announced(c: Config, otParent: set<string>, key: string): set<string> {
    if Announces(c, otParent, key) then otParent + {key} else otParent
  }

  function SubCounted(st: Stats): Stats {
    Stats(st.forwardUp, st.forwardDown, st.deliveredLocal, st.brakedUp, st.brakedLocal,
          st.matchCalls, st.matchHits, st.pubReceived, st.subReceived + 1)
  }

  function SubscribeFromChild(c: Config, s: State, name: string, who: string): (State, Effects) {
    if who == "" then (s.(stats := SubCounted(s.stats)), NOTHING) else
      (State(s.region, s.children, s.subs, s.cache, s.lastActive, s.brakeUp, s.brakeLocal,
             s.childActive[name := Lookup(s.childActive, name, {}) + {who}], Announced(c, s.otParent, name),
             SubCounted(s.stats)),
       Effects(Announcement(c, s.otParent, name), map[], []))
  }

  function NewClient(m: Msg, from: Addr, closest: real): GeoClient {
    var both := m.blind.Some? && m.blindHi.Some?;
    GeoClient(from, PointOf(m), closest,
              if both then m.blind.value else None, if both then m.blindHi.value else None)
  }

  /** The cached publication a query is answered with. */
  function QueryAnswer(c: Config, cache: map<string, seq<CachedPub>>, m: Msg, key: string): Option<CachedPub> {
    var pubs := Lookup(cache, key, []);
    var best := NearestCached(c.numbers, pubs, PointOf(m), |pubs|);
    if m.flags.queryMode && best.Some? then Some(pubs[best.value]) else None
  }

  /** Where a message says its sender is. */
  function PointOf(m: Msg): Point {
    m.coords.GetOr(Point(0.0, 0.0))
  }

  function Registered(c: Config, cache: map<string, seq<CachedPub>>, m: Msg, key: string, from: Addr): GeoClient {
    var answer := QueryAnswer(c, cache, m, key);
    NewClient(m, from, if answer.Some? then GeoDistance(c.numbers, PointOf(m), answer.value.at) else c.numbers.max)
  }

  function RegionNotice(c: Config, before: Region, after: Region): seq<Msg> {
    if c.hasParent && after != before then [RegionMsg(c, after)] else []
  }

  function SubscribeFromClient(c: Config, s: State, m: Msg, from: Addr, now: int): (State, Effects)
    requires m.name.Some?
  {
    var key := SubKey(c, m);
    var answer := QueryAnswer(c, s.cache, m, key);
    var region := ExtendRegion(s.region, PointOf(m));
    (State(region, s.children, s.subs[key := Lookup(s.subs, key, []) + [Registered(c, s.cache, m, key, from)]], s.cache,
           s.lastActive[key := now], s.brakeUp, s.brakeLocal, s.childActive, Announced(c, s.otParent, key),
           SubCounted(s.stats)),
     Effects(RegionNotice(c, s.region, region) + Announcement(c, s.otParent, key), map[],
             if answer.Some? then [Delivery(from, answer.value.raw)] else []))
  }

  function HandleSubscribe(c: Config, s: State, m: Msg, from: Addr, who: string, now: int): (State, Effects) {
    if m.name.None? then (s.(stats := SubCounted(s.stats)), NOTHING)
    else if m.flags.fromChild then SubscribeFromChild(c, s, m.name.value, who)
    else SubscribeFromClient(c, s, m, from, now)
  }

  // ---------- PUBLISH ----------

  function PubKey(c: Config, m: Msg): string
    requires m.name.Some?
  {
    if m.blind.Some? && c.heEnabled && !m.flags.fromChild && !m.flags.fromParent
    then c.HashName(m.name.value) else m.name.value
  }

  /** Append to a service's cache, dropping the oldest beyond the limit. */
  function CachePut(cache: map<string, seq<CachedPub>>, key: string, p: CachedPub): map<string, seq<CachedPub>> {
    var all := Lookup(cache, key, []) + [p];
    cache[key := if |all| > MAX_PUB_CACHE then all[1..] else all]
  }

  function Forwarded(m: Msg, key: string, flags: Flags): Msg {
    Msg(PUBLISH, Some(key), Some(PointOf(m)), flags, None, m.blind, None, m.payload)
  }

  function ScopeUp(c: Config): bool { c.scope == Upward || c.scope == Both }

  function ScopeLocal(c: Config): bool { c.scope == Local || c.scope == Both }

  /** Outcome of the upward stage. */
  datatype UpStep = UpStep(brakeUp: Windows, sends: seq<Msg>, braked: bool)

  function PublishUp(c: Config, brakeUp: Windows, m: Msg, key: string, now: int): UpStep {
    if !c.hasParent || m.flags.fromParent then UpStep(brakeUp, [], false)
    else if !ScopeUp(c) then UpStep(brakeUp, [Forwarded(m, key, FROM_CHILD)], false)
    else
      var allowed := BrakeAllows(c, brakeUp, key, PointOf(m), now);
      UpStep(BrakeWindows(c, brakeUp, key, PointOf(m), now),
             if allowed then [Forwarded(m, key, FROM_CHILD)] else [], !allowed)
  }

  function QuadrantDistance(c: Config, child: Child, at: Point): real {
    GeoDistance(c.numbers, at, child.region.QuadrantCenter(child.region.QuadrantOf(at)))
  }

  function WantsCloser(c: Config, child: Child, at: Point): bool
    requires |child.closestQuad| == 4
  {
    QuadrantDistance(c, child, at) < child.closestQuad[child.region.QuadrantOf(at)]
  }

  function Noted(c: Config, child: Child, at: Point): (r: Child)
    requires |child.closestQuad| == 4
    ensures |r.closestQuad| == 4 && r.addr == child.addr && r.region == child.region
  {
    child.(closestQuad := child.closestQuad[child.region.QuadrantOf(at) := QuadrantDistance(c, child, at)])
  }

  /** The children a publication is forwarded to. */
  function DownTargets(c: Config, children: map<string, Child>, active: set<string>, fromId: string,
                       at: Point): (t: set<string>)
    requires AllQuads(children)
    ensures t <= children.Keys && t <= active && fromId !in t
  {
    set id | id in active && id != fromId && id in children && WantsCloser(c, children[id], at)
  }

  function DownChildren(c: Config, children: map<string, Child>, targets: set<string>,
                        at: Point): (r: map<string, Child>)
    requires AllQuads(children)
    ensures AllQuads(r) && r.Keys == children.Keys
    ensures forall id :: id in r ==> r[id].addr == children[id].addr && r[id].region == children[id].region
  {
    map id | id in children :: if id in targets then Noted(c, children[id], at) else children[id]
  }

  function DownSends(m: Msg, key: string, targets: set<string>): map<string, Msg> {
    map id | id in targets :: Forwarded(m, key, FROM_PARENT)
  }

  function Nearer(m: Numbers, cl: GeoClient, at: Point): bool {
    GeoDistance(m, at, cl.at) < cl.closest
  }

  /** The delivery loop: each subscriber the publication is strictly nearer to. */
  function DeliverClients(m: Numbers, group: seq<GeoClient>, at: Point): (r: seq<GeoClient>)
    ensures |r| == |group|
  {
    if group == [] then [] else
      [if Nearer(m, group[0], at) then group[0].(closest := GeoDistance(m, at, group[0].at)) else group[0]]
      + DeliverClients(m, group[1..], at)
  }

  function DeliverSends(m: Numbers, group: seq<GeoClient>, at: Point, raw: Msg): seq<Delivery> {
    if group == [] then [] else
      (if Nearer(m, group[0], at) then [Delivery(group[0].addr, raw)] else []) + DeliverSends(m, group[1..], at, raw)
  }

  /** The gate before encrypted delivery: one match against the group's first subscriber. */
  predicate CallsMatch(c: Config, m: Msg, first: GeoClient) {
    c.heEnabled && m.blind.Some? && first.m1.Some?
  }

  predicate Matches(c: Config, m: Msg, first: GeoClient)
    requires c.Valid() && CallsMatch(c, m, first)
  {
    BlindedMatch.ExecuteMatch(c.heN, c.heMu, m.blind.value, first.m1, first.m2)
  }

  predicate PassesGate(c: Config, m: Msg, first: GeoClient)
    requires c.Valid()
  {
    c.heEnabled && m.blind.Some? ==> CallsMatch(c, m, first) && Matches(c, m, first)
  }

  /** Outcome of the local stage. */
  datatype LocalStep = LocalStep(brakeLocal: Windows, subs: map<string, seq<GeoClient>>, out: seq<Delivery>,
                                 braked: bool, called: bool, hit: bool)

  function PublishLocal(c: Config, brakeLocal: Windows, subs: map<string, seq<GeoClient>>, m: Msg, key: string,
                        now: int): LocalStep
    requires c.Valid()
  {
    var group := Lookup(subs, key, []);
    if group == [] then LocalStep(brakeLocal, subs, [], false, false, false) else
      var at := PointOf(m);
      var windows := if ScopeLocal(c) then BrakeWindows(c, brakeLocal, key, at, now) else brakeLocal;
      if ScopeLocal(c) && !BrakeAllows(c, brakeLocal, key, at, now) then
        LocalStep(windows, subs, [], true, false, false)
      else if !PassesGate(c, m, group[0]) then LocalStep(windows, subs, [], false, CallsMatch(c, m, group[0]), false)
      else LocalStep(windows, subs[key := DeliverClients(c.numbers, group, at)], DeliverSends(c.numbers, group, at, m),
                     false, CallsMatch(c, m, group[0]), CallsMatch(c, m, group[0]))
  }

  function FromId(c: Config, m: Msg, from: Addr, who: string): string {
    if m.flags.fromChild then who else if m.flags.fromParent then "parent" else c.ClientAddrStr(from)
  }

  function PubCounted(st: Stats): Stats {
    Stats(st.forwardUp, st.forwardDown, st.deliveredLocal, st.brakedUp, st.brakedLocal,
          st.matchCalls, st.matchHits, st.pubReceived + 1, st.subReceived)
  }

  function One(b: bool): nat { if b then 1 else 0 }

  function CountUp(st: Stats, up: UpStep): Stats {
    Stats(st.forwardUp + |up.sends|, st.forwardDown, st.deliveredLocal, st.brakedUp + One(up.braked), st.brakedLocal,
          st.matchCalls, st.matchHits, st.pubReceived, st.subReceived)
  }

  function CountDown(st: Stats, forwarded: nat): Stats {
    Stats(st.forwardUp, st.forwardDown + forwarded, st.deliveredLocal, st.brakedUp, st.brakedLocal,
          st.matchCalls, st.matchHits, st.pubReceived, st.subReceived)
  }

  function CountLocal(st: Stats, local: LocalStep): Stats {
    Stats(st.forwardUp, st.forwardDown, st.deliveredLocal + |local.out|,
          st.brakedUp, st.brakedLocal + One(local.braked),
          st.matchCalls + One(local.called), st.matchHits + One(local.hit), st.pubReceived, st.subReceived)
  }

  function PublishStats(st: Stats, up: UpStep, targets: set<string>, local: LocalStep): Stats {
    CountLocal(CountDown(CountUp(PubCounted(st), up), |targets|), local)
  }

  function HandlePublish(c: Config, s: State, m: Msg, from: Addr, who: string, now: int): (State, Effects)
    requires c.Valid() && WellFormed(s)
  {
    if m.name.None? then (s.(stats := PubCounted(s.stats)), NOTHING) else
      var key := PubKey(c, m);
      var at := PointOf(m);
      var up := PublishUp(c, s.brakeUp, m, key, now);
      var targets := DownTargets(c, s.children, Lookup(s.childActive, key, {}), FromId(c, m, from, who), at);
      var local := PublishLocal(c, s.brakeLocal, s.subs, m, key, now);
      (State(s.region, DownChildren(c, s.children, targets, at), local.subs,
             CachePut(s.cache, key, CachedPub(at, m)), s.lastActive,
             up.brakeUp, local.brakeLocal, s.childActive, s.otParent, PublishStats(s.stats, up, targets, local)),
       Effects(up.sends, DownSends(m, key, targets), local.out))
  }

  // ---------- the other handlers ----------

  function HandleHeartbeat(s: State, m: Msg, now: int): State {
    if m.name.None? then s else s.(lastActive := s.lastActive[m.name.value := now])
  }

  function GreetedChild(c: Config, s: State, id: string, at: Point, from: Addr): Child {
    Child(from, at, PointRegion(at),
          if id in s.children then s.children[id].closestQuad
          else [c.numbers.max, c.numbers.max, c.numbers.max, c.numbers.max])
  }

  function HelloAck(c: Config): Msg {
    Msg(HELLO_ACK, Some(c.id), None, NO_FLAGS, None, None, None, [])
  }

  function HelloMsg(c: Config): Msg {
    Msg(HELLO, Some(c.id), Some(c.at), NO_FLAGS, None, None, None, [])
  }

  /** A canonical hull: the region updateMyRegion ends with, whatever order it visits the children in. */
  ghost function Hull(c: Config, children: map<string, Child>): (r: Region)
    ensures IsHull(r, PointRegion(c.at), children)
  {
    HullExists(PointRegion(c.at), children);
    var r :| IsHull(r, PointRegion(c.at), children);
    r
  }

  lemma {:induction false} HullExists(r: Region, children: map<string, Child>)
    ensures exists h :: IsHull(h, r, children)
    decreases |children|
  {
    if children == map[] {
      assert IsHull(r, r, children);
    } else {
      var id :| id in children;
      var rest := children - {id};
      HullExists(r, rest);
      var h :| IsHull(h, r, rest);
      HullAdd(h, r, rest, id, children[id]);
      assert rest[id := children[id]] == children;
    }
  }

  /** Merging one more child's region into a hull gives the hull with that child. */
  lemma HullAdd(h: Region, r: Region, children: map<string, Child>, id: string, child: Child)
    requires IsHull(h, r, children) && id !in children
    ensures IsHull(Merge(h, child.region), r, children[id := child])
  {
    var more := children[id := child];
    MergeIsLeast(h, child.region, Merge(h, child.region));
    assert forall i :: i in children ==> more[i] == children[i];
    forall o: Region | o.Covers(r) && (forall i :: i in more ==> o.Covers(more[i].region))
      ensures o.Covers(Merge(h, child.region))
    {
      assert forall i :: i in children ==> o.Covers(more[i].region);
      assert o.Covers(more[id].region);
      MergeIsLeast(h, child.region, o);
    }
  }

  lemma HullUnique(a: Region, b: Region, r: Region, children: map<string, Child>)
    requires IsHull(a, r, children) && IsHull(b, r, children)
    ensures a == b
  {
    CoversAntisymmetric(a, b);
  }

  ghost function HandleHello(c: Config, s: State, m: Msg, from: Addr): (State, Effects) {
    if m.name.None? || m.coords.None? then (s, NOTHING) else
      var id := m.name.value;
      var s1 := s.(children := s.children[id := GreetedChild(c, s, id, m.coords.value, from)]);
      (s1.(region := Hull(c, s1.children)), Effects([], map[], [Delivery(from, HelloAck(c))]))
  }

  ghost function HandleRegionUpdate(c: Config, s: State, m: Msg): (State, Effects) {
    if m.name.None? || m.region.None? || m.name.value !in s.children then (s, NOTHING) else
      var id := m.name.value;
      var s1 := s.(children := s.children[id := s.children[id].(region := m.region.value)]);
      var s2 := s1.(region := Hull(c, s1.children));
      (s2, Effects(RegionNotice(c, s.region, s2.region), map[], []))
  }

  /** The services cleanupExpired erases. */
  function Expired(s: State, now: int): set<string> {
    set k | k in s.subs && now - Lookup(s.lastActive, k, 0) > TTL_SECONDS
  }

  function CleanupExpired(s: State, now: int): State {
    var gone := Expired(s, now);
    // looking up a missing time inserts the epoch
    var touched := map k | k in s.lastActive.Keys + s.subs.Keys :: Lookup(s.lastActive, k, 0);
    s.(subs := s.subs - gone, lastActive := touched - gone, cache := s.cache - gone,
       brakeUp := s.brakeUp - gone, brakeLocal := s.brakeLocal - gone)
  }

  /** The dispatch of the event loop. */
  ghost function Handle(c: Config, s: State, m: Msg, from: Addr, who: string, now: int): (State, Effects)
    requires c.Valid() && WellFormed(s)
  {
    match m.kind
    case SUBSCRIBE => HandleSubscribe(c, s, m, from, who, now)
    case PUBLISH => HandlePublish(c, s, m, from, who, now)
    case HEARTBEAT => (HandleHeartbeat(s, m, now), NOTHING)
    case HELLO => HandleHello(c, s, m, from)
    case REGION_UPDATE => HandleRegionUpdate(c, s, m)
    case HELLO_ACK => (s, NOTHING)
    case OTHER => (s, NOTHING)
  }

  lemma HandleWellFormed(c: Config, s: State, m: Msg, from: Addr, who: string, now: int)
    requires c.Valid() && WellFormed(s)
    ensures WellFormed(Handle(c, s, m, from, who, now).0)
  {
    ChildrenAfter(c, s, m, from, who, now);
    if m.kind == PUBLISH { PublishKeepsChildren(c, s, m, from, who, now); }
  }

  lemma PublishKeepsChildren(c: Config, s: State, m: Msg, from: Addr, who: string, now: int)
    requires c.Valid() && WellFormed(s)
    ensures var t := HandlePublish(c, s, m, from, who, now).0.children;
            t.Keys == s.children.Keys
            && forall id :: id in t ==> |t[id].closestQuad| == 4 && t[id].addr == s.children[id].addr
                                        && t[id].region == s.children[id].region
  {
  }

  lemma PublishNameless(c: Config, s: State, m: Msg, from: Addr, who: string, now: int)
    requires c.Valid() && WellFormed(s) && m.name.None?
    ensures HandlePublish(c, s, m, from, who, now) == (s.(stats := PubCounted(s.stats)), NOTHING)
  {
  }

  /** What no publication touches, and what it does to the cache. */
  lemma PublishCache(c: Config, s: State, m: Msg, from: Addr, who: string, now: int)
    requires c.Valid() && WellFormed(s) && m.name.Some?
    ensures var t := HandlePublish(c, s, m, from, who, now).0;
            && t.region == s.region && t.lastActive == s.lastActive && t.childActive == s.childActive
            && t.otParent == s.otParent
            && t.cache == CachePut(s.cache, PubKey(c, m), CachedPub(PointOf(m), m))
  {
    hide PublishUp, PublishLocal, DownTargets, DownChildren, DownSends, CachePut, PublishStats, PubKey, PointOf, FromId;
  }

  /** What no subscription touches. */
  ghost predicate SubscribeFrame(s: State, t: State) {
    && t.children == s.children && t.cache == s.cache && t.brakeUp == s.brakeUp && t.brakeLocal == s.brakeLocal
    && t.stats == SubCounted(s.stats)
  }

  lemma FromChildFrame(c: Config, s: State, name: string, who: string)
    ensures var (t, fx) := SubscribeFromChild(c, s, name, who);
            && SubscribeFrame(s, t) && t.region == s.region && t.subs == s.subs && t.lastActive == s.lastActive
            && fx.down == map[] && fx.out == []
            && (who == "" ==> t.childActive == s.childActive && t.otParent == s.otParent && fx.up == [])
            && (who != "" ==> t.childActive == s.childActive[name := Lookup(s.childActive, name, {}) + {who}]
                              && t.otParent == Announced(c, s.otParent, name)
                              && fx.up == Announcement(c, s.otParent, name))
  {
    hide SubCounted, Announcement, Announced;
  }

  lemma FromClientFrame(c: Config, s: State, m: Msg, from: Addr, now: int)
    requires m.name.Some?
    ensures var (t, fx) := SubscribeFromClient(c, s, m, from, now);
            var key, region := SubKey(c, m), ExtendRegion(s.region, PointOf(m));
            && SubscribeFrame(s, t) && t.childActive == s.childActive && t.otParent == Announced(c, s.otParent, key)
            && t.region == region && t.lastActive == s.lastActive[key := now]
            && t.subs == s.subs[key := Lookup(s.subs, key, []) + [Registered(c, s.cache, m, key, from)]]
            && fx.down == map[] && fx.up == RegionNotice(c, s.region, region) + Announcement(c, s.otParent, key)
  {
    hide SubCounted, Announcement, Announced, QueryAnswer, Registered, ExtendRegion, RegionNotice, SubKey, PointOf;
  }

  lemma SubscribeKeeps(c: Config, s: State, m: Msg, from: Addr, who: string, now: int)
    ensures SubscribeFrame(s, HandleSubscribe(c, s, m, from, who, now).0)
  {
    hide SubscribeFromChild, SubscribeFromClient, SubCounted;
    if m.name.Some? {
      FromChildFrame(c, s, m.name.value, who);
      FromClientFrame(c, s, m, from, now);
    }
  }

  lemma RegionUpdateChildren(c: Config, s: State, m: Msg)
    ensures var t := HandleRegionUpdate(c, s, m).0.children;
            t == s.children || (m.name.Some? && m.region.Some? && m.name.value in s.children
                                && t == s.children[m.name.value := s.children[m.name.value].(region := m.region.value)])
  {
    hide Hull;
  }

  /** Only HELLO adds a child; only HELLO and REGION_UPDATE change one's region. */
  lemma ChildrenAfter(c: Config, s: State, m: Msg, from: Addr, who: string, now: int)
    requires c.Valid() && WellFormed(s)
    ensures var t := Handle(c, s, m, from, who, now).0.children;
            match m.kind
            case HELLO =>
              (t == s.children
               || (m.name.Some? && m.coords.Some?
                   && t == s.children[m.name.value := GreetedChild(c, s, m.name.value, m.coords.value, from)]))
            case REGION_UPDATE =>
              (t == s.children
               || (m.name.Some? && m.region.Some? && m.name.value in s.children
                   && t == s.children[m.name.value := s.children[m.name.value].(region := m.region.value)]))
            case PUBLISH => true
            case _ => t == s.children
  {
    hide Hull, HandleSubscribe, HandlePublish, HandleRegionUpdate;
    SubscribeKeeps(c, s, m, from, who, now);
    RegionUpdateChildren(c, s, m);
  }
}
