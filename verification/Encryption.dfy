/** Encrypted operation simulates plaintext operation on digests: erasing the blinded values
    commutes with every handler, as long as clients blind what they name. */
module Encryption {
  import opened Outcomes
  import opened Geo
  import opened NumberTheory
  import opened PaillierScheme
  import opened BlindedMatch
  import opened BrokerModel
  import opened BrokerRuns
  import opened ClosestFilter

  /** A key whose blinding keeps every difference of two hashes below half the modulus. */
  ghost predicate RoomyKey(k: Key, p: nat, q: nat) {
    KeyFrom(k, p, q) && k.rM >= 2 && 2 * (k.rM * HASH_RANGE) < k.n
  }

  /** What clients and brokers share: the key with its primes, the hash, decimal printing. */
  datatype Scheme = Scheme(k: Key, p: nat, q: nat, hash: string -> nat, decimal: nat -> string)
  {
    ghost predicate Valid() {
      && RoomyKey(k, p, q) && k.n > 0
      && (forall s :: InRange(hash(s)))
      && (forall a, b :: decimal(a) == decimal(b) ==> a == b)
    }

    function Digest(name: string): string {
      decimal(hash(name))
    }
  }

  /** A broker that loaded the scheme's key. */
  ghost predicate Keyed(c: Config, sc: Scheme) {
    sc.Valid() && c.heEnabled && c.heN == sc.k.n && c.heMu == sc.k.mu && c.hash == sc.hash && c.decimal == sc.decimal
  }

  // ---------- honest messages ----------

  ghost predicate Sealed(sc: Scheme, x: nat, b: Blinded) {
    sc.k.n > 0 && exists r: nat :: NotificationDraw(sc.k.rM, r) && b == NotificationValue(sc.k, x, r)
  }

  ghost predicate SealedPair(sc: Scheme, v: nat, m1: Blinded, m2: Blinded) {
    && sc.k.n > 0
    && exists s1: nat, s2: nat ::
         Coprime(s1, sc.k.n) && Coprime(s2, sc.k.n) && (m1, m2) == SubscriptionPair(sc.k, v, s1, s2)
  }

  /** The blinded value belongs to the hash whose decimal form is the key. */
  ghost predicate SealedFor(sc: Scheme, key: string, b: Blinded) {
    exists x: nat :: InRange(x) && key == sc.decimal(x) && Sealed(sc, x, b)
  }

  ghost predicate SealedClient(sc: Scheme, key: string, cl: GeoClient) {
    exists v: nat :: InRange(v) && key == sc.decimal(v) && SealedPair(sc, v, cl.m1, cl.m2)
  }

  predicate InRange(x: nat) {
    x < HASH_RANGE
  }

  /** A message that comes from a client, with the name in the clear. */
  predicate IsRaw(m: Msg) {
    (m.kind == PUBLISH && !m.flags.fromChild && !m.flags.fromParent) || (m.kind == SUBSCRIBE && !m.flags.fromChild)
  }

  /** Clients blind the hash of the name they send; what brokers pass on carries a digest and
      the value blinded for it. */
  ghost predicate Honest(sc: Scheme, m: Msg) {
    match m.kind
    case PUBLISH =>
      && m.name.Some? && m.blind.Some?
      && (if IsRaw(m) then Sealed(sc, sc.hash(m.name.value), m.blind.value)
          else SealedFor(sc, m.name.value, m.blind.value))
    case SUBSCRIBE =>
      IsRaw(m) ==>
        && m.name.Some? && m.blind.Some? && m.blindHi.Some?
        && SealedPair(sc, sc.hash(m.name.value), m.blind.value, m.blindHi.value)
    case HEARTBEAT => false
    case _ => true
  }

  ghost predicate SealedGroup(sc: Scheme, key: string, group: seq<GeoClient>) {
    forall i :: 0 <= i < |group| ==> SealedClient(sc, key, group[i])
  }

  ghost predicate SealedSubs(sc: Scheme, subs: map<string, seq<GeoClient>>) {
    forall key :: key in subs ==> SealedGroup(sc, key, subs[key])
  }

  /** Every subscriber holds blinded values of the hash its group is keyed by. */
  ghost predicate SealedState(sc: Scheme, s: State) {
    SealedSubs(sc, s.subs)
  }

  /** Grouping and blinding use the same hash, so the gate lets every publication on the
      group's key pass, colliding names included. */
  lemma GateOpens(c: Config, sc: Scheme, m: Msg, key: string, first: GeoClient)
    requires Keyed(c, sc) && m.blind.Some? && SealedFor(sc, key, m.blind.value) && SealedClient(sc, key, first)
    ensures c.Valid() && PassesGate(c, m, first)
  {
    var x: nat :| InRange(x) && key == sc.decimal(x) && Sealed(sc, x, m.blind.value);
    var v: nat :| InRange(v) && key == sc.decimal(v) && SealedPair(sc, v, first.m1, first.m2);
    assert x == v;
    MatchOpens(sc, x, m.blind.value, first.m1, first.m2);
    hide ExecuteMatch, RoomyKey, Sealed, InRange;
  }

  lemma MatchOpens(sc: Scheme, x: nat, b: Blinded, m1: Blinded, m2: Blinded)
    requires RoomyKey(sc.k, sc.p, sc.q) && InRange(x) && Sealed(sc, x, b) && SealedPair(sc, x, m1, m2)
    ensures m1.Some? && ExecuteMatch(sc.k.n, sc.k.mu, b, m1, m2)
  {
    var r: nat :| NotificationDraw(sc.k.rM, r) && b == NotificationValue(sc.k, x, r);
    var s1: nat, s2: nat :| Coprime(s1, sc.k.n) && Coprime(s2, sc.k.n) && (m1, m2) == SubscriptionPair(sc.k, x, s1, s2);
    MatchIsEquality(sc.k, sc.p, sc.q, x, x, r, s1, s2);
    hide ExecuteMatch, KeyFrom, NotificationDraw;
  }

  // ---------- erasure ----------

  function PlainConfig(c: Config): Config {
    c.(heEnabled := false)
  }

  /** The same message in plaintext: a client's name replaced by its digest, no blinded values. */
  function PlainMsg(sc: Scheme, m: Msg): Msg {
    Msg(m.kind, if IsRaw(m) && m.name.Some? && m.blind.Some? then Some(sc.Digest(m.name.value)) else m.name,
        m.coords, m.flags, m.region, None, None, m.payload)
  }

  function PlainMsgs(sc: Scheme, ms: seq<Msg>): seq<Msg> {
    seq(|ms|, i requires 0 <= i < |ms| => PlainMsg(sc, ms[i]))
  }

  function PlainPubs(sc: Scheme, pubs: seq<CachedPub>): seq<CachedPub> {
    seq(|pubs|, i requires 0 <= i < |pubs| => CachedPub(pubs[i].at, PlainMsg(sc, pubs[i].raw)))
  }

  function PlainClient(cl: GeoClient): GeoClient {
    GeoClient(cl.addr, cl.at, cl.closest, None, None)
  }

  function PlainGroup(group: seq<GeoClient>): seq<GeoClient> {
    seq(|group|, i requires 0 <= i < |group| => PlainClient(group[i]))
  }

  function PlainSubs(subs: map<string, seq<GeoClient>>): map<string, seq<GeoClient>> {
    map k | k in subs :: PlainGroup(subs[k])
  }

  function PlainCache(sc: Scheme, cache: map<string, seq<CachedPub>>): map<string, seq<CachedPub>> {
    map k | k in cache :: PlainPubs(sc, cache[k])
  }

  function PlainStats(st: Stats): Stats {
    st.(matchCalls := 0, matchHits := 0)
  }

  function PlainState(sc: Scheme, s: State): State {
    State(s.region, s.children, PlainSubs(s.subs), PlainCache(sc, s.cache), s.lastActive, s.brakeUp, s.brakeLocal,
          s.childActive, s.otParent, PlainStats(s.stats))
  }

  function PlainOut(sc: Scheme, out: seq<Delivery>): seq<Delivery> {
    seq(|out|, i requires 0 <= i < |out| => Delivery(out[i].to, PlainMsg(sc, out[i].msg)))
  }

  function PlainDown(sc: Scheme, down: map<string, Msg>): map<string, Msg> {
    map id | id in down :: PlainMsg(sc, down[id])
  }

  function PlainEffects(sc: Scheme, fx: Effects): Effects {
    Effects(PlainMsgs(sc, fx.up), PlainDown(sc, fx.down), PlainOut(sc, fx.out))
  }

  // ---------- keys and forwarded messages ----------

  /** A name is hashed once: by the first broker, and never again on any path. */
  lemma SameKey(c: Config, sc: Scheme, m: Msg)
    requires Keyed(c, sc) && Honest(sc, m) && m.name.Some?
    ensures m.kind == PUBLISH ==> PubKey(PlainConfig(c), PlainMsg(sc, m)) == PubKey(c, m)
    ensures m.kind == PUBLISH ==> SealedFor(sc, PubKey(c, m), m.blind.value)
    ensures m.kind == PUBLISH ==> PubKey(c, m) == if IsRaw(m) then sc.Digest(m.name.value) else m.name.value
    ensures m.kind == SUBSCRIBE && IsRaw(m) ==>
              SubKey(PlainConfig(c), PlainMsg(sc, m)) == SubKey(c, m) == sc.Digest(m.name.value)
  {
    hide Sealed;
    if m.kind == PUBLISH && IsRaw(m) {
      assert sc.Digest(m.name.value) == sc.decimal(sc.hash(m.name.value));
    }
  }

  lemma SameForward(c: Config, sc: Scheme, m: Msg, key: string, flags: Flags)
    requires sc.Valid() && (flags == FROM_CHILD || flags == FROM_PARENT)
    ensures Forwarded(PlainMsg(sc, m), key, flags) == PlainMsg(sc, Forwarded(m, key, flags))
    ensures m.blind.Some? && SealedFor(sc, key, m.blind.value) ==> Honest(sc, Forwarded(m, key, flags))
  {
    hide SealedFor;
  }

  // ---------- the stages of a publication ----------

  lemma SameUp(c: Config, sc: Scheme, brakeUp: Windows, m: Msg, key: string, now: int)
    requires sc.Valid()
    ensures var up := PublishUp(c, brakeUp, m, key, now);
            PublishUp(PlainConfig(c), brakeUp, PlainMsg(sc, m), key, now)
                == UpStep(up.brakeUp, PlainMsgs(sc, up.sends), up.braked)
  {
    hide Forwarded, BrakeQueue, BrakeAdmits, WindowOf, GetQuadrant, PointOf, PlainMsg;
    SameForward(c, sc, m, key, FROM_CHILD);
    SameFlags(sc, m);
    assert PlainMsgs(sc, []) == [];
    assert PlainMsgs(sc, [Forwarded(m, key, FROM_CHILD)]) == [PlainMsg(sc, Forwarded(m, key, FROM_CHILD))];
  }

  lemma SameFlags(sc: Scheme, m: Msg)
    ensures var pm := PlainMsg(sc, m);
            pm.flags == m.flags && pm.kind == m.kind && PointOf(pm) == PointOf(m)
  {
  }

  lemma SameTargets(c: Config, children: map<string, Child>, active: set<string>, fromId: string, at: Point)
    requires AllQuads(children)
    ensures DownTargets(PlainConfig(c), children, active, fromId, at) == DownTargets(c, children, active, fromId, at)
  {
    hide GeoDistance, Region.QuadrantOf, Region.QuadrantCenter;
  }

  lemma SameChildren(c: Config, children: map<string, Child>, targets: set<string>, at: Point)
    requires AllQuads(children)
    ensures DownChildren(PlainConfig(c), children, targets, at) == DownChildren(c, children, targets, at)
  {
    hide GeoDistance, Region.QuadrantOf, Region.QuadrantCenter;
  }

  lemma SameSends(sc: Scheme, m: Msg, key: string, targets: set<string>)
    requires sc.Valid()
    ensures DownSends(PlainMsg(sc, m), key, targets) == PlainDown(sc, DownSends(m, key, targets))
  {
    assert Forwarded(PlainMsg(sc, m), key, FROM_PARENT) == PlainMsg(sc, Forwarded(m, key, FROM_PARENT));
    hide Forwarded, PlainMsg;
  }

  lemma {:induction false} SameDelivery(sc: Scheme, numbers: Numbers, group: seq<GeoClient>, at: Point, m: Msg)
    ensures DeliverClients(numbers, PlainGroup(group), at) == PlainGroup(DeliverClients(numbers, group, at))
    ensures DeliverSends(numbers, PlainGroup(group), at, PlainMsg(sc, m))
            == PlainOut(sc, DeliverSends(numbers, group, at, m))
  {
    hide GeoDistance, PlainMsg;
    if group != [] {
      var pg := PlainGroup(group);
      assert pg[0] == PlainClient(group[0]) && pg[1..] == PlainGroup(group[1..]);
      SameDelivery(sc, numbers, group[1..], at, m);
      assert Nearer(numbers, pg[0], at) == Nearer(numbers, group[0], at);
      hide Nearer;
      DeliverSendsFirst(sc, numbers, group, at, m);
    }
  }

  lemma DeliverSendsFirst(sc: Scheme, numbers: Numbers, group: seq<GeoClient>, at: Point, m: Msg)
    requires group != []
    ensures PlainOut(sc, DeliverSends(numbers, group, at, m))
            == (if Nearer(numbers, group[0], at) then [Delivery(group[0].addr, PlainMsg(sc, m))] else [])
               + PlainOut(sc, DeliverSends(numbers, group[1..], at, m))
  {
    hide Nearer, PlainMsg;
    var rest := DeliverSends(numbers, group[1..], at, m);
    if Nearer(numbers, group[0], at) {
      assert PlainOut(sc, [Delivery(group[0].addr, m)] + rest)
             == [Delivery(group[0].addr, PlainMsg(sc, m))] + PlainOut(sc, rest);
    }
  }

  lemma SealedDelivery(sc: Scheme, key: string, numbers: Numbers, group: seq<GeoClient>, at: Point)
    requires SealedGroup(sc, key, group)
    ensures SealedGroup(sc, key, DeliverClients(numbers, group, at))
  {
    hide DeliverClients, GeoDistance;
    forall i | 0 <= i < |group| ensures SealedClient(sc, key, DeliverClients(numbers, group, at)[i]) {
      DeliverEach(numbers, group, at, i);
      assert SealedClient(sc, key, group[i]);
    }
  }

  /** The local stage: same brake decision, same deliveries, and the gate never rejects. */
  lemma SameLocal(c: Config, sc: Scheme, brakeLocal: Windows, subs: map<string, seq<GeoClient>>, m: Msg, key: string,
                  now: int)
    requires Keyed(c, sc) && m.blind.Some? && SealedFor(sc, key, m.blind.value)
    requires key in subs ==> SealedGroup(sc, key, subs[key])
    ensures var local := PublishLocal(c, brakeLocal, subs, m, key, now);
            && PublishLocal(PlainConfig(c), brakeLocal, PlainSubs(subs), PlainMsg(sc, m), key, now)
               == LocalStep(local.brakeLocal, PlainSubs(local.subs), PlainOut(sc, local.out), local.braked,
                            false, false)
            && local.called == local.hit
  {
    var group, at := Lookup(subs, key, []), PointOf(m);
    hide DeliverClients, DeliverSends, PlainGroup, PlainMsg, PlainOut, BrakeQueue, BrakeAdmits, WindowOf, GetQuadrant,
         PointOf, SealedFor, SealedClient, PassesGate, CallsMatch, Scheme.Valid, GeoDistance;
    SameFlags(sc, m);
    SameDelivery(sc, c.numbers, group, at, m);
    SameUpdate(subs, key, DeliverClients(c.numbers, group, at));
    EmptyPlain(sc);
    if group != [] { GateFacts(c, sc, m, key, group); }
    assert Lookup(PlainSubs(subs), key, []) == PlainGroup(group);
    hide PlainSubs, Keyed;
  }

  lemma EmptyPlain(sc: Scheme)
    ensures PlainGroup([]) == [] && PlainOut(sc, []) == [] && PlainMsgs(sc, []) == [] && PlainDown(sc, map[]) == map[]
    ensures PlainEffects(sc, NOTHING) == NOTHING
  {
  }

  lemma GateFacts(c: Config, sc: Scheme, m: Msg, key: string, group: seq<GeoClient>)
    requires Keyed(c, sc) && m.blind.Some? && SealedFor(sc, key, m.blind.value) && SealedGroup(sc, key, group)
    requires group != []
    ensures c.Valid() && PassesGate(c, m, group[0]) && CallsMatch(c, m, group[0])
    ensures PlainGroup(group) != []
    ensures PassesGate(PlainConfig(c), PlainMsg(sc, m), PlainGroup(group)[0])
            && !CallsMatch(PlainConfig(c), PlainMsg(sc, m), PlainGroup(group)[0])
  {
    hide SealedFor, SealedClient, Matches;
    GateOpens(c, sc, m, key, group[0]);
  }

  lemma SameUpdate(subs: map<string, seq<GeoClient>>, key: string, group: seq<GeoClient>)
    ensures PlainSubs(subs[key := group]) == PlainSubs(subs)[key := PlainGroup(group)]
  {
    hide PlainGroup;
  }

  // ---------- the handlers ----------

  function PlainPub(sc: Scheme, p: CachedPub): CachedPub {
    CachedPub(p.at, PlainMsg(sc, p.raw))
  }

  lemma SameCachePut(sc: Scheme, cache: map<string, seq<CachedPub>>, key: string, p: CachedPub)
    ensures PlainCache(sc, CachePut(cache, key, p)) == CachePut(PlainCache(sc, cache), key, PlainPub(sc, p))
  {
    hide PlainMsg;
    var all := Lookup(cache, key, []) + [p];
    assert PlainPubs(sc, all) == Lookup(PlainCache(sc, cache), key, []) + [PlainPub(sc, p)];
    assert PlainPubs(sc, all[1..]) == PlainPubs(sc, all)[1..];
  }

  lemma SameStats(sc: Scheme, st: Stats, up: UpStep, targets: set<string>, local: LocalStep,
                  subs: map<string, seq<GeoClient>>)
    ensures PublishStats(PlainStats(st), UpStep(up.brakeUp, PlainMsgs(sc, up.sends), up.braked), targets,
                         LocalStep(local.brakeLocal, subs, PlainOut(sc, local.out), local.braked, false, false))
            == PlainStats(PublishStats(st, up, targets, local))
  {
  }

  lemma SealedAfter(c: Config, sc: Scheme, brakeLocal: Windows, subs: map<string, seq<GeoClient>>, m: Msg, key: string,
                    now: int)
    requires c.Valid() && forall k :: k in subs ==> SealedGroup(sc, k, subs[k])
    ensures var after := PublishLocal(c, brakeLocal, subs, m, key, now).subs;
            forall k :: k in after ==> SealedGroup(sc, k, after[k])
  {
    var group := Lookup(subs, key, []);
    if key in subs { SealedDelivery(sc, key, c.numbers, group, PointOf(m)); }
    hide SealedGroup, DeliverClients, DeliverSends, BrakeWindows, BrakeAllows, PassesGate, CallsMatch, PointOf;
  }

  lemma SameWellFormed(sc: Scheme, s: State)
    requires WellFormed(s)
    ensures WellFormed(PlainState(sc, s))
  {
  }

  lemma SameFromId(c: Config, sc: Scheme, m: Msg, from: Addr, who: string)
    ensures FromId(PlainConfig(c), PlainMsg(sc, m), from, who) == FromId(c, m, from, who)
  {
  }

  lemma SamePublish(c: Config, sc: Scheme, s: State, m: Msg, from: Addr, who: string, now: int)
    requires Keyed(c, sc) && c.Valid() && WellFormed(s) && SealedState(sc, s) && Honest(sc, m) && m.kind == PUBLISH
    ensures WellFormed(PlainState(sc, s))
    ensures var (t, fx) := HandlePublish(c, s, m, from, who, now);
            && HandlePublish(PlainConfig(c), PlainState(sc, s), PlainMsg(sc, m), from, who, now)
                == (PlainState(sc, t), PlainEffects(sc, fx))
            && SealedState(sc, t)
  {
    hide PubKey, PointOf, CachePut, PublishUp, PublishLocal, DownTargets, DownChildren, DownSends, FromId, PublishStats,
         PlainSubs, PlainCache, PlainStats, PlainMsgs, PlainDown, PlainOut, Sealed, SealedFor, SealedGroup,
         WellFormed, Keyed, Scheme.Valid;
    SameWellFormed(sc, s);
    SameKey(c, sc, m);
    SameFlags(sc, m);
    SameFromId(c, sc, m, from, who);
    PlainNamed(sc, m);
    hide PlainMsg, Honest;
    var key, at := PubKey(c, m), PointOf(m);
    var up := PublishUp(c, s.brakeUp, m, key, now);
    var active, fromId := Lookup(s.childActive, key, {}), FromId(c, m, from, who);
    QuadsOf(s);
    var targets := DownTargets(c, s.children, active, fromId, at);
    var local := PublishLocal(c, s.brakeLocal, s.subs, m, key, now);
    KeyedValid(c, sc);
    SameUp(c, sc, s.brakeUp, m, key, now);
    SameTargets(c, s.children, active, fromId, at);
    SameChildren(c, s.children, targets, at);
    SameSends(sc, m, key, targets);
    SameLocal(c, sc, s.brakeLocal, s.subs, m, key, now);
    SealedAfter(c, sc, s.brakeLocal, s.subs, m, key, now);
    SameCachePut(sc, s.cache, key, CachedPub(at, m));
    SameStats(sc, s.stats, up, targets, local, PlainSubs(local.subs));
  }

  lemma QuadsOf(s: State)
    requires WellFormed(s)
    ensures AllQuads(s.children)
  {
  }

  lemma KeyedValid(c: Config, sc: Scheme)
    requires Keyed(c, sc)
    ensures sc.Valid() && c.Valid() && PlainConfig(c).Valid()
  {
  }

  lemma PlainNamed(sc: Scheme, m: Msg)
    requires Honest(sc, m) && m.kind == PUBLISH
    ensures m.name.Some? && m.blind.Some? && PlainMsg(sc, m).name.Some?
  {
    hide Sealed, SealedFor;
  }

  // ---------- subscriptions ----------

  lemma SameAnnouncement(c: Config, sc: Scheme, otParent: set<string>, key: string)
    ensures Announcement(PlainConfig(c), otParent, key) == PlainMsgs(sc, Announcement(c, otParent, key))
    ensures Announced(PlainConfig(c), otParent, key) == Announced(c, otParent, key)
  {
  }

  lemma SameNotice(c: Config, sc: Scheme, before: Region, after: Region)
    ensures RegionNotice(PlainConfig(c), before, after) == PlainMsgs(sc, RegionNotice(c, before, after))
  {
  }

  lemma {:induction false} SameNearest(sc: Scheme, numbers: Numbers, pubs: seq<CachedPub>, at: Point, n: nat)
    requires n <= |pubs|
    ensures NearestCached(numbers, PlainPubs(sc, pubs), at, n) == NearestCached(numbers, pubs, at, n)
  {
    hide GeoDistance, PlainMsg;
    if n != 0 { SameNearest(sc, numbers, pubs, at, n - 1); }
  }

  lemma SameAnswer(c: Config, sc: Scheme, cache: map<string, seq<CachedPub>>, m: Msg, key: string)
    ensures var answer := QueryAnswer(c, cache, m, key);
            var plain := QueryAnswer(PlainConfig(c), PlainCache(sc, cache), PlainMsg(sc, m), key);
            plain == if answer.Some? then Some(PlainPub(sc, answer.value)) else None
  {
    SameFlags(sc, m);
    var pubs := Lookup(cache, key, []);
    assert Lookup(PlainCache(sc, cache), key, []) == PlainPubs(sc, pubs);
    SameNearest(sc, c.numbers, pubs, PointOf(m), |pubs|);
    hide NearestCached, PlainMsg, PlainCache;
  }

  lemma SameClient(c: Config, sc: Scheme, cache: map<string, seq<CachedPub>>, m: Msg, key: string, from: Addr)
    ensures Registered(PlainConfig(c), PlainCache(sc, cache), PlainMsg(sc, m), key, from)
            == PlainClient(Registered(c, cache, m, key, from))
  {
    SameAnswer(c, sc, cache, m, key);
    hide QueryAnswer, GeoDistance, PlainCache;
  }

  lemma SealedJoin(c: Config, sc: Scheme, cache: map<string, seq<CachedPub>>, m: Msg, from: Addr)
    requires Keyed(c, sc) && Honest(sc, m) && m.kind == SUBSCRIBE && IsRaw(m)
    ensures SealedClient(sc, SubKey(c, m), Registered(c, cache, m, SubKey(c, m), from))
  {
    hide QueryAnswer, GeoDistance, SealedPair, InRange;
    SameKey(c, sc, m);
    assert sc.Digest(m.name.value) == sc.decimal(sc.hash(m.name.value));
    assert InRange(sc.hash(m.name.value));
  }

  lemma SameJoinUp(c: Config, sc: Scheme, before: Region, after: Region, otParent: set<string>, key: string)
    ensures RegionNotice(PlainConfig(c), before, after) + Announcement(PlainConfig(c), otParent, key)
            == PlainMsgs(sc, RegionNotice(c, before, after) + Announcement(c, otParent, key))
  {
    SameAnnouncement(c, sc, otParent, key);
    SameNotice(c, sc, before, after);
    hide RegionNotice, Announcement, PlainMsg;
  }

  function AnswerTo(from: Addr, answer: Option<CachedPub>): seq<Delivery> {
    if answer.Some? then [Delivery(from, answer.value.raw)] else []
  }

  lemma SameAnswerOut(sc: Scheme, from: Addr, answer: Option<CachedPub>)
    ensures AnswerTo(from, if answer.Some? then Some(PlainPub(sc, answer.value)) else None)
            == PlainOut(sc, AnswerTo(from, answer))
  {
  }

  lemma JoinGroup(sc: Scheme, subs: map<string, seq<GeoClient>>, key: string, cl: GeoClient)
    requires SealedSubs(sc, subs) && SealedClient(sc, key, cl)
    ensures var joined := subs[key := Lookup(subs, key, []) + [cl]];
            && PlainSubs(joined) == PlainSubs(subs)[key := Lookup(PlainSubs(subs), key, []) + [PlainClient(cl)]]
            && SealedSubs(sc, joined)
  {
    hide SealedClient, PlainClient;
    var group := Lookup(subs, key, []);
    assert SealedGroup(sc, key, group + [cl]);
    SameUpdate(subs, key, group + [cl]);
    assert PlainGroup(group + [cl]) == Lookup(PlainSubs(subs), key, []) + [PlainClient(cl)];
  }

  /** The state and effects of a client's subscription, from their parts. */
  lemma JoinParts(c: Config, s: State, m: Msg, from: Addr, now: int)
    requires m.name.Some?
    ensures var key, region := SubKey(c, m), ExtendRegion(s.region, PointOf(m));
            SubscribeFromClient(c, s, m, from, now)
            == (State(region, s.children,
                      s.subs[key := Lookup(s.subs, key, []) + [Registered(c, s.cache, m, key, from)]], s.cache,
                      s.lastActive[key := now], s.brakeUp, s.brakeLocal, s.childActive,
                      Announced(c, s.otParent, key), SubCounted(s.stats)),
                Effects(RegionNotice(c, s.region, region) + Announcement(c, s.otParent, key), map[],
                        AnswerTo(from, QueryAnswer(c, s.cache, m, key))))
  {
    hide SubKey, PointOf, ExtendRegion, Registered, QueryAnswer, Announcement, Announced, RegionNotice, SubCounted;
  }

  lemma SameJoin(c: Config, sc: Scheme, s: State, m: Msg, from: Addr, now: int)
    requires Keyed(c, sc) && SealedState(sc, s) && Honest(sc, m) && m.kind == SUBSCRIBE && IsRaw(m)
    ensures m.name.Some? && PlainMsg(sc, m).name.Some?
    ensures var (t, fx) := SubscribeFromClient(c, s, m, from, now);
            && SubscribeFromClient(PlainConfig(c), PlainState(sc, s), PlainMsg(sc, m), from, now)
                == (PlainState(sc, t), PlainEffects(sc, fx))
            && SealedState(sc, t)
  {
    JoinNamed(sc, m);
    hide SubKey, PointOf, ExtendRegion, Registered, QueryAnswer, Announcement, Announced, RegionNotice,
         SubscribeFromClient, AnswerTo, PlainMsg, PlainMsgs, PlainOut, PlainCache, PlainSubs, PlainClient, PlainPub,
         SealedClient, SealedGroup, Keyed, Honest, IsRaw;
    var key, region := SubKey(c, m), ExtendRegion(s.region, PointOf(m));
    SealedJoin(c, sc, s.cache, m, from);
    SameKey(c, sc, m);
    SameFlags(sc, m);
    SameAnswer(c, sc, s.cache, m, key);
    SameAnswerOut(sc, from, QueryAnswer(c, s.cache, m, key));
    SameClient(c, sc, s.cache, m, key, from);
    SameAnnouncement(c, sc, s.otParent, key);
    SameJoinUp(c, sc, s.region, region, s.otParent, key);
    EmptyPlain(sc);
    JoinGroup(sc, s.subs, key, Registered(c, s.cache, m, key, from));
    JoinParts(c, s, m, from, now);
    JoinParts(PlainConfig(c), PlainState(sc, s), PlainMsg(sc, m), from, now);
  }

  lemma JoinNamed(sc: Scheme, m: Msg)
    requires Honest(sc, m) && m.kind == SUBSCRIBE && IsRaw(m)
    ensures m.name.Some? && PlainMsg(sc, m).name.Some?
  {
    hide SealedPair;
  }

  lemma SameChildSubscribe(c: Config, sc: Scheme, s: State, name: string, who: string)
    ensures var (t, fx) := SubscribeFromChild(c, s, name, who);
            && SubscribeFromChild(PlainConfig(c), PlainState(sc, s), name, who)
               == (PlainState(sc, t), PlainEffects(sc, fx))
            && (SealedState(sc, s) ==> SealedState(sc, t))
  {
    hide Announcement, Announced, PlainMsgs, PlainSubs, PlainCache, PlainMsg, SealedSubs;
    SameAnnouncement(c, sc, s.otParent, name);
    EmptyPlain(sc);
  }

  lemma SameSubscribe(c: Config, sc: Scheme, s: State, m: Msg, from: Addr, who: string, now: int)
    requires Keyed(c, sc) && SealedState(sc, s) && Honest(sc, m) && m.kind == SUBSCRIBE
    ensures var (t, fx) := HandleSubscribe(c, s, m, from, who, now);
            && HandleSubscribe(PlainConfig(c), PlainState(sc, s), PlainMsg(sc, m), from, who, now)
                == (PlainState(sc, t), PlainEffects(sc, fx))
            && SealedState(sc, t)
  {
    EmptyPlain(sc);
    SameFlags(sc, m);
    if IsRaw(m) {
      SameJoin(c, sc, s, m, from, now);
      hide SubscribeFromClient, PlainSubs, PlainCache, PlainMsg, PlainStats, SealedSubs, Keyed, Honest;
    } else {
      assert PlainMsg(sc, m).name == m.name;
      if m.name.Some? { SameChildSubscribe(c, sc, s, m.name.value, who); }
      hide SubscribeFromChild, PlainSubs, PlainCache, PlainMsg, SealedSubs, Keyed, Honest;
    }
  }

  lemma SameHull(c: Config, children: map<string, Child>)
    ensures Hull(PlainConfig(c), children) == Hull(c, children)
  {
    hide Hull, IsHull;
    HullUnique(Hull(PlainConfig(c), children), Hull(c, children), PointRegion(c.at), children);
  }

  lemma SameHello(c: Config, sc: Scheme, s: State, m: Msg, from: Addr)
    requires m.kind == HELLO
    ensures var (t, fx) := HandleHello(c, s, m, from);
            && HandleHello(PlainConfig(c), PlainState(sc, s), PlainMsg(sc, m), from)
               == (PlainState(sc, t), PlainEffects(sc, fx))
            && t.subs == s.subs
  {
    hide Hull, PlainSubs, PlainCache;
    EmptyPlain(sc);
    assert PlainMsg(sc, m).name == m.name && PlainMsg(sc, m).coords == m.coords;
    if m.name.Some? && m.coords.Some? {
      var children := s.children[m.name.value := GreetedChild(c, s, m.name.value, m.coords.value, from)];
      SameHull(c, children);
      assert PlainOut(sc, [Delivery(from, HelloAck(c))]) == [Delivery(from, HelloAck(c))];
    }
  }

  lemma SameRegionUpdate(c: Config, sc: Scheme, s: State, m: Msg)
    requires m.kind == REGION_UPDATE
    ensures var (t, fx) := HandleRegionUpdate(c, s, m);
            && HandleRegionUpdate(PlainConfig(c), PlainState(sc, s), PlainMsg(sc, m))
               == (PlainState(sc, t), PlainEffects(sc, fx))
            && t.subs == s.subs
  {
    hide Hull, PlainSubs, PlainCache, RegionNotice;
    EmptyPlain(sc);
    assert PlainMsg(sc, m).name == m.name && PlainMsg(sc, m).region == m.region;
    if m.name.Some? && m.region.Some? && m.name.value in s.children {
      var children := s.children[m.name.value := s.children[m.name.value].(region := m.region.value)];
      SameHull(c, children);
      SameNotice(c, sc, s.region, Hull(c, children));
    }
  }

  lemma SameErased(sc: Scheme, subs: map<string, seq<GeoClient>>, cache: map<string, seq<CachedPub>>, gone: set<string>)
    ensures PlainSubs(subs - gone) == PlainSubs(subs) - gone
    ensures PlainCache(sc, cache - gone) == PlainCache(sc, cache) - gone
    ensures SealedSubs(sc, subs) ==> SealedSubs(sc, subs - gone)
  {
    hide PlainGroup, PlainPubs, SealedGroup;
  }

  lemma SameExpired(sc: Scheme, s: State, now: int)
    ensures Expired(PlainState(sc, s), now) == Expired(s, now)
  {
    hide PlainGroup, PlainPubs;
  }

  lemma SameCleanup(sc: Scheme, s: State, now: int)
    ensures CleanupExpired(PlainState(sc, s), now) == PlainState(sc, CleanupExpired(s, now))
    ensures SealedState(sc, s) ==> SealedState(sc, CleanupExpired(s, now))
  {
    SameExpired(sc, s, now);
    SameErased(sc, s.subs, s.cache, Expired(s, now));
    assert PlainSubs(s.subs).Keys == s.subs.Keys;
    hide Expired, PlainSubs, PlainCache, SealedSubs;
  }

  // ---------- runs ----------

  function PlainEvent(sc: Scheme, e: Event): Event {
    match e
    case Receive(m, from, who, now) => Receive(PlainMsg(sc, m), from, who, now)
    case Cleanup(now) => e
  }

  function PlainEvents(sc: Scheme, es: seq<Event>): seq<Event> {
    seq(|es|, i requires 0 <= i < |es| => PlainEvent(sc, es[i]))
  }

  ghost predicate HonestEvents(sc: Scheme, es: seq<Event>) {
    forall i :: 0 <= i < |es| && es[i].Receive? ==> Honest(sc, es[i].m)
  }

  /** Erasure commutes with every step on honest messages, cleanup included. */
  lemma SameStep(c: Config, sc: Scheme, s: State, e: Event)
    requires Keyed(c, sc) && c.Valid() && WellFormed(s) && SealedState(sc, s) && (e.Receive? ==> Honest(sc, e.m))
    ensures WellFormed(PlainState(sc, s)) && PlainConfig(c).Valid()
    ensures var (t, fx) := Step(c, s, e);
            && Step(PlainConfig(c), PlainState(sc, s), PlainEvent(sc, e)) == (PlainState(sc, t), PlainEffects(sc, fx))
            && SealedState(sc, t)
  {
    SameWellFormed(sc, s);
    EmptyPlain(sc);
    hide PlainState, PlainEffects, SealedSubs, HandleSubscribe, HandlePublish, HandleHello, HandleRegionUpdate,
         CleanupExpired, WellFormed, Keyed, Sealed, SealedPair, SealedFor;
    if e.Cleanup? {
      SameCleanup(sc, s, e.now);
    } else {
      var m, from, who, now := e.m, e.from, e.who, e.now;
      SameFlags(sc, m);
      hide PlainMsg;
      match m.kind {
        case SUBSCRIBE => SameSubscribe(c, sc, s, m, from, who, now);
        case PUBLISH => SamePublish(c, sc, s, m, from, who, now);
        case HELLO => SameHello(c, sc, s, m, from);
        case REGION_UPDATE => SameRegionUpdate(c, sc, s, m);
        case HELLO_ACK =>
        case OTHER =>
        case HEARTBEAT => assert false;
      }
    }
  }

  /** A run of honest encrypted messages leads to the state of the plaintext run on digests,
      and every step sends and delivers the same: brakes, forwards and deliveries agree. */
  lemma {:induction false} EncryptedRunIsPlaintextRun(c: Config, sc: Scheme, es: seq<Event>)
    requires Keyed(c, sc) && c.Valid() && HonestEvents(sc, es)
    ensures PlainConfig(c).Valid() && SealedState(sc, Run(c, es))
    ensures Run(PlainConfig(c), PlainEvents(sc, es)) == PlainState(sc, Run(c, es))
    ensures es != [] ==>
              var before, e := es[..|es| - 1], es[|es| - 1];
              Step(PlainConfig(c), Run(PlainConfig(c), PlainEvents(sc, before)), PlainEvent(sc, e)).1
              == PlainEffects(sc, Step(c, Run(c, before), e).1)
  {
    hide Step, Keyed, PlainState, PlainEffects, Honest, PlainEvent, SealedState;
    if es == [] {
      SameInitial(c, sc);
    } else {
      var before, e := es[..|es| - 1], es[|es| - 1];
      var pes := PlainEvents(sc, es);
      assert pes[..|pes| - 1] == PlainEvents(sc, before) && pes[|pes| - 1] == PlainEvent(sc, e);
      EncryptedRunIsPlaintextRun(c, sc, before);
      SameStep(c, sc, Run(c, before), e);
    }
  }

  lemma SameInitial(c: Config, sc: Scheme)
    ensures PlainState(sc, Initial(c)) == Initial(PlainConfig(c)) && SealedState(sc, Initial(c))
    ensures PlainConfig(c).Valid()
  {
  }

  /** In such runs the match gate never rejects: every comparison made is a hit. */
  lemma {:induction false} GateNeverRejects(c: Config, sc: Scheme, es: seq<Event>)
    requires Keyed(c, sc) && c.Valid() && HonestEvents(sc, es)
    ensures Run(c, es).stats.matchCalls == Run(c, es).stats.matchHits
  {
    hide Step, Keyed, Honest, SealedState;
    if es != [] {
      var before, e := es[..|es| - 1], es[|es| - 1];
      GateNeverRejects(c, sc, before);
      EncryptedRunIsPlaintextRun(c, sc, before);
      StepHits(c, sc, Run(c, before), e);
    }
  }

  lemma QuietHits(c: Config, s: State, e: Event)
    requires c.Valid() && WellFormed(s) && !(e.Receive? && e.m.kind == PUBLISH)
    ensures var t := Step(c, s, e).0.stats; t.matchCalls == s.stats.matchCalls && t.matchHits == s.stats.matchHits
  {
    hide HandlePublish, HandleSubscribe, Hull;
    if e.Receive? { SubscribeKeeps(c, s, e.m, e.from, e.who, e.now); }
  }

  lemma StepHits(c: Config, sc: Scheme, s: State, e: Event)
    requires Keyed(c, sc) && c.Valid() && WellFormed(s) && SealedState(sc, s) && (e.Receive? ==> Honest(sc, e.m))
    ensures var t := Step(c, s, e).0.stats; t.matchCalls - s.stats.matchCalls == t.matchHits - s.stats.matchHits
  {
    hide Keyed, Honest, SealedGroup, HandlePublish;
    if e.Receive? && e.m.kind == PUBLISH {
      PublishHits(c, sc, s, e.m, e.from, e.who, e.now);
    } else {
      hide Step;
      QuietHits(c, s, e);
    }
  }

  lemma PublishHits(c: Config, sc: Scheme, s: State, m: Msg, from: Addr, who: string, now: int)
    requires Keyed(c, sc) && c.Valid() && WellFormed(s) && SealedState(sc, s) && Honest(sc, m) && m.kind == PUBLISH
    ensures var t := HandlePublish(c, s, m, from, who, now).0.stats;
            t.matchCalls - s.stats.matchCalls == t.matchHits - s.stats.matchHits
  {
    PlainNamed(sc, m);
    SameKey(c, sc, m);
    SameLocal(c, sc, s.brakeLocal, s.subs, m, PubKey(c, m), now);
    hide PublishUp, PublishLocal, DownTargets, DownChildren, DownSends, CachePut, PubKey, FromId, Keyed, Honest,
         SealedFor, SealedGroup;
  }

  // ---------- what subscribers of an encrypted broker hold ----------

  lemma HonestGateStep(c: Config, sc: Scheme, s: State, e: Event)
    requires Keyed(c, sc) && c.Valid() && SealedState(sc, s) && (e.Receive? ==> Honest(sc, e.m))
    ensures IsPub(e) && GroupOf(s, PubKey(c, e.m)) != [] ==> PassesGate(c, e.m, GroupOf(s, PubKey(c, e.m))[0])
  {
    hide Sealed, SealedPair, PassesGate;
    if IsPub(e) {
      PlainNamed(sc, e.m);
      SameKey(c, sc, e.m);
      hide Honest, SealedFor, SealedClient, PubKey, Keyed;
      var key := PubKey(c, e.m);
      if GroupOf(s, key) != [] {
        assert SealedGroup(sc, key, s.subs[key]);
        GateOpens(c, sc, e.m, key, GroupOf(s, key)[0]);
      }
    }
  }

  /** In a run of honest encrypted messages the gate is always open, as in plaintext operation. */
  lemma {:induction false} HonestGateIsOpen(c: Config, sc: Scheme, es: seq<Event>, key: string, i: nat)
    requires Keyed(c, sc) && c.Valid() && HonestEvents(sc, es)
    ensures NeverShut(c, es, key, i)
  {
    hide Run, PassesGate, Keyed, SealedState, Honest, BrakeRate.Erases, Joins, PubKey;
    if es != [] {
      var before, e := es[..|es| - 1], es[|es| - 1];
      HonestGateIsOpen(c, sc, before, key, i);
      EncryptedRunIsPlaintextRun(c, sc, before);
      HonestGateStep(c, sc, Run(c, before), e);
    }
  }

  /** A subscriber of an encrypted broker with honest clients whose digest was not braked since it
      joined has the nearest of all publications on the digest since then, just as in plaintext
      operation. */
  lemma EncryptedSubscriberHasTheNearest(c: Config, sc: Scheme, es: seq<Event>, key: string, i: nat)
    requires Keyed(c, sc) && c.Valid() && HonestEvents(sc, es)
    requires i < |GroupOf(Run(c, es), key)| && NeverBraked(c, es, key, i)
    ensures NearestSoFar(c.numbers, GroupOf(Run(c, es), key)[i], Heard(c, es, key, i), Sent(c, es, key, i))
  {
    hide Run, NearestSoFar, Keyed, HonestEvents, NeverShut, NeverRefused, NeverBraked;
    HonestGateIsOpen(c, sc, es, key, i);
    UnbrakedRefusesNothing(c, es, key, i);
    SubscriberHasTheNearest(c, es, key, i);
  }
}
