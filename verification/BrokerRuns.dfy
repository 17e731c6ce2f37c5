/** What holds in every run of one broker, whatever it receives. */
module BrokerRuns {
  import opened Geo
  import opened BrokerModel

  datatype Event = Receive(m: Msg, from: Addr, who: string, now: int) | Cleanup(now: int)

  ghost function Step(c: Config, s: State, e: Event): (State, Effects)
    requires c.Valid() && WellFormed(s)
  {
    match e
    case Receive(m, from, who, now) => Handle(c, s, m, from, who, now)
    case Cleanup(now) => (CleanupExpired(s, now), NOTHING)
  }

  lemma StepWellFormed(c: Config, s: State, e: Event)
    requires c.Valid() && WellFormed(s)
    ensures WellFormed(Step(c, s, e).0)
  {
    hide Handle, WellFormed;
    if e.Receive? { HandleWellFormed(c, s, e.m, e.from, e.who, e.now); } else { CleanupWellFormed(s, e.now); }
  }

  lemma CleanupWellFormed(s: State, now: int)
    requires WellFormed(s)
    ensures WellFormed(CleanupExpired(s, now))
  {
  }

  /** The state after a run from the start. */
  ghost function Run(c: Config, es: seq<Event>): (s: State)
    requires c.Valid()
    ensures WellFormed(s)
  {
    if es == [] then Initial(c) else
      var before := Run(c, es[..|es| - 1]);
      StepWellFormed(c, before, es[|es| - 1]);
      Step(c, before, es[|es| - 1]).0
  }

  lemma RunOneMore(c: Config, es: seq<Event>, e: Event)
    requires c.Valid()
    ensures Run(c, es + [e]) == Step(c, Run(c, es), e).0
  {
    assert (es + [e])[..|es|] == es;
    hide Step;
  }

  /** A clock that never goes back. */
  ghost predicate Clocked(es: seq<Event>) {
    forall i, j :: 0 <= i < j < |es| ==> es[i].now <= es[j].now
  }

  /** A named publication: the events the publication stages act on. */
  predicate IsPub(e: Event) {
    e.Receive? && e.m.kind == PUBLISH && e.m.name.Some?
  }

  // ---------- counters ----------

  /** Publications that may go up: named and not received from the parent. */
  function UpwardPubs(es: seq<Event>): nat {
    if es == [] then 0 else
      UpwardPubs(es[..|es| - 1]) + One(IsPub(es[|es| - 1]) && !es[|es| - 1].m.flags.fromParent)
  }

  ghost predicate CountersAgree(c: Config, st: Stats, upward: nat) {
    && st.forwardUp + st.brakedUp == (if c.hasParent then upward else 0)
    && st.matchHits <= st.matchCalls
    && st.matchCalls + st.brakedLocal <= st.pubReceived
  }

  lemma CounterStep(c: Config, s: State, e: Event, upward: nat)
    requires c.Valid() && WellFormed(s) && CountersAgree(c, s.stats, upward)
    ensures CountersAgree(c, Step(c, s, e).0.stats, upward + One(IsPub(e) && !e.m.flags.fromParent))
  {
    hide Hull, HandleSubscribe, HandlePublish;
    if e.Receive? {
      SubscribeKeeps(c, s, e.m, e.from, e.who, e.now);
      PublishCounters(c, s, e.m, e.from, e.who, e.now);
    }
  }

  lemma UpCount(c: Config, brakeUp: Windows, m: Msg, key: string, now: int)
    ensures var up := PublishUp(c, brakeUp, m, key, now);
            |up.sends| + One(up.braked) == One(c.hasParent && !m.flags.fromParent)
  {
    hide BrakeAllows, BrakeWindows, Forwarded;
  }

  lemma LocalCount(c: Config, brakeLocal: Windows, subs: map<string, seq<GeoClient>>, m: Msg, key: string, now: int)
    requires c.Valid()
    ensures var local := PublishLocal(c, brakeLocal, subs, m, key, now);
            One(local.called) + One(local.braked) <= 1 && One(local.hit) <= One(local.called)
  {
    hide BrakeAllows, BrakeWindows, DeliverClients, DeliverSends, Matches;
  }

  lemma PublishCounters(c: Config, s: State, m: Msg, from: Addr, who: string, now: int)
    requires c.Valid() && WellFormed(s)
    ensures var st, t := s.stats, HandlePublish(c, s, m, from, who, now).0.stats;
            && t.pubReceived == st.pubReceived + 1
            && t.forwardUp + t.brakedUp
               == st.forwardUp + st.brakedUp + One(c.hasParent && m.name.Some? && !m.flags.fromParent)
            && t.matchCalls + t.brakedLocal <= st.matchCalls + st.brakedLocal + 1
            && st.matchHits <= t.matchHits && t.matchHits - st.matchHits <= t.matchCalls - st.matchCalls
  {
    hide DownTargets, DownChildren, DownSends, CachePut, PublishUp, PublishLocal;
    if m.name.Some? {
      UpCount(c, s.brakeUp, m, PubKey(c, m), now);
      LocalCount(c, s.brakeLocal, s.subs, m, PubKey(c, m), now);
    }
  }

  /** The counters add up over every run. */
  lemma {:induction false} CountersAlwaysAgree(c: Config, es: seq<Event>)
    requires c.Valid()
    ensures CountersAgree(c, Run(c, es).stats, UpwardPubs(es))
  {
    if es != [] {
      CountersAlwaysAgree(c, es[..|es| - 1]);
      CounterStep(c, Run(c, es[..|es| - 1]), es[|es| - 1], UpwardPubs(es[..|es| - 1]));
    }
  }

  lemma StepIsPublish(c: Config, s: State, e: Event)
    requires c.Valid() && WellFormed(s) && IsPub(e)
    ensures Step(c, s, e) == HandlePublish(c, s, e.m, e.from, e.who, e.now)
  {
    hide HandlePublish;
  }

  ghost predicate SameCacheAndWindows(s: State, t: State) {
    t.cache == s.cache && t.brakeUp == s.brakeUp && t.brakeLocal == s.brakeLocal
  }

  lemma RoutineStep(c: Config, s: State, e: Event)
    requires c.Valid() && WellFormed(s) && e.Receive? && e.m.kind != SUBSCRIBE && e.m.kind != PUBLISH
    ensures SameCacheAndWindows(s, Step(c, s, e).0)
  {
    hide HandlePublish, HandleSubscribe, Hull, WellFormed;
  }

  /** A message that is no named publication leaves cache and brake windows alone. */
  lemma QuietStep(c: Config, s: State, e: Event)
    requires c.Valid() && WellFormed(s) && e.Receive? && !IsPub(e)
    ensures SameCacheAndWindows(s, Step(c, s, e).0)
  {
    hide HandlePublish, HandleSubscribe, HandleHello, HandleRegionUpdate, HandleHeartbeat, PubCounted, SubCounted;
    if e.m.kind == SUBSCRIBE {
      SubscribeKeeps(c, s, e.m, e.from, e.who, e.now);
    } else if e.m.kind == PUBLISH {
      PublishNameless(c, s, e.m, e.from, e.who, e.now);
    } else {
      hide Step;
      RoutineStep(c, s, e);
    }
  }

  // ---------- the publication cache ----------

  /** The publications of a key since it last expired, braked or not. */
  ghost function History(c: Config, es: seq<Event>, key: string): seq<CachedPub>
    requires c.Valid()
  {
    if es == [] then [] else
      var before, e := es[..|es| - 1], es[|es| - 1];
      if IsPub(e) && PubKey(c, e.m) == key then History(c, before, key) + [CachedPub(PointOf(e.m), e.m)]
      else if e.Cleanup? && key in Expired(Run(c, before), e.now) then []
      else History(c, before, key)
  }

  /** The last n elements, or all if there are fewer. */
  function LastOf<T>(s: seq<T>, n: nat): (r: seq<T>)
    ensures |r| == (if |s| < n then |s| else n) && forall i :: 0 <= i < |r| ==> r[i] == s[|s| - |r| + i]
  {
    if |s| <= n then s else s[|s| - n..]
  }

  /** A step changes a key's cache only by a publication on the key or its expiry. */
  lemma CacheStep(c: Config, s: State, e: Event, key: string)
    requires c.Valid() && WellFormed(s)
    ensures Lookup(Step(c, s, e).0.cache, key, [])
            == if IsPub(e) && PubKey(c, e.m) == key
               then Lookup(CachePut(s.cache, key, CachedPub(PointOf(e.m), e.m)), key, [])
               else if e.Cleanup? && key in Expired(s, e.now) then []
               else Lookup(s.cache, key, [])
  {
    hide Handle, HandlePublish, PubKey, PointOf;
    if IsPub(e) {
      PublishCache(c, s, e.m, e.from, e.who, e.now);
      assert Step(c, s, e).0 == HandlePublish(c, s, e.m, e.from, e.who, e.now).0 by { StepIsPublish(c, s, e); }
    } else if e.Receive? {
      QuietStep(c, s, e);
    }
  }

  lemma LastOfPut(cache: map<string, seq<CachedPub>>, key: string, h: seq<CachedPub>, p: CachedPub)
    requires Lookup(cache, key, []) == LastOf(h, MAX_PUB_CACHE)
    ensures Lookup(CachePut(cache, key, p), key, []) == LastOf(h + [p], MAX_PUB_CACHE)
  {
  }

  /** The cache of a key always holds the last ten publications on it since it last expired. */
  lemma {:induction false} CacheIsRecentHistory(c: Config, es: seq<Event>, key: string)
    requires c.Valid()
    ensures Lookup(Run(c, es).cache, key, []) == LastOf(History(c, es, key), 10)
  {
    if es != [] {
      var before, e := es[..|es| - 1], es[|es| - 1];
      CacheIsRecentHistory(c, before, key);
      CacheStep(c, Run(c, before), e, key);
      hide Step;
      if IsPub(e) && PubKey(c, e.m) == key {
        LastOfPut(Run(c, before).cache, key, History(c, before, key), CachedPub(PointOf(e.m), e.m));
      }
    }
  }

  /** A nearest publication with no equally near one before it. */
  ghost predicate IsBest(m: Numbers, pubs: seq<CachedPub>, at: Point, b: nat)
    requires b < |pubs|
  {
    && (forall i :: 0 <= i < |pubs| ==> GeoDistance(m, at, pubs[b].at) <= GeoDistance(m, at, pubs[i].at))
    && (forall i :: 0 <= i < b ==> GeoDistance(m, at, pubs[b].at) < GeoDistance(m, at, pubs[i].at))
  }

  /** A query is answered with the nearest publication below the maximal distance, the earliest on ties. */
  lemma {:induction false} NearestIsBest(m: Numbers, pubs: seq<CachedPub>, at: Point, n: nat)
    requires n <= |pubs|
    ensures var best := NearestCached(m, pubs, at, n);
            && (best.None? <==> forall i :: 0 <= i < n ==> GeoDistance(m, at, pubs[i].at) >= m.max)
            && (best.Some? ==>
                  && GeoDistance(m, at, pubs[best.value].at) < m.max
                  && IsBest(m, pubs[..n], at, best.value))
  {
    hide GeoDistance;
    if n != 0 { NearestIsBest(m, pubs, at, n - 1); }
  }

  /** What a query subscription receives, over every run: nothing when no recent publication
      is below the maximal distance, otherwise the nearest of the last ten, the earliest on
      ties; the subscriber starts with that distance. */
  lemma QueryGetsNearestRecent(c: Config, es: seq<Event>, m: Msg, from: Addr, now: int)
    requires c.Valid() && m.name.Some? && m.flags.queryMode
    ensures var key, at := SubKey(c, m), PointOf(m);
            var recent := LastOf(History(c, es, key), 10);
            var (after, fx) := SubscribeFromClient(c, Run(c, es), m, from, now);
            var group := after.subs[key];
            if forall i :: 0 <= i < |recent| ==> GeoDistance(c.numbers, at, recent[i].at) >= c.numbers.max
            then fx.out == [] && group[|group| - 1].closest == c.numbers.max
            else exists b :: 0 <= b < |recent| && IsBest(c.numbers, recent, at, b)
                             && fx.out == [Delivery(from, recent[b].raw)]
                             && group[|group| - 1].closest == GeoDistance(c.numbers, at, recent[b].at)
  {
    hide GeoDistance, ExtendRegion, RegionNotice, Announcement, Announced, SubCounted;
    var key, at := SubKey(c, m), PointOf(m);
    CacheIsRecentHistory(c, es, key);
    var recent := Lookup(Run(c, es).cache, key, []);
    NearestIsBest(c.numbers, recent, at, |recent|);
    assert recent[..|recent|] == recent;
    var best := NearestCached(c.numbers, recent, at, |recent|);
    var (after, fx) := SubscribeFromClient(c, Run(c, es), m, from, now);
    hide NearestCached;
    if best.Some? { assert fx.out == [Delivery(from, recent[best.value].raw)]; }
  }
}
