/** What a broker's region holds, over every run: it is recomputed from the configuration and
    the children whenever a child's record changes, and grows by subscribers in between. */
module Regions {
  import opened Outcomes
  import opened Geo
  import opened BrokerModel
  import opened BrokerRuns
  import opened Routing

  // ---------- least rectangles and their sides ----------

  ghost predicate Encloses(o: Region, at: Point, kids: map<string, Child>, pts: seq<Point>) {
    && o.Contains(at)
    && (forall id :: id in kids ==> o.Covers(kids[id].region))
    && (forall i :: 0 <= i < |pts| ==> o.Contains(pts[i]))
  }

  /** The least rectangle holding a point, the children's regions and more points. */
  ghost predicate IsLeast(r: Region, at: Point, kids: map<string, Child>, pts: seq<Point>) {
    forall o: Region :: o.Covers(r) <==> Encloses(o, at, kids, pts)
  }

  /** On each of the four sides the own point, a child's region or a point lies as far out as p. */
  predicate Reached(at: Point, kids: map<string, Child>, pts: seq<Point>, p: Point) {
    && (at.lat <= p.lat || (exists id :: id in kids && kids[id].region.minLat <= p.lat)
        || exists i :: 0 <= i < |pts| && pts[i].lat <= p.lat)
    && (p.lat <= at.lat || (exists id :: id in kids && p.lat <= kids[id].region.maxLat)
        || exists i :: 0 <= i < |pts| && p.lat <= pts[i].lat)
    && (at.lon <= p.lon || (exists id :: id in kids && kids[id].region.minLon <= p.lon)
        || exists i :: 0 <= i < |pts| && pts[i].lon <= p.lon)
    && (p.lon <= at.lon || (exists id :: id in kids && p.lon <= kids[id].region.maxLon)
        || exists i :: 0 <= i < |pts| && p.lon <= pts[i].lon)
  }

  /** The four sides of a rectangle, each so that smaller is farther out. */
  function Side(r: Region, k: nat): real {
    if k == 0 then r.minLat else if k == 1 then -r.maxLat else if k == 2 then r.minLon else -r.maxLon
  }

  function WithSide(r: Region, k: nat, y: real): Region {
    if k == 0 then r.(minLat := y) else if k == 1 then r.(maxLat := -y)
    else if k == 2 then r.(minLon := y) else r.(maxLon := -y)
  }

  ghost predicate SideReached(at: Point, kids: map<string, Child>, pts: seq<Point>, k: nat, x: real) {
    || Side(PointRegion(at), k) <= x
    || (exists id :: id in kids && Side(kids[id].region, k) <= x)
    || (exists i :: 0 <= i < |pts| && Side(PointRegion(pts[i]), k) <= x)
  }

  lemma {:induction false} BoundKids(kids: map<string, Child>, k: nat, x: real) returns (y: real)
    requires forall id :: id in kids ==> Side(kids[id].region, k) > x
    ensures y > x && forall id :: id in kids ==> y <= Side(kids[id].region, k)
    decreases |kids|
  {
    hide Side;
    if kids == map[] {
      y := x + 1.0;
    } else {
      var id :| id in kids;
      var rest := kids - {id};
      y := BoundKids(rest, k, x);
      assert forall i :: i in kids && i != id ==> i in rest && rest[i] == kids[i];
      y := Min(y, Side(kids[id].region, k));
    }
  }

  lemma {:induction false} BoundPoints(pts: seq<Point>, k: nat, x: real) returns (y: real)
    requires forall i :: 0 <= i < |pts| ==> Side(PointRegion(pts[i]), k) > x
    ensures y > x && forall i :: 0 <= i < |pts| ==> y <= Side(PointRegion(pts[i]), k)
  {
    hide Side;
    if pts == [] {
      y := x + 1.0;
    } else {
      y := BoundPoints(pts[1..], k, x);
      y := Min(y, Side(PointRegion(pts[0]), k));
      assert forall i :: 0 < i < |pts| ==> pts[i] == pts[1..][i - 1];
    }
  }

  lemma PushSide(o: Region, r: Region, k: nat, y: real)
    requires k < 4 && o.Covers(r) && y <= Side(r, k)
    ensures WithSide(o, k, y).Covers(r)
  {
  }

  /** A side of the least rectangle is as far out as something it holds. */
  lemma SideOfLeast(r: Region, at: Point, kids: map<string, Child>, pts: seq<Point>, k: nat, x: real)
    requires IsLeast(r, at, kids, pts) && k < 4
    ensures Side(r, k) <= x <==> SideReached(at, kids, pts, k, x)
  {
    assert r.Covers(r);
    assert Encloses(r, at, kids, pts);
    if !SideReached(at, kids, pts, k, x) {
      var y := BoundKids(kids, k, x);
      var z := BoundPoints(pts, k, x);
      y := Min(Min(y, z), Side(PointRegion(at), k));
      var o := WithSide(r, k, y);
      PushSide(r, PointRegion(at), k, y);
      forall id | id in kids ensures o.Covers(kids[id].region) { PushSide(r, kids[id].region, k, y); }
      forall i | 0 <= i < |pts| ensures o.Contains(pts[i]) { PushSide(r, PointRegion(pts[i]), k, y); }
      assert Encloses(o, at, kids, pts);
      assert o.Covers(r);
    }
  }

  /** The least rectangle contains a point exactly when each of its sides is reached. */
  lemma LeastContains(r: Region, at: Point, kids: map<string, Child>, pts: seq<Point>, p: Point)
    requires IsLeast(r, at, kids, pts)
    ensures r.Contains(p) <==> Reached(at, kids, pts, p)
  {
    SideOfLeast(r, at, kids, pts, 0, p.lat);
    SideOfLeast(r, at, kids, pts, 1, -p.lat);
    SideOfLeast(r, at, kids, pts, 2, p.lon);
    SideOfLeast(r, at, kids, pts, 3, -p.lon);
    hide IsLeast, Encloses;
    assert r.Contains(p)
           <==> Side(r, 0) <= p.lat && Side(r, 1) <= -p.lat && Side(r, 2) <= p.lon && Side(r, 3) <= -p.lon;
  }

  lemma HullIsLeast(c: Config, kids: map<string, Child>)
    ensures IsLeast(Hull(c, kids), c.at, kids, [])
  {
    var hull := Hull(c, kids);
    hide Hull;
    assert IsHull(hull, PointRegion(c.at), kids);
    forall o: Region ensures o.Covers(hull) <==> Encloses(o, c.at, kids, []) {
      assert o.Contains(c.at) <==> o.Covers(PointRegion(c.at));
    }
  }

  // ---------- one step ----------

  /** The event makes the broker recompute its region: a HELLO, or a known child's new region. */
  predicate Recomputes(s: State, e: Event) {
    e.Receive? && e.m.name.Some?
    && ((e.m.kind == HELLO && e.m.coords.Some?)
        || (e.m.kind == REGION_UPDATE && e.m.region.Some? && e.m.name.value in s.children))
  }

  /** The children's records it recomputes from. */
  function ChildrenThen(c: Config, s: State, e: Event): map<string, Child>
    requires Recomputes(s, e)
  {
    var id := e.m.name.value;
    s.children[id := if e.m.kind == HELLO then GreetedChild(c, s, id, e.m.coords.value, e.from)
                     else s.children[id].(region := e.m.region.value)]
  }

  lemma RecomputedRegion(c: Config, s: State, e: Event)
    requires c.Valid() && WellFormed(s) && Recomputes(s, e)
    ensures var t := Step(c, s, e).0; t.children == ChildrenThen(c, s, e) && t.region == Hull(c, ChildrenThen(c, s, e))
  {
    hide Hull;
  }

  /** A recomputation forgets subscribers: a point is inside afterwards exactly when on each
      side the broker's own point or a child's record, as they are when the message is
      handled, lies as far out. */
  lemma ClientsAreForgotten(c: Config, s: State, e: Event, p: Point)
    requires c.Valid() && WellFormed(s) && Recomputes(s, e)
    ensures Step(c, s, e).0.region.Contains(p) <==> Reached(c.at, ChildrenThen(c, s, e), [], p)
  {
    RecomputedRegion(c, s, e);
    hide Hull, Step;
    HullIsLeast(c, ChildrenThen(c, s, e));
    LeastContains(Hull(c, ChildrenThen(c, s, e)), c.at, ChildrenThen(c, s, e), [], p);
  }

  /** A subscription of a client, whatever the key. */
  predicate IsSubscription(e: Event) {
    e.Receive? && e.m.kind == SUBSCRIBE && e.m.name.Some? && !e.m.flags.fromChild
  }

  lemma SubscriptionRegion(c: Config, s: State, e: Event)
    requires c.Valid() && WellFormed(s) && IsSubscription(e)
    ensures var t := Step(c, s, e).0; t.region == ExtendRegion(s.region, PointOf(e.m)) && t.children == s.children
  {
    hide SubscribeFromClient, ExtendRegion, PointOf, SubKey, Registered, SubCounted;
    FromClientFrame(c, s, e.m, e.from, e.now);
  }

  /** The children's regions agree. */
  ghost predicate SameRegions(a: map<string, Child>, b: map<string, Child>) {
    a.Keys == b.Keys && forall id :: id in a ==> a[id].region == b[id].region
  }

  lemma PublishRegion(c: Config, s: State, e: Event)
    requires c.Valid() && WellFormed(s) && e.Receive? && e.m.kind == PUBLISH
    ensures var t := Step(c, s, e).0; t.region == s.region && SameRegions(t.children, s.children)
  {
    hide HandlePublish, PubKey, PointOf, CachePut, PubCounted;
    PublishKeepsChildren(c, s, e.m, e.from, e.who, e.now);
    if e.m.name.Some? {
      PublishCache(c, s, e.m, e.from, e.who, e.now);
    } else {
      PublishNameless(c, s, e.m, e.from, e.who, e.now);
    }
  }

  lemma ForwardedRegion(c: Config, s: State, e: Event)
    requires c.Valid() && WellFormed(s) && e.Receive? && e.m.kind == SUBSCRIBE && !IsSubscription(e)
    ensures var t := Step(c, s, e).0; t.region == s.region && t.children == s.children
  {
    hide SubscribeFromChild, SubCounted;
    if e.m.name.Some? { FromChildFrame(c, s, e.m.name.value, e.who); }
  }

  lemma OtherRegion(c: Config, s: State, e: Event)
    requires c.Valid() && WellFormed(s) && !Recomputes(s, e)
    requires e.Receive? ==> e.m.kind != PUBLISH && e.m.kind != SUBSCRIBE
    ensures var t := Step(c, s, e).0; t.region == s.region && t.children == s.children
  {
    hide HandlePublish, HandleSubscribe, Hull;
  }

  lemma QuietRegion(c: Config, s: State, e: Event)
    requires c.Valid() && WellFormed(s) && !IsSubscription(e) && !Recomputes(s, e)
    ensures var t := Step(c, s, e).0; t.region == s.region && SameRegions(t.children, s.children)
  {
    hide Step, Recomputes;
    if e.Receive? && e.m.kind == PUBLISH {
      PublishRegion(c, s, e);
    } else if e.Receive? && e.m.kind == SUBSCRIBE {
      ForwardedRegion(c, s, e);
    } else {
      OtherRegion(c, s, e);
    }
  }

  // ---------- over runs ----------

  /** The subscriber coordinates accepted since the region was last recomputed. */
  ghost function PointsSince(c: Config, es: seq<Event>): seq<Point>
    requires c.Valid()
  {
    if es == [] then [] else
      var before, e := es[..|es| - 1], es[|es| - 1];
      if Recomputes(Run(c, before), e) then []
      else if IsSubscription(e) then PointsSince(c, before) + [PointOf(e.m)]
      else PointsSince(c, before)
  }

  lemma LeastGrows(r: Region, at: Point, kids: map<string, Child>, pts: seq<Point>, p: Point)
    requires IsLeast(r, at, kids, pts)
    ensures IsLeast(ExtendRegion(r, p), at, kids, pts + [p])
  {
    var more := pts + [p];
    forall o: Region ensures o.Covers(ExtendRegion(r, p)) <==> Encloses(o, at, kids, more) {
      assert o.Covers(ExtendRegion(r, p)) <==> o.Covers(r) && o.Contains(p);
      assert more[|pts|] == p && forall i :: 0 <= i < |pts| ==> more[i] == pts[i];
    }
  }

  lemma LeastKept(r: Region, at: Point, a: map<string, Child>, b: map<string, Child>, pts: seq<Point>)
    requires IsLeast(r, at, a, pts) && SameRegions(b, a)
    ensures IsLeast(r, at, b, pts)
  {
    forall o: Region ensures o.Covers(r) <==> Encloses(o, at, b, pts) {
      assert Encloses(o, at, b, pts) <==> Encloses(o, at, a, pts);
    }
  }

  /** In every reachable state the region is the least rectangle of the broker's own point, the
      children's regions and exactly the subscriber coordinates accepted since it was last
      recomputed. */
  lemma {:induction false} RegionIsLeast(c: Config, es: seq<Event>)
    requires c.Valid()
    ensures IsLeast(Run(c, es).region, c.at, Run(c, es).children, PointsSince(c, es))
  {
    hide Step, IsLeast, Recomputes;
    if es == [] {
      InitialLeast(c);
    } else {
      var before, e := es[..|es| - 1], es[|es| - 1];
      var s, t := Run(c, before), Run(c, es);
      RegionIsLeast(c, before);
      if Recomputes(s, e) {
        RecomputedRegion(c, s, e);
        HullIsLeast(c, ChildrenThen(c, s, e));
      } else if IsSubscription(e) {
        SubscriptionRegion(c, s, e);
        LeastGrows(s.region, c.at, s.children, PointsSince(c, before), PointOf(e.m));
      } else {
        QuietRegion(c, s, e);
        LeastKept(s.region, c.at, s.children, t.children, PointsSince(c, before));
      }
    }
  }

  lemma InitialLeast(c: Config)
    ensures IsLeast(Initial(c).region, c.at, map[], [])
  {
  }

  /** What a region holds, over every run: exactly the points each of whose sides the broker's
      own point, a child's region or a subscriber since the last recomputation reaches. */
  lemma RegionHoldsExactly(c: Config, es: seq<Event>, p: Point)
    requires c.Valid()
    ensures Run(c, es).region.Contains(p) <==> Reached(c.at, Run(c, es).children, PointsSince(c, es), p)
  {
    RegionIsLeast(c, es);
    LeastContains(Run(c, es).region, c.at, Run(c, es).children, PointsSince(c, es), p);
  }

  /** In every reachable state the region contains the broker's own point and covers every
      child's region. */
  lemma RegionAlwaysCovers(c: Config, es: seq<Event>)
    requires c.Valid()
    ensures Run(c, es).region.Contains(c.at)
    ensures forall id :: id in Run(c, es).children ==> Run(c, es).region.Covers(Run(c, es).children[id].region)
  {
    RegionIsLeast(c, es);
    hide Run;
    var r := Run(c, es).region;
    assert r.Covers(r);
    assert Encloses(r, c.at, Run(c, es).children, PointsSince(c, es));
  }

  // ---------- brokers without children ----------

  /** The coordinates of every client that ever subscribed, expired or not. */
  function SubscriberPoints(es: seq<Event>): seq<Point> {
    if es == [] then [] else
      SubscriberPoints(es[..|es| - 1]) + if IsSubscription(es[|es| - 1]) then [PointOf(es[|es| - 1].m)] else []
  }

  lemma RecomputesNames(c: Config, s: State, e: Event)
    requires Recomputes(s, e)
    ensures e.Receive? && e.m.name.Some? && !IsSubscription(e)
    ensures ChildrenThen(c, s, e).Keys == s.children.Keys + {e.m.name.value}
  {
  }

  lemma RecomputingHasChildren(c: Config, s: State, e: Event)
    requires c.Valid() && WellFormed(s)
    ensures Recomputes(s, e) ==> Step(c, s, e).0.children != map[]
  {
    if Recomputes(s, e) {
      RecomputedRegion(c, s, e);
      RecomputesNames(c, s, e);
      hide Step, ChildrenThen, Recomputes;
      assert e.m.name.value in Step(c, s, e).0.children.Keys;
    }
  }

  lemma ChildlessBefore(c: Config, es: seq<Event>)
    requires c.Valid() && es != [] && Run(c, es).children == map[]
    ensures Run(c, es[..|es| - 1]).children == map[] && !Recomputes(Run(c, es[..|es| - 1]), es[|es| - 1])
  {
    var s, e := Run(c, es[..|es| - 1]), es[|es| - 1];
    hide Step, Recomputes, RoutingGrows;
    RecomputingHasChildren(c, s, e);
    ChildrenGrow(c, s, e);
    NoKeys(s.children, Run(c, es).children);
  }

  lemma ChildrenGrow(c: Config, s: State, e: Event)
    requires c.Valid() && WellFormed(s)
    ensures s.children.Keys <= Step(c, s, e).0.children.Keys
  {
    hide Step;
    RoutingStep(c, s, e);
  }

  /** A broker whose children's records never changed, because it has none, never recomputed. */
  lemma {:induction false} ChildlessNeverRecomputed(c: Config, es: seq<Event>)
    requires c.Valid() && Run(c, es).children == map[]
    ensures PointsSince(c, es) == SubscriberPoints(es)
    ensures forall j :: 0 <= j < |es| ==> !Recomputes(Run(c, es[..j]), es[j])
  {
    hide Step, Recomputes, IsSubscription, Run;
    if es != [] {
      var before := es[..|es| - 1];
      ChildlessBefore(c, es);
      ChildlessNeverRecomputed(c, before);
      assert forall j :: 0 <= j < |before| ==> es[..j] == before[..j] && es[j] == before[j];
      assert SubscriberPoints(before) + [] == SubscriberPoints(before);
    }
  }

  lemma NoKeys<K, V>(a: map<K, V>, b: map<K, V>)
    requires a.Keys <= b.Keys && b == map[]
    ensures a == map[]
  {
  }

  /** In every run, a broker that never had a child has as its region the least rectangle
      holding its own point and the coordinates of every subscriber it ever had. */
  lemma ChildlessRegionIsLeast(c: Config, es: seq<Event>)
    requires c.Valid() && Run(c, es).children == map[]
    ensures IsLeast(Run(c, es).region, c.at, map[], SubscriberPoints(es))
  {
    RegionIsLeast(c, es);
    ChildlessNeverRecomputed(c, es);
    hide Run, IsLeast;
  }

  // ---------- witnesses ----------

  function SubscriptionAt(name: string, p: Point, client: Addr, now: int): Event {
    Receive(Msg(SUBSCRIBE, Some(name), Some(p), NO_FLAGS, None, None, None, []), client, "", now)
  }

  function HelloAt(child: string, p: Point, from: Addr, now: int): Event {
    Receive(Msg(HELLO, Some(child), Some(p), NO_FLAGS, None, None, None, []), from, "", now)
  }

  function UpdateTo(child: string, r: Region, from: Addr, now: int): Event {
    Receive(Msg(REGION_UPDATE, Some(child), None, NO_FLAGS, Some(r), None, None, []), from, "", now)
  }

  const ORIGIN := Point(0.0, 0.0)
  const FAR_POINT := Point(10.0, 10.0)

  ghost predicate AllAtOrigin(kids: map<string, Child>) {
    forall id :: id in kids ==> kids[id].region == PointRegion(ORIGIN)
  }

  lemma PointsOneMore(es: seq<Event>, e: Event)
    ensures SubscriberPoints(es + [e]) == SubscriberPoints(es) + if IsSubscription(e) then [PointOf(e.m)] else []
  {
    assert (es + [e])[..|es|] == es;
  }

  lemma OneMore(c: Config, es: seq<Event>, e: Event)
    requires c.Valid()
    ensures Run(c, es + [e]) == Step(c, Run(c, es), e).0
    ensures SubscriberPoints(es + [e]) == SubscriberPoints(es) + if IsSubscription(e) then [PointOf(e.m)] else []
  {
    RunOneMore(c, es, e);
    PointsOneMore(es, e);
  }

  lemma OriginStep(c: Config, s: State, e: Event)
    requires c.Valid() && WellFormed(s) && c.at == ORIGIN && AllAtOrigin(s.children)
    requires IsSubscription(e) || (Recomputes(s, e) && AllAtOrigin(ChildrenThen(c, s, e)))
    ensures AllAtOrigin(Step(c, s, e).0.children)
    ensures Recomputes(s, e) ==> !Step(c, s, e).0.region.Contains(FAR_POINT)
  {
    hide Step;
    if Recomputes(s, e) {
      RecomputedRegion(c, s, e);
      ClientsAreForgotten(c, s, e, FAR_POINT);
    } else {
      SubscriptionRegion(c, s, e);
    }
  }

  ghost predicate Forgets(c: Config, es: seq<Event>)
    requires c.Valid()
  {
    SubscriberPoints(es) == [FAR_POINT] && !Run(c, es).region.Contains(FAR_POINT)
  }

  ghost predicate OriginRun(c: Config, es: seq<Event>, kids: set<string>, pts: seq<Point>)
    requires c.Valid()
  {
    AllAtOrigin(Run(c, es).children) && Run(c, es).children.Keys == kids && SubscriberPoints(es) == pts
  }

  lemma OriginSubscribes(c: Config, es: seq<Event>, kids: set<string>, sub: Event)
    requires c.Valid() && c.at == ORIGIN && OriginRun(c, es, kids, []) && IsSubscription(sub)
    requires PointOf(sub.m) == FAR_POINT
    ensures OriginRun(c, es + [sub], kids, [FAR_POINT])
  {
    OneMore(c, es, sub);
    SubscriptionRegion(c, Run(c, es), sub);
    hide Run, Step, SubscriberPoints;
  }

  lemma OriginRecomputes(c: Config, es: seq<Event>, kids: set<string>, pts: seq<Point>, e: Event)
    requires c.Valid() && c.at == ORIGIN && OriginRun(c, es, kids, pts) && e.Receive?
    requires Recomputes(Run(c, es), e) && AllAtOrigin(ChildrenThen(c, Run(c, es), e))
    ensures OriginRun(c, es + [e], kids + {e.m.name.value}, pts)
    ensures pts == [FAR_POINT] ==> Forgets(c, es + [e])
  {
    hide Run, Step, SubscriberPoints, Hull, ChildrenThen, Recomputes, AllAtOrigin;
    OneMore(c, es, e);
    RecomputesNames(c, Run(c, es), e);
    OriginStep(c, Run(c, es), e);
    RecomputedRegion(c, Run(c, es), e);
    assert pts + [] == pts;
  }

  /** A broker at the origin with a subscriber at (10, 10) loses that point when a child at the
      origin says HELLO, and when a known child at the origin reports its region. */
  lemma ForgottenClients(c: Config, name: string, child: string, client: Addr, from: Addr, now: int)
    returns (byHello: seq<Event>, byUpdate: seq<Event>)
    requires c.Valid() && c.at == ORIGIN
    ensures Forgets(c, byHello) && Forgets(c, byUpdate)
    ensures |byHello| > 0 && byHello[|byHello| - 1] == HelloAt(child, ORIGIN, from, now)
    ensures |byUpdate| > 0 && byUpdate[|byUpdate| - 1] == UpdateTo(child, PointRegion(ORIGIN), from, now)
  {
    var sub, hello := SubscriptionAt(name, FAR_POINT, client, now), HelloAt(child, ORIGIN, from, now);
    var update := UpdateTo(child, PointRegion(ORIGIN), from, now);
    byHello, byUpdate := [] + [sub] + [hello], [] + [hello] + [sub] + [update];
    assert OriginRun(c, [], {}, []);
    hide Run;
    OriginSubscribes(c, [], {}, sub);
    OriginRecomputes(c, [] + [sub], {}, [FAR_POINT], hello);
    OriginRecomputes(c, [], {}, [], hello);
    OriginSubscribes(c, [] + [hello], {} + {child}, sub);
    OriginRecomputes(c, [] + [hello] + [sub], {} + {child}, [FAR_POINT], update);
    hide Forgets;
  }
}
