/** The nearest distances a broker keeps per child and quadrant, over every run: each is the
    least distance ever considered there, on any service, and exactly the strict running
    minima were forwarded. */
module QuadrantFilter {
  import opened Geo
  import opened BrokerModel
  import opened BrokerRuns
  import opened Routing

  /** The publication is considered for a known child: active for its key, not its sender. */
  predicate Considers(c: Config, s: State, e: Event, id: string) {
    && IsPub(e) && id in s.children && id in Lookup(s.childActive, PubKey(c, e.m), {})
    && id != FromId(c, e.m, e.from, e.who)
  }

  /** The quarter of the child's region the publication is nearest to: south or north by the
      side it is nearer to, then west or east; ties go north and east. */
  function QuadrantFor(s: State, e: Event, id: string): (q: nat)
    requires e.Receive? && id in s.children
    ensures q < 4
  {
    var r, p := s.children[id].region, PointOf(e.m);
    (if p.lat - r.minLat < r.maxLat - p.lat then 0 else 2) + (if p.lon - r.minLon < r.maxLon - p.lon then 0 else 1)
  }

  /** Halfway between the middle of [lo, hi] and the end nearer to a coordinate. */
  function Halfway(lo: real, hi: real, at: real): (x: real)
    ensures IsHalfway(lo, hi, at, x)
  {
    (if at - lo < hi - at then 3.0 * lo + hi else lo + 3.0 * hi) / 4.0
  }

  /** How far the publication is from the centre of that quarter. */
  function DistanceFor(c: Config, s: State, e: Event, id: string): real
    requires e.Receive? && id in s.children
  {
    var r, p := s.children[id].region, PointOf(e.m);
    GeoDistance(c.numbers, p, Point(Halfway(r.minLat, r.maxLat, p.lat), Halfway(r.minLon, r.maxLon, p.lon)))
  }

  lemma MeasuredToCentre(c: Config, s: State, e: Event, id: string)
    requires e.Receive? && id in s.children
    ensures QuadrantFor(s, e, id) == s.children[id].region.QuadrantOf(PointOf(e.m))
    ensures DistanceFor(c, s, e, id) == QuadrantDistance(c, s.children[id], PointOf(e.m))
  {
    var r, p := s.children[id].region, PointOf(e.m);
    var centre := Point(Halfway(r.minLat, r.maxLat, p.lat), Halfway(r.minLon, r.maxLon, p.lon));
    QuadrantIsNearest(r, p, QuadrantFor(s, e, id), centre);
    hide GeoDistance, Halfway, Region.QuadrantOf, Region.QuadrantCenter;
  }

  function Kept(s: State, id: string, q: nat, default: real): real
    requires WellFormed(s) && q < 4
  {
    if id in s.children then s.children[id].closestQuad[q] else default
  }

  // ---------- one step ----------

  lemma PublishChildren(c: Config, s: State, m: Msg, from: Addr, who: string, now: int)
    requires c.Valid() && WellFormed(s) && m.name.Some?
    ensures var targets := DownTargets(c, s.children, Lookup(s.childActive, PubKey(c, m), {}),
                                       FromId(c, m, from, who), PointOf(m));
            var (t, fx) := HandlePublish(c, s, m, from, who, now);
            t.children == DownChildren(c, s.children, targets, PointOf(m)) && fx.down.Keys == targets
  {
    hide PublishUp, PublishLocal, DownTargets, DownChildren, CachePut, PublishStats, PubKey, FromId, Forwarded;
  }

  /** A publication considered for a child is forwarded to it exactly when it is strictly nearer
      than the distance kept for its quadrant, which it then replaces. */
  lemma PublishKeeps(c: Config, s: State, e: Event, id: string, q: nat)
    requires c.Valid() && WellFormed(s) && IsPub(e) && q < 4
    ensures var (t, fx) := Step(c, s, e);
            && WellFormed(t)
            && (id in fx.down
                <==> Considers(c, s, e, id)
                     && DistanceFor(c, s, e, id) < s.children[id].closestQuad[QuadrantFor(s, e, id)])
            && Kept(t, id, q, c.numbers.max)
               == if id in fx.down && QuadrantFor(s, e, id) == q then DistanceFor(c, s, e, id)
                  else Kept(s, id, q, c.numbers.max)
  {
    StepWellFormed(c, s, e);
    PublishChildren(c, s, e.m, e.from, e.who, e.now);
    StepIsPublish(c, s, e);
    if id in s.children { MeasuredToCentre(c, s, e, id); }
    hide Step, HandlePublish, PubKey, FromId, QuadrantDistance, PointOf, Region.QuadrantOf, QuadrantFor, DistanceFor;
  }

  lemma OtherKeeps(c: Config, s: State, e: Event, id: string, q: nat)
    requires c.Valid() && WellFormed(s) && !IsPub(e) && q < 4
    ensures WellFormed(Step(c, s, e).0) && Kept(Step(c, s, e).0, id, q, c.numbers.max) == Kept(s, id, q, c.numbers.max)
    ensures s.children.Keys <= Step(c, s, e).0.children.Keys
  {
    StepWellFormed(c, s, e);
    if e.Receive? {
      ChildrenAfter(c, s, e.m, e.from, e.who, e.now);
      if e.m.kind == PUBLISH { PublishNameless(c, s, e.m, e.from, e.who, e.now); }
    }
    hide HandlePublish, HandleSubscribe, Hull, HandleHello, HandleRegionUpdate, Expired, PubCounted;
  }

  // ---------- over runs ----------

  /** The distances considered for a child in a quadrant, on all services, in order. */
  ghost function Considered(c: Config, es: seq<Event>, id: string, q: nat): seq<real>
    requires c.Valid()
  {
    if es == [] then [] else
      var before, e := es[..|es| - 1], es[|es| - 1];
      var s := Run(c, before);
      if Considers(c, s, e, id) && QuadrantFor(s, e, id) == q
      then Considered(c, before, id, q) + [DistanceFor(c, s, e, id)]
      else Considered(c, before, id, q)
  }

  /** The least of some distances and the maximum. */
  function Lowest(max: real, ds: seq<real>): real {
    if ds == [] then max else Min(Lowest(max, ds[..|ds| - 1]), ds[|ds| - 1])
  }

  lemma {:induction false} LowestIsLeast(max: real, ds: seq<real>, x: real)
    ensures x < Lowest(max, ds) <==> x < max && forall i :: 0 <= i < |ds| ==> x < ds[i]
  {
    if ds != [] { LowestIsLeast(max, ds[..|ds| - 1], x); }
  }

  lemma LowestAppend(max: real, ds: seq<real>, d: real)
    ensures Lowest(max, ds + [d]) == if d < Lowest(max, ds) then d else Lowest(max, ds)
  {
    assert (ds + [d])[..|ds|] == ds;
  }

  /** In every run the distance kept for a child and quadrant is the least ever considered
      there, whatever the service: nothing resets it, neither HELLO nor a new region nor expiry. */
  lemma {:induction false} KeptIsLowestConsidered(c: Config, es: seq<Event>, id: string, q: nat)
    requires c.Valid() && q < 4
    ensures Kept(Run(c, es), id, q, c.numbers.max) == Lowest(c.numbers.max, Considered(c, es, id, q))
  {
    hide Step, Considers, QuadrantFor, DistanceFor, Lowest;
    if es == [] {
      assert Lowest(c.numbers.max, []) == c.numbers.max by { NothingConsidered(c.numbers.max); }
    } else {
      var before, e := es[..|es| - 1], es[|es| - 1];
      var s := Run(c, before);
      KeptIsLowestConsidered(c, before, id, q);
      ConsidersPubs(c, s, e, id);
      if IsPub(e) {
        PublishKeeps(c, s, e, id, q);
        if Considers(c, s, e, id) {
          LowestAppend(c.numbers.max, Considered(c, before, id, q), DistanceFor(c, s, e, id));
        }
      } else {
        OtherKeeps(c, s, e, id, q);
      }
    }
  }

  lemma NothingConsidered(max: real)
    ensures Lowest(max, []) == max
  {
  }

  lemma ConsidersPubs(c: Config, s: State, e: Event, id: string)
    ensures Considers(c, s, e, id) ==> IsPub(e) && id in s.children
  {
  }

  /** What is forwarded down, in every run: a publication goes to a child exactly when the child
      is considered for it and it is strictly nearer to the centre of its quadrant than the
      maximum and than everything considered for that child and quadrant before, on any service. */
  lemma ForwardsAreRunningMinima(c: Config, es: seq<Event>, e: Event, id: string)
    requires c.Valid() && IsPub(e)
    ensures var s := Run(c, es);
            id in Step(c, s, e).1.down
            <==> Considers(c, s, e, id)
                 && var d, before := DistanceFor(c, s, e, id), Considered(c, es, id, QuadrantFor(s, e, id));
                    d < c.numbers.max && forall i :: 0 <= i < |before| ==> d < before[i]
  {
    var s := Run(c, es);
    PublishKeeps(c, s, e, id, 0);
    if id in s.children {
      var q := QuadrantFor(s, e, id);
      KeptIsLowestConsidered(c, es, id, q);
      LowestIsLeast(c.numbers.max, Considered(c, es, id, q), DistanceFor(c, s, e, id));
    }
    hide Run, Step, PubKey, FromId, QuadrantDistance, Lowest, Considered;
  }

  lemma {:induction false} ConsideredGrows(c: Config, es: seq<Event>, more: seq<Event>, id: string, q: nat, x: real)
    requires c.Valid() && x in Considered(c, es, id, q)
    ensures x in Considered(c, es + more, id, q)
    decreases |more|
  {
    hide Run, Considers, QuadrantFor, DistanceFor;
    if more == [] {
      assert es + more == es;
    } else {
      var all := es + more;
      assert all[..|all| - 1] == es + more[..|more| - 1];
      ConsideredGrows(c, es, more[..|more| - 1], id, q, x);
    }
  }

  lemma {:induction false} ChildrenStay(c: Config, es: seq<Event>, more: seq<Event>)
    requires c.Valid()
    ensures Run(c, es).children.Keys <= Run(c, es + more).children.Keys
    decreases |more|
  {
    hide Step;
    if more == [] {
      assert es + more == es;
    } else {
      var all, before := es + more, es + more[..|more| - 1];
      assert all[..|all| - 1] == before;
      ChildrenStay(c, es, more[..|more| - 1]);
      RoutingStep(c, Run(c, before), more[|more| - 1]);
    }
  }

  /** Over every continuation of every run no child is forgotten and no distance kept grows. */
  lemma QuadsNeverGrow(c: Config, es: seq<Event>, more: seq<Event>, id: string, q: nat)
    requires c.Valid() && q < 4
    ensures Run(c, es).children.Keys <= Run(c, es + more).children.Keys
    ensures Kept(Run(c, es + more), id, q, c.numbers.max) <= Kept(Run(c, es), id, q, c.numbers.max)
  {
    ChildrenStay(c, es, more);
    KeptIsLowestConsidered(c, es, id, q);
    KeptIsLowestConsidered(c, es + more, id, q);
    hide Run, Kept, Lowest, Considered;
    var max, before, after := c.numbers.max, Considered(c, es, id, q), Considered(c, es + more, id, q);
    var x := Lowest(max, before);
    forall i | 0 <= i < |before| ensures before[i] in after { ConsideredGrows(c, es, more, id, q, before[i]); }
    LowestIsLeast(max, before, x);
    LowestIsLeast(max, after, x);
  }

  /** Services share a child's distances: once a publication was considered for a child, no later
      one from the same place on any service is forwarded to it while the child's record shows
      the same region, whatever happened in between. */
  lemma OtherServicesAreSuppressed(c: Config, es: seq<Event>, e: Event, more: seq<Event>, later: Event, id: string)
    requires c.Valid() && IsPub(later) && Considers(c, Run(c, es), e, id) && PointOf(later.m) == PointOf(e.m)
    requires var s, t := Run(c, es), Run(c, es + [e] + more);
             id in t.children && t.children[id].region == s.children[id].region
    ensures id !in Step(c, Run(c, es + [e] + more), later).1.down
  {
    var s, t := Run(c, es), Run(c, es + [e] + more);
    var q, d := QuadrantFor(s, e, id), DistanceFor(c, s, e, id);
    assert d in Considered(c, es + [e], id, q) by { assert (es + [e])[..|es|] == es; }
    ConsideredGrows(c, es + [e], more, id, q, d);
    ForwardsAreRunningMinima(c, es + [e] + more, later, id);
    assert QuadrantFor(t, later, id) == q && DistanceFor(c, t, later, id) == d;
    hide Run, Step, Considered, Considers;
  }
}
