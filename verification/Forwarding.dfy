/** Where a publication goes and what is passed on, over every run, said in terms of the
    messages, the configuration and what the broker was seen to send before. */
module Forwarding {
  import opened Outcomes
  import opened Geo
  import opened BrokerModel
  import opened BrokerRuns
  import opened BrakeRate
  import opened QuadrantFilter

  // ---------- reading a publication ----------

  /** The service a publication is about: its name, or the printed hash of the name when an
      encrypted broker has it straight from a client. */
  predicate IsAbout(c: Config, m: Msg, key: string) {
    && m.kind == PUBLISH && m.name.Some?
    && key == if c.heEnabled && m.blind.Some? && !m.flags.fromChild && !m.flags.fromParent
              then c.decimal(c.hash(m.name.value)) else m.name.value
  }

  /** A message without coordinates speaks of the origin. */
  predicate IsAt(m: Msg, place: Point) {
    place == if m.coords.Some? then m.coords.value else Point(0.0, 0.0)
  }

  /** The same sign of both coordinates, zero counting as positive. */
  predicate SameQuarter(a: Point, b: Point) {
    (a.lat >= 0.0 <==> b.lat >= 0.0) && (a.lon >= 0.0 <==> b.lon >= 0.0)
  }

  /** Publications of a service share a brake window exactly when they lie in the same quarter
      of the plane. */
  lemma QuartersShareWindows(a: Point, b: Point)
    ensures GetQuadrant(a) == GetQuadrant(b) <==> SameQuarter(a, b)
  {
  }

  /** A publication as it is passed on: service, place, blinded value and payload as received. */
  function PassedOn(m: Msg, key: string, place: Point, fromChild: bool): Msg {
    Msg(PUBLISH, Some(key), Some(place), Flags(false, fromChild, !fromChild), None, m.blind, None, m.payload)
  }

  lemma ReadAs(c: Config, m: Msg, key: string, place: Point)
    requires IsAbout(c, m, key) && IsAt(m, place)
    ensures m.name.Some? && PubKey(c, m) == key && PointOf(m) == place
    ensures Forwarded(m, key, FROM_CHILD) == PassedOn(m, key, place, true)
    ensures Forwarded(m, key, FROM_PARENT) == PassedOn(m, key, place, false)
  {
  }

  // ---------- upwards ----------

  /** The entries at the front that are too old number k. */
  ghost predicate TooOld(queue: seq<int>, now: int, window: int, k: nat) {
    && k <= |queue| && (forall i :: 0 <= i < k ==> now - queue[i] > window)
    && (k < |queue| ==> now - queue[k] <= window)
  }

  /** Without them the queue still holds the limit. */
  ghost predicate StaysFull(queue: seq<int>, now: int, window: int, limit: int) {
    exists k :: TooOld(queue, now, window, k) && |queue| - k >= limit
  }

  lemma {:induction false} PrunePops(queue: seq<int>, now: int, window: int)
    ensures |Prune(queue, now, window)| <= |queue|
    ensures TooOld(queue, now, window, |queue| - |Prune(queue, now, window)|)
  {
    if queue != [] && now - queue[0] > window {
      PrunePops(queue[1..], now, window);
      var k := |queue| - |Prune(queue, now, window)|;
      forall i | 0 <= i < k ensures now - queue[i] > window {
        assert i > 0 ==> queue[i] == queue[1..][i - 1];
      }
    }
  }

  lemma RefusesWhenFull(queue: seq<int>, now: int, limit: int, window: int)
    ensures BrakeAdmits(queue, now, limit, window) <==> !StaysFull(queue, now, window, limit)
  {
    PrunePops(queue, now, window);
    var k := |queue| - |Prune(queue, now, window)|;
    assert forall j :: TooOld(queue, now, window, j) ==> j == k;
    hide Prune, TooOld;
  }

  /** What the upward stage leaves in the effects and the counters. */
  lemma UpwardStage(c: Config, s: State, e: Event, key: string, place: Point)
    requires c.Valid() && WellFormed(s) && e.Receive? && IsAbout(c, e.m, key) && IsAt(e.m, place)
    ensures var (t, fx) := Step(c, s, e);
            var up := PublishUp(c, s.brakeUp, e.m, key, e.now);
            && fx.up == up.sends && t.stats.forwardUp == s.stats.forwardUp + |up.sends|
            && t.stats.brakedUp == s.stats.brakedUp + One(up.braked)
  {
    ReadAs(c, e.m, key, place);
    hide PublishUp, PublishLocal, DownTargets, DownChildren, DownSends, CachePut, PubKey, FromId, PointOf;
  }

  /** In every state, whatever the clock does: a publication that did not come from the parent is
      sent up, once, unless the upward brake is on and its window is full; then it is counted. */
  lemma UpwardUnlessFull(c: Config, s: State, e: Event, key: string, place: Point)
    requires c.Valid() && WellFormed(s) && e.Receive? && IsAbout(c, e.m, key) && IsAt(e.m, place)
    ensures var (t, fx) := Step(c, s, e);
            var upwards := c.hasParent && !e.m.flags.fromParent;
            var queue := WindowOf(s.brakeUp, key, GetQuadrant(place));
            var braked := upwards && c.scope != Local && StaysFull(queue, e.now, c.brakeWindow, c.brakeLimit);
            && fx.up == (if upwards && !braked then [PassedOn(e.m, key, place, true)] else [])
            && t.stats.forwardUp == s.stats.forwardUp + |fx.up|
            && t.stats.brakedUp == s.stats.brakedUp + (if braked then 1 else 0)
  {
    UpwardStage(c, s, e, key, place);
    ReadAs(c, e.m, key, place);
    hide Step, BrakeWindows, Forwarded, PassedOn, StaysFull, BrakeAdmits, WindowOf, GetQuadrant, PointOf, PubKey;
    RefusesWhenFull(WindowOf(s.brakeUp, key, GetQuadrant(place)), e.now, c.brakeLimit, c.brakeWindow);
  }

  /** How many publications on the service from the same quarter were sent up in an interval,
      since a cleanup last erased the service. */
  ghost function SentUp(c: Config, es: seq<Event>, key: string, place: Point, lo: int, hi: int): nat
    requires c.Valid()
  {
    if es == [] then 0 else
      var before, e := es[..|es| - 1], es[|es| - 1];
      var s := Run(c, before);
      var (t, fx) := Step(c, s, e);
      if e.Cleanup? && key in s.subs && key !in t.subs then 0
      else
        SentUp(c, before, key, place, lo, hi)
        + if e.Receive? && IsAbout(c, e.m, key) && SameQuarter(PointOf(e.m), place) && fx.up != [] && lo <= e.now <= hi
          then 1 else 0
  }

  lemma ErasedIsGone(c: Config, s: State, e: Event, key: string)
    requires c.Valid() && WellFormed(s)
    ensures e.Cleanup? ==> (Erases(s, e, key) <==> key in s.subs && key !in Step(c, s, e).0.subs)
  {
    hide Handle;
  }

  lemma AdmittedGoesUp(c: Config, s: State, e: Event, key: string, place: Point)
    requires c.Valid() && WellFormed(s) && c.scope != Local && e.Receive?
    ensures Admits(c, s, e, UpwardBrake, key, GetQuadrant(place))
            <==> IsAbout(c, e.m, key) && SameQuarter(PointOf(e.m), place) && Step(c, s, e).1.up != []
  {
    if IsPub(e) {
      QuartersShareWindows(PointOf(e.m), place);
      assert IsAbout(c, e.m, PubKey(c, e.m));
      UpwardStage(c, s, e, PubKey(c, e.m), PointOf(e.m));
      hide Step, BrakeWindows, Forwarded, BrakeAdmits, WindowOf, GetQuadrant, PointOf, SameQuarter;
    }
  }

  lemma {:induction false} SentUpIsAdmitted(c: Config, es: seq<Event>, key: string, place: Point, lo: int, hi: int)
    requires c.Valid() && c.scope != Local
    ensures SentUp(c, es, key, place, lo, hi) == AdmittedIn(c, es, UpwardBrake, key, GetQuadrant(place), lo, hi)
  {
    hide Step, Admits, Erases, IsAbout, SameQuarter, GetQuadrant, PointOf, Run;
    if es != [] {
      var before, e := es[..|es| - 1], es[|es| - 1];
      SentUpIsAdmitted(c, before, key, place, lo, hi);
      ErasedIsGone(c, Run(c, before), e, key);
      AdmitsPubs(c, Run(c, before), e, UpwardBrake, key, GetQuadrant(place));
      if e.Receive? { AdmittedGoesUp(c, Run(c, before), e, key, place); }
    }
  }

  lemma AdmitsPubs(c: Config, s: State, e: Event, dir: BrakeDir, key: string, q: int)
    ensures Admits(c, s, e, dir, key, q) ==> IsPub(e)
    ensures Erases(s, e, key) ==> e.Cleanup?
  {
  }

  /** Over every run with a clock that never goes back: a publication that did not come from the
      parent is sent up, once and as received, unless brake_scope covers the upward direction and
      at least brake_limit publications on its service from its quarter were sent up in the
      brake_window seconds up to now; exactly then it is counted as braked. */
  lemma UpwardExactly(c: Config, es: seq<Event>, e: Event, key: string, place: Point)
    requires c.Valid() && Clocked(es + [e]) && e.Receive? && IsAbout(c, e.m, key) && IsAt(e.m, place)
    ensures var s := Run(c, es);
            var (t, fx) := Step(c, s, e);
            var upwards := c.hasParent && !e.m.flags.fromParent;
            var braked := upwards && (c.scope == Upward || c.scope == Both)
                          && SentUp(c, es, key, place, e.now - c.brakeWindow, e.now) >= c.brakeLimit;
            && fx.up == (if upwards && !braked then [PassedOn(e.m, key, place, true)] else [])
            && t.stats.forwardUp == s.stats.forwardUp + |fx.up|
            && t.stats.brakedUp == s.stats.brakedUp + (if braked then 1 else 0)
  {
    hide Run, Step, PassedOn, SentUp, AdmittedIn, GetQuadrant, IsAbout, IsAt, WindowOf, StaysFull, BrakeAdmits;
    assert Clocked(es) && (es != [] ==> es[|es| - 1].now <= e.now) by {
      assert (es + [e])[|es|] == e && forall i :: 0 <= i < |es| ==> (es + [e])[i] == es[i];
    }
    hide Clocked;
    UpwardUnlessFull(c, Run(c, es), e, key, place);
    RefusesWhenFull(WindowOf(Run(c, es).brakeUp, key, GetQuadrant(place)), e.now, c.brakeLimit, c.brakeWindow);
    AdmitsByRecentCount(c, es, UpwardBrake, key, GetQuadrant(place), e.now);
    if c.scope != Local { SentUpIsAdmitted(c, es, key, place, e.now - c.brakeWindow, e.now); }
  }

  // ---------- downwards ----------

  /** Whom a publication came from: the child with the sender's address, the parent, or a client
      under its printed address. */
  predicate IsSender(c: Config, e: Event, id: string) {
    e.Receive? && id == if e.m.flags.fromChild then e.who
                        else if e.m.flags.fromParent then "parent" else c.addrStr(e.from)
  }

  lemma DownwardStage(c: Config, s: State, e: Event, key: string, place: Point)
    requires c.Valid() && WellFormed(s) && e.Receive? && IsAbout(c, e.m, key) && IsAt(e.m, place)
    ensures var (t, fx) := Step(c, s, e);
            && (forall id :: id in fx.down ==> fx.down[id] == PassedOn(e.m, key, place, false))
            && t.stats.forwardDown == s.stats.forwardDown + |fx.down|
  {
    ReadAs(c, e.m, key, place);
    StepIsPublish(c, s, e);
    var targets := DownTargets(c, s.children, Lookup(s.childActive, key, {}), FromId(c, e.m, e.from, e.who), place);
    assert DownSends(e.m, key, targets).Keys == targets;
    hide Step, PublishUp, PublishLocal, DownTargets, DownChildren, CachePut, PubKey, FromId, PointOf, PassedOn,
         Forwarded;
  }

  /** What goes down, in every run: a publication goes to a child exactly when the child asked for
      its service and is not its sender, and it is strictly nearer to the centre of the quarter it
      is nearest to than the maximum and than everything considered for that child and quarter
      before, on any service. It goes as received, once, and is counted. */
  lemma DownwardExactly(c: Config, es: seq<Event>, e: Event, key: string, place: Point, id: string, q: nat,
                        centre: Point)
    requires c.Valid() && e.Receive? && IsAbout(c, e.m, key) && IsAt(e.m, place)
    requires id in Run(c, es).children ==> IsCentreFor(Run(c, es).children[id].region, place, q, centre)
    ensures var s := Run(c, es);
            var (t, fx) := Step(c, s, e);
            && (id in fx.down
                <==> id in s.children && key in s.childActive && id in s.childActive[key] && !IsSender(c, e, id)
                     && var d, before := GeoDistance(c.numbers, place, centre), Considered(c, es, id, q);
                        d < c.numbers.max && forall i :: 0 <= i < |before| ==> d < before[i])
            && (id in fx.down ==> fx.down[id] == PassedOn(e.m, key, place, false))
            && t.stats.forwardDown == s.stats.forwardDown + |fx.down|
  {
    var s := Run(c, es);
    hide Run, Step, PassedOn, Considered, Considers, IsAbout, IsAt, IsSender, PubKey, PointOf, GeoDistance, IsCentreFor,
         QuadrantFor, DistanceFor;
    DownwardStage(c, s, e, key, place);
    ReadAs(c, e.m, key, place);
    AboutIsPub(c, e, key);
    ForwardsAreRunningMinima(c, es, e, id);
    ConsideredWhen(c, s, e, key, id);
    if id in s.children { QuarterFor(c, s, e, id, q, centre); }
  }

  lemma AboutIsPub(c: Config, e: Event, key: string)
    requires e.Receive? && IsAbout(c, e.m, key)
    ensures IsPub(e)
  {
  }

  lemma QuarterFor(c: Config, s: State, e: Event, id: string, q: nat, centre: Point)
    requires e.Receive? && id in s.children && IsCentreFor(s.children[id].region, PointOf(e.m), q, centre)
    ensures QuadrantFor(s, e, id) == q && DistanceFor(c, s, e, id) == GeoDistance(c.numbers, PointOf(e.m), centre)
  {
    MeasuredToCentre(c, s, e, id);
    QuadrantIsNearest(s.children[id].region, PointOf(e.m), q, centre);
    hide GeoDistance, IsCentreFor, QuadrantFor, DistanceFor, Region.QuadrantOf, Region.QuadrantCenter;
  }

  lemma ConsideredWhen(c: Config, s: State, e: Event, key: string, id: string)
    requires e.Receive? && IsAbout(c, e.m, key)
    ensures Considers(c, s, e, id)
            <==> id in s.children && key in s.childActive && id in s.childActive[key] && !IsSender(c, e, id)
  {
  }
}
