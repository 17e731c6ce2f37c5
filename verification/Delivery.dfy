/** Which publications reach the subscribers of a broker, over every run, said in terms of the
    messages, the configuration and what the broker counted before. */
module Delivery {
  import opened Geo
  import opened BrokerModel
  import opened BrokerRuns
  import opened BrakeRate
  import opened ClosestFilter
  import opened Forwarding

  /** What the local stage leaves in the groups, the effects and the counters. */
  lemma LocalStage(c: Config, s: State, e: Event, key: string, place: Point)
    requires c.Valid() && WellFormed(s) && e.Receive? && IsAbout(c, e.m, key) && IsAt(e.m, place)
    ensures var (t, fx) := Step(c, s, e);
            var local := PublishLocal(c, s.brakeLocal, s.subs, e.m, key, e.now);
            && t.subs == local.subs && fx.out == local.out
            && t.stats.deliveredLocal == s.stats.deliveredLocal + |local.out|
            && t.stats.brakedLocal == s.stats.brakedLocal + One(local.braked)
            && t.stats.matchCalls == s.stats.matchCalls + One(local.called)
            && t.stats.matchHits == s.stats.matchHits + One(local.hit)
  {
    ReadAs(c, e.m, key, place);
    hide PublishUp, PublishLocal, DownTargets, DownChildren, DownSends, CachePut, PubKey, FromId, PointOf;
  }

  /** The comparison of the publication with a group is made: all three values are at hand. */
  predicate IsCompared(c: Config, m: Msg, group: seq<GeoClient>) {
    c.heEnabled && m.blind.Some? && group != [] && group[0].m1.Some?
  }

  /** It succeeds. */
  predicate IsAccepted(c: Config, m: Msg, group: seq<GeoClient>)
    requires c.Valid()
  {
    IsCompared(c, m, group) && BlindedMatch.ExecuteMatch(c.heN, c.heMu, m.blind.value, group[0].m1, group[0].m2)
  }

  /** What one publication does to the subscribers of its service, to what is sent, and to the counters. */
  ghost predicate Delivers(c: Config, s: State, t: State, fx: Effects, m: Msg, key: string, place: Point, braked: bool)
    requires c.Valid()
  {
    var group, after := GroupOf(s, key), GroupOf(t, key);
    var compared, accepted := !braked && IsCompared(c, m, group), !braked && IsAccepted(c, m, group);
    var reached := !braked && (c.heEnabled && m.blind.Some? ==> accepted);
    && fx.out == (if reached then Flat(SendsOf(c.numbers, group, CachedPub(place, m))) else [])
    && |after| == |group|
    && (forall i :: 0 <= i < |group| ==>
          after[i] == if reached && GeoDistance(c.numbers, place, group[i].at) < group[i].closest
                      then group[i].(closest := GeoDistance(c.numbers, place, group[i].at)) else group[i])
    && (forall other :: other != key ==> GroupOf(t, other) == GroupOf(s, other))
    && t.stats.deliveredLocal == s.stats.deliveredLocal + |fx.out|
    && t.stats.brakedLocal == s.stats.brakedLocal + (if braked then 1 else 0)
    && t.stats.matchCalls == s.stats.matchCalls + (if compared then 1 else 0)
    && t.stats.matchHits == s.stats.matchHits + (if accepted then 1 else 0)
  }

  /** The ways the local stage can end. */
  lemma LocalCases(c: Config, windows: Windows, subs: map<string, seq<GeoClient>>, m: Msg, key: string, now: int)
    requires c.Valid()
    ensures var local, group := PublishLocal(c, windows, subs, m, key, now), Lookup(subs, key, []);
            var braked := group != [] && c.scope != Upward && !BrakeAllows(c, windows, key, PointOf(m), now);
            var open := !braked && (c.heEnabled && m.blind.Some? ==> IsAccepted(c, m, group));
            && local.braked == braked && local.called == (!braked && IsCompared(c, m, group))
            && local.hit == (!braked && IsAccepted(c, m, group))
            && (open && group != [] ==> local.subs == subs[key := DeliverClients(c.numbers, group, PointOf(m))]
                                        && local.out == DeliverSends(c.numbers, group, PointOf(m), m))
            && (!open || group == [] ==> local.subs == subs && local.out == [])
  {
    hide BrakeWindows, BrakeAllows, DeliverClients, DeliverSends, PointOf, BlindedMatch.ExecuteMatch;
  }

  /** In every state, whatever the clock does: a publication on a service with subscribers is
      delivered unless the local brake is on and its window is full, or it carries a blinded value
      and the first subscriber's do not match. */
  lemma DeliversUnlessFull(c: Config, s: State, e: Event, key: string, place: Point)
    requires c.Valid() && WellFormed(s) && e.Receive? && IsAbout(c, e.m, key) && IsAt(e.m, place)
    ensures var (t, fx) := Step(c, s, e);
            var queue := WindowOf(s.brakeLocal, key, GetQuadrant(place));
            var braked := GroupOf(s, key) != [] && c.scope != Upward
                          && StaysFull(queue, e.now, c.brakeWindow, c.brakeLimit);
            Delivers(c, s, t, fx, e.m, key, place, braked)
  {
    var group := GroupOf(s, key);
    hide Step, StaysFull, BrakeAdmits, WindowOf, GetQuadrant, PointOf, PubKey, DeliverClients, IsAccepted, IsCompared,
         DeliverSends, SendsOf, IsAbout, IsAt, PublishLocal, Forwarded, PassedOn;
    LocalStage(c, s, e, key, place);
    LocalCases(c, s.brakeLocal, s.subs, e.m, key, e.now);
    ReadAs(c, e.m, key, place);
    RefusesWhenFull(WindowOf(s.brakeLocal, key, GetQuadrant(place)), e.now, c.brakeLimit, c.brakeWindow);
    DeliverSplit(c.numbers, group, place, e.m);
    DeliverAll(c.numbers, group, place);
    NobodyToSend(c.numbers, CachedPub(place, e.m));
  }

  lemma NobodyToSend(m: Numbers, p: CachedPub)
    ensures Flat(SendsOf(m, [], p)) == []
  {
  }

  lemma DeliverAll(m: Numbers, group: seq<GeoClient>, at: Point)
    ensures forall i :: 0 <= i < |group| ==>
              DeliverClients(m, group, at)[i] == if GeoDistance(m, at, group[i].at) < group[i].closest
                                                 then group[i].(closest := GeoDistance(m, at, group[i].at))
                                                 else group[i]
  {
    hide GeoDistance;
    forall i | 0 <= i < |group| ensures DeliverClients(m, group, at)[i] == Noticed(m, group[i], at) {
      DeliverEach(m, group, at, i);
    }
  }

  /** How many publications on the service from the same quarter found subscribers and were not
      counted as braked, in an interval, since a cleanup last erased the service. */
  ghost function Unbraked(c: Config, es: seq<Event>, key: string, place: Point, lo: int, hi: int): nat
    requires c.Valid()
  {
    if es == [] then 0 else
      var before, e := es[..|es| - 1], es[|es| - 1];
      var s := Run(c, before);
      var t := Step(c, s, e).0;
      if e.Cleanup? && key in s.subs && key !in t.subs then 0
      else
        Unbraked(c, before, key, place, lo, hi)
        + if e.Receive? && IsAbout(c, e.m, key) && SameQuarter(PointOf(e.m), place) && GroupOf(s, key) != []
             && t.stats.brakedLocal == s.stats.brakedLocal && lo <= e.now <= hi
          then 1 else 0
  }

  lemma AdmittedIsUnbraked(c: Config, s: State, e: Event, key: string, place: Point)
    requires c.Valid() && WellFormed(s) && c.scope != Upward && e.Receive?
    ensures Admits(c, s, e, LocalBrake, key, GetQuadrant(place))
            <==> IsAbout(c, e.m, key) && SameQuarter(PointOf(e.m), place) && GroupOf(s, key) != []
                 && Step(c, s, e).0.stats.brakedLocal == s.stats.brakedLocal
  {
    if IsPub(e) {
      QuartersShareWindows(PointOf(e.m), place);
      assert IsAbout(c, e.m, PubKey(c, e.m));
      LocalStage(c, s, e, PubKey(c, e.m), PointOf(e.m));
      hide Step, BrakeWindows, BrakeAdmits, WindowOf, GetQuadrant, PointOf, SameQuarter, PassesGate, CallsMatch,
           DeliverClients, DeliverSends;
    }
  }

  lemma {:induction false} UnbrakedIsAdmitted(c: Config, es: seq<Event>, key: string, place: Point, lo: int, hi: int)
    requires c.Valid() && c.scope != Upward
    ensures Unbraked(c, es, key, place, lo, hi) == AdmittedIn(c, es, LocalBrake, key, GetQuadrant(place), lo, hi)
  {
    hide Step, Admits, Erases, IsAbout, SameQuarter, GetQuadrant, PointOf, Run, GroupOf;
    if es != [] {
      var before, e := es[..|es| - 1], es[|es| - 1];
      UnbrakedIsAdmitted(c, before, key, place, lo, hi);
      ErasedIsGone(c, Run(c, before), e, key);
      AdmitsPubs(c, Run(c, before), e, LocalBrake, key, GetQuadrant(place));
      if e.Receive? { AdmittedIsUnbraked(c, Run(c, before), e, key, place); }
    }
  }

  /** Over every run with a clock that never goes back: a publication on a service with subscribers
      is braked exactly when brake_scope covers local delivery and at least brake_limit such
      publications on the service from its quarter were not in the brake_window seconds up to now.
      Otherwise it is compared exactly when it and the first subscriber carry a blinded value and
      the broker has a key, and reaches the subscribers it is strictly nearer to unless that
      comparison is owed and does not succeed. */
  lemma DeliversExactly(c: Config, es: seq<Event>, e: Event, key: string, place: Point)
    requires c.Valid() && Clocked(es + [e]) && e.Receive? && IsAbout(c, e.m, key) && IsAt(e.m, place)
    ensures var s := Run(c, es);
            var (t, fx) := Step(c, s, e);
            var braked := GroupOf(s, key) != [] && (c.scope == Local || c.scope == Both)
                          && Unbraked(c, es, key, place, e.now - c.brakeWindow, e.now) >= c.brakeLimit;
            Delivers(c, s, t, fx, e.m, key, place, braked)
  {
    hide Run, Step, Unbraked, AdmittedIn, GetQuadrant, IsAbout, IsAt, WindowOf, StaysFull, BrakeAdmits, Delivers,
         GroupOf;
    assert Clocked(es) && (es != [] ==> es[|es| - 1].now <= e.now) by {
      assert (es + [e])[|es|] == e && forall i :: 0 <= i < |es| ==> (es + [e])[i] == es[i];
    }
    hide Clocked;
    DeliversUnlessFull(c, Run(c, es), e, key, place);
    RefusesWhenFull(WindowOf(Run(c, es).brakeLocal, key, GetQuadrant(place)), e.now, c.brakeLimit, c.brakeWindow);
    AdmitsByRecentCount(c, es, LocalBrake, key, GetQuadrant(place), e.now);
    if c.scope != Upward { UnbrakedIsAdmitted(c, es, key, place, e.now - c.brakeWindow, e.now); }
  }
}
