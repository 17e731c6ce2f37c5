/** What a broker answers and passes on for every other kind of message, and what its counters
    count over whole runs. */
module Messages {
  import opened Outcomes
  import opened Geo
  import opened BrokerModel
  import opened BrokerRuns
  import opened ClosestFilter
  import opened Forwarding
  import opened Delivery

  // ---------- the messages a broker makes itself ----------

  /** A subscription passed to the parent: the service, the broker's own place, the child flag. */
  function ChildSubscribes(c: Config, key: string): Msg {
    Msg(SUBSCRIBE, Some(key), Some(c.at), Flags(false, true, false), None, None, None, [])
  }

  function ReportsRegion(c: Config, region: Region): Msg {
    Msg(REGION_UPDATE, Some(c.id), None, Flags(false, false, false), Some(region), None, None, [])
  }

  function Acknowledges(c: Config): Msg {
    Msg(HELLO_ACK, Some(c.id), None, Flags(false, false, false), None, None, None, [])
  }

  /** Counted as a subscription, and nothing else counted. */
  predicate CountsSubscription(st: Stats, after: Stats) {
    after == st.(subReceived := st.subReceived + 1)
  }

  // ---------- SUBSCRIBE ----------

  /** The service a client subscribes to: its name, or the printed hash of the name when the
      broker has a key and the subscription carries a blinded value. */
  predicate IsFor(c: Config, m: Msg, key: string) {
    && m.kind == SUBSCRIBE && m.name.Some? && !m.flags.fromChild
    && key == if c.heEnabled && m.blind.Some? then c.decimal(c.hash(m.name.value)) else m.name.value
  }

  /** A client's subscription adds one subscriber, at its address and place, with both blinded
      values or none. The parent hears of the region exactly when the place was outside it, and
      of the service exactly when it had not been announced. Without the query flag the client
      hears nothing and starts at the maximal distance. */
  lemma ClientSubscribes(c: Config, s: State, e: Event, key: string, place: Point)
    requires c.Valid() && WellFormed(s) && e.Receive? && IsFor(c, e.m, key) && IsAt(e.m, place)
    ensures var (t, fx) := Step(c, s, e);
            && fx.up == (if c.hasParent && !s.region.Contains(place) then [ReportsRegion(c, t.region)] else [])
                        + (if c.hasParent && key !in s.otParent then [ChildSubscribes(c, key)] else [])
            && fx.down == map[] && CountsSubscription(s.stats, t.stats)
            && t.otParent == s.otParent + (if c.hasParent then {key} else {})
            && |GroupOf(t, key)| == |GroupOf(s, key)| + 1 && GroupOf(s, key) <= GroupOf(t, key)
            && (forall other :: other != key ==> GroupOf(t, other) == GroupOf(s, other))
            && var cl, both := GroupOf(t, key)[|GroupOf(s, key)|], e.m.blind.Some? && e.m.blindHi.Some?;
               && cl.addr == e.from && cl.at == place
               && cl.m1 == (if both then e.m.blind.value else None)
               && cl.m2 == (if both then e.m.blindHi.value else None)
               && (!e.m.flags.queryMode ==> fx.out == [] && cl.closest == c.numbers.max)
  {
    var t := Step(c, s, e).0;
    FromClientFrame(c, s, e.m, e.from, e.now);
    assert t.region == s.region <==> s.region.Contains(place);
    hide NearestCached;
  }

  /** A child's subscription is noted for the child with the sender's address, and passed on once;
      from nobody the broker knows it is only counted. */
  lemma ChildSubscribed(c: Config, s: State, e: Event)
    requires c.Valid() && WellFormed(s) && e.Receive? && e.m.kind == SUBSCRIBE && e.m.name.Some? && e.m.flags.fromChild
    ensures var (t, fx) := Step(c, s, e);
            var key := e.m.name.value;
            && CountsSubscription(s.stats, t.stats) && fx.down == map[] && fx.out == []
            && (e.who == "" ==> t == s.(stats := t.stats) && fx.up == [])
            && (e.who != "" ==>
                  && fx.up == (if c.hasParent && key !in s.otParent then [ChildSubscribes(c, key)] else [])
                  && t.otParent == s.otParent + (if c.hasParent then {key} else {})
                  && t.childActive == s.childActive[key := Lookup(s.childActive, key, {}) + {e.who}]
                  && t == s.(stats := t.stats, otParent := t.otParent, childActive := t.childActive))
  {
  }

  // ---------- HELLO, REGION_UPDATE and the rest ----------

  /** A HELLO with name and place registers the child under its address, with a region of just
      that place, and is acknowledged to the sender; otherwise nothing happens. */
  lemma Greeted(c: Config, s: State, e: Event)
    requires c.Valid() && WellFormed(s) && e.Receive? && e.m.kind == HELLO
    ensures var (t, fx) := Step(c, s, e);
            if e.m.name.Some? && e.m.coords.Some? then
              var id, at := e.m.name.value, e.m.coords.value;
              && fx == Effects([], map[], [Delivery(e.from, Acknowledges(c))])
              && t == s.(children := t.children, region := t.region) && t.children.Keys == s.children.Keys + {id}
              && t.children[id].addr == e.from && t.children[id].region == Region(at.lat, at.lat, at.lon, at.lon)
              && forall other :: other in s.children && other != id ==> t.children[other] == s.children[other]
            else t == s && fx == Effects([], map[], [])
  {
    hide Hull;
  }

  /** A known child's REGION_UPDATE replaces its record, and a change of the broker's own region
      is reported; otherwise nothing happens. */
  lemma RegionReplaced(c: Config, s: State, e: Event)
    requires c.Valid() && WellFormed(s) && e.Receive? && e.m.kind == REGION_UPDATE
    ensures var (t, fx) := Step(c, s, e);
            if e.m.name.Some? && e.m.region.Some? && e.m.name.value in s.children then
              var id := e.m.name.value;
              && fx == Effects(if c.hasParent && t.region != s.region then [ReportsRegion(c, t.region)] else [],
                              map[], [])
              && t == s.(children := t.children, region := t.region)
              && t.children == s.children[id := s.children[id].(region := e.m.region.value)]
            else t == s && fx == Effects([], map[], [])
  {
    hide Hull;
  }

  /** Heartbeats and cleanups send nothing, acknowledgements and unknown messages do nothing at
      all, and messages that need a name and have none are only counted. */
  lemma NothingSent(c: Config, s: State, e: Event)
    requires c.Valid() && WellFormed(s)
    ensures var (t, fx) := Step(c, s, e);
            && (e.Cleanup? ==> fx == Effects([], map[], []) && t.stats == s.stats)
            && (e.Receive? && e.m.kind == HEARTBEAT ==>
                  fx == Effects([], map[], []) && t == s.(lastActive := t.lastActive))
            && (e.Receive? && (e.m.kind == HELLO_ACK || e.m.kind == OTHER) ==> t == s && fx == Effects([], map[], []))
            && (e.Receive? && e.m.kind == SUBSCRIBE && e.m.name.None? ==>
                  fx == Effects([], map[], []) && t == s.(stats := t.stats) && CountsSubscription(s.stats, t.stats))
            && (e.Receive? && e.m.kind == PUBLISH && e.m.name.None? ==>
                  fx == Effects([], map[], [])
                  && t == s.(stats := s.stats.(pubReceived := s.stats.pubReceived + 1)))
  {
    hide Hull, SubscribeFromChild, SubscribeFromClient, Expired;
    if e.Receive? && e.m.kind == PUBLISH && e.m.name.None? {
      PublishNameless(c, s, e.m, e.from, e.who, e.now);
    }
    hide HandlePublish;
  }

  // ---------- counters over runs ----------

  /** What was sent up, down and to clients for publications, and how many publications and
      subscriptions came, over a run. */
  datatype Totals = Totals(up: nat, down: nat, out: nat, pubs: nat, subs: nat)

  ghost function TotalsOf(c: Config, es: seq<Event>): Totals
    requires c.Valid()
  {
    if es == [] then Totals(0, 0, 0, 0, 0) else
      var before, e := es[..|es| - 1], es[|es| - 1];
      var sofar, fx := TotalsOf(c, before), Step(c, Run(c, before), e).1;
      if e.Receive? && e.m.kind == PUBLISH then
        Totals(sofar.up + |fx.up|, sofar.down + |fx.down|, sofar.out + |fx.out|, sofar.pubs + 1, sofar.subs)
      else if e.Receive? && e.m.kind == SUBSCRIBE then sofar.(subs := sofar.subs + 1)
      else sofar
  }

  lemma PublicationCounted(c: Config, s: State, e: Event)
    requires c.Valid() && WellFormed(s) && e.Receive? && e.m.kind == PUBLISH
    ensures var (t, fx) := Step(c, s, e);
            && t.stats.forwardUp == s.stats.forwardUp + |fx.up|
            && t.stats.forwardDown == s.stats.forwardDown + |fx.down|
            && t.stats.deliveredLocal == s.stats.deliveredLocal + |fx.out|
            && t.stats.pubReceived == s.stats.pubReceived + 1 && t.stats.subReceived == s.stats.subReceived
  {
    if e.m.name.None? {
      NothingSent(c, s, e);
    } else {
      var key, place := PubKey(c, e.m), PointOf(e.m);
      UpwardStage(c, s, e, key, place);
      DownwardStage(c, s, e, key, place);
      LocalStage(c, s, e, key, place);
      ReceivedOnce(c, s, e);
    }
    hide Step;
  }

  lemma ReceivedOnce(c: Config, s: State, e: Event)
    requires c.Valid() && WellFormed(s) && IsPub(e)
    ensures var t := Step(c, s, e).0;
            t.stats.pubReceived == s.stats.pubReceived + 1 && t.stats.subReceived == s.stats.subReceived
  {
    hide PublishUp, PublishLocal, DownTargets, DownChildren, DownSends, CachePut, PubKey, FromId;
  }

  lemma OthersCounted(c: Config, s: State, e: Event)
    requires c.Valid() && WellFormed(s) && !(e.Receive? && e.m.kind == PUBLISH)
    ensures var t := Step(c, s, e).0;
            if e.Receive? && e.m.kind == SUBSCRIBE then CountsSubscription(s.stats, t.stats) else t.stats == s.stats
  {
    hide Hull, HandleSubscribe, HandlePublish;
    if e.Receive? && e.m.kind == SUBSCRIBE { SubscribeKeeps(c, s, e.m, e.from, e.who, e.now); }
  }

  /** In every run the counters are the totals of what was sent and received. */
  lemma {:induction false} CountersAreTotals(c: Config, es: seq<Event>)
    requires c.Valid()
    ensures var st := Run(c, es).stats;
            TotalsOf(c, es) == Totals(st.forwardUp, st.forwardDown, st.deliveredLocal, st.pubReceived, st.subReceived)
  {
    hide Step;
    if es != [] {
      var before, e := es[..|es| - 1], es[|es| - 1];
      CountersAreTotals(c, before);
      if e.Receive? && e.m.kind == PUBLISH {
        PublicationCounted(c, Run(c, before), e);
      } else {
        OthersCounted(c, Run(c, before), e);
      }
    }
  }
}
