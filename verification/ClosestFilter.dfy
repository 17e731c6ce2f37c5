/** The per-subscriber nearest filter over whole runs: what a subscriber has been sent are
    exactly the strict running minima of what its service offered it. */
module ClosestFilter {
  import opened Geo
  import opened BrokerModel
  import opened BrokerRuns
  import opened BrakeRate

  // ---------- running minima ----------

  function Distance(m: Numbers, at: Point, p: CachedPub): real {
    GeoDistance(m, p.at, at)
  }

  /** The least distance offered, starting from the maximum. */
  function Least(m: Numbers, at: Point, offers: seq<CachedPub>): real {
    if offers == [] then m.max else
      var d := Distance(m, at, offers[|offers| - 1]);
      var least := Least(m, at, offers[..|offers| - 1]);
      if d < least then d else least
  }

  /** The positions of the offers strictly nearer than the maximum and than all before. */
  function Records(m: Numbers, at: Point, offers: seq<CachedPub>): (r: seq<nat>)
    ensures forall k :: 0 <= k < |r| ==> r[k] < |offers|
  {
    if offers == [] then [] else
      var before := offers[..|offers| - 1];
      Records(m, at, before) + if Distance(m, at, offers[|offers| - 1]) < Least(m, at, before) then [|before|] else []
  }

  lemma {:induction false} LeastIsMinimum(m: Numbers, at: Point, offers: seq<CachedPub>)
    ensures var least := Least(m, at, offers);
            && least <= m.max && (forall i :: 0 <= i < |offers| ==> least <= Distance(m, at, offers[i]))
            && (least == m.max || exists i :: 0 <= i < |offers| && least == Distance(m, at, offers[i]))
  {
    hide Distance;
    if offers != [] {
      var before := offers[..|offers| - 1];
      LeastIsMinimum(m, at, before);
      if Least(m, at, offers) != m.max && Least(m, at, offers) == Least(m, at, before) {
        var i :| 0 <= i < |before| && Least(m, at, before) == Distance(m, at, before[i]);
        assert offers[i] == before[i];
      }
    }
  }

  /** The offer at i is strictly nearer than the maximum and than all before it. */
  ghost predicate IsRunningMinimum(m: Numbers, at: Point, offers: seq<CachedPub>, i: nat)
    requires i < |offers|
  {
    && Distance(m, at, offers[i]) < m.max
    && forall j :: 0 <= j < i ==> Distance(m, at, offers[i]) < Distance(m, at, offers[j])
  }

  lemma BelowLeast(m: Numbers, at: Point, offers: seq<CachedPub>, p: CachedPub)
    ensures Distance(m, at, p) < Least(m, at, offers) <==> IsRunningMinimum(m, at, offers + [p], |offers|)
  {
    hide Distance;
    LeastIsMinimum(m, at, offers);
    assert forall j :: 0 <= j < |offers| ==> (offers + [p])[j] == offers[j];
    if Least(m, at, offers) != m.max {
      var i :| 0 <= i < |offers| && Least(m, at, offers) == Distance(m, at, offers[i]);
      assert (offers + [p])[i] == offers[i];
    }
  }

  /** The records are exactly the running minima; the last is the first to attain the minimum. */
  lemma {:induction false} RecordsAreRunningMinima(m: Numbers, at: Point, offers: seq<CachedPub>)
    ensures var r := Records(m, at, offers);
            && (forall j, k :: 0 <= j < k < |r| ==> r[j] < r[k])
            && (forall i :: 0 <= i < |offers| ==> (i in r <==> IsRunningMinimum(m, at, offers, i)))
            && Least(m, at, offers) == if r == [] then m.max else Distance(m, at, offers[r[|r| - 1]])
  {
    hide Distance;
    if offers != [] {
      var n := |offers| - 1;
      var before := offers[..n];
      RecordsAreRunningMinima(m, at, before);
      BelowLeast(m, at, before, offers[n]);
      assert before + [offers[n]] == offers;
      var r, r0 := Records(m, at, offers), Records(m, at, before);
      forall i: nat | i < n ensures IsRunningMinimum(m, at, offers, i) <==> IsRunningMinimum(m, at, before, i) {
        assert forall j :: 0 <= j <= i ==> offers[j] == before[j];
      }
      hide IsRunningMinimum;
      assert forall i :: i in r <==> i in r0 || (i == n && IsRunningMinimum(m, at, offers, n));
      assert r0 != [] ==> offers[r0[|r0| - 1]] == before[r0[|r0| - 1]];
    }
  }

  // ---------- what one step does to one group ----------

  /** A client's subscription to the key. */
  predicate Joins(c: Config, e: Event, key: string): (r: bool)
    ensures r ==> e.Receive?
  {
    e.Receive? && e.m.kind == SUBSCRIBE && e.m.name.Some? && !e.m.flags.fromChild && SubKey(c, e.m) == key
  }

  /** A publication on the key. */
  predicate PublishesOn(c: Config, e: Event, key: string): (r: bool)
    ensures r ==> IsPub(e)
  {
    IsPub(e) && PubKey(c, e.m) == key
  }

  /** The publication gets past the local brake and the match gate to the delivery loop. */
  predicate Admitted(c: Config, s: State, e: Event, key: string)
    requires c.Valid() && e.Receive?
  {
    var group := Lookup(s.subs, key, []);
    && group != []
    && (ScopeLocal(c) ==> BrakeAllows(c, s.brakeLocal, key, PointOf(e.m), e.now))
    && PassesGate(c, e.m, group[0])
  }

  lemma LocalOutcome(c: Config, s: State, e: Event, key: string)
    requires c.Valid() && e.Receive?
    ensures var local := PublishLocal(c, s.brakeLocal, s.subs, e.m, key, e.now);
            var group, at := Lookup(s.subs, key, []), PointOf(e.m);
            if Admitted(c, s, e, key)
            then local.subs == s.subs[key := DeliverClients(c.numbers, group, at)]
                && local.out == DeliverSends(c.numbers, group, at, e.m)
            else local.subs == s.subs && local.out == []
  {
    hide BrakeWindows, BrakeAllows, PassesGate, CallsMatch, DeliverClients, DeliverSends, ScopeLocal;
  }

  lemma PublishOutcome(c: Config, s: State, e: Event)
    requires c.Valid() && WellFormed(s) && IsPub(e)
    ensures var key := PubKey(c, e.m);
            var local := PublishLocal(c, s.brakeLocal, s.subs, e.m, key, e.now);
            && Step(c, s, e).0.subs == local.subs && Step(c, s, e).1.out == local.out
  {
    hide PublishUp, PublishLocal, DownTargets, DownChildren, DownSends, CachePut, PublishStats, PubKey, FromId;
  }

  lemma SubscribeOutcome(c: Config, s: State, e: Event)
    requires c.Valid() && WellFormed(s) && e.Receive? && e.m.kind == SUBSCRIBE
    ensures var t := Step(c, s, e).0;
            if e.m.name.Some? && !e.m.flags.fromChild
            then var key := SubKey(c, e.m);
                 t.subs == s.subs[key := Lookup(s.subs, key, []) + [Registered(c, s.cache, e.m, key, e.from)]]
            else t.subs == s.subs
  {
    hide SubscribeFromChild, SubscribeFromClient, SubCounted, Registered, SubKey;
    if e.m.name.Some? {
      FromChildFrame(c, s, e.m.name.value, e.who);
      FromClientFrame(c, s, e.m, e.from, e.now);
    }
  }

  lemma OtherGroups(c: Config, s: State, e: Event)
    requires c.Valid() && WellFormed(s) && e.Receive? && e.m.kind != SUBSCRIBE && !IsPub(e)
    ensures Step(c, s, e).0.subs == s.subs
  {
    hide HandlePublish, Hull, PubCounted;
    if e.m.kind == PUBLISH { PublishNameless(c, s, e.m, e.from, e.who, e.now); }
  }

  /** All that can happen to a service's group of subscribers. */
  lemma GroupStep(c: Config, s: State, e: Event, key: string)
    requires c.Valid() && WellFormed(s)
    ensures var group := Lookup(s.subs, key, []);
            Lookup(Step(c, s, e).0.subs, key, [])
            == if Erases(s, e, key) then []
               else if Joins(c, e, key) then group + [Registered(c, s.cache, e.m, key, e.from)]
               else if PublishesOn(c, e, key) && Admitted(c, s, e, key)
               then DeliverClients(c.numbers, group, PointOf(e.m))
               else group
  {
    hide Handle, PubKey, SubKey, PointOf, Registered, DeliverClients, DeliverSends, Admitted, PublishLocal;
    if IsPub(e) {
      PublishOutcome(c, s, e);
      LocalOutcome(c, s, e, PubKey(c, e.m));
    } else if e.Receive? {
      if e.m.kind == SUBSCRIBE { SubscribeOutcome(c, s, e); } else { OtherGroups(c, s, e); }
    }
  }

  // ---------- the delivery loop, subscriber by subscriber ----------

  function SendTo(m: Numbers, cl: GeoClient, p: CachedPub): seq<Delivery> {
    if Nearer(m, cl, p.at) then [Delivery(cl.addr, p.raw)] else []
  }

  function Noticed(m: Numbers, cl: GeoClient, at: Point): GeoClient {
    if Nearer(m, cl, at) then cl.(closest := GeoDistance(m, at, cl.at)) else cl
  }

  lemma {:induction false} DeliverEach(m: Numbers, group: seq<GeoClient>, at: Point, i: nat)
    requires i < |group|
    ensures DeliverClients(m, group, at)[i] == Noticed(m, group[i], at)
  {
    hide Nearer, GeoDistance;
    if i > 0 { DeliverEach(m, group[1..], at, i - 1); }
  }

  function SendsOf(m: Numbers, group: seq<GeoClient>, p: CachedPub): seq<seq<Delivery>> {
    seq(|group|, i requires 0 <= i < |group| => SendTo(m, group[i], p))
  }

  function Flat<T>(ss: seq<seq<T>>): seq<T> {
    if ss == [] then [] else ss[0] + Flat(ss[1..])
  }

  /** The sends of a delivery are each subscriber's own, in group order. */
  lemma {:induction false} DeliverSplit(m: Numbers, group: seq<GeoClient>, at: Point, raw: Msg)
    ensures DeliverSends(m, group, at, raw) == Flat(SendsOf(m, group, CachedPub(at, raw)))
  {
    hide Nearer;
    if group != [] {
      DeliverSplit(m, group[1..], at, raw);
      assert SendsOf(m, group, CachedPub(at, raw))[1..] == SendsOf(m, group[1..], CachedPub(at, raw));
    }
  }

  // ---------- one subscriber's history ----------

  function GroupOf(s: State, key: string): seq<GeoClient> {
    Lookup(s.subs, key, [])
  }

  function Answer(c: Config, s: State, e: Event, key: string): seq<CachedPub>
    requires e.Receive?
  {
    var answer := QueryAnswer(c, s.cache, e.m, key);
    if answer.Some? then [answer.value] else []
  }

  function AsPub(e: Event): CachedPub
    requires e.Receive?
  {
    CachedPub(PointOf(e.m), e.m)
  }

  /** What reached the delivery loop for the i-th subscriber of a key since it subscribed,
      preceded by its query answer. */
  ghost function Offers(c: Config, es: seq<Event>, key: string, i: nat): seq<CachedPub>
    requires c.Valid()
  {
    if es == [] then [] else
      var before, e := es[..|es| - 1], es[|es| - 1];
      var s := Run(c, before);
      if Erases(s, e, key) then []
      else if Joins(c, e, key) && i == |GroupOf(s, key)| then Answer(c, s, e, key)
      else if PublishesOn(c, e, key) && Admitted(c, s, e, key) && i < |GroupOf(s, key)|
      then Offers(c, before, key, i) + [AsPub(e)]
      else Offers(c, before, key, i)
  }

  /** Every publication on the key since it subscribed, delivered or not, preceded by the query answer. */
  ghost function Heard(c: Config, es: seq<Event>, key: string, i: nat): seq<CachedPub>
    requires c.Valid()
  {
    if es == [] then [] else
      var before, e := es[..|es| - 1], es[|es| - 1];
      var s := Run(c, before);
      if Erases(s, e, key) then []
      else if Joins(c, e, key) && i == |GroupOf(s, key)| then Answer(c, s, e, key)
      else if PublishesOn(c, e, key) && i < |GroupOf(s, key)| then Heard(c, before, key, i) + [AsPub(e)]
      else Heard(c, before, key, i)
  }

  /** What the broker sent for the i-th subscriber of a key since it subscribed. */
  ghost function Sent(c: Config, es: seq<Event>, key: string, i: nat): seq<Delivery>
    requires c.Valid()
  {
    if es == [] then [] else
      var before, e := es[..|es| - 1], es[|es| - 1];
      var s := Run(c, before);
      if Erases(s, e, key) then []
      else if Joins(c, e, key) && i == |GroupOf(s, key)| then Step(c, s, e).1.out
      else if PublishesOn(c, e, key) && Admitted(c, s, e, key) && i < |GroupOf(s, key)|
      then Sent(c, before, key, i) + SendTo(c.numbers, GroupOf(s, key)[i], AsPub(e))
      else Sent(c, before, key, i)
  }

  /** Everything a publication puts out for clients is, in group order, what the histories record. */
  lemma OutIsTheHistories(c: Config, s: State, e: Event, key: string)
    requires c.Valid() && WellFormed(s) && PublishesOn(c, e, key)
    ensures Step(c, s, e).1.out
            == if Admitted(c, s, e, key) then Flat(SendsOf(c.numbers, GroupOf(s, key), AsPub(e))) else []
  {
    hide Handle, PubKey, PointOf, DeliverClients, DeliverSends, Admitted, PublishLocal, SendsOf, Flat;
    PublishOutcome(c, s, e);
    LocalOutcome(c, s, e, key);
    DeliverSplit(c.numbers, GroupOf(s, key), PointOf(e.m), e.m);
  }

  function Messages(cl: GeoClient, offers: seq<CachedPub>, records: seq<nat>): seq<Delivery>
    requires forall k :: 0 <= k < |records| ==> records[k] < |offers|
  {
    seq(|records|, k requires 0 <= k < |records| => Delivery(cl.addr, offers[records[k]].raw))
  }

  /** The subscriber's stored distance is the least offered, and it was sent the running minima. */
  ghost predicate Filtered(m: Numbers, cl: GeoClient, offers: seq<CachedPub>, sent: seq<Delivery>) {
    && cl.closest == Least(m, cl.at, offers)
    && sent == Messages(cl, offers, Records(m, cl.at, offers))
  }

  lemma FilteredOffer(m: Numbers, cl: GeoClient, offers: seq<CachedPub>, sent: seq<Delivery>, p: CachedPub)
    requires Filtered(m, cl, offers, sent)
    ensures Filtered(m, Noticed(m, cl, p.at), offers + [p], sent + SendTo(m, cl, p))
  {
    var more := offers + [p];
    assert more[..|more| - 1] == offers;
    hide GeoDistance;
    var r := Records(m, cl.at, offers);
    if Nearer(m, cl, p.at) {
      assert Records(m, cl.at, more) == r + [|offers|];
    } else {
      assert Records(m, cl.at, more) == r + [] == r;
    }
  }

  /** A new subscriber: maximal distance and nothing sent, or its query answer. */
  lemma FilteredJoin(c: Config, s: State, e: Event, key: string)
    requires c.Valid() && WellFormed(s) && Joins(c, e, key)
    ensures Filtered(c.numbers, Registered(c, s.cache, e.m, key, e.from), Answer(c, s, e, key), Step(c, s, e).1.out)
  {
    JoinOut(c, s, e, key);
    var at, cl, offers := PointOf(e.m), Registered(c, s.cache, e.m, key, e.from), Answer(c, s, e, key);
    if offers != [] {
      DistanceSymmetric(c.numbers, at, offers[0].at);
      AnswerBelowMax(c, s, e, key);
      hide GeoDistance;
      assert Least(c.numbers, at, []) == c.numbers.max;
      assert offers[..0] == [];
      assert Records(c.numbers, at, offers) == [] + [0];
    }
  }

  lemma JoinOut(c: Config, s: State, e: Event, key: string)
    requires c.Valid() && WellFormed(s) && Joins(c, e, key)
    ensures var answer := QueryAnswer(c, s.cache, e.m, key);
            Step(c, s, e).1.out == if answer.Some? then [Delivery(e.from, answer.value.raw)] else []
  {
    hide QueryAnswer, Registered, ExtendRegion, RegionNotice, Announcement, Announced, SubKey;
  }

  lemma AnswerBelowMax(c: Config, s: State, e: Event, key: string)
    requires e.Receive? && QueryAnswer(c, s.cache, e.m, key).Some?
    ensures GeoDistance(c.numbers, PointOf(e.m), QueryAnswer(c, s.cache, e.m, key).value.at) < c.numbers.max
  {
    var pubs := Lookup(s.cache, key, []);
    NearestIsBest(c.numbers, pubs, PointOf(e.m), |pubs|);
  }

  lemma NoticedKeeps(m: Numbers, cl: GeoClient, at: Point)
    ensures Noticed(m, cl, at).at == cl.at && Noticed(m, cl, at).addr == cl.addr
  {
  }

  /** In every run, every subscriber's stored distance is the least of what reached its
      delivery loop since it subscribed, and what it was sent are exactly the strict
      running minima, in order. */
  lemma {:induction false} SubscriberGetsRunningMinima(c: Config, es: seq<Event>, key: string, i: nat)
    requires c.Valid() && i < |GroupOf(Run(c, es), key)|
    ensures Filtered(c.numbers, GroupOf(Run(c, es), key)[i], Offers(c, es, key, i), Sent(c, es, key, i))
  {
    hide Step, Filtered, Registered, DeliverClients, Admitted, Answer, Erases, Joins, PublishesOn, SendTo, Noticed;
    if es == [] {
      assert false;
    } else {
      var before, e := es[..|es| - 1], es[|es| - 1];
      var s := Run(c, before);
      var group := GroupOf(s, key);
      GroupStep(c, s, e, key);
      if Joins(c, e, key) && i == |group| {
        FilteredJoin(c, s, e, key);
      } else {
        JoinsIsNoPub(c, e, key);
        SubscriberGetsRunningMinima(c, before, key, i);
        if PublishesOn(c, e, key) && Admitted(c, s, e, key) {
          DeliverEach(c.numbers, group, PointOf(e.m), i);
          FilteredOffer(c.numbers, group[i], Offers(c, before, key, i), Sent(c, before, key, i), AsPub(e));
        }
      }
    }
  }

  lemma JoinsIsNoPub(c: Config, e: Event, key: string)
    ensures Joins(c, e, key) ==> !PublishesOn(c, e, key)
  {
  }

  // ---------- when nothing is refused ----------

  /** Since the i-th subscriber of the key joined, no publication on the key was stopped by the
      local brake or the match gate. */
  ghost predicate NeverRefused(c: Config, es: seq<Event>, key: string, i: nat)
    requires c.Valid()
  {
    if es == [] then true else
      var before, e := es[..|es| - 1], es[|es| - 1];
      var s := Run(c, before);
      if Erases(s, e, key) || (Joins(c, e, key) && i == |GroupOf(s, key)|) then true
      else
        && NeverRefused(c, before, key, i)
        && (PublishesOn(c, e, key) && i < |GroupOf(s, key)| ==> Admitted(c, s, e, key))
  }

  lemma {:induction false} OffersAreHeard(c: Config, es: seq<Event>, key: string, i: nat)
    requires c.Valid() && NeverRefused(c, es, key, i)
    ensures Offers(c, es, key, i) == Heard(c, es, key, i)
  {
    hide Step, Run, Admitted, Answer, Erases, PubKey;
    if es != [] {
      var before, e := es[..|es| - 1], es[|es| - 1];
      var s := Run(c, before);
      if !Erases(s, e, key) && !(Joins(c, e, key) && i == |GroupOf(s, key)|) { OffersAreHeard(c, before, key, i); }
    }
  }

  /** Since the i-th subscriber of the key joined, the match gate was open for every publication
      on the key. */
  ghost predicate NeverShut(c: Config, es: seq<Event>, key: string, i: nat)
    requires c.Valid()
  {
    if es == [] then true else
      var before, e := es[..|es| - 1], es[|es| - 1];
      var group := GroupOf(Run(c, before), key);
      if Erases(Run(c, before), e, key) || (Joins(c, e, key) && i == |group|) then true
      else NeverShut(c, before, key, i) && (PublishesOn(c, e, key) && i < |group| ==> PassesGate(c, e.m, group[0]))
  }

  /** The local brake stops the publication. */
  predicate Braked(c: Config, s: State, e: Event, key: string)
    requires e.Receive?
  {
    ScopeLocal(c) && !BrakeAllows(c, s.brakeLocal, key, PointOf(e.m), e.now)
  }

  /** Since the i-th subscriber of the key joined, the local brake stopped no publication on the key. */
  ghost predicate NeverBraked(c: Config, es: seq<Event>, key: string, i: nat)
    requires c.Valid()
  {
    if es == [] then true else
      var before, e := es[..|es| - 1], es[|es| - 1];
      var s := Run(c, before);
      if Erases(s, e, key) || (Joins(c, e, key) && i == |GroupOf(s, key)|) then true
      else NeverBraked(c, before, key, i) && (PublishesOn(c, e, key) && i < |GroupOf(s, key)| ==> !Braked(c, s, e, key))
  }

  lemma OpenAndUnbraked(c: Config, s: State, e: Event, key: string)
    requires c.Valid() && e.Receive? && GroupOf(s, key) != [] && PassesGate(c, e.m, GroupOf(s, key)[0])
    requires !Braked(c, s, e, key)
    ensures Admitted(c, s, e, key)
  {
    hide BrakeAllows, PassesGate;
  }

  /** Where the gate was open, only the local brake can refuse. */
  lemma {:induction false} UnbrakedRefusesNothing(c: Config, es: seq<Event>, key: string, i: nat)
    requires c.Valid() && NeverShut(c, es, key, i) && NeverBraked(c, es, key, i)
    ensures NeverRefused(c, es, key, i)
  {
    hide Run, Admitted, PassesGate, Erases, Joins, Braked, PubKey;
    if es != [] {
      var before, e := es[..|es| - 1], es[|es| - 1];
      var s := Run(c, before);
      if !Erases(s, e, key) && !(Joins(c, e, key) && i == |GroupOf(s, key)|) {
        UnbrakedRefusesNothing(c, before, key, i);
        if PublishesOn(c, e, key) && i < |GroupOf(s, key)| { OpenAndUnbraked(c, s, e, key); }
      }
    }
  }

  lemma BrakeIsCounted(c: Config, s: State, e: Event)
    requires c.Valid() && WellFormed(s)
    ensures Step(c, s, e).0.stats.brakedLocal >= s.stats.brakedLocal
    ensures IsPub(e) && GroupOf(s, PubKey(c, e.m)) != [] && Braked(c, s, e, PubKey(c, e.m))
            ==> Step(c, s, e).0.stats.brakedLocal > s.stats.brakedLocal
  {
    if IsPub(e) {
      var local := PublishLocal(c, s.brakeLocal, s.subs, e.m, PubKey(c, e.m), e.now);
      assert Step(c, s, e).0.stats.brakedLocal == s.stats.brakedLocal + One(local.braked) by {
        hide PublishUp, PublishLocal, DownTargets, DownChildren, DownSends, CachePut, PubKey, FromId;
      }
      hide Step, BrakeAllows, BrakeWindows, DeliverClients, DeliverSends, PubKey, PointOf, PassesGate, CallsMatch;
    } else if e.Receive? {
      SubscribeKeeps(c, s, e.m, e.from, e.who, e.now);
      if e.m.kind == PUBLISH { PublishNameless(c, s, e.m, e.from, e.who, e.now); }
      hide HandlePublish, HandleSubscribe, Hull;
    }
  }

  /** A broker whose local-brake counter is still zero braked no subscriber of any key. */
  lemma {:induction false} ZeroCounterNeverBraked(c: Config, es: seq<Event>, key: string, i: nat)
    requires c.Valid() && Run(c, es).stats.brakedLocal == 0
    ensures NeverBraked(c, es, key, i)
  {
    hide Step, Braked, Erases, Joins, PubKey;
    if es != [] {
      BrakeIsCounted(c, Run(c, es[..|es| - 1]), es[|es| - 1]);
      ZeroCounterNeverBraked(c, es[..|es| - 1], key, i);
    }
  }

  /** Since the i-th subscriber of the key joined, no publication on the key carried a blinded value. */
  ghost predicate Unblinded(c: Config, es: seq<Event>, key: string, i: nat)
    requires c.Valid()
  {
    if es == [] then true else
      var before, e := es[..|es| - 1], es[|es| - 1];
      var group := GroupOf(Run(c, before), key);
      if Erases(Run(c, before), e, key) || (Joins(c, e, key) && i == |group|) then true
      else Unblinded(c, before, key, i) && (PublishesOn(c, e, key) && i < |group| ==> e.m.blind.None?)
  }

  /** The comparisons counted while publications on the key were handled since the i-th subscriber joined. */
  ghost function Comparisons(c: Config, es: seq<Event>, key: string, i: nat): int
    requires c.Valid()
  {
    if es == [] then 0 else
      var before, e := es[..|es| - 1], es[|es| - 1];
      var s := Run(c, before);
      if Erases(s, e, key) || (Joins(c, e, key) && i == |GroupOf(s, key)|) then 0
      else Comparisons(c, before, key, i)
           + if PublishesOn(c, e, key) && i < |GroupOf(s, key)|
             then Step(c, s, e).0.stats.matchCalls - s.stats.matchCalls else 0
  }

  lemma PlainPublication(c: Config, s: State, e: Event, key: string, first: GeoClient)
    requires c.Valid() && WellFormed(s) && PublishesOn(c, e, key) && (!c.heEnabled || e.m.blind.None?)
    ensures PassesGate(c, e.m, first) && Step(c, s, e).0.stats.matchCalls == s.stats.matchCalls
  {
    var local := PublishLocal(c, s.brakeLocal, s.subs, e.m, key, e.now);
    assert Step(c, s, e).0.stats.matchCalls == s.stats.matchCalls + One(local.called) by {
      hide PublishUp, PublishLocal, DownTargets, DownChildren, DownSends, CachePut, PubKey, FromId;
    }
    hide Step, BrakeAllows, BrakeWindows, DeliverClients, DeliverSends, PubKey, PointOf, Matches;
  }

  /** A broker without a key, or whose publications carry no blinded value, keeps the gate open
      and compares nothing. */
  lemma {:induction false} PlainGateIsOpen(c: Config, es: seq<Event>, key: string, i: nat)
    requires c.Valid() && (!c.heEnabled || Unblinded(c, es, key, i))
    ensures NeverShut(c, es, key, i) && Comparisons(c, es, key, i) == 0
  {
    hide Run, Step, PassesGate, Erases, Joins, PubKey;
    if es != [] {
      var before, e := es[..|es| - 1], es[|es| - 1];
      var s := Run(c, before);
      if !Erases(s, e, key) && !(Joins(c, e, key) && i == |GroupOf(s, key)|) {
        PlainGateIsOpen(c, before, key, i);
        if PublishesOn(c, e, key) && i < |GroupOf(s, key)| { PlainPublication(c, s, e, key, GroupOf(s, key)[0]); }
      }
    }
  }

  /** The least distance and its records, with the history they come from. */
  ghost predicate NearestSoFar(m: Numbers, cl: GeoClient, heard: seq<CachedPub>, sent: seq<Delivery>) {
    var r := Records(m, cl.at, heard);
    && sent == Messages(cl, heard, r)
    && cl.closest <= m.max && (forall j :: 0 <= j < |heard| ==> cl.closest <= Distance(m, cl.at, heard[j]))
    && (forall k :: 0 <= k < |r| ==> IsRunningMinimum(m, cl.at, heard, r[k]))
    && (if r == [] then cl.closest == m.max else cl.closest == Distance(m, cl.at, heard[r[|r| - 1]]))
  }

  lemma FilteredIsNearest(m: Numbers, cl: GeoClient, heard: seq<CachedPub>, sent: seq<Delivery>)
    requires Filtered(m, cl, heard, sent)
    ensures NearestSoFar(m, cl, heard, sent)
  {
    hide Distance, Records, Least, IsRunningMinimum;
    RecordsAreRunningMinima(m, cl.at, heard);
    LeastIsMinimum(m, cl.at, heard);
    var r := Records(m, cl.at, heard);
    assert forall k :: 0 <= k < |r| ==> r[k] in r;
  }

  /** With nothing refused since it joined, a subscriber's stored distance is the minimum over
      all publications of its key since it subscribed and its query answer; every message it was
      sent is strictly nearer than all earlier publications; the last message is the first
      to attain the minimum. */
  lemma SubscriberHasTheNearest(c: Config, es: seq<Event>, key: string, i: nat)
    requires c.Valid() && i < |GroupOf(Run(c, es), key)| && NeverRefused(c, es, key, i)
    ensures NearestSoFar(c.numbers, GroupOf(Run(c, es), key)[i], Heard(c, es, key, i), Sent(c, es, key, i))
  {
    hide Run, NearestSoFar, Filtered, NeverRefused;
    SubscriberGetsRunningMinima(c, es, key, i);
    OffersAreHeard(c, es, key, i);
    FilteredIsNearest(c.numbers, GroupOf(Run(c, es), key)[i], Heard(c, es, key, i), Sent(c, es, key, i));
  }

  /** With or without a key: a subscriber whose service was not braked and whose publications
      carried no blinded value since it joined has the nearest of all of them, and none of them
      was compared. At a broker without a key blinded values make no difference. */
  lemma PlaintextSubscriberHasTheNearest(c: Config, es: seq<Event>, key: string, i: nat)
    requires c.Valid() && i < |GroupOf(Run(c, es), key)|
    requires (!c.heEnabled || Unblinded(c, es, key, i)) && NeverBraked(c, es, key, i)
    ensures NearestSoFar(c.numbers, GroupOf(Run(c, es), key)[i], Heard(c, es, key, i), Sent(c, es, key, i))
    ensures Comparisons(c, es, key, i) == 0
  {
    hide Run, NearestSoFar, NeverShut, NeverRefused, NeverBraked, Unblinded, Comparisons;
    PlainGateIsOpen(c, es, key, i);
    UnbrakedRefusesNothing(c, es, key, i);
    SubscriberHasTheNearest(c, es, key, i);
  }
}
