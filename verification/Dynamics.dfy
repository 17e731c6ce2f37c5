/** The dynamics benchmark (benchmarks/bench_dynamics.cpp): each simulated subscriber keeps a
    shadow of the distance the broker stores for it. Replicas are numbered by their position. */
module Dynamics {
  import opened Geo
  import opened BrokerModel
  import opened BrokerRuns
  import opened BrakeRate
  import opened ClosestFilter

  /** Where the shadow starts: farther than any place. */
  const FAR: real := 1000000000000000000.0

  datatype Sub = Sub(at: Point, seen: seq<bool>, cachedDist: real, closestPub: int)

  datatype Arrival = Arrival(si: nat, pubId: int)

  datatype Class = Closer | Farther | Unchanged

  datatype Verdict = Verdict(cls: Class, target: int, oldClosest: int, seenBefore: bool)

  function PubDistance(m: Numbers, s: Sub, pub: Point): real {
    GeoDistance(m, s.at, pub)
  }

  /** noteReceive for one subscriber. */
  function Note(m: Numbers, s: Sub, pubs: seq<Point>, id: int): Sub
    requires |s.seen| == |pubs|
  {
    if id < 0 || id >= |pubs| then s else
      var d := PubDistance(m, s, pubs[id]);
      var closer := d < s.cachedDist;
      Sub(s.at, s.seen[id := true], if closer then d else s.cachedDist, if closer then id else s.closestPub)
  }

  function NoteAll(m: Numbers, s: Sub, pubs: seq<Point>, ids: seq<int>): (r: Sub)
    requires |s.seen| == |pubs|
    ensures r.at == s.at && |r.seen| == |pubs|
  {
    if ids == [] then s else Note(m, NoteAll(m, s, pubs, ids[..|ids| - 1]), pubs, ids[|ids| - 1])
  }

  /** The k-th arrival is the first at the given distance, and every earlier one is farther. */
  ghost predicate ReachedBy(m: Numbers, at: Point, pubs: seq<Point>, ids: seq<int>, k: nat, d: real) {
    && k < |ids| && 0 <= ids[k] < |pubs| && d == GeoDistance(m, at, pubs[ids[k]])
    && forall j :: 0 <= j < k && 0 <= ids[j] < |pubs| ==> d < GeoDistance(m, at, pubs[ids[j]])
  }

  /** What a shadow holds after some arrivals, in order: a replica has been seen exactly when it
      was before or arrived; the distance is the least of the one before and those of the replicas
      that arrived; and the replica is the first to reach it, or the one before if none was nearer. */
  ghost predicate IsShadow(m: Numbers, s: Sub, pubs: seq<Point>, ids: seq<int>, r: Sub)
    requires |s.seen| == |pubs|
  {
    && r.at == s.at && |r.seen| == |pubs|
    && (forall j :: 0 <= j < |pubs| ==> (r.seen[j] <==> s.seen[j] || j in ids))
    && r.cachedDist <= s.cachedDist
    && (forall k :: 0 <= k < |ids| && 0 <= ids[k] < |pubs| ==> r.cachedDist <= GeoDistance(m, s.at, pubs[ids[k]]))
    && (if r.cachedDist == s.cachedDist then r.closestPub == s.closestPub
        else exists k: nat :: ReachedBy(m, s.at, pubs, ids, k, r.cachedDist) && r.closestPub == ids[k])
  }

  lemma StillReached(m: Numbers, at: Point, pubs: seq<Point>, ids: seq<int>, id: int, k: nat, d: real)
    requires ReachedBy(m, at, pubs, ids, k, d)
    ensures ReachedBy(m, at, pubs, ids + [id], k, d)
  {
    hide GeoDistance;
  }

  /** One more arrival. */
  lemma NoteIsShadow(m: Numbers, s: Sub, pubs: seq<Point>, ids: seq<int>, t: Sub, id: int)
    requires |s.seen| == |pubs| && IsShadow(m, s, pubs, ids, t)
    ensures IsShadow(m, s, pubs, ids + [id], Note(m, t, pubs, id))
  {
    var r, more := Note(m, t, pubs, id), ids + [id];
    assert forall j :: 0 <= j < |ids| ==> more[j] == ids[j];
    assert forall j :: j in more <==> j in ids || j == id;
    hide GeoDistance;
    if r.cachedDist < t.cachedDist {
      assert ReachedBy(m, s.at, pubs, more, |ids|, r.cachedDist);
    } else if t.cachedDist != s.cachedDist {
      var k: nat :| ReachedBy(m, s.at, pubs, ids, k, t.cachedDist) && t.closestPub == ids[k];
      StillReached(m, s.at, pubs, ids, id, k, t.cachedDist);
    }
    hide ReachedBy;
  }

  lemma {:induction false} NotesAreShadow(m: Numbers, s: Sub, pubs: seq<Point>, ids: seq<int>)
    requires |s.seen| == |pubs|
    ensures IsShadow(m, s, pubs, ids, NoteAll(m, s, pubs, ids))
  {
    hide Note;
    if ids != [] {
      hide IsShadow;
      var before := ids[..|ids| - 1];
      NotesAreShadow(m, s, pubs, before);
      NoteIsShadow(m, s, pubs, before, NoteAll(m, s, pubs, before), ids[|ids| - 1]);
      assert ids == before + [ids[|ids| - 1]];
    }
  }

  /** What one subscriber receives among all arrivals. */
  function ForSub(arrivals: seq<Arrival>, i: nat): seq<int> {
    if arrivals == [] then [] else
      ForSub(arrivals[..|arrivals| - 1], i)
      + if arrivals[|arrivals| - 1].si == i then [arrivals[|arrivals| - 1].pubId] else []
  }

  /** A replica nearer than every earlier one and no farther than any later one, below the start distance. */
  ghost predicate IsClosest(m: Numbers, s: Sub, pubs: seq<Point>, best: int) {
    if forall j :: 0 <= j < |pubs| ==> PubDistance(m, s, pubs[j]) >= FAR then best == -1
    else && 0 <= best < |pubs| && PubDistance(m, s, pubs[best]) < FAR
         && (forall j :: 0 <= j < |pubs| ==> PubDistance(m, s, pubs[best]) <= PubDistance(m, s, pubs[j]))
         && (forall j :: 0 <= j < best ==> PubDistance(m, s, pubs[best]) < PubDistance(m, s, pubs[j]))
  }

  /** The classification of one subscriber when replica mig was moved and pubs are the places after. */
  ghost predicate IsVerdict(m: Numbers, s: Sub, pubs: seq<Point>, mig: nat, v: Verdict)
    requires mig < |pubs| && |s.seen| == |pubs|
  {
    if PubDistance(m, s, pubs[mig]) < s.cachedDist then v == Verdict(Closer, mig, s.closestPub, false)
    else if s.closestPub == mig
    then v.cls == Farther && v.oldClosest == mig && IsClosest(m, s, pubs, v.target)
         && v.seenBefore == (0 <= v.target < |pubs| && s.seen[v.target])
    else v == Verdict(Unchanged, -1, -1, false)
  }

  // ---------- the benchmark's loops ----------

  class Trial {
    const numbers: Numbers
    var pubs: seq<Point>
    var subs: seq<Sub>

    ghost predicate Valid()
      reads this
    {
      forall i :: 0 <= i < |subs| ==> |subs[i].seen| == |pubs|
    }

    constructor (m: Numbers, pubPlaces: seq<Point>, subPlaces: seq<Point>)
      ensures numbers == m && pubs == pubPlaces && Valid()
      ensures subs == seq(|subPlaces|,
          i requires 0 <= i < |subPlaces| =>
            Sub(subPlaces[i], seq(|pubPlaces|, _ => false), 1000000000000000000.0, -1))
    {
      numbers := m;
      pubs := pubPlaces;
      var unseen := seq(|pubPlaces|, _ => false);
      subs := seq(|subPlaces|, i requires 0 <= i < |subPlaces| => Sub(subPlaces[i], unseen, FAR, -1));
    }

    method NoteReceive(si: nat, pubId: int)
      requires Valid() && si < |subs|
      modifies this`subs
      ensures Valid() && subs == old(subs)[si := Note(numbers, old(subs)[si], pubs, pubId)]
    {
      if pubId < 0 || pubId >= |pubs| { return; }
      var s := subs[si];
      s := s.(seen := s.seen[pubId := true]);
      var d := GeoDistance(numbers, s.at, pubs[pubId]);
      if d < s.cachedDist { s := s.(cachedDist := d, closestPub := pubId); }
      subs := subs[si := s];
    }

    /** Handling arrivals in any interleaving gives each subscriber its own arrivals, in order. */
    method Drain(arrivals: seq<Arrival>)
      requires Valid() && forall k :: 0 <= k < |arrivals| ==> arrivals[k].si < |subs|
      modifies this`subs
      ensures Valid() && |subs| == |old(subs)|
      ensures forall i :: 0 <= i < |subs| ==> subs[i] == NoteAll(numbers, old(subs)[i], pubs, ForSub(arrivals, i))
      ensures forall i :: 0 <= i < |subs| ==> IsShadow(numbers, old(subs)[i], pubs, ForSub(arrivals, i), subs[i])
    {
      for k := 0 to |arrivals|
        invariant Valid() && |subs| == |old(subs)|
        invariant forall i :: 0 <= i < |subs| ==>
                                subs[i] == NoteAll(numbers, old(subs)[i], pubs, ForSub(arrivals[..k], i))
      {
        ghost var before := subs;
        NoteReceive(arrivals[k].si, arrivals[k].pubId);
        assert arrivals[..k + 1][..k] == arrivals[..k];
        forall i | 0 <= i < |subs|
          ensures subs[i] == NoteAll(numbers, old(subs)[i], pubs, ForSub(arrivals[..k + 1], i))
        {
          var ids := ForSub(arrivals[..k], i);
          if arrivals[k].si == i {
            assert (ids + [arrivals[k].pubId])[..|ids|] == ids;
          } else {
            assert ids + [] == ids;
          }
        }
      }
      assert arrivals[..|arrivals|] == arrivals;
      forall i | 0 <= i < |subs| ensures IsShadow(numbers, old(subs)[i], pubs, ForSub(arrivals, i), subs[i]) {
        NotesAreShadow(numbers, old(subs)[i], pubs, ForSub(arrivals, i));
      }
    }

    /** The replica that is nearest now. */
    method ClosestPub(s: Sub) returns (best: int)
      ensures IsClosest(numbers, s, pubs, best)
    {
      best := -1;
      var bestD := FAR;
      for id := 0 to |pubs|
        invariant IsClosest(numbers, s, pubs[..id], best)
        invariant bestD == if best < 0 then FAR else PubDistance(numbers, s, pubs[best])
      {
        var d := GeoDistance(numbers, s.at, pubs[id]);
        ghost var next := pubs[..id + 1];
        assert forall j :: 0 <= j < id ==> next[j] == pubs[..id][j];
        assert next[id] == pubs[id];
        if d < bestD { bestD := d; best := id; }
      }
      assert pubs[..|pubs|] == pubs;
    }

    /** Move a replica and classify every subscriber before the move is published. */
    method Migrate(mig: nat, at: Point) returns (verdicts: seq<Verdict>)
      requires Valid() && mig < |pubs|
      modifies this`pubs
      ensures Valid() && pubs == old(pubs)[mig := at]
      ensures |verdicts| == |subs|
      ensures forall i :: 0 <= i < |subs| ==> IsVerdict(numbers, subs[i], pubs, mig, verdicts[i])
      ensures forall i :: 0 <= i < |subs| ==>
                verdicts[i].cls == if GeoDistance(numbers, subs[i].at, at) < subs[i].cachedDist then Closer
                                   else if subs[i].closestPub == mig then Farther else Unchanged
    {
      pubs := pubs[mig := at];
      verdicts := [];
      for i := 0 to |subs|
        invariant |verdicts| == i && Valid() && pubs == old(pubs)[mig := at]
        invariant forall j :: 0 <= j < i ==> IsVerdict(numbers, subs[j], pubs, mig, verdicts[j])
      {
        var s := subs[i];
        var v := Verdict(Unchanged, -1, -1, false);
        if GeoDistance(numbers, s.at, pubs[mig]) < s.cachedDist {
          v := Verdict(Closer, mig, s.closestPub, false);
        } else if s.closestPub == mig {
          var target := ClosestPub(s);
          v := Verdict(Farther, target, s.closestPub, if 0 <= target < |pubs| then s.seen[target] else false);
        }
        verdicts := verdicts + [v];
      }
    }
  }

  // ---------- the shadow and the broker ----------

  /** The shadow holds what the broker stores, and no current replica is nearer. */
  ghost predicate Mirrors(m: Numbers, pubs: seq<Point>, s: Sub, cl: GeoClient) {
    && s.at == cl.at && |s.seen| == |pubs| && s.cachedDist == cl.closest && 0 <= s.closestPub < |pubs|
    && s.cachedDist < FAR && forall j :: 0 <= j < |pubs| ==> s.cachedDist <= PubDistance(m, s, pubs[j])
  }

  /** The replica ids the broker sends a subscriber for the initial publications, in order. */
  function Initially(m: Numbers, cl: GeoClient, pubs: seq<Point>, n: nat): (r: (GeoClient, seq<int>))
    requires n <= |pubs|
  {
    if n == 0 then (cl, []) else
      var (before, ids) := Initially(m, cl, pubs, n - 1);
      (Noticed(m, before, pubs[n - 1]), if Nearer(m, before, pubs[n - 1]) then ids + [n - 1] else ids)
  }

  /** Distances between places stay below the shadow's start. */
  ghost predicate Reachable(m: Numbers, at: Point, pubs: seq<Point>) {
    FAR <= m.max && forall j :: 0 <= j < |pubs| ==> GeoDistance(m, at, pubs[j]) < FAR
  }

  ghost predicate InitialMirror(m: Numbers, pubs: seq<Point>, n: nat, s: Sub, cl: GeoClient)
    requires n <= |pubs|
  {
    && s.at == cl.at && |s.seen| == |pubs|
    && (if n == 0 then s.cachedDist == FAR && cl.closest == m.max && s.closestPub == -1
        else && s.cachedDist == cl.closest && IsClosest(m, s, pubs[..n], s.closestPub)
             && 0 <= s.closestPub < n && s.cachedDist == PubDistance(m, s, pubs[s.closestPub]))
  }

  lemma InitialStep(m: Numbers, pubs: seq<Point>, n: nat, s: Sub, cl: GeoClient)
    requires n < |pubs| && InitialMirror(m, pubs, n, s, cl) && Reachable(m, cl.at, pubs)
    ensures InitialMirror(m, pubs, n + 1, if Nearer(m, cl, pubs[n]) then Note(m, s, pubs, n) else s,
                          Noticed(m, cl, pubs[n]))
  {
    DistanceSymmetric(m, cl.at, pubs[n]);
    hide GeoDistance;
    var before, after := pubs[..n], pubs[..n + 1];
    assert after[n] == pubs[n] && forall j :: 0 <= j < n ==> after[j] == before[j];
    assert GeoDistance(m, cl.at, pubs[n]) < FAR;
    if n > 0 { assert PubDistance(m, s, before[s.closestPub]) < FAR; }
  }

  lemma {:induction false} InitialPublications(m: Numbers, pubs: seq<Point>, n: nat, s: Sub, cl: GeoClient)
    requires n <= |pubs| && InitialMirror(m, pubs, 0, s, cl) && Reachable(m, cl.at, pubs)
    ensures var (after, ids) := Initially(m, cl, pubs, n);
            InitialMirror(m, pubs, n, NoteAll(m, s, pubs, ids), after) && after.at == cl.at
  {
    hide InitialMirror, Reachable, Note;
    if n == 0 {
      assert InitialMirror(m, pubs, 0, s, cl);
      InitialKeepsAt(m, pubs, 0, s, cl);
    } else {
      InitialPublications(m, pubs, n - 1, s, cl);
      var (before, ids) := Initially(m, cl, pubs, n - 1);
      InitialKeepsAt(m, pubs, 0, s, cl);
      InitialStep(m, pubs, n - 1, NoteAll(m, s, pubs, ids), before);
      NoticedKeeps(m, before, pubs[n - 1]);
      var more := ids + [n - 1];
      assert more[..|more| - 1] == ids;
    }
  }

  lemma InitialKeepsAt(m: Numbers, pubs: seq<Point>, n: nat, s: Sub, cl: GeoClient)
    requires n <= |pubs| && InitialMirror(m, pubs, n, s, cl)
    ensures |s.seen| == |pubs|
  {
  }

  // ---------- against the broker ----------

  /** A publication on the service that no brake or gate stops. */
  ghost predicate Heeded(c: Config, s: State, e: Event, key: string)
    requires c.Valid()
  {
    PublishesOn(c, e, key) && Admitted(c, s, e, key)
  }

  /** Anything else that leaves the service's subscribers alone: messages about other services,
      more subscriptions, heartbeats, brokers' messages, cleanups that do not erase it. */
  predicate Aside(c: Config, s: State, e: Event, key: string) {
    !PublishesOn(c, e, key) && !Erases(s, e, key)
  }

  /** What the broker sends one subscriber for a publication. */
  function Sends(c: Config, s: State, key: string, i: nat, e: Event): seq<Delivery>
    requires i < |GroupOf(s, key)| && e.Receive?
  {
    SendTo(c.numbers, GroupOf(s, key)[i], AsPub(e))
  }

  /** What the broker puts out for clients is each subscriber's own sends, in group order. */
  ghost predicate IsOutput(c: Config, s: State, key: string, e: Event, out: seq<Delivery>)
    requires e.Receive?
  {
    var sends := SendsOf(c.numbers, GroupOf(s, key), AsPub(e));
    && out == Flat(sends) && |sends| == |GroupOf(s, key)|
    && forall i :: 0 <= i < |sends| ==> sends[i] == Sends(c, s, key, i, e)
  }

  /** What such a publication does: its output, and one subscriber afterwards. */
  lemma HeededReaches(c: Config, s: State, e: Event, key: string, i: nat)
    requires c.Valid() && WellFormed(s) && Heeded(c, s, e, key) && i < |GroupOf(s, key)|
    ensures WellFormed(Step(c, s, e).0)
    ensures var after := GroupOf(Step(c, s, e).0, key);
            |after| == |GroupOf(s, key)| && after[i] == Noticed(c.numbers, GroupOf(s, key)[i], PointOf(e.m))
    ensures IsOutput(c, s, key, e, Step(c, s, e).1.out)
  {
    hide Step, Admitted, DeliverClients, Noticed, PubKey, PointOf, Registered, Flat, SendTo;
    StepWellFormed(c, s, e);
    GroupStep(c, s, e, key);
    JoinsIsNoPub(c, e, key);
    OutIsTheHistories(c, s, e, key);
    DeliverEach(c.numbers, GroupOf(s, key), PointOf(e.m), i);
  }

  lemma AsideKeeps(c: Config, s: State, e: Event, key: string, i: nat)
    requires c.Valid() && WellFormed(s) && Aside(c, s, e, key) && i < |GroupOf(s, key)|
    ensures WellFormed(Step(c, s, e).0)
    ensures var after := GroupOf(Step(c, s, e).0, key);
            |after| >= |GroupOf(s, key)| && after[i] == GroupOf(s, key)[i]
  {
    hide Step, Admitted, DeliverClients, PubKey, PointOf, Registered, Erases, Joins, PublishesOn;
    StepWellFormed(c, s, e);
    GroupStep(c, s, e, key);
  }

  /** The broker after a number of events. */
  ghost function Later(c: Config, s: State, es: seq<Event>): (t: State)
    requires c.Valid() && WellFormed(s)
    ensures WellFormed(t)
  {
    if es == [] then s else
      var before := Later(c, s, es[..|es| - 1]);
      StepWellFormed(c, before, es[|es| - 1]);
      Step(c, before, es[|es| - 1]).0
  }

  /** No publication on the service is stopped, and the service does not expire. */
  ghost predicate AllHeeded(c: Config, s: State, es: seq<Event>, key: string)
    requires c.Valid() && WellFormed(s)
  {
    es != [] ==>
      var before, e := es[..|es| - 1], es[|es| - 1];
      AllHeeded(c, s, before, key) && (Heeded(c, Later(c, s, before), e, key) || Aside(c, Later(c, s, before), e, key))
  }

  /** The places published on the service, in order. */
  function Places(c: Config, es: seq<Event>, key: string): seq<Point> {
    if es == [] then [] else
      Places(c, es[..|es| - 1], key) + if PublishesOn(c, es[|es| - 1], key) then [PointOf(es[|es| - 1].m)] else []
  }

  lemma {:induction false} InitiallyPrefix(m: Numbers, cl: GeoClient, a: seq<Point>, b: seq<Point>, n: nat)
    requires n <= |a| && n <= |b| && forall j :: 0 <= j < n ==> a[j] == b[j]
    ensures Initially(m, cl, a, n) == Initially(m, cl, b, n)
  {
    hide Noticed, Nearer;
    if n > 0 { InitiallyPrefix(m, cl, a, b, n - 1); }
  }

  /** The numbers of the publications, in order, for which the broker sends the subscriber a message. */
  ghost function SentFor(c: Config, s: State, es: seq<Event>, key: string, i: nat): seq<int>
    requires c.Valid() && WellFormed(s)
  {
    if es == [] then [] else
      var before, e := es[..|es| - 1], es[|es| - 1];
      var t := Later(c, s, before);
      if PublishesOn(c, e, key) && i < |GroupOf(t, key)| && Sends(c, t, key, i, e) != []
      then SentFor(c, s, before, key, i) + [|Places(c, before, key)|]
      else SentFor(c, s, before, key, i)
  }

  lemma SendsWhenNearer(c: Config, s: State, key: string, i: nat, e: Event)
    requires i < |GroupOf(s, key)| && e.Receive?
    ensures Sends(c, s, key, i, e) != [] <==> Nearer(c.numbers, GroupOf(s, key)[i], PointOf(e.m))
  {
  }

  /** The broker's stored distance and its sends, over the initial publications. */
  lemma {:induction false} InitialOnBroker(c: Config, s: State, es: seq<Event>, key: string, i: nat)
    requires c.Valid() && WellFormed(s) && AllHeeded(c, s, es, key) && i < |GroupOf(s, key)|
    ensures var after, pubs := GroupOf(Later(c, s, es), key), Places(c, es, key);
            && |after| >= |GroupOf(s, key)|
            && Initially(c.numbers, GroupOf(s, key)[i], pubs, |pubs|) == (after[i], SentFor(c, s, es, key, i))
  {
    hide Step, Admitted, Aside, Noticed, PointOf, PubKey, Nearer, Sends;
    if es != [] {
      var before, e := es[..|es| - 1], es[|es| - 1];
      var t, pubs := Later(c, s, before), Places(c, before, key);
      InitialOnBroker(c, s, before, key, i);
      if Heeded(c, t, e, key) {
        HeededReaches(c, t, e, key, i);
        SendsWhenNearer(c, t, key, i, e);
        InitiallyPrefix(c.numbers, GroupOf(s, key)[i], pubs, pubs + [PointOf(e.m)], |pubs|);
      } else {
        AsideKeeps(c, t, e, key, i);
        AsidePlaces(c, t, e, key);
        assert pubs + [] == pubs;
      }
    }
  }

  lemma AsidePlaces(c: Config, s: State, e: Event, key: string)
    requires Aside(c, s, e, key)
    ensures !PublishesOn(c, e, key)
  {
  }

  /** After the initial publications and their complete drain, whatever the interleaving and
      whatever else the broker handled meanwhile, the shadow equals what the broker stores, and
      the shadow's replica is the nearest. */
  lemma DrainedShadowMirrors(c: Config, s: State, es: seq<Event>, key: string, i: nat, pubs: seq<Point>, sub: Sub)
    requires c.Valid() && WellFormed(s) && AllHeeded(c, s, es, key) && i < |GroupOf(s, key)|
    requires Places(c, es, key) == pubs && |pubs| > 0
    requires InitialMirror(c.numbers, pubs, 0, sub, GroupOf(s, key)[i])
    requires Reachable(c.numbers, GroupOf(s, key)[i].at, pubs)
    ensures |sub.seen| == |pubs|
    ensures var ids := SentFor(c, s, es, key, i);
            var after, shadow := GroupOf(Later(c, s, es), key), NoteAll(c.numbers, sub, pubs, ids);
            && |after| >= |GroupOf(s, key)|
            && Mirrors(c.numbers, pubs, shadow, after[i]) && IsClosest(c.numbers, shadow, pubs, shadow.closestPub)
  {
    hide AllHeeded, Later, Places, SentFor, Initially, Note, GeoDistance;
    InitialOnBroker(c, s, es, key, i);
    InitialPublications(c.numbers, pubs, |pubs|, sub, GroupOf(s, key)[i]);
    assert pubs[..|pubs|] == pubs;
  }

  /** What the broker handles during the migrations: a replica's new place, or something else. */
  datatype Doing = Move(mig: nat, e: Event) | Meanwhile(e: Event)

  datatype Bench = Bench(pubs: seq<Point>, sub: Sub)

  /** The shadow after the drain that follows a move: it notes what the broker sent, if anything. */
  function Moved(m: Numbers, b: Bench, mig: nat, at: Point, received: bool): Bench
    requires mig < |b.pubs| && |b.sub.seen| == |b.pubs|
  {
    var pubs := b.pubs[mig := at];
    Bench(pubs, if received then Note(m, b.sub, pubs, mig) else b.sub)
  }

  /** A subscriber classified closer is sent the moved replica, which is its nearest now, and
      nobody else is sent anything: a farther one never converges. */
  ghost predicate OnlyCloserConverges(m: Numbers, b: Bench, mig: nat, at: Point, sent: seq<Delivery>)
    requires mig < |b.pubs| && |b.sub.seen| == |b.pubs|
  {
    var pubs := b.pubs[mig := at];
    forall v :: IsVerdict(m, b.sub, pubs, mig, v) ==>
      if v.cls == Closer then |sent| == 1 && v.target == mig && IsClosest(m, b.sub, pubs, mig) else sent == []
  }

  lemma MoveMirrors(m: Numbers, b: Bench, cl: GeoClient, mig: nat, p: CachedPub)
    requires Mirrors(m, b.pubs, b.sub, cl) && mig < |b.pubs|
    ensures var sent := SendTo(m, cl, p);
            && OnlyCloserConverges(m, b, mig, p.at, sent)
            && var after := Moved(m, b, mig, p.at, sent != []);
               Mirrors(m, after.pubs, after.sub, Noticed(m, cl, p.at))
  {
    DistanceSymmetric(m, cl.at, p.at);
    hide GeoDistance;
    var pubs := b.pubs[mig := p.at];
    assert forall j :: 0 <= j < |pubs| && j != mig ==>
                         PubDistance(m, b.sub, pubs[j]) == PubDistance(m, b.sub, b.pubs[j]);
    assert PubDistance(m, b.sub, pubs[mig]) == GeoDistance(m, p.at, cl.at);
  }

  /** A run of migrations, with anything else in between, that no brake, gate or expiry hinders. */
  ghost predicate Unhindered(c: Config, s: State, key: string, pubs: nat, doings: seq<Doing>)
    requires c.Valid() && WellFormed(s)
    decreases |doings|
  {
    doings != [] ==>
      && (match doings[0]
          case Move(mig, e) => mig < pubs && Heeded(c, s, e, key)
          case Meanwhile(e) => Aside(c, s, e, key))
      && WellFormed(Step(c, s, doings[0].e).0) && Unhindered(c, Step(c, s, doings[0].e).0, key, pubs, doings[1..])
  }

  /** The bench after one thing the broker handled. */
  ghost function BenchAfter(c: Config, s: State, key: string, i: nat, b: Bench, d: Doing): Bench
    requires c.Valid() && i < |GroupOf(s, key)|
    requires d.Move? ==> d.e.Receive? && d.mig < |b.pubs| && |b.sub.seen| == |b.pubs|
  {
    match d
    case Move(mig, e) => Moved(c.numbers, b, mig, PointOf(e.m), Sends(c, s, key, i, e) != [])
    case Meanwhile(_) => b
  }

  /** At every point of the run the shadow equals what the broker stores, and at every move
      exactly the closer subscribers converge on what the broker puts out. */
  ghost predicate ShadowHolds(c: Config, s: State, key: string, i: nat, b: Bench, doings: seq<Doing>)
    requires c.Valid() && WellFormed(s) && Unhindered(c, s, key, |b.pubs|, doings)
    decreases |doings|
  {
    && i < |GroupOf(s, key)| && Mirrors(c.numbers, b.pubs, b.sub, GroupOf(s, key)[i])
    && (doings != [] ==>
          var d := doings[0];
          && (d.Move? ==>
                IsOutput(c, s, key, d.e, Step(c, s, d.e).1.out)
                && OnlyCloserConverges(c.numbers, b, d.mig, PointOf(d.e.m), Sends(c, s, key, i, d.e)))
          && ShadowHolds(c, Step(c, s, d.e).0, key, i, BenchAfter(c, s, key, i, b, d), doings[1..]))
  }

  /** Through every migration of every run without brake, gate or expiry of the service, whatever
      else the broker handles in between: the shadow distance equals the broker's, closer cases
      always receive the moved replica, and farther or unchanged cases never receive anything. */
  lemma {:induction false} ShadowThroughMigrations(c: Config, s: State, key: string, i: nat, b: Bench,
                                                   doings: seq<Doing>)
    requires c.Valid() && WellFormed(s) && Unhindered(c, s, key, |b.pubs|, doings)
    requires i < |GroupOf(s, key)| && Mirrors(c.numbers, b.pubs, b.sub, GroupOf(s, key)[i])
    ensures ShadowHolds(c, s, key, i, b, doings)
    decreases |doings|
  {
    hide Step, Note, Noticed, Nearer, SendTo, IsOutput, OnlyCloserConverges, PointOf, Admitted, WellFormed, Aside,
         PubKey;
    if doings != [] {
      var d := doings[0];
      if d.Move? {
        HeededReaches(c, s, d.e, key, i);
        MoveMirrors(c.numbers, b, GroupOf(s, key)[i], d.mig, AsPub(d.e));
      } else {
        AsideKeeps(c, s, d.e, key, i);
      }
      ShadowThroughMigrations(c, Step(c, s, d.e).0, key, i, BenchAfter(c, s, key, i, b, d), doings[1..]);
    }
  }
}
