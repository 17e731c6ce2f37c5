/** How subscriptions spread upwards: what one broker keeps in every run. */
module Routing {
  import opened Outcomes
  import opened BrokerModel
  import opened BrokerRuns
  import opened ClosestFilter

  predicate IsSubscribe(m: Msg, k: string) {
    m.kind == SUBSCRIBE && m.name == Some(k)
  }

  /** How many messages announce the key. */
  function CountAnnouncing(up: seq<Msg>, k: string): nat {
    if up == [] then 0 else One(IsSubscribe(up[0], k)) + CountAnnouncing(up[1..], k)
  }

  function ActiveFor(s: State, k: string): set<string> {
    Lookup(s.childActive, k, {})
  }

  /** A broker with a parent has announced every key that somebody below it wants. */
  ghost predicate AllAnnounced(c: Config, s: State) {
    c.hasParent ==> forall k :: ActiveFor(s, k) != {} || GroupOf(s, k) != [] ==> k in s.otParent
  }

  /** A step forgets no child, no active child and no announcement; a new announcement is sent. */
  ghost predicate RoutingGrows(s: State, t: State, up: seq<Msg>) {
    && s.children.Keys <= t.children.Keys
    && (forall k :: ActiveFor(s, k) <= ActiveFor(t, k))
    && s.otParent <= t.otParent
    && (forall k :: CountAnnouncing(up, k) == One(k in t.otParent && k !in s.otParent))
  }

  lemma AnnouncementCount(c: Config, otParent: set<string>, key: string, notice: seq<Msg>)
    requires |notice| <= 1 && forall i :: 0 <= i < |notice| ==> notice[i].kind != SUBSCRIBE
    ensures forall k :: CountAnnouncing(notice + Announcement(c, otParent, key), k)
                        == One(k in Announced(c, otParent, key) && k !in otParent)
  {
    var a := Announcement(c, otParent, key);
    forall k ensures CountAnnouncing(notice + a, k) == CountAnnouncing(a, k) {
      if notice != [] { assert (notice + a)[1..] == a; } else { assert notice + a == a; }
    }
    forall k ensures CountAnnouncing(a, k) == One(k in Announced(c, otParent, key) && k !in otParent) {
      if Announces(c, otParent, key) { assert a[1..] == []; }
    }
  }

  lemma SubscribeGrows(c: Config, s: State, m: Msg, from: Addr, who: string, now: int)
    ensures var (t, fx) := HandleSubscribe(c, s, m, from, who, now);
            && RoutingGrows(s, t, fx.up)
            && (m.flags.fromChild && m.name.Some? && who != "" ==> who in ActiveFor(t, m.name.value))
            && (AllAnnounced(c, s) ==> AllAnnounced(c, t))
  {
    hide SubscribeFromChild, SubscribeFromClient, SubCounted, Announcement, Announced, Announces, SubKey, PointOf,
         Registered, ExtendRegion, CountAnnouncing;
    if m.name.None? {
      NoneAnnounced([]);
    } else if m.flags.fromChild {
      FromChildFrame(c, s, m.name.value, who);
      ChildGrows(c, s, m.name.value, who);
    } else {
      FromClientFrame(c, s, m, from, now);
      ClientGrows(c, s, m, from, now);
    }
  }

  lemma {:induction false} NoneAnnounced(up: seq<Msg>)
    requires forall i :: 0 <= i < |up| ==> up[i].kind != SUBSCRIBE
    ensures forall k :: CountAnnouncing(up, k) == 0
  {
    if up != [] { NoneAnnounced(up[1..]); }
  }

  lemma ChildGrows(c: Config, s: State, name: string, who: string)
    ensures var (t, fx) := SubscribeFromChild(c, s, name, who);
            && RoutingGrows(s, t, fx.up)
            && (who != "" ==> who in ActiveFor(t, name))
            && (AllAnnounced(c, s) ==> AllAnnounced(c, t))
  {
    hide SubscribeFromChild, SubCounted, Announcement, CountAnnouncing;
    FromChildFrame(c, s, name, who);
    NoneAnnounced([]);
    AnnouncementCount(c, s.otParent, name, []);
    assert [] + Announcement(c, s.otParent, name) == Announcement(c, s.otParent, name);
  }

  lemma ClientGrows(c: Config, s: State, m: Msg, from: Addr, now: int)
    requires m.name.Some?
    ensures var (t, fx) := SubscribeFromClient(c, s, m, from, now);
            RoutingGrows(s, t, fx.up) && (AllAnnounced(c, s) ==> AllAnnounced(c, t))
  {
    hide SubscribeFromClient, SubCounted, Announcement, CountAnnouncing, SubKey, PointOf, Registered, ExtendRegion;
    FromClientFrame(c, s, m, from, now);
    AnnouncementCount(c, s.otParent, SubKey(c, m), RegionNotice(c, s.region, ExtendRegion(s.region, PointOf(m))));
  }

  /** Publications announce nothing and forget nobody. */
  lemma PublishGrows(c: Config, s: State, m: Msg, from: Addr, who: string, now: int)
    requires c.Valid() && WellFormed(s)
    ensures var (t, fx) := HandlePublish(c, s, m, from, who, now);
            && t.children.Keys == s.children.Keys && t.childActive == s.childActive && t.otParent == s.otParent
            && (forall k :: GroupOf(t, k) != [] <==> GroupOf(s, k) != [])
            && (forall i :: 0 <= i < |fx.up| ==> fx.up[i].kind == PUBLISH)
  {
    PublishKeepsChildren(c, s, m, from, who, now);
    if m.name.None? {
      hide HandlePublish;
      PublishNameless(c, s, m, from, who, now);
    } else {
      PublishUpKinds(c, s, m, from, who, now);
      PublishGroups(c, s, m, from, who, now);
      hide HandlePublish, PubKey, PointOf, CachePut;
      PublishCache(c, s, m, from, who, now);
    }
  }

  lemma PublishUpKinds(c: Config, s: State, m: Msg, from: Addr, who: string, now: int)
    requires c.Valid() && WellFormed(s)
    ensures var fx := HandlePublish(c, s, m, from, who, now).1;
            forall i :: 0 <= i < |fx.up| ==> fx.up[i].kind == PUBLISH
  {
    hide PublishLocal, DownChildren, DownTargets, DownSends, CachePut, PublishStats, BrakeAllows, BrakeWindows, FromId,
         PubKey;
  }

  lemma PublishGroups(c: Config, s: State, m: Msg, from: Addr, who: string, now: int)
    requires c.Valid() && WellFormed(s) && m.name.Some?
    ensures var t := HandlePublish(c, s, m, from, who, now).0; forall k :: GroupOf(t, k) != [] <==> GroupOf(s, k) != []
  {
    var local := PublishLocal(c, s.brakeLocal, s.subs, m, PubKey(c, m), now);
    assert HandlePublish(c, s, m, from, who, now).0.subs == local.subs by {
      hide PublishUp, PublishLocal, DownTargets, DownChildren, DownSends, CachePut, PublishStats, PubKey, FromId;
    }
    hide HandlePublish, BrakeWindows, BrakeAllows, PassesGate, CallsMatch, DeliverClients, DeliverSends, ScopeLocal;
  }

  /** Every step of a broker. */
  lemma RoutingStep(c: Config, s: State, e: Event)
    requires c.Valid() && WellFormed(s)
    ensures var (t, fx) := Step(c, s, e); RoutingGrows(s, t, fx.up) && (AllAnnounced(c, s) ==> AllAnnounced(c, t))
  {
    var (t, fx) := Step(c, s, e);
    if e.Receive? && e.m.kind == SUBSCRIBE {
      SubscribeGrows(c, s, e.m, e.from, e.who, e.now);
      hide HandleSubscribe;
    } else {
      QuietGrows(c, s, e);
      hide Step, CountAnnouncing;
      NoneAnnounced(fx.up);
    }
  }

  lemma OtherGrows(c: Config, s: State, e: Event)
    requires c.Valid() && WellFormed(s) && e.Receive? && e.m.kind != SUBSCRIBE && e.m.kind != PUBLISH
    ensures var (t, fx) := Step(c, s, e);
            && s.children.Keys <= t.children.Keys && t.childActive == s.childActive && t.otParent == s.otParent
            && t.subs == s.subs
            && (forall i :: 0 <= i < |fx.up| ==> fx.up[i].kind != SUBSCRIBE)
  {
    hide HandlePublish, HandleSubscribe, Hull;
  }

  lemma QuietGrows(c: Config, s: State, e: Event)
    requires c.Valid() && WellFormed(s) && !(e.Receive? && e.m.kind == SUBSCRIBE)
    ensures var (t, fx) := Step(c, s, e);
            && s.children.Keys <= t.children.Keys && t.childActive == s.childActive && t.otParent == s.otParent
            && (forall k :: GroupOf(t, k) != [] ==> GroupOf(s, k) != [])
            && (forall i :: 0 <= i < |fx.up| ==> fx.up[i].kind != SUBSCRIBE)
  {
    hide HandlePublish, HandleSubscribe, HandleHello, HandleRegionUpdate, Expired;
    if e.Cleanup? {
      hide Handle;
    } else if e.m.kind == PUBLISH {
      PublishGrows(c, s, e.m, e.from, e.who, e.now);
    } else {
      hide Step;
      OtherGrows(c, s, e);
    }
  }

  /** In every run a broker with a parent has announced every key somebody below it wants. */
  lemma {:induction false} WantedIsAnnounced(c: Config, es: seq<Event>)
    requires c.Valid()
    ensures AllAnnounced(c, Run(c, es))
  {
    hide Step;
    if es != [] {
      WantedIsAnnounced(c, es[..|es| - 1]);
      RoutingStep(c, Run(c, es[..|es| - 1]), es[|es| - 1]);
    }
  }

  /** The announcements of a key sent over a whole run. */
  ghost function Announcements(c: Config, es: seq<Event>, k: string): nat
    requires c.Valid()
  {
    if es == [] then 0 else
      Announcements(c, es[..|es| - 1], k) + CountAnnouncing(Step(c, Run(c, es[..|es| - 1]), es[|es| - 1]).1.up, k)
  }

  /** A key is announced to the parent at most once in any run, expiry included: once when the
      broker has noted it as announced, and never otherwise. */
  lemma {:induction false} AnnouncedOnce(c: Config, es: seq<Event>, k: string)
    requires c.Valid()
    ensures Announcements(c, es, k) == One(k in Run(c, es).otParent)
  {
    hide Step, CountAnnouncing;
    if es != [] {
      AnnouncedOnce(c, es[..|es| - 1], k);
      RoutingStep(c, Run(c, es[..|es| - 1]), es[|es| - 1]);
    }
  }
}
