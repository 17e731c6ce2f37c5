/** Expiry over whole runs: a group of subscribers is erased exactly when nothing touched its
    key for longer than the time to live. */
module Expiry {
  import opened Outcomes
  import opened Geo
  import opened BrokerModel
  import opened BrokerRuns
  import opened BrakeRate
  import opened ClosestFilter

  /** What renews a key: a client's subscription to it, or a heartbeat carrying it. */
  predicate Touches(c: Config, e: Event, key: string) {
    Joins(c, e, key) || (e.Receive? && e.m.kind == HEARTBEAT && e.m.name == Some(key))
  }

  /** When the key was last renewed since its group was last erased. */
  ghost function LastTouch(c: Config, es: seq<Event>, key: string): Option<int>
    requires c.Valid()
  {
    if es == [] then None else
      var before, e := es[..|es| - 1], es[|es| - 1];
      if Touches(c, e, key) then Some(e.now)
      else if Erases(Run(c, before), e, key) then None
      else LastTouch(c, before, key)
  }

  function ActiveAt(s: State, key: string): Option<int> {
    if key in s.lastActive then Some(s.lastActive[key]) else None
  }

  /** Every group has an activity time. */
  ghost predicate Timed(s: State) {
    s.subs.Keys <= s.lastActive.Keys
  }

  lemma PublishActive(c: Config, s: State, e: Event)
    requires c.Valid() && WellFormed(s) && e.Receive? && e.m.kind == PUBLISH
    ensures var t := Step(c, s, e).0; t.lastActive == s.lastActive && t.subs.Keys == s.subs.Keys
  {
    if e.m.name.Some? {
      PublishCache(c, s, e.m, e.from, e.who, e.now);
      PublishOutcome(c, s, e);
      LocalOutcome(c, s, e, PubKey(c, e.m));
      StepIsPublish(c, s, e);
    } else {
      PublishNameless(c, s, e.m, e.from, e.who, e.now);
    }
    hide HandlePublish, PublishLocal, Admitted, DeliverClients, DeliverSends, PubKey, PointOf, CachePut, PubCounted;
  }

  lemma SubscribeActive(c: Config, s: State, e: Event, key: string)
    requires c.Valid() && WellFormed(s) && e.Receive? && e.m.kind == SUBSCRIBE
    ensures var t := Step(c, s, e).0;
            && ActiveAt(t, key) == (if Joins(c, e, key) then Some(e.now) else ActiveAt(s, key))
            && (Timed(s) ==> Timed(t))
  {
    hide SubscribeFromChild, SubscribeFromClient, SubCounted, Registered, SubKey, ExtendRegion, PointOf;
    if e.m.name.Some? {
      FromChildFrame(c, s, e.m.name.value, e.who);
      FromClientFrame(c, s, e.m, e.from, e.now);
    }
  }

  lemma CleanupActive(s: State, now: int, key: string)
    requires Timed(s)
    ensures var t := CleanupExpired(s, now);
            Timed(t) && ActiveAt(t, key) == if key in Expired(s, now) then None else ActiveAt(s, key)
  {
  }

  lemma OtherActive(c: Config, s: State, e: Event, key: string)
    requires c.Valid() && WellFormed(s) && e.Receive? && e.m.kind != PUBLISH && e.m.kind != SUBSCRIBE
    ensures var t := Step(c, s, e).0;
            && ActiveAt(t, key) == (if Touches(c, e, key) then Some(e.now) else ActiveAt(s, key))
            && t.subs == s.subs && s.lastActive.Keys <= t.lastActive.Keys
  {
    hide HandlePublish, HandleSubscribe, Hull;
  }

  lemma ActiveStep(c: Config, s: State, e: Event, key: string)
    requires c.Valid() && WellFormed(s) && Timed(s)
    ensures var t := Step(c, s, e).0;
            && ActiveAt(t, key)
               == (if Touches(c, e, key) then Some(e.now) else if Erases(s, e, key) then None else ActiveAt(s, key))
            && Timed(t)
  {
    hide Handle, CleanupExpired, Expired, SubKey;
    if e.Cleanup? {
      CleanupActive(s, e.now, key);
    } else if e.m.kind == PUBLISH {
      PublishActive(c, s, e);
    } else if e.m.kind == SUBSCRIBE {
      SubscribeActive(c, s, e, key);
    } else {
      OtherActive(c, s, e, key);
    }
  }

  /** In every run a key's activity time is that of its last renewal, and every group has one. */
  lemma {:induction false} ActivityIsLastTouch(c: Config, es: seq<Event>, key: string)
    requires c.Valid()
    ensures ActiveAt(Run(c, es), key) == LastTouch(c, es, key) && Timed(Run(c, es))
  {
    hide Step, Touches, Erases;
    if es != [] {
      ActivityIsLastTouch(c, es[..|es| - 1], key);
      ActiveStep(c, Run(c, es[..|es| - 1]), es[|es| - 1], key);
    }
  }

  /** A cleanup erases a group exactly when its last subscription or heartbeat is more than
      15 seconds ago; the group's cache and brake windows go with it. */
  lemma GroupExpires(c: Config, es: seq<Event>, now: int, key: string)
    requires c.Valid() && key in Run(c, es).subs
    ensures LastTouch(c, es, key).Some?
    ensures var t := CleanupExpired(Run(c, es), now);
            && (key !in t.subs <==> now - LastTouch(c, es, key).value > 15)
            && (key !in t.subs ==> key !in t.cache && key !in t.brakeUp && key !in t.brakeLocal && key !in t.lastActive)
            && (key in t.subs ==> t.subs[key] == Run(c, es).subs[key])
  {
    ActivityIsLastTouch(c, es, key);
    hide Run;
  }

  // ---------- heartbeats and digests ----------

  /** When a client last subscribed to the key since its group was last erased. */
  ghost function LastSubscription(c: Config, es: seq<Event>, key: string): Option<int>
    requires c.Valid()
  {
    if es == [] then None else
      var before, e := es[..|es| - 1], es[|es| - 1];
      if Joins(c, e, key) then Some(e.now)
      else if Erases(Run(c, before), e, key) then None
      else LastSubscription(c, before, key)
  }

  /** The heartbeats do not carry the key itself: in encrypted operation they carry names, and
      groups are keyed by digests. */
  predicate NoHeartbeatFor(es: seq<Event>, key: string) {
    forall i :: 0 <= i < |es| && es[i].Receive? && es[i].m.kind == HEARTBEAT ==> es[i].m.name != Some(key)
  }

  lemma {:induction false} OnlySubscriptionsTouch(c: Config, es: seq<Event>, key: string)
    requires c.Valid() && NoHeartbeatFor(es, key)
    ensures LastTouch(c, es, key) == LastSubscription(c, es, key)
  {
    hide Run, Erases, Joins;
    if es != [] { OnlySubscriptionsTouch(c, es[..|es| - 1], key); }
  }

  /** In every run whose heartbeats carry names that are not the digest, a digest's group is
      erased by a cleanup exactly when its last subscription is more than 15 seconds ago,
      however many heartbeats its clients sent. */
  lemma HeartbeatsDoNotRenewDigests(c: Config, es: seq<Event>, now: int, key: string)
    requires c.Valid() && NoHeartbeatFor(es, key) && key in Run(c, es).subs
    ensures LastSubscription(c, es, key).Some?
    ensures key !in CleanupExpired(Run(c, es), now).subs <==> now - LastSubscription(c, es, key).value > 15
  {
    GroupExpires(c, es, now, key);
    OnlySubscriptionsTouch(c, es, key);
  }

  function EncryptedSubscription(name: string, client: Addr, m1: Blinded, m2: Blinded, now: int): Event {
    Receive(Msg(SUBSCRIBE, Some(name), Some(Point(0.0, 0.0)), NO_FLAGS, None, Some(m1), Some(m2), []), client, "", now)
  }

  function HeartbeatOf(name: string, client: Addr, now: int): Event {
    Receive(Msg(HEARTBEAT, Some(name), None, NO_FLAGS, None, None, None, []), client, "", now)
  }

  /** A subscription at 0 and a heartbeat at 14, looked at by a cleanup at 16. */
  lemma SubscribeThenHeartbeat(c: Config, sub: Event, heartbeat: Event, key: string)
    requires c.Valid() && Joins(c, sub, key) && sub.now == 0
    requires heartbeat.Receive? && heartbeat.m.kind == HEARTBEAT && heartbeat.now == 14
    ensures var s := Run(c, [sub, heartbeat]);
            && key in s.subs
            && (key in CleanupExpired(s, 16).subs <==> heartbeat.m.name == Some(key))
  {
    var none: seq<Event> := [];
    var es := [sub, heartbeat];
    assert es[..1] == [sub] && [sub][..0] == none;
    assert Run(c, none) == Initial(c);
    RunOneMore(c, none, sub);
    RunOneMore(c, [sub], heartbeat);
    assert none + [sub] == [sub] && [sub] + [heartbeat] == es;
    GroupStep(c, Initial(c), sub, key);
    GroupStep(c, Run(c, [sub]), heartbeat, key);
    assert LastTouch(c, [sub], key) == Some(0);
    assert LastTouch(c, es, key) == if heartbeat.m.name == Some(key) then Some(14) else Some(0);
    hide Run, LastTouch, Step;
    GroupExpires(c, es, 16, key);
  }

  /** The same client, subscribed at 0 and sending a heartbeat at 14, is gone after a cleanup at
      16 from a broker in encrypted operation, and still there in plaintext operation. */
  lemma LapsedWhileBeating(c: Config, name: string, client: Addr, m1: Blinded, m2: Blinded)
    requires c.Valid() && c.heEnabled && name != c.HashName(name)
    ensures var es := [EncryptedSubscription(name, client, m1, m2, 0), HeartbeatOf(name, client, 14)];
            var plain := c.(heEnabled := false);
            && c.HashName(name) in Run(c, es).subs && c.HashName(name) !in CleanupExpired(Run(c, es), 16).subs
            && name in CleanupExpired(Run(plain, es), 16).subs
  {
    var sub, heartbeat := EncryptedSubscription(name, client, m1, m2, 0), HeartbeatOf(name, client, 14);
    SubscribeThenHeartbeat(c, sub, heartbeat, c.HashName(name));
    SubscribeThenHeartbeat(c.(heEnabled := false), sub, heartbeat, name);
    hide Run, CleanupExpired;
  }
}
