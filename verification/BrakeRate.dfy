/** The propagation brake over whole runs: the pruned queue of admission times decides as
    a count over the full history would, and bounds the rate in every window. */
module BrakeRate {
  import opened Geo
  import opened BrokerModel
  import opened BrokerRuns

  // ---------- one window ----------

  predicate Sorted(a: seq<int>) {
    forall i, j :: 0 <= i < j < |a| ==> a[i] <= a[j]
  }

  /** The entries no older than the window. */
  function Recent(a: seq<int>, now: int, window: int): seq<int> {
    if a == [] then [] else
      Recent(a[..|a| - 1], now, window) + if now - a[|a| - 1] <= window then [a[|a| - 1]] else []
  }

  /** How many entries lie in a closed interval. */
  function CountIn(a: seq<int>, lo: int, hi: int): nat {
    if a == [] then 0 else CountIn(a[..|a| - 1], lo, hi) + One(lo <= a[|a| - 1] <= hi)
  }

  lemma {:induction false} RecentFront(x: int, b: seq<int>, now: int, window: int)
    ensures Recent([x] + b, now, window) == (if now - x <= window then [x] else []) + Recent(b, now, window)
  {
    var a := [x] + b;
    if b == [] {
      assert a[..|a| - 1] == [];
    } else {
      assert a[..|a| - 1] == [x] + b[..|b| - 1];
      RecentFront(x, b[..|b| - 1], now, window);
    }
  }

  lemma {:induction false} AllRecent(a: seq<int>, now: int, window: int)
    requires forall i :: 0 <= i < |a| ==> now - a[i] <= window
    ensures Recent(a, now, window) == a
  {
    if a != [] {
      AllRecent(a[..|a| - 1], now, window);
      assert a == a[..|a| - 1] + [a[|a| - 1]];
    }
  }

  /** On sorted entries, popping old ones from the front keeps exactly the recent ones. */
  lemma {:induction false} PruneIsRecent(a: seq<int>, now: int, window: int)
    requires Sorted(a)
    ensures Prune(a, now, window) == Recent(a, now, window)
  {
    if a != [] {
      if now - a[0] > window {
        PruneIsRecent(a[1..], now, window);
        RecentFront(a[0], a[1..], now, window);
        assert a == [a[0]] + a[1..];
      } else {
        AllRecent(a, now, window);
      }
    }
  }

  lemma {:induction false} RecentConcat(a: seq<int>, b: seq<int>, now: int, window: int)
    ensures Recent(a + b, now, window) == Recent(a, now, window) + Recent(b, now, window)
  {
    if b == [] {
      assert a + b == a;
    } else {
      RecentConcat(a, b[..|b| - 1], now, window);
      assert (a + b)[..|a + b| - 1] == a + b[..|b| - 1];
    }
  }

  /** Pruning at an earlier time loses nothing for a later one. */
  lemma {:induction false} RecentLater(a: seq<int>, before: int, now: int, window: int)
    requires before <= now
    ensures Recent(Recent(a, before, window), now, window) == Recent(a, now, window)
  {
    if a != [] {
      var rest, x := a[..|a| - 1], a[|a| - 1];
      RecentLater(rest, before, now, window);
      RecentConcat(Recent(rest, before, window), if before - x <= window then [x] else [], now, window);
      assert [x][..0] == [];
      assert Recent([x], now, window) == if now - x <= window then [x] else [];
    }
  }

  lemma SortedAppend(a: seq<int>, x: int)
    requires Sorted(a) && forall y :: y in a ==> y <= x
    ensures Sorted(a + [x])
  {
    forall i, j | 0 <= i < j < |a + [x]| ensures (a + [x])[i] <= (a + [x])[j] {
      assert j == |a| ==> a[i] in a;
    }
  }

  lemma {:induction false} RecentMembers(a: seq<int>, now: int, window: int)
    requires Sorted(a)
    ensures Sorted(Recent(a, now, window))
    ensures forall x :: x in Recent(a, now, window) ==> x in a
  {
    if a != [] {
      var rest, x := a[..|a| - 1], a[|a| - 1];
      RecentMembers(rest, now, window);
      forall y | y in Recent(rest, now, window) ensures y <= x {
        var i :| 0 <= i < |rest| && rest[i] == y;
        assert a[i] == y;
      }
      SortedAppend(Recent(rest, now, window), x);
      assert Recent(rest, now, window) + [] == Recent(rest, now, window);
    }
  }

  /** The queue and the full admission history after calls at the given times. */
  function Calls(ts: seq<int>, limit: int, window: int): (seq<int>, seq<int>) {
    if ts == [] then ([], []) else
      var (queue, admitted) := Calls(ts[..|ts| - 1], limit, window);
      var now := ts[|ts| - 1];
      (BrakeQueue(queue, now, limit, window), admitted + if BrakeAdmits(queue, now, limit, window) then [now] else [])
  }

  /** A queue that agrees with the history from now on still does after one more call. */
  lemma CallAgrees(queue: seq<int>, admitted: seq<int>, more: seq<int>, now: int, later: int, window: int)
    requires now <= later && Recent(queue, now, window) == Recent(admitted, now, window)
    ensures Recent(Recent(queue, now, window) + more, later, window) == Recent(admitted + more, later, window)
  {
    RecentConcat(Recent(queue, now, window), more, later, window);
    RecentConcat(admitted, more, later, window);
    RecentLater(admitted, now, later, window);
  }

  ghost predicate Agree(queue: seq<int>, admitted: seq<int>, now: int, window: int) {
    forall later :: now <= later ==> Recent(queue, later, window) == Recent(admitted, later, window)
  }

  ghost predicate UpTo(a: seq<int>, now: int) {
    forall x :: x in a ==> x <= now
  }

  lemma SortedGrowth(a: seq<int>, now: int, more: seq<int>)
    requires Sorted(a) && UpTo(a, now) && (more == [] || more == [now])
    ensures Sorted(a + more) && UpTo(a + more, now)
  {
    if more == [] { assert a + more == a; } else { SortedAppend(a, now); }
  }

  lemma CallStep(queue: seq<int>, admitted: seq<int>, before: int, now: int, limit: int, window: int)
    requires Sorted(queue) && Sorted(admitted) && UpTo(queue, before) && UpTo(admitted, before) && before <= now
    requires Agree(queue, admitted, before, window)
    ensures var more := if BrakeAdmits(queue, now, limit, window) then [now] else [];
            var after := BrakeQueue(queue, now, limit, window);
            && Sorted(after) && Sorted(admitted + more) && UpTo(after, now) && UpTo(admitted + more, now)
            && Agree(after, admitted + more, now, window)
  {
    var more := if BrakeAdmits(queue, now, limit, window) then [now] else [];
    PruneIsRecent(queue, now, window);
    RecentMembers(queue, now, window);
    assert UpTo(queue, now) && UpTo(admitted, now);
    assert UpTo(Recent(queue, now, window), now);
    assert Recent(queue, now, window) == Recent(admitted, now, window);
    hide Sorted, UpTo;
    SortedGrowth(Recent(queue, now, window), now, more);
    SortedGrowth(admitted, now, more);
    forall later | now <= later
      ensures Recent(Recent(queue, now, window) + more, later, window) == Recent(admitted + more, later, window)
    {
      CallAgrees(queue, admitted, more, now, later, window);
    }
  }

  lemma {:induction false} CallsInvariant(ts: seq<int>, limit: int, window: int)
    requires Sorted(ts)
    ensures var (queue, admitted) := Calls(ts, limit, window);
            && Sorted(queue) && Sorted(admitted)
            && (ts == [] ==> queue == [] && admitted == [])
            && (ts != [] ==> UpTo(queue, ts[|ts| - 1]) && UpTo(admitted, ts[|ts| - 1])
                             && Agree(queue, admitted, ts[|ts| - 1], window))
  {
    if ts != [] {
      var before, now := ts[..|ts| - 1], ts[|ts| - 1];
      CallsInvariant(before, limit, window);
      var (queue, admitted) := Calls(before, limit, window);
      CallStep(queue, admitted, if before == [] then now else before[|before| - 1], now, limit, window);
    }
  }

  /** The pruned queue admits exactly when fewer than the limit of all admissions are recent. */
  lemma AdmitsByFullCount(ts: seq<int>, now: int, limit: int, window: int)
    requires Sorted(ts + [now])
    ensures BrakeAdmits(Calls(ts, limit, window).0, now, limit, window)
            <==> |Recent(Calls(ts, limit, window).1, now, window)| < limit
  {
    assert forall i :: 0 <= i < |ts| ==> (ts + [now])[i] == ts[i];
    assert (ts + [now])[|ts|] == now;
    CallsInvariant(ts, limit, window);
    if ts != [] { assert Agree(Calls(ts, limit, window).0, Calls(ts, limit, window).1, ts[|ts| - 1], window); }
    PruneIsRecent(Calls(ts, limit, window).0, now, window);
  }

  lemma {:induction false} CountAtMostRecent(a: seq<int>, lo: int, hi: int, now: int, window: int)
    requires now - lo <= window
    ensures CountIn(a, lo, hi) <= |Recent(a, now, window)|
  {
    if a != [] { CountAtMostRecent(a[..|a| - 1], lo, hi, now, window); }
  }

  /** Every closed interval of the window's length holds at most the limit of admissions. */
  lemma {:induction false} RateBound(ts: seq<int>, limit: int, window: int, lo: int)
    requires Sorted(ts)
    ensures CountIn(Calls(ts, limit, window).1, lo, lo + window) <= if limit > 0 then limit else 0
  {
    if ts != [] {
      var before, now := ts[..|ts| - 1], ts[|ts| - 1];
      RateBound(before, limit, window, lo);
      var (queue, admitted) := Calls(before, limit, window);
      if BrakeAdmits(queue, now, limit, window) {
        assert (admitted + [now])[..|admitted|] == admitted;
        if lo <= now <= lo + window {
          assert ts == before + [now];
          AdmitsByFullCount(before, now, limit, window);
          CountAtMostRecent(admitted, lo, lo + window, now, window);
        }
      } else {
        assert admitted + [] == admitted;
      }
    }
  }

  // ---------- the windows of a broker in a run ----------

  function WindowsOf(s: State, dir: BrakeDir): Windows {
    if dir.UpwardBrake? then s.brakeUp else s.brakeLocal
  }

  /** The event asks this window for admission. */
  predicate Consults(c: Config, s: State, e: Event, dir: BrakeDir, key: string, q: int) {
    && IsPub(e) && PubKey(c, e.m) == key && GetQuadrant(PointOf(e.m)) == q
    && (if dir.UpwardBrake? then c.hasParent && !e.m.flags.fromParent && ScopeUp(c)
        else ScopeLocal(c) && Lookup(s.subs, key, []) != [])
  }

  predicate Admits(c: Config, s: State, e: Event, dir: BrakeDir, key: string, q: int) {
    && Consults(c, s, e, dir, key, q)
    && BrakeAdmits(WindowOf(WindowsOf(s, dir), key, q), e.now, c.brakeLimit, c.brakeWindow)
  }

  predicate Erases(s: State, e: Event, key: string) {
    e.Cleanup? && key in Expired(s, e.now)
  }

  lemma WindowAfterBrake(c: Config, w: Windows, service: string, at: Point, now: int, key: string, q: int)
    ensures WindowOf(BrakeWindows(c, w, service, at, now), key, q)
            == if service == key && GetQuadrant(at) == q
               then BrakeQueue(WindowOf(w, key, q), now, c.brakeLimit, c.brakeWindow)
               else WindowOf(w, key, q)
  {
    hide BrakeQueue, GetQuadrant;
  }

  lemma PublishWindows(c: Config, s: State, m: Msg, from: Addr, who: string, now: int)
    requires c.Valid() && WellFormed(s) && m.name.Some?
    ensures var t := HandlePublish(c, s, m, from, who, now).0;
            && t.brakeUp == PublishUp(c, s.brakeUp, m, PubKey(c, m), now).brakeUp
            && t.brakeLocal == PublishLocal(c, s.brakeLocal, s.subs, m, PubKey(c, m), now).brakeLocal
  {
    hide PublishUp, PublishLocal, DownTargets, DownChildren, DownSends, CachePut, PublishStats, PubKey, FromId;
  }

  lemma PublishWindow(c: Config, s: State, e: Event, dir: BrakeDir, key: string, q: int)
    requires c.Valid() && WellFormed(s) && IsPub(e)
    ensures WindowOf(WindowsOf(HandlePublish(c, s, e.m, e.from, e.who, e.now).0, dir), key, q)
            == if Consults(c, s, e, dir, key, q)
               then BrakeQueue(WindowOf(WindowsOf(s, dir), key, q), e.now, c.brakeLimit, c.brakeWindow)
               else WindowOf(WindowsOf(s, dir), key, q)
  {
    hide HandlePublish, BrakeWindows, WindowOf, BrakeAllows, DeliverClients, DeliverSends, PassesGate, CallsMatch,
         PubKey, PointOf, GetQuadrant;
    PublishWindows(c, s, e.m, e.from, e.who, e.now);
    WindowAfterBrake(c, s.brakeUp, PubKey(c, e.m), PointOf(e.m), e.now, key, q);
    WindowAfterBrake(c, s.brakeLocal, PubKey(c, e.m), PointOf(e.m), e.now, key, q);
  }

  lemma CleanupWindow(s: State, now: int, dir: BrakeDir, key: string, q: int)
    ensures WindowOf(WindowsOf(CleanupExpired(s, now), dir), key, q)
            == if key in Expired(s, now) then [] else WindowOf(WindowsOf(s, dir), key, q)
  {
    hide Expired;
  }

  lemma WindowStep(c: Config, s: State, e: Event, dir: BrakeDir, key: string, q: int)
    requires c.Valid() && WellFormed(s)
    ensures WindowOf(WindowsOf(Step(c, s, e).0, dir), key, q)
            == if Consults(c, s, e, dir, key, q)
               then BrakeQueue(WindowOf(WindowsOf(s, dir), key, q), e.now, c.brakeLimit, c.brakeWindow)
               else if Erases(s, e, key) then []
               else WindowOf(WindowsOf(s, dir), key, q)
  {
    hide Handle, HandlePublish, CleanupExpired, WindowOf, Expired, PubKey, PointOf;
    if IsPub(e) {
      PublishWindow(c, s, e, dir, key, q);
      StepIsPublish(c, s, e);
    } else if e.Cleanup? {
      CleanupWindow(s, e.now, dir, key, q);
    } else {
      QuietStep(c, s, e);
    }
  }

  /** The times at which a window was consulted since it was last erased. */
  ghost function Consultations(c: Config, es: seq<Event>, dir: BrakeDir, key: string, q: int): seq<int>
    requires c.Valid()
  {
    if es == [] then [] else
      var before, e := es[..|es| - 1], es[|es| - 1];
      if Consults(c, Run(c, before), e, dir, key, q) then Consultations(c, before, dir, key, q) + [e.now]
      else if Erases(Run(c, before), e, key) then []
      else Consultations(c, before, dir, key, q)
  }

  /** The admissions in an interval since the window was last erased. */
  ghost function AdmittedIn(c: Config, es: seq<Event>, dir: BrakeDir, key: string, q: int, lo: int, hi: int): nat
    requires c.Valid()
  {
    if es == [] then 0 else
      var before, e := es[..|es| - 1], es[|es| - 1];
      if Erases(Run(c, before), e, key) then 0
      else
        AdmittedIn(c, before, dir, key, q, lo, hi)
        + One(Admits(c, Run(c, before), e, dir, key, q) && lo <= e.now <= hi)
  }

  lemma {:induction false} ConsultationsSorted(c: Config, es: seq<Event>, dir: BrakeDir, key: string, q: int)
    requires c.Valid() && Clocked(es)
    ensures Sorted(Consultations(c, es, dir, key, q))
    ensures forall t :: t in Consultations(c, es, dir, key, q) ==> es != [] && t <= es[|es| - 1].now
  {
    hide Consults, Erases, Run;
    if es != [] {
      var before := es[..|es| - 1];
      ConsultationsSorted(c, before, dir, key, q);
      assert before != [] ==> before[|before| - 1].now <= es[|es| - 1].now;
      SortedAppend(Consultations(c, before, dir, key, q), es[|es| - 1].now);
    }
  }

  /** A broker's window is the one its consultations lead to, and its admissions are theirs. */
  lemma {:induction false} WindowIsCalls(c: Config, es: seq<Event>, dir: BrakeDir, key: string, q: int, lo: int,
                                         hi: int)
    requires c.Valid()
    ensures var (queue, admitted) := Calls(Consultations(c, es, dir, key, q), c.brakeLimit, c.brakeWindow);
            && WindowOf(WindowsOf(Run(c, es), dir), key, q) == queue
            && AdmittedIn(c, es, dir, key, q, lo, hi) == CountIn(admitted, lo, hi)
  {
    hide Consults, Erases, WindowOf, WindowsOf, Step, BrakeQueue, BrakeAdmits;
    if es == [] {
      InitialWindow(c, dir, key, q);
    } else {
      var before, e := es[..|es| - 1], es[|es| - 1];
      var s := Run(c, before);
      WindowIsCalls(c, before, dir, key, q, lo, hi);
      WindowStep(c, s, e, dir, key, q);
      var ts := Consultations(c, before, dir, key, q);
      ConsultsNotErases(c, s, e, dir, key, q);
      CallsAppend(ts, e.now, c.brakeLimit, c.brakeWindow, lo, hi);
      hide Calls, CountIn;
    }
  }

  lemma CallsAppend(ts: seq<int>, now: int, limit: int, window: int, lo: int, hi: int)
    ensures var (queue, admitted) := Calls(ts, limit, window);
            var (queue', admitted') := Calls(ts + [now], limit, window);
            && queue' == BrakeQueue(queue, now, limit, window)
            && CountIn(admitted', lo, hi)
               == CountIn(admitted, lo, hi) + One(BrakeAdmits(queue, now, limit, window) && lo <= now <= hi)
            && Calls([], limit, window) == ([], []) && CountIn([], lo, hi) == 0
  {
    hide BrakeQueue, BrakeAdmits;
    var admitted := Calls(ts, limit, window).1;
    assert (ts + [now])[..|ts|] == ts;
    assert (admitted + [now])[..|admitted|] == admitted;
    assert admitted + [] == admitted;
  }

  lemma InitialWindow(c: Config, dir: BrakeDir, key: string, q: int)
    ensures WindowOf(WindowsOf(Initial(c), dir), key, q) == []
  {
  }

  lemma ConsultsNotErases(c: Config, s: State, e: Event, dir: BrakeDir, key: string, q: int)
    ensures !(Consults(c, s, e, dir, key, q) && Erases(s, e, key))
  {
  }

  /** Over every run with a clock that never goes back: between erasures of a service's
      windows at most brake_limit events per service, quadrant and direction are admitted in
      any closed interval of brake_window seconds. */
  lemma BrakeBoundsRate(c: Config, es: seq<Event>, dir: BrakeDir, key: string, q: int, lo: int)
    requires c.Valid() && Clocked(es)
    ensures AdmittedIn(c, es, dir, key, q, lo, lo + c.brakeWindow) <= if c.brakeLimit > 0 then c.brakeLimit else 0
  {
    hide Consultations, AdmittedIn, Run, WindowOf, WindowsOf, Calls;
    ConsultationsSorted(c, es, dir, key, q);
    WindowIsCalls(c, es, dir, key, q, lo, lo + c.brakeWindow);
    RateBound(Consultations(c, es, dir, key, q), c.brakeLimit, c.brakeWindow, lo);
  }

  /** Entries not later than now lie in the closed window before it exactly when they are recent. */
  lemma {:induction false} CountIsRecent(a: seq<int>, now: int, window: int)
    requires UpTo(a, now)
    ensures CountIn(a, now - window, now) == |Recent(a, now, window)|
  {
    if a != [] {
      var rest := a[..|a| - 1];
      assert forall x :: x in rest ==> x in a;
      assert a[|a| - 1] in a;
      CountIsRecent(rest, now, window);
    }
  }

  /** Over every run with a clock that never goes back: a window admits exactly when fewer than
      the limit of the admissions since it was last erased lie in the brake_window seconds up to now. */
  lemma AdmitsByRecentCount(c: Config, es: seq<Event>, dir: BrakeDir, key: string, q: int, now: int)
    requires c.Valid() && Clocked(es) && (es != [] ==> es[|es| - 1].now <= now)
    ensures BrakeAdmits(WindowOf(WindowsOf(Run(c, es), dir), key, q), now, c.brakeLimit, c.brakeWindow)
            <==> AdmittedIn(c, es, dir, key, q, now - c.brakeWindow, now) < c.brakeLimit
  {
    hide Consultations, AdmittedIn, Run, WindowOf, WindowsOf, Calls, BrakeAdmits, Clocked;
    ConsultationsSorted(c, es, dir, key, q);
    WindowIsCalls(c, es, dir, key, q, now - c.brakeWindow, now);
    CallsByRecentCount(Consultations(c, es, dir, key, q), now, c.brakeLimit, c.brakeWindow);
  }

  lemma CallsByRecentCount(ts: seq<int>, now: int, limit: int, window: int)
    requires Sorted(ts) && UpTo(ts, now)
    ensures var (queue, admitted) := Calls(ts, limit, window);
            BrakeAdmits(queue, now, limit, window) <==> CountIn(admitted, now - window, now) < limit
  {
    CallsInvariant(ts, limit, window);
    SortedAppend(ts, now);
    hide Calls, Recent, BrakeAdmits, Agree, Sorted, CountIn;
    var admitted := Calls(ts, limit, window).1;
    if ts != [] {
      assert ts[|ts| - 1] in ts;
      assert UpTo(admitted, ts[|ts| - 1]);
    }
    assert UpTo(admitted, now);
    hide UpTo;
    AdmitsByFullCount(ts, now, limit, window);
    CountIsRecent(admitted, now, window);
  }

  /** What an admission is, seen from outside: a publication the upward brake is asked about
      goes up exactly when it is admitted; one the local brake refuses reaches nobody. */
  lemma AdmissionIsVisible(c: Config, s: State, e: Event, key: string, q: int)
    requires c.Valid() && WellFormed(s) && IsPub(e)
    ensures Consults(c, s, e, UpwardBrake, key, q) ==>
              (Step(c, s, e).1.up == [Forwarded(e.m, key, FROM_CHILD)] <==> Admits(c, s, e, UpwardBrake, key, q))
              && (Step(c, s, e).1.up == [] <==> !Admits(c, s, e, UpwardBrake, key, q))
    ensures Consults(c, s, e, LocalBrake, key, q) && !Admits(c, s, e, LocalBrake, key, q) ==> Step(c, s, e).1.out == []
  {
    hide DownTargets, DownChildren, DownSends, CachePut, PublishStats, BrakeWindows, DeliverClients, DeliverSends,
         PassesGate, CallsMatch, Forwarded, PubKey, BrakeAdmits;
  }
}
