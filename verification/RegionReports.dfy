/** What a parent knows of a child broker's region: over reliable ordered links, always the
    region as of the child's last report. */
module RegionReports {
  import opened Outcomes
  import opened Geo
  import opened BrokerModel
  import opened BrokerRuns
  import opened Routing
  import opened Regions
  import opened BrokerTree
  import opened Overlay
  import opened OverlayPublish
  import opened OverlayRuns
  import opened OverlayRouting

  // ---------- reports ----------

  /** The region a message reports about its sender. */
  function Report(m: Msg): Option<Region> {
    if m.kind == HELLO && m.coords.Some? then Some(PointRegion(m.coords.value))
    else if m.kind == REGION_UPDATE then m.region else None
  }

  /** What the parent's record will be once it handled the messages. */
  function LastReport(ms: seq<Msg>, record: Option<Region>): Option<Region> {
    if ms == [] then record
    else LastReport(ms[1..], if Report(ms[0]).Some? then Report(ms[0]) else record)
  }

  lemma {:induction false} LastReportAppend(a: seq<Msg>, b: seq<Msg>, record: Option<Region>)
    ensures LastReport(a + b, record) == LastReport(b, LastReport(a, record))
  {
    if a == [] {
      assert a + b == b;
    } else {
      assert (a + b)[1..] == a[1..] + b;
      LastReportAppend(a[1..], b, if Report(a[0]).Some? then Report(a[0]) else record);
    }
  }

  lemma {:induction false} NoReport(ms: seq<Msg>, record: Option<Region>)
    requires forall i :: 0 <= i < |ms| ==> Report(ms[i]).None?
    ensures LastReport(ms, record) == record
  {
    if ms != [] { NoReport(ms[1..], record); }
  }

  // ---------- one broker ----------

  /** A child's HELLO, which recomputes the region. */
  predicate IsHello(e: Event) {
    e.Receive? && e.m.kind == HELLO && e.m.name.Some? && e.m.coords.Some?
  }

  /** The step tells the parent: the region changes, and not by a HELLO. */
  ghost predicate Reports(c: Config, s: State, e: Event)
    requires c.Valid() && WellFormed(s)
  {
    !IsHello(e) && Step(c, s, e).0.region != s.region
  }

  lemma SubscriptionReport(c: Config, s: State, e: Event, record: Option<Region>)
    requires c.Valid() && WellFormed(s) && c.hasParent && IsSubscription(e)
    ensures var (t, fx) := Step(c, s, e);
            LastReport(fx.up, record) == if t.region != s.region then Some(t.region) else record
  {
    hide SubscribeFromClient, ExtendRegion, PointOf, SubKey, Registered, LastReport, SubCounted;
    FromClientFrame(c, s, e.m, e.from, e.now);
    var region := ExtendRegion(s.region, PointOf(e.m));
    var notice, more := RegionNotice(c, s.region, region), Announcement(c, s.otParent, SubKey(c, e.m));
    LastReportAppend(notice, more, record);
    NoReport(more, LastReport(notice, record));
    NoticeReport(c, s.region, region, record);
  }

  lemma NoticeReport(c: Config, before: Region, after: Region, record: Option<Region>)
    requires c.hasParent
    ensures LastReport(RegionNotice(c, before, after), record) == if after != before then Some(after) else record
  {
    if after != before { assert RegionNotice(c, before, after)[1..] == []; }
  }

  lemma UpdateReport(c: Config, s: State, e: Event, record: Option<Region>)
    requires c.Valid() && WellFormed(s) && c.hasParent && e.Receive? && e.m.kind == REGION_UPDATE
    ensures var (t, fx) := Step(c, s, e);
            LastReport(fx.up, record) == if t.region != s.region then Some(t.region) else record
  {
    hide Hull, LastReport;
    NoReport([], record);
    NoticeReport(c, s.region, Step(c, s, e).0.region, record);
    hide RegionNotice;
  }

  lemma ForwardedReport(c: Config, s: State, e: Event, record: Option<Region>)
    requires c.Valid() && WellFormed(s) && e.Receive? && e.m.kind == SUBSCRIBE && !IsSubscription(e)
    ensures LastReport(Step(c, s, e).1.up, record) == record
  {
    hide SubscribeFromChild, SubCounted, LastReport;
    NoReport([], record);
    if e.m.name.Some? {
      FromChildFrame(c, s, e.m.name.value, e.who);
      NoReport(Announcement(c, s.otParent, e.m.name.value), record);
    }
  }

  lemma PublishReport(c: Config, s: State, e: Event, record: Option<Region>)
    requires c.Valid() && WellFormed(s) && e.Receive? && e.m.kind == PUBLISH
    ensures LastReport(Step(c, s, e).1.up, record) == record
  {
    PublishUpKinds(c, s, e.m, e.from, e.who, e.now);
    hide HandlePublish, LastReport;
    NoReport(HandlePublish(c, s, e.m, e.from, e.who, e.now).1.up, record);
  }

  lemma OtherReport(c: Config, s: State, e: Event, record: Option<Region>)
    requires c.Valid() && WellFormed(s)
    requires e.Receive? ==> e.m.kind != SUBSCRIBE && e.m.kind != PUBLISH && e.m.kind != REGION_UPDATE
    ensures LastReport(Step(c, s, e).1.up, record) == record
  {
    hide Hull, HandleSubscribe, HandlePublish, LastReport, CleanupExpired;
    NoReport([], record);
  }

  /** A step reports the new region upwards exactly when it reports at all; a HELLO never does. */
  lemma StepReport(c: Config, s: State, e: Event, record: Option<Region>)
    requires c.Valid() && WellFormed(s) && c.hasParent
    ensures LastReport(Step(c, s, e).1.up, record) == if Reports(c, s, e) then Some(Step(c, s, e).0.region) else record
  {
    hide Step, LastReport, Recomputes;
    if IsSubscription(e) {
      SubscriptionReport(c, s, e, record);
    } else if e.Receive? && e.m.kind == REGION_UPDATE {
      UpdateReport(c, s, e, record);
    } else {
      if !IsHello(e) { NotRecomputed(c, s, e); QuietRegion(c, s, e); }
      if e.Receive? && e.m.kind == SUBSCRIBE {
        ForwardedReport(c, s, e, record);
      } else if e.Receive? && e.m.kind == PUBLISH {
        PublishReport(c, s, e, record);
      } else {
        OtherReport(c, s, e, record);
      }
    }
  }

  lemma NotRecomputed(c: Config, s: State, e: Event)
    requires !IsHello(e) && !(e.Receive? && e.m.kind == REGION_UPDATE)
    ensures !Recomputes(s, e)
  {
  }

  /** The number of events up to and including the last report. */
  ghost function ReportedUpTo(c: Config, es: seq<Event>): (k: nat)
    requires c.Valid()
    ensures k <= |es|
  {
    if es == [] then 0
    else if Reports(c, Run(c, es[..|es| - 1]), es[|es| - 1]) then |es|
    else ReportedUpTo(c, es[..|es| - 1])
  }

  /** The region as of the last report; at first, as of the broker's own HELLO. */
  ghost function Reported(c: Config, es: seq<Event>): Region
    requires c.Valid()
  {
    Run(c, es[..ReportedUpTo(c, es)]).region
  }

  lemma ReportedStep(c: Config, es: seq<Event>, e: Event)
    requires c.Valid()
    ensures Run(c, es + [e]) == Step(c, Run(c, es), e).0
    ensures Reported(c, es + [e]) == if Reports(c, Run(c, es), e) then Run(c, es + [e]).region else Reported(c, es)
    ensures ReportedUpTo(c, es + [e]) == if Reports(c, Run(c, es), e) then |es| + 1 else ReportedUpTo(c, es)
  {
    RunOneMore(c, es, e);
    var all := es + [e];
    assert all[..|es|] == es && all[..|all|] == all;
    assert all[..ReportedUpTo(c, es)] == es[..ReportedUpTo(c, es)];
    hide Step;
  }

  lemma HelloSendsNothing(c: Config, s: State, e: Event)
    requires c.Valid() && WellFormed(s) && IsHello(e)
    ensures Step(c, s, e).1.up == [] && Step(c, s, e).1.down == map[]
  {
    hide Hull;
  }

  /** In every run, a child's HELLO recomputes the region and sends nothing upwards: the last
      report stays, and is right afterwards exactly when it is the hull with the new child. */
  lemma HelloIsNotReported(c: Config, es: seq<Event>, e: Event)
    requires c.Valid() && IsHello(e)
    ensures Step(c, Run(c, es), e).1.up == [] && Reported(c, es + [e]) == Reported(c, es)
    ensures Recomputes(Run(c, es), e)
    ensures Reported(c, es + [e]) == Run(c, es + [e]).region
            <==> Reported(c, es) == Hull(c, ChildrenThen(c, Run(c, es), e))
  {
    HelloSendsNothing(c, Run(c, es), e);
    ReportedStep(c, es, e);
    RecomputedRegion(c, Run(c, es), e);
    hide Step, Hull, Run, Reported;
  }

  /** A region that differs from the last report was changed by a child's HELLO since. */
  lemma {:induction false} OnlyHelloIsUnreported(c: Config, es: seq<Event>)
    requires c.Valid()
    ensures Reported(c, es) != Run(c, es).region ==> exists j :: ReportedUpTo(c, es) <= j < |es| && IsHello(es[j])
  {
    hide Step, IsHello;
    if es == [] {
      assert es[..0] == es;
    } else {
      var before, e := es[..|es| - 1], es[|es| - 1];
      assert before + [e] == es;
      ReportedStep(c, before, e);
      OnlyHelloIsUnreported(c, before);
      if !IsHello(e) && Reported(c, before) != Run(c, before).region {
        var j :| ReportedUpTo(c, before) <= j < |before| && IsHello(before[j]);
        assert es[j] == before[j];
      }
    }
  }

  /** The region as of the last child's HELLO since the last report, if there was one. */
  ghost function HelloSince(c: Config, es: seq<Event>): Option<Region>
    requires c.Valid()
  {
    if es == [] then None else
      var before, e := es[..|es| - 1], es[|es| - 1];
      var s := Run(c, before);
      if IsHello(e) then Some(Hull(c, ChildrenThen(c, s, e)))
      else if Reports(c, s, e) then None
      else HelloSince(c, before)
  }

  /** In every run the region is the hull as of the last HELLO since the last report, or the one
      last reported. */
  lemma {:induction false} RegionByHelloOrReport(c: Config, es: seq<Event>)
    requires c.Valid()
    ensures Run(c, es).region == HelloSince(c, es).GetOr(Reported(c, es))
  {
    hide Step, Hull, ChildrenThen;
    if es == [] {
      assert es[..0] == es;
    } else {
      var before, e := es[..|es| - 1], es[|es| - 1];
      assert before + [e] == es;
      RegionByHelloOrReport(c, before);
      ReportedStep(c, before, e);
      if IsHello(e) {
        HelloRecomputes(Run(c, before), e);
        RecomputedRegion(c, Run(c, before), e);
      }
      hide Run, Reported, ReportedUpTo;
    }
  }

  lemma HelloRecomputes(s: State, e: Event)
    requires IsHello(e)
    ensures Recomputes(s, e)
  {
  }

  // ---------- the parent's record ----------

  function Recorded(s: State, b: string): Option<Region> {
    if b in s.children then Some(s.children[b].region) else None
  }

  function Messages(q: seq<Packet>): seq<Msg> {
    seq(|q|, i requires 0 <= i < |q| => q[i].msg)
  }

  /** The record, brought up to date by what is on the link, is the region last reported. */
  ghost predicate InStep(b: string, q: seq<Packet>, reported: Region, above: State) {
    LastReport(Messages(q), Recorded(above, b)) == Some(reported)
  }

  /** Only a message in a child's name changes the record of it. */
  lemma RecordKept(c: Config, s: State, e: Event, b: string)
    requires c.Valid() && WellFormed(s)
    requires e.Receive? && (e.m.kind == HELLO || e.m.kind == REGION_UPDATE) ==> e.m.name != Some(b)
    ensures Recorded(Step(c, s, e).0, b) == Recorded(s, b)
  {
    hide Handle, HandlePublish, Expired;
    if e.Receive? {
      ChildrenAfter(c, s, e.m, e.from, e.who, e.now);
      if e.m.kind == PUBLISH {
        PublishKeepsChildren(c, s, e.m, e.from, e.who, e.now);
        assert Step(c, s, e) == HandlePublish(c, s, e.m, e.from, e.who, e.now) by { PublishIsHandled(c, s, e); }
      }
    }
  }

  lemma PublishIsHandled(c: Config, s: State, e: Event)
    requires c.Valid() && WellFormed(s) && e.Receive? && e.m.kind == PUBLISH
    ensures Step(c, s, e) == HandlePublish(c, s, e.m, e.from, e.who, e.now)
  {
    hide HandlePublish;
  }

  /** A message on b's link, handled by the parent, brings the record to what it reports. */
  lemma RecordTaken(c: Config, cb: Config, s: State, m: Msg, from: Addr, who: string, now: int)
    requires c.Valid() && WellFormed(s) && FromBelow(cb, m) && (m.kind != HELLO ==> cb.id in s.children)
    ensures Recorded(Step(c, s, Receive(m, from, who, now)).0, cb.id)
            == if Report(m).Some? then Report(m) else Recorded(s, cb.id)
  {
    if m.kind == HELLO || m.kind == REGION_UPDATE {
      hide Hull;
    } else {
      hide Step;
      RecordKept(c, s, Receive(m, from, who, now), cb.id);
    }
  }

  lemma InStepArrival(t: Tree, b: string, p: string, q: seq<Packet>, me: State, reported: Region, above: State,
                      from: Addr, who: string, now: int)
    requires t.Valid() && t.IsChild(b, p) && t.nodes[p].config.Valid() && WellFormed(above)
    requires q != [] && FromBelow(t.nodes[b].config, q[0].msg)
    requires LinkRouted(b, t.nodes[b].config, q, me, above) && InStep(b, q, reported, above)
    ensures InStep(b, q[1..], reported, Step(t.nodes[p].config, above, Receive(q[0].msg, from, who, now)).0)
  {
    assert t.ValidNode(b);
    hide Step, FromBelow, Tree.Valid, Tree.ValidNode;
    RecordTaken(t.nodes[p].config, t.nodes[b].config, above, q[0].msg, from, who, now);
    assert Messages(q)[1..] == Messages(q[1..]);
  }

  lemma InStepBelow(b: string, c: Config, q: seq<Packet>, es: seq<Event>, above: State, e: Event, q': seq<Packet>)
    requires c.Valid() && c.hasParent && InStep(b, q, Reported(c, es), above)
    requires Adds(q, Step(c, Run(c, es), e).1.up, q')
    ensures InStep(b, q', Reported(c, es + [e]), above)
  {
    hide Step, LastReport, Reports, Run, Reported, ReportedUpTo;
    var up := Step(c, Run(c, es), e).1.up;
    StepReport(c, Run(c, es), e, Some(Reported(c, es)));
    ReportedStep(c, es, e);
    var probe :| q' == q + Packets(up, probe);
    assert Messages(q') == Messages(q) + up;
    LastReportAppend(Messages(q), up, Recorded(above, b));
  }

  // ---------- over the net ----------

  ghost predicate InStepAt(t: Tree, es: seq<NetEvent>, b: string)
    requires t.Valid() && t.HasParent(b)
  {
    assert t.ValidNode(b);
    var net := NetRun(t, es);
    InStep(b, net.flight(Up(b)), Reported(t.nodes[b].config, LocalRun(t, es, b)), net.st[ParentOf(t, b)])
  }

  /** What the parent handles when it is not the first message of b's link does not speak for b. */
  lemma OthersSpeakForThemselves(t: Tree, net: Net, e: NetEvent, b: string)
    requires t.Valid() && Sound(t, net) && Enabled(t, net, e) && t.HasParent(b) && !(e.Arrive? && e.hop == Up(b))
    ensures var l := LocalEvent(t, net, e);
            l.Some? && l.value.1.Receive? && (l.value.1.m.kind == HELLO || l.value.1.m.kind == REGION_UPDATE)
            ==> l.value.1.m.name != Some(b)
  {
    hide Flight, Taken, Fits, FromBelow, FromAbove, Tree.Valid, Tree.ValidNode;
    if e.Arrive? {
      FlightTaken(t, net.flight, net.wave.open, e.hop, e.i);
      OwnReport(t, e.hop, net.flight(e.hop)[e.i].msg);
    }
  }

  lemma OwnReport(t: Tree, h: Hop, m: Msg)
    requires t.Valid() && IsLink(t, h) && Fits(t, h, m)
    ensures m.kind == HELLO || m.kind == REGION_UPDATE ==> h.Up? && m.name == Some(h.child)
  {
    assert t.ValidNode(h.child);
  }

  /** The link after the first message was taken by the parent. */
  lemma InStepTaken(t: Tree, net: Net, e: NetEvent, b: string, reported: Region)
    requires t.Valid() && Sound(t, net) && Enabled(t, net, e) && Ordered(e) && t.HasParent(b) && RoutedAt(t, net, b)
    requires e.Arrive? && e.hop == Up(b) && ParentOf(t, b) in net.st
    requires InStep(b, net.flight(Up(b)), reported, net.st[ParentOf(t, b)])
    ensures States(t, NetStep(t, net, e)) && ParentOf(t, b) in NetStep(t, net, e).st && StepOf(t, net, e, b) == None
    ensures InStep(b, NetStep(t, net, e).flight(Up(b)), reported, NetStep(t, net, e).st[ParentOf(t, b)])
  {
    var p := ParentOf(t, b);
    assert t.ValidNode(b) && p in t.nodes && p != b;
    hide NetStep, Step, LinkRouted, InStep, Flight, Fits, Taken, Spreading, Adds, Tree.Valid, Tree.ValidNode,
         WellFormed, IsLookup, KnownChildren;
    FlightTaken(t, net.flight, net.wave.open, e.hop, e.i);
    BrokerMoves(t, net, e, p);
    UpLink(t, net, e, b);
    InStepArrival(t, b, p, net.flight(Up(b)), net.st[b], reported, net.st[p], t.nodes[b].addr, e.who, e.now);
  }

  lemma InStepEnds(b: string, cb: Config, c: Config, q: seq<Packet>, es: seq<Event>, above: State, q': seq<Packet>,
                   above': State, below: Option<Event>, over: Option<Event>)
    requires cb.Valid() && cb.hasParent && InStep(b, q, Reported(cb, es), above)
    requires below.None? || over.None?
    requires Moves(c, above, over, above')
    requires if below.Some? then Adds(q, Step(cb, Run(cb, es), below.value).1.up, q') else q' == q
    requires over.Some? && over.value.Receive? && (over.value.m.kind == HELLO || over.value.m.kind == REGION_UPDATE)
             ==> over.value.m.name != Some(b)
    ensures InStep(b, q', Reported(cb, if below.Some? then es + [below.value] else es), above')
  {
    hide Step, Adds, WellFormed, Run, Reported;
    if below.Some? {
      InStepBelow(b, cb, q, es, above, below.value, q');
    } else if over.Some? {
      RecordKept(c, above, over.value, b);
    }
  }

  lemma ParentApart(t: Tree, b: string)
    requires t.Valid() && t.HasParent(b)
    ensures ParentOf(t, b) in t.nodes && ParentOf(t, b) != b && b in t.nodes && t.nodes[b].config.hasParent
  {
    assert t.ValidNode(b);
  }

  /** What one step of the net means for a link whose first message stays where it is. */
  lemma LinkParts(t: Tree, net: Net, e: NetEvent, b: string)
    requires t.Valid() && Sound(t, net) && Enabled(t, net, e) && Ordered(e) && t.HasParent(b)
    requires !(e.Arrive? && e.hop == Up(b))
    ensures t.nodes[b].config.Valid()
    ensures var below, over := StepOf(t, net, e, b), StepOf(t, net, e, ParentOf(t, b));
            var q' := NetStep(t, net, e).flight(Up(b));
            && (below.None? || over.None?)
            && (if below.Some? then Adds(net.flight(Up(b)), Step(t.nodes[b].config, net.st[b], below.value).1.up, q')
                else q' == net.flight(Up(b)))
            && (over.Some? && over.value.Receive? && (over.value.m.kind == HELLO || over.value.m.kind == REGION_UPDATE)
                ==> over.value.m.name != Some(b))
  {
    hide NetStep, Enabled, Step, LocalEvent, Adds, Tree.Valid, Tree.ValidNode, WellFormed, Flight, Known, Spreading;
    ParentApart(t, b);
    UpLink(t, net, e, b);
    OthersSpeakForThemselves(t, net, e, b);
  }

  lemma InStepElse(t: Tree, net: Net, e: NetEvent, b: string, es: seq<Event>)
    requires t.Valid() && Sound(t, net) && Enabled(t, net, e) && Ordered(e) && t.HasParent(b)
    requires ParentOf(t, b) in net.st
    requires t.nodes[b].config.Valid() && net.st[b] == Run(t.nodes[b].config, es)
    requires InStep(b, net.flight(Up(b)), Reported(t.nodes[b].config, es), net.st[ParentOf(t, b)])
    requires !(e.Arrive? && e.hop == Up(b))
    ensures States(t, NetStep(t, net, e)) && ParentOf(t, b) in NetStep(t, net, e).st
    ensures var below := StepOf(t, net, e, b);
            InStep(b, NetStep(t, net, e).flight(Up(b)),
                   Reported(t.nodes[b].config, if below.Some? then es + [below.value] else es),
                   NetStep(t, net, e).st[ParentOf(t, b)])
  {
    hide Ordered, NetStep, Enabled, Step, StepOf, InStep, LocalEvent, Adds, Tree.Valid, Tree.ValidNode, Moves,
         WellFormed, Run, Reported;
    var p := ParentOf(t, b);
    ParentApart(t, b);
    LinkParts(t, net, e, b);
    BrokerMoves(t, net, e, p);
    var after := NetStep(t, net, e);
    InStepEnds(b, t.nodes[b].config, t.nodes[p].config, net.flight(Up(b)), es, net.st[p],
               after.flight(Up(b)), after.st[p], StepOf(t, net, e, b), StepOf(t, net, e, p));
  }

  lemma StartInStep(t: Tree, b: string)
    requires t.Valid() && t.HasParent(b)
    ensures InStepAt(t, [], b)
  {
    assert t.ValidNode(b);
    var c, q := t.nodes[b].config, StartNet(t).flight(Up(b));
    assert Messages(q) == [HelloMsg(c)];
    assert Messages(q)[1..] == [];
    var none: seq<Event> := [];
    assert none[..0] == [];
  }

  lemma LocalRunStep(t: Tree, es: seq<NetEvent>, b: string)
    requires t.Valid() && es != []
    ensures var before, e := NetRun(t, es[..|es| - 1]), es[|es| - 1];
            var rest := LocalRun(t, es[..|es| - 1], b);
            LocalRun(t, es, b)
            == if Enabled(t, before, e) && StepOf(t, before, e, b).Some? then rest + [StepOf(t, before, e, b).value]
               else rest
  {
    hide NetRun, LocalEvent, Enabled;
  }

  /** Over reliable ordered links, in every run and for every broker with a parent: the parent's
      record, brought up to date by what is on the link, is the region as of the broker's last
      report. */
  lemma {:induction false} AlwaysInStep(t: Tree, es: seq<NetEvent>, b: string)
    requires t.Valid() && AllOrdered(es) && t.HasParent(b)
    ensures InStepAt(t, es, b)
  {
    hide InStep, RoutedAt, NetStep, Enabled, Sound, Reported, Run, LocalRun;
    if es == [] {
      StartInStep(t, b);
    } else {
      var before, net, e := es[..|es| - 1], NetRun(t, es[..|es| - 1]), es[|es| - 1];
      AlwaysInStep(t, before, b);
      AlwaysSound(t, before);
      AlwaysRouted(t, before);
      NetRunsAreLocal(t, before, b);
      LocalRunStep(t, es, b);
      if Enabled(t, net, e) {
        if e.Arrive? && e.hop == Up(b) {
          InStepTaken(t, net, e, b, Reported(t.nodes[b].config, LocalRun(t, before, b)));
        } else {
          InStepElse(t, net, e, b, LocalRun(t, before, b));
        }
      }
    }
  }

  /** Nothing on the link reports a region. */
  predicate ReportsHandled(q: seq<Packet>) {
    forall i :: 0 <= i < |q| ==> q[i].msg.kind != HELLO && q[i].msg.kind != REGION_UPDATE
  }

  /** Over reliable ordered links: whenever a broker has no HELLO or REGION_UPDATE in flight, its
      parent's record is its region as of its last report. It is right exactly when no child said
      HELLO since, or the hull after the last such HELLO is the region then reported. */
  lemma RecordIsLastReport(t: Tree, es: seq<NetEvent>, b: string)
    requires t.Valid() && AllOrdered(es) && t.HasParent(b) && ReportsHandled(NetRun(t, es).flight(Up(b)))
    ensures t.nodes[b].config.Valid() && ParentOf(t, b) in NetRun(t, es).st
    ensures var c, local := t.nodes[b].config, LocalRun(t, es, b);
            var record := Recorded(NetRun(t, es).st[ParentOf(t, b)], b);
            && record == Some(Reported(c, local))
            && (record == Some(NetRun(t, es).st[b].region)
                <==> HelloSince(c, local).None? || HelloSince(c, local).value == Reported(c, local))
            && (record != Some(NetRun(t, es).st[b].region)
                ==> exists j :: ReportedUpTo(c, local) <= j < |local| && IsHello(local[j]))
  {
    var net := NetRun(t, es);
    assert t.ValidNode(b);
    AlwaysInStep(t, es, b);
    NetRunsAreLocal(t, es, b);
    hide NetRun, Run, Reported, ReportedUpTo, HelloSince, LocalRun, IsHello, Tree.Valid, Tree.ValidNode;
    NoReport(Messages(net.flight(Up(b))), Recorded(net.st[ParentOf(t, b)], b));
    OnlyHelloIsUnreported(t.nodes[b].config, LocalRun(t, es, b));
    RegionByHelloOrReport(t.nodes[b].config, LocalRun(t, es, b));
  }

  // ---------- leaves ----------

  predicate IsLeaf(t: Tree, b: string) {
    t.HasParent(b) && forall u :: u in t.nodes ==> !t.IsChild(u, b)
  }

  lemma LeafHasNoChildren(t: Tree, net: Net, b: string)
    requires t.Valid() && Sound(t, net) && IsLeaf(t, b)
    ensures net.st[b].children == map[]
  {
    assert KnownChildren(t, b, net.st[b].children);
    assert forall u :: u !in net.st[b].children;
  }

  lemma ChildlessReports(c: Config, es: seq<Event>)
    requires c.Valid() && Run(c, es).children == map[]
    ensures Reported(c, es) == Run(c, es).region
  {
    OnlyHelloIsUnreported(c, es);
    ChildlessNeverRecomputed(c, es);
    forall j | 0 <= j < |es| ensures !IsHello(es[j]) { assert !Recomputes(Run(c, es[..j]), es[j]); }
  }

  /** Over reliable ordered links: whenever a leaf broker has no HELLO or REGION_UPDATE in
      flight, its parent's record of its region is its region, and that is the least
      rectangle holding its own point and the coordinates of every subscriber it ever had. */
  lemma LeafRegionIsRecorded(t: Tree, es: seq<NetEvent>, b: string)
    requires t.Valid() && AllOrdered(es) && IsLeaf(t, b)
    requires ReportsHandled(NetRun(t, es).flight(Up(b)))
    ensures Recorded(NetRun(t, es).st[ParentOf(t, b)], b) == Some(NetRun(t, es).st[b].region)
    ensures IsLeast(NetRun(t, es).st[b].region, t.nodes[b].config.at, map[], SubscriberPoints(LocalRun(t, es, b)))
  {
    RecordIsLastReport(t, es, b);
    NetRunsAreLocal(t, es, b);
    assert NetRun(t, es).st[b].children == map[] by {
      AlwaysSound(t, es);
      LeafHasNoChildren(t, NetRun(t, es), b);
    }
    hide NetRun, Run, Reported, IsLeast, Tree.Valid;
    ChildlessReports(t.nodes[b].config, LocalRun(t, es, b));
    ChildlessRegionIsLeast(t.nodes[b].config, LocalRun(t, es, b));
  }

  // ---------- a stale record ----------

  lemma SilentAfter(t: Tree, st: map<string, State>, flight: Hop -> seq<Packet>, wave: Wave, b: string,
                    r: (State, Effects), probe: bool)
    requires r.1.up == [] && r.1.down == map[]
    ensures forall h :: After(t, st, flight, wave, b, r, probe).flight(h) == flight(h)
  {
    forall h ensures flight(h) + Emitted(t, b, r.1, probe, h) == flight(h) {
      assert Emitted(t, b, r.1, probe, h) == [];
    }
  }

  lemma TakenOnly(flight: Hop -> seq<Packet>, h: Hop, p: Packet)
    requires flight(h) == [p]
    ensures forall k :: Taken(flight, h, 0)(k) == if k == h then [] else flight(k)
  {
    assert [p][..0] + [p][1..] == [];
  }

  /** A broker's HELLO, taken by its parent, leaves the link empty and puts nothing on any link. */
  lemma HelloTaken(t: Tree, net: Net, b: string, who: string, now: int)
    requires t.Valid() && States(t, net) && t.HasParent(b) && Enabled(t, net, Arrive(Up(b), 0, who, now))
    requires net.flight(Up(b)) == [Packet(HelloMsg(t.nodes[b].config), false)]
    ensures var p, after := ParentOf(t, b), NetStep(t, net, Arrive(Up(b), 0, who, now));
            && p in net.st && t.nodes[p].config.Valid()
            && (forall h :: after.flight(h) == if h == Up(b) then [] else net.flight(h))
            && after.st == net.st[p := after.st[p]]
            && Recorded(after.st[p], b) == Some(PointRegion(t.nodes[b].config.at))
            && after.st[p].region == Hull(t.nodes[p].config, after.st[p].children)
  {
    var p, m, from := ParentOf(t, b), HelloMsg(t.nodes[b].config), t.nodes[b].addr;
    assert t.ValidNode(b) && t.ValidNode(p);
    var e := Receive(m, from, who, now);
    RecomputedRegion(t.nodes[p].config, net.st[p], e);
    HelloSendsNothing(t.nodes[p].config, net.st[p], e);
    RecordTaken(t.nodes[p].config, t.nodes[b].config, net.st[p], m, from, who, now);
    var r := Handled(t, net, p, m, from, who, now);
    SilentAfter(t, net.st, Taken(net.flight, Up(b), 0), net.wave, p, r, false);
    TakenOnly(net.flight, Up(b), Packet(m, false));
    hide Handle, Hull, Tree.Valid, Tree.ValidNode, IsLookup, After, Taken;
    AfterState(t, net.st, Taken(net.flight, Up(b), 0), net.wave, p, r, false);
  }

  /** A root, a broker below it at the same place, and a leaf below that at (10, 10). */
  function Chain(base: Config): Tree {
    Tree(map["r" := Node(Placed(base, "r", false, ORIGIN), None, Addr(0, 0)),
             "m" := Node(Placed(base, "m", true, ORIGIN), Some("r"), Addr(0, 1)),
             "l" := Node(Placed(base, "l", true, FAR_POINT), Some("m"), Addr(0, 2))],
         map["r" := 0, "m" := 1, "l" := 2])
  }

  ghost predicate IsChain(t: Tree) {
    && t.Valid() && t.nodes.Keys == {"r", "m", "l"} && t.IsChild("m", "r") && t.IsChild("l", "m")
    && t.nodes["r"].parent.None?
    && t.nodes["m"].config.at == ORIGIN && t.nodes["l"].config.at == FAR_POINT
  }

  lemma ChainIsValid(base: Config)
    requires base.Valid()
    ensures IsChain(Chain(base))
  {
    var t := Chain(base);
    assert t.ValidNode("r") && t.ValidNode("m") && t.ValidNode("l");
  }

  /** Before anything is handled: both HELLOs and nothing else are in flight. */
  lemma ChainStart(t: Tree)
    requires IsChain(t)
    ensures var net := StartNet(t);
            && States(t, net) && (forall b :: b in net.st ==> net.st[b].children == map[])
            && net.flight(Up("m")) == [Packet(HelloMsg(t.nodes["m"].config), false)]
            && net.flight(Up("l")) == [Packet(HelloMsg(t.nodes["l"].config), false)]
            && (forall h :: h != Up("m") && h != Up("l") ==> net.flight(h) == [])
  {
    hide Tree.Valid;
    assert forall u :: t.HasParent(u) ==> u == "m" || u == "l";
  }

  /** The root has registered the second broker, which is still childless. */
  lemma ChainMid(t: Tree)
    requires IsChain(t)
    ensures var a, b := Arrive(Up("m"), 0, "", 0), Arrive(Up("l"), 0, "", 0);
            var mid := NetRun(t, [a]);
            && Enabled(t, StartNet(t), a) && Enabled(t, mid, b)
            && Recorded(mid.st["r"], "m") == Some(PointRegion(ORIGIN))
            && (forall h :: mid.flight(h)
                            == if h == Up("l") then [Packet(HelloMsg(t.nodes["l"].config), false)] else [])
  {
    hide NetStep, NetRun, StartNet, Tree.Valid, HelloMsg, WellFormed;
    ChainStart(t);
    var a := Arrive(Up("m"), 0, "", 0);
    HelloTaken(t, StartNet(t), "m", "", 0);
    assert NetRun(t, []) == StartNet(t) by { EmptyRun(t); }
    NetRunOneMore(t, [], a);
    assert [] + [a] == [a];
  }

  /** Nothing is in flight, and the root's record of the second broker is a point while that
      broker's region reaches the leaf. */
  ghost predicate Stale(net: Net) {
    && (forall h :: net.flight(h) == []) && "r" in net.st && "m" in net.st
    && Recorded(net.st["r"], "m") == Some(PointRegion(ORIGIN)) && net.st["m"].region.Contains(FAR_POINT)
  }

  lemma ChainLast(t: Tree, mid: Net)
    requires IsChain(t) && States(t, mid) && Enabled(t, mid, Arrive(Up("l"), 0, "", 0))
    requires forall h :: mid.flight(h) == if h == Up("l") then [Packet(HelloMsg(t.nodes["l"].config), false)] else []
    requires Recorded(mid.st["r"], "m") == Some(PointRegion(ORIGIN))
    ensures Stale(NetStep(t, mid, Arrive(Up("l"), 0, "", 0)))
  {
    hide NetStep, Tree.Valid, Enabled, HelloMsg, WellFormed, Recorded;
    StepStates(t, mid, Arrive(Up("l"), 0, "", 0));
    HelloTaken(t, mid, "l", "", 0);
    CoversItsChild(t.nodes["m"].config, NetStep(t, mid, Arrive(Up("l"), 0, "", 0)).st["m"], "l");
  }

  lemma ChainEnd(t: Tree)
    requires IsChain(t)
    ensures Stale(NetRun(t, [Arrive(Up("m"), 0, "", 0), Arrive(Up("l"), 0, "", 0)]))
  {
    hide NetStep, NetRun, StartNet, Tree.Valid, Enabled, HelloMsg, WellFormed, Recorded, Stale;
    ChainMid(t);
    var a, b := Arrive(Up("m"), 0, "", 0), Arrive(Up("l"), 0, "", 0);
    NetRunOneMore(t, [a], b);
    assert [a] + [b] == [a, b];
    ChainLast(t, NetRun(t, [a]));
  }

  /** A run over reliable ordered links, of two HELLOs, that ends with nothing in flight and a
      parent's record that is not the child's region. */
  lemma StaleRecord(base: Config) returns (t: Tree, es: seq<NetEvent>)
    requires base.Valid()
    ensures t.Valid() && AllOrdered(es) && t.IsChild("m", "r") && Stale(NetRun(t, es))
  {
    hide Chain, NetRun, Stale, NetStep, Tree.ValidNode;
    t := Chain(base);
    ChainIsValid(base);
    es := [Arrive(Up("m"), 0, "", 0), Arrive(Up("l"), 0, "", 0)];
    ChainEnd(t);
  }

  lemma CoversItsChild(c: Config, s: State, id: string)
    requires s.region == Hull(c, s.children) && Recorded(s, id) == Some(PointRegion(FAR_POINT))
    ensures s.region.Contains(FAR_POINT)
  {
    HullIsLeast(c, s.children);
    LeastContains(s.region, c.at, s.children, [], FAR_POINT);
  }
}
