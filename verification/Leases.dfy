/** Build agents and the leases of the build server, as one machine: time passes, requests are answered or lost, and
    builds start, end and are aborted in any order. */
module Leases {
  import opened Wrappers
  import opened BuildAgents

  /** What the server holds for a task: the grant it gave out last and when that ends. */
  datatype Lease = Lease(grant: nat, expires: int)

  /** An answer the agent has yet to act on: the new lease of its builds, or a task it may start. */
  datatype Reply =
    | Renewal(expires: int, canceled: set<string>)
    | Offer(task: string, grant: nat, sent: int)

  datatype Agent = Agent(active: Table, lastTick: int, stopping: bool, reply: Option<Reply>)

  /** The clock and the server's tables; `owner` records who was given each grant. */
  datatype Server = Server(now: int, leases: map<string, Lease>, owner: map<nat, nat>, nextGrant: nat)

  /** `left` holds every build that was ever taken from a table, as it was then; `overwritten` those that a start of
      the same task took out. */
  datatype World = World(server: Server, agents: map<nat, Agent>, left: set<Build>, overwritten: set<Build>)

  datatype Event =
    | Advance(dt: nat)
    | Join(agent: nat)
    | Tick(agent: nat)
    | Heartbeat(agent: nat, refused: set<string>)
    | Extend(task: string)
    | Claim(agent: nat, task: string)
    | LoseReply(agent: nat)
    | Start(agent: nat)
    | Visit(agent: nat, task: string)
    | Post(agent: nat, task: string)
    | Finish(agent: nat, task: string)
    | TimeOut(agent: nat, task: string)
    | Stop(agent: nat)
    | Sweep(agent: nat)

  const GENESIS := World(Server(0, map[], map[], 0), map[], {}, {})

  /** The server renews only the current grant, before it ends. */
  predicate Owns(s: Server, active: Table, task: string) {
    task in active && task in s.leases && s.leases[task].grant == active[task].token && s.now < s.leases[task].expires
  }

  /** The tasks a heartbeat reports as canceled: all it did not renew. */
  function Canceled(s: Server, active: Table, refused: set<string>): set<string> {
    set t | t in active && (t in refused || !Owns(s, active, t))
  }

  function Renewed(s: Server, active: Table, canceled: set<string>): Server {
    s.(leases := map t | t in s.leases ::
      if t in active && t !in canceled then s.leases[t].(expires := s.now + LEASE) else s.leases[t])
  }

  function Granted(s: Server, a: nat, task: string): Server {
    s.(leases := s.leases[task := Lease(s.nextGrant, s.now + LEASE)],
       owner := s.owner[s.nextGrant := a],
       nextGrant := s.nextGrant + 1)
  }

  /** The builds of a table that are no longer in the next one. */
  function Gone(before: Table, after: Table): set<Build> {
    set t | t in before && (t !in after || after[t].token != before[t].token) :: before[t]
  }

  /** A step of one agent that touches only its table. */
  function WithTable(w: World, a: nat, lastTick: int, active: Table): World
    requires a in w.agents
  {
    w.(agents := w.agents[a := w.agents[a].(active := active, lastTick := lastTick)],
       left := w.left + Gone(w.agents[a].active, active))
  }

  function WithReply(w: World, a: nat, reply: Option<Reply>): World
    requires a in w.agents
  {
    w.(agents := w.agents[a := w.agents[a].(reply := reply)])
  }

  /** When a step can happen. Watchdogs tick at least once a second; an offer is acted on within the request's
      timeout; the server gives out a task again only after its lease has ended. */
  predicate Enabled(w: World, e: Event) {
    match e
    case Advance(dt) => forall a | a in w.agents :: w.server.now + dt <= w.agents[a].lastTick + WATCHDOG_PERIOD
    case Join(a) => a !in w.agents
    case Tick(a) => a in w.agents
    case Heartbeat(a, _) => a in w.agents
    case Extend(t) => t in w.server.leases && w.server.now < w.server.leases[t].expires
    case Claim(a, t) => a in w.agents && (t in w.server.leases ==> w.server.leases[t].expires < w.server.now)
    case LoseReply(a) => a in w.agents
    case Start(a) =>
      && a in w.agents && w.agents[a].reply.Some? && w.agents[a].reply.value.Offer?
      && w.server.now <= w.agents[a].reply.value.sent + REQUEST_TIMEOUT
    case Visit(a, t) =>
      a in w.agents && t in w.agents[a].active && w.agents[a].reply.Some? && w.agents[a].reply.value.Renewal?
    case Post(a, t) =>
      && a in w.agents && t in w.agents[a].active && w.agents[a].active[t].finished
      && w.agents[a].reply.Some? && w.agents[a].reply.value.Renewal? && t !in w.agents[a].reply.value.canceled
    case Finish(a, t) => a in w.agents && t in w.agents[a].active
    case TimeOut(a, t) => a in w.agents && t in w.agents[a].active
    case Stop(a) => a in w.agents
    case Sweep(a) => a in w.agents
  }

  function Step(w: World, e: Event): World
    requires Enabled(w, e)
  {
    match e
    case Advance(dt) => w.(server := w.server.(now := w.server.now + dt))
    case Join(a) => w.(agents := w.agents[a := Agent(map[], w.server.now, false, None)])
    case Tick(a) => WithTable(w, a, w.server.now, AfterTick(w.agents[a].active, w.server.now))
    case Heartbeat(a, refused) => HeartbeatStep(w, a, refused)
    case Extend(t) =>
      w.(server := w.server.(leases := w.server.leases[t := w.server.leases[t].(expires := w.server.now + LEASE)]))
    case Claim(a, t) =>
      WithReply(w, a, Some(Offer(t, w.server.nextGrant, w.server.now))).(server := Granted(w.server, a, t))
    case LoseReply(a) => WithReply(w, a, None)
    case Start(a) => StartStep(w, a, w.agents[a].reply.value)
    case Visit(a, t) =>
      var r := w.agents[a].reply.value;
      Updated(w, a, AfterVisit(w.agents[a].active, t, r.canceled, r.expires))
    case Post(a, t) => Updated(w, a, w.agents[a].active - {t})
    case Finish(a, t) => Updated(w, a, w.agents[a].active[t := w.agents[a].active[t].(finished := true)])
    case TimeOut(a, t) => Updated(w, a, w.agents[a].active[t := w.agents[a].active[t].(aborted := true)])
    case Stop(a) =>
      var stopped := Updated(w, a, AfterStop(w.agents[a].active));
      stopped.(agents := stopped.agents[a := stopped.agents[a].(stopping := true)])
    case Sweep(a) => Updated(w, a, AfterSweep(w.agents[a].active, w.agents[a].stopping, w.server.now))
  }

  function Updated(w: World, a: nat, active: Table): World
    requires a in w.agents
  {
    WithTable(w, a, w.agents[a].lastTick, active)
  }

  function HeartbeatStep(w: World, a: nat, refused: set<string>): World
    requires a in w.agents
  {
    var active := w.agents[a].active;
    var canceled := Canceled(w.server, active, refused);
    WithReply(w, a, Some(Renewal(w.server.now + LEASE, canceled))).(server := Renewed(w.server, active, canceled))
  }

  function StartStep(w: World, a: nat, offer: Reply): World
    requires a in w.agents && offer.Offer?
  {
    var active := w.agents[a].active;
    var started := Updated(w, a, active[offer.task := Build(offer.grant, offer.sent + LEASE, false, false)]);
    WithReply(started, a, None).(
      overwritten := if offer.task in active then w.overwritten + {active[offer.task]} else w.overwritten)
  }

  /** Any sequence of events; those that cannot happen are skipped. */
  function Run(events: seq<Event>): World {
    if events == [] then GENESIS
    else
      var before, e := Run(events[..|events| - 1]), events[|events| - 1];
      if Enabled(before, e) then Step(before, e) else before
  }

  // The invariant.

  /** A tracked build: its grant was given to this agent, and while it is live it has the current one, which ends no
      earlier than the build believes. */
  ghost predicate BuildOk(s: Server, a: nat, lastTick: int, task: string, b: Build) {
    && b.token < s.nextGrant && b.token in s.owner && s.owner[b.token] == a
    && (Live(b) ==> LiveOk(s, lastTick, task, b))
  }

  ghost predicate LiveOk(s: Server, lastTick: int, task: string, b: Build) {
    && task in s.leases && s.leases[task].grant == b.token
    && lastTick + WATCHDOG_MARGIN < b.lease <= s.leases[task].expires
  }

  ghost predicate TableOk(s: Server, a: nat, lastTick: int, active: Table) {
    forall t | t in active :: BuildOk(s, a, lastTick, t, active[t])
  }

  /** A renewal the agent has yet to apply only ever moves a live build's lease forward, and never past the server's. */
  ghost predicate RenewalOk(s: Server, active: Table, expires: int, canceled: set<string>) {
    forall t | t in active && t !in canceled && Live(active[t]) ::
      t in s.leases && active[t].lease <= expires <= s.leases[t].expires
  }

  /** An offer was never acted on, and it is the current grant or has ended. */
  ghost predicate OfferOk(s: Server, a: nat, active: Table, task: string, grant: nat, sent: int) {
    && sent <= s.now && grant < s.nextGrant && grant in s.owner && s.owner[grant] == a
    && (forall t | t in active :: active[t].token != grant)
    && (s.now <= sent + LEASE ==>
          task in s.leases && s.leases[task].grant == grant && sent + LEASE <= s.leases[task].expires)
  }

  ghost predicate ReplyOk(s: Server, a: nat, active: Table, reply: Option<Reply>) {
    match reply
    case None => true
    case Some(Renewal(expires, canceled)) => RenewalOk(s, active, expires, canceled)
    case Some(Offer(task, grant, sent)) => OfferOk(s, a, active, task, grant, sent)
  }

  ghost predicate AgentOk(s: Server, a: nat, agent: Agent) {
    && agent.lastTick <= s.now <= agent.lastTick + WATCHDOG_PERIOD
    && TableOk(s, a, agent.lastTick, agent.active)
    && ReplyOk(s, a, agent.active, agent.reply)
  }

  /** Nobody holds a lease for longer than a fresh one. */
  ghost predicate ServerOk(s: Server) {
    forall t | t in s.leases :: s.leases[t].grant < s.nextGrant && s.leases[t].expires <= s.now + LEASE
  }

  /** Builds leave a table only when they have finished or are overwritten, and never live. */
  ghost predicate LeftOk(w: World) {
    w.overwritten <= w.left && forall b | b in w.left :: !Live(b) && (b.finished || b in w.overwritten)
  }

  ghost predicate Inv(w: World) {
    (forall a | a in w.agents :: AgentOk(w.server, a, w.agents[a])) && ServerOk(w.server) && LeftOk(w)
  }

  // Steps of one agent.

  /** The table a step leaves behind holds the same grants and leases, and no build has come to life. */
  ghost predicate Shrinks(before: Table, after: Table) {
    && (forall t | t in after ::
          && t in before && after[t].token == before[t].token && after[t].lease == before[t].lease
          && (Live(after[t]) ==> Live(before[t])))
    && (forall t | t in before && t !in after :: before[t].finished)
  }

  lemma ShrinkKeepsInv(w: World, a: nat, after: Table)
    requires Inv(w) && a in w.agents && Shrinks(w.agents[a].active, after)
    ensures Inv(Updated(w, a, after))
  {
  }

  lemma TickKeepsInv(w: World, a: nat)
    requires Inv(w) && a in w.agents
    ensures Inv(Step(w, Tick(a)))
  {
  }

  lemma InvParts(w: World)
    requires Inv(w)
    ensures ServerOk(w.server) && LeftOk(w)
  {
  }

  /** A build that is renewed: an applied renewal lies between the build's own idea of its lease and the server's. */
  lemma VisitKeepsInv(w: World, a: nat, task: string)
    requires Inv(w) && Enabled(w, Visit(a, task))
    ensures Inv(Step(w, Visit(a, task)))
  {
  }

  /** A build that is started: the offer is recent, so it still is the current grant, and no build that its task's
      entry loses is live. */
  lemma StartKeepsInv(w: World, a: nat)
    requires Inv(w) && Enabled(w, Start(a))
    ensures Inv(Step(w, Start(a)))
  {
  }

  // Steps of the clock and the server.

  lemma {:induction false} AdvanceKeepsInv(w: World, dt: nat)
    requires Inv(w) && Enabled(w, Advance(dt))
    ensures Inv(Step(w, Advance(dt)))
  {
  }

  /** Leases keep their grant and end no earlier. */
  ghost predicate Extends(s: Server, t: Server) {
    && t == s.(leases := t.leases) && t.leases.Keys == s.leases.Keys
    && forall k | k in s.leases :: t.leases[k].grant == s.leases[k].grant && s.leases[k].expires <= t.leases[k].expires
  }

  lemma ExtendKeepsAgent(s: Server, t: Server, a: nat, agent: Agent)
    requires Extends(s, t) && AgentOk(s, a, agent)
    ensures AgentOk(t, a, agent)
  {
  }

  lemma ExtendStepKeepsInv(w: World, task: string)
    requires Inv(w) && Enabled(w, Extend(task))
    ensures Inv(Step(w, Extend(task)))
  {
  }

  lemma RenewedExtends(s: Server, active: Table, canceled: set<string>)
    requires ServerOk(s)
    ensures Extends(s, Renewed(s, active, canceled)) && ServerOk(Renewed(s, active, canceled))
  {
  }

  lemma RenewalIsOk(s: Server, a: nat, lastTick: int, active: Table, refused: set<string>)
    requires ServerOk(s) && TableOk(s, a, lastTick, active)
    ensures
      var canceled := Canceled(s, active, refused);
      RenewalOk(Renewed(s, active, canceled), active, s.now + LEASE, canceled)
  {
  }

  lemma HeartbeatKeepsInv(w: World, a: nat, refused: set<string>)
    requires Inv(w) && a in w.agents
    ensures Inv(Step(w, Heartbeat(a, refused)))
  {
    hide Renewed, Canceled;
    var v, active := Step(w, Heartbeat(a, refused)), w.agents[a].active;
    var canceled := Canceled(w.server, active, refused);
    InvParts(w);
    RenewedExtends(w.server, active, canceled);
    assert LeftOk(v) by { hide ServerOk; }
    hide ServerOk, LeftOk;
    forall c | c in v.agents ensures AgentOk(v.server, c, v.agents[c]) {
      assert AgentOk(w.server, c, w.agents[c]);
      hide Inv, Extends;
      assert AgentOk(v.server, c, w.agents[c]) by {
        hide AgentOk;
        ExtendKeepsAgent(w.server, v.server, c, w.agents[c]);
      }
      if c == a {
        hide TableOk;
        RenewalIsOk(w.server, a, w.agents[a].lastTick, active, refused);
      }
    }
  }

  /** A task whose lease has ended is given out again: no build of it is live, and older offers of it have ended. */
  lemma GrantKeepsAgent(s: Server, a: nat, task: string, c: nat, agent: Agent)
    requires AgentOk(s, c, agent) && (task in s.leases ==> s.leases[task].expires < s.now)
    ensures AgentOk(Granted(s, a, task), c, agent)
  {
  }

  lemma FreshOffer(s: Server, a: nat, task: string, lastTick: int, active: Table)
    requires TableOk(s, a, lastTick, active)
    ensures OfferOk(Granted(s, a, task), a, active, task, s.nextGrant, s.now)
  {
  }

  lemma ClaimKeepsInv(w: World, a: nat, task: string)
    requires Inv(w) && Enabled(w, Claim(a, task))
    ensures Inv(Step(w, Claim(a, task)))
  {
    var v := Step(w, Claim(a, task));
    InvParts(w);
    assert ServerOk(v.server) by { hide LeftOk; }
    assert LeftOk(v) by { hide ServerOk; }
    hide ServerOk, LeftOk;
    forall c | c in v.agents ensures AgentOk(v.server, c, v.agents[c]) {
      assert AgentOk(w.server, c, w.agents[c]);
      hide Inv, Granted;
      assert AgentOk(v.server, c, w.agents[c]) by {
        hide AgentOk;
        GrantKeepsAgent(w.server, a, task, c, w.agents[c]);
      }
      if c == a {
        hide TableOk, OfferOk;
        FreshOffer(w.server, a, task, w.agents[a].lastTick, w.agents[a].active);
      }
    }
  }

  lemma JoinKeepsInv(w: World, a: nat)
    requires Inv(w) && a !in w.agents
    ensures Inv(Step(w, Join(a)))
  {
  }

  lemma LoseReplyKeepsInv(w: World, a: nat)
    requires Inv(w) && a in w.agents
    ensures Inv(Step(w, LoseReply(a)))
  {
  }

  lemma StopKeepsInv(w: World, a: nat)
    requires Inv(w) && a in w.agents
    ensures Inv(Step(w, Stop(a)))
  {
  }

  lemma StepKeepsInv(w: World, e: Event)
    requires Inv(w) && Enabled(w, e)
    ensures Inv(Step(w, e))
  {
    hide Inv;
    match e
    case Advance(dt) => AdvanceKeepsInv(w, dt);
    case Join(a) => JoinKeepsInv(w, a);
    case Tick(a) => TickKeepsInv(w, a);
    case Heartbeat(a, refused) => HeartbeatKeepsInv(w, a, refused);
    case Extend(t) => ExtendStepKeepsInv(w, t);
    case Claim(a, t) => ClaimKeepsInv(w, a, t);
    case LoseReply(a) => LoseReplyKeepsInv(w, a);
    case Start(a) => StartKeepsInv(w, a);
    case Visit(a, t) => VisitKeepsInv(w, a, t);
    case Post(a, t) => ShrinkKeepsInv(w, a, w.agents[a].active - {t});
    case Finish(a, t) => ShrinkKeepsInv(w, a, w.agents[a].active[t := w.agents[a].active[t].(finished := true)]);
    case TimeOut(a, t) => ShrinkKeepsInv(w, a, w.agents[a].active[t := w.agents[a].active[t].(aborted := true)]);
    case Stop(a) => StopKeepsInv(w, a);
    case Sweep(a) => ShrinkKeepsInv(w, a, AfterSweep(w.agents[a].active, w.agents[a].stopping, w.server.now));
  }

  lemma {:induction false} RunKeepsInv(events: seq<Event>)
    ensures Inv(Run(events))
  {
    hide Inv, Step;
    if events == [] {
      GenesisInv();
    } else {
      var before, e := Run(events[..|events| - 1]), events[|events| - 1];
      RunKeepsInv(events[..|events| - 1]);
      if Enabled(before, e) {
        StepKeepsInv(before, e);
      }
    }
  }

  lemma GenesisInv()
    ensures Inv(GENESIS)
  {
  }

  // What every run keeps.

  /** At every moment of every run, a build that is still working without having been aborted has more than nine
      seconds of its lease left, both by the agent's books and by the server's, under the grant the server knows. */
  lemma LiveBuildsHoldTheirLease(events: seq<Event>, a: nat, task: string)
    requires a in Run(events).agents && task in Run(events).agents[a].active
    requires !Run(events).agents[a].active[task].aborted && !Run(events).agents[a].active[task].finished
    ensures
      var w := Run(events);
      var b := w.agents[a].active[task];
      && task in w.server.leases && w.server.leases[task].grant == b.token
      && w.server.now + 9_000 < b.lease <= w.server.leases[task].expires
  {
    RunKeepsInv(events);
    var w := Run(events);
    hide Run;
    assert AgentOk(w.server, a, w.agents[a]);
    assert BuildOk(w.server, a, w.agents[a].lastTick, task, w.agents[a].active[task]);
  }

  /** No task ever has two live builds, whatever is lost, delayed or given out again. */
  lemma OneLiveBuildPerTask(events: seq<Event>, a: nat, b: nat, task: string)
    requires a in Run(events).agents && task in Run(events).agents[a].active
    requires b in Run(events).agents && task in Run(events).agents[b].active
    requires !Run(events).agents[a].active[task].aborted && !Run(events).agents[a].active[task].finished
    requires !Run(events).agents[b].active[task].aborted && !Run(events).agents[b].active[task].finished
    ensures a == b
  {
    RunKeepsInv(events);
    var w := Run(events);
    hide Run;
    assert AgentOk(w.server, a, w.agents[a]) && AgentOk(w.server, b, w.agents[b]);
    assert BuildOk(w.server, a, w.agents[a].lastTick, task, w.agents[a].active[task]);
    assert BuildOk(w.server, b, w.agents[b].lastTick, task, w.agents[b].active[task]);
  }

  /** A start takes an unfinished build out of the table: its task is still tracked there. */
  predicate Overwrites(w: World, e: Event, b: Build) {
    && e.Start? && Enabled(w, e) && !b.finished
    && var agent := w.agents[e.agent];
       agent.reply.value.task in agent.active && agent.active[agent.reply.value.task] == b
  }

  /** The only step that takes an unfinished build out of a table is a start. */
  lemma LeftAfterStep(w: World, e: Event, b: Build)
    requires Inv(w) && Enabled(w, e) && !b.finished
    ensures b in Step(w, e).left <==> b in w.left || Overwrites(w, e, b)
  {
    if e.Start? {
      hide LeftOk, ServerOk, TableOk;
      assert AgentOk(w.server, e.agent, w.agents[e.agent]);
    }
  }

  predicate OverwrittenAt(events: seq<Event>, n: nat, b: Build) {
    n < |events| && Overwrites(Run(events[..n]), events[n], b)
  }

  /** No untracked execution: over every run, a build leaves the table of its agent unfinished exactly if a start of the
      same task overwrites it, and none leaves it live. */
  lemma {:induction false} NoUntrackedExecution(events: seq<Event>, b: Build)
    ensures b in Run(events).left && !b.finished <==> exists n :: OverwrittenAt(events, n, b)
    ensures b in Run(events).left ==> b.aborted || b.finished
  {
    RunKeepsInv(events);
    if events != [] && !b.finished {
      var last := |events| - 1;
      var before, w := events[..last], Run(events[..last]);
      NoUntrackedExecution(before, b);
      RunKeepsInv(before);
      assert forall n | 0 <= n < last :: before[n] == events[n] && before[..n] == events[..n];
      hide Inv, Overwrites, Step;
      assert forall n: nat | n < last :: OverwrittenAt(before, n, b) <==> OverwrittenAt(events, n, b);
      assert OverwrittenAt(events, last, b) <==> Overwrites(w, events[last], b);
      if Enabled(w, events[last]) {
        LeftAfterStep(w, events[last], b);
      } else {
        NotOverwritten(w, events[last], b);
      }
    }
  }

  lemma NotOverwritten(w: World, e: Event, b: Build)
    requires !Enabled(w, e)
    ensures !Overwrites(w, e, b)
  {
  }

  /** A start loses nothing: its task is not tracked, or the build that is has finished. */
  predicate StartsCleanly(w: World, e: Event) {
    e.Start? && Enabled(w, e) ==>
      var agent := w.agents[e.agent];
      agent.reply.value.task in agent.active ==> agent.active[agent.reply.value.task].finished
  }

  /** Every build that ever left a table had finished exactly if every start was clean. */
  lemma {:induction false} NothingLostIff(events: seq<Event>)
    ensures (forall b | b in Run(events).left :: b.finished)
      <==> forall n: nat | n < |events| :: StartsCleanly(Run(events[..n]), events[n])
  {
    hide Run, Inv;
    if forall b | b in Run(events).left :: b.finished {
      forall n: nat | n < |events| ensures StartsCleanly(Run(events[..n]), events[n]) {
        var w, e := Run(events[..n]), events[n];
        if !StartsCleanly(w, e) {
          var b := w.agents[e.agent].active[w.agents[e.agent].reply.value.task];
          assert OverwrittenAt(events, n, b);
          NoUntrackedExecution(events, b);
        }
      }
    }
    if forall n: nat | n < |events| :: StartsCleanly(Run(events[..n]), events[n]) {
      forall b | b in Run(events).left ensures b.finished {
        NoUntrackedExecution(events, b);
      }
    }
  }

  // How builds leave, and what else happens to them.

  /** A step takes a build out of a table: its result is posted, or it has finished and is reported as canceled, or its
      task starts again, or it was aborted, has finished, and its agent stops or its lease has ended. */
  predicate LeavesBy(w: World, e: Event, b: Build) {
    && Enabled(w, e)
    && match e
       case Post(a, t) => w.agents[a].active[t] == b
       case Visit(a, t) => w.agents[a].active[t] == b && b.finished && t in w.agents[a].reply.value.canceled
       case Start(a) =>
         var t := w.agents[a].reply.value.task;
         t in w.agents[a].active && w.agents[a].active[t] == b
       case Sweep(a) =>
         && b.aborted && b.finished && (w.agents[a].stopping || b.lease <= w.server.now)
         && exists t :: t in w.agents[a].active && w.agents[a].active[t] == b
       case _ => false
  }

  lemma LeavesStepIff(w: World, e: Event, b: Build)
    requires Inv(w) && Enabled(w, e)
    ensures b in Step(w, e).left <==> b in w.left || LeavesBy(w, e, b)
  {
    if e.Start? {
      hide LeftOk, ServerOk, TableOk;
      assert AgentOk(w.server, e.agent, w.agents[e.agent]);
    } else {
      hide Inv;
    }
  }

  predicate LeavesAt(events: seq<Event>, n: nat, b: Build) {
    n < |events| && LeavesBy(Run(events[..n]), events[n], b)
  }

  /** Over every run, the builds that have left a table are exactly those that left in one of these ways. */
  lemma {:induction false} LeavesIff(events: seq<Event>, b: Build)
    ensures b in Run(events).left <==> exists n :: LeavesAt(events, n, b)
  {
    if events != [] {
      var last := |events| - 1;
      var before, w := events[..last], Run(events[..last]);
      LeavesIff(before, b);
      RunKeepsInv(before);
      assert forall n | 0 <= n < last :: before[n] == events[n] && before[..n] == events[..n];
      hide Inv, LeavesBy, Step;
      assert forall n: nat | n < last :: LeavesAt(before, n, b) <==> LeavesAt(events, n, b);
      assert LeavesAt(events, last, b) <==> LeavesBy(w, events[last], b);
      if Enabled(w, events[last]) {
        LeavesStepIff(w, events[last], b);
      } else {
        assert !LeavesBy(w, events[last], b) by { NotLeaving(w, events[last], b); }
      }
    }
  }

  lemma NotLeaving(w: World, e: Event, b: Build)
    requires !Enabled(w, e)
    ensures !LeavesBy(w, e, b)
  {
  }

  predicate PostedAt(events: seq<Event>, n: nat, b: Build) {
    && n < |events| && events[n].Post?
    && var w := Run(events[..n]);
       Enabled(w, events[n]) && w.agents[events[n].agent].active[events[n].task] == b
  }

  predicate CanceledAt(events: seq<Event>, n: nat, b: Build) {
    && n < |events| && events[n].Visit?
    && var w, e := Run(events[..n]), events[n];
       Enabled(w, e) && w.agents[e.agent].active[e.task] == b && e.task in w.agents[e.agent].reply.value.canceled
  }

  predicate RestartedAt(events: seq<Event>, n: nat, b: Build) {
    && n < |events| && events[n].Start?
    && var w, e := Run(events[..n]), events[n];
       && Enabled(w, e) && w.agents[e.agent].reply.value.task in w.agents[e.agent].active
       && w.agents[e.agent].active[w.agents[e.agent].reply.value.task] == b
  }

  /** No result is dropped: a build that ran to its end without being aborted leaves only when its result is posted, when
      the server has given it up, or when its task starts again. */
  lemma ResultsArePosted(events: seq<Event>, b: Build)
    requires b in Run(events).left && !b.aborted
    ensures exists n :: PostedAt(events, n, b) || CanceledAt(events, n, b) || RestartedAt(events, n, b)
  {
    LeavesIff(events, b);
    hide Run;
    var n :| LeavesAt(events, n, b);
    assert PostedAt(events, n, b) || CanceledAt(events, n, b) || RestartedAt(events, n, b);
  }

  /** What a step does to a build that stays: it is aborted exactly if its lease ends within ten seconds at a tick, at its
      time limit, at a stop, or when it is reported as canceled; it gets the lease of a renewal that does not cancel it;
      and it finishes when it ends. */
  lemma BuildAfterStep(w: World, e: Event, a: nat, t: string)
    requires Inv(w) && Enabled(w, e) && a in w.agents && t in w.agents[a].active
    requires t in Step(w, e).agents[a].active && !(e == Start(a) && w.agents[a].reply.value.task == t)
    ensures
      var agent, b, c := w.agents[a], w.agents[a].active[t], Step(w, e).agents[a].active[t];
      && c.token == b.token
      && (c.aborted <==>
            || b.aborted || (e == Tick(a) && b.lease - 10_000 <= w.server.now) || e == TimeOut(a, t) || e == Stop(a)
            || (e == Visit(a, t) && t in agent.reply.value.canceled))
      && c.lease == (if e == Visit(a, t) && t !in agent.reply.value.canceled then agent.reply.value.expires else b.lease)
      && (c.finished <==> b.finished || e == Finish(a, t))
  {
    hide Inv;
  }

  /** A started build runs under the grant it was offered, for ninety seconds from the offer. */
  lemma BuildAfterStart(w: World, a: nat)
    requires Enabled(w, Start(a))
    ensures
      var offer, after := w.agents[a].reply.value, Step(w, Start(a)).agents[a];
      && after.active == w.agents[a].active[offer.task := Build(offer.grant, offer.sent + 90_000, false, false)]
      && after.reply == None
  {
  }

  /** What the server answers: a heartbeat renews each tracked task for ninety seconds whose current grant the build has
      and has not let end, unless it is refused, and reports exactly the others. */
  lemma HeartbeatAnswers(w: World, a: nat, refused: set<string>)
    requires a in w.agents
    ensures
      var v, active, leases := Step(w, Heartbeat(a, refused)), w.agents[a].active, w.server.leases;
      && v.agents[a].reply.Some? && v.agents[a].reply.value.Renewal?
      && v.agents[a].reply.value.expires == w.server.now + 90_000
      && v.server.leases.Keys == leases.Keys && v.agents[a].active == active
      && forall t ::
        var renewed := t in active && t !in refused && t in leases && leases[t].grant == active[t].token
                       && w.server.now < leases[t].expires;
        && (t in v.agents[a].reply.value.canceled <==> t in active && !renewed)
        && (t in leases ==>
              v.server.leases[t] == if renewed then leases[t].(expires := w.server.now + 90_000) else leases[t])
  {
  }

  /** A claim gets a task that is free or whose lease has ended, under a grant that was never given out. */
  lemma ClaimGrants(w: World, a: nat, t: string)
    requires Inv(w) && Enabled(w, Claim(a, t))
    ensures
      var v := Step(w, Claim(a, t));
      && v.agents[a].reply == Some(Offer(t, w.server.nextGrant, w.server.now))
      && v.server.leases == w.server.leases[t := Lease(w.server.nextGrant, w.server.now + 90_000)]
      && v.server.nextGrant == w.server.nextGrant + 1
      && (forall k | k in w.server.leases :: w.server.leases[k].grant != w.server.nextGrant)
      && (t in w.server.leases ==> w.server.leases[t].expires < w.server.now)
  {
  }

  // Task names are reused when a run is attempted again, so the exception is real.

  /** An aborted build that has not finished, `n` seconds after it was claimed. */
  function Waiting(n: nat): World {
    World(
      Server(1000 * n, map["t" := Lease(0, LEASE)], map[0 := 0], 1),
      map[0 := Agent(map["t" := Build(0, LEASE, true, false)], 1000 * n, false, None)],
      {}, {})
  }

  lemma RunOne(events: seq<Event>, e: Event)
    requires Enabled(Run(events), e)
    ensures Run(events + [e]) == Step(Run(events), e)
  {
  }

  lemma WaitASecond(events: seq<Event>, n: nat)
    requires Run(events) == Waiting(n)
    ensures Run(events + [Advance(1000)] + [Tick(0)]) == Waiting(n + 1)
  {
    hide Run;
    RunOne(events, Advance(1000));
    RunOne(events + [Advance(1000)], Tick(0));
    assert AfterTick(Waiting(n).agents[0].active, 1000 * (n + 1)) == Waiting(n).agents[0].active;
  }

  lemma {:induction false} Wait(n: nat) returns (events: seq<Event>)
    ensures Run(events) == Waiting(n)
  {
    if n == 0 {
      events := ClaimAndAbort();
    } else {
      hide Run, Waiting;
      var before := Wait(n - 1);
      WaitASecond(before, n - 1);
      events := before + [Advance(1000)] + [Tick(0)];
    }
  }

  lemma ClaimAndAbort() returns (events: seq<Event>)
    ensures Run(events) == Waiting(0)
  {
    var server := Server(0, map["t" := Lease(0, LEASE)], map[0 := 0], 1);
    var b := Build(0, LEASE, false, false);
    var claimed := ClaimOne(server);
    hide Run;
    RunOne(claimed, Start(0));
    assert map[]["t" := b] == map["t" := b];
    assert Run(claimed + [Start(0)]) == World(server, map[0 := Agent(map["t" := b], 0, false, None)], {}, {});
    RunOne(claimed + [Start(0)], TimeOut(0, "t"));
    events := claimed + [Start(0)] + [TimeOut(0, "t")];
    assert map["t" := b]["t" := b.(aborted := true)] == map["t" := b.(aborted := true)];
  }

  lemma ClaimOne(server: Server) returns (events: seq<Event>)
    requires server == Server(0, map["t" := Lease(0, LEASE)], map[0 := 0], 1)
    ensures Run(events) == World(server, map[0 := Agent(map[], 0, false, Some(Offer("t", 0, 0)))], {}, {})
  {
    assert Run([]) == GENESIS;
    hide Run;
    RunOne([], Join(0));
    var joined := [] + [Join(0)];
    RunOne(joined, Claim(0, "t"));
    events := joined + [Claim(0, "t")];
  }

  /** An aborted build that is still winding down when its lease has ended and its task comes back to the same agent
      is lost from the table unfinished. */
  lemma SlowAbortIsOverwritten() returns (events: seq<Event>, b: Build)
    ensures b in Run(events).left && b in Run(events).overwritten && !b.finished
  {
    var before := Wait(91);
    b := Build(0, LEASE, true, false);
    hide Run;
    RunOne(before, Claim(0, "t"));
    RunOne(before + [Claim(0, "t")], Start(0));
    events := before + [Claim(0, "t")] + [Start(0)];
    assert b in Run(events).overwritten;
  }
}
