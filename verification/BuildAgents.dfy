/** The build agent's table of running builds, its watchdog and heartbeat, and the leases of the build server:
    one atomic step for each stretch of the program between two waits. */
module BuildAgents {
  import opened Wrappers
  import opened AgentLogs

  const WATCHDOG_MARGIN := 10_000
  const WATCHDOG_PERIOD := 1_000
  const LEASE := 90_000
  const REQUEST_TIMEOUT := 10_000

  /** What the table says about a build; the token is the server's grant it runs under. */
  datatype Build = Build(token: nat, lease: int, aborted: bool, finished: bool)

  type Table = map<string, Build>

  /** A build that may still be doing work it believes to own. */
  predicate Live(b: Build) {
    !b.aborted && !b.finished
  }

  // What the agent's steps do to its table.

  function AfterTick(active: Table, now: int): Table {
    map t | t in active ::
      if active[t].lease - WATCHDOG_MARGIN <= now then active[t].(aborted := true) else active[t]
  }

  function AfterStop(active: Table): Table {
    map t | t in active :: active[t].(aborted := true)
  }

  /** One build of a heartbeat's loop: canceled builds are aborted and, once finished, forgotten; all others get
      the new lease. */
  function AfterVisit(active: Table, task: string, canceled: set<string>, lease: int): Table
    requires task in active
  {
    if task !in canceled then active[task := active[task].(lease := lease)]
    else if active[task].finished then active - {task}
    else active[task := active[task].(aborted := true)]
  }

  predicate Swept(b: Build, stopping: bool, now: int) {
    b.aborted && b.finished && (stopping || b.lease <= now)
  }

  function AfterSweep(active: Table, stopping: bool, now: int): Table {
    map t | t in active && !Swept(active[t], stopping, now) :: active[t]
  }

  /** The agent: a table of build objects. */
  class BuildAgent {
    var active: map<string, ActiveTask>
    var stopping: bool

    ghost function Tasks(): set<ActiveTask>
      reads this
    {
      set t | t in active :: active[t]
    }

    ghost predicate Valid()
      reads this, Tasks()
    {
      forall t | t in active :: active[t].id == t && active[t].Valid()
    }

    ghost function View(): Table
      reads this, Tasks()
    {
      map t | t in active ::
        Build(active[t].leaseToken, active[t].leaseExpiresAt, active[t].aborted, active[t].finished)
    }

    constructor ()
      ensures Valid() && active == map[] && !stopping
    {
      active, stopping := map[], false;
    }

    /** The watchdog: builds whose lease ends within ten seconds are aborted. */
    method WatchdogTick(now: int)
      requires Valid()
      modifies Tasks()`aborted
      ensures Valid() && View() == AfterTick(old(View()), now)
    {
      hide ActiveTask.Valid;
      var rest := active.Keys;
      while rest != {}
        invariant rest <= active.Keys && Valid()
        invariant forall t | t in active && t !in rest ::
          active[t].aborted == (old(active[t].aborted) || active[t].leaseExpiresAt - WATCHDOG_MARGIN <= now)
        invariant forall t | t in rest :: active[t].aborted == old(active[t].aborted)
        decreases rest
      {
        var t :| t in rest;
        if active[t].leaseExpiresAt - WATCHDOG_MARGIN <= now {
          active[t].Abort();
        }
        rest := rest - {t};
      }
    }

    /** A stop signal, or a rejected credential. */
    method Stop()
      requires Valid()
      modifies this`stopping, Tasks()`aborted
      ensures Valid() && stopping && active == old(active) && View() == AfterStop(old(View()))
    {
      hide ActiveTask.Valid;
      stopping := true;
      var rest := active.Keys;
      while rest != {}
        invariant rest <= active.Keys && Valid() && stopping && active == old(active)
        invariant forall t | t in active && t !in rest :: active[t].aborted
        decreases rest
      {
        var t :| t in rest;
        active[t].Abort();
        rest := rest - {t};
      }
    }

    /** A claimed task starts; an entry of the same name is overwritten. */
    method Start(task: string, leaseToken: nat, leaseExpiresAt: int) returns (build: ActiveTask)
      requires Valid()
      modifies this`active
      ensures Valid() && fresh(build) && build.log == EMPTY
      ensures active == old(active)[task := build]
      ensures View() == old(View())[task := Build(leaseToken, leaseExpiresAt, false, false)]
    {
      hide ActiveTask.Valid;
      build := new ActiveTask(task, leaseToken, leaseExpiresAt);
      active := active[task := build];
    }

    /** One turn of the heartbeat's loop, up to the point where it posts a result or goes on. */
    method Visit(task: string, canceled: set<string>, leaseExpiresAt: int) returns (post: bool)
      requires Valid() && task in active
      modifies this`active, {active[task]}`aborted, {active[task]}`leaseExpiresAt
      ensures Valid() && View() == AfterVisit(old(View()), task, canceled, leaseExpiresAt)
      ensures post ==> task in active && Complete(active[task].log)
      ensures post <==> task !in canceled && old(active[task].finished && active[task].logs == [] && active[task].flushing.Idle?)
    {
      if task in canceled {
        Cancel(task);
        post := false;
      } else {
        post := Renew(task, leaseExpiresAt);
      }
    }

    method Abort(task: string)
      requires Valid() && task in active
      modifies {active[task]}`aborted
      ensures Valid() && View() == old(View())[task := old(View())[task].(aborted := true)]
    {
      hide ActiveTask.Valid;
      active[task].Abort();
    }

    method Cancel(task: string)
      requires Valid() && task in active
      modifies this`active, {active[task]}`aborted
      ensures Valid() && View() == AfterVisit(old(View()), task, {task}, 0)
    {
      hide Valid;
      Abort(task);
      if active[task].finished {
        Forget(task);
      }
    }

    method Renew(task: string, leaseExpiresAt: int) returns (post: bool)
      requires Valid() && task in active
      modifies {active[task]}`leaseExpiresAt
      ensures Valid() && View() == AfterVisit(old(View()), task, {}, leaseExpiresAt)
      ensures post <==> old(active[task].finished && active[task].logs == [] && active[task].flushing.Idle?)
      ensures post ==> Complete(active[task].log)
    {
      hide ActiveTask.Valid, Complete;
      active[task].SetLease(leaseExpiresAt);
      post := active[task].MayPostResult();
    }

    /** A finished build leaves the table: its result was posted, or it was canceled. */
    method Forget(task: string)
      requires Valid() && task in active && active[task].finished
      modifies this`active
      ensures Valid() && View() == old(View()) - {task}
    {
      hide ActiveTask.Valid;
      active := active - {task};
    }

    /** The end of the loop: aborted builds that have finished are forgotten on shutdown or after their lease. */
    method Sweep(now: int)
      requires Valid()
      modifies this`active
      ensures Valid() && View() == AfterSweep(old(View()), stopping, now)
    {
      hide ActiveTask.Valid;
      var rest := active.Keys;
      ghost var before := active;
      while rest != {}
        invariant rest <= before.Keys && rest <= active.Keys
        invariant active.Keys <= before.Keys
        invariant forall t | t in before ::
          t in active <==>
            t in rest || !(before[t].aborted && before[t].finished && (stopping || before[t].leaseExpiresAt <= now))
        invariant forall t | t in active :: active[t] == before[t]
        decreases rest
      {
        var t :| t in rest;
        if active[t].aborted && active[t].finished && (stopping || active[t].leaseExpiresAt <= now) {
          active := active - {t};
        }
        rest := rest - {t};
      }
    }
  }
}
