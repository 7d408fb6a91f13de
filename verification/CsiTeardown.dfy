/** The last step of an uninstall: a CSI driver goes only when none of its volumes are left. */
module CsiTeardown {
  import opened Wrappers

  const PAGE := 500
  const OWNER_LABEL := "app.kubernetes.io/managed-by"
  const OWNER := "kubwave-cli"

  datatype Install = Helm(release: string, namespace: string) | Manifest(manifest: string)

  datatype Target = Target(provisioner: string, install: Install, storageClass: Option<string>)

  datatype Reply = Ok | NotFound | Failed

  /** What the program did to the cluster, and when it knew. A count shows the drivers of all volumes. */
  datatype Event =
    | Counted(drivers: seq<Option<string>>, at: int)
    | CountFailed
    | Uninstalled(install: Install, reply: Reply)
    | ClassRead(name: string, reply: Reply, labels: map<string, string>)
    | ClassDeleted(name: string, reply: Reply)

  datatype Outcome = Removed | Skipped(volumes: nat) | TornFailed

  function Count(drivers: seq<Option<string>>, provisioner: string): nat {
    if drivers == [] then 0
    else Count(drivers[..|drivers| - 1], provisioner) + if drivers[|drivers| - 1] == Some(provisioner) then 1 else 0
  }

  lemma {:induction false} CountZero(drivers: seq<Option<string>>, provisioner: string)
    ensures Count(drivers, provisioner) == 0 <==> Some(provisioner) !in drivers
  {
    if drivers != [] {
      var before := drivers[..|drivers| - 1];
      CountZero(before, provisioner);
      assert drivers == before + [drivers[|drivers| - 1]];
    }
  }

  predicate Owned(labels: map<string, string>) {
    OWNER_LABEL in labels && labels[OWNER_LABEL] == OWNER
  }

  // The specification: what may happen for one target.

  /** Volumes were still there, and the deadline had not passed. */
  predicate KeepsWaiting(e: Event, provisioner: string, deadline: int) {
    e.Counted? && Count(e.drivers, provisioner) > 0 && e.at < deadline
  }

  /** The storage class is deleted only if it is the program's own. */
  predicate ClassRun(storageClass: Option<string>, events: seq<Event>, outcome: Outcome) {
    match storageClass
    case None => events == [] && outcome == Removed
    case Some(name) =>
      && events != [] && events[0].ClassRead? && events[0].name == name
      && match events[0].reply
         case NotFound => |events| == 1 && outcome == Removed
         case Failed => |events| == 1 && outcome == TornFailed
         case Ok =>
           if !Owned(events[0].labels) then |events| == 1 && outcome == Removed
           else
             && |events| == 2 && events[1].ClassDeleted? && events[1].name == name
             && outcome == if events[1].reply.Failed? then TornFailed else Removed
  }

  predicate RemovalRun(target: Target, events: seq<Event>, outcome: Outcome) {
    && events != [] && events[0].Uninstalled? && events[0].install == target.install
    && if events[0].reply.Failed? then |events| == 1 && outcome == TornFailed
       else ClassRun(target.storageClass, events[1..], outcome)
  }

  /** Counts until the volumes are gone, the deadline passes or a count fails; then, only when they are gone, the
      removal. `waits` is the number of counts that led to another one. */
  predicate TargetRun(target: Target, events: seq<Event>, waits: nat, timeoutMs: int, outcome: Outcome) {
    && waits < |events|
    && (waits > 0 ==> events[0].Counted?)
    && (forall i | 0 <= i < waits :: KeepsWaiting(events[i], target.provisioner, events[0].at + timeoutMs))
    && match events[waits]
       case CountFailed => |events| == waits + 1 && outcome == TornFailed
       case Counted(drivers, at) =>
         if Count(drivers, target.provisioner) > 0 then
           && |events| == waits + 1 && outcome == Skipped(Count(drivers, target.provisioner))
           && at >= (if waits > 0 then events[0].at else at) + timeoutMs
         else RemovalRun(target, events[waits + 1..], outcome)
       case _ => false
  }

  // What the specification says.

  /** A driver is uninstalled only right after a count that showed none of its volumes. */
  lemma UninstalledOnlyWhenEmpty(target: Target, events: seq<Event>, waits: nat, timeoutMs: int, outcome: Outcome, i: nat)
    requires TargetRun(target, events, waits, timeoutMs, outcome) && i < |events| && events[i].Uninstalled?
    ensures i == waits + 1 && events[i].install == target.install
    ensures events[waits].Counted? && Some(target.provisioner) !in events[waits].drivers
  {
    if events[waits].Counted? {
      CountZero(events[waits].drivers, target.provisioner);
      if Count(events[waits].drivers, target.provisioner) == 0 {
        RemovalShape(target, events[waits + 1..], outcome);
        assert forall j | waits + 1 < j < |events| :: events[j] == events[waits + 1..][j - waits - 1];
      }
    }
  }

  lemma RemovalShape(target: Target, events: seq<Event>, outcome: Outcome)
    requires RemovalRun(target, events, outcome)
    ensures events != [] && events[0].Uninstalled? && events[0].install == target.install
    ensures forall i | 0 < i < |events| :: !events[i].Uninstalled?
  {
  }

  /** A storage class is deleted only if it was read just before as the program's own, and after its driver. */
  lemma DeletedOnlyWhenOwned(target: Target, events: seq<Event>, waits: nat, timeoutMs: int, outcome: Outcome, i: nat)
    requires TargetRun(target, events, waits, timeoutMs, outcome) && i < |events| && events[i].ClassDeleted?
    ensures i == waits + 3 && target.storageClass == Some(events[i].name)
    ensures events[i - 1].ClassRead? && events[i - 1].name == events[i].name
    ensures events[i - 1].reply.Ok? && Owned(events[i - 1].labels)
    ensures events[i - 2].Uninstalled? && !events[i - 2].reply.Failed?
  {
  }

  function Flatten(runs: seq<seq<Event>>): seq<Event> {
    if runs == [] then [] else Flatten(runs[..|runs| - 1]) + runs[|runs| - 1]
  }

  /** A driver is uninstalled right after a count that showed none of its volumes. */
  predicate EmptyThenUninstalled(target: Target, log: seq<Event>, i: nat) {
    && 0 < i < |log| && log[i].Uninstalled? && log[i].install == target.install
    && log[i - 1].Counted? && Some(target.provisioner) !in log[i - 1].drivers
  }

  /** A storage class is deleted right after it was read as the program's own, and after its driver was uninstalled. */
  predicate OwnedThenDeleted(target: Target, log: seq<Event>, i: nat) {
    && 3 <= i < |log| && log[i].ClassDeleted? && target.storageClass == Some(log[i].name)
    && log[i - 1].ClassRead? && log[i - 1].name == log[i].name && log[i - 1].reply.Ok?
    && "app.kubernetes.io/managed-by" in log[i - 1].labels
    && log[i - 1].labels["app.kubernetes.io/managed-by"] == "kubwave-cli"
    && EmptyThenUninstalled(target, log, i - 2) && !log[i - 2].reply.Failed?
  }

  lemma RemovalIsSafe(target: Target, events: seq<Event>, waits: nat, timeoutMs: int, outcome: Outcome, i: nat)
    requires TargetRun(target, events, waits, timeoutMs, outcome) && i < |events|
    ensures events[i].Uninstalled? ==> EmptyThenUninstalled(target, events, i)
    ensures events[i].ClassDeleted? ==> OwnedThenDeleted(target, events, i)
  {
    hide Count;
    if events[i].Uninstalled? {
      UninstalledOnlyWhenEmpty(target, events, waits, timeoutMs, outcome, i);
    }
    if events[i].ClassDeleted? {
      DeletedOnlyWhenOwned(target, events, waits, timeoutMs, outcome, i);
      UninstalledOnlyWhenEmpty(target, events, waits, timeoutMs, outcome, i - 2);
    }
  }

  /** How many of the listed volumes a count finds. */
  lemma {:induction false} CountIs(drivers: seq<Option<string>>, provisioner: string)
    ensures Count(drivers, provisioner) == |set i: nat | i < |drivers| && drivers[i] == Some(provisioner)|
  {
    if drivers != [] {
      var n := |drivers| - 1;
      var before := drivers[..n];
      CountIs(before, provisioner);
      assert (set i: nat | i < |drivers| && drivers[i] == Some(provisioner))
        == (set i: nat | i < n && before[i] == Some(provisioner)) + if drivers[n] == Some(provisioner) then {n} else {};
    }
  }

  /** A driver is not left in place without a reason: once a count shows none of its volumes it is uninstalled, and if
      that succeeds its storage class is read, and deleted if it is the program's own. A target is skipped only with
      volumes left at the deadline, and the program stops early only at a call that fails. */
  lemma EmptyIsRemoved(target: Target, events: seq<Event>, waits: nat, timeoutMs: int, outcome: Outcome)
    requires TargetRun(target, events, waits, timeoutMs, outcome)
    ensures waits < |events| && (events[waits].Counted? || events[waits].CountFailed?)
    ensures forall i | 0 <= i < waits ::
      && events[i].Counted? && Some(target.provisioner) in events[i].drivers
      && events[0].Counted? && events[i].at < events[0].at + timeoutMs
    ensures events[waits].CountFailed? ==> |events| == waits + 1 && outcome == TornFailed
    ensures events[waits].Counted? && Some(target.provisioner) in events[waits].drivers ==>
      && |events| == waits + 1 && outcome == Skipped(Count(events[waits].drivers, target.provisioner))
      && events[0].Counted? && events[waits].at >= events[0].at + timeoutMs
    ensures events[waits].Counted? && Some(target.provisioner) !in events[waits].drivers ==>
      && |events| > waits + 1 && events[waits + 1].Uninstalled? && events[waits + 1].install == target.install
      && (events[waits + 1].reply.Failed? ==> |events| == waits + 2 && outcome == TornFailed)
      && (!events[waits + 1].reply.Failed? && target.storageClass.None? ==> |events| == waits + 2 && outcome == Removed)
      && (!events[waits + 1].reply.Failed? && target.storageClass.Some? ==>
            |events| > waits + 2 && ClassIsHandled(target.storageClass.value, events[waits + 2..], outcome))
  {
    if events[waits].Counted? {
      CountZero(events[waits].drivers, target.provisioner);
    }
    forall i | 0 <= i < waits ensures events[i].Counted? && Some(target.provisioner) in events[i].drivers {
      CountZero(events[i].drivers, target.provisioner);
    }
    hide Count;
  }

  /** A class that is gone or somebody else's is left alone, one's own is deleted, and a failing call is a failure. */
  predicate ClassIsHandled(name: string, events: seq<Event>, outcome: Outcome) {
    && events != [] && events[0].ClassRead? && events[0].name == name
    && var own := "app.kubernetes.io/managed-by" in events[0].labels
                  && events[0].labels["app.kubernetes.io/managed-by"] == "kubwave-cli";
       if events[0].reply.Ok? && own then
         && |events| == 2 && events[1].ClassDeleted? && events[1].name == name
         && (outcome == TornFailed <==> events[1].reply.Failed?) && (outcome == Removed <==> !events[1].reply.Failed?)
       else |events| == 1 && outcome == if events[0].reply.Failed? then TornFailed else Removed
  }

  /** Which run an event belongs to, and where that run begins. */
  lemma {:induction false} Locate(runs: seq<seq<Event>>, i: nat) returns (k: nat, at: nat)
    requires i < |Flatten(runs)|
    ensures k < |runs| && at <= i < at + |runs[k]| <= |Flatten(runs)|
    ensures Flatten(runs)[at..at + |runs[k]|] == runs[k]
  {
    var n := |runs| - 1;
    var before := Flatten(runs[..n]);
    if i < |before| {
      k, at := Locate(runs[..n], i);
      assert Flatten(runs)[at..at + |runs[k]|] == before[at..at + |runs[k]|];
    } else {
      k, at := n, |before|;
    }
  }

  /** Over a whole teardown, whatever the cluster answers and however the targets follow each other: every uninstall and
      every deletion is safe for the target it is made for. */
  lemma RemovedOnlyWhenSafe(targets: seq<Target>, runs: seq<seq<Event>>, waits: seq<nat>, timeoutMs: int,
                            outcomes: seq<Outcome>, i: nat)
    requires |outcomes| == |runs| == |waits| == |targets| && i < |Flatten(runs)|
    requires forall k | 0 <= k < |targets| :: TargetRun(targets[k], runs[k], waits[k], timeoutMs, outcomes[k])
    ensures Flatten(runs)[i].Uninstalled? ==> exists t :: t in targets && EmptyThenUninstalled(t, Flatten(runs), i)
    ensures Flatten(runs)[i].ClassDeleted? ==> exists t :: t in targets && OwnedThenDeleted(t, Flatten(runs), i)
  {
    hide TargetRun;
    var log := Flatten(runs);
    var k, at := Locate(runs, i);
    assert forall j | 0 <= j < |runs[k]| :: log[at + j] == runs[k][j];
    RemovalIsSafe(targets[k], runs[k], waits[k], timeoutMs, outcomes[k], i - at);
    assert log[i] == runs[k][i - at];
    if log[i].Uninstalled? {
      assert log[i - 1] == runs[k][i - at - 1];
      assert EmptyThenUninstalled(targets[k], log, i);
    }
    if log[i].ClassDeleted? {
      assert log[i - 1] == runs[k][i - at - 1] && log[i - 2] == runs[k][i - at - 2] && log[i - 3] == runs[k][i - at - 3];
      assert OwnedThenDeleted(targets[k], log, i);
    }
  }

  // The program.

  /** What happens at a call: time passes, and the cluster answers or not. */
  datatype Turn = Turn(delay: nat, reply: Reply, drivers: seq<Option<string>>, labels: map<string, string>)

  /** The cluster, with a log of what the program did, the number of calls that were not answered well, and how long the
      program slept each time. */
  class Cluster {
    const turns: nat -> Turn
    var calls: nat
    var clock: int
    ghost var log: seq<Event>
    ghost var failures: nat
    ghost var naps: seq<nat>

    constructor (turns: nat -> Turn, clock: int)
      ensures this.turns == turns && this.clock == clock && log == [] && failures == 0 && naps == []
    {
      this.turns, this.calls, this.clock, this.log, this.failures, this.naps := turns, 0, clock, [], 0, [];
    }

    method Call() returns (turn: Turn)
      modifies this`calls, this`clock, this`failures
      ensures turn == turns(old(calls)) && calls == old(calls) + 1 && clock == old(clock) + turn.delay
      ensures failures == old(failures) + if turn.reply.Ok? then 0 else 1
    {
      turn := turns(calls);
      calls := calls + 1;
      failures := failures + if turn.reply.Ok? then 0 else 1;
      clock := clock + turn.delay;
    }

    method Sleep(ms: nat)
      modifies this`clock, this`naps
      ensures clock == old(clock) + (if ms < 1 then 1 else ms) && naps == old(naps) + [ms]
    {
      naps := naps + [ms];
      clock := clock + if ms < 1 then 1 else ms;
    }

    /** `countCsiPvs`: page by page over one list; any failing page fails the count. */
    method CountVolumes(provisioner: string) returns (count: Option<nat>)
      modifies this`calls, this`clock, this`failures, this`log
      ensures clock >= old(clock)
      ensures count.None? ==> log == old(log) + [CountFailed] && failures > old(failures)
      ensures count.Some? ==> failures == old(failures)
      ensures count.Some? ==>
        |log| == |old(log)| + 1 && log[..|old(log)|] == old(log) && log[|old(log)|].Counted? &&
        log[|old(log)|].at == clock && count.value == Count(log[|old(log)|].drivers, provisioner)
    {
      var first := Call();
      if !first.reply.Ok? {
        log := log + [CountFailed];
        return None;
      }
      var drivers, n, total, more := first.drivers, 0, 0, true;
      while more
        invariant n <= |drivers| && total == Count(drivers[..n], provisioner) && (!more ==> n == |drivers|)
        invariant clock >= old(clock) && log == old(log) && failures == old(failures)
        decreases |drivers| - n, more
      {
        var end := if n + PAGE < |drivers| then n + PAGE else |drivers|;
        while n < end
          invariant n <= end && total == Count(drivers[..n], provisioner)
        {
          assert drivers[..n + 1][..n] == drivers[..n];
          if drivers[n] == Some(provisioner) {
            total := total + 1;
          }
          n := n + 1;
        }
        more := n < |drivers|;
        if more {
          var next := Call();
          if !next.reply.Ok? {
            log := log + [CountFailed];
            return None;
          }
        }
      }
      assert drivers[..n] == drivers;
      log := log + [Counted(drivers, clock)];
      count := Some(total);
    }

    method Uninstall(install: Install) returns (reply: Reply)
      modifies this`calls, this`clock, this`failures, this`log
      ensures clock >= old(clock) && log == old(log) + [Uninstalled(install, reply)]
    {
      var turn := Call();
      reply := turn.reply;
      log := log + [Uninstalled(install, reply)];
    }

    /** `deleteOwnedStorageClass`. */
    method DeleteOwnedStorageClass(name: string) returns (outcome: Outcome, ghost events: seq<Event>)
      modifies this`calls, this`clock, this`failures, this`log
      ensures clock >= old(clock) && log == old(log) + events && ClassRun(Some(name), events, outcome)
    {
      var read := Call();
      events := [ClassRead(name, read.reply, read.labels)];
      log := log + events;
      if !read.reply.Ok? || !Owned(read.labels) {
        return if read.reply.Failed? then TornFailed else Removed, events;
      }
      var deletion := Call();
      outcome := if deletion.reply.Failed? then TornFailed else Removed;
      events := events + [ClassDeleted(name, deletion.reply)];
      log := log + [ClassDeleted(name, deletion.reply)];
    }
  }

  /** One turn of the loop over the targets. */
  method TearDown(cluster: Cluster, target: Target, timeoutMs: int, pollMs: nat)
    returns (outcome: Outcome, ghost events: seq<Event>, ghost waits: nat)
    modifies cluster
    ensures cluster.log == old(cluster.log) + events && TargetRun(target, events, waits, timeoutMs, outcome)
    ensures cluster.naps == old(cluster.naps) + seq(waits, _ => pollMs)
  {
    hide RemovalRun;
    ghost var from := |cluster.log|;
    waits := 0;
    var count := cluster.CountVolumes(target.provisioner);
    if count.None? {
      events := [CountFailed];
      return TornFailed, events, waits;
    }
    events := [cluster.log[from]];
    var deadline := cluster.clock + timeoutMs;
    while count.value > 0 && cluster.clock < deadline
      invariant cluster.naps == old(cluster.naps) + seq(waits, _ => pollMs)
      invariant count.Some? && |events| == waits + 1 && cluster.log == old(cluster.log) + events
      invariant events[0].Counted? && deadline == events[0].at + timeoutMs
      invariant events[waits].Counted? && events[waits].at == cluster.clock
      invariant count.value == Count(events[waits].drivers, target.provisioner)
      invariant forall i | 0 <= i < waits :: KeepsWaiting(events[i], target.provisioner, deadline)
      decreases deadline - cluster.clock
    {
      cluster.Sleep(pollMs);
      assert seq(waits, _ => pollMs) + [pollMs] == seq(waits + 1, _ => pollMs);
      ghost var before := cluster.log;
      count := cluster.CountVolumes(target.provisioner);
      events, waits := events + [cluster.log[|before|]], waits + 1;
      if count.None? {
        return TornFailed, events, waits;
      }
    }
    if count.value > 0 {
      return Skipped(count.value), events, waits;
    }
    ghost var removal;
    outcome, removal := Remove(cluster, target);
    assert (events + removal)[waits + 1..] == removal;
    events := events + removal;
  }

  method Remove(cluster: Cluster, target: Target) returns (outcome: Outcome, ghost events: seq<Event>)
    modifies cluster`calls, cluster`clock, cluster`failures, cluster`log
    ensures cluster.log == old(cluster.log) + events && RemovalRun(target, events, outcome)
  {
    var reply := cluster.Uninstall(target.install);
    events := [Uninstalled(target.install, reply)];
    if reply.Failed? {
      return TornFailed, events;
    }
    outcome := Removed;
    if target.storageClass.Some? {
      ghost var more;
      outcome, more := cluster.DeleteOwnedStorageClass(target.storageClass.value);
      assert (events + more)[1..] == more;
      events := events + more;
    }
  }

  /** `teardownCsiDrivers`: every target gets its run, whatever became of the others, and nothing else happens. */
  method TearDownDrivers(cluster: Cluster, targets: seq<Target>, timeoutMs: int, pollMs: nat)
    returns (outcomes: seq<Outcome>, ghost runs: seq<seq<Event>>, ghost waits: seq<nat>)
    modifies cluster
    ensures cluster.log == old(cluster.log) + Flatten(runs)
    ensures |outcomes| == |runs| == |waits| == |targets|
    ensures forall k | 0 <= k < |targets| :: TargetRun(targets[k], runs[k], waits[k], timeoutMs, outcomes[k])
  {
    hide TargetRun;
    outcomes, runs, waits := [], [], [];
    for k := 0 to |targets|
      invariant |outcomes| == |runs| == |waits| == k
      invariant cluster.log == old(cluster.log) + Flatten(runs)
      invariant forall j | 0 <= j < k :: TargetRun(targets[j], runs[j], waits[j], timeoutMs, outcomes[j])
    {
      ghost var events, n;
      var outcome;
      outcome, events, n := TearDown(cluster, targets[k], timeoutMs, pollMs);
      assert (runs + [events])[..k] == runs;
      outcomes, runs, waits := outcomes + [outcome], runs + [events], waits + [n];
    }
  }
}
