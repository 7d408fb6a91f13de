/** One build on the agent's docker: volumes are created and filled, stages run one after the other, and everything
    is removed at the end, wherever the build failed. */
module DockerBuild {
  import opened Wrappers
  import opened Text

  datatype Mount = Mount(name: string, path: string)
  datatype Stage = Stage(name: string, mounts: seq<Mount>)
  datatype Pod = Pod(volumes: seq<string>, stages: seq<Stage>)
  datatype Task = Task(id: string, attempt: nat, pod: Option<Pod>)

  /** What the build does, one await at a time; stages are numbered in the order they run. */
  datatype Step =
    | CreateVolume(volume: string)
    | PackFiles(container: string)
    | FillVolume(container: string)
    | CheckSignal(stage: nat)
    | Configure(stage: nat, container: string, mounts: seq<Mount>)
    | CreateContainer(stage: nat, container: string)
    | StartContainer(stage: nat, container: string)
    | Inspect(stage: nat, container: string)
    | ReadCommit(stage: nat, container: string)
    | PinSource(stage: nat)
    | RemoveContainer(container: string)
    | RemoveVolume(volume: string)

  datatype Reply = Done(output: string) | State(exitCode: int, oomKilled: bool) | Error

  datatype Event = Event(step: Step, input: string, reply: Reply)

  datatype Failure = NoStages | Canceled | OutOfMemory | Exited(stage: nat, code: int) | CommandFailed

  datatype Outcome = Built | Failed(failure: Failure)

  // Names.

  function Prefix(task: Task): string {
    "kubwave-" + task.id + "-" + Decimal(task.attempt)
  }

  function Named(prefix: string, name: string): string {
    prefix + "-" + name
  }

  function HelperName(volume: string): string {
    volume + "-init"
  }

  // The plan: every step of a build that goes well.

  function VolumeSteps(volume: string): seq<Step> {
    [CreateVolume(volume), PackFiles(HelperName(volume)), FillVolume(HelperName(volume))]
  }

  predicate Pins(stage: Stage, pins: bool) {
    stage.name == "prepare" && pins
  }

  function StageSteps(prefix: string, stage: Stage, k: nat, pins: bool): seq<Step> {
    var container := Named(prefix, stage.name);
    [CheckSignal(k), Configure(k, container, Located(prefix, stage.mounts)), CreateContainer(k, container),
     StartContainer(k, container), Inspect(k, container)]
    + if Pins(stage, pins) then [ReadCommit(k, Named(prefix, "source")), PinSource(k)] else []
  }

  /** Mounts with the volumes they stand for. */
  function Located(prefix: string, mounts: seq<Mount>): (located: seq<Mount>)
    ensures |located| == |mounts|
  {
    seq(|mounts|, i requires 0 <= i < |mounts| => Mount(Named(prefix, mounts[i].name), mounts[i].path))
  }

  function VolumesPlan(prefix: string, volumes: seq<string>): seq<Step> {
    if volumes == [] then []
    else VolumesPlan(prefix, volumes[..|volumes| - 1]) + VolumeSteps(Named(prefix, volumes[|volumes| - 1]))
  }

  function StagesPlan(prefix: string, stages: seq<Stage>, pins: bool): seq<Step> {
    if stages == [] then []
    else
      var n := |stages| - 1;
      StagesPlan(prefix, stages[..n], pins) + StageSteps(prefix, stages[n], n, pins)
  }

  function Plan(prefix: string, pod: Pod, pins: bool): seq<Step> {
    VolumesPlan(prefix, pod.volumes) + StagesPlan(prefix, pod.stages, pins)
  }

  // What has to be removed.

  /** The volumes and containers a list of steps has recorded: each before the step that creates it. */
  function Volumes(steps: seq<Step>): seq<string> {
    if steps == [] then [] else WithVolume(Volumes(steps[..|steps| - 1]), steps[|steps| - 1])
  }

  function WithVolume(volumes: seq<string>, step: Step): seq<string> {
    if step.CreateVolume? && step.volume !in volumes then volumes + [step.volume] else volumes
  }

  function Containers(steps: seq<Step>): seq<string> {
    if steps == [] then [] else WithContainer(Containers(steps[..|steps| - 1]), steps[|steps| - 1])
  }

  function WithContainer(containers: seq<string>, step: Step): seq<string> {
    if step.PackFiles? || step.Configure? || step.ReadCommit? then containers + [step.container] else containers
  }

  function Removals(steps: seq<Step>): (r: seq<Step>)
    ensures |r| == |Containers(steps)| + |Volumes(steps)|
  {
    var containers, volumes := Containers(steps), Volumes(steps);
    seq(|containers|, i requires 0 <= i < |containers| => RemoveContainer(containers[i]))
    + seq(|volumes|, i requires 0 <= i < |volumes| => RemoveVolume(volumes[i]))
  }

  // Runs.

  function Steps(log: seq<Event>): (steps: seq<Step>)
    ensures |steps| == |log|
  {
    seq(|log|, i requires 0 <= i < |log| => log[i].step)
  }

  /** A step went well. */
  predicate Good(e: Event) {
    if e.step.Inspect? then e.reply.State? && !e.reply.oomKilled && e.reply.exitCode == 0 else e.reply.Done?
  }

  predicate AllGood(log: seq<Event>) {
    forall i | 0 <= i < |log| :: Good(log[i])
  }

  /** Why a step that did not go well ends the build. */
  function Reason(e: Event): Failure {
    if e.step.CheckSignal? then Canceled
    else if e.step.Inspect? && e.reply.State? then
      if e.reply.oomKilled then OutOfMemory else Exited(e.step.stage, e.reply.exitCode)
    else CommandFailed
  }

  /** The commit that is pinned is the one that was read. */
  predicate CommitsMatch(log: seq<Event>) {
    forall i | 0 < i < |log| && log[i].step.PinSource? ::
      log[i - 1].reply.Done? && log[i].input == Trim(log[i - 1].reply.output)
  }

  /** The working part of a build: the plan up to its end or its first failure. */
  predicate Worked(plan: seq<Step>, work: seq<Event>, outcome: Outcome) {
    && Steps(work) <= plan && CommitsMatch(work)
    && match outcome
       case Built => |work| == |plan| && AllGood(work)
       case Failed(f) =>
         work != [] && AllGood(work[..|work| - 1]) && !Good(work[|work| - 1]) && f == Reason(work[|work| - 1])
  }

  /** A whole build: its working part, and then the removal of all it recorded, containers before volumes. */
  predicate Executed(plan: seq<Step>, log: seq<Event>, work: nat, outcome: Outcome) {
    && work <= |log| && Worked(plan, log[..work], outcome)
    && Steps(log[work..]) == Removals(Steps(log[..work]))
  }

  /** Commands that are given the abort signal: the removals, inspections and the program's own steps are not. */
  predicate Signalled(step: Step) {
    step.CreateVolume? || step.FillVolume? || step.CreateContainer? || step.StartContainer? || step.ReadCommit?
  }

  predicate Aborted(abortAt: Option<nat>, n: nat) {
    abortAt.Some? && abortAt.value <= n
  }

  /** From step `abortAt` on the signal is set, for good: the program sees it, and commands that are given it fail. */
  predicate HonoursSignal(log: seq<Event>, abortAt: Option<nat>) {
    forall i | 0 <= i < |log| ::
      && (Signalled(log[i].step) && Aborted(abortAt, i) ==> log[i].reply.Error?)
      && (log[i].step.CheckSignal? ==> (log[i].reply.Done? <==> !Aborted(abortAt, i)))
  }

  /** A mount is of a volume that was created, at an absolute path without a comma. */
  predicate MountFits(mount: Mount, log: seq<Event>) {
    && (exists j :: 0 <= j < |log| && log[j].step == CreateVolume(mount.name))
    && mount.path != "" && mount.path[0] == '/' && ',' !in mount.path
  }

  /** A container is configured exactly with mounts that fit. */
  predicate MountsChecked(log: seq<Event>) {
    forall i | 0 <= i < |log| && log[i].step.Configure? ::
      log[i].reply.Done? <==> forall m | m in log[i].step.mounts :: MountFits(m, log[..i])
  }

  lemma OneMoreChecked(log: seq<Event>, e: Event)
    requires MountsChecked(log)
    requires e.step.Configure? ==> (e.reply.Done? <==> forall m | m in e.step.mounts :: MountFits(m, log))
    ensures MountsChecked(log + [e])
  {
    hide MountFits;
    assert forall i | 0 <= i <= |log| :: (log + [e])[..i] == log[..i];
    assert log[..|log|] == log;
  }

  /** The docker daemon and the server, answering in any way, and the signal, set at any time. */
  class Host {
    const answers: (nat, Step) -> Reply
    const abortAt: Option<nat>
    var log: seq<Event>

    ghost predicate Valid()
      reads this
    {
      HonoursSignal(log, abortAt) && MountsChecked(log)
    }

    constructor (answers: (nat, Step) -> Reply, abortAt: Option<nat>)
      ensures this.answers == answers && this.abortAt == abortAt && log == [] && Valid()
    {
      this.answers, this.abortAt, log := answers, abortAt, [];
    }

    method Do(step: Step, input: string) returns (reply: Reply)
      requires Valid() && !step.Configure?
      modifies this
      ensures Valid() && log == old(log) + [Event(step, input, reply)]
      ensures
        var aborted := Aborted(abortAt, |old(log)|);
        reply ==
          if step.CheckSignal? then if aborted then Error else Done("")
          else if aborted && (step.CreateVolume? || step.FillVolume? || step.CreateContainer? || step.StartContainer?
                              || step.ReadCommit?) then Error
          else answers(|old(log)|, step)
    {
      var aborted := Aborted(abortAt, |log|);
      reply :=
        if step.CheckSignal? then if aborted then Error else Done("")
        else if Signalled(step) && aborted then Error
        else answers(|log|, step);
      OneMoreChecked(log, Event(step, input, reply));
      hide MountsChecked;
      log := log + [Event(step, input, reply)];
    }

    /** A check of the program's own. */
    method Check(step: Step, good: bool)
      requires Valid() && step.Configure? && (good <==> forall m | m in step.mounts :: MountFits(m, log))
      modifies this
      ensures Valid() && log == old(log) + [Event(step, "", if good then Done("") else Error)]
    {
      OneMoreChecked(log, Event(step, "", if good then Done("") else Error));
      hide MountsChecked;
      log := log + [Event(step, "", if good then Done("") else Error)];
    }
  }

  /** Mounts name a volume of the build and an absolute path without a comma. */
  predicate MountsValid(mounts: seq<Mount>, volumes: seq<string>) {
    forall m | m in mounts :: m.name in volumes && m.path != "" && m.path[0] == '/' && ',' !in m.path
  }

  lemma {:induction false} VolumesAreCreated(steps: seq<Step>, volume: string)
    ensures volume in Volumes(steps) <==> exists j :: 0 <= j < |steps| && steps[j] == CreateVolume(volume)
  {
    if steps != [] {
      var n := |steps| - 1;
      VolumesAreCreated(steps[..n], volume);
      assert steps[n] == CreateVolume(volume) ==> volume in Volumes(steps);
      assert forall j | 0 <= j < n :: steps[..n][j] == steps[j];
    }
  }

  lemma ValidMountsFit(mounts: seq<Mount>, log: seq<Event>)
    ensures MountsValid(mounts, Volumes(Steps(log))) <==> forall m | m in mounts :: MountFits(m, log)
  {
    hide Volumes;
    forall m | m in mounts
      ensures m.name in Volumes(Steps(log)) <==> exists j :: 0 <= j < |log| && log[j].step == CreateVolume(m.name)
    {
      VolumesAreCreated(Steps(log), m.name);
      assert forall j | 0 <= j < |log| :: Steps(log)[j] == log[j].step;
    }
  }

  // What one more step means for the plan and for the records.

  /** A good start of the plan. */
  predicate Going(plan: seq<Step>, work: seq<Event>) {
    Steps(work) <= plan && AllGood(work) && CommitsMatch(work)
  }

  predicate CommitMatches(work: seq<Event>, e: Event) {
    e.step.PinSource? ==>
      work != [] && work[|work| - 1].reply.Done? && e.input == Trim(work[|work| - 1].reply.output)
  }

  lemma Advance(plan: seq<Step>, work: seq<Event>, e: Event)
    requires Going(plan, work) && |work| < |plan| && plan[|work|] == e.step && CommitMatches(work, e)
    ensures Good(e) ==> Going(plan, work + [e])
    ensures !Good(e) ==> Worked(plan, work + [e], Failed(Reason(e)))
  {
    hide Good, Reason, CommitsMatch, CommitMatches;
    CommitsGrow(work, e);
    assert (work + [e])[..|work|] == work;
  }

  lemma CommitsGrow(work: seq<Event>, e: Event)
    requires CommitsMatch(work) && CommitMatches(work, e)
    ensures CommitsMatch(work + [e])
  {
    hide Trim;
  }

  lemma Record(log: seq<Event>, e: Event)
    ensures Volumes(Steps(log + [e])) == WithVolume(Volumes(Steps(log)), e.step)
    ensures Containers(Steps(log + [e])) == WithContainer(Containers(Steps(log)), e.step)
  {
    hide WithVolume, WithContainer;
    var steps := Steps(log + [e]);
    assert steps[..|steps| - 1] == Steps(log) && steps[|steps| - 1] == e.step;
  }

  /** Where in the plan a volume's steps are, and a stage's. */
  lemma {:induction false} VolumeAt(prefix: string, volumes: seq<string>, i: nat)
    requires i < |volumes|
    ensures |VolumesPlan(prefix, volumes)| == 3 * |volumes|
    ensures VolumesPlan(prefix, volumes)[3 * i..3 * i + 3] == VolumeSteps(Named(prefix, volumes[i]))
  {
    hide Named;
    var n := |volumes| - 1;
    if n == 0 {
      assert VolumesPlan(prefix, volumes[..0]) == [];
    } else {
      VolumeAt(prefix, volumes[..n], if i < n then i else 0);
    }
  }

  function StageStart(prefix: string, stages: seq<Stage>, pins: bool, k: nat): nat
    requires k <= |stages|
  {
    |StagesPlan(prefix, stages[..k], pins)|
  }

  lemma {:induction false} StageAt(prefix: string, stages: seq<Stage>, pins: bool, k: nat)
    requires k < |stages|
    ensures
      var plan, steps := StagesPlan(prefix, stages, pins), StageSteps(prefix, stages[k], k, pins);
      var at := StageStart(prefix, stages, pins, k);
      && StageStart(prefix, stages, pins, k + 1) == at + |steps| <= |plan|
      && plan[at..at + |steps|] == steps
  {
    hide StageSteps;
    var n := |stages| - 1;
    assert stages[..n + 1] == stages;
    if k < n {
      StageAt(prefix, stages[..n], pins, k);
      assert stages[..n][..k] == stages[..k] && stages[..n][..k + 1] == stages[..k + 1];
    }
  }

  lemma VolumeShape(plan: seq<Step>, at: nat, name: string)
    requires at + 3 <= |plan| && plan[at..at + 3] == VolumeSteps(name)
    ensures plan[at] == CreateVolume(name)
    ensures plan[at + 1] == PackFiles(HelperName(name)) && plan[at + 2] == FillVolume(HelperName(name))
  {
  }

  /** A stage's steps are at a place in the plan. */
  predicate StageIsAt(plan: seq<Step>, at: nat, prefix: string, stage: Stage, k: nat, pins: bool) {
    var steps := StageSteps(prefix, stage, k, pins);
    at + |steps| <= |plan| && plan[at..at + |steps|] == steps
  }

  lemma StageShape(plan: seq<Step>, at: nat, prefix: string, stage: Stage, k: nat, pins: bool)
    requires StageIsAt(plan, at, prefix, stage, k, pins)
    ensures
      var name := Named(prefix, stage.name);
      && at + (if Pins(stage, pins) then 7 else 5) == at + |StageSteps(prefix, stage, k, pins)| <= |plan|
      && plan[at] == CheckSignal(k) && plan[at + 1] == Configure(k, name, Located(prefix, stage.mounts))
      && plan[at + 2] == CreateContainer(k, name) && plan[at + 3] == StartContainer(k, name)
      && plan[at + 4] == Inspect(k, name)
    ensures Pins(stage, pins) ==> plan[at + 5] == ReadCommit(k, Named(prefix, "source")) && plan[at + 6] == PinSource(k)
  {
    hide Named, Pins;
    var steps := StageSteps(prefix, stage, k, pins);
    assert forall i | 0 <= i < |steps| :: plan[at + i] == steps[i];
  }

  // The program.

  lemma Took(plan: seq<Step>, work: seq<Event>, e: Event)
    requires Going(plan, work) && |work| < |plan| && plan[|work|] == e.step && CommitMatches(work, e)
    ensures Good(e) ==> Going(plan, work + [e])
    ensures !Good(e) ==> Worked(plan, work + [e], Failed(Reason(e)))
    ensures Volumes(Steps(work + [e])) == WithVolume(Volumes(Steps(work)), e.step)
    ensures Containers(Steps(work + [e])) == WithContainer(Containers(Steps(work)), e.step)
  {
    hide Going, Worked, Good, Reason, Steps, Volumes, Containers;
    Advance(plan, work, e);
    Record(work, e);
  }

  /** One command or check; what it says but for failing is of no interest. */
  method Attempt(host: Host, step: Step, ghost plan: seq<Step>) returns (done: bool)
    requires host.Valid() && Going(plan, host.log) && |host.log| < |plan| && plan[|host.log|] == step
    requires !step.Inspect? && !step.ReadCommit? && !step.PinSource? && !step.Configure?
    modifies host
    ensures host.Valid() && |host.log| == old(|host.log|) + 1
    ensures done ==> Going(plan, host.log)
    ensures !done ==> Worked(plan, host.log, Failed(if step.CheckSignal? then Canceled else CommandFailed))
    ensures Volumes(Steps(host.log)) == WithVolume(old(Volumes(Steps(host.log))), step)
    ensures Containers(Steps(host.log)) == WithContainer(old(Containers(Steps(host.log))), step)
  {
    hide Going, Worked, Steps, Volumes, Containers, HonoursSignal, MountsChecked, WithVolume, WithContainer;
    var reply := host.Do(step, "");
    Took(plan, old(host.log), Event(step, "", reply));
    done := reply.Done?;
  }

  /** One turn of the loop over the volumes. */
  method PrepareVolume(host: Host, name: string, volumes: seq<string>, containers: seq<string>, ghost plan: seq<Step>)
    returns (outcome: Outcome, newVolumes: seq<string>, newContainers: seq<string>)
    requires host.Valid() && Going(plan, host.log)
    requires volumes == Volumes(Steps(host.log)) && containers == Containers(Steps(host.log))
    requires |host.log| + 3 <= |plan| && plan[|host.log|] == CreateVolume(name)
    requires plan[|host.log| + 1] == PackFiles(HelperName(name)) && plan[|host.log| + 2] == FillVolume(HelperName(name))
    modifies host
    ensures host.Valid()
    ensures outcome.Built? ==> Going(plan, host.log) && |host.log| == old(|host.log|) + 3
    ensures outcome.Failed? ==> Worked(plan, host.log, outcome)
    ensures newVolumes == Volumes(Steps(host.log)) && newContainers == Containers(Steps(host.log))
  {
    hide Going, Worked, HelperName, Volumes, Containers, Steps, HonoursSignal, MountsChecked;
    var helper := HelperName(name);
    outcome := Failed(CommandFailed);

    newVolumes, newContainers := if name in volumes then volumes else volumes + [name], containers;
    var done := Attempt(host, CreateVolume(name), plan);
    if !done {
      return;
    }

    newContainers := newContainers + [helper];
    done := Attempt(host, PackFiles(helper), plan);
    if !done {
      return;
    }
    done := Attempt(host, FillVolume(helper), plan);
    outcome := if done then Built else outcome;
  }

  /** One turn of the loop over the stages. */
  method RunStage(host: Host, prefix: string, stage: Stage, k: nat, pins: bool, volumes: seq<string>,
                  containers: seq<string>, ghost plan: seq<Step>)
    returns (outcome: Outcome, newContainers: seq<string>)
    requires host.Valid() && Going(plan, host.log)
    requires volumes == Volumes(Steps(host.log)) && containers == Containers(Steps(host.log))
    requires StageIsAt(plan, |host.log|, prefix, stage, k, pins)
    modifies host
    ensures host.Valid()
    ensures outcome.Built? ==> Going(plan, host.log) && |host.log| == old(|host.log|) + |StageSteps(prefix, stage, k, pins)|
    ensures outcome.Failed? ==> Worked(plan, host.log, outcome)
    ensures volumes == Volumes(Steps(host.log)) && newContainers == Containers(Steps(host.log))
  {
    StageShape(plan, |host.log|, prefix, stage, k, pins);
    hide Going, Worked, Volumes, Containers, Steps, Prefix, StageSteps, StageIsAt, Named, Located, HonoursSignal, MountsChecked;
    var mounts := Located(prefix, stage.mounts);
    outcome, newContainers := RunContainer(host, Named(prefix, stage.name), k, mounts, volumes, containers, plan);
    if outcome.Built? && stage.name == "prepare" && pins {
      outcome, newContainers := PinCommit(host, Named(prefix, "source"), k, newContainers, plan);
    }
  }

  /** The container of a stage is created, runs, and is asked how it ended. */
  method RunContainer(host: Host, name: string, k: nat, mounts: seq<Mount>, volumes: seq<string>,
                      containers: seq<string>, ghost plan: seq<Step>)
    returns (outcome: Outcome, newContainers: seq<string>)
    requires host.Valid() && Going(plan, host.log) && containers == Containers(Steps(host.log)) && |host.log| + 5 <= |plan|
    requires volumes == Volumes(Steps(host.log))
    requires plan[|host.log|] == CheckSignal(k) && plan[|host.log| + 1] == Configure(k, name, mounts)
    requires plan[|host.log| + 2] == CreateContainer(k, name) && plan[|host.log| + 3] == StartContainer(k, name)
    requires plan[|host.log| + 4] == Inspect(k, name)
    modifies host
    ensures host.Valid()
    ensures outcome.Built? ==> Going(plan, host.log) && |host.log| == old(|host.log|) + 5
    ensures outcome.Failed? ==> Worked(plan, host.log, outcome)
    ensures Volumes(Steps(host.log)) == old(Volumes(Steps(host.log))) && newContainers == Containers(Steps(host.log))
  {
    hide Going, Worked, Volumes, Containers, Steps, HonoursSignal, MountsChecked;
    outcome, newContainers := Failed(CommandFailed), containers;
    var done := Attempt(host, CheckSignal(k), plan);
    if !done {
      return Failed(Canceled), newContainers;
    }

    newContainers := newContainers + [name];
    ghost var before := host.log;
    var mountsValid := MountsValid(mounts, volumes);
    ValidMountsFit(mounts, before);
    host.Check(Configure(k, name, mounts), mountsValid);
    Took(plan, before, Event(Configure(k, name, mounts), "", if mountsValid then Done("") else Error));
    if !mountsValid {
      return;
    }
    done := Attempt(host, CreateContainer(k, name), plan);
    if !done {
      return;
    }
    done := Attempt(host, StartContainer(k, name), plan);
    if !done {
      return;
    }

    before := host.log;
    var reply := host.Do(Inspect(k, name), "");
    Took(plan, before, Event(Inspect(k, name), "", reply));
    if reply.State? {
      outcome :=
        if reply.oomKilled then Failed(OutOfMemory)
        else if reply.exitCode != 0 then Failed(Exited(k, reply.exitCode))
        else Built;
    }
  }

  /** The commit the prepare stage checked out is read and pinned. */
  method PinCommit(host: Host, name: string, k: nat, containers: seq<string>, ghost plan: seq<Step>)
    returns (outcome: Outcome, newContainers: seq<string>)
    requires host.Valid() && Going(plan, host.log) && containers == Containers(Steps(host.log)) && |host.log| + 2 <= |plan|
    requires plan[|host.log|] == ReadCommit(k, name) && plan[|host.log| + 1] == PinSource(k)
    modifies host
    ensures host.Valid()
    ensures outcome.Built? ==> Going(plan, host.log) && |host.log| == old(|host.log|) + 2
    ensures outcome.Failed? ==> Worked(plan, host.log, outcome)
    ensures Volumes(Steps(host.log)) == old(Volumes(Steps(host.log))) && newContainers == Containers(Steps(host.log))
  {
    hide Going, Worked, Volumes, Containers, Steps, HonoursSignal, MountsChecked;
    ghost var before := host.log;
    outcome, newContainers := Failed(CommandFailed), containers + [name];
    var reply := host.Do(ReadCommit(k, name), "");
    Took(plan, before, Event(ReadCommit(k, name), "", reply));
    if !reply.Done? {
      return;
    }
    before := host.log;
    var commit := Trim(reply.output);
    reply := host.Do(PinSource(k), commit);
    Took(plan, before, Event(PinSource(k), commit, reply));
    if reply.Done? {
      outcome := Built;
    }
  }

  /** `executeBuild`: whatever docker and the server answer, the build follows its plan up to the first failure and
      then removes all it has recorded. */
  method ExecuteBuild(host: Host, task: Task, pins: bool) returns (outcome: Outcome, ghost work: nat)
    requires host.log == [] && host.Valid()
    modifies host
    ensures host.Valid()
    ensures task.pod.None? ==> outcome == Failed(NoStages) && host.log == []
    ensures task.pod.Some? ==> Executed(Plan(Prefix(task), task.pod.value, pins), host.log, work, outcome)
  {
    work := 0;
    if task.pod.None? {
      return Failed(NoStages), 0;
    }
    var prefix, pod := Prefix(task), task.pod.value;
    hide Prefix, Plan, VolumesPlan, HonoursSignal, Going, Worked, Volumes, Containers;
    var volumes: seq<string>, containers: seq<string>;
    outcome, volumes, containers := PrepareVolumes(host, prefix, pod, pins);
    if outcome.Built? {
      outcome, containers := RunStages(host, prefix, pod, pins, volumes, containers);
    }
    work := |host.log|;
    assert host.log[..work] == host.log;
    RemoveAll(host, containers, volumes);
  }

  method PrepareVolumes(host: Host, prefix: string, pod: Pod, pins: bool)
    returns (outcome: Outcome, volumes: seq<string>, containers: seq<string>)
    requires host.log == [] && host.Valid()
    modifies host
    ensures host.Valid() && volumes == Volumes(Steps(host.log)) && containers == Containers(Steps(host.log))
    ensures outcome.Built? ==>
      Going(Plan(prefix, pod, pins), host.log) && |host.log| == |VolumesPlan(prefix, pod.volumes)|
    ensures outcome.Failed? ==> Worked(Plan(prefix, pod, pins), host.log, outcome)
  {
    ghost var plan := Plan(prefix, pod, pins);
    NothingDone(plan);
    hide Going, Worked, Volumes, Containers, Steps, Plan, HonoursSignal, VolumeSteps, Named, HelperName;
    volumes, containers, outcome := [], [], Built;
    var i := 0;
    while i < |pod.volumes| && outcome.Built?
      invariant i <= |pod.volumes| && host.Valid()
      invariant volumes == Volumes(Steps(host.log)) && containers == Containers(Steps(host.log))
      invariant outcome.Built? ==> Going(plan, host.log) && |host.log| == 3 * i
      invariant outcome.Failed? ==> Worked(plan, host.log, outcome)
    {
      VolumeInPlan(prefix, pod, pins, i);
      VolumeShape(plan, 3 * i, Named(prefix, pod.volumes[i]));
      outcome, volumes, containers := PrepareVolume(host, Named(prefix, pod.volumes[i]), volumes, containers, plan);
      i := i + 1;
    }
    VolumesPlanLength(prefix, pod.volumes);
  }

  lemma NothingDone(plan: seq<Step>)
    ensures Going(plan, []) && Volumes(Steps([])) == [] && Containers(Steps([])) == []
  {
  }

  method RunStages(host: Host, prefix: string, pod: Pod, pins: bool, volumes: seq<string>, containers: seq<string>)
    returns (outcome: Outcome, newContainers: seq<string>)
    requires host.Valid() && volumes == Volumes(Steps(host.log)) && containers == Containers(Steps(host.log))
    requires Going(Plan(prefix, pod, pins), host.log) && |host.log| == |VolumesPlan(prefix, pod.volumes)|
    modifies host
    ensures host.Valid() && volumes == Volumes(Steps(host.log)) && newContainers == Containers(Steps(host.log))
    ensures Worked(Plan(prefix, pod, pins), host.log, outcome)
  {
    ghost var plan, first := Plan(prefix, pod, pins), |host.log|;
    assert StageStart(prefix, pod.stages, pins, 0) == 0;
    AllStages(prefix, pod, pins);
    hide Going, Worked, Volumes, Containers, Steps, Plan, HonoursSignal, StageSteps, StageStart, Named;
    newContainers, outcome := containers, Built;
    var k := 0;
    while k < |pod.stages| && outcome.Built?
      invariant k <= |pod.stages| && host.Valid()
      invariant volumes == Volumes(Steps(host.log)) && newContainers == Containers(Steps(host.log))
      invariant outcome.Built? ==> Going(plan, host.log) && |host.log| == first + StageStart(prefix, pod.stages, pins, k)
      invariant outcome.Failed? ==> Worked(plan, host.log, outcome)
    {
      StageInPlan(prefix, pod, pins, k);
      outcome, newContainers := RunStage(host, prefix, pod.stages[k], k, pins, volumes, newContainers, plan);
      k := k + 1;
    }
    if outcome.Built? {
      GoingToTheEnd(plan, host.log);
    }
  }

  lemma AllStages(prefix: string, pod: Pod, pins: bool)
    ensures |Plan(prefix, pod, pins)|
      == |VolumesPlan(prefix, pod.volumes)| + StageStart(prefix, pod.stages, pins, |pod.stages|)
  {
    assert pod.stages[..|pod.stages|] == pod.stages;
  }

  lemma VolumesPlanLength(prefix: string, volumes: seq<string>)
    ensures |VolumesPlan(prefix, volumes)| == 3 * |volumes|
  {
  }

  lemma VolumeInPlan(prefix: string, pod: Pod, pins: bool, i: nat)
    requires i < |pod.volumes|
    ensures
      var plan := Plan(prefix, pod, pins);
      3 * i + 3 <= |plan| && plan[3 * i..3 * i + 3] == VolumeSteps(Named(prefix, pod.volumes[i]))
  {
    VolumeAt(prefix, pod.volumes, i);
    hide VolumeSteps, VolumesPlan, StagesPlan, Named;
    var volumes := VolumesPlan(prefix, pod.volumes);
    assert Plan(prefix, pod, pins)[3 * i..3 * i + 3] == volumes[3 * i..3 * i + 3];
  }

  lemma StageInPlan(prefix: string, pod: Pod, pins: bool, k: nat)
    requires k < |pod.stages|
    ensures
      var plan, steps := Plan(prefix, pod, pins), StageSteps(prefix, pod.stages[k], k, pins);
      var at := |VolumesPlan(prefix, pod.volumes)| + StageStart(prefix, pod.stages, pins, k);
      && at + |steps| == |VolumesPlan(prefix, pod.volumes)| + StageStart(prefix, pod.stages, pins, k + 1) <= |plan|
      && StageIsAt(plan, at, prefix, pod.stages[k], k, pins)
  {
    hide StageSteps, VolumesPlan, StagesPlan, StageStart;
    StageAt(prefix, pod.stages, pins, k);
    var stages, n := StagesPlan(prefix, pod.stages, pins), |VolumesPlan(prefix, pod.volumes)|;
    var from, to := StageStart(prefix, pod.stages, pins, k), StageStart(prefix, pod.stages, pins, k + 1);
    assert Plan(prefix, pod, pins)[n + from..n + to] == stages[from..to];
  }

  lemma GoingToTheEnd(plan: seq<Step>, work: seq<Event>)
    requires Going(plan, work) && |work| == |plan|
    ensures Worked(plan, work, Built)
  {
  }

  /** The `finally` block: failures are ignored. */
  method RemoveAll(host: Host, containers: seq<string>, volumes: seq<string>)
    requires host.Valid() && containers == Containers(Steps(host.log)) && volumes == Volumes(Steps(host.log))
    modifies host
    ensures host.Valid()
    ensures |host.log| >= |old(host.log)| && host.log[..|old(host.log)|] == old(host.log)
    ensures Steps(host.log[|old(host.log)|..]) == Removals(Steps(old(host.log)))
  {
    ghost var work, removals := host.log, Removals(Steps(host.log));
    hide Containers, Volumes, HonoursSignal, MountsChecked;
    for i := 0 to |containers|
      invariant host.Valid()
      invariant |host.log| == |work| + i && host.log[..|work|] == work
      invariant forall j | 0 <= j < i :: host.log[|work| + j].step == removals[j]
    {
      var _ := host.Do(RemoveContainer(containers[i]), "");
    }
    for i := 0 to |volumes|
      invariant host.Valid()
      invariant |host.log| == |work| + |containers| + i && host.log[..|work|] == work
      invariant forall j | 0 <= j < |containers| + i :: host.log[|work| + j].step == removals[j]
    {
      var _ := host.Do(RemoveVolume(volumes[i]), "");
    }
  }

  // What every build keeps.

  /** Steps that may leave something behind: what they create was recorded before. */
  predicate Creates(step: Step, container: string) {
    (step.FillVolume? || step.CreateContainer? || step.ReadCommit?) && step.container == container
  }

  predicate Records(step: Step, container: string) {
    (step.PackFiles? || step.Configure? || step.ReadCommit?) && step.container == container
  }

  /** Containers are recorded before they are created. */
  predicate RecordedFirst(steps: seq<Step>) {
    forall i | 0 <= i < |steps| && (steps[i].FillVolume? || steps[i].CreateContainer?) ::
      i > 0 && Records(steps[i - 1], steps[i].container)
  }

  lemma {:induction false} VolumesRecordFirst(prefix: string, volumes: seq<string>)
    ensures RecordedFirst(VolumesPlan(prefix, volumes))
  {
    hide Named, HelperName;
    if volumes != [] {
      VolumesRecordFirst(prefix, volumes[..|volumes| - 1]);
    }
  }

  lemma {:induction false} StagesRecordFirst(prefix: string, stages: seq<Stage>, pins: bool)
    ensures RecordedFirst(StagesPlan(prefix, stages, pins))
  {
    hide Named, Pins;
    if stages != [] {
      StagesRecordFirst(prefix, stages[..|stages| - 1], pins);
    }
  }

  lemma PlanRecordsFirst(prefix: string, pod: Pod, pins: bool)
    ensures RecordedFirst(Plan(prefix, pod, pins))
  {
    VolumesRecordFirst(prefix, pod.volumes);
    StagesRecordFirst(prefix, pod.stages, pins);
    hide VolumesPlan, StagesPlan;
  }

  lemma {:induction false} IsRecorded(steps: seq<Step>, i: nat, container: string)
    requires i < |steps| && Records(steps[i], container)
    ensures container in Containers(steps)
  {
    if i < |steps| - 1 {
      IsRecorded(steps[..|steps| - 1], i, container);
    }
  }

  lemma {:induction false} VolumeIsRecorded(steps: seq<Step>, i: nat)
    requires i < |steps| && steps[i].CreateVolume?
    ensures steps[i].volume in Volumes(steps)
  {
    if i < |steps| - 1 {
      VolumeIsRecorded(steps[..|steps| - 1], i);
    }
  }

  lemma CreatedIsRecorded(plan: seq<Step>, steps: seq<Step>, i: nat, container: string)
    requires RecordedFirst(plan) && steps <= plan && i < |steps| && Creates(steps[i], container)
    ensures container in Containers(steps)
  {
  }

  lemma RemovedAt(log: seq<Event>, work: nat, j: nat)
    requires work <= |log| && Steps(log[work..]) == Removals(Steps(log[..work]))
    requires j < |log| - work
    ensures
      var containers, volumes := Containers(Steps(log[..work])), Volumes(Steps(log[..work]));
      && |log| - work == |containers| + |volumes|
      && log[work + j].step ==
         if j < |containers| then RemoveContainer(containers[j]) else RemoveVolume(volumes[j - |containers|])
  {
    hide Containers, Volumes;
    assert Steps(log[work..])[j] == log[work + j].step;
  }

  /** Cleanup: wherever a build ends, every container and volume that it tried to create is removed afterwards. */
  lemma CreatedIsRemoved(prefix: string, pod: Pod, pins: bool, log: seq<Event>, work: nat, outcome: Outcome, i: nat)
    requires Executed(Plan(prefix, pod, pins), log, work, outcome) && i < |log|
    ensures log[i].step.FillVolume? || log[i].step.CreateContainer? || log[i].step.ReadCommit? ==>
      exists j :: i < j < |log| && log[j].step == RemoveContainer(log[i].step.container)
    ensures log[i].step.CreateVolume? ==> exists j :: i < j < |log| && log[j].step == RemoveVolume(log[i].step.volume)
  {
    var steps := Steps(log[..work]);
    PlanRecordsFirst(prefix, pod, pins);
    hide Plan, RecordedFirst, Containers, Volumes, Removals;
    if i >= work {
      RemovedAt(log, work, i - work);
    } else {
      assert steps[i] == log[i].step;
      if log[i].step.FillVolume? || log[i].step.CreateContainer? || log[i].step.ReadCommit? {
        var c := log[i].step.container;
        CreatedIsRecorded(Plan(prefix, pod, pins), steps, i, c);
        var j :| 0 <= j < |Containers(steps)| && Containers(steps)[j] == c;
        RemovalsLength(log, work);
        RemovedAt(log, work, j);
        assert log[work + j].step == RemoveContainer(c);
      }
      if log[i].step.CreateVolume? {
        VolumeIsRecorded(steps, i);
        var j :| 0 <= j < |Volumes(steps)| && Volumes(steps)[j] == log[i].step.volume;
        RemovalsLength(log, work);
        RemovedAt(log, work, |Containers(steps)| + j);
        assert log[work + |Containers(steps)| + j].step == RemoveVolume(log[i].step.volume);
      }
    }
  }

  lemma RemovalsLength(log: seq<Event>, work: nat)
    requires work <= |log| && Steps(log[work..]) == Removals(Steps(log[..work]))
    ensures |log| - work == |Containers(Steps(log[..work]))| + |Volumes(Steps(log[..work]))|
  {
  }

  predicate Removes(step: Step) {
    step.RemoveContainer? || step.RemoveVolume?
  }

  lemma {:induction false} PlanRemovesNothing(prefix: string, pod: Pod, pins: bool)
    ensures forall i | 0 <= i < |Plan(prefix, pod, pins)| :: !Removes(Plan(prefix, pod, pins)[i])
  {
    VolumesRemoveNothing(prefix, pod.volumes);
    StagesRemoveNothing(prefix, pod.stages, pins);
  }

  lemma {:induction false} VolumesRemoveNothing(prefix: string, volumes: seq<string>)
    ensures forall i | 0 <= i < |VolumesPlan(prefix, volumes)| :: !Removes(VolumesPlan(prefix, volumes)[i])
  {
    if volumes != [] {
      VolumesRemoveNothing(prefix, volumes[..|volumes| - 1]);
    }
  }

  lemma {:induction false} StagesRemoveNothing(prefix: string, stages: seq<Stage>, pins: bool)
    ensures forall i | 0 <= i < |StagesPlan(prefix, stages, pins)| :: !Removes(StagesPlan(prefix, stages, pins)[i])
  {
    hide Named, Pins;
    if stages != [] {
      StagesRemoveNothing(prefix, stages[..|stages| - 1], pins);
    }
  }

  /** Cleanup order: once something is removed nothing else happens, and containers go before volumes. */
  lemma ContainersBeforeVolumes(prefix: string, pod: Pod, pins: bool, log: seq<Event>, work: nat, outcome: Outcome,
                                i: nat, j: nat)
    requires Executed(Plan(prefix, pod, pins), log, work, outcome) && i < j < |log|
    requires log[i].step.RemoveContainer? || log[i].step.RemoveVolume?
    ensures log[j].step.RemoveContainer? || log[j].step.RemoveVolume?
    ensures log[i].step.RemoveVolume? ==> log[j].step.RemoveVolume?
  {
    WorkRemovesNothing(prefix, pod, pins, log, work, outcome);
    hide Plan, Containers, Volumes, Removals;
    RemovedAt(log, work, i - work);
    RemovedAt(log, work, j - work);
  }

  lemma WorkRemovesNothing(prefix: string, pod: Pod, pins: bool, log: seq<Event>, work: nat, outcome: Outcome)
    requires Executed(Plan(prefix, pod, pins), log, work, outcome)
    ensures forall i | 0 <= i < work :: !Removes(log[i].step)
  {
    PlanRemovesNothing(prefix, pod, pins);
    hide Plan, Containers, Volumes, Removals;
    forall i | 0 <= i < work ensures !Removes(log[i].step) {
      assert Steps(log[..work])[i] == log[i].step;
    }
  }

  // Stages.

  predicate BelongsTo(step: Step, k: nat) {
    match step
    case CheckSignal(s) => s == k
    case Configure(s, _, _) => s == k
    case CreateContainer(s, _) => s == k
    case StartContainer(s, _) => s == k
    case Inspect(s, _) => s == k
    case ReadCommit(s, _) => s == k
    case PinSource(s) => s == k
    case _ => false
  }

  lemma {:induction false} VolumesBelongToNoStage(prefix: string, volumes: seq<string>, k: nat)
    ensures forall i | 0 <= i < |VolumesPlan(prefix, volumes)| :: !BelongsTo(VolumesPlan(prefix, volumes)[i], k)
  {
    if volumes != [] {
      VolumesBelongToNoStage(prefix, volumes[..|volumes| - 1], k);
    }
  }

  /** The steps of a stage are all in its part of the plan. */
  lemma {:induction false} StagePosition(prefix: string, stages: seq<Stage>, pins: bool, k: nat, i: nat)
    requires i < |StagesPlan(prefix, stages, pins)| && BelongsTo(StagesPlan(prefix, stages, pins)[i], k)
    ensures k < |stages| && StageStart(prefix, stages, pins, k) <= i < StageStart(prefix, stages, pins, k + 1)
  {
    hide Named, Pins;
    var n := |stages| - 1;
    assert stages[..n + 1] == stages;
    if i < |StagesPlan(prefix, stages[..n], pins)| {
      StagePosition(prefix, stages[..n], pins, k, i);
      assert stages[..n][..k] == stages[..k] && stages[..n][..k + 1] == stages[..k + 1];
    }
  }

  lemma {:induction false} StartsAreOrdered(prefix: string, stages: seq<Stage>, pins: bool, j: nat, k: nat)
    requires j <= k <= |stages|
    ensures StageStart(prefix, stages, pins, j) <= StageStart(prefix, stages, pins, k)
  {
    hide StageSteps;
    if j < k {
      StageAt(prefix, stages, pins, k - 1);
      StartsAreOrdered(prefix, stages, pins, j, k - 1);
    }
  }

  /** Stage `k` ended well somewhere before position `n` of the log. */
  predicate EndedWell(log: seq<Event>, n: nat, k: nat, container: string) {
    exists i :: 0 <= i < n && i < |log| && log[i].step == Inspect(k, container)
      && log[i].reply.State? && log[i].reply.exitCode == 0 && !log[i].reply.oomKilled
  }

  /** Everything before a step of the plan that was tried went well. */
  lemma BeforeIsGood(plan: seq<Step>, log: seq<Event>, work: nat, outcome: Outcome, i: nat, j: nat)
    requires Executed(plan, log, work, outcome) && i < j < work
    ensures Good(log[i]) && i < |plan| && log[i].step == plan[i]
  {
  }

  /** The place in the plan of a step of a stage that was tried. */
  lemma TriedStep(prefix: string, pod: Pod, pins: bool, log: seq<Event>, work: nat, outcome: Outcome, i: nat, k: nat)
    requires Executed(Plan(prefix, pod, pins), log, work, outcome)
    requires i < |log| && BelongsTo(log[i].step, k)
    ensures i < work && k < |pod.stages|
    ensures
      var first := |VolumesPlan(prefix, pod.volumes)|;
      first + StageStart(prefix, pod.stages, pins, k) <= i < first + StageStart(prefix, pod.stages, pins, k + 1)
  {
    hide Containers, Volumes, VolumesPlan, StagesPlan, StageStart, Good;
    var plan := Plan(prefix, pod, pins);
    if i >= work {
      RemovedAt(log, work, i - work);
    } else {
      assert Steps(log[..work])[i] == log[i].step;
      assert plan[i] == log[i].step;
      VolumesBelongToNoStage(prefix, pod.volumes, k);
      StagePosition(prefix, pod.stages, pins, k, i - |VolumesPlan(prefix, pod.volumes)|);
    }
  }

  /** Stage order: a stage is touched only after every earlier stage has ended with exit code 0 and without running
      out of memory. */
  lemma StagesRunInOrder(prefix: string, pod: Pod, pins: bool, log: seq<Event>, work: nat, outcome: Outcome,
                         i: nat, m: nat, k: nat)
    requires Executed(Plan(prefix, pod, pins), log, work, outcome)
    requires i < |log| && BelongsTo(log[i].step, k) && m < k
    ensures m < |pod.stages| && EndedWell(log, i, m, Named(prefix, pod.stages[m].name))
  {
    hide Executed, Named, StageStart, VolumesPlan, Plan, StageSteps, StageIsAt, Good, BelongsTo;
    TriedStep(prefix, pod, pins, log, work, outcome, i, k);
    StageInPlan(prefix, pod, pins, m);
    StartsAreOrdered(prefix, pod.stages, pins, m + 1, k);
    var at := |VolumesPlan(prefix, pod.volumes)| + StageStart(prefix, pod.stages, pins, m);
    StageShape(Plan(prefix, pod, pins), at, prefix, pod.stages[m], m, pins);
    BeforeIsGood(Plan(prefix, pod, pins), log, work, outcome, at + 4, i);
    GoodInspection(log, at + 4, i, m, Named(prefix, pod.stages[m].name));
  }

  /** Pinning: the source is pinned only for the stage named `prepare`, after it has ended well, and the commit that
      is sent is the one read from its container. */
  lemma PinnedAfterPrepare(prefix: string, pod: Pod, pins: bool, log: seq<Event>, work: nat, outcome: Outcome,
                           i: nat, k: nat)
    requires Executed(Plan(prefix, pod, pins), log, work, outcome)
    requires i < |log| && log[i].step == PinSource(k)
    ensures k < |pod.stages| && pod.stages[k].name == "prepare" && pins
    ensures EndedWell(log, i, k, Named(prefix, pod.stages[k].name))
    ensures i > 0 && log[i - 1].step == ReadCommit(k, Named(prefix, "source"))
    ensures log[i - 1].reply.Done? && log[i].input == Trim(log[i - 1].reply.output)
  {
    hide StageSteps, StageStart, VolumesPlan, Plan, Named, Trim, Good, StageIsAt, Executed;
    TriedStep(prefix, pod, pins, log, work, outcome, i, k);
    StageInPlan(prefix, pod, pins, k);
    var plan := Plan(prefix, pod, pins);
    var at := |VolumesPlan(prefix, pod.volumes)| + StageStart(prefix, pod.stages, pins, k);
    StageShape(plan, at, prefix, pod.stages[k], k, pins);
    TriedIsPlanned(plan, log, work, outcome, i);
    FindPin(plan, at, prefix, pod.stages[k], k, pins, i);
    CommitOf(plan, log, work, outcome, i);
    BeforeIsGood(plan, log, work, outcome, at + 4, i);
    BeforeIsGood(plan, log, work, outcome, at + 5, i);
    GoodInspection(log, at + 4, i, k, Named(prefix, pod.stages[k].name));
  }

  lemma TriedIsPlanned(plan: seq<Step>, log: seq<Event>, work: nat, outcome: Outcome, i: nat)
    requires Executed(plan, log, work, outcome) && i < work
    ensures i < |log| && i < |plan| && plan[i] == log[i].step
  {
  }

  lemma FindPin(plan: seq<Step>, at: nat, prefix: string, stage: Stage, k: nat, pins: bool, i: nat)
    requires StageIsAt(plan, at, prefix, stage, k, pins)
    requires at <= i < at + |StageSteps(prefix, stage, k, pins)| && plan[i] == PinSource(k)
    ensures i == at + 6 && Pins(stage, pins)
  {
    hide Named, Pins;
    assert plan[i] == StageSteps(prefix, stage, k, pins)[i - at];
  }

  lemma FindConfigure(plan: seq<Step>, at: nat, prefix: string, stage: Stage, k: nat, pins: bool, i: nat)
    requires StageIsAt(plan, at, prefix, stage, k, pins)
    requires at <= i < at + |StageSteps(prefix, stage, k, pins)| && plan[i].Configure?
    ensures i == at + 1
  {
    hide Named, Pins;
    assert plan[i] == StageSteps(prefix, stage, k, pins)[i - at];
  }

  /** Aborting: once the signal is set, the first command that is given it fails and ends the build; a build that has
      tried one has failed; and no stage is entered any more. */
  lemma NothingStartsAfterAbort(prefix: string, pod: Pod, pins: bool, log: seq<Event>, work: nat, outcome: Outcome,
                                abortAt: nat, i: nat)
    requires Executed(Plan(prefix, pod, pins), log, work, outcome) && HonoursSignal(log, Some(abortAt))
    requires abortAt <= i < work
    ensures
      var step := log[i].step;
      var given := step.CreateVolume? || step.FillVolume? || step.CreateContainer? || step.StartContainer? || step.ReadCommit?;
      given || step.CheckSignal? ==>
        i == work - 1 && !log[i].reply.Done? && outcome.Failed?
    ensures log[i].step.Configure? ==> i == abortAt
  {
    WorkedEnds(Plan(prefix, pod, pins), log, work, outcome, i);
    if log[i].step.Configure? {
      hide Executed, Plan;
      EnteredBeforeAbort(prefix, pod, pins, log, work, outcome, abortAt, i);
    }
  }

  lemma EnteredBeforeAbort(prefix: string, pod: Pod, pins: bool, log: seq<Event>, work: nat, outcome: Outcome,
                           abortAt: nat, i: nat)
    requires Executed(Plan(prefix, pod, pins), log, work, outcome) && HonoursSignal(log, Some(abortAt))
    requires i < work && i < |log| && log[i].step.Configure?
    ensures i <= abortAt
  {
    hide Executed, HonoursSignal, Plan, StageStart, VolumesPlan, StageSteps, StageIsAt, Named, Good;
    var plan, k := Plan(prefix, pod, pins), log[i].step.stage;
    TriedStep(prefix, pod, pins, log, work, outcome, i, k);
    StageInPlan(prefix, pod, pins, k);
    var at := |VolumesPlan(prefix, pod.volumes)| + StageStart(prefix, pod.stages, pins, k);
    StageShape(plan, at, prefix, pod.stages[k], k, pins);
    TriedIsPlanned(plan, log, work, outcome, i);
    FindConfigure(plan, at, prefix, pod.stages[k], k, pins, i);
    BeforeIsGood(plan, log, work, outcome, at, i);
    SignalWasClear(log, abortAt, at);
  }

  /** What honouring the signal means: from its moment on the commands that are given it fail and the program sees it,
      and before, or without it, the program does not. */
  lemma SignalIs(log: seq<Event>, abortAt: nat)
    ensures HonoursSignal(log, Some(abortAt)) <==> forall i | 0 <= i < |log| ::
      var step := log[i].step;
      var given := step.CreateVolume? || step.FillVolume? || step.CreateContainer? || step.StartContainer? || step.ReadCommit?;
      && (given && abortAt <= i ==> log[i].reply.Error?)
      && (log[i].step.CheckSignal? ==> (log[i].reply.Done? <==> i < abortAt))
    ensures HonoursSignal(log, None) <==> forall i | 0 <= i < |log| && log[i].step.CheckSignal? :: log[i].reply.Done?
  {
  }

  lemma SignalWasClear(log: seq<Event>, abortAt: nat, i: nat)
    requires HonoursSignal(log, Some(abortAt)) && i < |log| && log[i].step.CheckSignal? && Good(log[i])
    ensures i < abortAt
  {
  }

  lemma WorkedEnds(plan: seq<Step>, log: seq<Event>, work: nat, outcome: Outcome, i: nat)
    requires Executed(plan, log, work, outcome) && i < work
    ensures i < |log| && (!Good(log[i]) ==> i == work - 1 && outcome.Failed?)
  {
    hide Good, Containers, Volumes, Removals;
    if i < work - 1 {
      BeforeIsGood(plan, log, work, outcome, i, work - 1);
    } else if outcome.Built? {
      assert log[..work][i] == log[i];
    }
  }

  lemma GoodInspection(log: seq<Event>, i: nat, n: nat, k: nat, container: string)
    requires i < n && i < |log| && Good(log[i]) && log[i].step == Inspect(k, container)
    ensures EndedWell(log, n, k, container)
  {
  }

  lemma CommitOf(plan: seq<Step>, log: seq<Event>, work: nat, outcome: Outcome, i: nat)
    requires Executed(plan, log, work, outcome) && 0 < i < work && log[i].step.PinSource?
    ensures log[i - 1].reply.Done? && log[i].input == Trim(log[i - 1].reply.output)
  {
  }

  // That everything is done.

  /** Where the steps of stage `k` are in the log of a build that got past it. */
  lemma StageDone(prefix: string, pod: Pod, pins: bool, log: seq<Event>, work: nat, outcome: Outcome, k: nat, n: nat)
    returns (at: nat)
    requires Executed(Plan(prefix, pod, pins), log, work, outcome) && k < |pod.stages| && n <= work
    requires n >= |VolumesPlan(prefix, pod.volumes)| + StageStart(prefix, pod.stages, pins, k + 1)
    requires n == work ==> outcome.Built?
    ensures StageIsAt(Plan(prefix, pod, pins), at, prefix, pod.stages[k], k, pins)
    ensures at + |StageSteps(prefix, pod.stages[k], k, pins)| <= n <= |log|
    ensures forall i | at <= i < at + |StageSteps(prefix, pod.stages[k], k, pins)| ::
      i < |Plan(prefix, pod, pins)| && log[i].step == Plan(prefix, pod, pins)[i] && Good(log[i])
  {
    hide Plan, StageSteps, StageStart, VolumesPlan, StageIsAt, Good;
    StageInPlan(prefix, pod, pins, k);
    at := |VolumesPlan(prefix, pod.volumes)| + StageStart(prefix, pod.stages, pins, k);
    GoodUpTo(Plan(prefix, pod, pins), log, work, outcome, n);
  }

  lemma GoodUpTo(plan: seq<Step>, log: seq<Event>, work: nat, outcome: Outcome, n: nat)
    requires Executed(plan, log, work, outcome) && n <= work && (n == work ==> outcome.Built?)
    ensures n <= |log| && n <= |plan| && forall i | 0 <= i < n :: log[i].step == plan[i] && Good(log[i])
  {
    hide Containers, Volumes, Removals, Good;
    forall i | 0 <= i < n ensures i < |plan| && log[i].step == plan[i] && Good(log[i]) {
      if i < work - 1 {
        BeforeIsGood(plan, log, work, outcome, i, work - 1);
      } else {
        TriedIsPlanned(plan, log, work, outcome, i);
        WorkedEnds(plan, log, work, outcome, i);
      }
    }
    assert |Steps(log[..work])| == work <= |plan|;
  }

  /** Pinning is not left out: after the prepare stage has ended well, the very next step reads the commit, and unless
      that fails, the one after it pins what was read. */
  lemma PreparedIsPinned(prefix: string, pod: Pod, log: seq<Event>, work: nat, outcome: Outcome, i: nat, k: nat)
    requires Executed(Plan(prefix, pod, true), log, work, outcome) && i < work && i < |log|
    requires log[i].step.Inspect? && log[i].step.stage == k && log[i].reply == State(0, false)
    requires k < |pod.stages| && pod.stages[k].name == "prepare"
    ensures i + 1 < work && log[i + 1].step.ReadCommit? && log[i + 1].step.stage == k
    ensures log[i + 1].reply.Done? ==>
      i + 2 < work && log[i + 2].step == PinSource(k) && log[i + 2].input == Trim(log[i + 1].reply.output)
  {
    hide StageSteps, StageStart, VolumesPlan, Plan, Named, Trim, StageIsAt, Executed;
    TriedStep(prefix, pod, true, log, work, outcome, i, k);
    StageInPlan(prefix, pod, true, k);
    var plan := Plan(prefix, pod, true);
    var at := |VolumesPlan(prefix, pod.volumes)| + StageStart(prefix, pod.stages, true, k);
    StageShape(plan, at, prefix, pod.stages[k], k, true);
    TriedIsPlanned(plan, log, work, outcome, i);
    FindInspect(plan, at, prefix, pod.stages[k], k, true, i);
    GoesOn(plan, log, work, outcome, i);
    if log[i + 1].reply.Done? {
      GoesOn(plan, log, work, outcome, i + 1);
      CommitOf(plan, log, work, outcome, i + 2);
    }
  }

  lemma FindInspect(plan: seq<Step>, at: nat, prefix: string, stage: Stage, k: nat, pins: bool, i: nat)
    requires StageIsAt(plan, at, prefix, stage, k, pins)
    requires at <= i < at + |StageSteps(prefix, stage, k, pins)| && plan[i].Inspect?
    ensures i == at + 4
  {
    hide Named, Pins, Located;
    assert plan[i] == StageSteps(prefix, stage, k, pins)[i - at];
  }

  /** After a good step the plan goes on. */
  lemma GoesOn(plan: seq<Step>, log: seq<Event>, work: nat, outcome: Outcome, i: nat)
    requires Executed(plan, log, work, outcome) && i < work && i < |log| && Good(log[i]) && i + 1 < |plan|
    ensures i + 1 < work && i + 1 < |log| && log[i + 1].step == plan[i + 1]
  {
    hide Good, Containers, Volumes, Removals;
    assert log[..work][work - 1] == log[work - 1];
    if i + 1 < work {
      assert Steps(log[..work])[i + 1] == log[i + 1].step;
    }
  }

  predicate PinnedAt(log: seq<Event>, i: nat, k: nat) {
    && 0 < i < |log| && log[i].step == PinSource(k) && log[i].reply.Done?
    && log[i - 1].step.ReadCommit? && log[i - 1].reply.Done? && log[i].input == Trim(log[i - 1].reply.output)
  }

  /** The source is pinned before any step of a later stage, and in every build that goes well. */
  lemma PinnedBeforeNext(prefix: string, pod: Pod, log: seq<Event>, work: nat, outcome: Outcome, j: nat, m: nat, k: nat)
    requires Executed(Plan(prefix, pod, true), log, work, outcome) && k < |pod.stages| && pod.stages[k].name == "prepare"
    requires (j < |log| && BelongsTo(log[j].step, m) && k < m) || (j == work && outcome.Built?)
    ensures exists i :: 0 < i < j && PinnedAt(log, i, k)
  {
    hide StageSteps, StageStart, VolumesPlan, Plan, Named, Trim, StageIsAt, Executed, BelongsTo;
    var plan := Plan(prefix, pod, true);
    if j != work || !outcome.Built? {
      TriedStep(prefix, pod, true, log, work, outcome, j, m);
      StartsAreOrdered(prefix, pod.stages, true, k + 1, m);
    } else {
      BuiltIsWhole(prefix, pod, true, log, work);
      StartsAreOrdered(prefix, pod.stages, true, k + 1, |pod.stages|);
    }
    var at := StageDone(prefix, pod, true, log, work, outcome, k, j);
    StageShape(plan, at, prefix, pod.stages[k], k, true);
    CommitOf(plan, log, work, outcome, at + 6);
    assert PinnedAt(log, at + 6, k);
  }

  lemma BuiltIsWhole(prefix: string, pod: Pod, pins: bool, log: seq<Event>, work: nat)
    requires Executed(Plan(prefix, pod, pins), log, work, Built)
    ensures work <= |log| && work == |Plan(prefix, pod, pins)|
    ensures work == |VolumesPlan(prefix, pod.volumes)| + StageStart(prefix, pod.stages, pins, |pod.stages|)
  {
    hide VolumesPlan, StagesPlan;
    assert pod.stages[..|pod.stages|] == pod.stages;
  }

  predicate Filled(log: seq<Event>, n: nat, container: string) {
    exists i :: 0 <= i < n && i < |log| && log[i].step == FillVolume(container) && log[i].reply.Done?
  }

  /** A build that goes well has run every stage to a good end and has created and filled every volume. */
  lemma BuiltDidEverything(prefix: string, pod: Pod, pins: bool, log: seq<Event>, work: nat)
    requires Executed(Plan(prefix, pod, pins), log, work, Built)
    ensures forall k | 0 <= k < |pod.stages| :: EndedWell(log, work, k, Named(prefix, pod.stages[k].name))
    ensures forall n | 0 <= n < |pod.volumes| :: Filled(log, work, HelperName(Named(prefix, pod.volumes[n])))
  {
    hide StageSteps, StageStart, VolumesPlan, Plan, Named, StageIsAt, Executed, HelperName, EndedWell, VolumeSteps, Filled;
    BuiltIsWhole(prefix, pod, pins, log, work);
    forall k | 0 <= k < |pod.stages| ensures EndedWell(log, work, k, Named(prefix, pod.stages[k].name)) {
      StartsAreOrdered(prefix, pod.stages, pins, k + 1, |pod.stages|);
      var at := StageDone(prefix, pod, pins, log, work, Built, k, work);
      StageShape(Plan(prefix, pod, pins), at, prefix, pod.stages[k], k, pins);
      GoodInspection(log, at + 4, work, k, Named(prefix, pod.stages[k].name));
    }
    forall n | 0 <= n < |pod.volumes| ensures Filled(log, work, HelperName(Named(prefix, pod.volumes[n]))) {
      VolumeIsFilled(prefix, pod, pins, log, work, n);
    }
  }

  lemma VolumeIsFilled(prefix: string, pod: Pod, pins: bool, log: seq<Event>, work: nat, n: nat)
    requires Executed(Plan(prefix, pod, pins), log, work, Built) && n < |pod.volumes|
    ensures Filled(log, work, HelperName(Named(prefix, pod.volumes[n])))
  {
    hide Plan, Named, Executed, HelperName, VolumeSteps;
    var plan := Plan(prefix, pod, pins);
    BuiltIsWhole(prefix, pod, pins, log, work);
    VolumeInPlan(prefix, pod, pins, n);
    VolumeShape(plan, 3 * n, Named(prefix, pod.volumes[n]));
    GoodUpTo(plan, log, work, Built, work);
    assert log[3 * n + 2].step == plan[3 * n + 2] && Good(log[3 * n + 2]);
  }

  /** Why a build failed: exactly what its last step says. */
  lemma FailureTellsWhy(plan: seq<Step>, log: seq<Event>, work: nat, f: Failure)
    requires Executed(plan, log, work, Failed(f))
    ensures 0 < work <= |log|
    ensures
      var e := log[work - 1];
      && f != NoStages
      && (f == Canceled <==> e.step.CheckSignal?)
      && (f == OutOfMemory <==> e.step.Inspect? && e.reply.State? && e.reply.oomKilled)
      && (forall k, code :: f == Exited(k, code) <==>
            e.step.Inspect? && e.step.stage == k && e.reply == State(code, false) && code != 0)
      && (!e.step.Inspect? ==> !e.reply.Done?)
  {
    hide Containers, Volumes, Removals, Steps, CommitsMatch;
    assert log[..work][work - 1] == log[work - 1];
  }

  /** Nothing is removed that was not recorded before. */
  lemma OnlyRecordedIsRemoved(plan: seq<Step>, log: seq<Event>, work: nat, outcome: Outcome, j: nat)
    requires Executed(plan, log, work, outcome) && work <= j < |log|
    ensures
      match log[j].step
      case RemoveContainer(c) => exists i :: 0 <= i < work && Records(log[i].step, c)
      case RemoveVolume(v) => exists i :: 0 <= i < work && log[i].step == CreateVolume(v)
      case _ => false
  {
    hide Containers, Volumes, Removals;
    var steps := Steps(log[..work]);
    RemovedAt(log, work, j - work);
    assert forall i | 0 <= i < work :: steps[i] == log[i].step;
    match log[j].step
    case RemoveContainer(c) => ContainersAreRecorded(steps, c);
    case RemoveVolume(v) => VolumesAreCreated(steps, v);
    case _ =>
  }

  lemma {:induction false} ContainersAreRecorded(steps: seq<Step>, c: string)
    requires c in Containers(steps)
    ensures exists i :: 0 <= i < |steps| && Records(steps[i], c)
  {
    var n := |steps| - 1;
    if c in Containers(steps[..n]) {
      ContainersAreRecorded(steps[..n], c);
      var i :| 0 <= i < n && Records(steps[..n][i], c);
      assert Records(steps[i], c);
    } else {
      assert Records(steps[n], c);
    }
  }

  // Names.

  function FullName(task: Task, name: string): string {
    "kubwave-" + task.id + "-" + Decimal(task.attempt) + "-" + name
  }

  /** What the names in a plan are made of: its task, the attempt, and the volume or the stage. */
  predicate WellNamed(step: Step, task: Task, pod: Pod) {
    match step
    case CreateVolume(v) => exists n :: n in pod.volumes && v == FullName(task, n)
    case PackFiles(c) => exists n :: n in pod.volumes && c == FullName(task, n + "-init")
    case FillVolume(c) => exists n :: n in pod.volumes && c == FullName(task, n + "-init")
    case CheckSignal(k) => k < |pod.stages|
    case Configure(k, c, mounts) =>
      && k < |pod.stages| && c == FullName(task, pod.stages[k].name) && |mounts| == |pod.stages[k].mounts|
      && forall i | 0 <= i < |mounts| ::
           mounts[i].name == FullName(task, pod.stages[k].mounts[i].name) && mounts[i].path == pod.stages[k].mounts[i].path
    case CreateContainer(k, c) => k < |pod.stages| && c == FullName(task, pod.stages[k].name)
    case StartContainer(k, c) => k < |pod.stages| && c == FullName(task, pod.stages[k].name)
    case Inspect(k, c) => k < |pod.stages| && c == FullName(task, pod.stages[k].name)
    case ReadCommit(k, c) => k < |pod.stages| && c == FullName(task, "source")
    case PinSource(k) => k < |pod.stages|
    case _ => false
  }

  lemma NameIsFull(task: Task, name: string)
    ensures Named(Prefix(task), name) == FullName(task, name)
    ensures HelperName(Named(Prefix(task), name)) == FullName(task, name + "-init")
  {
  }

  lemma PlanIsWellNamed(task: Task, pod: Pod, pins: bool, i: nat)
    requires i < |Plan(Prefix(task), pod, pins)|
    ensures WellNamed(Plan(Prefix(task), pod, pins)[i], task, pod)
  {
    var prefix := Prefix(task);
    if i < |VolumesPlan(prefix, pod.volumes)| {
      VolumesWellNamed(task, pod, pod.volumes, i);
    } else {
      assert pod.stages[..|pod.stages|] == pod.stages;
      StagesWellNamed(task, pod, |pod.stages|, pins, i - |VolumesPlan(prefix, pod.volumes)|);
    }
  }

  lemma {:induction false} VolumesWellNamed(task: Task, pod: Pod, volumes: seq<string>, i: nat)
    requires i < |VolumesPlan(Prefix(task), volumes)| && forall v | v in volumes :: v in pod.volumes
    ensures WellNamed(VolumesPlan(Prefix(task), volumes)[i], task, pod)
  {
    var n := |volumes| - 1;
    NameIsFull(task, volumes[n]);
    hide Prefix, Named, HelperName, FullName;
    if i < |VolumesPlan(Prefix(task), volumes[..n])| {
      VolumesWellNamed(task, pod, volumes[..n], i);
    }
  }

  lemma {:induction false} StagesWellNamed(task: Task, pod: Pod, n: nat, pins: bool, i: nat)
    requires n <= |pod.stages| && i < |StagesPlan(Prefix(task), pod.stages[..n], pins)|
    ensures WellNamed(StagesPlan(Prefix(task), pod.stages[..n], pins)[i], task, pod)
  {
    var prefix, stages := Prefix(task), pod.stages[..n];
    assert stages[..n - 1] == pod.stages[..n - 1];
    if i < |StagesPlan(prefix, stages[..n - 1], pins)| {
      StagesWellNamed(task, pod, n - 1, pins, i);
    } else {
      StageWellNamed(task, pod, n - 1, pins, i - |StagesPlan(prefix, stages[..n - 1], pins)|);
    }
  }

  lemma StageWellNamed(task: Task, pod: Pod, k: nat, pins: bool, i: nat)
    requires k < |pod.stages| && i < |StageSteps(Prefix(task), pod.stages[k], k, pins)|
    ensures WellNamed(StageSteps(Prefix(task), pod.stages[k], k, pins)[i], task, pod)
  {
    var stage := pod.stages[k];
    NameIsFull(task, stage.name);
    NameIsFull(task, "source");
    forall n | 0 <= n < |stage.mounts|
      ensures Named(Prefix(task), stage.mounts[n].name) == FullName(task, stage.mounts[n].name)
    {
      NameIsFull(task, stage.mounts[n].name);
    }
    hide Prefix, Named, FullName;
  }

  /** Names of different tasks, attempts, volumes or stages differ; the ids of tasks are all of one length. */
  lemma NamesDiffer(t: Task, u: Task, name: string, other: string)
    requires |t.id| == |u.id| && FullName(t, name) == FullName(u, other)
    ensures t.id == u.id && t.attempt == u.attempt && name == other
  {
    var s, n := FullName(t, name), 9 + |t.id|;
    var rest, rest' := "-" + name, "-" + other;
    assert s[8..8 + |t.id|] == t.id && s[8..8 + |t.id|] == u.id;
    assert s[n..] == Decimal(t.attempt) + rest && s[n..] == Decimal(u.attempt) + rest';
    DecimalDigits(t.attempt);
    DecimalDigits(u.attempt);
    DigitsBefore(Decimal(t.attempt), rest);
    DigitsBefore(Decimal(u.attempt), rest');
    assert Decimal(t.attempt) == s[n..][..|Decimal(t.attempt)|] == Decimal(u.attempt);
    DecimalInjective(t.attempt, u.attempt);
    assert rest == s[n..][|Decimal(t.attempt)|..] == rest';
    assert name == rest[1..] && other == rest'[1..];
  }
}
