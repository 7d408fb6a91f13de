/** Uninstalling hands the disks of removed namespaces to the storage driver, in a cluster that others change too. */
module VolumeReclaim {
  import Calls
  import opened Wrappers

  const PROTECTION := "kubernetes.io/pv-protection"
  const PAGE := 500

  datatype Policy = Retain | Delete | Recycle | Unset

  datatype Phase = Pending | Available | Bound | Released | Lost | Unknown

  /** A PersistentVolume; its version is the revision of its last change, its claim the claim's namespace. */
  datatype Volume = Volume(
    name: string,
    version: nat,
    policy: Policy,
    phase: Phase,
    claim: Option<string>,
    finalizers: seq<string>)

  /** All volumes, and a revision that every change raises. */
  datatype State = State(volumes: map<string, Volume>, revision: nat) {
    predicate Valid() {
      forall n | n in volumes :: volumes[n].name == n && volumes[n].version <= revision
    }
  }

  /** What other actors do. */
  datatype Change = Put(volume: Volume) | Remove(name: string)

  /** What happens at an API call: others make changes, time passes, and the call may fail on its way. */
  datatype Turn = Turn(changes: seq<Change>, delay: nat, fate: Calls.Fate)

  datatype Reply = Ok | NotFound | Conflict | Failed

  /** A write of the program that took effect, with the volume as it was at that instant. */
  datatype Write = SetDelete(before: Volume) | Strip(before: Volume, finalizers: seq<string>)

  /** A patch the program sent, and what it was told. */
  datatype Request =
    | PolicyPatch(name: string, reply: Reply)
    | FinalizerPatch(name: string, version: nat, keep: seq<string>, reply: Reply)

  /** When the program asked for the first page of a list or for another one, and whether it was answered; or for how
      long it went to sleep. */
  datatype Moment = Opening(at: int, answered: bool) | Page(at: int, answered: bool) | Nap(at: int, ms: nat)

  /** All pages that were asked for were answered. */
  predicate AllRead(moments: seq<Moment>) {
    forall m | m in moments :: m.Nap? || m.answered
  }

  /** The last page was not answered, all others were. */
  predicate BrokenOff(moments: seq<Moment>) {
    moments != [] &&
      var n := |moments| - 1;
      AllRead(moments[..n]) && !moments[n].Nap? && !moments[n].answered
  }

  predicate Awake(moments: seq<Moment>) {
    forall m | m in moments :: !m.Nap?
  }

  function Naps(moments: seq<Moment>): nat {
    if moments == [] then 0 else Naps(moments[..|moments| - 1]) + if moments[|moments| - 1].Nap? then 1 else 0
  }

  function Stored(s: State, v: Volume): State {
    State(s.volumes[v.name := v.(version := s.revision + 1)], s.revision + 1)
  }

  function Changed(s: State, c: Change): State {
    match c
    case Put(v) => Stored(s, v)
    case Remove(n) => State(s.volumes - {n}, s.revision + 1)
  }

  /** Others may put and remove any volume at any time; every change makes a new version. */
  lemma ChangesAre(s: State, v: Volume, name: string)
    ensures Changed(s, Put(v)) == State(s.volumes[v.name := v.(version := s.revision + 1)], s.revision + 1)
    ensures Changed(s, Remove(name)) == State(s.volumes - {name}, s.revision + 1)
  {
  }

  function AllChanged(s: State, changes: seq<Change>): State {
    if changes == [] then s else Changed(AllChanged(s, changes[..|changes| - 1]), changes[|changes| - 1])
  }

  /** Later states: a volume whose version is not newer is the very volume of the earlier state. */
  ghost predicate Follows(s: State, t: State) {
    && s.revision <= t.revision
    && forall n | n in t.volumes && t.volumes[n].version <= s.revision ::
         n in s.volumes && s.volumes[n] == t.volumes[n]
  }

  lemma FollowsTransitive(s: State, t: State, u: State)
    requires Follows(s, t) && Follows(t, u)
    ensures Follows(s, u)
  {
  }

  lemma StoredFollows(s: State, v: Volume)
    requires s.Valid()
    ensures Follows(s, Stored(s, v)) && Stored(s, v).Valid()
  {
  }

  lemma {:induction false} ChangesFollow(s: State, changes: seq<Change>)
    requires s.Valid()
    ensures Follows(s, AllChanged(s, changes)) && AllChanged(s, changes).Valid()
  {
    if changes != [] {
      var before := AllChanged(s, changes[..|changes| - 1]);
      ChangesFollow(s, changes[..|changes| - 1]);
      FollowsTransitive(s, before, AllChanged(s, changes));
    }
  }

  /** Every volume once, in some order. */
  ghost predicate IsListing(items: seq<Volume>, volumes: map<string, Volume>) {
    && (forall i | 0 <= i < |items| :: items[i].name in volumes && volumes[items[i].name] == items[i])
    && Distinct(items)
    && (forall n | n in volumes :: volumes[n] in items)
  }

  method Listing(volumes: map<string, Volume>) returns (items: seq<Volume>)
    requires forall n | n in volumes :: volumes[n].name == n
    ensures IsListing(items, volumes)
  {
    items := [];
    var rest := volumes.Keys;
    while rest != {}
      invariant rest <= volumes.Keys
      invariant forall i | 0 <= i < |items| ::
        items[i].name in volumes && volumes[items[i].name] == items[i] && items[i].name !in rest
      invariant Distinct(items)
      invariant forall n | n in volumes && n !in rest :: volumes[n] in items
      decreases rest
    {
      var n :| n in rest;
      items := items + [volumes[n]];
      rest := rest - {n};
    }
  }

  /** The API server. Before each call takes effect, everybody else may act. `lists` holds what each list that was
      answered shows, `moments` when its pages were asked for, `requests` are the patches sent and `writes` those that
      took effect. */
  class Api {
    const turns: nat -> Turn
    var calls: nat
    var clock: int
    var state: State
    ghost var lists: seq<State>
    ghost var moments: seq<Moment>
    ghost var requests: seq<Request>
    ghost var writes: seq<Write>

    ghost predicate Valid()
      reads this
    {
      state.Valid()
    }

    constructor (turns: nat -> Turn, clock: int, state: State)
      requires state.Valid()
      ensures Valid() && this.turns == turns && this.state == state && this.clock == clock
      ensures lists == [] && moments == [] && requests == [] && writes == []
    {
      this.turns, this.calls, this.clock, this.state := turns, 0, clock, state;
      this.lists, this.moments, this.requests, this.writes := [], [], [], [];
    }

    method Others() returns (fate: Calls.Fate)
      requires Valid()
      modifies this`calls, this`clock, this`state
      ensures Valid() && Follows(old(state), state) && old(clock) <= clock
      ensures
        var turn := turns(old(calls));
        && calls == old(calls) + 1 && clock == old(clock) + turn.delay && fate == turn.fate
        && state == AllChanged(old(state), turn.changes)
    {
      var turn := turns(calls);
      calls := calls + 1;
      clock := clock + turn.delay;
      ChangesFollow(state, turn.changes);
      state := AllChanged(state, turn.changes);
      fate := turn.fate;
    }

    /** The first page of a list fixes what all its pages show. */
    method StartList() returns (items: Option<seq<Volume>>)
      requires Valid()
      modifies this`calls, this`clock, this`state, this`lists, this`moments
      ensures Valid() && Follows(old(state), state) && old(clock) <= clock
      ensures items.Some? ==> IsListing(items.value, state.volumes) && lists == old(lists) + [state]
      ensures items.None? ==> lists == old(lists)
      ensures moments == old(moments) + [Opening(clock, items.Some?)]
    {
      var fate := Others();
      moments := moments + [Opening(clock, fate.Answered?)];
      items := None;
      if fate.Answered? {
        var all := Listing(state.volumes);
        items := Some(all);
        lists := lists + [state];
      }
    }

    method NextPage() returns (answered: bool)
      requires Valid()
      modifies this`calls, this`clock, this`state, this`moments
      ensures Valid() && Follows(old(state), state) && old(clock) <= clock
      ensures moments == old(moments) + [Page(clock, answered)]
    {
      var fate := Others();
      moments := moments + [Page(clock, fate.Answered?)];
      answered := fate.Answered?;
    }

    /** A merge patch of the reclaim policy, without a version: it applies to whatever has that name now. */
    method PatchPolicyToDelete(name: string) returns (reply: Reply, ghost between: State)
      requires Valid()
      modifies this`calls, this`clock, this`state, this`requests, this`writes
      ensures Valid() && Follows(old(state), state) && old(clock) <= clock
      ensures requests == old(requests) + [PolicyPatch(name, reply)]
      ensures reply.Ok? ==> name in state.volumes && state.volumes[name].policy == Delete
      ensures reply.NotFound? ==> name !in between.volumes
      ensures !turns(old(calls)).fate.RequestLost? && name in between.volumes ==>
        name in state.volumes && state.volumes[name].policy == Delete
      ensures reply.Failed? <==> !turns(old(calls)).fate.Answered?
      ensures writes == old(writes) ||
        (|writes| == |old(writes)| + 1 && writes[..|old(writes)|] == old(writes) &&
         writes[|old(writes)|].SetDelete? && writes[|old(writes)|].before.name == name)
      ensures Follows(old(state), between)
      ensures if writes == old(writes) then state == between else
        && name in between.volumes
        && var v := between.volumes[name].(policy := Delete, version := between.revision + 1);
           state == State(between.volumes[name := v], between.revision + 1)
    {
      hide AllChanged;
      var fate := Others();
      reply := if !fate.Answered? then Failed else if name in state.volumes then Ok else NotFound;
      requests := requests + [PolicyPatch(name, reply)];
      between := state;
      if !fate.RequestLost? && name in state.volumes && state.volumes[name].policy != Delete {
        StoredFollows(state, state.volumes[name].(policy := Delete));
        writes := writes + [SetDelete(state.volumes[name])];
        state := Stored(state, state.volumes[name].(policy := Delete));
        FollowsTransitive(old(state), between, state);
      }
    }

    /** A merge patch of the finalizers that names a version: it applies only to that version. */
    method PatchFinalizers(name: string, version: nat, keep: seq<string>) returns (reply: Reply, ghost between: State)
      requires Valid()
      modifies this`calls, this`clock, this`state, this`requests, this`writes
      ensures Valid() && Follows(old(state), state) && old(clock) <= clock
      ensures requests == old(requests) + [FinalizerPatch(name, version, keep, reply)]
      ensures reply.Ok? ==> writes != old(writes)
      ensures reply.NotFound? ==> name !in between.volumes
      ensures reply.Conflict? ==> name in between.volumes && between.volumes[name].version != version
      ensures !turns(old(calls)).fate.RequestLost? && name in between.volumes && between.volumes[name].version == version ==>
        writes != old(writes)
      ensures reply.Failed? <==> !turns(old(calls)).fate.Answered?
      ensures writes == old(writes) ||
        (|writes| == |old(writes)| + 1 && writes[..|old(writes)|] == old(writes) &&
         StripHits(writes[|old(writes)|], old(state), name, version, keep))
      ensures Follows(old(state), between)
      ensures if writes == old(writes) then state == between else
        && name in between.volumes && between.volumes[name].version == version
        && var v := between.volumes[name].(finalizers := keep, version := between.revision + 1);
           state == State(between.volumes[name := v], between.revision + 1)
    {
      hide AllChanged;
      var fate := Others();
      reply :=
        if !fate.Answered? then Failed
        else if name !in state.volumes then NotFound
        else if state.volumes[name].version != version then Conflict
        else Ok;
      requests := requests + [FinalizerPatch(name, version, keep, reply)];
      between := state;
      if !fate.RequestLost? && name in state.volumes && state.volumes[name].version == version {
        StoredFollows(state, state.volumes[name].(finalizers := keep));
        writes := writes + [Strip(state.volumes[name], keep)];
        state := Stored(state, state.volumes[name].(finalizers := keep));
        FollowsTransitive(old(state), between, state);
      }
    }

    /** A timer; the shortest one takes a millisecond. */
    method Sleep(ms: nat)
      requires Valid()
      modifies this`clock, this`moments
      ensures Valid() && clock == old(clock) + (if ms < 1 then 1 else ms) && moments == old(moments) + [Nap(old(clock), ms)]
    {
      moments := moments + [Nap(clock, ms)];
      clock := clock + if ms < 1 then 1 else ms;
    }
  }

  /** A strip took effect on the version it names, so if that is a version of an earlier state, on its volume. */
  ghost predicate StripHits(w: Write, earlier: State, name: string, version: nat, keep: seq<string>) {
    && w.Strip? && w.finalizers == keep && w.before.name == name && w.before.version == version
    && (version <= earlier.revision ==> name in earlier.volumes && earlier.volumes[name] == w.before)
  }

  predicate IsTarget(v: Volume, namespaces: set<string>) {
    v.claim.Some? && v.claim.value in namespaces
  }

  function Targets(items: seq<Volume>, namespaces: set<string>): (r: seq<Volume>)
    ensures forall v :: v in r <==> v in items && IsTarget(v, namespaces)
  {
    if items == [] then []
    else
      var before, last := Targets(items[..|items| - 1], namespaces), items[|items| - 1];
      if IsTarget(last, namespaces) then before + [last] else before
  }

  function WithoutProtection(finalizers: seq<string>): seq<string> {
    if finalizers == [] then []
    else
      var before, last := WithoutProtection(finalizers[..|finalizers| - 1]), finalizers[|finalizers| - 1];
      if last == PROTECTION then before else before + [last]
  }

  /** The elements of `some` are those of `all` at the positions `at`, in this order. */
  predicate Picks(all: seq<string>, some: seq<string>, at: seq<nat>) {
    && |at| == |some| && Rising(at) && (forall i | 0 <= i < |at| :: at[i] < |all| && some[i] == all[at[i]])
  }

  predicate Rising(at: seq<nat>) {
    forall i, j | 0 <= i < j < |at| :: at[i] < at[j]
  }

  /** What has to be left of the finalizers: all but the protecting one, as often and in the order they were. */
  ghost predicate Unprotected(finalizers: seq<string>, keep: seq<string>) {
    && (forall f :: f in keep <==> f in finalizers && f != "kubernetes.io/pv-protection")
    && multiset(keep) == multiset(finalizers)["kubernetes.io/pv-protection" := 0]
    && exists at: seq<nat> :: Picks(finalizers, keep, at)
  }

  /** The filter leaves exactly that. */
  lemma OthersAreKept(finalizers: seq<string>)
    ensures Unprotected(finalizers, WithoutProtection(finalizers))
  {
    hide WithoutProtection;
    OthersAreCounted(finalizers);
    var at := OthersArePicked(finalizers);
  }

  lemma {:induction false} OthersAreCounted(finalizers: seq<string>)
    ensures
      var keep := WithoutProtection(finalizers);
      && (forall f :: f in keep <==> f in finalizers && f != "kubernetes.io/pv-protection")
      && multiset(keep) == multiset(finalizers)["kubernetes.io/pv-protection" := 0]
  {
    if finalizers != [] {
      var before, last := finalizers[..|finalizers| - 1], finalizers[|finalizers| - 1];
      OthersAreCounted(before);
      assert finalizers == before + [last];
    }
  }

  lemma {:induction false} OthersArePicked(finalizers: seq<string>) returns (at: seq<nat>)
    ensures Picks(finalizers, WithoutProtection(finalizers), at)
  {
    at := [];
    if finalizers != [] {
      var before, last := finalizers[..|finalizers| - 1], finalizers[|finalizers| - 1];
      at := OthersArePicked(before);
      assert finalizers == before + [last];
      if last != "kubernetes.io/pv-protection" {
        PicksLast(before, WithoutProtection(before), at, last);
        at := at + [|before|];
      }
    }
  }

  lemma PicksLast(all: seq<string>, some: seq<string>, at: seq<nat>, last: string)
    requires Picks(all, some, at)
    ensures Picks(all + [last], some + [last], at + [|all|])
  {
  }

  /** A list of target volumes as they all were at one moment. */
  ghost predicate Snapshot(target: seq<Volume>, namespaces: set<string>, at: State) {
    && (forall v | v in target :: v.name in at.volumes && at.volumes[v.name] == v && v.version <= at.revision
          && v.claim.Some? && v.claim.value in namespaces)
    && (forall n | n in at.volumes && at.volumes[n].claim.Some? && at.volumes[n].claim.value in namespaces ::
          at.volumes[n] in target)
    && Distinct(target)
  }

  predicate Distinct(volumes: seq<Volume>) {
    forall i, j | 0 <= i < j < |volumes| :: volumes[i].name != volumes[j].name
  }

  predicate Absent(name: string, volumes: seq<Volume>) {
    forall i | 0 <= i < |volumes| :: volumes[i].name != name
  }

  lemma {:induction false} TargetsOmit(items: seq<Volume>, namespaces: set<string>, name: string)
    requires Absent(name, items)
    ensures Absent(name, Targets(items, namespaces))
  {
    if items != [] {
      TargetsOmit(items[..|items| - 1], namespaces, name);
    }
  }

  lemma {:induction false} TargetsAreDistinct(items: seq<Volume>, namespaces: set<string>)
    requires Distinct(items)
    ensures Distinct(Targets(items, namespaces))
  {
    if items != [] {
      var n := |items| - 1;
      TargetsAreDistinct(items[..n], namespaces);
      TargetsOmit(items[..n], namespaces, items[n].name);
    }
  }

  /** The callback on one page: targets are collected. */
  method CollectPage(items: seq<Volume>, start: nat, end: nat, namespaces: set<string>, found: seq<Volume>)
    returns (r: seq<Volume>)
    requires start <= end <= |items| && found == Targets(items[..start], namespaces)
    ensures r == Targets(items[..end], namespaces)
  {
    hide IsTarget;
    r := found;
    for n := start to end
      invariant r == Targets(items[..n], namespaces)
    {
      assert items[..n + 1][..n] == items[..n];
      if IsTarget(items[n], namespaces) {
        r := r + [items[n]];
      }
    }
  }

  /** `listTargetPvs`: page by page; any failing page fails the list. */
  method ListTargets(api: Api, namespaces: set<string>) returns (target: Option<seq<Volume>>, ghost at: State)
    requires api.Valid()
    modifies api`calls, api`clock, api`state, api`lists, api`moments
    ensures api.Valid() && Follows(old(api.state), api.state) && old(api.clock) <= api.clock
    ensures old(api.moments) <= api.moments && PagesAsked(api.moments[|old(api.moments)|..], target.Some?)
    ensures target.Some? ==>
      && api.lists == old(api.lists) + [at] && Snapshot(target.value, namespaces, at) && Follows(at, api.state)
      && api.moments[|api.moments| - 1].at == api.clock
    ensures target.None? ==>
      api.lists == old(api.lists) + if api.moments[|api.moments| - 1].Page? then [at] else []
  {
    hide Follows, State.Valid, Targets, Snapshot, IsListing, PagesAsked;
    ghost var from := |api.moments|;
    var items := api.StartList();
    at := api.state;
    OneMorePage([], api.moments[from]);
    assert api.moments[from..] == [] + [api.moments[from]];
    if items.None? {
      FollowsItself(at);
      return None, at;
    }
    var found: seq<Volume> := [];
    var n, more := 0, true;
    FollowsItself(at);
    NoTargets(namespaces);
    assert items.value[..0] == [];
    while more
      invariant 0 <= n <= |items.value| && found == Targets(items.value[..n], namespaces)
      invariant !more ==> n == |items.value|
      invariant api.Valid() && Follows(at, api.state) && Follows(old(api.state), api.state) && old(api.clock) <= api.clock
      invariant api.lists == old(api.lists) + [at] && old(api.moments) <= api.moments
      invariant from < |api.moments| && PagesAsked(api.moments[from..], true) && api.moments[|api.moments| - 1].at == api.clock
      decreases |items.value| - n, more
    {
      var end := if n + PAGE < |items.value| then n + PAGE else |items.value|;
      found := CollectPage(items.value, n, end, namespaces, found);
      n := end;
      more := n < |items.value|;
      if more {
        ghost var before, moments := api.state, api.moments[from..];
        var answered := api.NextPage();
        OneMorePage(moments, api.moments[|api.moments| - 1]);
        assert api.moments[from..] == moments + [api.moments[|api.moments| - 1]];
        FollowsTransitive(at, before, api.state);
        FollowsTransitive(old(api.state), before, api.state);
        if !answered {
          return None, at;
        }
      }
    }
    assert items.value[..n] == items.value;
    ListingIsSnapshot(items.value, namespaces, at);
    target := Some(found);
  }

  /** The pages of one list: all answered, or all but the last. */
  predicate PagesAsked(moments: seq<Moment>, done: bool) {
    moments != [] && Awake(moments) && if done then AllRead(moments) else BrokenOff(moments)
  }

  lemma OneMorePage(moments: seq<Moment>, page: Moment)
    requires moments == [] || PagesAsked(moments, true)
    requires !page.Nap?
    ensures PagesAsked(moments + [page], page.answered)
  {
    assert (moments + [page])[..|moments|] == moments;
  }

  lemma NoTargets(namespaces: set<string>)
    ensures Targets([], namespaces) == []
  {
  }

  lemma FollowsItself(s: State)
    ensures Follows(s, s)
  {
  }

  // The reclaim loop.

  /** A write the program was right to make: a strip hits a volume exactly as it was listed as a target, neither
      retained nor bound, and takes out the one finalizer; a policy patch goes to a name listed as retained. */
  ghost predicate Justified(w: Write, listed: set<Volume>) {
    match w
    case SetDelete(before) => exists v :: v in listed && v.name == before.name && v.policy == Retain
    case Strip(before, finalizers) =>
      && before in listed && before.policy != Retain && before.phase != Bound
      && "kubernetes.io/pv-protection" in before.finalizers && Unprotected(before.finalizers, finalizers)
  }

  /** All writes since `from` were justified. */
  ghost predicate AllJustified(writes: seq<Write>, from: nat, listed: set<Volume>) {
    from <= |writes| && forall i | from <= i < |writes| :: Justified(writes[i], listed)
  }

  lemma MoreListed(writes: seq<Write>, from: nat, listed: set<Volume>, more: set<Volume>)
    requires AllJustified(writes, from, listed) && listed <= more
    ensures AllJustified(writes, from, more)
  {
  }

  /** What has to be asked for a listed volume: a retained one has its policy patched; and once it is not retained, an
      unbound and protected one is stripped, by the version it was listed with. */
  ghost predicate Handled(pv: Volume, requests: seq<Request>) {
    var patches := pv.policy == Retain;
    var arranged := !patches || (requests != [] && requests[0].reply.Ok?);
    var strips := arranged && pv.phase != Bound && "kubernetes.io/pv-protection" in pv.finalizers;
    && |requests| == (if patches then 1 else 0) + (if strips then 1 else 0)
    && (patches ==> requests[0].PolicyPatch? && requests[0].name == pv.name)
    && (strips ==>
          var last := requests[|requests| - 1];
          last.FinalizerPatch? && last.name == pv.name && last.version == pv.version
          && Unprotected(pv.finalizers, last.keep))
  }

  /** All volumes, in order, and nothing else. */
  ghost predicate AllHandled(target: seq<Volume>, requests: seq<Request>) {
    if target == [] then requests == []
    else
      var n := |target| - 1;
      exists k: nat :: k <= |requests| && AllHandled(target[..n], requests[..k]) && Handled(target[n], requests[k..])
  }

  lemma OneMoreHandled(target: seq<Volume>, pv: Volume, requests: seq<Request>, more: seq<Request>)
    requires AllHandled(target, requests) && Handled(pv, more)
    ensures AllHandled(target + [pv], requests + more)
  {
    hide Handled;
    assert (target + [pv])[..|target|] == target;
    assert (requests + more)[..|requests|] == requests && (requests + more)[|requests|..] == more;
  }

  /** One volume of one pass. */
  method ProcessVolume(api: Api, pv: Volume, ghost at: State, ghost from: nat, ghost listed: set<Volume>)
    requires api.Valid() && Follows(at, api.state) && AllJustified(api.writes, from, listed)
    requires pv in listed && pv.name in at.volumes && at.volumes[pv.name] == pv && pv.version <= at.revision
    modifies api`calls, api`clock, api`state, api`requests, api`writes
    ensures api.Valid() && Follows(at, api.state) && AllJustified(api.writes, from, listed)
    ensures old(api.clock) <= api.clock && old(api.writes) <= api.writes
    ensures old(api.requests) <= api.requests && Handled(pv, api.requests[|old(api.requests)|..])
  {
    hide AllJustified, Follows, State.Valid, WithoutProtection, Unprotected;
    ghost var start := api.state;
    var reclaimArranged := pv.policy != Retain;
    if pv.policy == Retain {
      var reply, _ := api.PatchPolicyToDelete(pv.name);
      PolicyPatchIsJustified(old(api.writes), api.writes, pv, from, listed);
      FollowsTransitive(at, start, api.state);
      reclaimArranged := reply.Ok?;
    }
    ghost var arranged, writes := api.state, api.writes;
    if reclaimArranged && pv.phase != Bound && PROTECTION in pv.finalizers {
      var keep := WithoutProtection(pv.finalizers);
      OthersAreKept(pv.finalizers);
      var reply, _ := api.PatchFinalizers(pv.name, pv.version, keep);
      StripIsJustified(writes, api.writes, pv, at, arranged, keep, from, listed);
      FollowsTransitive(at, arranged, api.state);
    }
  }

  lemma PolicyPatchIsJustified(before: seq<Write>, after: seq<Write>, pv: Volume, from: nat, listed: set<Volume>)
    requires AllJustified(before, from, listed) && pv in listed && pv.policy == Retain
    requires after == before ||
      (|after| == |before| + 1 && after[..|before|] == before &&
       after[|before|].SetDelete? && after[|before|].before.name == pv.name)
    ensures AllJustified(after, from, listed)
  {
  }

  /** A strip that took effect hit the listed volume; had its policy just been patched, its version would be newer. */
  lemma StripIsJustified(before: seq<Write>, after: seq<Write>, pv: Volume, at: State, arranged: State,
                         keep: seq<string>, from: nat, listed: set<Volume>)
    requires AllJustified(before, from, listed) && pv in listed && Unprotected(pv.finalizers, keep)
    requires at.volumes.Keys >= {pv.name} && at.volumes[pv.name] == pv && pv.version <= at.revision
    requires Follows(at, arranged) && pv.phase != Bound && "kubernetes.io/pv-protection" in pv.finalizers
    requires pv.policy == Retain ==> pv.name in arranged.volumes && arranged.volumes[pv.name].policy == Delete
    requires after == before ||
      (|after| == |before| + 1 && after[..|before|] == before && StripHits(after[|before|], arranged, pv.name, pv.version, keep))
    ensures AllJustified(after, from, listed)
  {
  }

  /** What the command reports. */
  datatype Report = Report(seen: set<string>, left: seq<Volume>, reclaimed: int)

  function Names(target: seq<Volume>): (names: set<string>)
    ensures forall v | v in target :: v.name in names
  {
    set v | v in target :: v.name
  }

  lemma {:induction false} CountNames(target: seq<Volume>)
    requires Distinct(target)
    ensures |Names(target)| == |target|
  {
    if target != [] {
      var n := |target| - 1;
      CountNames(target[..n]);
      assert target == target[..n] + [target[n]];
      assert Names(target) == Names(target[..n]) + {target[n].name};
    }
  }

  lemma CountReclaimed(seen: set<string>, target: seq<Volume>)
    requires Distinct(target)
    requires Names(target) <= seen
    ensures |seen| - |target| == |seen - Names(target)|
  {
    CountNames(target);
    assert seen == (seen - Names(target)) + Names(target);
  }

  function Members(target: seq<Volume>): set<Volume> {
    set v | v in target
  }

  lemma MoreTargets(processed: seq<Volume>, target: seq<Volume>)
    ensures Names(processed + target) == Names(processed) + Names(target)
    ensures Members(processed) <= Members(processed + target) && Members(target) <= Members(processed + target)
  {
    assert forall v :: v in processed + target <==> v in processed || v in target;
  }

  lemma MemberOf(target: seq<Volume>, namespaces: set<string>, at: State, i: nat)
    requires Snapshot(target, namespaces, at) && i < |target|
    ensures target[i] in Members(target)
    ensures target[i].name in at.volumes && at.volumes[target[i].name] == target[i] && target[i].version <= at.revision
  {
  }

  lemma NamesStep(target: seq<Volume>, i: nat)
    requires i < |target|
    ensures Names(target[..i + 1]) == Names(target[..i]) + {target[i].name}
  {
  }

  /** One pass over the targets of a list. */
  method ProcessTargets(api: Api, target: seq<Volume>, seen: set<string>, namespaces: set<string>,
                        ghost at: State, ghost from: nat, ghost listed: set<Volume>, ghost processed: seq<Volume>,
                        ghost sent: nat)
    returns (newSeen: set<string>)
    requires sent <= |api.requests| && AllHandled(processed, api.requests[sent..])
    requires api.Valid() && Follows(at, api.state) && AllJustified(api.writes, from, listed)
    requires Snapshot(target, namespaces, at) && Members(target) <= listed
    modifies api`calls, api`clock, api`state, api`requests, api`writes
    ensures api.Valid() && Follows(at, api.state) && AllJustified(api.writes, from, listed)
    ensures old(api.clock) <= api.clock && old(api.writes) <= api.writes
    ensures newSeen == seen + Names(target)
    ensures sent <= |api.requests| && AllHandled(processed + target, api.requests[sent..])
  {
    hide Follows, AllJustified, Snapshot, Members, Names, State.Valid, Handled, AllHandled;
    newSeen := seen;
    NoNames();
    assert target[..0] == [] && processed + [] == processed;
    for i := 0 to |target|
      invariant api.Valid() && Follows(at, api.state) && AllJustified(api.writes, from, listed)
      invariant old(api.clock) <= api.clock && old(api.writes) <= api.writes
      invariant newSeen == seen + Names(target[..i])
      invariant sent <= |api.requests| && AllHandled(processed + target[..i], api.requests[sent..])
    {
      MemberOf(target, namespaces, at, i);
      NamesStep(target, i);
      newSeen := newSeen + {target[i].name};
      ghost var before := api.requests;
      ProcessVolume(api, target[i], at, from, listed);
      OneMoreHandled(processed + target[..i], target[i], before[sent..], api.requests[|before|..]);
      assert processed + target[..i] + [target[i]] == processed + target[..i + 1];
      assert api.requests[sent..] == before[sent..] + api.requests[|before|..];
    }
    assert target[..|target|] == target;
  }

  lemma NoNames()
    ensures Names([]) == {}
  {
  }

  function Flatten(targets: seq<seq<Volume>>): seq<Volume> {
    if targets == [] then [] else Flatten(targets[..|targets| - 1]) + targets[|targets| - 1]
  }

  /** The loop's pace: `read` is the last page of the first list; after it, the loop sleeps before each list, for as
      long as it was told to, and never once the deadline has passed. */
  predicate Polled(moments: seq<Moment>, read: nat, timeoutMs: int, pollMs: nat) {
    && read < |moments| && Awake(moments[..read + 1]) && (read + 1 < |moments| ==> moments[read + 1].Nap?)
    && forall i | read < i < |moments| && moments[i].Nap? ::
         moments[i].ms == pollMs && moments[i].at < moments[read].at + timeoutMs
  }

  lemma {:induction false} NapsAdd(moments: seq<Moment>, more: seq<Moment>)
    ensures Naps(moments + more) == Naps(moments) + Naps(more)
  {
    if more == [] {
      assert moments + more == moments;
    } else {
      var n := |more| - 1;
      NapsAdd(moments, more[..n]);
      assert (moments + more)[..|moments| + n] == moments + more[..n];
    }
  }

  lemma {:induction false} NoNaps(moments: seq<Moment>)
    requires Awake(moments)
    ensures Naps(moments) == 0
  {
    if moments != [] {
      NoNaps(moments[..|moments| - 1]);
    }
  }

  /** One more list, after a nap. */
  lemma PollGoesOn(moments: seq<Moment>, nap: Moment, pages: seq<Moment>, done: bool, read: nat, timeoutMs: int, pollMs: nat)
    requires Polled(moments, read, timeoutMs, pollMs) && AllRead(moments) && PagesAsked(pages, done)
    requires nap.Nap? && nap.ms == pollMs && nap.at < moments[read].at + timeoutMs
    ensures
      var all := moments + [nap] + pages;
      && Polled(all, read, timeoutMs, pollMs) && Naps(all) == Naps(moments) + 1
      && all[read] == moments[read] && if done then AllRead(all) else BrokenOff(all)
  {
    NoNaps(pages);
    NapsAdd(moments, [nap]);
    NapsAdd(moments + [nap], pages);
    assert [nap][..0] == [];
    NapKeepsPace(moments, nap, read, timeoutMs, pollMs);
    PagesKeepPace(moments + [nap], pages, done, read, timeoutMs, pollMs);
  }

  lemma NapKeepsPace(moments: seq<Moment>, nap: Moment, read: nat, timeoutMs: int, pollMs: nat)
    requires Polled(moments, read, timeoutMs, pollMs) && AllRead(moments)
    requires nap.Nap? && nap.ms == pollMs && nap.at < moments[read].at + timeoutMs
    ensures Polled(moments + [nap], read, timeoutMs, pollMs) && AllRead(moments + [nap])
    ensures read + 1 < |moments + [nap]|
  {
    assert (moments + [nap])[..read + 1] == moments[..read + 1];
  }

  lemma PagesKeepPace(moments: seq<Moment>, pages: seq<Moment>, done: bool, read: nat, timeoutMs: int, pollMs: nat)
    requires Polled(moments, read, timeoutMs, pollMs) && AllRead(moments) && read + 1 < |moments|
    requires PagesAsked(pages, done)
    ensures Polled(moments + pages, read, timeoutMs, pollMs)
    ensures if done then AllRead(moments + pages) else BrokenOff(moments + pages)
  {
    var all := moments + pages;
    assert all[..read + 1] == moments[..read + 1];
    assert all[..|all| - 1] == moments + pages[..|pages| - 1];
    assert forall i | |moments| <= i < |all| :: all[i] in pages;
  }

  lemma FirstList(pages: seq<Moment>, timeoutMs: int, pollMs: nat)
    requires PagesAsked(pages, true)
    ensures pages != [] && Polled(pages, |pages| - 1, timeoutMs, pollMs) && AllRead(pages) && Naps(pages) == 0
  {
    NoNaps(pages);
    assert pages[..|pages|] == pages;
  }

  /** The targets of the lists the server has answered since `from`, one after the other. */
  ghost predicate Shown(targets: seq<seq<Volume>>, lists: seq<State>, from: nat, namespaces: set<string>) {
    && from + |targets| <= |lists|
    && forall k | 0 <= k < |targets| :: Snapshot(targets[k], namespaces, lists[from + k])
  }

  lemma OneMoreList(targets: seq<seq<Volume>>, target: seq<Volume>, lists: seq<State>, from: nat, namespaces: set<string>)
    requires Shown(targets, lists, from, namespaces) && from + |targets| < |lists|
    requires Snapshot(target, namespaces, lists[from + |targets|])
    ensures Shown(targets + [target], lists, from, namespaces)
  {
    hide Snapshot;
  }

  lemma FlattenStep(targets: seq<seq<Volume>>, target: seq<Volume>)
    ensures Flatten(targets + [target]) == Flatten(targets) + target
  {
    assert (targets + [target])[..|targets|] == targets;
  }

  lemma ListsGrow(targets: seq<seq<Volume>>, lists: seq<State>, more: seq<State>, from: nat, namespaces: set<string>)
    requires Shown(targets, lists, from, namespaces)
    ensures Shown(targets, lists + more, from, namespaces)
  {
    hide Snapshot;
  }

  /** The end of a turn of the loop: sleep, then list again. */
  method NextList(api: Api, namespaces: set<string>, timeoutMs: int, pollMs: nat, ghost begun: nat, ghost read: nat,
                  ghost targets: seq<seq<Volume>>, ghost known: nat)
    returns (target: Option<seq<Volume>>, ghost at: State)
    requires api.Valid() && begun + read < |api.moments| && api.clock < api.moments[begun..][read].at + timeoutMs
    requires Polled(api.moments[begun..], read, timeoutMs, pollMs) && AllRead(api.moments[begun..])
    requires Shown(targets, api.lists, known, namespaces)
    modifies api`calls, api`clock, api`state, api`lists, api`moments
    ensures api.Valid() && api.clock > old(api.clock) && old(api.lists) <= api.lists && old(api.moments) <= api.moments
    ensures Polled(api.moments[begun..], read, timeoutMs, pollMs) && Shown(targets, api.lists, known, namespaces)
    ensures Naps(api.moments[begun..]) == old(Naps(api.moments[begun..])) + 1
    ensures target.Some? ==>
      && AllRead(api.moments[begun..])
      && api.lists == old(api.lists) + [at] && Snapshot(target.value, namespaces, at) && Follows(at, api.state)
    ensures target.None? ==>
      && BrokenOff(api.moments[begun..])
      && api.lists == old(api.lists) + if api.moments[|api.moments| - 1].Page? then [at] else []
  {
    hide Follows, Shown, Snapshot, State.Valid, Polled, AllRead, BrokenOff, Naps, Awake;
    ghost var moments, lists := api.moments, api.lists;
    api.Sleep(pollMs);
    ghost var awake := |api.moments|;
    target, at := ListTargets(api, namespaces);
    ListsGrow(targets, lists, api.lists[|lists|..], known, namespaces);
    assert lists + api.lists[|lists|..] == api.lists;
    PollGoesOn(moments[begun..], api.moments[|moments|], api.moments[awake..], target.Some?, read, timeoutMs, pollMs);
    assert api.moments[begun..] == moments[begun..] + [api.moments[|moments|]] + api.moments[awake..];
  }

  /** `reclaimClaimedPersistentVolumes`, against any cluster. The targets of every list that is read to its end are
      handled, in order, and nothing else is asked; every write is justified by one of these lists. Only a page
      that is not answered ends the loop without a report, never a failing patch. The loop sleeps before each further
      list, and not once the deadline has passed, which is counted from the last page of the first list (`read`). It ends
      with the first list that shows no target, or with one that is handled at the deadline; the volumes left are those
      of this last list, and the count is of the names seen in all lists that it no longer shows. */
  method ReclaimClaimedVolumes(api: Api, namespaces: set<string>, timeoutMs: int, pollMs: nat)
    returns (report: Option<Report>, ghost targets: seq<seq<Volume>>, ghost read: nat)
    requires api.Valid()
    modifies api
    ensures api.Valid() && old(api.writes) <= api.writes && old(|api.requests|) <= |api.requests|
    ensures old(api.lists) <= api.lists && Shown(targets, api.lists, old(|api.lists|), namespaces)
    ensures AllHandled(Flatten(targets), api.requests[old(|api.requests|)..])
    ensures AllJustified(api.writes, old(|api.writes|), Members(Flatten(targets)))
    ensures old(api.moments) <= api.moments
    ensures targets != [] ==> Polled(api.moments[|old(api.moments)|..], read, timeoutMs, pollMs)
    ensures report.None? ==>
      && BrokenOff(api.moments[|old(api.moments)|..]) && Naps(api.moments[|old(api.moments)|..]) == |targets|
      && |api.lists| == old(|api.lists|) + |targets| + (if api.moments[|api.moments| - 1].Page? then 1 else 0)
      && [] !in targets
    ensures report.Some? ==>
      var r, moments := report.value, api.moments[|old(api.moments)|..];
      && targets != [] && |api.lists| == old(|api.lists|) + |targets|
      && AllRead(moments) && Naps(moments) == |targets| - 1 && [] !in targets[..|targets| - 1]
      && r.left == targets[|targets| - 1] && Follows(api.lists[|api.lists| - 1], api.state)
      && (r.left == [] || api.clock >= moments[read].at + timeoutMs)
      && r.seen == Names(Flatten(targets)) && r.reclaimed == |r.seen - Names(r.left)|
  {
    hide Follows, AllJustified, AllHandled, Shown, Snapshot, Members, Names, IsTarget, State.Valid, Flatten;
    hide Polled, AllRead, BrokenOff, Naps, Awake, PagesAsked;
    ghost var from, sent, known, begun := |api.writes|, |api.requests|, |api.lists|, |api.moments|;
    targets, report, read := [], None, 0;
    NothingYet(api.writes, api.lists, namespaces);
    assert api.requests[sent..] == [];
    var seen: set<string> := {};
    var first, at := ListTargets(api, namespaces);
    ListsGrow([], old(api.lists), api.lists[known..], known, namespaces);
    assert old(api.lists) + api.lists[known..] == api.lists;
    if first.None? {
      NoListRead(api.moments[begun..]);
      return;
    }
    FirstList(api.moments[begun..], timeoutMs, pollMs);
    read := |api.moments[begun..]| - 1;
    var target := first.value;
    ghost var last := at;
    var deadline := api.clock + timeoutMs;
    while true
      invariant api.Valid() && Snapshot(target, namespaces, last) && Follows(last, api.state)
      invariant old(api.writes) <= api.writes && AllJustified(api.writes, from, Members(Flatten(targets)))
      invariant |api.requests| >= sent && AllHandled(Flatten(targets), api.requests[sent..])
      invariant old(api.lists) <= api.lists && |api.lists| == known + |targets| + 1 && api.lists[known + |targets|] == last
      invariant Shown(targets, api.lists, known, namespaces)
      invariant [] !in targets && seen == Names(Flatten(targets))
      invariant old(api.moments) <= api.moments && Polled(api.moments[begun..], read, timeoutMs, pollMs)
      invariant AllRead(api.moments[begun..]) && Naps(api.moments[begun..]) == |targets|
      invariant begun + read < |api.moments| && deadline == api.moments[begun..][read].at + timeoutMs
      decreases deadline - api.clock
    {
      ghost var processed := Flatten(targets);
      MoreTargets(processed, target);
      MoreListed(api.writes, from, Members(processed), Members(processed + target));
      seen := ProcessTargets(api, target, seen, namespaces, last, from, Members(processed + target), processed, sent);
      FlattenStep(targets, target);
      OneMoreList(targets, target, api.lists, known, namespaces);
      targets := targets + [target];
      if |target| == 0 || api.clock >= deadline {
        break;
      }
      var next, nextAt := NextList(api, namespaces, timeoutMs, pollMs, begun, read, targets, known);
      if next.None? {
        return;
      }
      target := next.value;
      last := nextAt;
    }
    SnapshotIsDistinct(target, namespaces, last);
    LastNames(targets);
    CountReclaimed(seen, target);
    report := Some(Report(seen, target, |seen| - |target|));
  }

  lemma NoListRead(pages: seq<Moment>)
    requires PagesAsked(pages, false)
    ensures BrokenOff(pages) && Naps(pages) == 0
  {
    NoNaps(pages);
  }

  lemma LastNames(targets: seq<seq<Volume>>)
    requires targets != []
    ensures Names(targets[|targets| - 1]) <= Names(Flatten(targets))
  {
  }

  lemma NothingYet(writes: seq<Write>, lists: seq<State>, namespaces: set<string>)
    ensures Flatten([]) == [] && Names([]) == {} && AllHandled([], [])
    ensures AllJustified(writes, |writes|, Members([])) && Shown([], lists, |lists|, namespaces)
  {
  }

  lemma SnapshotIsDistinct(target: seq<Volume>, namespaces: set<string>, at: State)
    requires Snapshot(target, namespaces, at)
    ensures Distinct(target)
  {
  }

  // The sweep before the teardown.

  datatype Counts = Counts(patched: nat, failed: nat, skipped: nat)

  /** The positions of the retained volumes, in order. */
  predicate RetainedAt(target: seq<Volume>, at: seq<nat>) {
    && Rising(at) && (forall i | 0 <= i < |at| :: at[i] < |target| && target[at[i]].policy == Retain)
    && forall k | 0 <= k < |target| && target[k].policy == Retain :: k in at
  }

  predicate PatchedAt(target: seq<Volume>, at: seq<nat>, requests: seq<Request>) {
    && |requests| == |at|
    && forall i | 0 <= i < |at| && at[i] < |target| :: requests[i].PolicyPatch? && requests[i].name == target[at[i]].name
  }

  /** One policy patch for each retained target, in their order, and nothing else. */
  ghost predicate Asked(target: seq<Volume>, requests: seq<Request>) {
    exists at: seq<nat> :: RetainedAt(target, at) && PatchedAt(target, at, requests)
  }

  function AnsweredWell(requests: seq<Request>): set<nat> {
    set i: nat | i < |requests| && requests[i].reply.Ok?
  }

  function NotRetained(target: seq<Volume>): set<nat> {
    set k: nat | k < |target| && target[k].policy != Retain
  }

  /** And each is counted by its answer. */
  ghost predicate Tally(counts: Counts, target: seq<Volume>, requests: seq<Request>) {
    && Asked(target, requests)
    && counts.patched == |AnsweredWell(requests)|
    && counts.patched + counts.failed == |requests|
    && counts.skipped == |NotRetained(target)|
  }

  /** The writes of a sweep: justified, and no strips. */
  ghost predicate OnlyPatches(writes: seq<Write>, from: nat, listed: set<Volume>) {
    AllJustified(writes, from, listed) && forall i | from <= i < |writes| :: writes[i].SetDelete?
  }

  /** What one item adds. */
  predicate Counted(before: Counts, after: Counts, pv: Volume, namespaces: set<string>, more: seq<Request>) {
    if !IsTarget(pv, namespaces) then after == before && more == []
    else if pv.policy != Retain then after == before.(skipped := before.skipped + 1) && more == []
    else
      && |more| == 1 && more[0].PolicyPatch? && more[0].name == pv.name
      && after == if more[0].reply.Ok? then before.(patched := before.patched + 1) else before.(failed := before.failed + 1)
  }

  lemma OneMoreItem(items: seq<Volume>, namespaces: set<string>, n: nat, before: Counts, after: Counts,
                    requests: seq<Request>, more: seq<Request>)
    requires n < |items| && Tally(before, Targets(items[..n], namespaces), requests)
    requires Counted(before, after, items[n], namespaces, more)
    ensures Tally(after, Targets(items[..n + 1], namespaces), requests + more)
    ensures Members(Targets(items[..n + 1], namespaces))
      == Members(Targets(items[..n], namespaces)) + if IsTarget(items[n], namespaces) then {items[n]} else {}
  {
    assert items[..n + 1][..n] == items[..n];
    var target := Targets(items[..n], namespaces);
    assert Targets(items[..n + 1], namespaces) == if IsTarget(items[n], namespaces) then target + [items[n]] else target;
    hide IsTarget, Targets, Tally;
    if IsTarget(items[n], namespaces) {
      assert Members(target + [items[n]]) == Members(target) + {items[n]};
      OneMoreTarget(target, items[n], before, after, requests, more);
    } else {
      assert requests + more == requests;
    }
  }

  lemma OneMoreTarget(target: seq<Volume>, pv: Volume, before: Counts, after: Counts, requests: seq<Request>, more: seq<Request>)
    requires Tally(before, target, requests)
    requires if pv.policy != Retain then after == before.(skipped := before.skipped + 1) && more == []
      else
        && |more| == 1 && more[0].PolicyPatch? && more[0].name == pv.name
        && after == if more[0].reply.Ok? then before.(patched := before.patched + 1) else before.(failed := before.failed + 1)
    ensures Tally(after, target + [pv], requests + more)
  {
    hide AnsweredWell, NotRetained, RetainedAt, PatchedAt, Rising;
    SkippedGrow(target, pv);
    var at: seq<nat> :| RetainedAt(target, at) && PatchedAt(target, at, requests);
    if pv.policy == Retain {
      assert more == [more[0]];
      AnsweredGrow(requests, more[0]);
      RetainedGrows(target, pv, at, requests, more[0]);
      assert Asked(target + [pv], requests + more);
    } else {
      assert requests + more == requests;
      SkippedIsNotAsked(target, pv, at, requests);
      assert Asked(target + [pv], requests + more);
    }
  }

  lemma SkippedGrow(target: seq<Volume>, pv: Volume)
    ensures |NotRetained(target + [pv])| == |NotRetained(target)| + if pv.policy != Retain then 1 else 0
  {
    var n := |target|;
    assert forall k | 0 <= k < n :: (target + [pv])[k] == target[k];
    assert NotRetained(target + [pv]) == NotRetained(target) + if pv.policy != Retain then {n} else {};
  }

  lemma AnsweredGrow(requests: seq<Request>, request: Request)
    ensures |AnsweredWell(requests + [request])| == |AnsweredWell(requests)| + if request.reply.Ok? then 1 else 0
  {
    var n := |requests|;
    assert forall k | 0 <= k < n :: (requests + [request])[k] == requests[k];
    assert AnsweredWell(requests + [request]) == AnsweredWell(requests) + if request.reply.Ok? then {n} else {};
  }

  lemma SkippedIsNotAsked(target: seq<Volume>, pv: Volume, at: seq<nat>, requests: seq<Request>)
    requires RetainedAt(target, at) && PatchedAt(target, at, requests) && pv.policy != Retain
    ensures RetainedAt(target + [pv], at) && PatchedAt(target + [pv], at, requests)
  {
  }

  lemma RetainedGrows(target: seq<Volume>, pv: Volume, at: seq<nat>, requests: seq<Request>, request: Request)
    requires RetainedAt(target, at) && PatchedAt(target, at, requests)
    requires pv.policy == Retain && request.PolicyPatch? && request.name == pv.name
    ensures RetainedAt(target + [pv], at + [|target|]) && PatchedAt(target + [pv], at + [|target|], requests + [request])
  {
    var more := at + [|target|];
    assert more[|at|] == |target|;
    assert forall k | k in at :: k in more;
    assert forall i | 0 <= i < |at| :: at[i] < |target| && (target + [pv])[at[i]] == target[at[i]];
  }

  /** One item of the sweep. */
  method SweepVolume(api: Api, pv: Volume, namespaces: set<string>, counts: Counts,
                     ghost from: nat, ghost listed: set<Volume>)
    returns (r: Counts)
    requires api.Valid() && OnlyPatches(api.writes, from, listed)
    modifies api`calls, api`clock, api`state, api`requests, api`writes
    ensures api.Valid() && old(api.writes) <= api.writes
    ensures OnlyPatches(api.writes, from, listed + if IsTarget(pv, namespaces) then {pv} else {})
    ensures old(api.requests) <= api.requests
    ensures Counted(counts, r, pv, namespaces, api.requests[|old(api.requests)|..])
  {
    hide Follows, AllJustified, State.Valid, IsTarget;
    r := counts;
    if !IsTarget(pv, namespaces) {
      assert listed + {} == listed;
      return;
    }
    MoreListed(api.writes, from, listed, listed + {pv});
    if pv.policy != Retain {
      r := r.(skipped := r.skipped + 1);
      return;
    }
    var reply, _ := api.PatchPolicyToDelete(pv.name);
    PolicyPatchIsJustified(old(api.writes), api.writes, pv, from, listed + {pv});
    r := if reply.Ok? then r.(patched := r.patched + 1) else r.(failed := r.failed + 1);
  }

  /** What the sweep knows after some items. */
  ghost predicate SweptTo(counts: Counts, items: seq<Volume>, namespaces: set<string>, writes: seq<Write>, from: nat,
                          requests: seq<Request>, sent: nat)
  {
    && OnlyPatches(writes, from, Members(Targets(items, namespaces)))
    && sent <= |requests| && Tally(counts, Targets(items, namespaces), requests[sent..])
  }

  /** One page of the sweep. */
  method SweepPage(api: Api, items: seq<Volume>, start: nat, end: nat, namespaces: set<string>, counts: Counts,
                   ghost from: nat, ghost sent: nat)
    returns (r: Counts)
    requires start <= end <= |items| && api.Valid()
    requires SweptTo(counts, items[..start], namespaces, api.writes, from, api.requests, sent)
    modifies api`calls, api`clock, api`state, api`requests, api`writes
    ensures api.Valid() && old(api.writes) <= api.writes
    ensures SweptTo(r, items[..end], namespaces, api.writes, from, api.requests, sent)
  {
    hide OnlyPatches, Counted, State.Valid, Tally, Members, Targets;
    r := counts;
    for n := start to end
      invariant api.Valid() && old(api.writes) <= api.writes
      invariant SweptTo(r, items[..n], namespaces, api.writes, from, api.requests, sent)
    {
      var before := r;
      ghost var requests := api.requests;
      r := SweepVolume(api, items[n], namespaces, r, from, Members(Targets(items[..n], namespaces)));
      OneMoreItem(items, namespaces, n, before, r, requests[sent..], api.requests[|requests|..]);
      assert api.requests[sent..] == requests[sent..] + api.requests[|requests|..];
    }
  }

  /** The pages of one list, the first of which was just answered: all of them, or those before the first that is not. */
  method SweepPages(api: Api, items: seq<Volume>, namespaces: set<string>, ghost from: nat, ghost sent: nat, ghost begun: nat)
    returns (so: Counts, done: bool, ghost n: nat)
    requires api.Valid() && begun <= |api.moments| && PagesAsked(api.moments[begun..], true)
    requires SweptTo(Counts(0, 0, 0), items[..0], namespaces, api.writes, from, api.requests, sent)
    modifies api`calls, api`clock, api`state, api`requests, api`writes, api`moments
    ensures api.Valid() && old(api.writes) <= api.writes && old(api.moments) <= api.moments
    ensures n <= |items| && (done ==> n == |items|)
    ensures SweptTo(so, items[..n], namespaces, api.writes, from, api.requests, sent)
    ensures PagesAsked(api.moments[begun..], done)
  {
    hide SweptTo, State.Valid, PagesAsked;
    so, done, n := Counts(0, 0, 0), true, 0;
    var start, more := 0, true;
    while more
      invariant n == start <= |items| && api.Valid() && old(api.writes) <= api.writes && (!more ==> n == |items|)
      invariant old(api.moments) <= api.moments && PagesAsked(api.moments[begun..], true)
      invariant SweptTo(so, items[..n], namespaces, api.writes, from, api.requests, sent)
      decreases |items| - n, more
    {
      var end := if start + PAGE < |items| then start + PAGE else |items|;
      so := SweepPage(api, items, start, end, namespaces, so, from, sent);
      n, start := end, end;
      more := end < |items|;
      if more {
        ghost var moments := api.moments[begun..];
        done := api.NextPage();
        OneMorePage(moments, api.moments[|api.moments| - 1]);
        assert api.moments[begun..] == moments + [api.moments[|api.moments| - 1]];
        if !done {
          return;
        }
      }
    }
  }

  /** `reclaimRetainedPvs`: one pass over the pages of one list, patching while it is read. It sends one patch for each
      retained target it has read and nothing else, goes on after a failing patch, counts each by its answer, and ends
      early exactly if a page fails. */
  method ReclaimRetained(api: Api, namespaces: set<string>)
    returns (counts: Option<Counts>, ghost target: seq<Volume>)
    requires api.Valid()
    modifies api
    ensures api.Valid() && old(api.writes) <= api.writes && old(|api.requests|) <= |api.requests|
    ensures api.lists == old(api.lists) ||
      (&& |api.lists| == |old(api.lists)| + 1 && old(api.lists) <= api.lists
       && ReadFrom(target, namespaces, api.lists[|old(api.lists)|]))
    ensures OnlyPatches(api.writes, old(|api.writes|), Members(target))
    ensures Asked(target, api.requests[old(|api.requests|)..])
    ensures old(api.moments) <= api.moments && PagesAsked(api.moments[|old(api.moments)|..], counts.Some?)
    ensures counts.None? ==> (api.lists == old(api.lists) ==> target == [])
    ensures counts.Some? ==>
      && |api.lists| == |old(api.lists)| + 1 && Snapshot(target, namespaces, api.lists[|old(api.lists)|])
      && Tally(counts.value, target, api.requests[old(|api.requests|)..])
  {
    hide Follows, OnlyPatches, Snapshot, State.Valid, Members, Tally, IsTarget, Asked, ReadFrom, PagesAsked;
    ghost var from, sent, begun := |api.writes|, |api.requests|, |api.moments|;
    target := [];
    NothingToSweep(api.writes, from, api.requests, namespaces);
    var items := api.StartList();
    OneMorePage([], api.moments[begun]);
    assert api.moments[begun..] == [] + [api.moments[begun]];
    if items.None? {
      assert api.requests[sent..] == [];
      return None, target;
    }
    ghost var at := api.state;
    assert items.value[..0] == [];
    var so, done;
    ghost var n;
    so, done, n := SweepPages(api, items.value, namespaces, from, sent, begun);
    target := Targets(items.value[..n], namespaces);
    TallyIsAsked(so, target, api.requests[sent..]);
    PartIsRead(items.value, namespaces, at, n);
    if !done {
      return None, target;
    }
    assert items.value[..n] == items.value;
    ListingIsSnapshot(items.value, namespaces, at);
    counts := Some(so);
  }

  /** Targets that a list shows, though perhaps not all of them. */
  ghost predicate ReadFrom(target: seq<Volume>, namespaces: set<string>, at: State) {
    && Distinct(target)
    && forall v | v in target ::
         v.name in at.volumes && at.volumes[v.name] == v && v.claim.Some? && v.claim.value in namespaces
  }

  lemma PartIsRead(items: seq<Volume>, namespaces: set<string>, at: State, n: nat)
    requires IsListing(items, at.volumes) && n <= |items|
    ensures ReadFrom(Targets(items[..n], namespaces), namespaces, at)
  {
    TargetsAreDistinct(items[..n], namespaces);
  }

  lemma TallyIsAsked(counts: Counts, target: seq<Volume>, requests: seq<Request>)
    requires Tally(counts, target, requests)
    ensures Asked(target, requests)
  {
  }

  lemma NothingToSweep(writes: seq<Write>, from: nat, requests: seq<Request>, namespaces: set<string>)
    requires from == |writes|
    ensures OnlyPatches(writes, from, Members([])) && Asked([], [])
    ensures SweptTo(Counts(0, 0, 0), [], namespaces, writes, from, requests, |requests|)
  {
    assert RetainedAt([], []) && PatchedAt([], [], []);
  }

  lemma ListingIsSnapshot(items: seq<Volume>, namespaces: set<string>, at: State)
    requires at.Valid() && IsListing(items, at.volumes)
    ensures Snapshot(Targets(items, namespaces), namespaces, at)
  {
    TargetsAreDistinct(items, namespaces);
  }
}
