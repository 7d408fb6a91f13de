/** The registry's credentials: one password in two secrets, written without a transaction. */
module RegistrySecrets {
  import opened Calls
  import opened Wrappers

  /** A bcrypt hash stands for the password it verifies. */
  datatype Hash = Bcrypt(password: string) {
    predicate Verifies(candidate: string) {
      candidate == password
    }
  }

  /** One entry of a docker config: `null`, or an object whose password may be missing or no string. */
  datatype Entry = NullEntry | Entry(password: Option<string>)

  datatype PushSecret = Missing | Malformed | Auths(entries: seq<Entry>)

  datatype Registry = Registry(htpasswd: Option<Hash>, push: PushSecret)

  /** `find` over the entries: a `null` before the first password is an error, which reads as no password. */
  function FirstPassword(entries: seq<Entry>): Option<string> {
    if entries == [] || entries[0].NullEntry? then None
    else if entries[0].password.Some? && entries[0].password.value != "" then entries[0].password
    else FirstPassword(entries[1..])
  }

  function PasswordOf(push: PushSecret): Option<string> {
    if push.Auths? then FirstPassword(push.entries) else None
  }

  function ConfigFor(password: string): PushSecret {
    Auths([Entry(Some(password))])
  }

  predicate Readable(push: PushSecret) {
    PasswordOf(push).Some?
  }

  /** Where both secrets exist and the password can be read, the hash is its hash. */
  predicate Matched(s: Registry) {
    s.htpasswd.Some? && Readable(s.push) ==> s.htpasswd.value.Verifies(PasswordOf(s.push).value)
  }

  /** The goal: a client that reads the push secret can log in. */
  predicate Healed(s: Registry) {
    s.htpasswd.Some? && Readable(s.push) && s.htpasswd.value.Verifies(PasswordOf(s.push).value)
  }

  /** Both secrets are there, but the password cannot be read. */
  predicate Stuck(s: Registry) {
    s.htpasswd.Some? && s.push != Missing && !Readable(s.push)
  }

  /** The states a run goes through, one for each of its writes, if nobody interferes. */
  function Planned(s: Registry, generated: string): seq<Registry> {
    if s.htpasswd.Some? && s.push != Missing then []
    else if s.htpasswd.None? && Readable(s.push) then [s.(htpasswd := Some(Bcrypt(PasswordOf(s.push).value)))]
    else
      [s.(htpasswd := Some(Bcrypt(generated))), Registry(Some(Bcrypt(generated)), ConfigFor(generated))]
  }

  /** The state after the first `n` writes of a run. */
  function After(s: Registry, generated: string, n: nat): Registry {
    var planned := Planned(s, generated);
    if n == 0 || planned == [] then s
    else if n < |planned| then planned[n - 1]
    else planned[|planned| - 1]
  }

  lemma ConfigIsReadable(password: string)
    requires password != ""
    ensures PasswordOf(ConfigFor(password)) == Some(password)
  {
  }

  /** Every write keeps the secrets matched, so a run may crash after any of them. */
  lemma EveryWriteMatches(s: Registry, generated: string, n: nat)
    requires Matched(s) && generated != ""
    ensures Matched(After(s, generated, n))
    ensures Readable(s.push) ==> After(s, generated, n).push == s.push
  {
  }

  /** A run that completes leaves both secrets present and matching exactly unless both were there before and the
      password could not be read; and a second run changes nothing. */
  lemma CompletedRunHeals(s: Registry, generated: string)
    requires Matched(s) && generated != ""
    ensures Healed(After(s, generated, 2)) <==> !Stuck(s)
    ensures forall again, n: nat :: After(After(s, generated, 2), again, n) == After(s, generated, 2)
  {
  }

  predicate HoldsPassword(e: Entry) {
    e.Entry? && e.password.Some? && e.password.value != ""
  }

  /** A hash verifies its own password and no other. */
  lemma HashVerifies(password: string, candidate: string)
    ensures Bcrypt(password).Verifies(candidate) <==> password == candidate
  {
  }

  predicate FoundAt(entries: seq<Entry>, i: nat, password: string) {
    && i < |entries| && entries[i] == Entry(Some(password)) && password != ""
    && forall j | 0 <= j < i :: entries[j].Entry? && !HoldsPassword(entries[j])
  }

  /** The password that is read: the first that is not empty, unless a `null` comes before it. */
  lemma {:induction false} FirstPasswordIs(entries: seq<Entry>, password: string)
    ensures FirstPassword(entries) == Some(password) <==> exists i :: FoundAt(entries, i, password)
  {
    if entries != [] {
      FirstPasswordIs(entries[1..], password);
      assert forall i: nat | FoundAt(entries, i, password) && i > 0 :: FoundAt(entries[1..], i - 1, password);
      if entries[0].Entry? && !HoldsPassword(entries[0]) {
        forall i: nat | FoundAt(entries[1..], i, password) ensures FoundAt(entries, i + 1, password) {
          assert forall j | 0 < j < i + 1 :: entries[j] == entries[1..][j - 1];
        }
      } else if entries[0] == Entry(Some(password)) {
        assert FoundAt(entries, 0, password) <==> password != "";
      }
    }
  }

  /** What a completed run leaves: a pair that was there stays; a readable push secret stays and gets its hash; and
      otherwise both secrets are made of the new password, the hash first. */
  lemma RunLeaves(s: Registry, generated: string)
    ensures s.htpasswd.Some? && s.push != Missing ==> After(s, generated, 1) == After(s, generated, 2) == s
    ensures s.htpasswd.None? && PasswordOf(s.push).Some? ==>
      After(s, generated, 1) == After(s, generated, 2) == Registry(Some(Bcrypt(PasswordOf(s.push).value)), s.push)
    ensures (s.push == Missing || (s.htpasswd.None? && PasswordOf(s.push).None?)) ==>
      && After(s, generated, 1) == Registry(Some(Bcrypt(generated)), s.push)
      && After(s, generated, 2) == Registry(Some(Bcrypt(generated)), Auths([Entry(Some(generated))]))
  {
  }

  // Any number of runs, crashes and deletions.

  /** A run that ends after some writes (two are all there are), or somebody deletes a secret. */
  datatype Event = Run(generated: string, writes: nat) | DeleteHtpasswd | DeletePush

  function Step(s: Registry, e: Event): Registry {
    match e
    case Run(generated, writes) => After(s, generated, writes)
    case DeleteHtpasswd => s.(htpasswd := None)
    case DeletePush => s.(push := Missing)
  }

  function History(s: Registry, events: seq<Event>): Registry {
    if events == [] then s else Step(History(s, events[..|events| - 1]), events[|events| - 1])
  }

  predicate ProperPasswords(events: seq<Event>) {
    forall i | 0 <= i < |events| && events[i].Run? :: events[i].generated != ""
  }

  /** Over every history the secrets stay matched; and if no unreadable push secret was there at the start, the next
      run that completes heals them. */
  lemma {:induction false} CredentialsHeal(s: Registry, events: seq<Event>, generated: string)
    requires Matched(s) && ProperPasswords(events) && generated != ""
    ensures Matched(History(s, events))
    ensures s.push == Missing || Readable(s.push) ==>
      var t := History(s, events);
      (t.push == Missing || Readable(t.push)) && Healed(After(t, generated, 2))
  {
    if events == [] {
      CompletedRunHeals(s, generated);
    } else {
      var n := |events| - 1;
      var before := History(s, events[..n]);
      CredentialsHeal(s, events[..n], generated);
      if events[n].Run? {
        EveryWriteMatches(before, events[n].generated, events[n].writes);
        ConfigIsReadable(events[n].generated);
      }
      CompletedRunHeals(History(s, events), generated);
    }
  }

  predicate KeepsPush(events: seq<Event>) {
    forall i | 0 <= i < |events| :: !events[i].DeletePush?
  }

  /** A readable push secret is never rotated: until somebody deletes it, it stays what it was. */
  lemma {:induction false} NeverRotated(s: Registry, events: seq<Event>)
    requires Readable(s.push) && KeepsPush(events)
    ensures History(s, events).push == s.push
  {
    if events != [] {
      NeverRotated(s, events[..|events| - 1]);
    }
  }

  /** A stuck pair stays stuck until somebody deletes one of the secrets. */
  lemma {:induction false} StuckStaysStuck(s: Registry, events: seq<Event>)
    requires Stuck(s) && forall i | 0 <= i < |events| :: events[i].Run?
    ensures History(s, events) == s
  {
    if events != [] {
      StuckStaysStuck(s, events[..|events| - 1]);
    }
  }

  /** A crash can make a pair stuck: the push secret is unreadable, and the run ends right after it has written the
      htpasswd secret. */
  lemma CrashCanStick()
    ensures
      var s := Registry(None, Malformed);
      Matched(s) && Healed(History(s, [Run("p", 2)])) && Stuck(History(s, [Run("p", 1)]))
  {
  }

  // The program.

  /** What happens at an API call: secrets may be deleted just before, and the call may fail on its way. */
  datatype Turn = Turn(dropHtpasswd: bool, dropPush: bool, fate: Fate)

  /** No step of a history leaves the secrets unmatched or changes a readable push secret, except by deleting it. */
  ghost predicate Sound(history: seq<Registry>) {
    && (forall i | 0 <= i < |history| :: Matched(history[i]))
    && forall i | 0 <= i < |history| - 1 && Readable(history[i].push) :: history[i + 1].push in {history[i].push, Missing}
  }

  /** Deletions only. */
  predicate Depleted(before: Registry, after: Registry) {
    after.htpasswd in {before.htpasswd, None} && after.push in {before.push, Missing}
  }

  /** The cluster's two secrets. `history` holds every state so far, `disturbed` tells whether a change was a
      deletion, `broken` whether any call failed on its way. */
  class SecretStore {
    const turns: nat -> Turn
    var calls: nat
    var state: Registry
    ghost var history: seq<Registry>
    ghost var disturbed: bool
    ghost var broken: bool

    ghost predicate Valid()
      reads this
    {
      history != [] && history[|history| - 1] == state && Sound(history)
    }

    constructor (turns: nat -> Turn, state: Registry)
      requires Matched(state)
      ensures Valid() && this.turns == turns && this.state == state && history == [state]
      ensures !disturbed && !broken
    {
      this.turns, this.calls, this.state := turns, 0, state;
      this.history, this.disturbed, this.broken := [state], false, false;
    }

    method Others() returns (fate: Fate)
      requires Valid()
      modifies this
      ensures Valid() && old(history) <= history && Depleted(old(state), state) && (old(disturbed) ==> disturbed)
      ensures !disturbed ==> history == old(history)
      ensures broken == (old(broken) || !fate.Answered?)
      ensures
        var turn := turns(old(calls));
        && calls == old(calls) + 1 && fate == turn.fate
        && state == Registry(if turn.dropHtpasswd then None else old(state).htpasswd,
                             if turn.dropPush then Missing else old(state).push)
        && (disturbed <==> old(disturbed) || state != old(state))
    {
      var turn := turns(calls);
      calls := calls + 1;
      var next := Registry(
        if turn.dropHtpasswd then None else state.htpasswd,
        if turn.dropPush then Missing else state.push);
      if next != state {
        state, history, disturbed := next, history + [next], true;
      }
      fate := turn.fate;
      broken := broken || !fate.Answered?;
    }

    method ReadHtpasswd() returns (reply: Reply<Option<Hash>>)
      requires Valid()
      modifies this
      ensures Valid() && old(history) <= history && Depleted(old(state), state) && (old(disturbed) ==> disturbed)
      ensures !disturbed ==> history == old(history)
      ensures if reply.Ok? then reply.value == state.htpasswd && broken == old(broken) else broken
      ensures
        var turn := turns(old(calls));
        && calls == old(calls) + 1 && (reply.Ok? <==> turn.fate.Answered?)
        && state == Registry(if turn.dropHtpasswd then None else old(state).htpasswd,
                             if turn.dropPush then Missing else old(state).push)
    {
      var fate := Others();
      reply := if fate.Answered? then Ok(state.htpasswd) else Failed;
    }

    method ReadPush() returns (reply: Reply<PushSecret>)
      requires Valid()
      modifies this
      ensures Valid() && old(history) <= history && Depleted(old(state), state) && (old(disturbed) ==> disturbed)
      ensures !disturbed ==> history == old(history)
      ensures if reply.Ok? then reply.value == state.push && broken == old(broken) else broken
      ensures
        var turn := turns(old(calls));
        && calls == old(calls) + 1 && (reply.Ok? <==> turn.fate.Answered?)
        && state == Registry(if turn.dropHtpasswd then None else old(state).htpasswd,
                             if turn.dropPush then Missing else old(state).push)
    {
      var fate := Others();
      reply := if fate.Answered? then Ok(state.push) else Failed;
    }

    /** `upsertSecret`: the secret may be deleted between the read and the write, which then fails. */
    method UpsertHtpasswd(hash: Hash) returns (done: bool)
      requires Valid() && (Readable(state.push) ==> hash.Verifies(PasswordOf(state.push).value))
      modifies this
      ensures Valid() && old(history) <= history && (old(disturbed) ==> disturbed)
      ensures state.push in {old(state.push), Missing} && (done ==> state.htpasswd == Some(hash))
      ensures
        var read, write := turns(old(calls)), turns(old(calls) + 1);
        read.fate.Answered? && old(state).htpasswd.Some? && !read.dropHtpasswd && write.dropHtpasswd ==>
          !done && state.htpasswd.None?
      ensures (old(broken) ==> broken) && (!done ==> broken || disturbed)
      ensures !disturbed ==>
        history == old(history) + [old(state).(htpasswd := Some(hash))] || (!done && history == old(history))
    {
      hide Sound, Matched, Readable;
      var existing := ReadHtpasswd();
      if existing.Failed? {
        return false;
      }
      var fate := Others();
      if fate.RequestLost? || state.htpasswd.Some? != existing.value.Some? {
        return false;
      }
      MissingIsUnreadable();
      HtpasswdIsSound(history, state, hash);
      state := state.(htpasswd := Some(hash));
      history := history + [state];
      done := fate.Answered?;
    }

    method UpsertPush(config: PushSecret) returns (done: bool)
      requires Valid() && !Readable(state.push) && config != Missing
      requires state.htpasswd.Some? && Readable(config) ==> state.htpasswd.value.Verifies(PasswordOf(config).value)
      modifies this
      ensures Valid() && old(history) <= history && (old(disturbed) ==> disturbed)
      ensures done ==> state.push == config
      ensures
        var read, write := turns(old(calls)), turns(old(calls) + 1);
        read.fate.Answered? && old(state).push != Missing && !read.dropPush && write.dropPush ==>
          !done && state.push == Missing
      ensures (old(broken) ==> broken) && (!done ==> broken || disturbed)
      ensures !disturbed ==>
        history == old(history) + [old(state).(push := config)] || (!done && history == old(history))
    {
      hide Sound, Matched, PasswordOf;
      var existing := ReadPush();
      if existing.Failed? {
        return false;
      }
      var fate := Others();
      if fate.RequestLost? || (state.push != Missing) != (existing.value != Missing) {
        return false;
      }
      MissingIsUnreadable();
      PushIsSound(history, state, config);
      state := state.(push := config);
      history := history + [state];
      done := fate.Answered?;
    }
  }

  lemma MissingIsUnreadable()
    ensures !Readable(Missing)
  {
  }

  lemma HtpasswdIsSound(history: seq<Registry>, s: Registry, hash: Hash)
    requires Sound(history) && history != [] && history[|history| - 1] == s
    requires Readable(s.push) ==> hash.Verifies(PasswordOf(s.push).value)
    ensures Sound(history + [s.(htpasswd := Some(hash))])
  {
  }

  lemma PushIsSound(history: seq<Registry>, s: Registry, config: PushSecret)
    requires Sound(history) && history != [] && history[|history| - 1] == s && !Readable(s.push)
    requires s.htpasswd.Some? && Readable(config) ==> s.htpasswd.value.Verifies(PasswordOf(config).value)
    ensures Sound(history + [s.(push := config)])
  {
  }

  /** Against deletions and a crash at any call, every state of the run is matched and no readable push secret is
      rotated. If nobody interferes, the run goes through the planned states, all of them if it completes, and it
      completes unless a call fails. */
  method CreateRegistrySecrets(store: SecretStore, generated: string) returns (completed: bool, ghost writes: nat)
    requires store.Valid() && generated != ""
    modifies store
    ensures store.Valid() && old(store.history) <= store.history && Sound(store.history)
    ensures !store.disturbed && !store.broken ==> completed
    ensures !store.disturbed ==>
      var planned := Planned(old(store.state), generated);
      && writes <= |planned| && (completed ==> writes == |planned|)
      && store.history == old(store.history) + planned[..writes]
      && store.state == After(old(store.state), generated, writes)
  {
    hide Sound, Matched, FirstPassword;
    completed, writes := false, 0;
    var htpasswd := store.ReadHtpasswd();
    if htpasswd.Failed? {
      return;
    }
    var push := store.ReadPush();
    if push.Failed? {
      return;
    }
    if htpasswd.value.Some? && push.value != Missing {
      return true, 0;
    }
    var recovered := if htpasswd.value.None? && push.value != Missing then PasswordOf(push.value) else None;
    var password := recovered.OrElse(generated);
    assert Readable(store.state.push) ==> PasswordOf(store.state.push) == Some(password);
    var done := store.UpsertHtpasswd(Bcrypt(password));
    writes := if store.history == old(store.history) then 0 else 1;
    if !done || recovered.Some? {
      return done, writes;
    }
    ConfigIsReadable(generated);
    completed := store.UpsertPush(ConfigFor(password));
    writes := if |store.history| == |old(store.history)| + 1 then 1 else 2;
  }
}
