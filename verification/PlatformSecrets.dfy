/** The platform's secrets: signing keys that must never change, and one database password in two secrets. */
module PlatformSecrets {
  import opened Calls
  import opened Wrappers

  const JWT := "JWT_SECRET"
  const KEY := "SECRETS_KEY"
  const STALE := "GITHUB_TOKEN"
  const PASSWORD := "POSTGRES_PASSWORD"

  type Data = map<string, string>

  /** `console-creds`, `postgres-creds`, and the password of `postgres-app-creds`. */
  datatype Platform = Platform(console: Option<Data>, postgres: Option<Data>, app: Option<string>)

  /** The values a run generates before it looks at the cluster. */
  datatype Generated = Generated(jwt: string, key: string, password: string)

  function ConsoleData(g: Generated): Data {
    map[JWT := g.jwt, KEY := g.key]
  }

  function PostgresData(password: string): Data {
    map["POSTGRES_USER" := "app", PASSWORD := password, "POSTGRES_DB" := "kubwave"]
  }

  /** An empty password reads as none. */
  function PasswordOf(postgres: Option<Data>): Option<string> {
    if postgres.Some? && PASSWORD in postgres.value && postgres.value[PASSWORD] != "" then Some(postgres.value[PASSWORD])
    else None
  }

  /** The database is set up with the password that the services use. */
  predicate Shared(s: Platform) {
    s.app.Some? ==> PasswordOf(s.postgres) == s.app
  }

  /** `postgres-creds`, if it is there, holds a password. */
  predicate Usable(s: Platform) {
    s.postgres.Some? ==> PasswordOf(s.postgres).Some?
  }

  // One run, undisturbed.

  /** The four places a run may write, in order. */
  function WithConsole(s: Platform, g: Generated): Platform {
    if s.console.None? then s.(console := Some(ConsoleData(g))) else s
  }

  function WithoutStale(s: Platform): Platform {
    if s.console.Some? && STALE in s.console.value then s.(console := Some(s.console.value - {STALE})) else s
  }

  function WithPostgres(s: Platform, password: string): Platform {
    if s.postgres.None? then s.(postgres := Some(PostgresData(password))) else s
  }

  function WithApp(s: Platform, password: string): Platform {
    if s.app.None? then s.(app := Some(password)) else s
  }

  /** The state when a run has got past `n` of its four places. */
  function Reached(s: Platform, g: Generated, n: nat): Platform {
    var password := PasswordOf(s.postgres).OrElse(g.password);
    if n == 0 then s
    else if n == 1 then WithConsole(s, g)
    else if n == 2 then WithoutStale(WithConsole(s, g))
    else if n == 3 then WithPostgres(WithoutStale(WithConsole(s, g)), password)
    else WithApp(WithPostgres(WithoutStale(WithConsole(s, g)), password), password)
  }

  lemma PostgresPassword(password: string)
    requires password != ""
    ensures PasswordOf(Some(PostgresData(password))) == Some(password)
  {
  }

  /** What a completed run leaves: every secret that was there, but for the stale key, and otherwise a new one; the app's
      copy gets the password of `postgres-creds` if that holds one. */
  lemma RunLeaves(s: Platform, g: Generated)
    ensures
      var t := Reached(s, g, 4);
      && t.console == Some(if s.console.Some? then s.console.value - {"GITHUB_TOKEN"}
                           else map["JWT_SECRET" := g.jwt, "SECRETS_KEY" := g.key])
      && var stored :=
           s.postgres.Some? && "POSTGRES_PASSWORD" in s.postgres.value && s.postgres.value["POSTGRES_PASSWORD"] != "";
         var password := if stored then s.postgres.value["POSTGRES_PASSWORD"] else g.password;
         && t.postgres == (if s.postgres.Some? then s.postgres
              else Some(map["POSTGRES_USER" := "app", "POSTGRES_PASSWORD" := password, "POSTGRES_DB" := "kubwave"]))
         && t.app == if s.app.Some? then s.app else Some(password)
  {
    assert map["JWT_SECRET" := g.jwt, "SECRETS_KEY" := g.key] - {"GITHUB_TOKEN"}
      == map["JWT_SECRET" := g.jwt, "SECRETS_KEY" := g.key];
    if s.console.Some? && STALE !in s.console.value {
      assert s.console.value - {"GITHUB_TOKEN"} == s.console.value;
    }
  }

  /** The order of the writes: `console-creds`, then without the stale key, then `postgres-creds`, then the app's copy. */
  lemma WritesInOrder(s: Platform, g: Generated)
    ensures Reached(s, g, 0) == s
    ensures Reached(s, g, 1) == s.(console := Reached(s, g, 1).console)
    ensures s.console.Some? ==> Reached(s, g, 1) == s
    ensures Reached(s, g, 2) == s.(console := Reached(s, g, 4).console)
    ensures Reached(s, g, 3) == Reached(s, g, 4).(app := s.app)
  {
  }

  /** The shared password survives a run that ends anywhere exactly if `postgres-creds` is absent or holds a
      password. */
  lemma SharingSurvivesARun(s: Platform, g: Generated)
    requires Shared(s) && g.password != ""
    ensures (forall n: nat :: Shared(Reached(s, g, n))) <==> Usable(s)
  {
    PostgresPassword(g.password);
    hide PostgresData, ConsoleData;
    if !Usable(s) {
      assert !Shared(Reached(s, g, 4));
    }
  }

  /** A run that completes leaves nothing for the next one to change. */
  lemma SecondRunChangesNothing(s: Platform, g: Generated, again: Generated, n: nat)
    ensures Reached(Reached(s, g, 4), again, n) == Reached(s, g, 4)
  {
  }

  // Any number of runs that end anywhere, with the app's copy deleted in between.

  datatype Event = Run(generated: Generated, reached: nat) | DeleteApp | DeletePostgres

  function Step(s: Platform, e: Event): Platform {
    match e
    case Run(g, n) => Reached(s, g, n)
    case DeleteApp => s.(app := None)
    case DeletePostgres => s.(postgres := None)
  }

  function History(s: Platform, events: seq<Event>): Platform {
    if events == [] then s else Step(History(s, events[..|events| - 1]), events[|events| - 1])
  }

  predicate Harmless(events: seq<Event>) {
    forall i | 0 <= i < |events| ::
      !events[i].DeletePostgres? && (events[i].Run? ==> events[i].generated.password != "")
  }

  lemma RunKeepsUsable(s: Platform, g: Generated, n: nat)
    requires Usable(s) && g.password != ""
    ensures Usable(Reached(s, g, n))
    ensures s.postgres.Some? ==> Reached(s, g, n).postgres == s.postgres
  {
  }

  /** Over any runs that end anywhere, the app's copy is there only with the same password in `postgres-creds`, and
      once `postgres-creds` is there it never changes. */
  lemma {:induction false} PasswordStaysShared(s: Platform, events: seq<Event>)
    requires Shared(s) && Usable(s) && Harmless(events)
    ensures Shared(History(s, events)) && Usable(History(s, events))
    ensures s.postgres.Some? ==> History(s, events).postgres == s.postgres
  {
    hide PasswordOf, Reached, Shared, Usable;
    if events != [] {
      var n := |events| - 1;
      var before := History(s, events[..n]);
      PasswordStaysShared(s, events[..n]);
      if events[n].Run? {
        SharingSurvivesARun(before, events[n].generated);
        RunKeepsUsable(before, events[n].generated, events[n].reached);
      } else {
        WithoutAppIsShared(before);
      }
    }
  }

  lemma WithoutAppIsShared(s: Platform)
    requires Usable(s)
    ensures Shared(s.(app := None)) && Usable(s.(app := None))
  {
  }

  /** A step that keeps a shared password shared: `postgres-creds` may be deleted only while the app's copy is absent,
      and a run may get as far as the app's copy only if `postgres-creds` is absent or holds a password. */
  predicate Safe(s: Platform, e: Event) {
    match e
    case Run(_, n) => n >= 4 ==> Usable(s)
    case DeleteApp => true
    case DeletePostgres => s.app.None?
  }

  predicate ProperPasswords(events: seq<Event>) {
    forall i | 0 <= i < |events| && events[i].Run? :: events[i].generated.password != ""
  }

  lemma SafeStepIff(s: Platform, e: Event)
    requires Shared(s) && (e.Run? ==> e.generated.password != "")
    ensures Shared(Step(s, e)) <==> Safe(s, e)
  {
    if e.Run? {
      PostgresPassword(e.generated.password);
    }
    hide PostgresData, ConsoleData;
  }

  /** At every moment of a history the password is shared. */
  predicate SharedThroughout(s: Platform, events: seq<Event>) {
    Shared(History(s, events)) && (events != [] ==> SharedThroughout(s, events[..|events| - 1]))
  }

  /** Every step of a history is safe in the state it finds. */
  predicate SafeThroughout(s: Platform, events: seq<Event>) {
    events != [] ==>
      var before := events[..|events| - 1];
      SafeThroughout(s, before) && Safe(History(s, before), events[|events| - 1])
  }

  /** Over every history, deletions of both secrets included: the password is shared all along exactly if it is at the
      start and every step is safe. */
  lemma {:induction false} SharedThroughoutIff(s: Platform, events: seq<Event>)
    requires ProperPasswords(events)
    ensures SharedThroughout(s, events) <==> Shared(s) && SafeThroughout(s, events)
  {
    hide Shared, Safe, Step;
    if events != [] {
      var before := events[..|events| - 1];
      SharedThroughoutIff(s, before);
      if SharedThroughout(s, before) {
        SafeStepIff(History(s, before), events[|events| - 1]);
      }
    }
  }

  /** What it means for every moment of the history. */
  lemma {:induction false} SharedAtEveryMoment(s: Platform, events: seq<Event>)
    ensures SharedThroughout(s, events) <==> forall n | 0 <= n <= |events| :: Shared(History(s, events[..n]))
  {
    hide Shared, History;
    assert events[..|events|] == events;
    if events != [] {
      var before := events[..|events| - 1];
      SharedAtEveryMoment(s, before);
      assert forall n | 0 <= n <= |before| :: before[..n] == events[..n];
    }
  }

  /** Deleting `postgres-creds` is not harmless: the next run generates another password, and the app's copy stays. */
  lemma DeletedPostgresIsNotRecovered()
    ensures
      var g, h := Generated("j", "k", "p"), Generated("j", "k", "q");
      var s := History(Platform(None, None, None), [Run(g, 4), DeletePostgres, Run(h, 4)]);
      s.app == Some("p") && PasswordOf(s.postgres) == Some("q")
  {
    var g, h := Generated("j", "k", "p"), Generated("j", "k", "q");
    var empty := Platform(None, None, None);
    PostgresPassword("p");
    PostgresPassword("q");
    assert [Run(g, 4), DeletePostgres, Run(h, 4)][..2] == [Run(g, 4), DeletePostgres];
    assert [Run(g, 4), DeletePostgres][..1] == [Run(g, 4)];
    assert [Run(g, 4)][..0] == [];
    hide PostgresData, ConsoleData;
    assert History(empty, []) == empty;
    assert History(empty, [Run(g, 4)]) == Reached(empty, g, 4);
    assert History(empty, [Run(g, 4), DeletePostgres]) == Reached(empty, g, 4).(postgres := None);
  }

  /** The keys never change once they are there, and only the stale one goes. */
  lemma {:induction false} KeysNeverChange(s: Platform, events: seq<Event>)
    requires s.console.Some?
    ensures History(s, events).console.Some?
    ensures
      var data := History(s, events).console.value;
      data == s.console.value || data == s.console.value - {"GITHUB_TOKEN"}
  {
    hide PasswordOf, PostgresData;
    if events != [] {
      KeysNeverChange(s, events[..|events| - 1]);
    }
  }

  // The program.

  /** What others do to the secrets. */
  datatype Change = SetConsole(console: Option<Data>) | SetPostgres(postgres: Option<Data>) | SetApp(app: Option<string>)

  datatype Turn = Turn(changes: seq<Change>, fate: Fate)

  function Changed(s: Platform, c: Change): Platform {
    match c
    case SetConsole(console) => s.(console := console)
    case SetPostgres(postgres) => s.(postgres := postgres)
    case SetApp(app) => s.(app := app)
  }

  /** Somebody else writes the database secrets, or deletes the one that cannot be recovered. */
  predicate Tampers(c: Change) {
    c.SetPostgres? || (c.SetApp? && c.app.Some?)
  }

  /** A write of the program: it creates a secret that is not there, or takes the stale key out of `console-creds`. */
  predicate Fair(before: Platform, after: Platform) {
    || (before.console.None? && after.console.Some? && after == before.(console := after.console))
    || (before.console.Some? && after == before.(console := Some(before.console.value - {"GITHUB_TOKEN"})))
    || (before.postgres.None? && after.postgres.Some? && after == before.(postgres := after.postgres))
    || (before.app.None? && after.app.Some? && after == before.(app := after.app))
  }

  ghost predicate AllSound(history: seq<Platform>) {
    forall i | 0 <= i < |history| :: Shared(history[i]) && Usable(history[i])
  }

  /** The cluster's secrets. `history` holds every state so far, `writes` what each write of the program
      found and left; `disturbed` tells whether others changed anything, `tampered` whether they
      touched the database secrets in a way that is not harmless, `broken` whether any call failed on its way. */
  class SecretStore {
    const turns: nat -> Turn
    var calls: nat
    var state: Platform
    var consoleVersion: nat
    ghost var history: seq<Platform>
    ghost var writes: seq<(Platform, Platform)>
    ghost var disturbed: bool
    ghost var tampered: bool
    ghost var broken: bool

    ghost predicate Valid()
      reads this
    {
      && (!tampered ==> history != [] && history[|history| - 1] == state && AllSound(history))
      && (tampered ==> disturbed)
      && forall i | 0 <= i < |writes| :: Fair(writes[i].0, writes[i].1)
    }

    /** What every call keeps. */
    twostate predicate Continues()
      reads this
    {
      && Valid() && old(consoleVersion) <= consoleVersion
      && old(history) <= history && old(writes) <= writes
      && (old(disturbed) ==> disturbed) && (old(tampered) ==> tampered) && (old(broken) ==> broken)
    }

    constructor (turns: nat -> Turn, state: Platform)
      requires Shared(state) && Usable(state)
      ensures Valid() && this.turns == turns && this.state == state && writes == [] && !disturbed && !tampered && !broken
    {
      this.turns, this.calls, this.state, this.consoleVersion := turns, 0, state, 0;
      this.history, this.writes := [state], [];
      this.disturbed, this.tampered, this.broken := false, false, false;
    }

    method Interfere(c: Change)
      requires Valid()
      modifies this
      ensures Continues() && disturbed && broken == old(broken) && calls == old(calls)
      ensures state == Changed(old(state), c) && writes == old(writes)
      ensures consoleVersion == old(consoleVersion) + if c.SetConsole? then 1 else 0
      ensures tampered <==> old(tampered) || c.SetPostgres? || (c.SetApp? && c.app.Some?)
      ensures consoleVersion == old(consoleVersion) ==> state.console == old(state).console
      ensures !tampered ==> state.postgres == old(state).postgres
    {
      hide PasswordOf, Fair;
      disturbed, tampered := true, tampered || Tampers(c);
      if c.SetConsole? {
        consoleVersion := consoleVersion + 1;
      }
      state := Changed(state, c);
      history := history + [state];
    }

    method Others() returns (fate: Fate)
      requires Valid()
      modifies this
      ensures Continues() && (!disturbed ==> state == old(state) && history == old(history))
      ensures consoleVersion == old(consoleVersion) ==> state.console == old(state).console
      ensures !disturbed ==> consoleVersion == old(consoleVersion)
      ensures !tampered ==> state.postgres == old(state).postgres
      ensures broken == (old(broken) || !fate.Answered?)
      ensures
        var turn := turns(old(calls));
        && calls == old(calls) + 1 && fate == turn.fate && writes == old(writes)
        && (disturbed <==> old(disturbed) || turn.changes != [])
        && (tampered <==> (old(tampered) || exists c :: c in turn.changes && (c.SetPostgres? || (c.SetApp? && c.app.Some?))))
    {
      hide AllSound, Fair;
      var turn := turns(calls);
      calls := calls + 1;
      broken := broken || !turn.fate.Answered?;
      for i := 0 to |turn.changes|
        invariant Continues() && (!disturbed ==> state == old(state) && history == old(history))
        invariant consoleVersion == old(consoleVersion) ==> state.console == old(state).console
        invariant !disturbed ==> consoleVersion == old(consoleVersion)
        invariant !tampered ==> state.postgres == old(state).postgres
        invariant broken == (old(broken) || !turn.fate.Answered?)
        invariant calls == old(calls) + 1 && writes == old(writes) && (disturbed <==> old(disturbed) || i > 0)
        invariant tampered <==> (old(tampered) || exists j :: 0 <= j < i && Tampers(turn.changes[j]))
      {
        Interfere(turn.changes[i]);
      }
      fate := turn.fate;
    }

    /** Reads; the version is that of `console-creds`. */
    method Read() returns (reply: Reply<(Platform, nat)>)
      requires Valid()
      modifies this
      ensures Continues() && (!disturbed ==> state == old(state) && history == old(history)) && writes == old(writes)
      ensures !tampered ==> state.postgres == old(state).postgres
      ensures if reply.Ok? then reply.value == (state, consoleVersion) && broken == old(broken) else broken
    {
      var fate := Others();
      reply := if fate.Answered? then Ok((state, consoleVersion)) else Failed;
    }

    /** `createSecretIfNotExists` for `console-creds`. */
    method CreateConsole(g: Generated) returns (done: bool)
      requires Valid()
      modifies this
      ensures Continues() && (!tampered ==> state.postgres == old(state).postgres)
      ensures !disturbed ==>
        state == WithConsole(old(state), g) || (!done && state == old(state))
      ensures !done ==> broken || disturbed
    {
      hide PasswordOf, ConsoleData;
      var existing := Read();
      if existing.Failed? || existing.value.0.console.Some? {
        return existing.Ok?;
      }
      var fate := Others();
      if fate.RequestLost? || state.console.Some? {
        return false;
      }
      Write(state.(console := Some(ConsoleData(g))));
      done := fate.Answered?;
    }

    /** A write of the program takes effect. */
    method Write(next: Platform)
      requires Valid() && Fair(state, next) && (!tampered ==> Shared(next) && Usable(next))
      modifies this
      ensures Continues() && state == next && writes == old(writes) + [(old(state), next)]
      ensures history == old(history) + [next]
      ensures consoleVersion == old(consoleVersion) + if next.console != old(state).console then 1 else 0
      ensures disturbed == old(disturbed) && tampered == old(tampered) && broken == old(broken)
    {
      hide PasswordOf;
      writes := writes + [(state, next)];
      consoleVersion := consoleVersion + if next.console != state.console then 1 else 0;
      state := next;
      history := history + [state];
    }

    /** `removeStaleConsoleKey`: the replace names the version that was read, so it fails if anybody was faster. */
    method RemoveStaleConsoleKey() returns (done: bool)
      requires Valid()
      modifies this
      ensures Continues() && (!tampered ==> state.postgres == old(state).postgres)
      ensures !disturbed ==>
        state == WithoutStale(old(state)) || (!done && state == old(state))
      ensures !done ==> broken || disturbed
    {
      hide PasswordOf;
      var existing := Read();
      if existing.Failed? {
        return false;
      }
      var (seen, version) := existing.value;
      if seen.console.None? || STALE !in seen.console.value {
        return true;
      }
      var fate := Others();
      if fate.RequestLost? || state.console.None? || consoleVersion != version {
        return false;
      }
      Write(state.(console := Some(seen.console.value - {STALE})));
      done := fate.Answered?;
    }

    /** `createSecretIfNotExists` for `postgres-creds`. */
    method CreatePostgres(password: string) returns (done: bool)
      requires Valid() && password != ""
      modifies this
      ensures Continues()
      ensures !tampered ==>
        state.postgres == WithPostgres(old(state), password).postgres || (!done && state.postgres == old(state).postgres)
      ensures !disturbed ==>
        state == WithPostgres(old(state), password) || (!done && state == old(state))
      ensures !done ==> broken || disturbed
    {
      hide PasswordOf, PostgresData;
      var existing := Read();
      if existing.Failed? || existing.value.0.postgres.Some? {
        return existing.Ok?;
      }
      var fate := Others();
      if fate.RequestLost? || state.postgres.Some? {
        return false;
      }
      PostgresIsSound(state, password);
      Write(state.(postgres := Some(PostgresData(password))));
      done := fate.Answered?;
    }

    /** `createSecretIfNotExists` for `postgres-app-creds`. */
    method CreateApp(password: string) returns (done: bool)
      requires Valid() && (!tampered ==> PasswordOf(state.postgres) == Some(password))
      modifies this
      ensures Continues()
      ensures !disturbed ==>
        state == WithApp(old(state), password) || (!done && state == old(state))
      ensures !done ==> broken || disturbed
    {
      hide PasswordOf;
      var existing := Read();
      if existing.Failed? || existing.value.0.app.Some? {
        return existing.Ok?;
      }
      var fate := Others();
      if fate.RequestLost? || state.app.Some? {
        return false;
      }
      Write(state.(app := Some(password)));
      done := fate.Answered?;
    }
  }

  lemma PostgresIsSound(s: Platform, password: string)
    requires password != "" && s.postgres.None?
    ensures
      var t := s.(postgres := Some(PostgresData(password)));
      PasswordOf(t.postgres) == Some(password) && Usable(t) && (Shared(s) ==> Shared(t))
  {
  }

  /** Against anything others do and a crash at any call: every write creates a secret that is not there, or takes the
      stale key out of `console-creds`; and as long as nobody tampers with the database secrets, every state of the run shares the
      password. If nobody interferes, the run ends in one of the states on its way, in the last one if it completes, and
      it completes unless a call fails. */
  method CreateSecrets(store: SecretStore, g: Generated) returns (completed: bool, ghost reached: nat)
    requires store.Valid() && g.password != ""
    modifies store
    ensures store.Valid() && old(store.history) <= store.history && old(store.writes) <= store.writes
    ensures !store.tampered ==> AllSound(store.history)
    ensures forall i | 0 <= i < |store.writes| :: Fair(store.writes[i].0, store.writes[i].1)
    ensures !store.disturbed && !store.broken ==> completed
    ensures !store.disturbed ==>
      reached <= 4 && store.state == Reached(old(store.state), g, reached) && (completed ==> reached == 4)
  {
    hide PasswordOf, AllSound, ConsoleData, PostgresData;
    completed, reached := false, 0;
    var done := store.CreateConsole(g);
    reached := if store.state == old(store.state) then 0 else 1;
    if !done {
      return;
    }
    ghost var before := store.state;
    done := store.RemoveStaleConsoleKey();
    reached := if store.state == before then 1 else 2;
    if !done {
      return;
    }
    ghost var more;
    completed, more := CreateDatabaseSecrets(store, g.password);
    reached := 2 + more;
  }

  /** The two database secrets: one password, read first if it is there. */
  method CreateDatabaseSecrets(store: SecretStore, generated: string) returns (completed: bool, ghost reached: nat)
    requires store.Valid() && generated != ""
    modifies store
    ensures store.Continues()
    ensures !store.disturbed && !store.broken ==> completed
    ensures !store.disturbed ==>
      var s := old(store.state);
      var password := PasswordOf(s.postgres).OrElse(generated);
      && reached <= 2 && (completed ==> reached == 2)
      && store.state == (
        if reached == 0 then s
        else if reached == 1 then WithPostgres(s, password)
        else WithApp(WithPostgres(s, password), password))
  {
    hide PasswordOf, AllSound, PostgresData;
    completed, reached := false, 0;
    var existing := store.Read();
    if existing.Failed? {
      return;
    }
    var password := PasswordOf(existing.value.0.postgres).OrElse(generated);
    ProperPassword(existing.value.0.postgres, generated);
    if !store.tampered {
      LastIsUsable(store.history);
    }
    ghost var before := store.state;
    var done := store.CreatePostgres(password);
    reached := if done || store.state != before then 1 else 0;
    if !done {
      return;
    }
    PostgresPassword(password);
    before := store.state;
    completed := store.CreateApp(password);
    reached := if completed || store.state != before then 2 else 1;
  }

  lemma LastIsUsable(history: seq<Platform>)
    requires history != [] && AllSound(history)
    ensures Usable(history[|history| - 1])
  {
  }

  lemma ProperPassword(postgres: Option<Data>, generated: string)
    requires generated != ""
    ensures PasswordOf(postgres).OrElse(generated) != ""
  {
  }
}
