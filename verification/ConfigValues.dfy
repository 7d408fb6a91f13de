/** The values of a service's configuration that references may live in, some of them encrypted. */
module ConfigValues {
  import opened Wrappers
  import opened ServiceReferences
  import opened Text

  /** A ciphertext stands for its plaintext and the random nonce it was made with. */
  datatype Ciphertext = Encrypted(plaintext: string, nonce: nat)

  datatype PlainEntry = PlainEntry(key: string, value: string)
  datatype SecretEntry = SecretEntry(key: string, value: Ciphertext)

  datatype Config = Config(
    env: seq<PlainEntry>,
    secrets: Option<seq<SecretEntry>>,
    configFiles: Option<seq<SecretEntry>>)

  function DecryptSecret(c: Ciphertext): string {
    c.plaintext
  }

  /** The plaintexts of all values, in order. */
  function EnvTexts(entries: seq<PlainEntry>): seq<string> {
    seq(|entries|, i requires 0 <= i < |entries| => entries[i].value)
  }

  function SecretTexts(entries: Option<seq<SecretEntry>>): seq<string> {
    var list := entries.OrElse([]);
    seq(|list|, i requires 0 <= i < |list| => DecryptSecret(list[i].value))
  }

  function Texts(config: Config): seq<string> {
    EnvTexts(config.env) + SecretTexts(config.secrets) + SecretTexts(config.configFiles)
  }

  /** The texts of a configuration are the values of its environment and what its secrets and files decrypt to. */
  lemma TextsAre(config: Config, text: string)
    ensures text in Texts(config) <==>
      || (exists e :: e in config.env && e.value == text)
      || (exists e :: e in config.secrets.OrElse([]) && e.value.plaintext == text)
      || (exists e :: e in config.configFiles.OrElse([]) && e.value.plaintext == text)
  {
    EnvTextsAre(config.env, text);
    SecretTextsAre(config.secrets, text);
    SecretTextsAre(config.configFiles, text);
    hide EnvTexts, SecretTexts;
  }

  lemma EnvTextsAre(entries: seq<PlainEntry>, text: string)
    ensures text in EnvTexts(entries) <==> exists e :: e in entries && e.value == text
  {
    if e :| e in entries && e.value == text {
      var i :| 0 <= i < |entries| && entries[i] == e;
      assert EnvTexts(entries)[i] == text;
    }
  }

  lemma SecretTextsAre(entries: Option<seq<SecretEntry>>, text: string)
    ensures text in SecretTexts(entries) <==> exists e :: e in entries.OrElse([]) && e.value.plaintext == text
  {
    var list := entries.OrElse([]);
    if e :| e in list && e.value.plaintext == text {
      var i :| 0 <= i < |list| && list[i] == e;
      assert SecretTexts(entries)[i] == text;
    }
  }

  predicate SameKeys(a: Option<seq<SecretEntry>>, b: Option<seq<SecretEntry>>) {
    && (a.Some? <==> b.Some?) && |a.OrElse([])| == |b.OrElse([])|
    && forall i | 0 <= i < |a.OrElse([])| :: a.OrElse([])[i].key == b.OrElse([])[i].key
  }

  /** Ciphertexts whose text has not changed are the same ciphertexts. */
  predicate Untouched(a: Option<seq<SecretEntry>>, b: Option<seq<SecretEntry>>)
    requires SameKeys(a, b)
  {
    forall i | 0 <= i < |a.OrElse([])| ::
      DecryptSecret(a.OrElse([])[i].value) == DecryptSecret(b.OrElse([])[i].value) ==> a.OrElse([])[i] == b.OrElse([])[i]
  }

  /** One value: decrypted, mapped, and encrypted again only if it changed. */
  method MapCiphertext(c: Ciphertext, mapValue: string -> string, nonce: nat) returns (r: Ciphertext, changed: bool)
    ensures DecryptSecret(r) == mapValue(DecryptSecret(c))
    ensures changed <==> mapValue(DecryptSecret(c)) != DecryptSecret(c)
    ensures !changed ==> r == c
  {
    var value := DecryptSecret(c);
    var next := mapValue(value);
    if next == value {
      return c, false;
    }
    r, changed := Encrypted(next, nonce), true;
  }

  method MapSecrets(entries: seq<SecretEntry>, mapValue: string -> string, nonces: nat -> nat, first: nat)
    returns (r: seq<SecretEntry>, changed: bool)
    ensures SameKeys(Some(entries), Some(r)) && Untouched(Some(entries), Some(r))
    ensures forall i | 0 <= i < |entries| :: DecryptSecret(r[i].value) == mapValue(DecryptSecret(entries[i].value))
    ensures changed <==>
      exists i :: 0 <= i < |entries| && mapValue(DecryptSecret(entries[i].value)) != DecryptSecret(entries[i].value)
  {
    r, changed := [], false;
    for i := 0 to |entries|
      invariant |r| == i
      invariant forall j | 0 <= j < i :: r[j].key == entries[j].key
      invariant forall j | 0 <= j < i :: DecryptSecret(r[j].value) == mapValue(DecryptSecret(entries[j].value))
      invariant forall j | 0 <= j < i && mapValue(DecryptSecret(entries[j].value)) == DecryptSecret(entries[j].value) ::
        r[j] == entries[j]
      invariant changed <==>
        exists j :: 0 <= j < i && mapValue(DecryptSecret(entries[j].value)) != DecryptSecret(entries[j].value)
    {
      var value, different := MapCiphertext(entries[i].value, mapValue, nonces(first + i));
      r := r + [SecretEntry(entries[i].key, value)];
      changed := changed || different;
    }
  }

  method MapEnv(entries: seq<PlainEntry>, mapValue: string -> string) returns (r: seq<PlainEntry>, changed: bool)
    ensures |r| == |entries|
    ensures forall i | 0 <= i < |entries| :: r[i] == PlainEntry(entries[i].key, mapValue(entries[i].value))
    ensures changed <==> exists i :: 0 <= i < |entries| && mapValue(entries[i].value) != entries[i].value
  {
    r, changed := [], false;
    for i := 0 to |entries|
      invariant |r| == i
      invariant forall j | 0 <= j < i :: r[j] == PlainEntry(entries[j].key, mapValue(entries[j].value))
      invariant changed <==> exists j :: 0 <= j < i && mapValue(entries[j].value) != entries[j].value
    {
      var next := mapValue(entries[i].value);
      changed := changed || next != entries[i].value;
      r := r + [PlainEntry(entries[i].key, next)];
    }
  }

  /** `mapConfigValues`: every text is mapped, nothing else changes, unchanged ciphertexts are kept as they are, and
      the configuration itself is returned exactly if no text changes. */
  method MapConfigValues(config: Config, mapValue: string -> string, nonces: nat -> nat) returns (r: Config)
    ensures |Texts(r)| == |Texts(config)|
    ensures forall i | 0 <= i < |Texts(config)| :: Texts(r)[i] == mapValue(Texts(config)[i])
    ensures |r.env| == |config.env| && forall i | 0 <= i < |config.env| :: r.env[i].key == config.env[i].key
    ensures SameKeys(config.secrets, r.secrets) && Untouched(config.secrets, r.secrets)
    ensures SameKeys(config.configFiles, r.configFiles) && Untouched(config.configFiles, r.configFiles)
    ensures forall i | 0 <= i < |config.env| :: r.env[i].value == mapValue(config.env[i].value)
    ensures forall i | 0 <= i < |config.secrets.OrElse([])| ::
      r.secrets.value[i].value.plaintext == mapValue(config.secrets.value[i].value.plaintext)
    ensures forall i | 0 <= i < |config.configFiles.OrElse([])| ::
      r.configFiles.value[i].value.plaintext == mapValue(config.configFiles.value[i].value.plaintext)
    ensures r == config <==> forall i | 0 <= i < |Texts(config)| :: mapValue(Texts(config)[i]) == Texts(config)[i]
  {
    var env, changed := MapEnv(config.env, mapValue);
    var secrets, configFiles, different: bool, other: bool := config.secrets, config.configFiles, false, false;
    if config.secrets.Some? {
      var mapped;
      mapped, different := MapSecrets(config.secrets.value, mapValue, nonces, 0);
      secrets := Some(mapped);
    }
    if config.configFiles.Some? {
      var mapped;
      mapped, other := MapSecrets(config.configFiles.value, mapValue, nonces, |config.secrets.OrElse([])|);
      configFiles := Some(mapped);
    }
    var next := Config(env, secrets, configFiles);
    r := if changed || different || other then next else config;
    MappedTexts(config, next, mapValue);
    AllTexts(config, mapValue);
    if !(changed || different || other) {
      assert Texts(config) == Texts(next);
    }
  }

  /** How the texts of a configuration follow from its three parts. */
  lemma MappedTexts(config: Config, next: Config, mapValue: string -> string)
    requires |next.env| == |config.env|
    requires forall i | 0 <= i < |config.env| :: next.env[i].value == mapValue(config.env[i].value)
    requires MappedSecrets(config.secrets, next.secrets, mapValue)
    requires MappedSecrets(config.configFiles, next.configFiles, mapValue)
    ensures |Texts(next)| == |Texts(config)|
    ensures forall i | 0 <= i < |Texts(config)| :: Texts(next)[i] == mapValue(Texts(config)[i])
  {
  }

  predicate MappedSecrets(a: Option<seq<SecretEntry>>, b: Option<seq<SecretEntry>>, mapValue: string -> string) {
    && SameKeys(a, b)
    && forall i | 0 <= i < |a.OrElse([])| ::
         DecryptSecret(b.OrElse([])[i].value) == mapValue(DecryptSecret(a.OrElse([])[i].value))
  }

  lemma AllTexts(config: Config, mapValue: string -> string)
    ensures (forall i | 0 <= i < |Texts(config)| :: mapValue(Texts(config)[i]) == Texts(config)[i]) <==>
      && (forall i | 0 <= i < |config.env| :: mapValue(config.env[i].value) == config.env[i].value)
      && SecretsFixed(config.secrets, mapValue) && SecretsFixed(config.configFiles, mapValue)
  {
    var env, secrets, files := EnvTexts(config.env), SecretTexts(config.secrets), SecretTexts(config.configFiles);
    var all := Texts(config);
    assert forall i | 0 <= i < |env| :: all[i] == env[i];
    assert forall i | 0 <= i < |secrets| :: all[|env| + i] == secrets[i];
    assert forall i | 0 <= i < |files| :: all[|env| + |secrets| + i] == files[i];
    if forall i | 0 <= i < |all| :: mapValue(all[i]) == all[i] {
      assert forall i | 0 <= i < |env| :: mapValue(env[i]) == env[i];
      assert forall i | 0 <= i < |secrets| :: mapValue(secrets[i]) == secrets[i];
      assert forall i | 0 <= i < |files| :: mapValue(files[i]) == files[i];
      assert forall i | 0 <= i < |config.env| :: config.env[i].value == env[i];
      FixedTexts(config.secrets, mapValue);
      FixedTexts(config.configFiles, mapValue);
    }
  }

  lemma FixedTexts(entries: Option<seq<SecretEntry>>, mapValue: string -> string)
    requires forall i | 0 <= i < |SecretTexts(entries)| :: mapValue(SecretTexts(entries)[i]) == SecretTexts(entries)[i]
    ensures SecretsFixed(entries, mapValue)
  {
    forall i | 0 <= i < |entries.OrElse([])|
      ensures mapValue(DecryptSecret(entries.OrElse([])[i].value)) == DecryptSecret(entries.OrElse([])[i].value)
    {
      assert SecretTexts(entries)[i] == DecryptSecret(entries.OrElse([])[i].value);
    }
  }

  predicate SecretsFixed(entries: Option<seq<SecretEntry>>, mapValue: string -> string) {
    forall i | 0 <= i < |entries.OrElse([])| ::
      mapValue(DecryptSecret(entries.OrElse([])[i].value)) == DecryptSecret(entries.OrElse([])[i].value)
  }

  /** Renaming a service in a configuration: the references of every one-line text, encrypted or not, that refers to
      known services follow the rename and stay valid. */
  method RenameInConfig(config: Config, from: string, to: string, names: set<string>, nonces: nat -> nat)
    returns (r: Config)
    ensures |Texts(r)| == |Texts(config)|
    ensures forall i | 0 <= i < |Texts(config)| && RenamesWell(Texts(config)[i], to, names) ::
      && References(Texts(r)[i]) == RenameList(References(Texts(config)[i]), from, to)
      && Issues(Scan(Texts(r)[i]), names - {from} + {to}) == []
  {
    hide Texts, Scan, OneLine, Issues, References, RenameReferences, Referable;
    r := MapConfigValues(config, value => RenameReferences(value, from, to), nonces);
    forall i | 0 <= i < |Texts(config)| && RenamesWell(Texts(config)[i], to, names)
      ensures
        && References(Texts(r)[i]) == RenameList(References(Texts(config)[i]), from, to)
        && Issues(Scan(Texts(r)[i]), names - {from} + {to}) == []
    {
      RenamePreservesReferences(Texts(config)[i], from, to, names);
    }
  }

  predicate RenamesWell(text: string, to: string, names: set<string>) {
    OneLine(text) && Issues(Scan(text), names) == [] && Referable(to)
  }
}
