/**
 * The credential set-up of the migration scripts: each of the five connection
 * settings is the stripped answer typed at its prompt, or, when that is blank,
 * the value the `.env` file already holds, or else a built-in default. All five
 * must end up non-empty; then they are written into the file. The prompts
 * become a parameter holding what was typed, and whether the connection test
 * that follows succeeds becomes another.
 */
module DbCredentials {
  import opened Wrappers
  import opened Text
  import opened Dicts
  import opened EnvConfig

  /** The five settings, in the order they are asked for. */
  datatype Settings = Settings(server: string, instance: string, name: string, user: string, password: string)

  const ServerKey := "DB_SERVER"
  const InstanceKey := "DB_INSTANCE"
  const NameKey := "DB_NAME"
  const UserKey := "DB_USER"
  const PasswordKey := "DB_PASSWORD"

  /** The setting for one prompt: the stripped answer, else the current value, else the default. */
  function Answer(typed: string, current: Env, key: string, default: string): (r: string)
    ensures Strip(typed) != [] ==> r == Strip(typed)
    ensures Strip(typed) == [] && HasKey(current, key) ==> Some(r) == Get(current, key)
    ensures Strip(typed) == [] && !HasKey(current, key) ==> r == default
  {
    var s := Strip(typed);
    if s != [] then s
    else match Get(current, key)
      case Some(v) => v
      case None => default
  }

  /** The settings chosen from what was typed at the five prompts and the current file. */
  function Chosen(current: Env, typed: Settings): Settings {
    Settings(
      Answer(typed.server, current, ServerKey, "GABINETE2"),
      Answer(typed.instance, current, InstanceKey, "INFOMED"),
      Answer(typed.name, current, NameKey, "GELITE"),
      Answer(typed.user, current, UserKey, ""),
      Answer(typed.password, current, PasswordKey, ""))
  }

  /** Every setting is filled in. */
  predicate Complete(s: Settings) {
    s.server != [] && s.instance != [] && s.name != [] && s.user != [] && s.password != []
  }

  /** The current variables with the five settings assigned over them, in prompt order. */
  function WithSettings(current: Env, s: Settings): Env {
    var e1 := Set(current, ServerKey, s.server);
    var e2 := Set(e1, InstanceKey, s.instance);
    var e3 := Set(e2, NameKey, s.name);
    var e4 := Set(e3, UserKey, s.user);
    Set(e4, PasswordKey, s.password)
  }

  /** The five keys are distinct. */
  lemma KeysDistinct()
    ensures ServerKey != InstanceKey && ServerKey != NameKey && ServerKey != UserKey && ServerKey != PasswordKey
    ensures InstanceKey != NameKey && InstanceKey != UserKey && InstanceKey != PasswordKey
    ensures NameKey != UserKey && NameKey != PasswordKey && UserKey != PasswordKey
  {
    assert ServerKey[3] == 'S' && InstanceKey[3] == 'I' && NameKey[3] == 'N';
    assert UserKey[3] == 'U' && PasswordKey[3] == 'P';
  }

  /** One of the five keys. */
  predicate SettingKey(key: string) {
    key == ServerKey || key == InstanceKey || key == NameKey || key == UserKey || key == PasswordKey
  }

  /** Each of the five keys holds its setting. */
  lemma WithSettingsHolds(current: Env, s: Settings)
    ensures Get(WithSettings(current, s), ServerKey) == Some(s.server)
    ensures Get(WithSettings(current, s), InstanceKey) == Some(s.instance)
    ensures Get(WithSettings(current, s), NameKey) == Some(s.name)
    ensures Get(WithSettings(current, s), UserKey) == Some(s.user)
    ensures Get(WithSettings(current, s), PasswordKey) == Some(s.password)
  {
    var e1 := Set(current, ServerKey, s.server);
    var e2 := Set(e1, InstanceKey, s.instance);
    var e3 := Set(e2, NameKey, s.name);
    var e4 := Set(e3, UserKey, s.user);
    KeysDistinct();
    GetSet(current, ServerKey, s.server, ServerKey);
    GetSet(e1, InstanceKey, s.instance, ServerKey);
    GetSet(e2, NameKey, s.name, ServerKey);
    GetSet(e3, UserKey, s.user, ServerKey);
    GetSet(e4, PasswordKey, s.password, ServerKey);
    GetSet(e1, InstanceKey, s.instance, InstanceKey);
    GetSet(e2, NameKey, s.name, InstanceKey);
    GetSet(e3, UserKey, s.user, InstanceKey);
    GetSet(e4, PasswordKey, s.password, InstanceKey);
    GetSet(e2, NameKey, s.name, NameKey);
    GetSet(e3, UserKey, s.user, NameKey);
    GetSet(e4, PasswordKey, s.password, NameKey);
    GetSet(e3, UserKey, s.user, UserKey);
    GetSet(e4, PasswordKey, s.password, UserKey);
    GetSet(e4, PasswordKey, s.password, PasswordKey);
  }

  /** Every other key keeps its current value. */
  lemma WithSettingsKeeps(current: Env, s: Settings, key: string)
    requires !SettingKey(key)
    ensures Get(WithSettings(current, s), key) == Get(current, key)
  {
    var e1 := Set(current, ServerKey, s.server);
    var e2 := Set(e1, InstanceKey, s.instance);
    var e3 := Set(e2, NameKey, s.name);
    var e4 := Set(e3, UserKey, s.user);
    GetSet(current, ServerKey, s.server, key);
    GetSet(e1, InstanceKey, s.instance, key);
    GetSet(e2, NameKey, s.name, key);
    GetSet(e3, UserKey, s.user, key);
    GetSet(e4, PasswordKey, s.password, key);
  }

  /** Pressing Enter at every prompt keeps each variable the file already has. */
  lemma BlankAnswersKeep(current: Env, typed: Settings, key: string)
    requires Strip(typed.server) == [] && Strip(typed.instance) == [] && Strip(typed.name) == []
    requires Strip(typed.user) == [] && Strip(typed.password) == []
    requires HasKey(current, key)
    ensures Get(WithSettings(current, Chosen(current, typed)), key) == Get(current, key)
  {
    var chosen := Chosen(current, typed);
    if SettingKey(key) {
      WithSettingsHolds(current, chosen);
    } else {
      WithSettingsKeeps(current, chosen, key);
    }
  }

  // ---------------------------------------------------------------- reading the saved file back

  /** Nothing typed holds a newline. */
  predicate SingleLineAnswers(typed: Settings) {
    '\n' !in typed.server && '\n' !in typed.instance && '\n' !in typed.name
    && '\n' !in typed.user && '\n' !in typed.password
  }

  /** The keys can be written on a line and read back. */
  lemma KeysGood()
    ensures PlainKey(ServerKey) && PlainKey(InstanceKey) && PlainKey(NameKey) && PlainKey(UserKey) && PlainKey(PasswordKey)
    ensures '\n' !in ServerKey && '\n' !in InstanceKey && '\n' !in NameKey && '\n' !in UserKey && '\n' !in PasswordKey
  {
  }

  /** So can the defaults. */
  lemma DefaultsGood()
    ensures '\n' !in "GABINETE2" && TrimEnd("GABINETE2") == "GABINETE2"
    ensures '\n' !in "INFOMED" && TrimEnd("INFOMED") == "INFOMED"
    ensures '\n' !in "GELITE" && TrimEnd("GELITE") == "GELITE"
  {
  }

  /** An answer taken from a single-line typed text, a good file or a good default is a good value. */
  lemma AnswerGood(typed: string, current: Env, key: string, default: string)
    requires '\n' !in typed && '\n' !in default && TrimEnd(default) == default
    requires forall e :: e in current ==> GoodEntry(e)
    ensures var r := Answer(typed, current, key, default); '\n' !in r && TrimEnd(r) == r
  {
    var s := Strip(typed);
    if s != [] {
      if '\n' in s {
        StripWithin(typed, '\n');
      }
      TrimEndUnpadded(s);
    } else if HasKey(current, key) {
      var i :| 0 <= i < |current| && current[i] == (key, Get(current, key).value);
      assert current[i] in current;
    }
  }

  /** The chosen settings make good entries under their keys. */
  lemma ChosenGood(current: Env, typed: Settings)
    requires SingleLineAnswers(typed) && forall e :: e in current ==> GoodEntry(e)
    ensures var c := Chosen(current, typed);
            GoodEntry((ServerKey, c.server)) && GoodEntry((InstanceKey, c.instance)) && GoodEntry((NameKey, c.name))
            && GoodEntry((UserKey, c.user)) && GoodEntry((PasswordKey, c.password))
  {
    KeysGood();
    DefaultsGood();
    AnswerGood(typed.server, current, ServerKey, "GABINETE2");
    AnswerGood(typed.instance, current, InstanceKey, "INFOMED");
    AnswerGood(typed.name, current, NameKey, "GELITE");
    AnswerGood(typed.user, current, UserKey, "");
    AnswerGood(typed.password, current, PasswordKey, "");
  }

  /** Assigning good settings over good variables with distinct keys keeps both properties. */
  lemma WithSettingsGood(current: Env, s: Settings)
    requires UniqueKeys(current) && forall e :: e in current ==> GoodEntry(e)
    requires GoodEntry((ServerKey, s.server)) && GoodEntry((InstanceKey, s.instance)) && GoodEntry((NameKey, s.name))
    requires GoodEntry((UserKey, s.user)) && GoodEntry((PasswordKey, s.password))
    ensures UniqueKeys(WithSettings(current, s)) && forall e :: e in WithSettings(current, s) ==> GoodEntry(e)
  {
    var e1 := Set(current, ServerKey, s.server);
    var e2 := Set(e1, InstanceKey, s.instance);
    var e3 := Set(e2, NameKey, s.name);
    var e4 := Set(e3, UserKey, s.user);
    SetKeepsUnique(current, ServerKey, s.server);
    SetGood(current, ServerKey, s.server);
    SetKeepsUnique(e1, InstanceKey, s.instance);
    SetGood(e1, InstanceKey, s.instance);
    SetKeepsUnique(e2, NameKey, s.name);
    SetGood(e2, NameKey, s.name);
    SetKeepsUnique(e3, UserKey, s.user);
    SetGood(e3, UserKey, s.user);
    SetKeepsUnique(e4, PasswordKey, s.password);
    SetGood(e4, PasswordKey, s.password);
  }

  /**
   * When nothing typed holds a newline, the saved file reads back with the five
   * chosen settings and every other variable as it was, whether or not the file
   * ended in a newline.
   */
  lemma SavedSettingsReadBack(text: string, typed: Settings, key: string)
    requires SingleLineAnswers(typed)
    ensures var current := ReadEnv(text);
            var chosen := Chosen(current, typed);
            var after := ReadEnv(WriteEnvFixed(text, WithSettings(current, chosen)));
            && Get(after, ServerKey) == Some(chosen.server)
            && Get(after, InstanceKey) == Some(chosen.instance)
            && Get(after, NameKey) == Some(chosen.name)
            && Get(after, UserKey) == Some(chosen.user)
            && Get(after, PasswordKey) == Some(chosen.password)
            && (!SettingKey(key) ==> Get(after, key) == Get(current, key))
  {
    var current := ReadEnv(text);
    var chosen := Chosen(current, typed);
    var env := WithSettings(current, chosen);
    TerminateFileLines(text);
    TerminateKeeps(ReadLines(text), key);
    EnvOfEntries(Terminate(ReadLines(text)));
    ChosenGood(current, typed);
    WithSettingsGood(current, chosen);
    WithSettingsHolds(current, chosen);
    GoodEntriesRereadable(env);
    FixedReadBack(text, env, ServerKey);
    FixedReadBack(text, env, InstanceKey);
    FixedReadBack(text, env, NameKey);
    FixedReadBack(text, env, UserKey);
    FixedReadBack(text, env, PasswordKey);
    if !SettingKey(key) {
      WithSettingsKeeps(current, chosen, key);
      FixedReadBack(text, env, key);
    }
  }

  /**
   * `configure_database`: read the file, choose the five settings, refuse when
   * one is empty, otherwise write them into the file and report whether the
   * connection test succeeds. `saved` is the new text of the file, written
   * with the last line ended first (see `EnvConfig.WriteEnvFixed`).
   */
  method ConfigureDatabase(text: string, typed: Settings, connects: bool) returns (saved: Option<string>, success: bool)
    ensures saved.None? <==> !Complete(Chosen(ReadEnv(text), typed))
    ensures saved.Some? ==> saved.value == WriteEnvFixed(text, WithSettings(ReadEnv(text), Chosen(ReadEnv(text), typed)))
    ensures success <==> saved.Some? && connects
  {
    var lines := ReadLines(text);
    var current := ReadCurrentEnv(lines);
    var server := Answer(typed.server, current, ServerKey, "GABINETE2");
    var instance := Answer(typed.instance, current, InstanceKey, "INFOMED");
    var name := Answer(typed.name, current, NameKey, "GELITE");
    var user := Answer(typed.user, current, UserKey, "");
    var password := Answer(typed.password, current, PasswordKey, "");
    var chosen := Settings(server, instance, name, user, password);
    if !Complete(chosen) {
      return None, false;
    }
    var updated := UpdateEnvFile(Terminate(lines), WithSettings(current, chosen));
    saved := Some(Concat(updated));
    success := connects;
  }
}
