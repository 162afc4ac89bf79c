/**
 * The `.env` handling of the credential set-up script: reading the variables a
 * file assigns, rewriting the file with new values while keeping comments and
 * other lines, and the prompt-by-prompt defaulting of the five connection
 * settings. A file is its text (a missing file reads as empty); prompts and the
 * connection test are not part of this model.
 */
module EnvConfig {
  import opened Wrappers
  import opened Text
  import opened Dicts
  import opened Seqs

  type Env = Dict<string, string>

  // ---------------------------------------------------------------- one line

  /** A stripped line that assigns a variable: not blank, not a comment, holding `=`. */
  predicate IsAssignment(stripped: string) {
    stripped != [] && stripped[0] != '#' && '=' in stripped
  }

  /** The variable a line assigns: its stripped text up to the first `=`. */
  function LineKey(line: string): (r: Option<string>)
    ensures r.Some? ==> '=' !in r.value
  {
    var s := Strip(line);
    if IsAssignment(s) then Some(Before(s, '=')) else None
  }

  /** The value a line assigns: its stripped text after the first `=`, which may hold more `=`. */
  function LineValue(line: string): string {
    After(Strip(line), '=')
  }

  /** Blank lines, comments and lines without `=` assign nothing. */
  lemma LineKeyNone(line: string)
    ensures LineKey(line).None? <==> Strip(line) == [] || Strip(line)[0] == '#' || '=' !in line
  {
    if '=' in line {
      StripKeeps(line, '=');
    }
    if '=' in Strip(line) {
      StripWithin(line, '=');
    }
  }

  /** The line written for a variable. */
  function EnvLine(key: string, value: string): string {
    key + "=" + value + "\n"
  }

  /** A key that reads back from its own line: no `=`, not starting with whitespace or `#`. */
  predicate PlainKey(key: string) {
    '=' !in key && (key == [] || (!IsWhitespace(key[0]) && key[0] != '#'))
  }

  /** The keys read from lines are plain. */
  lemma LineKeyPlain(line: string)
    requires LineKey(line).Some?
    ensures PlainKey(LineKey(line).value)
  {
    var s := Strip(line);
    var k := Before(s, '=');
    if k != [] {
      assert k[0] == s[0];
    }
  }

  lemma StripEnvLine(key: string, value: string)
    requires PlainKey(key)
    ensures Strip(EnvLine(key, value)) == key + "=" + TrimEnd(value)
  {
    var a := key + "=";
    var line := a + value + "\n";
    assert line[0] != ' ' && !IsWhitespace(line[0]) by {
      assert line[0] == if key == [] then '=' else key[0];
    }
    TrimEndPadded(a + value, "\n");
    TrimEndAfter(a, value);
  }

  /** A written line reads back as its key and its value, less any trailing whitespace. */
  lemma EnvLineReads(key: string, value: string)
    requires PlainKey(key)
    ensures LineKey(EnvLine(key, value)) == Some(key)
    ensures LineValue(EnvLine(key, value)) == TrimEnd(value)
  {
    var v := TrimEnd(value);
    var s := key + ['='] + v;
    StripEnvLine(key, value);
    assert Strip(EnvLine(key, value)) == s;
    BeforeAfterOf(key, '=', v);
    assert s[|key|] == '=';
    assert s[0] != '#' by {
      assert s[0] == if key == [] then '=' else key[0];
    }
  }

  // ---------------------------------------------------------------- reading

  /** The variables the lines assign, in first-assignment order: each assignment sets its key in turn. */
  function EnvOf(lines: seq<string>): (env: Env)
    ensures UniqueKeys(env)
  {
    if lines == [] then []
    else
      var env := EnvOf(lines[..|lines| - 1]);
      var line := lines[|lines| - 1];
      match LineKey(line)
      case None => env
      case Some(k) =>
        SetKeepsUnique(env, k, LineValue(line));
        Set(env, k, LineValue(line))
  }

  /** The value of the last line that assigns `key`. */
  function LastAssigned(lines: seq<string>, key: string): Option<string> {
    if lines == [] then None
    else if LineKey(lines[|lines| - 1]) == Some(key) then Some(LineValue(lines[|lines| - 1]))
    else LastAssigned(lines[..|lines| - 1], key)
  }

  /** A later assignment overwrites an earlier one: a key reads as its last assignment. */
  lemma {:induction false} EnvOfLastAssigned(lines: seq<string>, key: string)
    ensures Get(EnvOf(lines), key) == LastAssigned(lines, key)
  {
    if lines != [] {
      var init, line := lines[..|lines| - 1], lines[|lines| - 1];
      EnvOfLastAssigned(init, key);
      if LineKey(line).Some? {
        GetSet(EnvOf(init), LineKey(line).value, LineValue(line), key);
      }
    }
  }

  /** A blank line, a comment or a line without `=` leaves what was read unchanged. */
  lemma ReadSkipsLine(lines: seq<string>, line: string)
    requires Strip(line) == [] || Strip(line)[0] == '#' || '=' !in line
    ensures EnvOf(lines + [line]) == EnvOf(lines)
  {
    LineKeyNone(line);
    assert (lines + [line])[..|lines|] == lines;
  }

  /** A written line sets its key to its value, whatever came before and whatever `=` the value holds. */
  lemma ReadLastLine(lines: seq<string>, key: string, value: string)
    requires PlainKey(key)
    ensures Get(EnvOf(lines + [EnvLine(key, value)]), key) == Some(TrimEnd(value))
  {
    EnvLineReads(key, value);
    EnvOfLastAssigned(lines + [EnvLine(key, value)], key);
  }

  /** `read_current_env`, over the lines of the file. */
  method ReadCurrentEnv(lines: seq<string>) returns (env: Env)
    ensures env == EnvOf(lines)
  {
    env := [];
    for i := 0 to |lines|
      invariant env == EnvOf(lines[..i])
    {
      assert lines[..i + 1][..i] == lines[..i];
      var stripped := Strip(lines[i]);
      if IsAssignment(stripped) {
        var key := Before(stripped, '=');
        var value := After(stripped, '=');
        env := Set(env, key, value);
      }
    }
    assert lines[..|lines|] == lines;
  }

  // ---------------------------------------------------------------- rewriting

  /** A line whose key has a new value is written afresh; every other line is kept as it is. */
  function RewriteLine(line: string, env: Env): string {
    match LineKey(line)
    case None => line
    case Some(k) =>
      match Get(env, k)
      case None => line
      case Some(v) => EnvLine(k, v)
  }

  /** The first loop of `update_env_file`: every existing line, rewritten or kept, in order. */
  function Rewritten(lines: seq<string>, env: Env): (r: seq<string>)
    ensures |r| == |lines|
    ensures forall i :: 0 <= i < |lines| ==> r[i] == RewriteLine(lines[i], env)
  {
    if lines == [] then []
    else Rewritten(lines[..|lines| - 1], env) + [RewriteLine(lines[|lines| - 1], env)]
  }

  /** The keys of `env` that some line assigns (`updated_keys`). */
  function UpdatedKeys(lines: seq<string>, env: Env): set<string> {
    if lines == [] then {}
    else
      var keys := UpdatedKeys(lines[..|lines| - 1], env);
      match LineKey(lines[|lines| - 1])
      case None => keys
      case Some(k) => if HasKey(env, k) then keys + {k} else keys
  }

  /** The second loop: a line for each variable, in dictionary order, that no line assigned. */
  function Appended(env: Env, present: set<string>): (r: seq<string>)
    ensures |r| <= |env|
  {
    if env == [] then []
    else
      var (k, v) := env[|env| - 1];
      Appended(env[..|env| - 1], present) + (if k in present then [] else [EnvLine(k, v)])
  }

  /** The lines `update_env_file` writes. */
  function UpdateEnv(lines: seq<string>, env: Env): seq<string> {
    Rewritten(lines, env) + Appended(env, UpdatedKeys(lines, env))
  }

  /** `update_env_file`, from the existing lines to the lines written back. */
  method UpdateEnvFile(existing: seq<string>, env: Env) returns (updated: seq<string>)
    ensures updated == UpdateEnv(existing, env)
  {
    var updatedKeys;
    updated, updatedKeys := RewriteLines(existing, env);
    updated := AppendMissing(updated, env, updatedKeys);
  }

  /** The first loop of `update_env_file`. */
  method RewriteLines(existing: seq<string>, env: Env) returns (updated: seq<string>, updatedKeys: set<string>)
    ensures updated == Rewritten(existing, env)
    ensures updatedKeys == UpdatedKeys(existing, env)
  {
    updated := [];
    updatedKeys := {};
    for i := 0 to |existing|
      invariant updated == Rewritten(existing[..i], env)
      invariant updatedKeys == UpdatedKeys(existing[..i], env)
    {
      RewriteStep(existing, env, i);
      var line := existing[i];
      var stripped := Strip(line);
      if IsAssignment(stripped) {
        var key := Before(stripped, '=');
        match Get(env, key)
        case Some(value) =>
          updated := updated + [EnvLine(key, value)];
          updatedKeys := updatedKeys + {key};
        case None =>
          updated := updated + [line];
      } else {
        updated := updated + [line];
      }
    }
    assert existing[..|existing|] == existing;
  }

  /** One more line for the first loop: its rewrite follows the others, and its key joins the updated ones when it has a new value. */
  lemma RewriteStep(lines: seq<string>, env: Env, i: nat)
    requires i < |lines|
    ensures Rewritten(lines[..i + 1], env) == Rewritten(lines[..i], env) + [RewriteLine(lines[i], env)]
    ensures UpdatedKeys(lines[..i + 1], env)
         == UpdatedKeys(lines[..i], env) + (if LineKey(lines[i]).Some? && HasKey(env, LineKey(lines[i]).value)
                                             then {LineKey(lines[i]).value} else {})
  {
    assert lines[..i + 1][..i] == lines[..i];
  }

  /** The second loop of `update_env_file`. */
  method AppendMissing(lines: seq<string>, env: Env, updatedKeys: set<string>) returns (updated: seq<string>)
    ensures updated == lines + Appended(env, updatedKeys)
  {
    updated := lines;
    for j := 0 to |env|
      invariant updated == lines + Appended(env[..j], updatedKeys)
    {
      assert env[..j + 1][..j] == env[..j];
      var (key, value) := env[j];
      if key !in updatedKeys {
        updated := updated + [EnvLine(key, value)];
      }
    }
    assert env[..|env|] == env;
  }

  // ---------------------------------------------------------------- what a rewrite keeps

  /** A line keeps its key through a rewrite; a rewritten line takes the new value. */
  lemma RewriteKeepsKey(line: string, env: Env)
    ensures LineKey(RewriteLine(line, env)) == LineKey(line)
    ensures LineKey(line).Some? && HasKey(env, LineKey(line).value) ==>
      LineValue(RewriteLine(line, env)) == TrimEnd(Get(env, LineKey(line).value).value)
  {
    if LineKey(line).Some? && HasKey(env, LineKey(line).value) {
      LineKeyPlain(line);
      EnvLineReads(LineKey(line).value, Get(env, LineKey(line).value).value);
    }
  }

  /** Lines whose key has no new value, and lines that assign nothing, are written back unchanged and in place. */
  lemma UpdateEnvKeeps(lines: seq<string>, env: Env, i: nat)
    requires i < |lines|
    ensures |UpdateEnv(lines, env)| >= |lines|
    ensures LineKey(lines[i]).None? || !HasKey(env, LineKey(lines[i]).value) ==> UpdateEnv(lines, env)[i] == lines[i]
    ensures LineKey(lines[i]).Some? && HasKey(env, LineKey(lines[i]).value) ==>
      var k := LineKey(lines[i]).value;
      UpdateEnv(lines, env)[i] == EnvLine(k, Get(env, k).value)
  {
  }

  lemma {:induction false} LastAssignedAppend(a: seq<string>, b: seq<string>, key: string)
    ensures LastAssigned(a + b, key) == if LastAssigned(b, key).Some? then LastAssigned(b, key) else LastAssigned(a, key)
    decreases |b|
  {
    if b == [] {
      assert a + b == a;
    } else {
      var b' := b[..|b| - 1];
      assert (a + b)[..|a + b| - 1] == a + b' && (a + b)[|a + b| - 1] == b[|b| - 1];
      LastAssignedAppend(a, b', key);
    }
  }

  /** After the first loop a key with a new value reads as that value exactly where it was assigned before. */
  lemma {:induction false} LastAssignedRewritten(lines: seq<string>, env: Env, key: string)
    ensures LastAssigned(Rewritten(lines, env), key)
         == if !HasKey(env, key) then LastAssigned(lines, key)
            else if LastAssigned(lines, key).Some? then Some(TrimEnd(Get(env, key).value))
            else None
  {
    if lines != [] {
      var n := |lines| - 1;
      var init, line := lines[..n], lines[n];
      var r := Rewritten(lines, env);
      assert r[..n] == Rewritten(init, env) && r[n] == RewriteLine(line, env);
      LastAssignedRewritten(init, env, key);
      RewriteKeepsKey(line, env);
      assert LastAssigned(r, key) == if LineKey(r[n]) == Some(key) then Some(LineValue(r[n])) else LastAssigned(r[..n], key);
    }
  }

  /** `updated_keys` holds exactly the keys of `env` that some line assigns. */
  lemma {:induction false} UpdatedKeysIff(lines: seq<string>, env: Env, key: string)
    ensures key in UpdatedKeys(lines, env) <==> HasKey(env, key) && LastAssigned(lines, key).Some?
  {
    if lines != [] {
      UpdatedKeysIff(lines[..|lines| - 1], env, key);
    }
  }

  /** Every key of the dictionary reads back from the written line (plain keys). */
  predicate PlainKeys(env: Env) {
    forall i :: 0 <= i < |env| ==> PlainKey(env[i].0)
  }

  /** After the second loop a key reads as its value when it was appended, and is absent otherwise. */
  lemma {:induction false} LastAssignedAppended(env: Env, present: set<string>, key: string)
    requires UniqueKeys(env) && PlainKeys(env)
    ensures LastAssigned(Appended(env, present), key)
         == if HasKey(env, key) && key !in present then Some(TrimEnd(Get(env, key).value)) else None
  {
    if env != [] {
      var init := env[..|env| - 1];
      var (k, v) := env[|env| - 1];
      assert env == init + [(k, v)];
      assert UniqueKeys(init) && PlainKeys(init) && !HasKey(init, k);
      LastAssignedAppended(init, present, key);
      GetLast(init, k, v, key);
      var a := Appended(init, present);
      var tail := if k in present then [] else [EnvLine(k, v)];
      assert Appended(env, present) == a + tail;
      LastAssignedAppend(a, tail, key);
      if k !in present {
        EnvLineReads(k, v);
        assert tail[..0] == [];
      }
    }
  }

  /** Values that read back as themselves: no trailing whitespace, which reading strips. */
  predicate Rereadable(env: Env) {
    UniqueKeys(env) && PlainKeys(env) && forall i :: 0 <= i < |env| ==> TrimEnd(env[i].1) == env[i].1
  }

  /**
   * Reading the rewritten lines gives the new value of every key in `env`, and
   * the old value of every other key.
   */
  lemma ReadAfterUpdate(lines: seq<string>, env: Env, key: string)
    requires Rereadable(env)
    ensures Get(EnvOf(UpdateEnv(lines, env)), key) == if HasKey(env, key) then Get(env, key) else Get(EnvOf(lines), key)
  {
    var present := UpdatedKeys(lines, env);
    EnvOfLastAssigned(UpdateEnv(lines, env), key);
    EnvOfLastAssigned(lines, key);
    LastAssignedAppend(Rewritten(lines, env), Appended(env, present), key);
    LastAssignedRewritten(lines, env, key);
    LastAssignedAppended(env, present, key);
    UpdatedKeysIff(lines, env, key);
    if HasKey(env, key) {
      var i :| 0 <= i < |env| && env[i] == (key, Get(env, key).value);
    }
  }

  // ---------------------------------------------------------------- applying twice, and the count of lines

  lemma RewriteTwice(line: string, env: Env)
    ensures RewriteLine(RewriteLine(line, env), env) == RewriteLine(line, env)
  {
    RewriteKeepsKey(line, env);
  }

  /** Every appended line is the line of an entry whose key was not present. */
  lemma {:induction false} AppendedFrom(env: Env, present: set<string>, j: nat)
    requires j < |Appended(env, present)|
    ensures exists i :: 0 <= i < |env| && env[i].0 !in present && Appended(env, present)[j] == EnvLine(env[i].0, env[i].1)
  {
    var init := env[..|env| - 1];
    var a := Appended(init, present);
    if j < |a| {
      AppendedFrom(init, present, j);
      var i :| 0 <= i < |init| && init[i].0 !in present && a[j] == EnvLine(init[i].0, init[i].1);
      assert env[i] == init[i];
    } else {
      assert env[|env| - 1].0 !in present;
    }
  }

  lemma {:induction false} AppendedNone(env: Env, present: set<string>)
    requires forall i :: 0 <= i < |env| ==> env[i].0 in present
    ensures Appended(env, present) == []
  {
    if env != [] {
      AppendedNone(env[..|env| - 1], present);
    }
  }

  /** Lines that are all their own rewrite are rewritten to themselves. */
  lemma RewrittenFixed(lines: seq<string>, env: Env)
    requires forall i :: 0 <= i < |lines| ==> RewriteLine(lines[i], env) == lines[i]
    ensures Rewritten(lines, env) == lines
  {
  }

  /** Updating with the same dictionary a second time changes nothing. */
  lemma UpdateTwice(lines: seq<string>, env: Env)
    requires UniqueKeys(env) && PlainKeys(env)
    ensures UpdateEnv(UpdateEnv(lines, env), env) == UpdateEnv(lines, env)
  {
    var present := UpdatedKeys(lines, env);
    var r, a := Rewritten(lines, env), Appended(env, present);
    var u := r + a;
    forall i | 0 <= i < |u| ensures RewriteLine(u[i], env) == u[i] {
      if i < |r| {
        RewriteTwice(lines[i], env);
      } else {
        AppendedFrom(env, present, i - |r|);
        var e :| 0 <= e < |env| && u[i] == EnvLine(env[e].0, env[e].1);
        EnvLineReads(env[e].0, env[e].1);
        GetEntry(env, e);
      }
    }
    RewrittenFixed(u, env);
    forall e | 0 <= e < |env| ensures env[e].0 in UpdatedKeys(u, env) {
      var k := env[e].0;
      UpdatedKeysIff(u, env, k);
      UpdatedKeysIff(lines, env, k);
      LastAssignedAppend(r, a, k);
      LastAssignedRewritten(lines, env, k);
      LastAssignedAppended(env, present, k);
    }
    AppendedNone(env, UpdatedKeys(u, env));
    assert u + [] == u;
  }

  /** The keys of `env` that are not present. */
  function MissingKeys(env: Env, present: set<string>): set<string> {
    if env == [] then {}
    else MissingKeys(env[..|env| - 1], present) + (if env[|env| - 1].0 in present then {} else {env[|env| - 1].0})
  }

  lemma {:induction false} MissingKeysIff(env: Env, present: set<string>, key: string)
    ensures key in MissingKeys(env, present) <==> HasKey(env, key) && key !in present
  {
    if env != [] {
      var init := env[..|env| - 1];
      MissingKeysIff(init, present, key);
      if HasKey(env, key) && key != env[|env| - 1].0 {
        var i :| 0 <= i < |env| && env[i].0 == key;
        assert init[i].0 == key;
      }
    }
  }

  /** One line is appended per key that is not present, each key once. */
  lemma {:induction false} AppendedCount(env: Env, present: set<string>)
    requires UniqueKeys(env)
    ensures |Appended(env, present)| == |MissingKeys(env, present)|
  {
    if env != [] {
      var init := env[..|env| - 1];
      var k := env[|env| - 1].0;
      assert UniqueKeys(init) && !HasKey(init, k);
      AppendedCount(init, present);
      MissingKeysIff(init, present, k);
    }
  }

  /**
   * The file grows by exactly one line per key of `env` that no existing line
   * assigns: the missing keys are those keys.
   */
  lemma UpdateEnvLength(lines: seq<string>, env: Env)
    requires UniqueKeys(env)
    ensures var missing := MissingKeys(env, UpdatedKeys(lines, env));
            && |UpdateEnv(lines, env)| == |lines| + |missing|
            && forall k :: k in missing <==> HasKey(env, k) && LastAssigned(lines, k).None?
  {
    var present := UpdatedKeys(lines, env);
    AppendedCount(env, present);
    forall k ensures k in MissingKeys(env, present) <==> HasKey(env, k) && LastAssigned(lines, k).None? {
      MissingKeysIff(env, present, k);
      UpdatedKeysIff(lines, env, k);
    }
  }

  // ---------------------------------------------------------------- the file as text

  /** A line as `readlines()` gives it from a file that goes on: one `\n`, at its end. */
  predicate FileLine(line: string) {
    line != [] && line[|line| - 1] == '\n' && '\n' !in line[..|line| - 1]
  }

  /** A text that is empty or ends in a newline. */
  predicate Terminated(text: string) {
    text == [] || text[|text| - 1] == '\n'
  }

  /**
   * The lines of a text, each keeping its `\n` (`readlines()`, and iterating
   * over the file); only the last may lack one.
   */
  function ReadLines(text: string): (lines: seq<string>)
    ensures forall i :: 0 <= i < |lines| ==>
      lines[i] != [] && '\n' !in lines[i][..|lines[i]| - 1] && (i < |lines| - 1 ==> FileLine(lines[i]))
    ensures Terminated(text) ==> forall i :: 0 <= i < |lines| ==> FileLine(lines[i])
    decreases |text|
  {
    if text == [] then []
    else
      var k := IndexOf(text, '\n');
      if k == |text| then [text]
      else
        assert text[..k + 1][..k] == text[..k];
        [text[..k + 1]] + ReadLines(text[k + 1..])
  }

  /** The text `writelines` produces. */
  function Concat(lines: seq<string>): string {
    if lines == [] then "" else lines[0] + Concat(lines[1..])
  }

  /** Cutting a text into lines and writing them out again gives back the text. */
  lemma {:induction false} ConcatReadLines(text: string)
    ensures Concat(ReadLines(text)) == text
    decreases |text|
  {
    if text != [] {
      var k := IndexOf(text, '\n');
      if k < |text| {
        ConcatReadLines(text[k + 1..]);
        assert text == text[..k + 1] + text[k + 1..];
      }
    }
  }

  /** Lines that each end in their only newline are read back as written. */
  lemma {:induction false} ReadLinesConcat(lines: seq<string>)
    requires forall i :: 0 <= i < |lines| ==> FileLine(lines[i])
    ensures ReadLines(Concat(lines)) == lines
  {
    if lines != [] {
      var first := lines[0];
      var body := first[..|first| - 1];
      var rest := Concat(lines[1..]);
      assert first == body + ['\n'];
      assert Concat(lines) == body + ['\n'] + rest;
      IndexOfAfter(body, '\n', rest);
      ReadLinesConcat(lines[1..]);
      var text := Concat(lines);
      assert text[..|body| + 1] == first;
      assert text[|body| + 1..] == rest;
    }
  }

  /** The variables a file assigns. */
  function ReadEnv(text: string): Env {
    EnvOf(ReadLines(text))
  }

  /** The text `update_env_file` writes over `text`, as the source does it. */
  function WriteEnv(text: string, env: Env): string {
    Concat(UpdateEnv(ReadLines(text), env))
  }

  /** A line `key=value` with no surrounding whitespace assigns `value` to `key`. */
  lemma AssignmentReads(key: string, value: string)
    requires PlainKey(key) && (value == [] || !IsWhitespace(value[|value| - 1]))
    ensures LineKey(key + "=" + value) == Some(key)
    ensures LineValue(key + "=" + value) == value
  {
    var line := key + ['='] + value;
    assert line[0] == if key == [] then '=' else key[0];
    assert line[|line| - 1] == if value == [] then '=' else value[|value| - 1];
    StripUnpadded(line);
    BeforeAfterOf(key, '=', value);
    assert line[|key|] == '=';
  }

  /** A last line `key=value` that lacks its newline: it assigns `value` to `key` and nothing else. */
  predicate OpenAssignment(key: string, value: string) {
    PlainKey(key) && '\n' !in key && '\n' !in value && value != [] && !IsWhitespace(value[|value| - 1])
  }

  /** Such a line keeps its place when another key is set, and that key's line is appended after it. */
  lemma UnterminatedUpdate(key: string, value: string, k2: string, v2: string)
    requires OpenAssignment(key, value) && k2 != key
    ensures UpdateEnv(ReadLines(key + "=" + value), [(k2, v2)]) == [key + "=" + value, EnvLine(k2, v2)]
  {
    var line := key + "=" + value;
    var env := [(k2, v2)];
    OpenLine(key, value);
    AssignmentReads(key, value);
    KeptLine(line, env);
    assert Appended(env, {}) == [EnvLine(k2, v2)] by {
      assert env[..0] == [];
    }
  }

  /** An open assignment is the file's only line. */
  lemma OpenLine(key: string, value: string)
    requires OpenAssignment(key, value)
    ensures ReadLines(key + "=" + value) == [key + "=" + value]
  {
    var line := key + "=" + value;
    assert '\n' !in line;
  }

  /** A single line whose key gets no new value is kept, and every variable is appended after it. */
  lemma KeptLine(line: string, env: Env)
    requires LineKey(line).Some? && !HasKey(env, LineKey(line).value)
    ensures UpdateEnv([line], env) == [line] + Appended(env, {})
  {
    assert [line][..0] == [];
    assert UpdatedKeys([line], env) == {};
    assert Rewritten([line], env) == [line];
  }

  /** A file of one open assignment assigns just that. */
  lemma OpenAssignmentReads(key: string, value: string)
    requires OpenAssignment(key, value)
    ensures ReadEnv(key + "=" + value) == [(key, value)]
  {
    var line := key + "=" + value;
    OpenLine(key, value);
    AssignmentReads(key, value);
    SingleLineEnv(line, key, value);
  }

  /** One line that assigns `value` to `key` makes the variables just that. */
  lemma SingleLineEnv(line: string, key: string, value: string)
    requires LineKey(line) == Some(key) && LineValue(line) == value
    ensures EnvOf([line]) == [(key, value)]
  {
    assert [line][..0] == [];
    assert EnvOf([line]) == Set([], key, value);
  }

  /** A file of one written line assigns just its variable. */
  lemma EnvLineFileReads(key: string, value: string)
    requires PlainKey(key) && '\n' !in key && '\n' !in value
    ensures ReadEnv(EnvLine(key, value)) == [(key, TrimEnd(value))]
  {
    var written := EnvLine(key, value);
    EnvLineIsFileLine(key, value);
    ReadLinesConcat([written]);
    assert Concat([written]) == written;
    EnvLineReads(key, value);
    SingleLineEnv(written, key, TrimEnd(value));
  }

  /** Writing an open line and a whole one gives one line. */
  lemma GluedLines(key: string, value: string, k2: string, v2: string)
    ensures Concat([key + "=" + value, EnvLine(k2, v2)]) == EnvLine(key, value + k2 + "=" + v2)
  {
    var a, b := key + "=" + value, EnvLine(k2, v2);
    assert [a, b][1..] == [b] && [b][1..] == [];
    assert Concat([b]) == b + "";
    assert Concat([a, b]) == a + b;
    ConcatAssoc(key + "=", value, k2 + "=" + v2 + "\n");
    ConcatAssoc(key + "=" + value, k2 + "=" + v2, "\n");
    ConcatAssoc(key + "=", value, k2 + "=" + v2);
    assert k2 + "=" + v2 + "\n" == (k2 + "=" + v2) + "\n";
    assert value + (k2 + "=" + v2) == value + k2 + "=" + v2;
  }

  /**
   * The source's write, when the file's last line has no newline: the appended
   * line is glued onto it (`A=1` updated with `B=2` becomes `A=1B=2\n`), so the
   * file then assigns `value` followed by the new line's text to `key`, and
   * nothing to `k2`.
   */
  lemma UnterminatedLastLineMerges(key: string, value: string, k2: string, v2: string)
    requires OpenAssignment(key, value) && k2 != key && PlainKey(k2) && '\n' !in k2 && '\n' !in v2
    ensures Get(ReadEnv(key + "=" + value), key) == Some(value)
    ensures WriteEnv(key + "=" + value, [(k2, v2)]) == EnvLine(key, value + k2 + "=" + v2)
    ensures Get(ReadEnv(WriteEnv(key + "=" + value, [(k2, v2)])), key) == Some(TrimEnd(value + k2 + "=" + v2))
    ensures Get(ReadEnv(WriteEnv(key + "=" + value, [(k2, v2)])), k2) == None
  {
    var merged := value + k2 + "=" + v2;
    OpenAssignmentReads(key, value);
    assert Get([(key, value)], key) == Some(value);
    UnterminatedUpdate(key, value, k2, v2);
    GluedLines(key, value, k2, v2);
    assert '\n' !in merged;
    MergedReads(key, merged, k2);
  }

  /** A written line assigns its own key and no other. */
  lemma MergedReads(key: string, value: string, other: string)
    requires PlainKey(key) && '\n' !in key && '\n' !in value && other != key
    ensures Get(ReadEnv(EnvLine(key, value)), key) == Some(TrimEnd(value))
    ensures Get(ReadEnv(EnvLine(key, value)), other) == None
  {
    EnvLineFileReads(key, value);
    assert Get([(key, TrimEnd(value))], other) == None;
  }

  /** The last line, given the newline it lacks. */
  function Terminate(lines: seq<string>): (r: seq<string>)
    ensures |r| == |lines|
  {
    if lines == [] || EndsWith(lines[|lines| - 1], "\n") then lines
    else lines[..|lines| - 1] + [lines[|lines| - 1] + "\n"]
  }

  /** The corrected write: the last line is ended before anything is appended after it. */
  function WriteEnvFixed(text: string, env: Env): string {
    Concat(UpdateEnv(Terminate(ReadLines(text)), env))
  }

  /** A file that already ends in a newline is written the same way by both. */
  lemma WriteEnvFixedAgrees(text: string, env: Env)
    requires Terminated(text)
    ensures WriteEnvFixed(text, env) == WriteEnv(text, env)
  {
  }

  /** Ending the last line makes every line a whole line. */
  lemma TerminateFileLines(text: string)
    ensures forall i :: 0 <= i < |Terminate(ReadLines(text))| ==> FileLine(Terminate(ReadLines(text))[i])
  {
    var lines := ReadLines(text);
    if lines != [] && !EndsWith(lines[|lines| - 1], "\n") {
      var last := lines[|lines| - 1];
      assert (last + "\n")[..|last|] == last;
    }
  }

  /** Lines that are all whole are left as they are. */
  lemma TerminateWhole(lines: seq<string>)
    requires forall i :: 0 <= i < |lines| ==> FileLine(lines[i])
    ensures Terminate(lines) == lines
  {
    if lines != [] {
      var last := lines[|lines| - 1];
      assert FileLine(last);
      assert last[|last| - 1..] == [last[|last| - 1]];
      assert EndsWith(last, "\n");
    }
  }

  /** Ending the last line changes no variable. */
  lemma TerminateKeeps(lines: seq<string>, key: string)
    ensures LastAssigned(Terminate(lines), key) == LastAssigned(lines, key)
    ensures EnvOf(Terminate(lines)) == EnvOf(lines)
  {
    if lines != [] && !EndsWith(lines[|lines| - 1], "\n") {
      var init, last := lines[..|lines| - 1], lines[|lines| - 1];
      var t := init + [last + "\n"];
      assert t[..|t| - 1] == init && t[|t| - 1] == last + "\n";
      assert [] + last + "\n" == last + "\n";
      StripPadded([], last, "\n");
    }
  }

  /** Keys and values without newlines. */
  predicate SingleLine(env: Env) {
    forall i :: 0 <= i < |env| ==> '\n' !in env[i].0 && '\n' !in env[i].1
  }

  /** A whole line strips to text without a newline. */
  lemma FileLineStrip(line: string)
    requires FileLine(line)
    ensures '\n' !in Strip(line)
  {
    var body := line[..|line| - 1];
    assert [] + body + "\n" == line;
    StripPadded([], body, "\n");
    if '\n' in Strip(body) {
      StripWithin(body, '\n');
    }
  }

  /** The key of a whole line holds no newline. */
  lemma FileLineKey(line: string)
    requires FileLine(line) && LineKey(line).Some?
    ensures '\n' !in LineKey(line).value
  {
    FileLineStrip(line);
    var s := Strip(line);
    var k := LineKey(line).value;
    assert k == s[..|k|];
  }

  lemma EnvLineIsFileLine(key: string, value: string)
    requires '\n' !in key && '\n' !in value
    ensures FileLine(EnvLine(key, value))
  {
    var line := EnvLine(key, value);
    assert line[..|line| - 1] == key + "=" + value;
  }

  /** Rewriting whole lines with single-line values gives whole lines. */
  lemma UpdateKeepsFileLines(lines: seq<string>, env: Env)
    requires forall i :: 0 <= i < |lines| ==> FileLine(lines[i])
    requires SingleLine(env)
    ensures forall i :: 0 <= i < |UpdateEnv(lines, env)| ==> FileLine(UpdateEnv(lines, env)[i])
  {
    var present := UpdatedKeys(lines, env);
    var r, a := Rewritten(lines, env), Appended(env, present);
    forall i | 0 <= i < |r + a| ensures FileLine((r + a)[i]) {
      if i < |r| {
        var line := lines[i];
        if LineKey(line).Some? && HasKey(env, LineKey(line).value) {
          FileLineKey(line);
          var k := LineKey(line).value;
          var j :| 0 <= j < |env| && env[j] == (k, Get(env, k).value);
          EnvLineIsFileLine(k, Get(env, k).value);
        }
      } else {
        AppendedFrom(env, present, i - |r|);
        var e :| 0 <= e < |env| && a[i - |r|] == EnvLine(env[e].0, env[e].1);
        EnvLineIsFileLine(env[e].0, env[e].1);
      }
    }
  }

  /**
   * With the fix, reading the written file gives every variable of `env` its new
   * value and every other variable its old one.
   */
  lemma FixedReadBack(text: string, env: Env, key: string)
    requires Rereadable(env) && SingleLine(env)
    ensures Get(ReadEnv(WriteEnvFixed(text, env)), key) == if HasKey(env, key) then Get(env, key) else Get(ReadEnv(text), key)
  {
    var t := Terminate(ReadLines(text));
    TerminateFileLines(text);
    TerminateKeeps(ReadLines(text), key);
    UpdateKeepsFileLines(t, env);
    ReadLinesConcat(UpdateEnv(t, env));
    ReadAfterUpdate(t, env, key);
    EnvOfLastAssigned(t, key);
    EnvOfLastAssigned(ReadLines(text), key);
  }

  /** With the fix, writing the same variables twice gives the same file as writing them once. */
  lemma FixedTwice(text: string, env: Env)
    requires UniqueKeys(env) && PlainKeys(env) && SingleLine(env)
    ensures WriteEnvFixed(WriteEnvFixed(text, env), env) == WriteEnvFixed(text, env)
  {
    var t := Terminate(ReadLines(text));
    TerminateFileLines(text);
    var u := UpdateEnv(t, env);
    UpdateKeepsFileLines(t, env);
    ReadLinesConcat(u);
    TerminateWhole(u);
    UpdateTwice(t, env);
  }

  // ---------------------------------------------------------------- what a whole-line file assigns

  /** An assignment that a whole line can carry and that reads back unchanged. */
  predicate GoodEntry(e: (string, string)) {
    PlainKey(e.0) && '\n' !in e.0 && '\n' !in e.1 && TrimEnd(e.1) == e.1
  }

  /** Text that ends in no whitespace is its own right-trim. */
  lemma TrimEndUnpadded(s: string)
    requires s == [] || !IsWhitespace(s[|s| - 1])
    ensures TrimEnd(s) == s
  {
  }

  /** A whole line that assigns something assigns a good entry. */
  lemma LineEntry(line: string)
    requires FileLine(line) && LineKey(line).Some?
    ensures GoodEntry((LineKey(line).value, LineValue(line)))
  {
    LineKeyPlain(line);
    FileLineKey(line);
    FileLineStrip(line);
    var s := Strip(line);
    var v := LineValue(line);
    assert s == Before(s, '=') + ['='] + v;
    if v != [] {
      assert v[|v| - 1] == s[|s| - 1];
    }
    TrimEndUnpadded(v);
  }

  /** Every variable of a file made of whole lines is a good entry. */
  lemma {:induction false} EnvOfEntries(lines: seq<string>)
    requires forall i :: 0 <= i < |lines| ==> FileLine(lines[i])
    ensures forall e :: e in EnvOf(lines) ==> GoodEntry(e)
  {
    if lines != [] {
      var init, line := lines[..|lines| - 1], lines[|lines| - 1];
      EnvOfEntries(init);
      if LineKey(line).Some? {
        LineEntry(line);
        SetEntries(EnvOf(init), LineKey(line).value, LineValue(line));
      }
    }
  }

  /** Good entries under distinct keys make a rereadable, single-line environment. */
  lemma GoodEntriesRereadable(env: Env)
    requires UniqueKeys(env) && forall e :: e in env ==> GoodEntry(e)
    ensures Rereadable(env) && SingleLine(env)
  {
    forall i | 0 <= i < |env| ensures GoodEntry(env[i]) {
      assert env[i] in env;
    }
  }

  /** Assigning a good entry keeps every entry good. */
  lemma SetGood(env: Env, k: string, v: string)
    requires (forall e :: e in env ==> GoodEntry(e)) && GoodEntry((k, v))
    ensures forall e :: e in Set(env, k, v) ==> GoodEntry(e)
  {
    SetEntries(env, k, v);
  }

  /**
   * The corrected reading-back property for a file that already ends in a
   * newline, where the source's write and the corrected one agree: every key of
   * `env` reads back as its new value and every other key as before.
   */
  lemma TerminatedReadBack(text: string, env: Env, key: string)
    requires Terminated(text) && UniqueKeys(env) && forall e :: e in env ==> GoodEntry(e)
    ensures Get(ReadEnv(WriteEnv(text, env)), key) == if HasKey(env, key) then Get(env, key) else Get(ReadEnv(text), key)
  {
    GoodEntriesRereadable(env);
    WriteEnvFixedAgrees(text, env);
    FixedReadBack(text, env, key);
  }
}
