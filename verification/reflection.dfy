/**
 * The assistant's self-reflection loop in the application shell: a simulated
 * analysis files a pending reflection log that carries a proposed
 * configuration entry, and an administrator's decision on a log records the
 * decision and, for an approved pending log, adds the proposed entry to the
 * configuration unless its key is already there. Both handlers are modelled
 * as functions from the pair (configuration, logs) to the new pair; the
 * randomly chosen anomaly, the random id number and the clock are parameters.
 */
module Reflection {
  import opened Wrappers
  import opened Text
  import opened AppTypes

  datatype LogStatus = PendingLog | ApprovedLog | RejectedLog

  datatype Decision = Approve | Reject

  /** The configuration entry a reflection proposes (`_configPayload`). */
  datatype Payload = Payload(key: string, value: string, description: string, category: Category)

  /** A reflection log; `payload` is absent on logs that propose no entry. */
  datatype ReflectionLog = ReflectionLog(id: string, timestamp: int, errorType: string, description: string,
                                         proposedFix: string, status: LogStatus, payload: Option<Payload>)

  /** A simulated anomaly (an entry of `SIMULATED_ANOMALIES`). */
  datatype Anomaly = Anomaly(errorType: string, description: string, proposedFix: string, configKey: string, configValue: string)

  /** The two pieces of application state the handlers update. */
  datatype AppState = AppState(config: seq<ConfigItem>, logs: seq<ReflectionLog>)

  function StatusOf(d: Decision): LogStatus {
    if d == Approve then ApprovedLog else RejectedLog
  }

  predicate HasConfigKey(config: seq<ConfigItem>, key: string) {
    exists i :: 0 <= i < |config| && config[i].key == key
  }

  /** Configuration keys are pairwise distinct. */
  predicate UniqueConfigKeys(config: seq<ConfigItem>) {
    forall i, j :: 0 <= i < j < |config| ==> config[i].key != config[j].key
  }

  /** The configuration after one approved payload: an editable entry at the end, unless its key is present. */
  function AddConfig(config: seq<ConfigItem>, p: Payload): (r: seq<ConfigItem>)
    ensures HasConfigKey(config, p.key) ==> r == config
    ensures !HasConfigKey(config, p.key) ==> r == config + [ConfigItem(p.key, p.value, p.description, true, p.category)]
  {
    if exists i :: 0 <= i < |config| && config[i].key == p.key then config
    else config + [ConfigItem(p.key, p.value, p.description, true, p.category)]
  }

  /** Adding a payload keeps configuration keys distinct. */
  lemma AddConfigUnique(config: seq<ConfigItem>, p: Payload)
    requires UniqueConfigKeys(config)
    ensures UniqueConfigKeys(AddConfig(config, p))
  {
  }

  /** A decision on one log: the matching log takes the decision as its state, whatever its state was. */
  function DecideLog(log: ReflectionLog, id: string, d: Decision): (r: ReflectionLog)
    ensures log.id != id ==> r == log
    ensures log.id == id ==> r == log.(status := StatusOf(d))
  {
    if log.id != id then log else log.(status := StatusOf(d))
  }

  /** The decision adds the log's payload: an approval of a pending log with a payload. */
  predicate Adds(log: ReflectionLog, id: string, d: Decision) {
    log.id == id && d == Approve && log.status == PendingLog && log.payload.Some?
  }

  /** The configuration after the additions the decision queues, one per matching log in log order. */
  function ApplyAdds(config: seq<ConfigItem>, logs: seq<ReflectionLog>, id: string, d: Decision): seq<ConfigItem> {
    if logs == [] then config
    else
      var before := ApplyAdds(config, logs[..|logs| - 1], id, d);
      var last := logs[|logs| - 1];
      if Adds(last, id, d) then AddConfig(before, last.payload.value) else before
  }

  /** `handleReflectionDecision`. */
  function Decide(s: AppState, id: string, d: Decision): (r: AppState)
    ensures |r.logs| == |s.logs|
    ensures forall i :: 0 <= i < |s.logs| ==> r.logs[i] == DecideLog(s.logs[i], id, d)
  {
    AppState(ApplyAdds(s.config, s.logs, id, d), seq(|s.logs|, i requires 0 <= i < |s.logs| => DecideLog(s.logs[i], id, d)))
  }

  /** When no log would add its payload, the configuration stays as it is (a rejection, or a log already decided). */
  lemma {:induction false} NoAddsKeepConfig(config: seq<ConfigItem>, logs: seq<ReflectionLog>, id: string, d: Decision)
    requires forall i :: 0 <= i < |logs| ==> !Adds(logs[i], id, d)
    ensures ApplyAdds(config, logs, id, d) == config
  {
    if logs != [] {
      NoAddsKeepConfig(config, logs[..|logs| - 1], id, d);
    }
  }

  /** A rejection never changes the configuration. */
  lemma RejectKeepsConfig(s: AppState, id: string)
    ensures Decide(s, id, Reject).config == s.config
  {
    NoAddsKeepConfig(s.config, s.logs, id, Reject);
  }

  /** The configuration only grows: the old entries stay first, in order. */
  lemma {:induction false} ApplyAddsExtends(config: seq<ConfigItem>, logs: seq<ReflectionLog>, id: string, d: Decision)
    ensures var r := ApplyAdds(config, logs, id, d); |config| <= |r| && r[..|config|] == config
  {
    if logs != [] {
      ApplyAddsExtends(config, logs[..|logs| - 1], id, d);
      var before := ApplyAdds(config, logs[..|logs| - 1], id, d);
      var last := logs[|logs| - 1];
      if Adds(last, id, d) && !HasConfigKey(before, last.payload.value.key) {
        var p := last.payload.value;
        assert (before + [ConfigItem(p.key, p.value, p.description, true, p.category)])[..|config|] == before[..|config|];
      }
    }
  }

  /** Distinct configuration keys stay distinct. */
  lemma {:induction false} ApplyAddsUnique(config: seq<ConfigItem>, logs: seq<ReflectionLog>, id: string, d: Decision)
    requires UniqueConfigKeys(config)
    ensures UniqueConfigKeys(ApplyAdds(config, logs, id, d))
  {
    if logs != [] {
      ApplyAddsUnique(config, logs[..|logs| - 1], id, d);
      var last := logs[|logs| - 1];
      if Adds(last, id, d) {
        AddConfigUnique(ApplyAdds(config, logs[..|logs| - 1], id, d), last.payload.value);
      }
    }
  }

  /** Ids are pairwise distinct. */
  predicate UniqueIds(logs: seq<ReflectionLog>) {
    forall i, j :: 0 <= i < j < |logs| ==> logs[i].id != logs[j].id
  }

  /**
   * Approving the one pending log with an id that proposes an entry adds that
   * entry, editable, at the end of the configuration, unless its key is
   * already configured.
   */
  lemma {:induction false} ApproveAdds(config: seq<ConfigItem>, logs: seq<ReflectionLog>, k: nat)
    requires UniqueIds(logs) && k < |logs| && logs[k].status == PendingLog && logs[k].payload.Some?
    ensures ApplyAdds(config, logs, logs[k].id, Approve) == AddConfig(config, logs[k].payload.value)
  {
    var id := logs[k].id;
    var init := logs[..|logs| - 1];
    if k == |logs| - 1 {
      NoAddsKeepConfig(config, init, id, Approve);
    } else {
      assert init[k] == logs[k];
      ApproveAdds(config, init, k);
    }
  }

  /** Deciding the same way twice changes nothing more: the log is no longer pending. */
  lemma DecideTwice(s: AppState, id: string, d: Decision)
    ensures Decide(Decide(s, id, d), id, d) == Decide(s, id, d)
  {
    var r := Decide(s, id, d);
    forall i | 0 <= i < |r.logs| ensures !Adds(r.logs[i], id, d) {
    }
    NoAddsKeepConfig(r.config, r.logs, id, d);
    var rr := Decide(r, id, d);
    assert rr.logs == r.logs;
  }

  // ---------------------------------------------------------------- simulated analysis

  predicate HasDescription(logs: seq<ReflectionLog>, description: string) {
    exists i :: 0 <= i < |logs| && logs[i].description == description
  }

  /** The id of a new log: `REF-` and the random number. */
  function NewId(roll: nat): (id: string)
    ensures |id| > 4 && id[..4] == "REF-"
  {
    "REF-" + NatToString(roll)
  }

  /** The pending log a simulated anomaly files, proposing a business-rule entry. */
  function NewLog(a: Anomaly, roll: nat, now: int): (log: ReflectionLog)
    ensures log.status == PendingLog && log.payload.Some? && log.description == a.description
    ensures log.payload.value.key == a.configKey && log.payload.value.value == a.configValue
    ensures log.payload.value.category == BusinessRule
  {
    var id := NewId(roll);
    ReflectionLog(id, now, a.errorType, a.description, a.proposedFix, PendingLog,
                  Some(Payload(a.configKey, a.configValue, "Auto-generado desde Reflexión " + id, BusinessRule)))
  }

  /** `handleSimulateAnalysis`: nothing when a log already describes the anomaly, else a new pending log in front. */
  function Simulate(s: AppState, a: Anomaly, roll: nat, now: int): (r: AppState)
    ensures r.config == s.config
    ensures HasDescription(s.logs, a.description) ==> r == s
    ensures !HasDescription(s.logs, a.description) ==> r.logs == [NewLog(a, roll, now)] + s.logs
  {
    if exists i :: 0 <= i < |s.logs| && s.logs[i].description == a.description then s
    else AppState(s.config, [NewLog(a, roll, now)] + s.logs)
  }

  /** The same anomaly is never filed twice. */
  lemma SimulateTwice(s: AppState, a: Anomaly, roll: nat, roll': nat, now: int, now': int)
    ensures Simulate(Simulate(s, a, roll, now), a, roll', now') == Simulate(s, a, roll, now)
  {
    var r := Simulate(s, a, roll, now);
    assert r.logs[0].description == a.description || HasDescription(s.logs, a.description);
  }

  /**
   * Approving a freshly filed anomaly whose id is new adds its proposed entry
   * at the end of the configuration, unless the key is already configured.
   */
  lemma SimulateThenApprove(s: AppState, a: Anomaly, roll: nat, now: int)
    requires !HasDescription(s.logs, a.description) && UniqueIds(s.logs)
    requires forall i :: 0 <= i < |s.logs| ==> s.logs[i].id != NewId(roll)
    ensures var log := NewLog(a, roll, now);
            Decide(Simulate(s, a, roll, now), log.id, Approve).config == AddConfig(s.config, log.payload.value)
  {
    var r := Simulate(s, a, roll, now);
    assert UniqueIds(r.logs);
    ApproveAdds(s.config, r.logs, 0);
  }
}
