/**
 Snapshot, override and restore of the DLP configuration (dlp_harness/db.py, keys from dlp_harness/constants.py), over a
 key/value store of raw JSON texts.
 */
module ConfigStore {
  import opened Options

  type Store = map<string, string>

  /** The value of a key at snapshot time. */
  datatype Raw = Missing | Present(text: string)

  type Snapshot = seq<(string, Raw)>

  const DLP_CONFIG_KEYS: seq<string> := [
    "dlp.enabled", "dlp.regex.enabled", "dlp.regex.patterns", "dlp.regex.keywords", "dlp.regex.builtins_in_list",
    "dlp.max_scan_chars", "dlp.gliner.enabled", "dlp.gliner.threshold", "dlp.gliner.categories",
    "dlp.gliner.max_scan_chars", "dlp.llm.enabled", "dlp.llm.model", "dlp.llm.system_prompt", "dlp.severity_rules",
    "dlp.dedup.enabled", "dlp.dedup.window_seconds", "dlp.email.minor_recipients", "dlp.email.moderate_recipients",
    "dlp.email.major_recipients", "dlp.email.minor.mode", "dlp.email.moderate.mode", "dlp.email.major.mode",
    "dlp.digest.frequency", "dlp.digest.recipients", "dlp.digest.last_sent_at"]

  function Get(s: Store, k: string): Raw {
    if k in s then Present(s[k]) else Missing
  }

  /** A key is written, or deleted. */
  function Put(s: Store, k: string, v: Raw): Store {
    match v
    case Present(text) => s[k := text]
    case Missing => s - {k}
  }

  lemma PutGet(s: Store, k: string, v: Raw, k1: string)
    ensures Get(Put(s, k, v), k1) == if k1 == k then v else Get(s, k1)
  {
  }

  function SnapshotOf(s: Store, keys: seq<string>): Snapshot {
    if keys == [] then [] else SnapshotOf(s, keys[..|keys| - 1]) + [(keys[|keys| - 1], Get(s, keys[|keys| - 1]))]
  }

  function RestoreAll(s: Store, snap: Snapshot): Store {
    if snap == [] then s
    else Put(RestoreAll(s, snap[..|snap| - 1]), snap[|snap| - 1].0, snap[|snap| - 1].1)
  }

  /** The JSON forms of a snapshot: `None` is the null of the file. */
  function ToJson(snap: Snapshot): seq<(string, Option<string>)> {
    if snap == [] then [] else
      var (k, v) := snap[|snap| - 1];
      ToJson(snap[..|snap| - 1]) + [(k, if v.Missing? then None else Some(v.text))]
  }

  function FromJson(data: seq<(string, Option<string>)>): Snapshot {
    if data == [] then [] else
      var (k, v) := data[|data| - 1];
      FromJson(data[..|data| - 1]) + [(k, if v.None? then Missing else Present(v.value))]
  }

  /** The JSON form keeps the snapshot, absent keys included. */
  lemma {:induction false} JsonRoundTrip(snap: Snapshot)
    ensures FromJson(ToJson(snap)) == snap
  {
    if snap != [] {
      JsonRoundTrip(snap[..|snap| - 1]);
      var data := ToJson(snap);
      var (k, v) := snap[|snap| - 1];
      assert data[..|data| - 1] == ToJson(snap[..|snap| - 1]);
      assert data[|data| - 1] == (k, if v.Missing? then None else Some(v.text));
      assert snap == snap[..|snap| - 1] + [(k, v)];
    }
  }

  lemma {:induction false} RestoreGet(s: Store, s0: Store, keys: seq<string>, k: string)
    ensures Get(RestoreAll(s, SnapshotOf(s0, keys)), k) == if k in keys then Get(s0, k) else Get(s, k)
  {
    if keys != [] {
      var front, last := keys[..|keys| - 1], keys[|keys| - 1];
      RestoreGet(s, s0, front, k);
      var snap := SnapshotOf(s0, keys);
      assert snap[..|snap| - 1] == SnapshotOf(s0, front);
      PutGet(RestoreAll(s, SnapshotOf(s0, front)), last, Get(s0, last), k);
      assert keys == front + [last];
    }
  }

  lemma SameGets(s: Store, s1: Store)
    requires forall k :: Get(s, k) == Get(s1, k)
    ensures s == s1
  {
    forall k | k in s ensures k in s1 && s[k] == s1[k] {
      assert Get(s, k) == Get(s1, k);
    }
    forall k | k in s1 ensures k in s {
      assert Get(s, k) == Get(s1, k);
    }
  }

  /** `s` and `s1` differ at most in `keys`. */
  ghost predicate AgreeOutside(s: Store, s1: Store, keys: seq<string>) {
    forall k | k !in keys :: Get(s, k) == Get(s1, k)
  }

  /**
   A restored snapshot brings every key of the inventory back, and touches no other key; so what only the inventory has
   lost since is undone exactly. The snapshot read back from its JSON form does the same.
   */
  lemma RestoreUndoes(s0: Store, s: Store, keys: seq<string>)
    ensures forall k | k in keys :: Get(RestoreAll(s, SnapshotOf(s0, keys)), k) == Get(s0, k)
    ensures AgreeOutside(RestoreAll(s, SnapshotOf(s0, keys)), s, keys)
    ensures AgreeOutside(s0, s, keys) ==> RestoreAll(s, SnapshotOf(s0, keys)) == s0
    ensures RestoreAll(s, FromJson(ToJson(SnapshotOf(s0, keys)))) == RestoreAll(s, SnapshotOf(s0, keys))
  {
    var r := RestoreAll(s, SnapshotOf(s0, keys));
    forall k ensures Get(r, k) == if k in keys then Get(s0, k) else Get(s, k) {
      RestoreGet(s, s0, keys, k);
    }
    if AgreeOutside(s0, s, keys) {
      SameGets(r, s0);
    }
    JsonRoundTrip(SnapshotOf(s0, keys));
  }

  predicate Covered(overrides: seq<(string, string)>, keys: seq<string>) {
    forall i | 0 <= i < |overrides| :: overrides[i].0 in keys
  }

  /** The scanner matrix of a run mode. */
  function ScannerMode(mode: string): seq<(string, string)> {
    if mode == "off" then [("dlp.enabled", "false")]
    else [("dlp.enabled", "true"), ("dlp.regex.enabled", if mode == "gliner" then "false" else "true"),
          ("dlp.gliner.enabled", if mode == "regex" then "false" else "true"), ("dlp.llm.enabled", "false")]
  }

  /** Never email, never deduplicate. */
  const SAFE_RUN_OVERRIDES: seq<(string, string)> := [
    ("dlp.dedup.enabled", "false"), ("dlp.email.minor.mode", "\"off\""), ("dlp.email.moderate.mode", "\"off\""),
    ("dlp.email.major.mode", "\"off\""), ("dlp.email.minor_recipients", "\"\""),
    ("dlp.email.moderate_recipients", "\"\""), ("dlp.email.major_recipients", "\"\""),
    ("dlp.digest.recipients", "\"\"")]

  /** What a run overrides: its scanners, on top of them the safety overrides, and the pinned severity rules. */
  function RunOverrides(mode: string, severityRules: string): seq<(string, string)> {
    ScannerMode(mode) + SAFE_RUN_OVERRIDES + [("dlp.severity_rules", severityRules)]
  }

  /** The safety overrides are those of their keys that count: none is overridden again. */
  lemma SafetyIsLast(mode: string, severityRules: string, i: nat)
    requires i < |SAFE_RUN_OVERRIDES|
    ensures
      var all := RunOverrides(mode, severityRules);
      var j := |ScannerMode(mode)| + i;
      && j < |all| && all[j] == SAFE_RUN_OVERRIDES[i]
      && forall k | j < k < |all| :: all[k].0 != all[j].0
  {
  }

  lemma ScannersAreLast(mode: string, severityRules: string, i: nat)
    requires i < |ScannerMode(mode)|
    ensures
      var all := RunOverrides(mode, severityRules);
      i < |all| && all[i] == ScannerMode(mode)[i] && forall k | i < k < |all| :: all[k].0 != all[i].0
  {
    var all, mine := RunOverrides(mode, severityRules), ScannerMode(mode);
    ScannersDiffer(mode, i);
    forall k | i < k < |all| ensures all[k].0 != mine[i].0 {
      assert k < |mine| ==> all[k] == mine[k];
      assert |mine| <= k < |mine| + |SAFE_RUN_OVERRIDES| ==> all[k] == SAFE_RUN_OVERRIDES[k - |mine|];
    }
  }

  lemma ScannersDiffer(mode: string, i: nat)
    requires i < |ScannerMode(mode)|
    ensures forall k | i < k < |ScannerMode(mode)| :: ScannerMode(mode)[k].0 != ScannerMode(mode)[i].0
    ensures forall k | 0 <= k < |SAFE_RUN_OVERRIDES| :: SAFE_RUN_OVERRIDES[k].0 != ScannerMode(mode)[i].0
    ensures ScannerMode(mode)[i].0 != "dlp.severity_rules"
  {
  }

  lemma ScannersCovered(mode: string)
    ensures Covered(ScannerMode(mode), DLP_CONFIG_KEYS)
  {
    var keys := DLP_CONFIG_KEYS;
    assert keys[0] == "dlp.enabled" && keys[1] == "dlp.regex.enabled";
    assert keys[6] == "dlp.gliner.enabled" && keys[10] == "dlp.llm.enabled";
  }

  lemma SafetyCovered()
    ensures Covered(SAFE_RUN_OVERRIDES, DLP_CONFIG_KEYS)
  {
    var keys := DLP_CONFIG_KEYS;
    assert keys[14] == "dlp.dedup.enabled" && keys[19] == "dlp.email.minor.mode";
    assert keys[20] == "dlp.email.moderate.mode" && keys[21] == "dlp.email.major.mode";
    assert keys[16] == "dlp.email.minor_recipients" && keys[17] == "dlp.email.moderate_recipients";
    assert keys[18] == "dlp.email.major_recipients" && keys[23] == "dlp.digest.recipients";
  }

  lemma CoveredJoin(a: seq<(string, string)>, b: seq<(string, string)>, keys: seq<string>)
    requires Covered(a, keys) && Covered(b, keys)
    ensures Covered(a + b, keys)
  {
  }

  /** No run overrides a key that the snapshot leaves out. */
  lemma RunOverridesCovered(mode: string, severityRules: string)
    ensures Covered(RunOverrides(mode, severityRules), DLP_CONFIG_KEYS)
  {
    ScannersCovered(mode);
    SafetyCovered();
    assert DLP_CONFIG_KEYS[13] == "dlp.severity_rules";
    CoveredJoin(ScannerMode(mode), SAFE_RUN_OVERRIDES, DLP_CONFIG_KEYS);
    CoveredJoin(ScannerMode(mode) + SAFE_RUN_OVERRIDES, [("dlp.severity_rules", severityRules)], DLP_CONFIG_KEYS);
  }
}
