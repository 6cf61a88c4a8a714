/** history_store.py: which history files and snapshots this version of the program understands. */
module HistorySnapshots {
  import opened Wrappers

  const SCHEMA_VERSION := 1

  datatype Json =
    | Null | Bool(truth: bool) | Int(number: int) | Float(measure: real) | Text(text: string)
    | List(items: seq<Json>) | Object(fields: map<string, Json>)

  type Payload = map<string, Json>

  /** What the record type checks: blank characters, known statuses, and the whole of a record. */
  datatype Rules = Rules(isSpace: char -> bool, isStatus: string -> bool, accepts: Payload -> bool)

  function Version(value: Json): Option<nat> {
    if value.Int? && value.number >= 0 then Some(value.number) else None
  }

  /** A missing marker is the legacy version 0; an odd one is no version at all. */
  function PayloadVersion(payload: Payload): Option<nat> {
    if "schema_version" in payload then Version(payload["schema_version"])
    else if "version" in payload then Version(payload["version"])
    else Some(0)
  }

  predicate IsSupported(payload: Payload) {
    var v := PayloadVersion(payload);
    v.Some? && v.value <= SCHEMA_VERSION
  }

  predicate IsFuture(payload: Payload) {
    var v := PayloadVersion(payload);
    v.Some? && v.value > SCHEMA_VERSION
  }

  const LEGACY_KEYS := ["records", "entries", "history"]

  predicate HasText(rules: Rules, payload: Payload, field: string) {
    field in payload && payload[field].Text? && exists c :: c in payload[field].text && !rules.isSpace(c)
  }

  predicate HasTextOrNull(payload: Payload, field: string) {
    field in payload && (payload[field].Text? || payload[field].Null?)
  }

  /** The record contract of version 1. */
  predicate IsCanonical(rules: Rules, payload: Payload) {
    && HasText(rules, payload, "id") && HasText(rules, payload, "workflow")
    && HasText(rules, payload, "provider") && HasText(rules, payload, "model") && HasText(rules, payload, "status")
    && "timestamp" in payload && payload["timestamp"].Text?
    && HasTextOrNull(payload, "raw_text") && HasTextOrNull(payload, "refined_text") && HasTextOrNull(payload, "error")
    && rules.isStatus(payload["status"].text)
  }

  predicate LegacyContainersAreLists(payload: Payload) {
    forall k :: k in LEGACY_KEYS && k in payload ==> payload[k].List?
  }

  function PresentKeys(payload: Payload, keys: seq<string>): (r: seq<string>)
    ensures forall k :: k in r <==> k in keys && k in payload
    ensures |r| <= |keys|
  {
    if keys == [] then []
    else (if keys[0] in payload then [keys[0]] else []) + PresentKeys(payload, keys[1..])
  }

  predicate LegacyContainerIsUnique(payload: Payload) {
    LegacyContainersAreLists(payload) && |PresentKeys(payload, LEGACY_KEYS)| == 1
  }

  predicate LegacyEntryIsSafe(item: Json) {
    && item.Object?
    && ("provider" in item.fields ==> item.fields["provider"].Text?)
    && ("model" in item.fields ==> item.fields["model"].Text?)
  }

  predicate LegacyEntriesAreSafe(payload: Payload) {
    forall k :: k in LEGACY_KEYS && k in payload && payload[k].List? ==>
      forall item :: item in payload[k].items ==> LegacyEntryIsSafe(item)
  }

  const RECORD_KEYS := {
    "id", "record_id", "raw_text", "raw", "text", "refined_text", "refined", "workflow", "mode", "timestamp",
    "time", "provider", "model", "refinement_provider", "refinement_model", "status", "error"}

  /** Migration keeps only the fields a record knows. */
  function Migrated(item: Payload): Payload {
    map k | k in item && k in RECORD_KEYS :: item[k]
  }

  /** The list a legacy file is migrated from. */
  function LegacySource(payload: Payload): seq<Json> {
    if "records" in payload && payload["records"].List? then payload["records"].items
    else if "entries" in payload && payload["entries"].List? then payload["entries"].items
    else if "history" in payload && payload["history"].List? then payload["history"].items
    else []
  }

  /** Every record of the snapshot loads as it is. */
  predicate IsRecoverable(rules: Rules, payload: Payload) {
    if !IsSupported(payload) then false
    else if PayloadVersion(payload) == Some(SCHEMA_VERSION) then
      && "records" in payload && payload["records"].List?
      && forall item :: item in payload["records"].items ==>
           item.Object? && IsCanonical(rules, item.fields) && rules.accepts(item.fields)
    else
      && LegacyContainerIsUnique(payload) && LegacyEntriesAreSafe(payload)
      && forall item :: item in LegacySource(payload) ==> item.Object? && rules.accepts(Migrated(item.fields))
  }

  predicate ContainerIsValid(payload: Payload) {
    if !IsSupported(payload) then false
    else if PayloadVersion(payload) == Some(SCHEMA_VERSION) then "records" in payload && payload["records"].List?
    else LegacyContainerIsUnique(payload)
  }

  /** What can be recovered is a sound primary, and is of a version this program writes over. */
  lemma RecoverableIsSound(rules: Rules, payload: Payload)
    requires IsRecoverable(rules, payload)
    ensures ContainerIsValid(payload) && IsSupported(payload) && !IsFuture(payload)
  {}

  /** Nothing of a recoverable legacy file is left behind: its one container is the source of
      the migration, and every entry in it becomes a record. */
  lemma MigrationKeepsEveryEntry(rules: Rules, payload: Payload, key: string, i: nat)
    requires IsRecoverable(rules, payload) && PayloadVersion(payload) == Some(0)
    requires key in LEGACY_KEYS && key in payload
    ensures payload[key].List? && LegacySource(payload) == payload[key].items
    ensures i < |payload[key].items| ==>
      payload[key].items[i].Object? && rules.accepts(Migrated(payload[key].items[i].fields))
  {
    OnlyOne(payload);
    if i < |payload[key].items| {
      assert payload[key].items[i] in LegacySource(payload);
    }
  }

  lemma OnlyOne(payload: Payload)
    requires |PresentKeys(payload, LEGACY_KEYS)| == 1
    ensures forall a, b :: a in LEGACY_KEYS && b in LEGACY_KEYS && a in payload && b in payload ==> a == b
  {
    var r := PresentKeys(payload, LEGACY_KEYS);
    forall a, b | a in LEGACY_KEYS && b in LEGACY_KEYS && a in payload && b in payload
      ensures a == b
    {
      assert a in r && b in r;
      assert a == r[0] && b == r[0];
    }
  }

  const NAMED_FIELDS := {"id", "workflow", "provider", "model", "status"}
  const TEXT_FIELDS := {"raw_text", "refined_text", "error"}

  /** Every field of a record is there, of its type and, where it has to be, not blank. */
  predicate Complete(rules: Rules, fields: Payload) {
    && (forall f :: f in NAMED_FIELDS ==>
          f in fields && fields[f].Text? && exists c :: c in fields[f].text && !rules.isSpace(c))
    && (forall f :: f in TEXT_FIELDS ==> f in fields && (fields[f].Text? || fields[f].Null?))
    && "timestamp" in fields && fields["timestamp"].Text? && rules.isStatus(fields["status"].text)
  }

  lemma CanonicalIsComplete(rules: Rules, fields: Payload)
    ensures IsCanonical(rules, fields) <==> Complete(rules, fields)
  {
    assert NAMED_FIELDS == {"id", "workflow", "provider", "model", "status"};
    if Complete(rules, fields) {
      assert "id" in NAMED_FIELDS && "workflow" in NAMED_FIELDS && "provider" in NAMED_FIELDS;
      assert "model" in NAMED_FIELDS && "status" in NAMED_FIELDS;
      assert "raw_text" in TEXT_FIELDS && "refined_text" in TEXT_FIELDS && "error" in TEXT_FIELDS;
    }
  }

  /** A file of the current version can be recovered exactly if it has a list of records and each
      of them is complete, well typed and accepted by the record type. */
  lemma CurrentFileIsExact(rules: Rules, payload: Payload)
    requires "schema_version" in payload && payload["schema_version"] == Int(1)
    ensures IsRecoverable(rules, payload) <==>
      && "records" in payload && payload["records"].List?
      && forall item :: item in payload["records"].items ==>
           item.Object? && rules.accepts(item.fields) && Complete(rules, item.fields)
  {
    hide IsCanonical, Complete;
    if "records" in payload && payload["records"].List? {
      forall item | item in payload["records"].items && item.Object?
        ensures IsCanonical(rules, item.fields) <==> Complete(rules, item.fields)
      {
        CanonicalIsComplete(rules, item.fields);
      }
    }
  }
}
