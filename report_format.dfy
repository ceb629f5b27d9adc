/**
 * The compare service's results as JSON values: the `differences` dict of
 * a changed entity and the `changed` list of `{"entity_id", "changes"}`
 * items, which the service builds in memory, and the comparison report,
 * which it saves. Lists the source builds from sets are written here in an
 * arbitrary but fixed order.
 */
module ReportFormat {
  import opened Json
  import opened Comparator

  /** `{"old": ..., "new": ...}`. */
  function DeltaJson(d: FieldDelta): Value
  {
    Obj(map["old" := d.oldValue, "new" := d.newValue])
  }

  /** A dict of deltas, one `{"old", "new"}` per key. */
  function DeltasJson(m: map<string, FieldDelta>): (r: Value)
    ensures r.Obj? && r.fields.Keys == m.Keys
  {
    Obj(map k | k in m :: DeltaJson(m[k]))
  }

  /**
   * The `differences` dict: one delta per changed field, and `attributes`
   * only when some attribute changed.
   */
  function DifferencesJson(d: Differences): (r: Value)
    ensures r.Obj?
    ensures "attributes" !in d.fields ==> ("attributes" in r.fields <==> d.attributes != map[])
  {
    var fields := map k | k in d.fields :: DeltaJson(d.fields[k]);
    Obj(if d.attributes == map[] then fields else fields["attributes" := DeltasJson(d.attributes)])
  }

  /** An item of the `changed` list. */
  function ChangedEntityJson(c: ChangedEntity): Value
  {
    Obj(map["entity_id" := Str(c.entityId), "changes" := DifferencesJson(c.changes)])
  }

  /** The `changed` list, item by item. */
  function ChangedListJson(changed: seq<ChangedEntity>): (r: seq<Value>)
    ensures |r| == |changed|
    ensures forall i :: 0 <= i < |r| ==> r[i] == ChangedEntityJson(changed[i])
  {
    if changed == [] then []
    else ChangedListJson(changed[..|changed| - 1]) + [ChangedEntityJson(changed[|changed| - 1])]
  }

  /** The elements of a set in some order, each once. */
  ghost function Enumerate(s: set<string>): (r: seq<string>)
    ensures |r| == |s|
    ensures forall x :: x in r <==> x in s
    decreases |s|
  {
    if s == {} then []
    else
      var x :| x in s;
      [x] + Enumerate(s - {x})
  }

  function Strings(s: seq<string>): (r: seq<Value>)
    ensures |r| == |s|
  {
    if s == [] then [] else [Str(s[0])] + Strings(s[1..])
  }

  /** An entry of the report's `changes` dict. */
  ghost function SummaryJson(c: ChangeSummary): Value
  {
    Obj(map[
      "old_value" := c.oldValue,
      "new_value" := c.newValue,
      "changed_attributes" := Arr(Strings(Enumerate(c.changedAttributes)))])
  }

  /** The report's `changes` dict. */
  ghost function ChangesJson(changes: map<string, ChangeSummary>): Value
  {
    Obj(map id | id in changes :: SummaryJson(changes[id]))
  }

  /** The report's `summary` dict. */
  function SummaryDictJson(s: Summary): map<string, Value>
  {
    map[
      "total_entities_file1" := Num(s.totalEntitiesFile1),
      "total_entities_file2" := Num(s.totalEntitiesFile2),
      "added" := Num(s.addedCount),
      "removed" := Num(s.removedCount),
      "changed" := Num(s.changedCount),
      "unchanged" := Num(s.unchangedCount)]
  }

  /** The saved comparison report. */
  ghost function ReportJson(r: Report): Value
  {
    Obj(map[
      "export1_timestamp" := r.export1Timestamp,
      "export2_timestamp" := r.export2Timestamp,
      "added_entities" := Arr(Strings(Enumerate(r.addedEntities))),
      "removed_entities" := Arr(Strings(Enumerate(r.removedEntities))),
      "file1" := Str(r.file1),
      "file2" := Str(r.file2),
      "config_only" := Bool(r.configOnly),
      "comparison_time" := Str(r.comparisonTime),
      "summary" := Obj(SummaryDictJson(r.summary)),
      "changes" := ChangesJson(r.changes)])
  }

  lemma ReportJsonNames(r: Report)
    ensures var d := ReportJson(r).fields;
      && "file1" in d && d["file1"] == Str(r.file1)
      && "file2" in d && d["file2"] == Str(r.file2)
  {
  }

  lemma ReportJsonMode(r: Report)
    ensures var d := ReportJson(r).fields;
      && "config_only" in d && d["config_only"] == Bool(r.configOnly)
      && "comparison_time" in d && d["comparison_time"] == Str(r.comparisonTime)
  {
  }

  lemma ReportJsonBody(r: Report)
    ensures var d := ReportJson(r).fields;
      && "summary" in d && d["summary"] == Obj(SummaryDictJson(r.summary))
      && "changes" in d && d["changes"] == ChangesJson(r.changes)
  {
  }

  lemma SummaryDictCounts(s: Summary)
    ensures var d := SummaryDictJson(s);
      && "changed" in d && d["changed"] == Num(s.changedCount)
      && "added" in d && d["added"] == Num(s.addedCount)
      && "removed" in d && d["removed"] == Num(s.removedCount)
      && "unchanged" in d && d["unchanged"] == Num(s.unchangedCount)
  {
  }
}
