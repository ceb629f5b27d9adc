/**
 * What the comparison sensor shows for the documents the compare service
 * writes: a saved report is read back with its counts, timestamp and
 * label, and a `changed` list in list form normalises to the same entries
 * as the report's `changes` map.
 */
module RoundTrip {
  import opened Wrappers
  import opened Json
  import opened Comparator
  import opened ReportFormat
  import opened Sensors

  /** The report's `changes` map keyed by the ids as JSON strings, as the sensor keys them. */
  function KeyedById(changes: map<string, ChangeSummary>): (r: map<Value, ChangeSummary>)
    ensures forall id :: id in changes <==> Str(id) in r
    ensures forall v :: v in r ==> v.Str? && r[v] == changes[v.s]
  {
    map id | id in changes :: Str(id) := changes[id]
  }

  lemma KeyedByIdUpdate(changes: map<string, ChangeSummary>, id: string, c: ChangeSummary)
    ensures KeyedById(changes[id := c]) == KeyedById(changes)[Str(id) := c]
  {
    var l, r := KeyedById(changes[id := c]), KeyedById(changes)[Str(id) := c];
    assert l.Keys == r.Keys;
  }

  /** A `changed` item normalises to its id and its entry of the report's `changes` map. */
  lemma NormalizeChangedEntity(c: ChangedEntity)
    requires c.entityId != ""
    requires "attributes" !in c.changes.fields
    ensures NormalizeItem(ChangedEntityJson(c)) == Success(Some((Str(c.entityId), Summarize(c.changes))))
  {
    var item := ChangedEntityJson(c);
    assert item.fields["entity_id"] == Str(c.entityId) && Truthy(Str(c.entityId));
    assert item.fields["changes"] == DifferencesJson(c.changes);
    var diffs := DifferencesJson(c.changes).fields;
    if c.changes.attributes != map[] {
      assert diffs["attributes"] == DeltasJson(c.changes.attributes);
    } else {
      assert c.changes.attributes.Keys == {};
    }
    if "state" in c.changes.fields {
      assert diffs["state"] == DeltaJson(c.changes.fields["state"]);
    } else {
      assert "state" !in diffs;
    }
  }

  /**
   * Normalising the `changed` list in list form gives exactly the report's
   * `changes` map, keyed by the ids as JSON strings: the sensor's rule for
   * `old_value`, `new_value` and `changed_attributes` is the service's.
   */
  lemma {:induction false} NormalizeChangedList(changed: seq<ChangedEntity>)
    requires forall c :: c in changed ==> c.entityId != "" && "attributes" !in c.changes.fields
    ensures NormalizeList(ChangedListJson(changed)) == Success(KeyedById(ChangesMap(changed)))
  {
    if changed != [] {
      var init := changed[..|changed| - 1];
      var last := changed[|changed| - 1];
      var items := ChangedListJson(changed);
      assert items[..|items| - 1] == ChangedListJson(init);
      NormalizeChangedList(init);
      NormalizeChangedEntity(last);
      KeyedByIdUpdate(ChangesMap(init), last.entityId, Summarize(last.changes));
    }
  }

  /** What the service collects meets the conditions above: no field delta is keyed `attributes`. */
  lemma DiffHasNoAttributesField(e1: Exporter.EntityRecord, e2: Exporter.EntityRecord)
    ensures "attributes" !in Diff(e1, e2).fields
  {
  }

  /**
   * A saved report is read back: it is processed without error, its counts,
   * file names, mode and comparison time are shown as written, its
   * `changes` dict is passed through, and the label is that of its counts.
   */
  lemma ReadReport(r: Report, filename: string)
    ensures var p := ProcessComparison(ReportJson(r), filename);
      && p.Success?
      && p.value.0 == CountsLabel(Num(r.summary.changedCount), Num(r.summary.addedCount), Num(r.summary.removedCount))
      && p.value.1.changedCount == Num(r.summary.changedCount)
      && p.value.1.addedCount == Num(r.summary.addedCount)
      && p.value.1.removedCount == Num(r.summary.removedCount)
      && p.value.1.unchangedCount == Num(r.summary.unchangedCount)
      && p.value.1.timestamp == Str(r.comparisonTime)
      && p.value.1.file1 == Str(r.file1) && p.value.1.file2 == Str(r.file2)
      && p.value.1.configOnly == Bool(r.configOnly)
      && p.value.1.changes == Passthrough(ChangesJson(r.changes))
      && p.value.1.comparisonFile == filename
  {
    ReportJsonNames(r);
    ReportJsonMode(r);
    ReportJsonBody(r);
    SummaryDictCounts(r.summary);
  }

  /**
   * End to end: after comparing two exports and saving the report, the
   * sensor reads "No changes" exactly when both exports hold the same
   * entity ids and no retained common entity differs.
   */
  lemma SensorShowsNoChangesIff(
    file1: string, file2: string, doc1: Exporter.ExportDocument, doc2: Exporter.ExportDocument,
    configOnly: bool, comparisonTime: string, filename: string)
    ensures var r := ReportFor(file1, file2, doc1, doc2, configOnly, comparisonTime);
      var m1 := Index(doc1.entities);
      var m2 := Index(doc2.entities);
      ProjectComparison(Some((ReportJson(r), filename))).0 == NoChanges <==>
        m1.Keys == m2.Keys && ChangedIds(m1, m2, configOnly) == {}
  {
    var r := ReportFor(file1, file2, doc1, doc2, configOnly, comparisonTime);
    var c, a, d := r.summary.changedCount, r.summary.addedCount, r.summary.removedCount;
    ReadReport(r, filename);
    var p := ProcessComparison(ReportJson(r), filename);
    assert ProjectComparison(Some((ReportJson(r), filename))).0 == p.value.0 == CountsLabel(Num(c), Num(a), Num(d));
    CountsLabelOfNumbers(c, a, d);
    ReportEmptyIff(file1, file2, doc1, doc2, configOnly, comparisonTime);
  }

  /**
   * A report whose `changes` is the `changed` list in list form: the sensor
   * normalises it to the entries the current format would have written.
   */
  lemma ReadListFormChanges(data: map<string, Value>, changed: seq<ChangedEntity>, filename: string)
    requires GetOr(data, "summary", Obj(map[])).Obj?
    requires "changes" in data && data["changes"] == Arr(ChangedListJson(changed))
    requires forall c :: c in changed ==> c.entityId != "" && "attributes" !in c.changes.fields
    ensures var p := ProcessComparison(Obj(data), filename);
      p.Success? && p.value.1.changes == Normalized(KeyedById(ChangesMap(changed)))
  {
    NormalizeChangedList(changed);
  }
}
