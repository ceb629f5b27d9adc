/**
 * The compare service (`handle_compare_exports`): index the entities of two
 * export documents by id, split the ids into added, removed and common ones,
 * compute per-field differences for the common ones (only writable domains
 * under `config_only`), and build the comparison report.
 */
module Comparator {
  import opened Json
  import opened Exporter
  import FileNames

  /** Domains whose entities the user can configure. */
  const WritableDomains: seq<string> :=
    ["number", "select", "switch", "button", "input_number", "input_select", "input_boolean", "input_text"]

  /** Entity fields compared besides the state. */
  const TrackedFields: seq<string> := ["name", "device_class", "unit_of_measurement"]

  /** Every entity field the comparison looks at. */
  const ComparedFields: set<string> := {"state", "name", "device_class", "unit_of_measurement"}

  /** Attributes that change all the time and are dropped before comparing. */
  const VolatileAttributes: seq<string> := ["last_changed", "last_updated", "context_id"]

  /** The old and new value of one field or attribute. */
  datatype FieldDelta = FieldDelta(oldValue: Value, newValue: Value)

  /**
   * The `differences` of one entity: deltas of the state and the tracked
   * fields, keyed by field name, and of the attributes, keyed by attribute.
   * An empty `attributes` map stands for a missing `"attributes"` entry.
   */
  datatype Differences = Differences(fields: map<string, FieldDelta>, attributes: map<string, FieldDelta>)
  {
    predicate IsEmpty()
    {
      fields == map[] && attributes == map[]
    }
  }

  /** An entry of the `changed` list. */
  datatype ChangedEntity = ChangedEntity(entityId: string, changes: Differences)

  /** The entry of the report's `changes` map for one changed entity. */
  datatype ChangeSummary = ChangeSummary(oldValue: Value, newValue: Value, changedAttributes: set<string>)

  datatype Summary = Summary(
    totalEntitiesFile1: int,
    totalEntitiesFile2: int,
    addedCount: int,
    removedCount: int,
    changedCount: int,
    unchangedCount: int)

  /** The comparison report. Lists the source builds from sets are sets here. */
  datatype Report = Report(
    file1: string,
    file2: string,
    configOnly: bool,
    export1Timestamp: Value,
    export2Timestamp: Value,
    comparisonTime: string,
    summary: Summary,
    addedEntities: set<string>,
    removedEntities: set<string>,
    changes: map<string, ChangeSummary>)

  /** `{e["entity_id"]: e for e in entities}`: a later duplicate id overwrites an earlier one. */
  function Index(entities: seq<EntityRecord>): (m: map<string, EntityRecord>)
    ensures m.Keys == set e | e in entities :: e.entityId
    ensures forall id :: id in m ==> m[id] in entities && m[id].entityId == id
  {
    if entities == [] then map[]
    else
      var last := entities[|entities| - 1];
      var m := Index(entities[..|entities| - 1])[last.entityId := last];
      assert entities == entities[..|entities| - 1] + [last];
      m
  }

  /** No later entity has the same id as the one at position `i`. */
  predicate IsLastOccurrence(entities: seq<EntityRecord>, i: int)
    requires 0 <= i < |entities|
  {
    forall j :: i < j < |entities| ==> entities[j].entityId != entities[i].entityId
  }

  /** The index holds, for each id, the LAST entity with that id. */
  lemma {:induction false} IndexLastWins(entities: seq<EntityRecord>, i: int)
    requires 0 <= i < |entities| && IsLastOccurrence(entities, i)
    ensures entities[i].entityId in Index(entities)
    ensures Index(entities)[entities[i].entityId] == entities[i]
  {
    var n := |entities| - 1;
    if i < n {
      var init := entities[..n];
      assert IsLastOccurrence(init, i) by {
        forall j | i < j < |init| ensures init[j].entityId != init[i].entityId {
          assert init[j] == entities[j];
        }
      }
      IndexLastWins(init, i);
    }
  }

  /** `entity_id.split(".")[0]`: the text before the first `.`, or the whole id. */
  function Domain(id: string): (d: string)
    ensures |d| <= |id| && d == id[..|d|]
    ensures '.' !in d
    ensures d == id || id[|d|] == '.'
  {
    if id == [] || id[0] == '.' then []
    else [id[0]] + Domain(id[1..])
  }

  /** Whether an id common to both documents is compared at all. */
  predicate Retained(id: string, configOnly: bool)
  {
    !configOnly || Domain(id) in WritableDomains
  }

  /** `e.get(key)` for the compared fields. */
  function Field(e: EntityRecord, key: string): Value
  {
    if key == "state" then e.state
    else if key == "name" then e.name
    else if key == "device_class" then e.deviceClass
    else if key == "unit_of_measurement" then e.unit
    else Null
  }

  /** The attributes with the volatile ones dropped. */
  function Stable(attributes: map<string, Value>): map<string, Value>
  {
    attributes - {"last_changed", "last_updated", "context_id"}
  }

  /** Deltas of the state and the tracked fields whose values differ to Python. */
  function FieldDeltas(e1: EntityRecord, e2: EntityRecord): map<string, FieldDelta>
  {
    map k | k in ComparedFields && !PyEq(Field(e1, k), Field(e2, k)) :: FieldDelta(Field(e1, k), Field(e2, k))
  }

  /** Deltas over the union of keys whose values differ to Python, a missing key reading as `None`. */
  function AttributeDeltas(a1: map<string, Value>, a2: map<string, Value>): map<string, FieldDelta>
  {
    map k | k in a1.Keys + a2.Keys && !PyEq(Get(a1, k), Get(a2, k)) :: FieldDelta(Get(a1, k), Get(a2, k))
  }

  /** The differences of two snapshots of one entity. */
  function Diff(e1: EntityRecord, e2: EntityRecord): Differences
  {
    Differences(FieldDeltas(e1, e2), AttributeDeltas(Stable(e1.attributes), Stable(e2.attributes)))
  }

  /** The attributes that are set to something other than `None`. */
  function NonNull(a: map<string, Value>): map<string, Value>
  {
    map k | k in a && a[k] != Null :: a[k]
  }

  /**
   * What of an entity the comparison sees: its state, the three tracked
   * fields, and its stable attributes that are not `None`.
   */
  datatype View = View(state: Value, name: Value, deviceClass: Value, unit: Value, attributes: map<string, Value>)

  function ViewOf(e: EntityRecord): View
  {
    View(e.state, e.name, e.deviceClass, e.unit, NonNull(Stable(e.attributes)))
  }

  /** Python sees the same view in both: every part equal to Python. */
  predicate SameView(v: View, w: View)
  {
    && PyEq(v.state, w.state) && PyEq(v.name, w.name)
    && PyEq(v.deviceClass, w.deviceClass) && PyEq(v.unit, w.unit)
    && PyEq(Obj(v.attributes), Obj(w.attributes))
  }

  lemma SameViewSymmetric(v: View, w: View)
    ensures SameView(v, w) <==> SameView(w, v)
  {
    PyEqCommutes(v.state, w.state);
    PyEqCommutes(v.name, w.name);
    PyEqCommutes(v.deviceClass, w.deviceClass);
    PyEqCommutes(v.unit, w.unit);
    PyEqCommutes(Obj(v.attributes), Obj(w.attributes));
  }

  /** No attribute delta from a key that one side holds and the other lacks or holds as `None`. */
  lemma AttributeDeltasEmptyNonNull(a1: map<string, Value>, a2: map<string, Value>)
    requires AttributeDeltas(a1, a2) == map[]
    ensures PyEq(Obj(NonNull(a1)), Obj(NonNull(a2)))
  {
    forall k | k in a1.Keys + a2.Keys ensures PyEq(Get(a1, k), Get(a2, k)) {
      assert k !in AttributeDeltas(a1, a2);
    }
    forall k ensures k in NonNull(a1) <==> k in NonNull(a2) {
      if k in a1.Keys + a2.Keys {
        PyEqExamples(Get(a1, k));
        PyEqExamples(Get(a2, k));
        PyEqCommutes(Get(a1, k), Get(a2, k));
      }
    }
  }

  /**
   * The attribute deltas are empty exactly when both sides hold the same
   * attributes to Python once `None`-valued ones are dropped.
   */
  lemma AttributeDeltasEmptyIff(a1: map<string, Value>, a2: map<string, Value>)
    ensures AttributeDeltas(a1, a2) == map[] <==> PyEq(Obj(NonNull(a1)), Obj(NonNull(a2)))
  {
    if AttributeDeltas(a1, a2) == map[] {
      AttributeDeltasEmptyNonNull(a1, a2);
    } else {
      var k :| k in AttributeDeltas(a1, a2);
      PyEqExamples(Get(a1, k));
      PyEqExamples(Get(a2, k));
      if Get(a1, k) != Null {
        assert k in NonNull(a1) && NonNull(a1)[k] == Get(a1, k);
      } else {
        assert k in NonNull(a2);
      }
    }
  }

  /** `{"x": True}` and `{"x": 1}` hold the same attributes to Python. */
  lemma TrueEqualsOneAttribute()
    ensures AttributeDeltas(map["x" := Bool(true)], map["x" := Num(1)]) == map[]
  {
    var d := AttributeDeltas(map["x" := Bool(true)], map["x" := Num(1)]);
    assert PyEq(Bool(true), Num(1));
    assert forall k :: k !in d;
  }

  /**
   * Two snapshots have no differences exactly when the comparison sees the
   * same thing in both: volatile attributes and `None`-valued attributes
   * never make an entity changed, and `True` equals `1`.
   */
  lemma NoDifferencesIffSameView(e1: EntityRecord, e2: EntityRecord)
    ensures Diff(e1, e2).IsEmpty() <==> SameView(ViewOf(e1), ViewOf(e2))
  {
    AttributeDeltasEmptyIff(Stable(e1.attributes), Stable(e2.attributes));
    var same := PyEq(e1.state, e2.state) && PyEq(e1.name, e2.name)
      && PyEq(e1.deviceClass, e2.deviceClass) && PyEq(e1.unit, e2.unit);
    if !same {
      var k := if !PyEq(e1.state, e2.state) then "state"
        else if !PyEq(e1.name, e2.name) then "name"
        else if !PyEq(e1.deviceClass, e2.deviceClass) then "device_class"
        else "unit_of_measurement";
      assert k in FieldDeltas(e1, e2);
    } else {
      forall k | k in ComparedFields ensures PyEq(Field(e1, k), Field(e2, k)) {}
      assert FieldDeltas(e1, e2) == map[];
    }
  }

  /** Every delta with its old and new value exchanged. */
  function SwapDeltas(m: map<string, FieldDelta>): map<string, FieldDelta>
  {
    map k | k in m :: FieldDelta(m[k].newValue, m[k].oldValue)
  }

  function Swapped(d: Differences): Differences
  {
    Differences(SwapDeltas(d.fields), SwapDeltas(d.attributes))
  }

  lemma FieldDeltasSwap(e1: EntityRecord, e2: EntityRecord)
    ensures FieldDeltas(e2, e1) == SwapDeltas(FieldDeltas(e1, e2))
  {
    var l, r := FieldDeltas(e2, e1), SwapDeltas(FieldDeltas(e1, e2));
    forall k ensures PyEq(Field(e2, k), Field(e1, k)) <==> PyEq(Field(e1, k), Field(e2, k)) {
      PyEqCommutes(Field(e1, k), Field(e2, k));
    }
    assert l.Keys == r.Keys;
    forall k | k in l ensures l[k] == r[k] {
    }
  }

  lemma AttributeDeltasSwap(a1: map<string, Value>, a2: map<string, Value>)
    ensures AttributeDeltas(a2, a1) == SwapDeltas(AttributeDeltas(a1, a2))
  {
    var l, r := AttributeDeltas(a2, a1), SwapDeltas(AttributeDeltas(a1, a2));
    assert a2.Keys + a1.Keys == a1.Keys + a2.Keys;
    forall k ensures PyEq(Get(a2, k), Get(a1, k)) <==> PyEq(Get(a1, k), Get(a2, k)) {
      PyEqCommutes(Get(a1, k), Get(a2, k));
    }
    assert l.Keys == r.Keys;
    forall k | k in l ensures l[k] == r[k] {
    }
  }

  /** Comparing in the other order exchanges every old and new value, and nothing else. */
  lemma DiffSwap(e1: EntityRecord, e2: EntityRecord)
    ensures Diff(e2, e1) == Swapped(Diff(e1, e2))
  {
    FieldDeltasSwap(e1, e2);
    AttributeDeltasSwap(Stable(e1.attributes), Stable(e2.attributes));
  }

  /** The state, then the tracked fields one by one, into the `differences` dict. */
  method CompareFields(e1: EntityRecord, e2: EntityRecord) returns (fields: map<string, FieldDelta>)
    ensures fields == FieldDeltas(e1, e2)
  {
    fields := map[];
    if !PyEq(Field(e1, "state"), Field(e2, "state")) {
      fields := fields["state" := FieldDelta(Field(e1, "state"), Field(e2, "state"))];
    }
    for i := 0 to |TrackedFields|
      invariant forall k :: k in fields <==>
        (k == "state" || k in TrackedFields[..i]) && !PyEq(Field(e1, k), Field(e2, k))
      invariant forall k :: k in fields ==> fields[k] == FieldDelta(Field(e1, k), Field(e2, k))
    {
      var key := TrackedFields[i];
      assert TrackedFields[..i + 1] == TrackedFields[..i] + [key];
      if !PyEq(Field(e1, key), Field(e2, key)) {
        fields := fields[key := FieldDelta(Field(e1, key), Field(e2, key))];
      }
    }
    assert TrackedFields[..|TrackedFields|] == TrackedFields;
    assert forall k :: k in ComparedFields <==> k == "state" || k in TrackedFields;
  }

  /** `attrs1.pop(key, None)` and `attrs2.pop(key, None)` for each volatile key. */
  method PopVolatile(attributes1: map<string, Value>, attributes2: map<string, Value>)
    returns (attrs1: map<string, Value>, attrs2: map<string, Value>)
    ensures attrs1 == Stable(attributes1) && attrs2 == Stable(attributes2)
  {
    attrs1, attrs2 := attributes1, attributes2;
    for i := 0 to |VolatileAttributes|
      invariant forall k :: k in attrs1 <==> k in attributes1 && k !in VolatileAttributes[..i]
      invariant forall k :: k in attrs2 <==> k in attributes2 && k !in VolatileAttributes[..i]
      invariant forall k :: k in attrs1 ==> attrs1[k] == attributes1[k]
      invariant forall k :: k in attrs2 ==> attrs2[k] == attributes2[k]
    {
      var key := VolatileAttributes[i];
      assert VolatileAttributes[..i + 1] == VolatileAttributes[..i] + [key];
      attrs1 := attrs1 - {key};
      attrs2 := attrs2 - {key};
    }
    assert VolatileAttributes[..|VolatileAttributes|] == VolatileAttributes;
  }

  /** The `attr_changes` loop over the union of the attribute keys. */
  method CompareAttributes(attrs1: map<string, Value>, attrs2: map<string, Value>)
    returns (attrChanges: map<string, FieldDelta>)
    ensures attrChanges == AttributeDeltas(attrs1, attrs2)
  {
    attrChanges := map[];
    if !PyEq(Obj(attrs1), Obj(attrs2)) {
      var allKeys := attrs1.Keys + attrs2.Keys;
      var todo := allKeys;
      while todo != {}
        invariant todo <= allKeys
        invariant forall k :: k in attrChanges <==>
          k in allKeys && k !in todo && !PyEq(Get(attrs1, k), Get(attrs2, k))
        invariant forall k :: k in attrChanges ==> attrChanges[k] == FieldDelta(Get(attrs1, k), Get(attrs2, k))
        decreases todo
      {
        var key :| key in todo;
        todo := todo - {key};
        if !PyEq(Get(attrs1, key), Get(attrs2, key)) {
          attrChanges := attrChanges[key := FieldDelta(Get(attrs1, key), Get(attrs2, key))];
        }
      }
    } else {
      forall k ensures PyEq(Get(attrs1, k), Get(attrs2, k)) {
        PyEqReflexive(Null);
      }
    }
  }

  /**
   * The per-entity comparison, as the source runs it: the state and the
   * tracked fields, then the attributes after popping the volatile ones;
   * `"attributes"` is recorded only when some attribute differs.
   */
  method EntityDifferences(e1: EntityRecord, e2: EntityRecord) returns (d: Differences)
    ensures d == Diff(e1, e2)
  {
    var fields := CompareFields(e1, e2);
    var attrs1, attrs2 := PopVolatile(e1.attributes, e2.attributes);
    var attrChanges := CompareAttributes(attrs1, attrs2);
    d := Differences(fields, attrChanges);
  }

  /** Whether a common id is compared and found different. */
  predicate IsChanged(m1: map<string, EntityRecord>, m2: map<string, EntityRecord>, configOnly: bool, id: string)
    requires id in m1 && id in m2
  {
    Retained(id, configOnly) && !Diff(m1[id], m2[id]).IsEmpty()
  }

  /** The ids the report lists as changed. */
  function ChangedIds(m1: map<string, EntityRecord>, m2: map<string, EntityRecord>, configOnly: bool): set<string>
  {
    set id | id in m1 && id in m2 && IsChanged(m1, m2, configOnly, id)
  }

  /**
   * An id is changed exactly when it is common to both documents, it is
   * compared (not filtered out by `config_only`), and the comparison sees
   * something different in the two snapshots.
   */
  lemma ChangedIdsIff(m1: map<string, EntityRecord>, m2: map<string, EntityRecord>, configOnly: bool, id: string)
    ensures id in ChangedIds(m1, m2, configOnly) <==>
      id in m1 && id in m2 && Retained(id, configOnly) && !SameView(ViewOf(m1[id]), ViewOf(m2[id]))
  {
    if id in m1 && id in m2 {
      NoDifferencesIffSameView(m1[id], m2[id]);
    }
  }

  /** The changed ids are the same whichever document comes first. */
  lemma ChangedIdsSymmetric(m1: map<string, EntityRecord>, m2: map<string, EntityRecord>, configOnly: bool)
    ensures ChangedIds(m2, m1, configOnly) == ChangedIds(m1, m2, configOnly)
  {
    forall id ensures id in ChangedIds(m2, m1, configOnly) <==> id in ChangedIds(m1, m2, configOnly) {
      ChangedIdsIff(m1, m2, configOnly, id);
      ChangedIdsIff(m2, m1, configOnly, id);
      if id in m1 && id in m2 {
        SameViewSymmetric(ViewOf(m1[id]), ViewOf(m2[id]));
      }
    }
  }

  predicate DistinctIds(changed: seq<ChangedEntity>)
  {
    forall i, j :: 0 <= i < j < |changed| ==> changed[i].entityId != changed[j].entityId
  }

  function IdsOf(changed: seq<ChangedEntity>): set<string>
  {
    set c | c in changed :: c.entityId
  }

  lemma IdsOfAppend(changed: seq<ChangedEntity>, c: ChangedEntity)
    requires DistinctIds(changed) && c.entityId !in IdsOf(changed)
    ensures IdsOf(changed + [c]) == IdsOf(changed) + {c.entityId}
    ensures DistinctIds(changed + [c])
  {
    var s := changed + [c];
    forall i, j | 0 <= i < j < |s| ensures s[i].entityId != s[j].entityId {
      if j == |changed| {
        assert s[i] in changed;
      }
    }
  }

  /** `ids` are the changed ids among the common ids already visited, those not in `todo`. */
  ghost predicate VisitedChanged(
    m1: map<string, EntityRecord>, m2: map<string, EntityRecord>, configOnly: bool,
    todo: set<string>, ids: set<string>)
  {
    forall x :: x in ids <==> x in m1 && x in m2 && x !in todo && IsChanged(m1, m2, configOnly, x)
  }

  /** Visiting one more common id adds it to the changed ids exactly when it is changed. */
  lemma VisitOne(
    m1: map<string, EntityRecord>, m2: map<string, EntityRecord>, configOnly: bool,
    todo: set<string>, ids: set<string>, id: string)
    requires VisitedChanged(m1, m2, configOnly, todo, ids)
    requires id in todo && id in m1 && id in m2
    ensures id !in ids
    ensures VisitedChanged(m1, m2, configOnly, todo - {id},
      if IsChanged(m1, m2, configOnly, id) then ids + {id} else ids)
  {
  }

  lemma VisitedAll(m1: map<string, EntityRecord>, m2: map<string, EntityRecord>, configOnly: bool, ids: set<string>)
    requires VisitedChanged(m1, m2, configOnly, {}, ids)
    ensures ids == ChangedIds(m1, m2, configOnly)
  {
  }

  /** A list of distinct ids has as many entries as ids. */
  lemma {:induction false} DistinctIdsCardinality(changed: seq<ChangedEntity>)
    requires DistinctIds(changed)
    ensures |IdsOf(changed)| == |changed|
  {
    if changed != [] {
      var init := changed[..|changed| - 1];
      var last := changed[|changed| - 1];
      assert changed == init + [last];
      assert DistinctIds(init);
      DistinctIdsCardinality(init);
      assert last.entityId !in IdsOf(init);
      assert IdsOf(changed) == IdsOf(init) + {last.entityId};
    }
  }

  /**
   * The loop over the common ids that fills the `changed` list. The order
   * of the list is the iteration order of a set, which is arbitrary; its
   * entries are exactly the changed ids, each once, with their differences.
   */
  method CollectChanged(m1: map<string, EntityRecord>, m2: map<string, EntityRecord>, configOnly: bool)
    returns (changed: seq<ChangedEntity>)
    ensures DistinctIds(changed)
    ensures IdsOf(changed) == ChangedIds(m1, m2, configOnly)
    ensures |changed| == |ChangedIds(m1, m2, configOnly)|
    ensures forall c :: c in changed ==>
      c.entityId in m1 && c.entityId in m2 && c.changes == Diff(m1[c.entityId], m2[c.entityId])
  {
    var common := m1.Keys * m2.Keys;
    var todo := common;
    changed := [];
    ghost var ids: set<string> := {};
    while todo != {}
      invariant todo <= common
      invariant DistinctIds(changed)
      invariant ids == IdsOf(changed)
      invariant VisitedChanged(m1, m2, configOnly, todo, ids)
      invariant forall c :: c in changed ==>
        c.entityId in m1 && c.entityId in m2 && c.changes == Diff(m1[c.entityId], m2[c.entityId])
      decreases todo
    {
      var id :| id in todo;
      VisitOne(m1, m2, configOnly, todo, ids, id);
      todo := todo - {id};
      if configOnly {
        var domain := Domain(id);
        if domain !in WritableDomains {
          continue;
        }
      }
      var differences := EntityDifferences(m1[id], m2[id]);
      if !differences.IsEmpty() {
        IdsOfAppend(changed, ChangedEntity(id, differences));
        changed := changed + [ChangedEntity(id, differences)];
        ids := ids + {id};
      }
    }
    VisitedAll(m1, m2, configOnly, ids);
    DistinctIdsCardinality(changed);
  }

  /** `c["changes"].get("state", {}).get("old")` and the rest of one `changes` entry. */
  function Summarize(d: Differences): ChangeSummary
  {
    ChangeSummary(
      if "state" in d.fields then d.fields["state"].oldValue else Null,
      if "state" in d.fields then d.fields["state"].newValue else Null,
      d.attributes.Keys)
  }

  /** The report's `changes` map, built from the `changed` list; a later entry would win. */
  function ChangesMap(changed: seq<ChangedEntity>): (r: map<string, ChangeSummary>)
    ensures r.Keys == IdsOf(changed)
    ensures DistinctIds(changed) ==> forall c :: c in changed ==> r[c.entityId] == Summarize(c.changes)
  {
    if changed == [] then map[]
    else
      var init := changed[..|changed| - 1];
      var last := changed[|changed| - 1];
      assert changed == init + [last];
      assert DistinctIds(changed) ==> DistinctIds(init) && last.entityId !in IdsOf(init);
      ChangesMap(init)[last.entityId := Summarize(last.changes)]
  }

  /** With distinct ids, the `changes` map summarises each listed entity's recorded differences. */
  lemma ChangesMapOfEntries(changed: seq<ChangedEntity>, diffs: map<string, Differences>)
    requires DistinctIds(changed)
    requires IdsOf(changed) == diffs.Keys
    requires forall c :: c in changed ==> c.changes == diffs[c.entityId]
    ensures ChangesMap(changed) == map id | id in diffs :: Summarize(diffs[id])
  {
    var l := ChangesMap(changed);
    forall id | id in diffs ensures l[id] == Summarize(diffs[id]) {
      var c :| c in changed && c.entityId == id;
    }
  }

  /**
   * The `changes` map built from a list of entities with distinct ids
   * `ids`, each with its differences, summarises each of those ids.
   */
  lemma ChangesMapOfCollected(
    m1: map<string, EntityRecord>, m2: map<string, EntityRecord>, ids: set<string>, changed: seq<ChangedEntity>)
    requires DistinctIds(changed)
    requires IdsOf(changed) == ids
    requires forall c :: c in changed ==>
      c.entityId in m1 && c.entityId in m2 && c.changes == Diff(m1[c.entityId], m2[c.entityId])
    ensures forall id :: id in ids ==> id in m1 && id in m2
    ensures ChangesMap(changed) == map id | id in ids && id in m1 && id in m2 :: Summarize(Diff(m1[id], m2[id]))
  {
    var diffs := map id | id in ids && id in m1 && id in m2 :: Diff(m1[id], m2[id]);
    assert diffs.Keys == ids;
    ChangesMapOfEntries(changed, diffs);
  }

  /** The report the compare service saves for two documents. */
  function ReportFor(
    file1: string, file2: string, doc1: ExportDocument, doc2: ExportDocument,
    configOnly: bool, comparisonTime: string): Report
  {
    var m1 := Index(doc1.entities);
    var m2 := Index(doc2.entities);
    var changed := ChangedIds(m1, m2, configOnly);
    Report(
      file1, file2, configOnly, doc1.exportTimestamp, doc2.exportTimestamp, comparisonTime,
      Summary(|m1|, |m2|, |m2.Keys - m1.Keys|, |m1.Keys - m2.Keys|, |changed|, |m1.Keys * m2.Keys| - |changed|),
      m2.Keys - m1.Keys,
      m1.Keys - m2.Keys,
      map id | id in changed :: Summarize(Diff(m1[id], m2[id])))
  }

  /**
   * The compare service once both documents are loaded: sanitise the two
   * names, index, split the ids, collect the changed entities and build the
   * report.
   */
  method CompareExports(
    file1: string, file2: string, doc1: ExportDocument, doc2: ExportDocument,
    configOnly: bool, comparisonTime: string) returns (report: Report)
    ensures report == ReportFor(FileNames.CompareFileName(file1), FileNames.CompareFileName(file2),
      doc1, doc2, configOnly, comparisonTime)
  {
    var name1 := FileNames.CompareFileName(file1);
    var name2 := FileNames.CompareFileName(file2);
    var entities1 := Index(doc1.entities);
    var entities2 := Index(doc2.entities);
    var added := entities2.Keys - entities1.Keys;
    var removed := entities1.Keys - entities2.Keys;
    var common := entities1.Keys * entities2.Keys;
    var changed := CollectChanged(entities1, entities2, configOnly);
    var changes := ChangesMap(changed);
    ChangesMapOfCollected(entities1, entities2, IdsOf(changed), changed);
    ghost var spec := ReportFor(name1, name2, doc1, doc2, configOnly, comparisonTime);
    assert changes == spec.changes;
    assert |changed| == spec.summary.changedCount;
    assert |entities1| == spec.summary.totalEntitiesFile1 && |entities2| == spec.summary.totalEntitiesFile2;
    assert |added| == spec.summary.addedCount && |removed| == spec.summary.removedCount;
    assert |common| - |changed| == spec.summary.unchangedCount;
    report := Report(
      name1, name2, configOnly, doc1.exportTimestamp, doc2.exportTimestamp, comparisonTime,
      Summary(|entities1|, |entities2|, |added|, |removed|, |changed|, |common| - |changed|),
      added, removed, changes);
    assert report.summary == spec.summary;
  }

  /**
   * Added, removed and common ids are pairwise disjoint and cover the ids
   * of both documents, and the added and removed counts are their sizes.
   */
  lemma ReportPartitionsIds(
    file1: string, file2: string, doc1: ExportDocument, doc2: ExportDocument,
    configOnly: bool, comparisonTime: string)
    ensures var r := ReportFor(file1, file2, doc1, doc2, configOnly, comparisonTime);
      var ids1 := Index(doc1.entities).Keys;
      var ids2 := Index(doc2.entities).Keys;
      && r.summary.addedCount == |r.addedEntities|
      && r.summary.removedCount == |r.removedEntities|
      && r.addedEntities !! r.removedEntities
      && r.addedEntities !! ids1 * ids2 && r.removedEntities !! ids1 * ids2
      && r.addedEntities + ids1 * ids2 == ids2 && r.removedEntities + ids1 * ids2 == ids1
  {
    var r := ReportFor(file1, file2, doc1, doc2, configOnly, comparisonTime);
    var ids1 := Index(doc1.entities).Keys;
    var ids2 := Index(doc2.entities).Keys;
    assert r.addedEntities == ids2 - ids1 && r.removedEntities == ids1 - ids2;
    SplitIds(ids1, ids2);
  }

  /**
   * The changed ids are common ones, the changed count is their number,
   * and `unchanged = |common| - |changed|` is never negative.
   */
  lemma ReportCountsConsistent(
    file1: string, file2: string, doc1: ExportDocument, doc2: ExportDocument,
    configOnly: bool, comparisonTime: string)
    ensures var r := ReportFor(file1, file2, doc1, doc2, configOnly, comparisonTime);
      var ids1 := Index(doc1.entities).Keys;
      var ids2 := Index(doc2.entities).Keys;
      && r.summary.changedCount == |r.changes|
      && r.changes.Keys <= ids1 * ids2
      && r.summary.unchangedCount >= 0
      && r.summary.unchangedCount + r.summary.changedCount == |ids1 * ids2|
  {
    var r := ReportFor(file1, file2, doc1, doc2, configOnly, comparisonTime);
    var m1 := Index(doc1.entities);
    var m2 := Index(doc2.entities);
    var changed := ChangedIds(m1, m2, configOnly);
    assert r.changes.Keys == changed;
    assert r.summary.changedCount == |changed|;
    assert r.summary.unchangedCount == |m1.Keys * m2.Keys| - |changed|;
    assert changed <= m1.Keys * m2.Keys;
    SubsetCardinality(changed, m1.Keys * m2.Keys);
  }

  /**
   * The report counts nothing added, removed or changed exactly when both
   * documents hold the same ids and no retained common entity differs.
   */
  lemma ReportEmptyIff(
    file1: string, file2: string, doc1: ExportDocument, doc2: ExportDocument,
    configOnly: bool, comparisonTime: string)
    ensures var r := ReportFor(file1, file2, doc1, doc2, configOnly, comparisonTime);
      var m1 := Index(doc1.entities);
      var m2 := Index(doc2.entities);
      r.summary.changedCount == 0 && r.summary.addedCount == 0 && r.summary.removedCount == 0 <==>
        m1.Keys == m2.Keys && ChangedIds(m1, m2, configOnly) == {}
  {
    var m1 := Index(doc1.entities);
    var m2 := Index(doc2.entities);
    var changed := ChangedIds(m1, m2, configOnly);
    if |m2.Keys - m1.Keys| == 0 && |m1.Keys - m2.Keys| == 0 {
      assert m2.Keys - m1.Keys == {} && m1.Keys - m2.Keys == {};
    }
    if |changed| == 0 {
      assert changed == {};
    }
  }

  /** Removed, added and common ids split the ids of both sides. */
  lemma SplitIds<T>(ids1: set<T>, ids2: set<T>)
    ensures (ids2 - ids1) !! (ids1 - ids2)
    ensures (ids2 - ids1) !! ids1 * ids2 && (ids1 - ids2) !! ids1 * ids2
    ensures (ids2 - ids1) + ids1 * ids2 == ids2 && (ids1 - ids2) + ids1 * ids2 == ids1
  {
  }

  lemma SubsetCardinality<T>(a: set<T>, b: set<T>)
    requires a <= b
    ensures |a| <= |b|
  {
    assert b == a + (b - a);
  }

  /**
   * Comparing the documents the other way round exchanges added and
   * removed ids and the two totals, keeps the changed ids and the counts of
   * changed and unchanged entities, and exchanges each changed entity's old
   * and new state while keeping its changed attributes.
   */
  lemma CompareSwap(
    file1: string, file2: string, doc1: ExportDocument, doc2: ExportDocument,
    configOnly: bool, comparisonTime: string)
    ensures var r := ReportFor(file1, file2, doc1, doc2, configOnly, comparisonTime);
      var s := ReportFor(file2, file1, doc2, doc1, configOnly, comparisonTime);
      && s.addedEntities == r.removedEntities
      && s.removedEntities == r.addedEntities
      && s.summary == Summary(r.summary.totalEntitiesFile2, r.summary.totalEntitiesFile1,
           r.summary.removedCount, r.summary.addedCount, r.summary.changedCount, r.summary.unchangedCount)
      && s.changes.Keys == r.changes.Keys
      && forall id :: id in r.changes ==>
           s.changes[id] == ChangeSummary(r.changes[id].newValue, r.changes[id].oldValue, r.changes[id].changedAttributes)
  {
    var m1 := Index(doc1.entities);
    var m2 := Index(doc2.entities);
    ChangedIdsSymmetric(m1, m2, configOnly);
    assert m2.Keys * m1.Keys == m1.Keys * m2.Keys;
    forall id | id in ChangedIds(m1, m2, configOnly)
      ensures Summarize(Diff(m2[id], m1[id])) ==
        ChangeSummary(Summarize(Diff(m1[id], m2[id])).newValue, Summarize(Diff(m1[id], m2[id])).oldValue,
          Summarize(Diff(m1[id], m2[id])).changedAttributes)
    {
      DiffSwap(m1[id], m2[id]);
    }
  }
}
