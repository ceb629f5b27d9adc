/**
 * The export service's selection of entities (`handle_export_config`): walk
 * the entity registry in order and snapshot every entity of the `solarman`
 * platform that has a current state, dropping "unavailable" ones unless asked
 * to keep them. The registry and the state store are given as one sequence of
 * registry entries, each with the state the store holds for it, if any.
 */
module Exporter {
  import opened Wrappers
  import opened Json

  const SolarmanPlatform := "solarman"
  const Unavailable := "unavailable"

  /** An entity registry entry. */
  datatype RegistryEntry = RegistryEntry(
    entityId: string,
    platform: string,
    originalName: Option<string>,
    name: Option<string>,
    deviceClass: Option<string>,
    unit: Option<string>)

  /** What `hass.states.get(entity_id)` returns for an entity that has a state. */
  datatype HostState = HostState(
    state: string,
    attributes: map<string, Value>,
    lastChanged: string,
    lastUpdated: string)

  /** A registry entry together with the result of the state lookup. */
  datatype Candidate = Candidate(entry: RegistryEntry, state: Option<HostState>)

  /**
   * One entity of an export document. Fields the document lacks read as
   * `Null` (and absent attributes as the empty map), as `dict.get` does.
   */
  datatype EntityRecord = EntityRecord(
    entityId: string,
    name: Value,
    deviceClass: Value,
    unit: Value,
    state: Value,
    attributes: map<string, Value>,
    lastChanged: Value,
    lastUpdated: Value)

  /** An export document: `export_timestamp`, `total_entities`, `entities`. */
  datatype ExportDocument = ExportDocument(
    exportTimestamp: Value,
    totalEntities: int,
    entities: seq<EntityRecord>)

  function OptionalString(o: Option<string>): Value
  {
    match o
    case Some(s) => Str(s)
    case None => Null
  }

  /** Whether the export takes this candidate. */
  predicate Included(c: Candidate, includeUnavailable: bool)
  {
    && c.entry.platform == SolarmanPlatform
    && c.state.Some?
    && !(!includeUnavailable && c.state.value.state == Unavailable)
  }

  /** The record written for a candidate; the name is `original_name or name`. */
  function Snapshot(c: Candidate): EntityRecord
    requires c.state.Some?
  {
    var st := c.state.value;
    EntityRecord(
      c.entry.entityId,
      if c.entry.originalName.Some? && c.entry.originalName.value != ""
      then Str(c.entry.originalName.value)
      else OptionalString(c.entry.name),
      OptionalString(c.entry.deviceClass),
      OptionalString(c.entry.unit),
      Str(st.state),
      st.attributes,
      Str(st.lastChanged),
      Str(st.lastUpdated))
  }

  /** The records of one candidate: its snapshot if it is included, none otherwise. */
  function Step(c: Candidate, includeUnavailable: bool): seq<EntityRecord>
  {
    if Included(c, includeUnavailable) then [Snapshot(c)] else []
  }

  /** The records the export writes for a registry, in registry order. */
  function Selected(registry: seq<Candidate>, includeUnavailable: bool): seq<EntityRecord>
  {
    if registry == [] then []
    else Selected(registry[..|registry| - 1], includeUnavailable) + Step(registry[|registry| - 1], includeUnavailable)
  }

  /** Selection keeps registry order: it distributes over concatenation. */
  lemma {:induction false} SelectedAppend(a: seq<Candidate>, b: seq<Candidate>, includeUnavailable: bool)
    ensures Selected(a + b, includeUnavailable) == Selected(a, includeUnavailable) + Selected(b, includeUnavailable)
    decreases |b|
  {
    if b == [] {
      assert a + b == a;
    } else {
      var n := |b| - 1;
      assert (a + b)[..|a + b| - 1] == a + b[..n];
      assert (a + b)[|a + b| - 1] == b[n];
      SelectedAppend(a, b[..n], includeUnavailable);
    }
  }

  /**
   * A record is exported exactly when it is the snapshot of an included
   * candidate, and there is never more than one record per candidate.
   */
  lemma {:induction false} SelectedMembers(registry: seq<Candidate>, includeUnavailable: bool)
    ensures |Selected(registry, includeUnavailable)| <= |registry|
    ensures forall r :: r in Selected(registry, includeUnavailable) <==>
      exists c :: c in registry && Included(c, includeUnavailable) && Snapshot(c) == r
  {
    if registry != [] {
      var init := registry[..|registry| - 1];
      var last := registry[|registry| - 1];
      SelectedMembers(init, includeUnavailable);
      assert registry == init + [last];
      forall r | r in Selected(registry, includeUnavailable)
        ensures exists c :: c in registry && Included(c, includeUnavailable) && Snapshot(c) == r
      {
        if r in Selected(init, includeUnavailable) {
          var c :| c in init && Included(c, includeUnavailable) && Snapshot(c) == r;
          assert c in registry;
        } else {
          assert r in Step(last, includeUnavailable);
          assert last in registry;
        }
      }
      forall c | c in registry && Included(c, includeUnavailable)
        ensures Snapshot(c) in Selected(registry, includeUnavailable)
      {
        if c in init {
          assert Snapshot(c) in Selected(init, includeUnavailable);
        } else {
          assert c == last;
        }
      }
    }
  }

  /** The unavailable flag only ever adds entities: with it, the export is a superset. */
  lemma {:induction false} IncludeUnavailableAddsOnly(registry: seq<Candidate>, r: EntityRecord)
    requires r in Selected(registry, false)
    ensures r in Selected(registry, true)
  {
    SelectedMembers(registry, false);
    SelectedMembers(registry, true);
    var c :| c in registry && Included(c, false) && Snapshot(c) == r;
    assert Included(c, true);
  }

  /**
   * The collection loop of the export service and the document it builds:
   * `total_entities` is the number of records collected.
   */
  method BuildExport(registry: seq<Candidate>, includeUnavailable: bool, exportTime: string)
    returns (doc: ExportDocument)
    ensures doc.entities == Selected(registry, includeUnavailable)
    ensures doc.totalEntities == |doc.entities|
    ensures doc.exportTimestamp == Str(exportTime)
  {
    var entities: seq<EntityRecord> := [];
    var i := 0;
    while i < |registry|
      invariant 0 <= i <= |registry|
      invariant entities == Selected(registry[..i], includeUnavailable)
    {
      var c := registry[i];
      assert registry[..i + 1][..i] == registry[..i];
      if c.entry.platform == SolarmanPlatform {
        if c.state.Some? {
          if !includeUnavailable && c.state.value.state == Unavailable {
            i := i + 1;
            continue;
          }
          entities := entities + [Snapshot(c)];
        }
      }
      i := i + 1;
    }
    assert registry[..i] == registry;
    doc := ExportDocument(Str(exportTime), |entities|, entities);
  }
}
