/**
 * The comparison-result and restore-result sensors. Once the latest saved
 * comparison report is loaded (or found missing), the comparison sensor
 * reads its summary counts, falling back to the legacy `*_entities` key
 * names, derives its state label, normalises a list-form `changes` into a
 * map keyed by entity id and reshapes the rest into its attributes; any
 * error on the way leaves it in an error state. The restore sensor shows
 * the stored outcome of the last restore.
 */
module Sensors {
  import opened Wrappers
  import opened Json
  import Comparator

  const NoComparison := "No comparison yet"
  const ComparisonError := "Error processing comparison"
  const NoChanges := "No changes"
  const NoRestore := "No restore yet"
  const DryRunComplete := "Dry Run Complete"
  const RestoreComplete := "Restore Complete"

  /** `summary.get(key, summary.get(legacyKey, 0))`. */
  function SummaryCount(summary: map<string, Value>, key: string, legacyKey: string): (r: Value)
    ensures key in summary ==> r == summary[key]
    ensures key !in summary && legacyKey in summary ==> r == summary[legacyKey]
    ensures key !in summary && legacyKey !in summary ==> r == Num(0)
  {
    GetOr(summary, key, GetOr(summary, legacyKey, Num(0)))
  }

  /** The state: "No changes" when nothing changed, else the three counts. */
  function CountsLabel(changed: Value, added: Value, removed: Value): string
  {
    if EqualsZero(changed) && EqualsZero(added) && EqualsZero(removed) then NoChanges
    else Show(changed) + " changed, " + Show(added) + " added, " + Show(removed) + " removed"
  }

  /** The label reads "No changes" exactly when all three counts equal 0. */
  lemma CountsLabelNoChangesIff(changed: Value, added: Value, removed: Value)
    ensures CountsLabel(changed, added, removed) == NoChanges <==>
      EqualsZero(changed) && EqualsZero(added) && EqualsZero(removed)
  {
    if !(EqualsZero(changed) && EqualsZero(added) && EqualsZero(removed)) {
      assert |CountsLabel(changed, added, removed)| >= 26;
    }
  }

  /** For integer counts: "No changes" exactly when all three are 0. */
  lemma CountsLabelOfNumbers(changed: int, added: int, removed: int)
    ensures CountsLabel(Num(changed), Num(added), Num(removed)) == NoChanges <==>
      changed == 0 && added == 0 && removed == 0
  {
    CountsLabelNoChangesIff(Num(changed), Num(added), Num(removed));
  }

  /**
   * No count label reads like the sensor's other two states, so the state
   * tells whether a report was shown, missing or unreadable.
   */
  lemma CountsLabelDistinct(changed: Value, added: Value, removed: Value)
    ensures CountsLabel(changed, added, removed) != NoComparison
    ensures CountsLabel(changed, added, removed) != ComparisonError
  {
    var l := CountsLabel(changed, added, removed);
    if l != NoChanges {
      var n := |Show(changed)|;
      assert l[n] == ' ';
      if |l| == |ComparisonError| {
        assert n <= 1;
        assert ComparisonError[0] == 'E' && ComparisonError[1] == 'r';
      }
    }
  }

  /** The sensor's `changes` attribute: a list-form `changes` normalised, anything else as it was. */
  datatype Changes =
    | Normalized(entries: map<Value, Comparator.ChangeSummary>)
    | Passthrough(raw: Value)

  /** The sensor's attributes while a report is shown. */
  datatype ComparisonView = ComparisonView(
    file1: Value,
    file2: Value,
    configOnly: Value,
    timestamp: Value,
    changedCount: Value,
    addedCount: Value,
    removedCount: Value,
    unchangedCount: Value,
    changes: Changes,
    addedEntities: Value,
    removedEntities: Value,
    comparisonFile: string)

  /** A key Python can hash: lists and dicts cannot be dict keys. */
  predicate Hashable(v: Value)
  {
    !v.Arr? && !v.Obj?
  }

  /**
   * What a kept item must be for the sensor to read it: `changes` (if
   * present), its `state` (if present) and its `attributes` (if present)
   * are dicts, and the id can be a dict key.
   */
  predicate WellFormedItem(fields: map<string, Value>)
  {
    var diffs := GetOr(fields, "changes", Obj(map[]));
    && diffs.Obj?
    && GetOr(diffs.fields, "state", Obj(map[])).Obj?
    && ("attributes" in diffs.fields ==> diffs.fields["attributes"].Obj?)
    && Hashable(Get(fields, "entity_id"))
  }

  /**
   * One item of a list-form `changes`: dropped (`None`) when its
   * `entity_id` is missing or falsy, else the id and its summary; an item,
   * `changes`, `state` or `attributes` that is not a dict, or an id that
   * cannot be a key, is an error.
   */
  function NormalizeItem(item: Value): (r: Result<Option<(Value, Comparator.ChangeSummary)>>)
    ensures !item.Obj? ==> r.Failure?
    ensures item.Obj? && !Truthy(Get(item.fields, "entity_id")) ==> r == Success(None)
    ensures item.Obj? && Truthy(Get(item.fields, "entity_id")) ==>
      (r.Success? <==> WellFormedItem(item.fields)) && (r.Success? ==> r.value.Some?)
    ensures r.Success? && r.value.Some? ==>
      && item.Obj? && WellFormedItem(item.fields)
      && r.value.value.0 == Get(item.fields, "entity_id")
      && Truthy(r.value.value.0) && Hashable(r.value.value.0)
      && var diffs := GetOr(item.fields, "changes", Obj(map[])).fields;
         var state := GetOr(diffs, "state", Obj(map[])).fields;
         && r.value.value.1.oldValue == Get(state, "old")
         && r.value.value.1.newValue == Get(state, "new")
         && ("attributes" in diffs ==> r.value.value.1.changedAttributes == diffs["attributes"].fields.Keys)
         && ("attributes" !in diffs ==> r.value.value.1.changedAttributes == {})
  {
    if !item.Obj? then Failure("list item is not a dict")
    else
      var eid := Get(item.fields, "entity_id");
      if !Truthy(eid) then Success(None)
      else
        var diffs := GetOr(item.fields, "changes", Obj(map[]));
        if !diffs.Obj? then Failure("changes is not a dict")
        else
          var state := GetOr(diffs.fields, "state", Obj(map[]));
          if !state.Obj? then Failure("state is not a dict")
          else if "attributes" in diffs.fields && !diffs.fields["attributes"].Obj? then Failure("attributes is not a dict")
          else if !Hashable(eid) then Failure("entity_id is unhashable")
          else
            var attributes := if "attributes" in diffs.fields then diffs.fields["attributes"].fields.Keys else {};
            Success(Some((eid, Comparator.ChangeSummary(Get(state.fields, "old"), Get(state.fields, "new"), attributes))))
  }

  /** The normalised map of a list-form `changes`: a later item with the same id wins. */
  function NormalizeList(items: seq<Value>): (r: Result<map<Value, Comparator.ChangeSummary>>)
    ensures r.Success? ==> forall k :: k in r.value ==> Truthy(k) && Hashable(k)
    ensures r.Success? <==> forall i :: 0 <= i < |items| ==> NormalizeItem(items[i]).Success?
  {
    if items == [] then Success(map[])
    else
      var init := items[..|items| - 1];
      var last := items[|items| - 1];
      var rest := NormalizeList(init);
      assert forall i :: 0 <= i < |init| ==> init[i] == items[i];
      if rest.Failure? then rest
      else
        match NormalizeItem(last)
        case Failure(e) => Failure(e)
        case Success(None) => rest
        case Success(Some(entry)) => Success(rest.value[entry.0 := entry.1])
  }

  /** The loop `for item in raw_changes: ...` filling `normalized_changes`. */
  method NormalizeChanges(items: seq<Value>) returns (r: Result<map<Value, Comparator.ChangeSummary>>)
    ensures r == NormalizeList(items)
  {
    var normalized: map<Value, Comparator.ChangeSummary> := map[];
    var i := 0;
    while i < |items|
      invariant 0 <= i <= |items|
      invariant NormalizeList(items[..i]) == Success(normalized)
    {
      assert items[..i + 1][..i] == items[..i];
      match NormalizeItem(items[i]) {
        case Failure(e) =>
          assert NormalizeList(items[..i + 1]) == Failure(e);
          NormalizeListFailurePersists(items, i + 1);
          return Failure(e);
        case Success(None) =>
        case Success(Some(entry)) =>
          normalized := normalized[entry.0 := entry.1];
      }
      i := i + 1;
    }
    assert items[..i] == items;
    return Success(normalized);
  }

  /** The item is kept under `key`. */
  predicate KeptAs(item: Value, key: Value)
  {
    var n := NormalizeItem(item);
    n.Success? && n.value.Some? && n.value.value.0 == key
  }

  /** A normalised list holds exactly the keys of its kept items. */
  lemma {:induction false} NormalizeListKeys(items: seq<Value>, key: Value)
    requires NormalizeList(items).Success?
    ensures key in NormalizeList(items).value <==> exists i :: 0 <= i < |items| && KeptAs(items[i], key)
  {
    if items != [] {
      var init := items[..|items| - 1];
      assert forall i :: 0 <= i < |init| ==> init[i] == items[i];
      NormalizeListKeys(init, key);
      if exists i :: 0 <= i < |items| && KeptAs(items[i], key) {
        var i :| 0 <= i < |items| && KeptAs(items[i], key);
        if i < |init| {
          assert KeptAs(init[i], key);
        }
      }
    }
  }

  /**
   * Each key holds the summary of the LAST item kept under it: a later
   * item with the same id replaces an earlier one.
   */
  lemma {:induction false} NormalizeListLastWins(items: seq<Value>, i: int)
    requires NormalizeList(items).Success?
    requires 0 <= i < |items| && NormalizeItem(items[i]).Success? && NormalizeItem(items[i]).value.Some?
    requires forall j :: i < j < |items| ==> !KeptAs(items[j], NormalizeItem(items[i]).value.value.0)
    ensures var e := NormalizeItem(items[i]).value.value;
      e.0 in NormalizeList(items).value && NormalizeList(items).value[e.0] == e.1
  {
    var init := items[..|items| - 1];
    assert forall j :: 0 <= j < |init| ==> init[j] == items[j];
    if i < |init| {
      NormalizeListLastWins(init, i);
    }
  }

  /** Once a prefix fails, the whole list fails with the same error. */
  lemma {:induction false} NormalizeListFailurePersists(items: seq<Value>, n: nat)
    requires n <= |items|
    requires NormalizeList(items[..n]).Failure?
    ensures NormalizeList(items) == NormalizeList(items[..n])
    decreases |items|
  {
    if n < |items| {
      var init := items[..|items| - 1];
      assert init[..n] == items[..n];
      NormalizeListFailurePersists(init, n);
    } else {
      assert items[..n] == items;
    }
  }

  /** `data.get("changes", data.get("changed_entities", {}))`. */
  function RawChanges(data: map<string, Value>): (r: Value)
    ensures "changes" in data ==> r == data["changes"]
    ensures "changes" !in data && "changed_entities" in data ==> r == data["changed_entities"]
    ensures "changes" !in data && "changed_entities" !in data ==> r == Obj(map[])
  {
    GetOr(data, "changes", GetOr(data, "changed_entities", Obj(map[])))
  }

  /**
   * The processing once a report `data` is loaded from `filename`: the
   * label and the attributes, or an error when `data` or its summary is
   * not a dict or the list-form `changes` cannot be normalised. The shown
   * timestamp is `comparison_time`, else `export2_timestamp`, else "".
   */
  function ProcessComparison(data: Value, filename: string): (r: Result<(string, ComparisonView)>)
    ensures r.Success? <==>
      && data.Obj?
      && GetOr(data.fields, "summary", Obj(map[])).Obj?
      && (RawChanges(data.fields).Arr? ==> NormalizeList(RawChanges(data.fields).items).Success?)
    ensures r.Success? ==>
      var d := data.fields;
      && ("comparison_time" in d ==> r.value.1.timestamp == d["comparison_time"])
      && ("comparison_time" !in d && "export2_timestamp" in d ==> r.value.1.timestamp == d["export2_timestamp"])
      && ("comparison_time" !in d && "export2_timestamp" !in d ==> r.value.1.timestamp == Str(""))
  {
    if !data.Obj? then Failure("report is not a dict")
    else
      var summary := GetOr(data.fields, "summary", Obj(map[]));
      if !summary.Obj? then Failure("summary is not a dict")
      else
        var changed := SummaryCount(summary.fields, "changed", "changed_entities");
        var added := SummaryCount(summary.fields, "added", "added_entities");
        var removed := SummaryCount(summary.fields, "removed", "removed_entities");
        var unchangedCount := SummaryCount(summary.fields, "unchanged", "unchanged_entities");
        var raw := RawChanges(data.fields);
        var changes := if raw.Arr? then
            (match NormalizeList(raw.items)
             case Failure(e) => Failure(e)
             case Success(m) => Success(Normalized(m)))
          else Success(Passthrough(raw));
        if changes.Failure? then Failure(changes.error)
        else
          Success((CountsLabel(changed, added, removed), ComparisonView(
            GetOr(data.fields, "file1", Str("")),
            GetOr(data.fields, "file2", Str("")),
            GetOr(data.fields, "config_only", Bool(false)),
            GetOr(data.fields, "comparison_time", GetOr(data.fields, "export2_timestamp", Str(""))),
            changed, added, removed, unchangedCount,
            changes.value,
            GetOr(data.fields, "added_entities", Arr([])),
            GetOr(data.fields, "removed_entities", Arr([])),
            filename)))
  }

  /**
   * What a processed report shows: the label of its counts, each count
   * under its current or legacy key, the file names and mode with their
   * defaults, the `changes` normalised when they are a list and passed
   * through otherwise, the added and removed lists, and the file name.
   */
  lemma ProcessComparisonShows(data: map<string, Value>, filename: string)
    requires ProcessComparison(Obj(data), filename).Success?
    ensures var shown := ProcessComparison(Obj(data), filename).value;
      var summary := GetOr(data, "summary", Obj(map[])).fields;
      var raw := RawChanges(data);
      && shown.1.changedCount == SummaryCount(summary, "changed", "changed_entities")
      && shown.1.addedCount == SummaryCount(summary, "added", "added_entities")
      && shown.1.removedCount == SummaryCount(summary, "removed", "removed_entities")
      && shown.1.unchangedCount == SummaryCount(summary, "unchanged", "unchanged_entities")
      && shown.0 == CountsLabel(shown.1.changedCount, shown.1.addedCount, shown.1.removedCount)
      && shown.1.file1 == GetOr(data, "file1", Str(""))
      && shown.1.file2 == GetOr(data, "file2", Str(""))
      && shown.1.configOnly == GetOr(data, "config_only", Bool(false))
      && shown.1.addedEntities == GetOr(data, "added_entities", Arr([]))
      && shown.1.removedEntities == GetOr(data, "removed_entities", Arr([]))
      && (raw.Arr? ==> shown.1.changes == Normalized(NormalizeList(raw.items).value))
      && (!raw.Arr? ==> shown.1.changes == Passthrough(raw))
      && shown.1.comparisonFile == filename
  {
  }

  /**
   * The sensor's state and attributes after an update: no loaded report
   * gives "No comparison yet" and no attributes (`None` here stands for
   * the empty dict), an error gives "Error processing comparison" and no
   * attributes, and otherwise the label and the reshaped report.
   */
  function ProjectComparison(loaded: Option<(Value, string)>): (string, Option<ComparisonView>)
  {
    match loaded
    case None => (NoComparison, None)
    case Some(report) =>
      match ProcessComparison(report.0, report.1)
      case Failure(_) => (ComparisonError, None)
      case Success(shown) => (shown.0, Some(shown.1))
  }

  /**
   * The state says which case happened: "No comparison yet" exactly when
   * nothing was loaded, "Error processing comparison" exactly when the
   * loaded report could not be processed, and attributes are shown
   * exactly when neither.
   */
  lemma ProjectComparisonOutcomes(loaded: Option<(Value, string)>)
    ensures ProjectComparison(loaded).0 == NoComparison <==> loaded.None?
    ensures ProjectComparison(loaded).0 == ComparisonError <==>
      loaded.Some? && ProcessComparison(loaded.value.0, loaded.value.1).Failure?
    ensures ProjectComparison(loaded).1.Some? <==>
      loaded.Some? && ProcessComparison(loaded.value.0, loaded.value.1).Success?
  {
    if loaded.Some? {
      var data := loaded.value.0;
      if ProcessComparison(data, loaded.value.1).Success? {
        var summary := GetOr(data.fields, "summary", Obj(map[])).fields;
        CountsLabelDistinct(
          SummaryCount(summary, "changed", "changed_entities"),
          SummaryCount(summary, "added", "added_entities"),
          SummaryCount(summary, "removed", "removed_entities"));
      }
    }
  }

  /** The comparison-result sensor's state. `None` attributes stand for the empty dict. */
  class ComparisonResultSensor {
    var nativeValue: string
    var comparisonData: Option<ComparisonView>

    constructor()
      ensures nativeValue == NoComparison && comparisonData == None
    {
      nativeValue := NoComparison;
      comparisonData := None;
    }

    /** `async_update` once the latest report has been loaded, or found missing or unreadable. */
    method Update(loaded: Option<(Value, string)>)
      modifies this
      ensures (nativeValue, comparisonData) == ProjectComparison(loaded)
    {
      if loaded.None? {
        nativeValue, comparisonData := NoComparison, None;
        return;
      }
      var data, filename := loaded.value.0, loaded.value.1;
      if !data.Obj? || !GetOr(data.fields, "summary", Obj(map[])).Obj? {
        nativeValue, comparisonData := ComparisonError, None;
        return;
      }
      var d := data.fields;
      var summary := GetOr(d, "summary", Obj(map[])).fields;
      var changed := SummaryCount(summary, "changed", "changed_entities");
      var added := SummaryCount(summary, "added", "added_entities");
      var removed := SummaryCount(summary, "removed", "removed_entities");
      var unchangedCount := SummaryCount(summary, "unchanged", "unchanged_entities");
      var raw := RawChanges(d);
      var changes: Changes := Passthrough(raw);
      if raw.Arr? {
        var normalized := NormalizeChanges(raw.items);
        if normalized.Failure? {
          nativeValue, comparisonData := ComparisonError, None;
          return;
        }
        changes := Normalized(normalized.value);
      }
      nativeValue := CountsLabel(changed, added, removed);
      comparisonData := Some(ComparisonView(
        GetOr(d, "file1", Str("")),
        GetOr(d, "file2", Str("")),
        GetOr(d, "config_only", Bool(false)),
        GetOr(d, "comparison_time", GetOr(d, "export2_timestamp", Str(""))),
        changed, added, removed, unchangedCount,
        changes,
        GetOr(d, "added_entities", Arr([])),
        GetOr(d, "removed_entities", Arr([])),
        filename));
    }
  }

  /** `"Dry Run Complete"` when the stored result's `dry_run` is truthy, else `"Restore Complete"`. */
  function RestoreLabel(result: map<string, Value>): (r: string)
    ensures r == DryRunComplete <==> Truthy(Get(result, "dry_run"))
    ensures r == DryRunComplete || r == RestoreComplete
  {
    if Truthy(Get(result, "dry_run")) then DryRunComplete else RestoreComplete
  }

  /** The restore sensor's state: its label and the stored result it shows. */
  datatype RestoreState = RestoreState(state: string, data: Value)

  /**
   * One refresh with the stored result `stored` (`Null` when there is
   * none), and whether it raised: a falsy result changes nothing; a truthy
   * one is shown; its label is chosen when it is a dict, and reading
   * `dry_run` of anything else raises after the data was replaced.
   */
  function RestoreRefresh(st: RestoreState, stored: Value): (RestoreState, bool)
  {
    if !Truthy(stored) then (st, false)
    else if stored.Obj? then (RestoreState(RestoreLabel(stored.fields), stored), false)
    else (RestoreState(st.state, stored), true)
  }

  /** Refreshing again with the same stored result changes nothing more. */
  lemma RestoreRefreshIdempotent(st: RestoreState, stored: Value)
    ensures RestoreRefresh(RestoreRefresh(st, stored).0, stored).0 == RestoreRefresh(st, stored).0
  {
  }

  /**
   * Once a dict result is stored, the sensor shows it with a completion
   * label, whatever it showed before; with nothing stored it keeps its state.
   */
  lemma RestoreRefreshOutcome(st: RestoreState, stored: Value)
    ensures !Truthy(stored) ==> RestoreRefresh(st, stored) == (st, false)
    ensures Truthy(stored) && stored.Obj? ==>
      var (next, raised) := RestoreRefresh(st, stored);
      !raised && next.data == stored && (next.state == DryRunComplete || next.state == RestoreComplete)
    ensures Truthy(stored) ==> RestoreRefresh(st, stored).0.data == stored
  {
  }

  /** The restore-result sensor. */
  class RestoreResultSensor {
    var nativeValue: string
    var restoreData: Value

    constructor()
      ensures nativeValue == NoRestore && restoreData == Obj(map[])
    {
      nativeValue := NoRestore;
      restoreData := Obj(map[]);
    }

    /** `async_update` (and the restore-complete event handler) reading the stored result. */
    method Update(stored: Value) returns (raised: bool)
      modifies this
      ensures (RestoreState(nativeValue, restoreData), raised) ==
        RestoreRefresh(RestoreState(old(nativeValue), old(restoreData)), stored)
    {
      raised := false;
      if Truthy(stored) {
        restoreData := stored;
        if !stored.Obj? {
          raised := true;
          return;
        }
        nativeValue := RestoreLabel(stored.fields);
      }
    }
  }
}
