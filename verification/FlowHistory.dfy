/** The version history of a flow: snapshots are appended, and the last one is the flow as it is. */
module FlowHistory {
  import opened Wrappers
  import opened Text
  import opened DigitText
  import Sorting

  datatype Version<J> = Version(id: nat, number: nat, title: string, source: string, json: J, size: nat, agents: nat)

  /** A flow with its versions, in the order they were stored. */
  datatype History<J> = History(name: string, version: string, json: J, size: nat, agents: nat,
                                versions: seq<Version<J>>)

  /** The size of a document, and the number of agents in it. */
  datatype Measures<!J> = Measures(size: J -> nat, agents: J -> nat)

  datatype FlowError = VersionNotFound | Rejected

  const INITIAL := "Versi\U{F3}n inicial"
  const MANUAL := "Cambio manual"
  const SOURCES := {"initial", "improvement", "manual", "restore", "upload"}
  const TITLE_LIMIT := 200
  const NAME_LIMIT := 200
  const VERSION_LIMIT := 32

  function Ten(k: nat): nat {
    if k == 0 then 1 else 10 * Ten(k - 1)
  }

  lemma {:induction false} DecimalBelow(n: nat, digits: nat)
    requires digits > 0 && n < Ten(digits)
    ensures 1 <= |Decimal(n)| <= digits
  {
    if n >= 10 {
      DecimalBelow(n / 10, digits - 1);
    }
  }

  // ----- The operations -------------------------------------------------------------------------

  /** `select(func.max(version_number))`, 0 if there is none. */
  function MaxNumber<J>(versions: seq<Version<J>>): nat {
    if versions == [] then 0
    else
      var rest := MaxNumber(versions[1..]);
      if versions[0].number > rest then versions[0].number else rest
  }

  /** The constraints of the two tables on the row about to be stored. */
  predicate Storable<J>(versions: seq<Version<J>>, v: Version<J>) {
    && |v.title| <= TITLE_LIMIT
    && v.source in SOURCES
    && (forall i :: 0 <= i < |versions| ==> versions[i].id != v.id && versions[i].number != v.number)
  }

  function NewVersion<J>(h: History<J>, title: string, source: string, newId: nat): Version<J> {
    var number := MaxNumber(h.versions) + 1;
    Version(newId, number, if title != "" then title else "Versi\U{F3}n " + Decimal(number), source,
            h.json, h.size, h.agents)
  }

  /** `_snapshot_version`. */
  function Snapshot<J>(h: History<J>, title: string, source: string, newId: nat): Result<History<J>, FlowError> {
    var v := NewVersion(h, title, source, newId);
    if Storable(h.versions, v) then Ok(h.(versions := h.versions + [v])) else Err(Rejected)
  }

  /** The first version with the id; ids are unique. */
  function Lookup<J>(versions: seq<Version<J>>, id: nat): (r: Option<nat>)
    ensures r.Some? ==> r.value < |versions| && versions[r.value].id == id
    ensures r.None? <==> forall i :: 0 <= i < |versions| ==> versions[i].id != id
  {
    if versions == [] then None
    else if versions[0].id == id then Some(0)
    else
      var r := Lookup(versions[1..], id);
      if r.Some? then Some(r.value + 1)
      else
        assert forall i :: 1 <= i < |versions| ==> versions[i] == versions[1..][i - 1];
        None
  }

  /** What a caller may ask of a flow; `newId` is the id generated for a version that is stored. */
  datatype Op<J> =
    | Update(name: Option<string>, version: Option<string>, json: Option<J>, title: Option<string>,
             source: Option<string>, newId: nat)
    | Rename(id: nat, newTitle: string)
    | Restore(id: nat, newId: nat)
    | List(newId: nat)

  function Create<J>(m: Measures<J>, name: string, version: Option<string>, json: J, newId: nat)
    : Result<History<J>, FlowError>
  {
    var v := if version.Some? && version.value != "" then version.value else "1.0";
    if |name| > NAME_LIMIT || |v| > VERSION_LIMIT then Err(Rejected)
    else Snapshot(History(name, v, json, m.size(json), m.agents(json), []), INITIAL, "initial", newId)
  }

  /** The fields of the flow after an update, before the snapshot. */
  function Edited<J>(m: Measures<J>, h: History<J>, name: Option<string>, version: Option<string>, json: Option<J>)
    : History<J>
  {
    History(if name.Some? then name.value else h.name, if version.Some? then version.value else h.version,
            if json.Some? then json.value else h.json, if json.Some? then m.size(json.value) else h.size,
            if json.Some? then m.agents(json.value) else h.agents, h.versions)
  }

  function TitleOf(title: Option<string>): string {
    if title.Some? && title.value != "" then title.value else MANUAL
  }

  function SourceOf(source: Option<string>): string {
    if source.Some? && source.value in {"improvement", "manual", "upload"} then source.value else "manual"
  }

  function Updated<J>(m: Measures<J>, h: History<J>, op: Op<J>): Result<History<J>, FlowError>
    requires op.Update?
  {
    var edited := Edited(m, h, op.name, op.version, op.json);
    if |edited.name| > NAME_LIMIT || |edited.version| > VERSION_LIMIT then Err(Rejected)
    else if op.json.None? then Ok(edited)
    else Snapshot(edited, TitleOf(op.title), SourceOf(op.source), op.newId)
  }

  function Renamed<J>(h: History<J>, id: nat, title: string): Result<History<J>, FlowError> {
    var at := Lookup(h.versions, id);
    if at.None? then Err(VersionNotFound)
    else if Strip(title) == "" then Ok(h)
    else Ok(h.(versions := h.versions[at.value := h.versions[at.value].(title := Clip(Strip(title), TITLE_LIMIT))]))
  }

  function RestoreTitle(number: nat): string {
    "Restaurado de v" + Decimal(number)
  }

  function Restored<J>(h: History<J>, id: nat, newId: nat): Result<History<J>, FlowError> {
    var at := Lookup(h.versions, id);
    if at.None? then Err(VersionNotFound)
    else
      var v := h.versions[at.value];
      Snapshot(h.(json := v.json, size := v.size, agents := v.agents), RestoreTitle(v.number), "restore", newId)
  }

  /** Listing stores the present state as the first version of a flow that has none. */
  function Backfilled<J>(h: History<J>, newId: nat): Result<History<J>, FlowError> {
    if h.versions == [] then Snapshot(h, INITIAL, "initial", newId) else Ok(h)
  }

  function Apply<J>(m: Measures<J>, h: History<J>, op: Op<J>): Result<History<J>, FlowError> {
    match op
    case Update(_, _, _, _, _, _) => Updated(m, h, op)
    case Rename(id, title) => Renamed(h, id, title)
    case Restore(id, newId) => Restored(h, id, newId)
    case List(newId) => Backfilled(h, newId)
  }

  /** A request that fails is rolled back. */
  function After<J>(m: Measures<J>, h: History<J>, op: Op<J>): History<J> {
    var r := Apply(m, h, op);
    if r.Ok? then r.value else h
  }

  function Exec<J>(m: Measures<J>, h: History<J>, ops: seq<Op<J>>): History<J> {
    if ops == [] then h else After(m, Exec(m, h, ops[..|ops| - 1]), ops[|ops| - 1])
  }

  // ----- The handlers ---------------------------------------------------------------------------

  datatype Summary<J> = Summary(version: Version<J>, isCurrent: bool)

  function Rank<J>(v: Version<J>): int {
    var n: int := v.number;
    -n
  }

  /** `ORDER BY version_number DESC`. */
  function Newest<J>(versions: seq<Version<J>>): seq<Version<J>> {
    Sorting.StableSort(versions, Rank)
  }

  function Listing<J>(versions: seq<Version<J>>): seq<Summary<J>> {
    var rows := Newest(versions);
    seq(|rows|, i requires 0 <= i < |rows| => Summary(rows[i], rows[i].number == rows[0].number))
  }

  class Flow<J> {
    const m: Measures<J>
    var name: string
    var version: string
    var json: J
    var size: nat
    var agents: nat
    var versions: seq<Version<J>>

    ghost function State(): History<J>
      reads this
    {
      History(name, version, json, size, agents, versions)
    }

    constructor (m: Measures<J>, name: string, version: string, json: J)
      ensures this.m == m
      ensures State() == History(name, version, json, m.size(json), m.agents(json), [])
    {
      this.m := m;
      this.name, this.version, this.json := name, version, json;
      size, agents, versions := m.size(json), m.agents(json), [];
    }

    /** `create_flow`. */
    static method CreateFlow(m: Measures<J>, name: string, version: Option<string>, json: J,
        newId: nat)
      returns (r: Result<Flow<J>, FlowError>)
      ensures var spec := Create(m, name, version, json, newId);
              && (r.Ok? <==> spec.Ok?)
              && (r.Ok? ==> fresh(r.value) && r.value.m == m && r.value.State() == spec.value)
    {
      var v := if version.Some? && version.value != "" then version.value else "1.0";
      if |name| > NAME_LIMIT || |v| > VERSION_LIMIT {
        return Err(Rejected);
      }
      var flow := new Flow(m, name, v, json);
      var stored := flow.TakeSnapshot(INITIAL, "initial", newId);
      r := if stored then Ok(flow) else Err(Rejected);
    }

    /** `_snapshot_version`: of the flow as it is now. */
    method TakeSnapshot(title: string, source: string, newId: nat) returns (stored: bool)
      modifies this`versions
      ensures var spec := Snapshot(old(State()), title, source, newId);
              stored == spec.Ok? && State() == (if stored then spec.value else old(State()))
    {
      var number := MaxNumber(versions) + 1;
      var text := if title != "" then title else "Versi\U{F3}n " + Decimal(number);
      var v := Version(newId, number, text, source, json, size, agents);
      stored := Storable(versions, v);
      if stored {
        versions := versions + [v];
      }
    }

    /** `update_flow`. */
    method UpdateFlow(name: Option<string>, version: Option<string>, json: Option<J>, title: Option<string>,
        source: Option<string>, newId: nat)
      returns (ok: bool)
      modifies this
      ensures var op := Update(name, version, json, title, source, newId);
              && ok == Apply(m, old(State()), op).Ok?
              && State() == After(m, old(State()), op)
    {
      var name0, version0, json0, size0, agents0 := this.name, this.version, this.json, size, agents;
      if name.Some? {
        this.name := name.value;
      }
      if version.Some? {
        this.version := version.value;
      }
      var jsonChanged := false;
      if json.Some? {
        this.json, size, agents := json.value, m.size(json.value), m.agents(json.value);
        jsonChanged := true;
      }
      ok := |this.name| <= NAME_LIMIT && |this.version| <= VERSION_LIMIT;
      if ok && jsonChanged {
        ok := TakeSnapshot(TitleOf(title), SourceOf(source), newId);
      }
      if !ok {
        this.name, this.version, this.json, size, agents := name0, version0, json0, size0, agents0;
      }
    }

    /** `rename_flow_version`. */
    method RenameVersion(id: nat, newTitle: string) returns (ok: bool)
      modifies this`versions
      ensures ok == Apply(m, old(State()), Rename(id, newTitle)).Ok?
      ensures State() == After(m, old(State()), Rename(id, newTitle))
    {
      var at := Lookup(versions, id);
      if at.None? {
        return false;
      }
      var text := Strip(newTitle);
      if text != "" {
        versions := versions[at.value := versions[at.value].(title := Clip(text, TITLE_LIMIT))];
      }
      ok := true;
    }

    /** `restore_flow_version`. */
    method RestoreVersion(id: nat, newId: nat) returns (ok: bool)
      modifies this
      ensures ok == Apply(m, old(State()), Restore(id, newId)).Ok?
      ensures State() == After(m, old(State()), Restore(id, newId))
    {
      var at := Lookup(versions, id);
      if at.None? {
        return false;
      }
      var json0, size0, agents0 := json, size, agents;
      var v := versions[at.value];
      json, size, agents := v.json, v.size, v.agents;
      ok := TakeSnapshot(RestoreTitle(v.number), "restore", newId);
      if !ok {
        json, size, agents := json0, size0, agents0;
      }
    }

    /** `list_flow_versions`. */
    method ListVersions(newId: nat) returns (r: Result<seq<Summary<J>>, FlowError>)
      modifies this`versions
      ensures r.Ok? <==> Apply(m, old(State()), List(newId)).Ok?
      ensures State() == After(m, old(State()), List(newId))
      ensures r.Ok? ==> r.value == Listing(versions)
    {
      if versions == [] {
        var stored := TakeSnapshot(INITIAL, "initial", newId);
        if !stored {
          return Err(Rejected);
        }
      }
      r := Ok(Listing(versions));
    }
  }

  // ----- What every run keeps -------------------------------------------------------------------

  ghost predicate Numbered<J>(versions: seq<Version<J>>) {
    && (forall i :: 0 <= i < |versions| ==> versions[i].number == i + 1)
    && (forall i, j :: 0 <= i < j < |versions| ==> versions[i].id != versions[j].id)
  }

  /** The flow is what its last version says. */
  ghost predicate InStep<J>(h: History<J>) {
    h.versions != [] ==>
      var v := h.versions[|h.versions| - 1];
      h.json == v.json && h.size == v.size && h.agents == v.agents
  }

  ghost predicate Labelled<J>(versions: seq<Version<J>>) {
    forall i :: 0 <= i < |versions| ==> 1 <= |versions[i].title| <= TITLE_LIMIT && versions[i].source in SOURCES
  }

  ghost predicate Valid<J>(h: History<J>) {
    Numbered(h.versions) && InStep(h) && Labelled(h.versions)
  }

  /** All but the title of a version. */
  ghost predicate SameSnapshot<J>(v: Version<J>, w: Version<J>) {
    w == v.(title := w.title)
  }

  /** The stored versions are still there, as they were but for their titles. */
  ghost predicate Extends<J>(h: History<J>, after: History<J>) {
    && |h.versions| <= |after.versions|
    && (forall i :: 0 <= i < |h.versions| ==> SameSnapshot(h.versions[i], after.versions[i]))
  }

  lemma {:induction false} MaxOfNumbered<J>(versions: seq<Version<J>>, k: nat)
    requires forall i :: 0 <= i < |versions| ==> versions[i].number == k + i + 1
    ensures MaxNumber(versions) == if versions == [] then 0 else k + |versions|
  {
    if versions == [] {
    } else {
      MaxOfNumbered(versions[1..], k + 1);
    }
  }

  /** A snapshot of a numbered history gets the next number, which is always free. */
  lemma SnapshotAppends<J>(h: History<J>, title: string, source: string, newId: nat)
    requires Numbered(h.versions) && title != ""
    ensures var n := |h.versions|;
            var v := Version(newId, n + 1, title, source, h.json, h.size, h.agents);
            && (Snapshot(h, title, source, newId).Ok? <==>
                  |title| <= TITLE_LIMIT && source in SOURCES && Lookup(h.versions, newId).None?)
            && (Snapshot(h, title, source, newId).Ok? ==>
                  Snapshot(h, title, source, newId).value == h.(versions := h.versions + [v]))
  {
    MaxOfNumbered(h.versions, 0);
  }

  lemma SnapshotKeeps<J>(h: History<J>, title: string, source: string, newId: nat)
    requires Numbered(h.versions) && Labelled(h.versions) && title != ""
    ensures var r := Snapshot(h, title, source, newId);
            r.Ok? ==> Valid(r.value) && Extends(h, r.value)
  {
    SnapshotAppends(h, title, source, newId);
  }

  /** If the request is accepted, the history is still valid and all that was stored is still there. */
  ghost predicate Keeps<J>(h: History<J>, r: Result<History<J>, FlowError>) {
    r.Ok? ==> Valid(r.value) && Extends(h, r.value)
  }

  lemma UpdateKeeps<J>(m: Measures<J>, h: History<J>, op: Op<J>)
    requires Valid(h) && op.Update?
    ensures Keeps(h, Updated(m, h, op))
  {
    SnapshotKeeps(Edited(m, h, op.name, op.version, op.json), TitleOf(op.title), SourceOf(op.source), op.newId);
  }

  lemma RenameKeeps<J>(h: History<J>, id: nat, title: string)
    requires Valid(h)
    ensures Keeps(h, Renamed(h, id, title))
  {
  }

  lemma RestoreKeeps<J>(h: History<J>, id: nat, newId: nat)
    requires Valid(h)
    ensures Keeps(h, Restored(h, id, newId))
  {
    var at := Lookup(h.versions, id);
    if at.Some? {
      var v := h.versions[at.value];
      SnapshotKeeps(h.(json := v.json, size := v.size, agents := v.agents), RestoreTitle(v.number), "restore", newId);
    }
  }

  lemma ListKeeps<J>(h: History<J>, newId: nat)
    requires Valid(h)
    ensures Keeps(h, Backfilled(h, newId))
  {
    SnapshotKeeps(h, INITIAL, "initial", newId);
  }

  lemma ApplyKeeps<J>(m: Measures<J>, h: History<J>, op: Op<J>)
    requires Valid(h)
    ensures Valid(After(m, h, op)) && Extends(h, After(m, h, op))
  {
    match op
    case Update(_, _, _, _, _, _) => UpdateKeeps(m, h, op);
    case Rename(id, title) => RenameKeeps(h, id, title);
    case Restore(id, newId) => RestoreKeeps(h, id, newId);
    case List(newId) => ListKeeps(h, newId);
  }

  lemma ExtendsTransitive<J>(a: History<J>, b: History<J>, c: History<J>)
    requires Extends(a, b) && Extends(b, c)
    ensures Extends(a, c)
  {
    forall i | 0 <= i < |a.versions| ensures SameSnapshot(a.versions[i], c.versions[i]) {
      assert SameSnapshot(a.versions[i], b.versions[i]) && SameSnapshot(b.versions[i], c.versions[i]);
    }
  }

  /**
   * Over any run: versions are numbered 1..n, a stored snapshot never changes but for its title, and
   * the flow is always in step with version n.
   */
  lemma {:induction false} HistoryIsAppendOnly<J>(m: Measures<J>, h: History<J>, ops: seq<Op<J>>)
    requires Valid(h)
    ensures Valid(Exec(m, h, ops)) && Extends(h, Exec(m, h, ops))
  {
    if ops == [] {
    } else {
      var before := Exec(m, h, ops[..|ops| - 1]);
      HistoryIsAppendOnly(m, h, ops[..|ops| - 1]);
      ApplyKeeps(m, before, ops[|ops| - 1]);
      ExtendsTransitive(h, before, Exec(m, h, ops));
    }
  }

  /** The version label of a new flow: the one given, 1.0 if there is none or it is empty. */
  predicate StartsAs(text: string, version: Option<string>) {
    if version.None? || version.value == "" then text == "1.0" else text == version.value
  }

  /** The first snapshot of a flow without versions always fits. */
  lemma FirstSnapshot<J>(h: History<J>, newId: nat)
    requires h.versions == []
    ensures var v := Version(newId, 1, INITIAL, "initial", h.json, h.size, h.agents);
            Snapshot(h, INITIAL, "initial", newId) == Ok(h.(versions := [v]))
  {
    SnapshotAppends(h, INITIAL, "initial", newId);
    var v := Version(newId, 1, INITIAL, "initial", h.json, h.size, h.agents);
    assert h.versions + [v] == [v];
  }

  /** A new flow holds the document, its measures, and version 1 with all of them. */
  lemma CreatedIsValid<J>(m: Measures<J>, name: string, version: Option<string>, json: J, newId: nat)
    ensures var r := Create(m, name, version, json, newId);
            r.Ok? ==>
              && Valid(r.value) && r.value.name == name && StartsAs(r.value.version, version)
              && r.value.json == json && r.value.size == m.size(json) && r.value.agents == m.agents(json)
              && r.value.versions == [Version(newId, 1, INITIAL, "initial", json, m.size(json), m.agents(json))]
  {
    var v := if version.Some? && version.value != "" then version.value else "1.0";
    FirstSnapshot(History(name, v, json, m.size(json), m.agents(json), []), newId);
  }

  lemma CreatedIff<J>(m: Measures<J>, name: string, version: Option<string>, json: J, newId: nat)
    ensures Create(m, name, version, json, newId).Ok? <==>
              |name| <= NAME_LIMIT && (version.Some? ==> |version.value| <= VERSION_LIMIT)
  {
    var v := if version.Some? && version.value != "" then version.value else "1.0";
    FirstSnapshot(History(name, v, json, m.size(json), m.agents(json), []), newId);
  }

  // ----- What each request does -----------------------------------------------------------------

  /** The field is the one given, and the old one if none was. */
  predicate Given<T(==)>(field: T, given: Option<T>, before: T) {
    if given.Some? then field == given.value else field == before
  }

  /** Name and label are those given; a new document is measured and stored as the next version, or all stays. */
  lemma UpdateStores<J>(m: Measures<J>, h: History<J>, op: Op<J>)
    requires Valid(h) && op.Update?
    ensures Apply(m, h, op).Ok? <==>
              && |if op.name.Some? then op.name.value else h.name| <= NAME_LIMIT
              && |if op.version.Some? then op.version.value else h.version| <= VERSION_LIMIT
              && (op.json.Some? ==>
                    (op.title.Some? ==> |op.title.value| <= TITLE_LIMIT) && Lookup(h.versions, op.newId).None?)
    ensures Apply(m, h, op).Ok? ==>
              var r := After(m, h, op);
              && Given(r.name, op.name, h.name) && Given(r.version, op.version, h.version)
              && (op.json.None? ==>
                    r.json == h.json && r.size == h.size && r.agents == h.agents && r.versions == h.versions)
    ensures Apply(m, h, op).Ok? && op.json.Some? ==>
              var r, n, j := After(m, h, op), |h.versions|, op.json.value;
              && r.json == j && r.size == m.size(j) && r.agents == m.agents(j)
              && |r.versions| == n + 1 && r.versions[..n] == h.versions
              && var v := r.versions[n];
                 && v.id == op.newId && v.number == n + 1
                 && v.json == j && v.size == m.size(j) && v.agents == m.agents(j)
                 && v.title == (if op.title in {None, Some("")} then "Cambio manual" else op.title.value)
                 && v.source == (if op.source in {Some("improvement"), Some("manual"), Some("upload")}
                                 then op.source.value else "manual")
  {
    SourceIsKnown(op.source);
    SnapshotAppends(Edited(m, h, op.name, op.version, op.json), TitleOf(op.title), SourceOf(op.source), op.newId);
  }

  lemma SourceIsKnown(source: Option<string>)
    ensures SourceOf(source) in SOURCES
    ensures SourceOf(source) == if source in {Some("improvement"), Some("manual"), Some("upload")}
                                then source.value else "manual"
  {
  }

  /** `title` is the label that a request to rename `before` to `asked` leaves: trimmed, cut at 200, unless blank. */
  ghost predicate Relabels(title: string, before: string, asked: string) {
    exists text :: Trimmed(text, asked)
      && if text == "" then title == before
         else title <= text && |title| == if |text| <= TITLE_LIMIT then |text| else TITLE_LIMIT
  }

  lemma ClipRelabels(before: string, asked: string)
    ensures Relabels(if Strip(asked) == "" then before else Clip(Strip(asked), TITLE_LIMIT), before, asked)
  {
    StripTrims(asked);
  }

  /** Renaming sets the label of that version; nothing else changes. */
  lemma RenameSets<J>(m: Measures<J>, h: History<J>, k: nat, newTitle: string)
    requires Valid(h) && k < |h.versions|
    ensures var op := Rename(h.versions[k].id, newTitle);
            var versions := After(m, h, op).versions;
            && Apply(m, h, op).Ok? && After(m, h, op) == h.(versions := versions)
            && |versions| == |h.versions|
            && (forall i :: 0 <= i < |h.versions| && i != k ==> versions[i] == h.versions[i])
            && SameSnapshot(h.versions[k], versions[k])
            && Relabels(versions[k].title, h.versions[k].title, newTitle)
  {
    assert Lookup(h.versions, h.versions[k].id) == Some(k);
    ClipRelabels(h.versions[k].title, newTitle);
  }

  lemma UnknownVersionRefused<J>(m: Measures<J>, h: History<J>, id: nat, newTitle: string, newId: nat)
    requires forall i :: 0 <= i < |h.versions| ==> h.versions[i].id != id
    ensures Apply(m, h, Rename(id, newTitle)) == Err(VersionNotFound)
    ensures Apply(m, h, Restore(id, newId)) == Err(VersionNotFound)
  {
  }

  /** Listing a flow without versions stores it as it is; otherwise it changes nothing. */
  lemma ListStores<J>(m: Measures<J>, h: History<J>, newId: nat)
    requires Valid(h)
    ensures Apply(m, h, List(newId)).Ok?
    ensures After(m, h, List(newId)) ==
            if h.versions != [] then h
            else h.(versions := [Version(newId, 1, INITIAL, "initial", h.json, h.size, h.agents)])
  {
    SnapshotAppends(h, INITIAL, "initial", newId);
  }

  // ----- Whose document it is -------------------------------------------------------------------

  /** Request number `i` was accepted, and it brings a document. */
  predicate Writes<J>(m: Measures<J>, h: History<J>, ops: seq<Op<J>>, i: nat)
    requires i < |ops|
  {
    Apply(m, Exec(m, h, ops[..i]), ops[i]).Ok? && (ops[i].Restore? || (ops[i].Update? && ops[i].json.Some?))
  }

  ghost predicate Holds<J>(h: History<J>, json: J, size: nat, agents: nat) {
    h.json == json && h.size == size && h.agents == agents
  }

  /** The flow holds what request number `i` brought: a new document, or that of a version of the time. */
  ghost predicate HoldsFrom<J(!new)>(m: Measures<J>, h: History<J>, ops: seq<Op<J>>, i: nat, later: History<J>)
    requires i < |ops|
  {
    match ops[i]
    case Update(_, _, json, _, _, _) =>
      json.Some? && Holds(later, json.value, m.size(json.value), m.agents(json.value))
    case Restore(id, _) =>
      exists v :: v in Exec(m, h, ops[..i]).versions && v.id == id && Holds(later, v.json, v.size, v.agents)
    case _ => false
  }

  lemma ExecStep<J>(m: Measures<J>, h: History<J>, ops: seq<Op<J>>, n: nat)
    requires 0 < n <= |ops|
    ensures Exec(m, h, ops[..n]) == After(m, Exec(m, h, ops[..n - 1]), ops[n - 1])
  {
    assert ops[..n][..n - 1] == ops[..n - 1];
  }

  lemma OtherRequestsKeep<J>(m: Measures<J>, h: History<J>, op: Op<J>)
    requires Valid(h) && !(Apply(m, h, op).Ok? && (op.Restore? || (op.Update? && op.json.Some?)))
    ensures Holds(After(m, h, op), h.json, h.size, h.agents)
  {
    if op.Update? {
      UpdateStores(m, h, op);
    }
  }

  lemma WriterBrings<J(!new)>(m: Measures<J>, h: History<J>, ops: seq<Op<J>>, i: nat)
    requires Valid(h) && i < |ops| && Writes(m, h, ops, i)
    ensures HoldsFrom(m, h, ops, i, Exec(m, h, ops[..i + 1]))
  {
    var before := Exec(m, h, ops[..i]);
    HistoryIsAppendOnly(m, h, ops[..i]);
    ExecStep(m, h, ops, i + 1);
    if ops[i].Update? {
      UpdateStores(m, before, ops[i]);
    } else {
      RestoreBrings(m, before, ops[i].id, ops[i].newId);
    }
  }

  lemma RestoreBrings<J(!new)>(m: Measures<J>, h: History<J>, id: nat, newId: nat)
    requires Valid(h) && Apply(m, h, Restore(id, newId)).Ok?
    ensures exists v :: v in h.versions && v.id == id
              && Holds(After(m, h, Restore(id, newId)), v.json, v.size, v.agents)
  {
    var k := Lookup(h.versions, id).value;
    RestoreAppends(h, k + 1, newId);
    assert h.versions[k] in h.versions;
  }

  /** A request that brings no document leaves the flow with the one it has. */
  lemma QuietStep<J>(m: Measures<J>, h: History<J>, ops: seq<Op<J>>, n: nat)
    requires Valid(h) && 0 < n <= |ops| && !Writes(m, h, ops, n - 1)
    ensures var before := Exec(m, h, ops[..n - 1]);
            Holds(Exec(m, h, ops[..n]), before.json, before.size, before.agents)
  {
    HistoryIsAppendOnly(m, h, ops[..n - 1]);
    ExecStep(m, h, ops, n);
    OtherRequestsKeep(m, Exec(m, h, ops[..n - 1]), ops[n - 1]);
  }

  lemma HoldsFromKept<J(!new)>(m: Measures<J>, h: History<J>, ops: seq<Op<J>>, i: nat, a: History<J>, b: History<J>)
    requires i < |ops| && HoldsFrom(m, h, ops, i, a) && Holds(b, a.json, a.size, a.agents)
    ensures HoldsFrom(m, h, ops, i, b)
  {
  }

  /** No request from number `i` up to `n` brings a document. */
  ghost predicate Quiet<J>(m: Measures<J>, h: History<J>, ops: seq<Op<J>>, i: nat, n: nat)
    requires n <= |ops|
  {
    forall j :: i <= j < n ==> !Writes(m, h, ops, j)
  }

  lemma {:induction false} QuietRun<J>(m: Measures<J>, h: History<J>, ops: seq<Op<J>>, i: nat, n: nat)
    requires Valid(h) && i <= n <= |ops| && Quiet(m, h, ops, i, n)
    ensures var before := Exec(m, h, ops[..i]);
            Holds(Exec(m, h, ops[..n]), before.json, before.size, before.agents)
  {
    if n == i {
    } else {
      QuietRun(m, h, ops, i, n - 1);
      QuietStep(m, h, ops, n);
    }
  }

  lemma LastWriter<J(!new)>(m: Measures<J>, h: History<J>, ops: seq<Op<J>>, i: nat)
    requires Valid(h) && i < |ops| && Writes(m, h, ops, i) && Quiet(m, h, ops, i + 1, |ops|)
    ensures HoldsFrom(m, h, ops, i, Exec(m, h, ops[..|ops|]))
  {
    WriterBrings(m, h, ops, i);
    QuietRun(m, h, ops, i + 1, |ops|);
    HoldsFromKept(m, h, ops, i, Exec(m, h, ops[..i + 1]), Exec(m, h, ops[..|ops|]));
  }

  /**
   * Over any run the flow holds the document of the last accepted request that brought one, new or
   * restored, with its measures; before the first, what it held at the start.
   */
  lemma DocumentOfRun<J(!new)>(m: Measures<J>, h: History<J>, ops: seq<Op<J>>)
    requires Valid(h)
    ensures Quiet(m, h, ops, 0, |ops|) ==> Holds(Exec(m, h, ops), h.json, h.size, h.agents)
    ensures forall i :: 0 <= i < |ops| && Writes(m, h, ops, i) && Quiet(m, h, ops, i + 1, |ops|) ==>
              HoldsFrom(m, h, ops, i, Exec(m, h, ops))
  {
    assert ops[..|ops|] == ops && ops[..0] == [];
    if Quiet(m, h, ops, 0, |ops|) {
      QuietRun(m, h, ops, 0, |ops|);
    }
    forall i | 0 <= i < |ops| && Writes(m, h, ops, i) && Quiet(m, h, ops, i + 1, |ops|)
      ensures HoldsFrom(m, h, ops, i, Exec(m, h, ops))
    {
      LastWriter(m, h, ops, i);
    }
  }

  /** The title of a restored version always fits: numbers are 32-bit in the table. */
  lemma RestoreTitleFits(k: nat)
    requires k < 0x8000_0000
    ensures |RestoreTitle(k)| <= TITLE_LIMIT
  {
    assert Ten(5) == 100000;
    assert Ten(10) == 10000000000;
    DecimalBelow(k, 10);
  }

  /** Restoring version k stores version n + 1 with what version k holds, and puts the flow there. */
  lemma RestoreAppends<J>(h: History<J>, k: nat, newId: nat)
    requires Valid(h) && 1 <= k <= |h.versions|
    ensures var v := h.versions[k - 1];
            var title := "Restaurado de v" + Decimal(k);
            var w := Version(newId, |h.versions| + 1, title, "restore", v.json, v.size, v.agents);
            var r := Restored(h, v.id, newId);
            && (r.Ok? <==> |title| <= TITLE_LIMIT && Lookup(h.versions, newId).None?)
            && (r.Ok? ==> r.value == History(h.name, h.version, v.json, v.size, v.agents, h.versions + [w]))
  {
    var v := h.versions[k - 1];
    assert Lookup(h.versions, v.id) == Some(k - 1);
    SnapshotAppends(h.(json := v.json, size := v.size, agents := v.agents), RestoreTitle(k), "restore", newId);
  }

  /** The version current at some time is still there after any run, holding what it held. */
  lemma CurrentStays<J>(m: Measures<J>, h: History<J>, ops: seq<Op<J>>)
    requires Valid(h) && h.versions != []
    ensures var later, n := Exec(m, h, ops), |h.versions|;
            && Valid(later) && n <= |later.versions|
            && later.versions[n - 1].id == h.versions[n - 1].id
            && Holds(h, later.versions[n - 1].json, later.versions[n - 1].size, later.versions[n - 1].agents)
  {
    var n := |h.versions|;
    HistoryIsAppendOnly(m, h, ops);
    assert SameSnapshot(h.versions[n - 1], Exec(m, h, ops).versions[n - 1]);
  }

  /** Whatever happens in between, restoring the version current at some time brings that state back. */
  lemma RestoreBringsBack<J>(m: Measures<J>, h: History<J>, ops: seq<Op<J>>, newId: nat)
    requires Valid(h) && h.versions != []
    ensures var id := h.versions[|h.versions| - 1].id;
            var later := Exec(m, h, ops);
            var r := Restored(later, id, newId);
            && r != Err(VersionNotFound)
            && (r.Ok? ==> r.value.json == h.json && r.value.size == h.size && r.value.agents == h.agents
                          && |r.value.versions| == |later.versions| + 1)
  {
    CurrentStays(m, h, ops);
    RestoreAppends(Exec(m, h, ops), |h.versions|, newId);
  }

  /** Only a new document, a restore, or listing an empty history stores a version, and then one. */
  lemma WhenAVersionIsStored<J>(m: Measures<J>, h: History<J>, op: Op<J>)
    requires Valid(h) && Apply(m, h, op).Ok?
    ensures |After(m, h, op).versions| == |h.versions| +
              (if (op.Update? && op.json.Some?) || op.Restore? || (op.List? && h.versions == []) then 1 else 0)
  {
  }

  // ----- The listing ----------------------------------------------------------------------------

  lemma {:induction false} InsertLargest<J>(v: Version<J>, ws: seq<Version<J>>)
    requires forall i :: 0 <= i < |ws| ==> ws[i].number > v.number
    ensures Sorting.Insert(v, ws, Rank) == ws + [v]
  {
    if ws == [] {
    } else {
      InsertLargest(v, ws[1..]);
    }
  }

  lemma {:induction false} NewestReverses<J>(versions: seq<Version<J>>, k: nat)
    requires forall i :: 0 <= i < |versions| ==> versions[i].number == k + i + 1
    ensures |Newest(versions)| == |versions|
    ensures forall i :: 0 <= i < |versions| ==> Newest(versions)[i] == versions[|versions| - 1 - i]
  {
    if versions == [] {
    } else {
      NewestReverses(versions[1..], k + 1);
      InsertLargest(versions[0], Newest(versions[1..]));
    }
  }

  /** The listing goes from version n down to 1, and marks version n alone as current. */
  lemma ListingIsNewestFirst<J>(h: History<J>)
    requires Valid(h)
    ensures var rows := Listing(h.versions);
            && |rows| == |h.versions|
            && forall i :: 0 <= i < |rows| ==>
                 && rows[i].version == h.versions[|h.versions| - 1 - i]
                 && rows[i].version.number == |h.versions| - i
                 && (rows[i].isCurrent <==> i == 0)
  {
    NewestReverses(h.versions, 0);
  }
}
