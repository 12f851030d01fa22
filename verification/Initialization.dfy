/** scripts/compile_v2610_initialization.py: two training reports and one held-out report become an
    initialisation bundle. Floating-point values are reals here; `NonFinite` stands for NaN and the
    infinities. A `Digests` value holds the hash of each kind of document as an unknown function. */
module Initialization {
  import opened Sorting
  import opened TextOrder
  import opened Platform
  import opened Wrappers

  datatype Cell = Int(n: int) | Real(r: real) | NonFinite | Text(s: string) | Flag(b: bool) | Null

  predicate IsNumber(c: Cell) {
    c.Int? || c.Real?
  }

  function ValueOf(c: Cell): real {
    if c.Int? then c.n as real else if c.Real? then c.r else 0.0
  }

  function Abs(x: real): real {
    if x < 0.0 then -x else x
  }

  function Larger(x: real, y: real): real {
    if x < y then y else x
  }

  type Cells = map<string, Cell>

  function Field(row: Cells, name: string): Cell {
    if name in row then row[name] else Null
  }

  datatype Scope = Scope(store: string, product: string)

  /** A row of the operating sheet: its scope and its other fields. */
  datatype Row = Row(scope: Scope, cells: Cells)

  datatype Sheet = Sheet(headers: seq<string>, rowCount: int, contentHash: string, data: seq<seq<Cell>>)

  datatype Report = Report(id: string, period: string, rows: seq<Row>, sheets: map<string, Sheet>)

  datatype Scenario = Scenario(reports: seq<Report>, rest: string)

  datatype SheetSpec = SheetSpec(identity: seq<string>, metrics: map<string, string>)

  datatype Profile = Profile(
    trainingCount: int, holdoutCount: int, enterprise: string, minimumThreshold: Cell, defaults: Cells,
    overrides: map<string, map<string, Cells>>, fields: map<string, string>, epsilon: real,
    methods: map<string, string>, sheets: map<string, SheetSpec>, rest: string)

  // ------------------------------------------------------------------ parameters

  datatype Parameters = Parameters(values: Cells, provenance: map<string, string>)

  function TextOf(c: Cell): string {
    if c.Text? then c.s else ""
  }

  /** Overrides have text for keys, so a key of another kind selects none. */
  function Override(p: Profile, level: string, key: Cell): Cells {
    if level in p.overrides && key.Text? && key.s in p.overrides[level] then p.overrides[level][key.s] else map[]
  }

  function BaseParameters(p: Profile): Cells {
    map["minimumRelativeThreshold" := p.minimumThreshold] + p.defaults
  }

  predicate ValueIsValid(key: string, c: Cell) {
    && IsNumber(c) && ValueOf(c) >= 0.0
    && (key == "reviewWindowDays" ==> c.Int? && 1 <= c.n <= 365)
    && (key in {"maximumRelativeDeterioration", "minimumDeltaRealizationRate"} ==> ValueOf(c) <= 1.0)
  }

  /** The overrides that apply to a store, weakest first, with the names they leave in the provenance. */
  function Layers(p: Profile, category: Cell, store: Cell): seq<(string, Cells)> {
    [("enterprise:" + p.enterprise, Override(p, "enterprise", Text(p.enterprise))),
     ("category:" + TextOf(category), Override(p, "category", category)), ("store:" + TextOf(store), Override(p, "store", store))]
  }

  /** The base with the first layers laid over it, later ones winning. */
  function Layered(base: Parameters, layers: seq<(string, Cells)>): Parameters {
    if layers == [] then base else
      var under := Layered(base, layers[..|layers| - 1]);
      var top := layers[|layers| - 1];
      Parameters(under.values + top.1, under.provenance + map k | k in top.1 :: top.0)
  }

  function Resolved(p: Profile, category: Cell, store: Cell): Parameters {
    Layered(Parameters(BaseParameters(p), map k | k in BaseParameters(p) :: "profile"), Layers(p, category, store))
  }

  predicate Resolvable(p: Profile, category: Cell, store: Cell) {
    && (forall layer | layer in Layers(p, category, store) :: layer.1.Keys <= BaseParameters(p).Keys)
    && forall k | k in Resolved(p, category, store).values :: ValueIsValid(k, Resolved(p, category, store).values[k])
  }

  /** The loop over the override levels. */
  method LayOver(base: Parameters, layers: seq<(string, Cells)>) returns (r: Result<Parameters>)
    ensures r == if forall layer | layer in layers :: layer.1.Keys <= base.values.Keys then Ok(Layered(base, layers)) else Err
  {
    var current := base;
    for i := 0 to |layers|
      invariant current == Layered(base, layers[..i])
      invariant forall layer | layer in layers[..i] :: layer.1.Keys <= base.values.Keys
    {
      assert layers[..i + 1][..i] == layers[..i] && layers[..i + 1] == layers[..i] + [layers[i]];
      if !(layers[i].1.Keys <= base.values.Keys) {
        assert layers[i] in layers;
        return Err;
      }
      current := Parameters(current.values + layers[i].1, current.provenance + map k | k in layers[i].1 :: layers[i].0);
    }
    assert layers[..|layers|] == layers;
    r := Ok(current);
  }

  /** `resolve_parameters`. */
  method ResolveParameters(p: Profile, category: Cell, store: Cell) returns (r: Result<Parameters>)
    ensures r == if Resolvable(p, category, store) then Ok(Resolved(p, category, store)) else Err
  {
    hide ValueIsValid, BaseParameters, Layers, Layered;
    var base := BaseParameters(p);
    var layered := LayOver(Parameters(base, map k | k in base :: "profile"), Layers(p, category, store));
    if layered.Err? { return Err; }
    if exists k | k in layered.value.values :: !ValueIsValid(k, layered.value.values[k]) { return Err; }
    r := layered;
  }

  /** The strongest of the layers that set a parameter. */
  function Strongest(layers: seq<(string, Cells)>, k: string): (r: Option<nat>)
    ensures r.Some? ==> r.value < |layers| && k in layers[r.value].1 && forall j | r.value < j < |layers| :: k !in layers[j].1
    ensures r.None? ==> forall j | 0 <= j < |layers| :: k !in layers[j].1
  {
    if layers == [] then None
    else if k in layers[|layers| - 1].1 then Some(|layers| - 1)
    else Strongest(layers[..|layers| - 1], k)
  }

  /** Every parameter has the value of the strongest layer that sets it, and the provenance names that
      layer: no override is lost and none is misattributed. */
  lemma {:induction false} ProvenanceIsRight(base: Parameters, layers: seq<(string, Cells)>, k: string)
    requires base.provenance.Keys == base.values.Keys
    ensures var r := Layered(base, layers);
            && (k in r.provenance <==> k in r.values)
            && match Strongest(layers, k)
               case Some(i) => k in r.values && r.values[k] == layers[i].1[k] && r.provenance[k] == layers[i].0
               case None => (k in r.values <==> k in base.values) && (k in r.values ==> r.values[k] == base.values[k] && r.provenance[k] == base.provenance[k])
  {
    if layers != [] {
      ProvenanceIsRight(base, layers[..|layers| - 1], k);
    }
  }

  // ------------------------------------------------------------------ reports

  predicate ScopeLess(a: Scope, b: Scope) {
    Less(a.store, b.store) || (a.store == b.store && Less(a.product, b.product))
  }

  lemma ScopesAreOrdered()
    ensures StrictTotal(ScopeLess)
  {
    hide Less;
    TextIsOrdered();
  }

  function SortScopes(s: set<Scope>): (r: seq<Scope>)
    ensures Ascending(r, ScopeLess) && Elements(r) == s
  {
    ScopesAreOrdered();
    Sort(s, ScopeLess)
  }

  /** The columns of a row, its scope columns among them. */
  function Columns(row: Row): set<string> {
    {"store_id", "product_id"} + row.cells.Keys
  }

  predicate RowIsClean(p: Profile, row: Row) {
    Columns(row) <= p.fields.Keys && forall k | k in row.cells :: row.cells[k] != NonFinite
  }

  type Snapshot = map<Scope, Cells>

  /** One report by operating unit; Err where a unit comes twice or a row is not clean. */
  function SnapshotOf(p: Profile, rows: seq<Row>): Result<Snapshot> {
    if rows == [] then Ok(map[]) else
      var front := SnapshotOf(p, rows[..|rows| - 1]);
      var row := rows[|rows| - 1];
      if front.Err? || row.scope in front.value || !RowIsClean(p, row) then Err else Ok(front.value[row.scope := row.cells])
  }

  lemma {:induction false} SnapshotFails(p: Profile, rows: seq<Row>, k: nat)
    requires k <= |rows| && SnapshotOf(p, rows[..k]).Err?
    ensures SnapshotOf(p, rows).Err?
    decreases |rows|
  {
    if k < |rows| {
      assert rows[..|rows| - 1][..k] == rows[..k];
      SnapshotFails(p, rows[..|rows| - 1], k);
    } else {
      assert rows[..k] == rows;
    }
  }

  method TakeSnapshot(p: Profile, rows: seq<Row>) returns (r: Result<Snapshot>)
    ensures r == SnapshotOf(p, rows)
  {
    hide RowIsClean;
    var byScope: Snapshot := map[];
    for k := 0 to |rows|
      invariant SnapshotOf(p, rows[..k]) == Ok(byScope)
    {
      assert rows[..k + 1][..k] == rows[..k];
      if rows[k].scope in byScope || !RowIsClean(p, rows[k]) {
        SnapshotFails(p, rows, k + 1);
        return Err;
      }
      byScope := byScope[rows[k].scope := rows[k].cells];
    }
    assert rows[..|rows|] == rows;
    r := Ok(byScope);
  }

  // ------------------------------------------------------------------ operating units

  datatype Baseline = Baseline(first: real, second: real, delta: real, relative: Option<real>, threshold: Option<real>, floor: real, unit: string)

  datatype Ratio = Ratio(value: Option<real>, numerator: Cell, denominator: Cell)

  datatype Preset = Preset(base: real, target: real, window: Cell, deterioration: Cell, realization: Cell, parameters: Parameters)

  datatype Holdout = Holdout(report: string, period: string, facts: Cells)

  datatype Unit = Unit(scope: Scope, category: Cell, platform: Cell, parameters: Parameters, baseline: map<string, Baseline>,
                       derived: map<string, Ratio>, reportedRoi: Cell, mismatch: bool, holdout: Holdout)

  datatype Method = Method(agent: string, instruction: string, category: Cell, platform: Cell, scope: Scope,
                           baseline: map<string, Baseline>, derived: map<string, Ratio>, preset: Option<Preset>)

  function Relative(p: Profile, a: real, b: real): Option<real> {
    if Abs(a) > p.epsilon && a != 0.0 then Some((b - a) / Abs(a)) else None
  }

  function BaselineFor(p: Profile, floor: real, a: Cell, b: Cell, unit: string): Baseline {
    var relative := Relative(p, ValueOf(a), ValueOf(b));
    Baseline(ValueOf(a), ValueOf(b), ValueOf(b) - ValueOf(a), relative,
             if relative.Some? then Some(Larger(floor, Abs(relative.value))) else None, floor, unit)
  }

  function RatioFor(p: Profile, row: Cells, numerator: string, denominator: string): Ratio {
    var x, y := Field(row, numerator), Field(row, denominator);
    var valid := IsNumber(x) && IsNumber(y) && Abs(ValueOf(y)) > p.epsilon && ValueOf(y) != 0.0;
    Ratio(if valid then Some(ValueOf(x) / ValueOf(y)) else None, x, y)
  }

  /** `math.isclose(a, b, rel_tol=1e-6)`. */
  predicate IsClose(a: real, b: real) {
    Abs(a - b) <= Larger(Abs(a), Abs(b)) / 1000000.0
  }

  function Baselines(p: Profile, first: Cells, second: Cells, floor: real): map<string, Baseline> {
    map k | k in first && k in second && IsNumber(first[k]) && IsNumber(second[k])
      :: BaselineFor(p, floor, first[k], second[k], if k in p.fields then p.fields[k] else "")
  }

  function Deriveds(p: Profile, second: Cells): map<string, Ratio> {
    map["cpc" := RatioFor(p, second, "ad_spend", "clicks"), "revenue_ad_spend_ratio" := RatioFor(p, second, "revenue", "ad_spend"),
        "clicks_per_traffic" := RatioFor(p, second, "clicks", "traffic")]
  }

  function RevenueRatio(p: Profile, second: Cells): Option<real> {
    RatioFor(p, second, "revenue", "ad_spend").value
  }

  const PRESET_PARAMETERS := {"targetRelativeImprovement", "reviewWindowDays", "maximumRelativeDeterioration", "minimumDeltaRealizationRate"}

  /** Where the source would raise on a unit: unresolvable parameters, or a field it needs and lacks. */
  predicate UnitOk(p: Profile, scope: Scope, first: Cells, second: Cells) {
    && "category" in second && "platform" in second
    && Resolvable(p, second["category"], Text(scope.store))
    && (RevenueRatio(p, second).Some? ==> "roi" in second && IsNumber(second["roi"]))
    && ("agent2" in p.methods ==>
          && "roi" in Baselines(p, first, second, 0.0)
          && PRESET_PARAMETERS <= Resolved(p, second["category"], Text(scope.store)).values.Keys)
  }

  function FloorOf(parameters: Parameters): real {
    ValueOf(Field(parameters.values, "minimumRelativeThreshold"))
  }

  function UnitFor(p: Profile, scope: Scope, first: Cells, second: Cells, holdout: Holdout): Unit {
    var parameters := Resolved(p, Field(second, "category"), Text(scope.store));
    var ratio := RevenueRatio(p, second);
    Unit(scope, Field(second, "category"), Field(second, "platform"), parameters, Baselines(p, first, second, FloorOf(parameters)), Deriveds(p, second),
         Field(second, "roi"), ratio.Some? && !IsClose(ValueOf(Field(second, "roi")), ratio.value), holdout)
  }

  /** `planning_preset`. */
  function PresetFor(u: Unit): Option<Preset> {
    if "roi" in u.baseline then
      var base := u.baseline["roi"].second;
      Some(Preset(base, base + Abs(base) * ValueOf(Field(u.parameters.values, "targetRelativeImprovement")),
                  Field(u.parameters.values, "reviewWindowDays"), Field(u.parameters.values, "maximumRelativeDeterioration"),
                  Field(u.parameters.values, "minimumDeltaRealizationRate"), u.parameters))
    else None
  }

  function MethodFor(p: Profile, u: Unit, agent: string): Method {
    Method(agent, if agent in p.methods then p.methods[agent] else "", u.category, u.platform, u.scope,
           map k | k in {"roi", "conversion_rate", "ctr"} && k in u.baseline :: u.baseline[k], u.derived,
           if agent == "agent2" then PresetFor(u) else None)
  }

  function MethodsFor(p: Profile, u: Unit): seq<Method> {
    var agents := SortText(p.methods.Keys);
    seq(|agents|, k requires 0 <= k < |agents| => MethodFor(p, u, agents[k]))
  }

  function HoldoutFor(third: Report, facts: Snapshot, scope: Scope): Holdout {
    Holdout(third.id, third.period, if scope in facts then facts[scope] else map[])
  }

  function UnitAt(p: Profile, snapshots: (Snapshot, Snapshot, Snapshot), third: Report, scope: Scope): Unit {
    UnitFor(p, scope, if scope in snapshots.0 then snapshots.0[scope] else map[], if scope in snapshots.1 then snapshots.1[scope] else map[],
            HoldoutFor(third, snapshots.2, scope))
  }

  function UnitsAt(p: Profile, snapshots: (Snapshot, Snapshot, Snapshot), third: Report, scopes: seq<Scope>): seq<Unit> {
    seq(|scopes|, k requires 0 <= k < |scopes| => UnitAt(p, snapshots, third, scopes[k]))
  }

  function AllMethods(p: Profile, units: seq<Unit>): seq<Method> {
    if units == [] then [] else AllMethods(p, units[..|units| - 1]) + MethodsFor(p, units[|units| - 1])
  }

  predicate UnitsOk(p: Profile, first: Snapshot, second: Snapshot, scopes: seq<Scope>) {
    forall scope | scope in scopes :: scope in first && scope in second && UnitOk(p, scope, first[scope], second[scope])
  }

  /** The loop over operating units. */
  method CompileUnits(p: Profile, snapshots: (Snapshot, Snapshot, Snapshot), third: Report, scopes: seq<Scope>)
    returns (r: Result<(seq<Unit>, seq<Method>)>)
    requires forall scope | scope in scopes :: scope in snapshots.0 && scope in snapshots.1 && scope in snapshots.2
    ensures r.Ok? <==> UnitsOk(p, snapshots.0, snapshots.1, scopes)
    ensures r.Ok? ==> r.value.0 == UnitsAt(p, snapshots, third, scopes) && r.value.1 == AllMethods(p, r.value.0)
  {
    hide UnitOk, UnitFor, MethodsFor;
    var units, methods: seq<Method> := [], [];
    for k := 0 to |scopes|
      invariant UnitsOk(p, snapshots.0, snapshots.1, scopes[..k])
      invariant units == UnitsAt(p, snapshots, third, scopes[..k]) && methods == AllMethods(p, units)
    {
      var scope := scopes[k];
      assert scope in scopes && scopes[..k + 1] == scopes[..k] + [scope];
      if !UnitOk(p, scope, snapshots.0[scope], snapshots.1[scope]) { return Err; }
      var u := UnitFor(p, scope, snapshots.0[scope], snapshots.1[scope], HoldoutFor(third, snapshots.2, scope));
      assert (units + [u])[..|units|] == units;
      units := units + [u];
      methods := methods + MethodsFor(p, u);
    }
    assert scopes[..|scopes|] == scopes;
    r := Ok((units, methods));
  }

  // ------------------------------------------------------------------ supplementary sheets

  /** The hashes of the documents, as functions the model does not look into. */
  datatype Digests = Digests(
    sheet: (seq<string>, seq<seq<Cell>>) -> string, report: Report -> string, parameters: Parameters -> string,
    initialization: (Profile, seq<Training>, seq<Method>) -> string, scenario: Scenario -> string, content: Content -> string)

  /** `dict(zip(headers, raw))`: a repeated header takes its last value. */
  function RowOf(headers: seq<string>, raw: seq<Cell>): Cells
    requires |headers| == |raw|
  {
    if headers == [] then map[] else
      var n := |headers| - 1;
      RowOf(headers[..n], raw[..n])[headers[n] := raw[n]]
  }

  function KeyOf(spec: SheetSpec, row: Cells): seq<Cell> {
    seq(|spec.identity|, k requires 0 <= k < |spec.identity| => Field(row, spec.identity[k]))
  }

  type Table = map<seq<Cell>, Cells>

  predicate RawOk(spec: SheetSpec, headers: seq<string>, raw: seq<Cell>) {
    |raw| == |headers| && forall column | column in spec.identity :: column in RowOf(headers, raw)
  }

  function TableOf(spec: SheetSpec, headers: seq<string>, data: seq<seq<Cell>>): Result<Table> {
    if data == [] then Ok(map[]) else
      var front := TableOf(spec, headers, data[..|data| - 1]);
      var raw := data[|data| - 1];
      if front.Err? || !RawOk(spec, headers, raw) || KeyOf(spec, RowOf(headers, raw)) in front.value then Err
      else Ok(front.value[KeyOf(spec, RowOf(headers, raw)) := RowOf(headers, raw)])
  }

  lemma {:induction false} TableFails(spec: SheetSpec, headers: seq<string>, data: seq<seq<Cell>>, k: nat)
    requires k <= |data| && TableOf(spec, headers, data[..k]).Err?
    ensures TableOf(spec, headers, data).Err?
    decreases |data|
  {
    if k < |data| {
      assert data[..|data| - 1][..k] == data[..k];
      TableFails(spec, headers, data[..|data| - 1], k);
    } else {
      assert data[..k] == data;
    }
  }

  function SheetTable(d: Digests, report: Report, name: string, spec: SheetSpec): Result<Table> {
    if name !in report.sheets then Err else
      var sheet := report.sheets[name];
      if |sheet.data| != sheet.rowCount || d.sheet(sheet.headers, sheet.data) != sheet.contentHash then Err
      else TableOf(spec, sheet.headers, sheet.data)
  }

  method ReadSheet(d: Digests, report: Report, name: string, spec: SheetSpec) returns (r: Result<Table>)
    ensures r == SheetTable(d, report, name, spec)
  {
    hide RowOf, KeyOf, RawOk;
    if name !in report.sheets { return Err; }
    var sheet := report.sheets[name];
    if |sheet.data| != sheet.rowCount || d.sheet(sheet.headers, sheet.data) != sheet.contentHash { return Err; }
    var data, rows: Table := sheet.data, map[];
    for k := 0 to |data|
      invariant TableOf(spec, sheet.headers, data[..k]) == Ok(rows)
    {
      assert data[..k + 1][..k] == data[..k];
      if !RawOk(spec, sheet.headers, data[k]) {
        TableFails(spec, sheet.headers, data, k + 1);
        return Err;
      }
      RawHasWidth(spec, sheet.headers, data[k]);
      var row := RowOf(sheet.headers, data[k]);
      if KeyOf(spec, row) in rows {
        TableFails(spec, sheet.headers, data, k + 1);
        return Err;
      }
      rows := rows[KeyOf(spec, row) := row];
    }
    assert data[..|data|] == data;
    r := Ok(rows);
  }

  lemma RawHasWidth(spec: SheetSpec, headers: seq<string>, raw: seq<Cell>)
    requires RawOk(spec, headers, raw)
    ensures |raw| == |headers|
  {
  }

  const STORE_COLUMN := "店铺ID"
  const PRODUCT_COLUMN := "商品ID"

  /** The category of the first operating row of a store and product, empty text where there is no
      such row; None where that row has no category. */
  function CategoryIn(rows: seq<Row>, store: Cell, product: Cell): Option<Cell> {
    if rows == [] then Some(Text(""))
    else if Text(rows[0].scope.store) == store && Text(rows[0].scope.product) == product then
      if "category" in rows[0].cells then Some(rows[0].cells["category"]) else None
    else CategoryIn(rows[1..], store, product)
  }

  datatype Metric = Metric(first: Cell, second: Cell, delta: Option<real>, relative: Option<real>, threshold: Option<real>, unit: string)

  function MetricFor(p: Profile, floor: real, x: Cell, y: Cell, unit: string): Metric {
    var valid := IsNumber(x) && IsNumber(y);
    var relative := if valid then Relative(p, ValueOf(x), ValueOf(y)) else None;
    Metric(x, y, if valid then Some(ValueOf(y) - ValueOf(x)) else None, relative,
           if relative.Some? then Some(Larger(floor, Abs(relative.value))) else None, unit)
  }

  datatype Entry = Entry(identity: seq<Cell>, metrics: map<string, Metric>, parameterHash: string, holdoutReport: string, facts: Cells)

  function ParametersAt(p: Profile, rows: seq<Row>, b: Cells): Parameters {
    var category := CategoryIn(rows, Field(b, STORE_COLUMN), Field(b, PRODUCT_COLUMN));
    Resolved(p, if category.Some? then category.value else Null, Field(b, STORE_COLUMN))
  }

  predicate EntryOk(p: Profile, spec: SheetSpec, rows: seq<Row>, b: Cells, c: Cells) {
    && STORE_COLUMN in b
    && var category := CategoryIn(rows, b[STORE_COLUMN], Field(b, PRODUCT_COLUMN));
    && category.Some? && Resolvable(p, category.value, b[STORE_COLUMN])
    && spec.metrics.Keys <= c.Keys
  }

  function EntryFor(d: Digests, p: Profile, spec: SheetSpec, rows: seq<Row>, key: seq<Cell>, a: Cells, b: Cells, c: Cells, third: string): Entry {
    var parameters := ParametersAt(p, rows, b);
    Entry(key, map k | k in spec.metrics :: MetricFor(p, FloorOf(parameters), Field(a, k), Field(b, k), spec.metrics[k]),
          d.parameters(parameters), third, map k | k in spec.metrics :: Field(c, k))
  }

  /** The entries of one sheet, by key; the order in which the source lists them is not kept. */
  datatype Sheets = Sheets(spec: SheetSpec, sources: seq<(string, string)>, entries: map<seq<Cell>, Entry>)

  function SourceOf(report: Report, name: string): (string, string) {
    (report.id, if name in report.sheets then report.sheets[name].contentHash else "")
  }

  function At(t: Table, key: seq<Cell>): Cells {
    if key in t then t[key] else map[]
  }

  function EntriesAt(d: Digests, p: Profile, spec: SheetSpec, rows: seq<Row>, third: string, x: Table, y: Table, z: Table, keys: set<seq<Cell>>): map<seq<Cell>, Entry> {
    map key | key in keys :: EntryFor(d, p, spec, rows, key, At(x, key), At(y, key), At(z, key), third)
  }

  predicate SheetOk(d: Digests, p: Profile, reports: seq<Report>, name: string, spec: SheetSpec)
    requires |reports| == 3
  {
    var x, y, z := SheetTable(d, reports[0], name, spec), SheetTable(d, reports[1], name, spec), SheetTable(d, reports[2], name, spec);
    && x.Ok? && y.Ok? && z.Ok? && x.value.Keys == y.value.Keys == z.value.Keys
    && forall key | key in x.value :: EntryOk(p, spec, reports[1].rows, y.value[key], z.value[key])
  }

  function SheetsFor(d: Digests, p: Profile, reports: seq<Report>, name: string, spec: SheetSpec): Sheets
    requires |reports| == 3 && SheetOk(d, p, reports, name, spec)
  {
    var x, y, z := SheetTable(d, reports[0], name, spec).value, SheetTable(d, reports[1], name, spec).value, SheetTable(d, reports[2], name, spec).value;
    Sheets(spec, [SourceOf(reports[0], name), SourceOf(reports[1], name)],
           EntriesAt(d, p, spec, reports[1].rows, reports[2].id, x, y, z, x.Keys))
  }

  /** One sheet of `supplementary_baselines`. */
  method CompileSheet(d: Digests, p: Profile, reports: seq<Report>, name: string, spec: SheetSpec) returns (r: Result<Sheets>)
    requires |reports| == 3
    ensures r.Ok? <==> SheetOk(d, p, reports, name, spec)
    ensures r.Ok? ==> r.value == SheetsFor(d, p, reports, name, spec)
  {
    hide SheetTable, EntryOk, EntryFor, SourceOf;
    var x := ReadSheet(d, reports[0], name, spec);
    if x.Err? { return Err; }
    var y := ReadSheet(d, reports[1], name, spec);
    if y.Err? { return Err; }
    var z := ReadSheet(d, reports[2], name, spec);
    if z.Err? || !(x.value.Keys == y.value.Keys == z.value.Keys) { return Err; }
    var todo := x.value.Keys;
    var entries: map<seq<Cell>, Entry> := map[];
    while todo != {}
      invariant todo <= x.value.Keys
      invariant forall key | key in x.value.Keys - todo :: EntryOk(p, spec, reports[1].rows, y.value[key], z.value[key])
      invariant entries == EntriesAt(d, p, spec, reports[1].rows, reports[2].id, x.value, y.value, z.value, x.value.Keys - todo)
    {
      var key :| key in todo;
      if !EntryOk(p, spec, reports[1].rows, y.value[key], z.value[key]) { return Err; }
      entries := entries[key := EntryFor(d, p, spec, reports[1].rows, key, x.value[key], y.value[key], z.value[key], reports[2].id)];
      assert x.value.Keys - (todo - {key}) == x.value.Keys - todo + {key};
      todo := todo - {key};
    }
    assert x.value.Keys - todo == x.value.Keys;
    r := Ok(Sheets(spec, [SourceOf(reports[0], name), SourceOf(reports[1], name)], entries));
  }

  // ------------------------------------------------------------------ the bundle

  datatype Training = Training(id: string, period: string, contentHash: string)

  datatype Content = Content(
    profile: Profile, training: seq<Training>, initializationHash: string, supplementary: map<string, Sheets>, scenarioHash: string,
    fields: seq<string>, units: seq<Unit>, methods: seq<Method>)

  datatype Bundle = Bundle(content: Content, bundleHash: string)

  function TrainingOf(d: Digests, reports: seq<Report>): seq<Training>
    requires |reports| == 3
  {
    [Training(reports[0].id, reports[0].period, d.report(reports[0])), Training(reports[1].id, reports[1].period, d.report(reports[1]))]
  }

  predicate OrderedReports(reports: seq<Report>) {
    && |reports| == 3
    && reports[0].id != reports[1].id && reports[0].id != reports[2].id && reports[1].id != reports[2].id
    && Less(reports[0].period, reports[1].period) && Less(reports[1].period, reports[2].period)
  }

  function FieldsOf(first: Snapshot, second: Snapshot): set<string> {
    (if first == map[] then {} else {"store_id", "product_id"}) +
    (set scope, k | scope in first && k in first[scope] :: k) + set scope, k | scope in second && k in second[scope] :: k
  }

  predicate SnapshotsOk(p: Profile, reports: seq<Report>)
    requires |reports| == 3
  {
    && SnapshotOf(p, reports[0].rows).Ok? && SnapshotOf(p, reports[1].rows).Ok? && SnapshotOf(p, reports[2].rows).Ok?
    && SnapshotOf(p, reports[0].rows).value.Keys == SnapshotOf(p, reports[1].rows).value.Keys == SnapshotOf(p, reports[2].rows).value.Keys
  }

  function SnapshotsOf(p: Profile, reports: seq<Report>): (Snapshot, Snapshot, Snapshot)
    requires |reports| == 3 && SnapshotsOk(p, reports)
  {
    (SnapshotOf(p, reports[0].rows).value, SnapshotOf(p, reports[1].rows).value, SnapshotOf(p, reports[2].rows).value)
  }

  /** What `compile_bundle` accepts. */
  predicate Accepted(d: Digests, p: Profile, s: Scenario) {
    && OrderedReports(s.reports) && p.trainingCount == 2 && p.holdoutCount == 1 && SnapshotsOk(p, s.reports)
    && UnitsOk(p, SnapshotsOf(p, s.reports).0, SnapshotsOf(p, s.reports).1, SortScopes(SnapshotsOf(p, s.reports).0.Keys))
    && forall name | name in p.sheets :: SheetOk(d, p, s.reports, name, p.sheets[name])
  }

  function BundleFor(d: Digests, p: Profile, s: Scenario): Bundle
    requires Accepted(d, p, s)
  {
    var snapshots := SnapshotsOf(p, s.reports);
    var units := UnitsAt(p, snapshots, s.reports[2], SortScopes(snapshots.0.Keys));
    var methods := AllMethods(p, units);
    var training := TrainingOf(d, s.reports);
    var content := Content(p, training, d.initialization(p, training, methods),
      map name | name in p.sheets :: SheetsFor(d, p, s.reports, name, p.sheets[name]), d.scenario(s),
      SortText(FieldsOf(snapshots.0, snapshots.1)), units, methods);
    Bundle(content, d.content(content))
  }

  method CompileSheets(d: Digests, p: Profile, reports: seq<Report>) returns (r: Result<map<string, Sheets>>)
    requires |reports| == 3
    ensures r.Ok? <==> forall name | name in p.sheets :: SheetOk(d, p, reports, name, p.sheets[name])
    ensures r.Ok? ==> r.value == map name | name in p.sheets :: SheetsFor(d, p, reports, name, p.sheets[name])
  {
    hide SheetOk, SheetsFor;
    var todo := p.sheets.Keys;
    var result: map<string, Sheets> := map[];
    while todo != {}
      invariant todo <= p.sheets.Keys
      invariant forall name | name in p.sheets.Keys - todo :: SheetOk(d, p, reports, name, p.sheets[name])
      invariant result == map name | name in p.sheets.Keys - todo :: SheetsFor(d, p, reports, name, p.sheets[name])
    {
      var name :| name in todo;
      var sheet := CompileSheet(d, p, reports, name, p.sheets[name]);
      if sheet.Err? { return Err; }
      assert p.sheets.Keys - (todo - {name}) == p.sheets.Keys - todo + {name};
      result := result[name := sheet.value];
      todo := todo - {name};
    }
    assert p.sheets.Keys - todo == p.sheets.Keys;
    r := Ok(result);
  }

  /** `compile_bundle`. */
  method CompileBundle(d: Digests, p: Profile, s: Scenario) returns (r: Result<Bundle>)
    ensures r.Ok? <==> Accepted(d, p, s)
    ensures r.Ok? ==> r.value == BundleFor(d, p, s)
  {
    hide SheetOk, SheetsFor, SnapshotOf, UnitsOk, UnitsAt, AllMethods, SortScopes, SortText, FieldsOf, Less;
    if !OrderedReports(s.reports) || p.trainingCount != 2 || p.holdoutCount != 1 { return Err; }
    var first := TakeSnapshot(p, s.reports[0].rows);
    if first.Err? { return Err; }
    var second := TakeSnapshot(p, s.reports[1].rows);
    if second.Err? { return Err; }
    var third := TakeSnapshot(p, s.reports[2].rows);
    if third.Err? || !(first.value.Keys == second.value.Keys == third.value.Keys) { return Err; }
    var snapshots := (first.value, second.value, third.value);
    var scopes := SortScopes(snapshots.0.Keys);
    ScopesListed(snapshots.0.Keys);
    var compiled := CompileUnits(p, snapshots, s.reports[2], scopes);
    if compiled.Err? { return Err; }
    var supplementary := CompileSheets(d, p, s.reports);
    if supplementary.Err? { return Err; }
    var training := TrainingOf(d, s.reports);
    var content := Content(p, training, d.initialization(p, training, compiled.value.1), supplementary.value, d.scenario(s),
                           SortText(FieldsOf(snapshots.0, snapshots.1)), compiled.value.0, compiled.value.1);
    r := Ok(Bundle(content, d.content(content)));
  }

  lemma ScopesListed(scopes: set<Scope>)
    ensures forall scope | scope in SortScopes(scopes) :: scope in scopes
  {
    forall scope | scope in SortScopes(scopes) ensures scope in scopes { assert scope in Elements(SortScopes(scopes)); }
  }

  // ------------------------------------------------------------------ the planning presets

  /** A planning target asks for an improvement, never for less than the baseline; reaching it is, by the
      baselines' own formula, a relative change of the configured share; and it can be reviewed. */
  ghost predicate AsksForImprovement(p: Profile, q: Preset) {
    var share := ValueOf(Field(q.parameters.values, "targetRelativeImprovement"));
    && q.target >= q.base
    && (q.target == q.base <==> q.base == 0.0 || share == 0.0)
    && (Relative(p, q.base, q.target).Some? ==> Relative(p, q.base, q.target) == Some(share))
    && q.window.Int? && 1 <= q.window.n <= 365
    && 0.0 <= ValueOf(q.deterioration) <= 1.0 && 0.0 <= ValueOf(q.realization) <= 1.0
  }

  lemma ShareIsMet(p: Profile, base: real, share: real, target: real)
    requires share >= 0.0 && target == base + Abs(base) * share
    ensures target >= base && (target == base <==> base == 0.0 || share == 0.0)
    ensures Relative(p, base, target).Some? ==> Relative(p, base, target) == Some(share)
  {
    var size := Abs(base);
    assert size == 0.0 <==> base == 0.0;
    assert size * share >= 0.0;
    if size != 0.0 { assert (base + size * share - base) / size == share; }
  }

  lemma PresetAsks(p: Profile, scope: Scope, first: Cells, second: Cells, holdout: Holdout)
    requires UnitOk(p, scope, first, second) && "agent2" in p.methods
    ensures var q := PresetFor(UnitFor(p, scope, first, second, holdout));
            q.Some? && AsksForImprovement(p, q.value)
  {
    hide Resolved, RatioFor, IsClose, BaselineFor;
    var parameters := Resolved(p, second["category"], Text(scope.store));
    var u := UnitFor(p, scope, first, second, holdout);
    assert "roi" in u.baseline && u.parameters == parameters;
    hide UnitFor, Baselines;
    ParametersAreValid(p, second["category"], Text(scope.store));
    var q := PresetFor(u).value;
    TargetIs(u);
    ShareIsMet(p, q.base, ValueOf(Field(q.parameters.values, "targetRelativeImprovement")), q.target);
    hide Relative, ValueOf, Abs, PresetFor;
  }

  lemma TargetIs(u: Unit)
    requires "roi" in u.baseline
    ensures var q := PresetFor(u).value;
            && q.target == q.base + Abs(q.base) * ValueOf(Field(q.parameters.values, "targetRelativeImprovement"))
            && q.parameters == u.parameters
            && q.window == Field(u.parameters.values, "reviewWindowDays")
            && q.deterioration == Field(u.parameters.values, "maximumRelativeDeterioration")
            && q.realization == Field(u.parameters.values, "minimumDeltaRealizationRate")
  {
  }

  lemma ParametersAreValid(p: Profile, category: Cell, store: Cell)
    requires Resolvable(p, category, store) && PRESET_PARAMETERS <= Resolved(p, category, store).values.Keys
    ensures var v := Resolved(p, category, store).values;
            && ValueOf(Field(v, "targetRelativeImprovement")) >= 0.0
            && Field(v, "reviewWindowDays").Int? && 1 <= Field(v, "reviewWindowDays").n <= 365
            && 0.0 <= ValueOf(Field(v, "maximumRelativeDeterioration")) <= 1.0
            && 0.0 <= ValueOf(Field(v, "minimumDeltaRealizationRate")) <= 1.0
  {
    hide Resolved, Layers;
    var v := Resolved(p, category, store).values;
    assert forall k | k in PRESET_PARAMETERS :: k in v && ValueIsValid(k, v[k]);
    assert "targetRelativeImprovement" in PRESET_PARAMETERS && "reviewWindowDays" in PRESET_PARAMETERS;
    assert "maximumRelativeDeterioration" in PRESET_PARAMETERS && "minimumDeltaRealizationRate" in PRESET_PARAMETERS;
  }

  lemma {:induction false} MethodOf(p: Profile, units: seq<Unit>, m: Method) returns (k: nat)
    requires m in AllMethods(p, units)
    ensures k < |units| && m == MethodFor(p, units[k], m.agent) && m.agent in p.methods
  {
    hide MethodFor, SortText;
    var n := |units| - 1;
    if m in AllMethods(p, units[..n]) {
      k := MethodOf(p, units[..n], m);
    } else {
      k := n;
      var agents := SortText(p.methods.Keys);
      var j :| 0 <= j < |agents| && m == MethodFor(p, units[n], agents[j]);
      AgentOf(p, units[n], agents[j]);
      assert agents[j] in Elements(agents);
    }
  }

  lemma AgentOf(p: Profile, u: Unit, agent: string)
    ensures MethodFor(p, u, agent).agent == agent
  {
  }

  /** In every bundle, agent2's methods carry a preset that asks for an improvement, and the other
      agents' methods carry none. */
  lemma PresetsAskForImprovement(d: Digests, p: Profile, s: Scenario, m: Method)
    requires Accepted(d, p, s) && m in BundleFor(d, p, s).content.methods
    ensures m.preset.Some? <==> m.agent == "agent2"
    ensures m.preset.Some? ==> AsksForImprovement(p, m.preset.value)
  {
    hide SheetOk, SheetsFor, SnapshotOf, UnitOk, UnitFor, PresetFor, AllMethods, SortScopes, SortText, FieldsOf, Less, AsksForImprovement, MethodsFor;
    var snapshots := SnapshotsOf(p, s.reports);
    var scopes := SortScopes(snapshots.0.Keys);
    var units := UnitsAt(p, snapshots, s.reports[2], scopes);
    var k := MethodOf(p, units, m);
    assert scopes[k] in scopes;
    var scope := scopes[k];
    if m.agent == "agent2" {
      PresetAsks(p, scope, snapshots.0[scope], snapshots.1[scope], HoldoutFor(s.reports[2], snapshots.2, scope));
    }
  }

  // ------------------------------------------------------------------ the holdout

  function EraseUnit(u: Unit): Unit {
    u.(holdout := Holdout("", "", map[]))
  }

  function EraseEntry(e: Entry): Entry {
    e.(holdoutReport := "", facts := map[])
  }

  function EraseSheets(s: Sheets): Sheets {
    s.(entries := map key | key in s.entries :: EraseEntry(s.entries[key]))
  }

  /** Everything but the holdout records and the two hashes that cover them. */
  function Erased(c: Content): Content {
    c.(scenarioHash := "",
       units := seq(|c.units|, k requires 0 <= k < |c.units| => EraseUnit(c.units[k])),
       supplementary := map name | name in c.supplementary :: EraseSheets(c.supplementary[name]))
  }

  /** Methods are made from the training part of a unit. */
  lemma MethodsIgnoreHoldout(p: Profile, u: Unit, v: Unit)
    requires EraseUnit(u) == EraseUnit(v)
    ensures MethodsFor(p, u) == MethodsFor(p, v)
  {
    hide SortText;
    var agents := SortText(p.methods.Keys);
    assert u == EraseUnit(u).(holdout := u.holdout) && v == EraseUnit(v).(holdout := v.holdout);
    forall k | 0 <= k < |agents| ensures MethodFor(p, u, agents[k]) == MethodFor(p, v, agents[k]) {
      assert PresetFor(u) == PresetFor(v);
    }
  }

  lemma {:induction false} AllMethodsIgnoreHoldout(p: Profile, us: seq<Unit>, vs: seq<Unit>)
    requires |us| == |vs| && forall k | 0 <= k < |us| :: EraseUnit(us[k]) == EraseUnit(vs[k])
    ensures AllMethods(p, us) == AllMethods(p, vs)
  {
    hide EraseUnit, MethodsFor;
    if us != [] {
      var n := |us| - 1;
      AllMethodsIgnoreHoldout(p, us[..n], vs[..n]);
      MethodsIgnoreHoldout(p, us[n], vs[n]);
    }
  }

  lemma SheetIgnoresHoldout(d: Digests, p: Profile, r: seq<Report>, t: seq<Report>, name: string, spec: SheetSpec)
    requires |r| == 3 && |t| == 3 && r[..2] == t[..2] && SheetOk(d, p, r, name, spec) && SheetOk(d, p, t, name, spec)
    ensures EraseSheets(SheetsFor(d, p, r, name, spec)) == EraseSheets(SheetsFor(d, p, t, name, spec))
  {
    hide SheetTable, EntryOk, ParametersAt, MetricFor;
    assert r[0] == r[..2][0] == t[0] && r[1] == r[..2][1] == t[1];
  }

  /** Holdout non-interference: two accepted scenarios that differ only in the third report yield the
      same bundle, apart from the holdout records and the hashes over the whole scenario. Methods,
      initialisation hash, fields and training reports are the same as they stand. */
  lemma HoldoutDoesNotInterfere(d: Digests, p: Profile, s: Scenario, t: Scenario)
    requires Accepted(d, p, s) && Accepted(d, p, t) && s.reports[..2] == t.reports[..2]
    ensures var a, b := BundleFor(d, p, s).content, BundleFor(d, p, t).content;
            && a.methods == b.methods && a.initializationHash == b.initializationHash && a.fields == b.fields && a.training == b.training
            && Erased(a) == Erased(b)
  {
    hide SheetOk, SheetsFor, EraseSheets, SnapshotOf, UnitsOk, UnitFor, AllMethods, SortScopes, SortText, FieldsOf, Less;
    assert s.reports[0] == s.reports[..2][0] == t.reports[0] && s.reports[1] == s.reports[..2][1] == t.reports[1];
    var a, b := BundleFor(d, p, s).content, BundleFor(d, p, t).content;
    UnitsIgnoreHoldout(p, SnapshotsOf(p, s.reports), SnapshotsOf(p, t.reports), s.reports[2], t.reports[2], SortScopes(SnapshotsOf(p, s.reports).0.Keys));
    AllMethodsIgnoreHoldout(p, a.units, b.units);
    forall name | name in p.sheets ensures EraseSheets(a.supplementary[name]) == EraseSheets(b.supplementary[name]) {
      SheetIgnoresHoldout(d, p, s.reports, t.reports, name, p.sheets[name]);
    }
  }

  lemma UnitsIgnoreHoldout(p: Profile, x: (Snapshot, Snapshot, Snapshot), y: (Snapshot, Snapshot, Snapshot), r: Report, t: Report, scopes: seq<Scope>)
    requires x.0 == y.0 && x.1 == y.1
    ensures forall k | 0 <= k < |scopes| :: EraseUnit(UnitsAt(p, x, r, scopes)[k]) == EraseUnit(UnitsAt(p, y, t, scopes)[k])
  {
    hide Resolved, Baselines, Deriveds, RevenueRatio;
  }

  /** And what the third report adds is exactly its own rows: each unit's holdout record is the row of
      that unit in the third report. */
  lemma HoldoutIsTheThirdReport(d: Digests, p: Profile, s: Scenario, k: nat)
    requires Accepted(d, p, s) && k < |BundleFor(d, p, s).content.units|
    ensures var u := BundleFor(d, p, s).content.units[k];
            && u.scope in SnapshotsOf(p, s.reports).2
            && u.holdout == Holdout(s.reports[2].id, s.reports[2].period, SnapshotsOf(p, s.reports).2[u.scope])
  {
    hide SheetOk, SheetsFor, SnapshotOf, UnitsOk, AllMethods, SortText, FieldsOf, Less, Resolved, Baselines, Deriveds, RevenueRatio, SortScopes;
    var scopes := SnapshotsOf(p, s.reports).0.Keys;
    ScopesListed(scopes);
    assert SortScopes(scopes)[k] in scopes;
  }
}
