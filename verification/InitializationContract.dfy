/** What the initialisation bundle says of each operating unit, told on the rows of the three reports and
    the profile: where every parameter, baseline, ratio and planning preset comes from, and which
    scenarios are accepted. */
module InitializationContract {
  import opened Sorting
  import opened TextOrder
  import opened Wrappers
  import opened Initialization

  // ------------------------------------------------------------------ the rows

  /** A report has this row for the unit. */
  ghost predicate Given(rows: seq<Row>, scope: Scope, cells: Cells) {
    Row(scope, cells) in rows
  }

  /** No unit twice, no field that the profile does not know, no value that is not finite. */
  ghost predicate RowsFine(p: Profile, rows: seq<Row>) {
    && (forall i, j | 0 <= i < j < |rows| :: rows[i].scope != rows[j].scope)
    && (rows != [] ==> "store_id" in p.fields && "product_id" in p.fields)
    && forall row, k | row in rows && k in row.cells :: k in p.fields && row.cells[k] != NonFinite
  }

  /** The snapshot holds these rows. */
  ghost predicate Shows(snapshot: Snapshot, rows: seq<Row>) {
    forall scope, cells :: (scope in snapshot && snapshot[scope] == cells) <==> Given(rows, scope, cells)
  }

  lemma {:induction false} SnapshotExactly(p: Profile, rows: seq<Row>)
    ensures SnapshotOf(p, rows).Ok? <==> RowsFine(p, rows)
    ensures SnapshotOf(p, rows).Ok? ==> Shows(SnapshotOf(p, rows).value, rows)
  {
    hide RowsFine, RowIsClean, Shows;
    if rows == [] {
      NoRows(p);
    } else {
      var n := |rows| - 1;
      SnapshotExactly(p, rows[..n]);
      FineStep(p, rows);
      if SnapshotOf(p, rows[..n]).Ok? { ShowsStep(SnapshotOf(p, rows[..n]).value, rows); }
    }
  }

  lemma NoRows(p: Profile)
    ensures RowsFine(p, []) && Shows(map[], [])
  {
  }

  lemma ShowsStep(front: Snapshot, rows: seq<Row>)
    requires rows != [] && Shows(front, rows[..|rows| - 1])
    ensures rows[|rows| - 1].scope in front <==> exists row :: row in rows[..|rows| - 1] && row.scope == rows[|rows| - 1].scope
    ensures rows[|rows| - 1].scope !in front ==> Shows(front[rows[|rows| - 1].scope := rows[|rows| - 1].cells], rows)
  {
    var n := |rows| - 1;
    var last := rows[n];
    assert rows == rows[..n] + [last];
    if last.scope in front { assert Given(rows[..n], last.scope, front[last.scope]); }
    if row :| row in rows[..n] && row.scope == last.scope { assert Given(rows[..n], last.scope, row.cells); }
    if last.scope !in front {
      var later := front[last.scope := last.cells];
      forall scope, cells ensures (scope in later && later[scope] == cells) <==> Given(rows, scope, cells) {
        assert Given(rows, scope, cells) <==> Given(rows[..n], scope, cells) || Row(scope, cells) == last;
        assert (scope in front && front[scope] == cells) <==> Given(rows[..n], scope, cells);
      }
    }
  }

  lemma FineStep(p: Profile, rows: seq<Row>)
    requires rows != []
    ensures var n := |rows| - 1;
            RowsFine(p, rows) <==> RowsFine(p, rows[..n]) && RowIsClean(p, rows[n]) && forall row | row in rows[..n] :: row.scope != rows[n].scope
  {
    var n := |rows| - 1;
    assert rows == rows[..n] + [rows[n]] && rows[n] in rows;
    if RowsFine(p, rows) {
      forall row | row in rows[..n] ensures row.scope != rows[n].scope { var i :| 0 <= i < n && rows[i] == row; }
    }
    assert RowIsClean(p, rows[n]) <==>
      "store_id" in p.fields && "product_id" in p.fields && forall k | k in rows[n].cells :: k in p.fields && rows[n].cells[k] != NonFinite by {
      CleanExactly(p, rows[n]);
    }
    hide RowIsClean;
    if RowsFine(p, rows[..n]) && RowIsClean(p, rows[n]) && forall row | row in rows[..n] :: row.scope != rows[n].scope {
      forall i, j | 0 <= i < j < |rows| ensures rows[i].scope != rows[j].scope {
        assert rows[i] in rows[..n];
        if j < n { assert rows[..n][i] == rows[i] && rows[..n][j] == rows[j]; }
      }
    }
  }

  lemma CleanExactly(p: Profile, row: Row)
    ensures RowIsClean(p, row) <==>
              "store_id" in p.fields && "product_id" in p.fields && forall k | k in row.cells :: k in p.fields && row.cells[k] != NonFinite
  {
    if RowIsClean(p, row) { assert "store_id" in Columns(row) && "product_id" in Columns(row); }
  }

  // ------------------------------------------------------------------ parameters

  /** The profile overrides the parameter at this level for this key. */
  ghost predicate Overrides(p: Profile, level: string, key: Cell, k: string, value: Cell) {
    && key.Text? && level in p.overrides && key.s in p.overrides[level]
    && k in p.overrides[level][key.s] && p.overrides[level][key.s][k] == value
  }

  ghost predicate OverridesAny(p: Profile, level: string, key: Cell, k: string) {
    exists value :: Overrides(p, level, key, k, value)
  }

  /** The profile's own value: a default, or else the minimal threshold. */
  ghost predicate ByDefault(p: Profile, k: string, value: Cell) {
    if k in p.defaults then p.defaults[k] == value else k == "minimumRelativeThreshold" && p.minimumThreshold == value
  }

  /** A parameter and where it comes from: the store before the category before the enterprise before the profile. */
  ghost predicate Set(p: Profile, category: Cell, store: Cell, k: string, value: Cell, source: string) {
    || (Overrides(p, "store", store, k, value) && source == "store:" + TextOf(store))
    || (!OverridesAny(p, "store", store, k) && Overrides(p, "category", category, k, value) && source == "category:" + TextOf(category))
    || (!OverridesAny(p, "store", store, k) && !OverridesAny(p, "category", category, k) &&
        Overrides(p, "enterprise", Text(p.enterprise), k, value) && source == "enterprise:" + p.enterprise)
    || (!OverridesAny(p, "store", store, k) && !OverridesAny(p, "category", category, k) &&
        !OverridesAny(p, "enterprise", Text(p.enterprise), k) && ByDefault(p, k, value) && source == "profile")
  }

  lemma ParametersExactly(p: Profile, category: Cell, store: Cell, k: string, value: Cell, source: string)
    ensures var r := Resolved(p, category, store);
            (k in r.values && r.values[k] == value && k in r.provenance && r.provenance[k] == source) <==> Set(p, category, store, k, value, source)
  {
    hide Override, Overrides, OverridesAny, ByDefault, Strongest, Layered, BaseParameters, TextOf;
    var layers := Layers(p, category, store);
    var base := BaseParameters(p);
    LevelExactly(p, "store", store, k, value);
    LevelExactly(p, "category", category, k, value);
    LevelExactly(p, "enterprise", Text(p.enterprise), k, value);
    ProvenanceIsRight(Parameters(base, map q | q in base :: "profile"), layers, k);
    DefaultExactly(p, k, value);
    match Strongest(layers, k)
    case None => assert k !in layers[0].1 && k !in layers[1].1 && k !in layers[2].1;
    case Some(i) =>
      assert i == 2 || (i == 1 && k !in layers[2].1) || (i == 0 && k !in layers[1].1 && k !in layers[2].1);
  }

  lemma LevelExactly(p: Profile, level: string, key: Cell, k: string, value: Cell)
    ensures (k in Override(p, level, key) && Override(p, level, key)[k] == value) <==> Overrides(p, level, key, k, value)
    ensures k in Override(p, level, key) <==> OverridesAny(p, level, key, k)
  {
    if k in Override(p, level, key) { assert Overrides(p, level, key, k, Override(p, level, key)[k]); }
  }

  lemma DefaultExactly(p: Profile, k: string, value: Cell)
    ensures (k in BaseParameters(p) && BaseParameters(p)[k] == value) <==> ByDefault(p, k, value)
  {
  }

  ghost predicate Amount(c: Cell, x: real) {
    (c.Int? && x == c.n as real) || (c.Real? && x == c.r)
  }

  lemma AmountExactly(c: Cell, x: real)
    ensures Amount(c, x) <==> IsNumber(c) && ValueOf(c) == x
  {
  }

  /** A number that is not negative, and within the bounds that three of the parameters have. */
  ghost predicate Sensible(k: string, value: Cell) {
    && (exists x :: Amount(value, x) && x >= 0.0 && (k == "maximumRelativeDeterioration" || k == "minimumDeltaRealizationRate" ==> x <= 1.0))
    && (k == "reviewWindowDays" ==> value.Int? && 1 <= value.n <= 365)
  }

  lemma SensibleExactly(k: string, value: Cell)
    ensures ValueIsValid(k, value) <==> Sensible(k, value)
  {
    forall x ensures Amount(value, x) <==> IsNumber(value) && ValueOf(value) == x { AmountExactly(value, x); }
    hide Amount, ValueOf;
    assert IsNumber(value) ==> Amount(value, ValueOf(value));
  }

  ghost predicate Known(p: Profile, k: string) {
    k in p.defaults || k == "minimumRelativeThreshold"
  }

  /** Only known parameters are overridden, and every parameter has a sensible value. */
  ghost predicate ParametersFine(p: Profile, category: Cell, store: Cell) {
    && (forall k :: OverridesAny(p, "enterprise", Text(p.enterprise), k) || OverridesAny(p, "category", category, k) || OverridesAny(p, "store", store, k)
          ==> Known(p, k))
    && forall k, value, source :: Set(p, category, store, k, value, source) ==> Sensible(k, value)
  }

  lemma ResolvableExactly(p: Profile, category: Cell, store: Cell)
    ensures Resolvable(p, category, store) <==> ParametersFine(p, category, store)
  {
    hide Override, OverridesAny, Set, Sensible, ValueIsValid, Resolved, Known;
    var r := Resolved(p, category, store);
    LayersExactly(p, category, store);
    hide Layers, BaseParameters;
    forall k, value ensures ValueIsValid(k, value) <==> Sensible(k, value) { SensibleExactly(k, value); }
    ProvenanceCovers(p, category, store);
    forall k, value, source ensures
        (k in r.values && r.values[k] == value && k in r.provenance && r.provenance[k] == source) <==> Set(p, category, store, k, value, source) {
      ParametersExactly(p, category, store, k, value, source);
    }
    if ParametersFine(p, category, store) {
      forall k | k in r.values ensures ValueIsValid(k, r.values[k]) { assert Set(p, category, store, k, r.values[k], r.provenance[k]); }
    }
  }

  lemma LayersExactly(p: Profile, category: Cell, store: Cell)
    ensures (forall layer | layer in Layers(p, category, store) :: layer.1.Keys <= BaseParameters(p).Keys) <==>
              forall k :: OverridesAny(p, "enterprise", Text(p.enterprise), k) || OverridesAny(p, "category", category, k) || OverridesAny(p, "store", store, k)
                ==> Known(p, k)
  {
    hide Override, OverridesAny;
    forall level, key, k ensures k in Override(p, level, key) <==> OverridesAny(p, level, key, k) { LevelExactly(p, level, key, k, Null); }
    assert forall k :: k in BaseParameters(p) <==> Known(p, k);
    hide Known, BaseParameters;
    var layers := Layers(p, category, store);
    assert layers[0] in layers && layers[1] in layers && layers[2] in layers;
    assert forall layer | layer in layers :: layer == layers[0] || layer == layers[1] || layer == layers[2];
  }

  lemma ProvenanceCovers(p: Profile, category: Cell, store: Cell)
    ensures Resolved(p, category, store).provenance.Keys == Resolved(p, category, store).values.Keys
  {
    hide Layered, Strongest;
    var base := BaseParameters(p);
    forall k ensures k in Resolved(p, category, store).provenance <==> k in Resolved(p, category, store).values {
      ProvenanceIsRight(Parameters(base, map q | q in base :: "profile"), Layers(p, category, store), k);
    }
  }

  // ------------------------------------------------------------------ baselines and ratios

  function Size(x: real): real {
    if x >= 0.0 then x else -x
  }

  /** The relative change, where the first value is not near zero. */
  ghost predicate ChangeIs(p: Profile, a: real, b: real, relative: Option<real>) {
    relative == if Size(a) > p.epsilon && a != 0.0 then Some((b - a) / Size(a)) else None
  }

  /** First value, second value, and the change from the first to the second. */
  ghost predicate BaselineSays(p: Profile, floor: real, a: real, b: real, unit: string, x: Baseline) {
    && x.first == a && x.second == b && x.delta == b - a && ChangeIs(p, a, b, x.relative) && x.floor == floor && x.unit == unit
    && (x.threshold.Some? <==> x.relative.Some?)
    && (x.threshold.Some? ==> x.threshold.value >= floor && x.threshold.value >= Size(x.relative.value) &&
                              (x.threshold.value == floor || x.threshold.value == Size(x.relative.value)))
  }

  /** A quotient of two columns, where both are numbers and the divisor is not near zero. */
  ghost predicate RatioSays(p: Profile, row: Cells, numerator: string, denominator: string, r: Ratio) {
    && r.numerator == Field(row, numerator) && r.denominator == Field(row, denominator)
    && (forall x, y | Amount(r.numerator, x) && Amount(r.denominator, y) && Size(y) > p.epsilon && y != 0.0 :: r.value == Some(x / y))
    && (r.value.Some? ==> exists x, y :: Amount(r.numerator, x) && Amount(r.denominator, y) && Size(y) > p.epsilon && y != 0.0)
  }

  lemma BaselineExactly(p: Profile, floor: real, a: Cell, b: Cell, unit: string)
    ensures BaselineSays(p, floor, ValueOf(a), ValueOf(b), unit, BaselineFor(p, floor, a, b, unit))
  {
    hide ValueOf;
  }

  lemma RatioExactly(p: Profile, row: Cells, numerator: string, denominator: string)
    ensures RatioSays(p, row, numerator, denominator, RatioFor(p, row, numerator, denominator))
  {
    var r := RatioFor(p, row, numerator, denominator);
    forall c, x ensures Amount(c, x) <==> IsNumber(c) && ValueOf(c) == x { AmountExactly(c, x); }
    hide ValueOf, Amount, IsNumber, Field;
    if r.value.Some? { assert Amount(r.numerator, ValueOf(r.numerator)) && Amount(r.denominator, ValueOf(r.denominator)); }
  }

  // ------------------------------------------------------------------ units

  /** One baseline for each field that is a number in both training rows. */
  ghost predicate BaselinesSay(p: Profile, floor: real, first: Cells, second: Cells, baseline: map<string, Baseline>) {
    && (forall k :: k in baseline <==> k in first && k in second && exists a, b :: Amount(first[k], a) && Amount(second[k], b))
    && forall k, a, b | k in baseline && k in first && k in second && Amount(first[k], a) && Amount(second[k], b) ::
         BaselineSays(p, floor, a, b, if k in p.fields then p.fields[k] else "", baseline[k])
  }

  /** What a unit says, given its rows in the two training reports. */
  ghost predicate UnitSays(p: Profile, u: Unit, first: Cells, second: Cells) {
    && "category" in second && u.category == second["category"] && "platform" in second && u.platform == second["platform"]
    && u.reportedRoi == Field(second, "roi")
    && (forall k, value, source :: (k in u.parameters.values && u.parameters.values[k] == value && k in u.parameters.provenance && u.parameters.provenance[k] == source)
          <==> Set(p, u.category, Text(u.scope.store), k, value, source))
    && (exists floor :: Amount(Field(u.parameters.values, "minimumRelativeThreshold"), floor) && BaselinesSay(p, floor, first, second, u.baseline))
    && u.derived.Keys == {"cpc", "revenue_ad_spend_ratio", "clicks_per_traffic"}
    && RatioSays(p, second, "ad_spend", "clicks", u.derived["cpc"])
    && RatioSays(p, second, "revenue", "ad_spend", u.derived["revenue_ad_spend_ratio"])
    && RatioSays(p, second, "clicks", "traffic", u.derived["clicks_per_traffic"])
    && (u.mismatch <==> Mismatched(u.reportedRoi, u.derived["revenue_ad_spend_ratio"].value))
  }

  ghost predicate Mismatched(reported: Cell, ratio: Option<real>) {
    ratio.Some? && forall roi | Amount(reported, roi) :: Apart(roi, ratio.value)
  }

  /** They differ by more than a millionth of the larger one. */
  ghost predicate Apart(a: real, b: real) {
    1000000.0 * Size(a - b) > Size(a) && 1000000.0 * Size(a - b) > Size(b)
  }

  lemma ApartExactly(a: real, b: real)
    ensures Apart(a, b) <==> !IsClose(a, b)
  {
  }

  lemma MismatchExactly(reported: Cell, ratio: Option<real>)
    requires ratio.Some? ==> IsNumber(reported)
    ensures Mismatched(reported, ratio) <==> ratio.Some? && !IsClose(ValueOf(reported), ratio.value)
  {
    hide Amount, ValueOf, Apart, IsClose;
    if ratio.Some? {
      forall x ensures Amount(reported, x) <==> ValueOf(reported) == x { AmountExactly(reported, x); }
      ApartExactly(ValueOf(reported), ratio.value);
    }
  }

  /** A unit that the source does not raise on. */
  ghost predicate UnitFine(p: Profile, scope: Scope, first: Cells, second: Cells) {
    && "category" in second && "platform" in second && ParametersFine(p, second["category"], Text(scope.store))
    && ((exists x, y :: Amount(Field(second, "revenue"), x) && Amount(Field(second, "ad_spend"), y) && Size(y) > p.epsilon && y != 0.0)
          ==> exists roi :: Amount(Field(second, "roi"), roi))
    && ("agent2" in p.methods ==>
          && (exists a, b :: Amount(Field(first, "roi"), a) && Amount(Field(second, "roi"), b))
          && forall k | k in ["targetRelativeImprovement", "reviewWindowDays", "maximumRelativeDeterioration", "minimumDeltaRealizationRate"] ::
               exists value, source :: Set(p, second["category"], Text(scope.store), k, value, source))
  }

  lemma FieldIsNumber(row: Cells, k: string)
    ensures (exists x :: Amount(Field(row, k), x)) <==> k in row && IsNumber(row[k])
  {
    forall x ensures Amount(Field(row, k), x) <==> IsNumber(Field(row, k)) && ValueOf(Field(row, k)) == x { AmountExactly(Field(row, k), x); }
    hide Amount, ValueOf;
    assert IsNumber(Field(row, k)) ==> Amount(Field(row, k), ValueOf(Field(row, k)));
  }

  lemma RevenueExactly(p: Profile, second: Cells)
    ensures RevenueRatio(p, second).Some? <==>
              exists x, y :: Amount(Field(second, "revenue"), x) && Amount(Field(second, "ad_spend"), y) && Size(y) > p.epsilon && y != 0.0
  {
    RatioExactly(p, second, "revenue", "ad_spend");
    hide Amount, RatioFor;
  }

  lemma PresetParametersExactly(p: Profile, category: Cell, store: Cell)
    ensures PRESET_PARAMETERS <= Resolved(p, category, store).values.Keys <==>
              forall k | k in ["targetRelativeImprovement", "reviewWindowDays", "maximumRelativeDeterioration", "minimumDeltaRealizationRate"] ::
                exists value, source :: Set(p, category, store, k, value, source)
  {
    hide Resolved, Set;
    var r := Resolved(p, category, store);
    ProvenanceCovers(p, category, store);
    forall k ensures k in r.values <==> exists value, source :: Set(p, category, store, k, value, source) {
      if k in r.values { ParametersExactly(p, category, store, k, r.values[k], r.provenance[k]); }
      if value, source :| Set(p, category, store, k, value, source) { ParametersExactly(p, category, store, k, value, source); }
    }
    assert forall k :: k in PRESET_PARAMETERS <==>
      k in ["targetRelativeImprovement", "reviewWindowDays", "maximumRelativeDeterioration", "minimumDeltaRealizationRate"];
    hide PRESET_PARAMETERS;
  }

  lemma UnitFineExactly(p: Profile, scope: Scope, first: Cells, second: Cells)
    ensures UnitOk(p, scope, first, second) <==> UnitFine(p, scope, first, second)
  {
    hide Resolvable, ParametersFine, RevenueRatio, Resolved, Set, PRESET_PARAMETERS, Amount, BaselineFor;
    if "category" in second {
      ResolvableExactly(p, second["category"], Text(scope.store));
      PresetParametersExactly(p, second["category"], Text(scope.store));
    }
    RevenueExactly(p, second);
    FieldIsNumber(first, "roi");
    FieldIsNumber(second, "roi");
  }

  /** Every unit says what its rows and the profile make of it. */
  lemma UnitExactly(p: Profile, scope: Scope, first: Cells, second: Cells, holdout: Holdout)
    requires UnitOk(p, scope, first, second)
    ensures UnitSays(p, UnitFor(p, scope, first, second, holdout), first, second)
  {
    hide Resolved, Resolvable, RatioFor, RatioSays, Mismatched, IsClose, Set, Amount, ValueOf, PRESET_PARAMETERS, Baselines, BaselinesSay, FloorOf;
    var u := UnitFor(p, scope, first, second, holdout);
    forall k, value, source ensures
        (k in u.parameters.values && u.parameters.values[k] == value && k in u.parameters.provenance && u.parameters.provenance[k] == source)
          <==> Set(p, u.category, Text(u.scope.store), k, value, source) {
      ParametersExactly(p, second["category"], Text(scope.store), k, value, source);
    }
    RatioExactly(p, second, "ad_spend", "clicks");
    RatioExactly(p, second, "revenue", "ad_spend");
    RatioExactly(p, second, "clicks", "traffic");
    BaselinesExactly(p, first, second, FloorOf(u.parameters));
    FloorIsKnown(p, second["category"], Text(scope.store));
    RoiIsNumber(p, scope, first, second);
    MismatchExactly(u.reportedRoi, RevenueRatio(p, second));
  }

  lemma RoiIsNumber(p: Profile, scope: Scope, first: Cells, second: Cells)
    requires UnitOk(p, scope, first, second)
    ensures RevenueRatio(p, second).Some? ==> IsNumber(Field(second, "roi"))
  {
    hide Resolved, Resolvable, RatioFor, Baselines, PRESET_PARAMETERS;
  }

  lemma BaselinesExactly(p: Profile, first: Cells, second: Cells, floor: real)
    ensures BaselinesSay(p, floor, first, second, Baselines(p, first, second, floor))
  {
    hide BaselineFor, BaselineSays, ValueOf, IsNumber, Amount;
    forall x, y ensures (exists a, b :: Amount(x, a) && Amount(y, b)) <==> IsNumber(x) && IsNumber(y) { BothAreNumbers(x, y); }
    forall c, x ensures Amount(c, x) <==> IsNumber(c) && ValueOf(c) == x { AmountExactly(c, x); }
    forall k | k in first && k in second
      ensures BaselineSays(p, floor, ValueOf(first[k]), ValueOf(second[k]), if k in p.fields then p.fields[k] else "",
                           BaselineFor(p, floor, first[k], second[k], if k in p.fields then p.fields[k] else "")) {
      BaselineExactly(p, floor, first[k], second[k], if k in p.fields then p.fields[k] else "");
    }
  }

  lemma BothAreNumbers(x: Cell, y: Cell)
    ensures (exists a, b :: Amount(x, a) && Amount(y, b)) <==> IsNumber(x) && IsNumber(y)
  {
    AmountExactly(x, ValueOf(x));
    AmountExactly(y, ValueOf(y));
  }

  lemma FloorIsKnown(p: Profile, category: Cell, store: Cell)
    requires Resolvable(p, category, store)
    ensures Amount(Field(Resolved(p, category, store).values, "minimumRelativeThreshold"), FloorOf(Resolved(p, category, store)))
  {
    hide Layered, Strongest;
    var base := BaseParameters(p);
    ProvenanceIsRight(Parameters(base, map q | q in base :: "profile"), Layers(p, category, store), "minimumRelativeThreshold");
    var r := Resolved(p, category, store);
    assert "minimumRelativeThreshold" in r.values;
    assert ValueIsValid("minimumRelativeThreshold", r.values["minimumRelativeThreshold"]);
    AmountExactly(r.values["minimumRelativeThreshold"], ValueOf(r.values["minimumRelativeThreshold"]));
  }

  // ------------------------------------------------------------------ methods and presets

  /** The preset starts from the roi of the second report, and asks for the configured share more. */
  ghost predicate PresetSays(u: Unit, second: Cells, q: Preset) {
    && Amount(Field(second, "roi"), q.base)
    && (exists share :: Amount(Field(u.parameters.values, "targetRelativeImprovement"), share) && q.target == q.base + Size(q.base) * share)
    && q.window == Field(u.parameters.values, "reviewWindowDays") && q.deterioration == Field(u.parameters.values, "maximumRelativeDeterioration")
    && q.realization == Field(u.parameters.values, "minimumDeltaRealizationRate") && q.parameters == u.parameters
  }

  /** An agent's method for a unit. */
  ghost predicate MethodSays(p: Profile, u: Unit, second: Cells, agent: string, m: Method) {
    && agent in p.methods && m.agent == agent && m.instruction == p.methods[agent]
    && m.category == u.category && m.platform == u.platform && m.scope == u.scope && m.derived == u.derived
    && (forall k :: k in m.baseline <==> k in u.baseline && (k == "roi" || k == "conversion_rate" || k == "ctr"))
    && (forall k | k in m.baseline && k in u.baseline :: m.baseline[k] == u.baseline[k])
    && (m.preset.Some? <==> agent == "agent2") && (m.preset.Some? ==> PresetSays(u, second, m.preset.value))
  }

  lemma PresetExactly(p: Profile, scope: Scope, first: Cells, second: Cells, holdout: Holdout)
    requires UnitOk(p, scope, first, second) && "agent2" in p.methods
    ensures var u := UnitFor(p, scope, first, second, holdout);
            PresetFor(u).Some? && PresetSays(u, second, PresetFor(u).value)
  {
    hide Resolved, RatioFor, IsClose, ValueOf, Amount, Set, ParametersFine;
    var u := UnitFor(p, scope, first, second, holdout);
    assert "roi" in u.baseline && u.baseline["roi"].second == ValueOf(second["roi"]);
    AmountExactly(second["roi"], ValueOf(second["roi"]));
    ShareIsKnown(p, second["category"], Text(scope.store));
  }

  lemma ShareIsKnown(p: Profile, category: Cell, store: Cell)
    requires Resolvable(p, category, store) && PRESET_PARAMETERS <= Resolved(p, category, store).values.Keys
    ensures var share := Field(Resolved(p, category, store).values, "targetRelativeImprovement"); Amount(share, ValueOf(share))
  {
    hide Resolved;
    var v := Resolved(p, category, store).values;
    assert "targetRelativeImprovement" in PRESET_PARAMETERS;
    assert ValueIsValid("targetRelativeImprovement", v["targetRelativeImprovement"]);
  }

  lemma MethodExactly(p: Profile, scope: Scope, first: Cells, second: Cells, holdout: Holdout, agent: string)
    requires UnitOk(p, scope, first, second) && agent in p.methods
    ensures var u := UnitFor(p, scope, first, second, holdout); MethodSays(p, u, second, agent, MethodFor(p, u, agent))
  {
    hide UnitOk, UnitFor, PresetFor, PresetSays;
    if agent == "agent2" { PresetExactly(p, scope, first, second, holdout); }
  }

  // ------------------------------------------------------------------ the bundle

  /** Exactly which scenarios are accepted: three reports with different ids and rising periods, two of them for
      training, the same units in all three, rows and units in order, and the supplementary sheets in order. */
  lemma AcceptedExactly(d: Digests, p: Profile, s: Scenario)
    ensures Accepted(d, p, s) <==>
              && |s.reports| == 3 && p.trainingCount == 2 && p.holdoutCount == 1
              && s.reports[0].id != s.reports[1].id && s.reports[0].id != s.reports[2].id && s.reports[1].id != s.reports[2].id
              && Less(s.reports[0].period, s.reports[1].period) && Less(s.reports[1].period, s.reports[2].period)
              && RowsFine(p, s.reports[0].rows) && RowsFine(p, s.reports[1].rows) && RowsFine(p, s.reports[2].rows)
              && (forall scope :: HasUnit(s.reports[0], scope) <==> HasUnit(s.reports[1], scope))
              && (forall scope :: HasUnit(s.reports[0], scope) <==> HasUnit(s.reports[2], scope))
              && (forall scope, first, second | Given(s.reports[0].rows, scope, first) && Given(s.reports[1].rows, scope, second) ::
                    UnitFine(p, scope, first, second))
              && forall name | name in p.sheets :: SheetOk(d, p, s.reports, name, p.sheets[name])
  {
    hide SheetOk, SnapshotOf, UnitOk, UnitFine, SortScopes, Less, RowsFine, Shows;
    if |s.reports| == 3 {
      var first, second, third := SnapshotOf(p, s.reports[0].rows), SnapshotOf(p, s.reports[1].rows), SnapshotOf(p, s.reports[2].rows);
      SnapshotExactly(p, s.reports[0].rows);
      SnapshotExactly(p, s.reports[1].rows);
      SnapshotExactly(p, s.reports[2].rows);
      if first.Ok? && second.Ok? && third.Ok? {
        UnitsAre(s.reports[0], first.value);
        UnitsAre(s.reports[1], second.value);
        UnitsAre(s.reports[2], third.value);
        SameUnits(s.reports[0], first.value, s.reports[1], second.value);
        SameUnits(s.reports[0], first.value, s.reports[2], third.value);
        if first.value.Keys == second.value.Keys { UnitsFineExactly(p, s.reports[0], first.value, s.reports[1], second.value); }
      }
    }
  }

  ghost predicate HasUnit(r: Report, scope: Scope) {
    exists cells :: Given(r.rows, scope, cells)
  }

  lemma UnitsAre(r: Report, snapshot: Snapshot)
    requires Shows(snapshot, r.rows)
    ensures forall scope :: scope in snapshot <==> HasUnit(r, scope)
    ensures forall scope | scope in snapshot :: Given(r.rows, scope, snapshot[scope])
  {
    forall scope ensures scope in snapshot <==> HasUnit(r, scope) {
      if scope in snapshot { assert Given(r.rows, scope, snapshot[scope]); }
    }
  }

  lemma SameUnits(a: Report, x: Snapshot, b: Report, y: Snapshot)
    requires Shows(x, a.rows) && Shows(y, b.rows)
    ensures x.Keys == y.Keys <==> forall scope :: HasUnit(a, scope) <==> HasUnit(b, scope)
  {
    hide Shows, HasUnit;
    UnitsAre(a, x);
    UnitsAre(b, y);
    if forall scope :: HasUnit(a, scope) <==> HasUnit(b, scope) {
      forall scope ensures scope in x.Keys <==> scope in y.Keys { assert HasUnit(a, scope) <==> HasUnit(b, scope); }
    }
  }

  lemma UnitsFineExactly(p: Profile, a: Report, x: Snapshot, b: Report, y: Snapshot)
    requires Shows(x, a.rows) && Shows(y, b.rows) && x.Keys == y.Keys
    ensures UnitsOk(p, x, y, SortScopes(x.Keys)) <==>
              forall scope, first, second | Given(a.rows, scope, first) && Given(b.rows, scope, second) :: UnitFine(p, scope, first, second)
  {
    hide UnitOk, UnitFine, SortScopes;
    forall scope, first, second ensures UnitOk(p, scope, first, second) <==> UnitFine(p, scope, first, second) { UnitFineExactly(p, scope, first, second); }
    var scopes := SortScopes(x.Keys);
    assert forall scope :: scope in scopes <==> scope in Elements(scopes);
    if forall scope, first, second | Given(a.rows, scope, first) && Given(b.rows, scope, second) :: UnitFine(p, scope, first, second) {
      forall scope | scope in scopes ensures UnitOk(p, scope, x[scope], y[scope]) { assert Given(a.rows, scope, x[scope]) && Given(b.rows, scope, y[scope]); }
    }
    if UnitsOk(p, x, y, scopes) {
      forall scope, first, second | Given(a.rows, scope, first) && Given(b.rows, scope, second) ensures UnitFine(p, scope, first, second) {
        assert scope in x && x[scope] == first && y[scope] == second;
      }
    }
  }

  /** The unit of its three rows. */
  ghost predicate UnitOfRows(p: Profile, s: Scenario, u: Unit) {
    |s.reports| == 3 && exists first, second, third ::
      && Given(s.reports[0].rows, u.scope, first) && Given(s.reports[1].rows, u.scope, second) && Given(s.reports[2].rows, u.scope, third)
      && UnitSays(p, u, first, second) && u.holdout == Holdout(s.reports[2].id, s.reports[2].period, third)
  }

  /** The method of an agent for the unit. */
  ghost predicate MethodOfRows(p: Profile, s: Scenario, u: Unit, m: Method) {
    |s.reports| == 3 && exists second :: Given(s.reports[1].rows, u.scope, second) && MethodSays(p, u, second, m.agent, m)
  }

  /** What an accepted scenario's bundle holds: one unit for each of the first report's rows, in the order of
      store and product, saying what its two training rows make of it and keeping the third report's row aside;
      and the methods of the units, one for each agent. */
  lemma BundleExactly(d: Digests, p: Profile, s: Scenario)
    requires Accepted(d, p, s)
    ensures var c := BundleFor(d, p, s).content;
            && (forall i, j | 0 <= i < j < |c.units| :: ScopeLess(c.units[i].scope, c.units[j].scope))
            && (forall scope :: HasUnit(s.reports[0], scope) <==> exists u :: u in c.units && u.scope == scope)
            && (forall u | u in c.units :: UnitOfRows(p, s, u))
            && forall m | m in c.methods :: exists u :: u in c.units && MethodOfRows(p, s, u, m)
    ensures var c := BundleFor(d, p, s).content;
            forall u, agent | u in c.units && agent in p.methods :: exists m :: m in c.methods && m.agent == agent && MethodOfRows(p, s, u, m)
  {
    hide SheetOk, SheetsFor, SnapshotOf, UnitsOk, UnitsAt, AllMethods, SortScopes, SortText, FieldsOf, Less, ScopeLess, UnitOfRows, MethodOfRows, HasUnit;
    var snapshots := SnapshotsOf(p, s.reports);
    var units := UnitsAt(p, snapshots, s.reports[2], SortScopes(snapshots.0.Keys));
    UnitsInOrder(p, snapshots, s.reports[2], snapshots.0.Keys);
    SnapshotExactly(p, s.reports[0].rows);
    UnitsAre(s.reports[0], snapshots.0);
    forall u | u in units ensures UnitOfRows(p, s, u) {
      var k :| 0 <= k < |units| && units[k] == u;
      UnitIsOfRows(d, p, s, k, "");
    }
    forall m | m in AllMethods(p, units) ensures exists u :: u in units && MethodOfRows(p, s, u, m) {
      var k := MethodOf(p, units, m);
      UnitIsOfRows(d, p, s, k, m.agent);
      assert units[k] in units;
    }
    forall u, agent | u in units && agent in p.methods
      ensures exists m :: m in AllMethods(p, units) && m.agent == agent && MethodOfRows(p, s, u, m) {
      var k :| 0 <= k < |units| && units[k] == u;
      UnitIsOfRows(d, p, s, k, agent);
      MethodIsListed(p, units, k, agent);
      AgentOf(p, u, agent);
    }
  }

  lemma UnitsInOrder(p: Profile, snapshots: (Snapshot, Snapshot, Snapshot), third: Report, scopes: set<Scope>)
    ensures var units := UnitsAt(p, snapshots, third, SortScopes(scopes));
            && |units| == |SortScopes(scopes)|
            && (forall i, j | 0 <= i < j < |units| :: ScopeLess(units[i].scope, units[j].scope))
            && forall scope :: scope in scopes <==> exists u :: u in units && u.scope == scope
  {
    hide ScopeLess, SortScopes, Resolved, Baselines, Deriveds, RevenueRatio;
    var listed := SortScopes(scopes);
    var units := UnitsAt(p, snapshots, third, listed);
    forall scope ensures scope in scopes <==> exists u :: u in units && u.scope == scope {
      assert scope in scopes <==> scope in Elements(listed);
      if scope in listed { var k :| 0 <= k < |listed| && listed[k] == scope; assert units[k] in units; }
      if u :| u in units && u.scope == scope { var k :| 0 <= k < |units| && units[k] == u; assert listed[k] in listed; }
    }
  }

  /** A unit of the bundle is that of its rows, and so are its methods. */
  lemma UnitIsOfRows(d: Digests, p: Profile, s: Scenario, k: nat, agent: string)
    requires Accepted(d, p, s)
    requires var x := SnapshotsOf(p, s.reports); k < |SortScopes(x.0.Keys)|
    ensures var x := SnapshotsOf(p, s.reports); var scopes := SortScopes(x.0.Keys);
            var units := UnitsAt(p, x, s.reports[2], scopes);
            UnitOfRows(p, s, units[k]) && (agent in p.methods ==> MethodOfRows(p, s, units[k], MethodFor(p, units[k], agent)))
  {
    hide SheetOk, SnapshotOf, UnitOk, UnitFor, SortScopes, UnitSays, MethodSays, Shows, MethodFor, Less;
    var x := SnapshotsOf(p, s.reports);
    var scopes := SortScopes(x.0.Keys);
    var scope := scopes[k];
    assert scope in scopes && scope in Elements(scopes);
    SnapshotExactly(p, s.reports[0].rows);
    SnapshotExactly(p, s.reports[1].rows);
    SnapshotExactly(p, s.reports[2].rows);
    UnitsAre(s.reports[0], x.0);
    UnitsAre(s.reports[1], x.1);
    UnitsAre(s.reports[2], x.2);
    var holdout := HoldoutFor(s.reports[2], x.2, scope);
    UnitExactly(p, scope, x.0[scope], x.1[scope], holdout);
    ScopeOf(p, scope, x.0[scope], x.1[scope], holdout);
    if agent in p.methods {
      MethodExactly(p, scope, x.0[scope], x.1[scope], holdout, agent);
      AgentOf(p, UnitFor(p, scope, x.0[scope], x.1[scope], holdout), agent);
    }
  }

  lemma ScopeOf(p: Profile, scope: Scope, first: Cells, second: Cells, holdout: Holdout)
    ensures UnitFor(p, scope, first, second, holdout).scope == scope && UnitFor(p, scope, first, second, holdout).holdout == holdout
  {
  }

  lemma {:induction false} MethodIsListed(p: Profile, units: seq<Unit>, k: nat, agent: string)
    requires k < |units| && agent in p.methods
    ensures MethodFor(p, units[k], agent) in AllMethods(p, units)
  {
    hide MethodFor, MethodsFor;
    var n := |units| - 1;
    if k < n {
      MethodIsListed(p, units[..n], k, agent);
    } else {
      MethodOfUnit(p, units[n], agent);
    }
  }

  lemma MethodOfUnit(p: Profile, u: Unit, agent: string)
    requires agent in p.methods
    ensures MethodFor(p, u, agent) in MethodsFor(p, u)
  {
    hide MethodFor, SortText;
    var agents := SortText(p.methods.Keys);
    assert agent in Elements(agents);
    var j :| 0 <= j < |agents| && agents[j] == agent;
    assert MethodsFor(p, u)[j] == MethodFor(p, u, agent);
  }

  // ------------------------------------------------------------------ supplementary sheets

  /** The cell of a column: the one under the last header of that name. */
  ghost predicate CellIs(headers: seq<string>, raw: seq<Cell>, column: string, c: Cell) {
    exists k :: 0 <= k < |headers| && k < |raw| && headers[k] == column && raw[k] == c && forall j | k < j < |headers| :: headers[j] != column
  }

  lemma {:induction false} RowExactly(headers: seq<string>, raw: seq<Cell>, column: string, c: Cell)
    requires |headers| == |raw|
    ensures (column in RowOf(headers, raw) && RowOf(headers, raw)[column] == c) <==> CellIs(headers, raw, column, c)
    ensures column in RowOf(headers, raw) <==> column in headers
  {
    hide CellIs;
    if headers == [] {
      NoCell(column, c);
    } else {
      var n := |headers| - 1;
      RowExactly(headers[..n], raw[..n], column, c);
      assert headers == headers[..n] + [headers[n]];
      CellStep(headers, raw, column, c);
    }
  }

  lemma NoCell(column: string, c: Cell)
    ensures !CellIs([], [], column, c)
  {
  }

  lemma CellStep(headers: seq<string>, raw: seq<Cell>, column: string, c: Cell)
    requires |headers| == |raw| > 0
    ensures var n := |headers| - 1;
            CellIs(headers, raw, column, c) <==> if headers[n] == column then raw[n] == c else CellIs(headers[..n], raw[..n], column, c)
  {
    var n := |headers| - 1;
    var front, cells := headers[..n], raw[..n];
    assert forall k | 0 <= k < n :: front[k] == headers[k] && cells[k] == raw[k];
    if headers[n] != column && CellIs(front, cells, column, c) {
      var k :| 0 <= k < n && front[k] == column && cells[k] == c && forall j | k < j < n :: front[j] != column;
      assert forall j | k < j < |headers| && j != n :: headers[j] == front[j];
      assert CellIs(headers, raw, column, c);
    }
    if headers[n] == column && raw[n] == c { assert CellIs(headers, raw, column, c); }
  }

  /** Every row as wide as the headers, the identity columns among the headers, and no identity twice. */
  ghost predicate DataFine(spec: SheetSpec, headers: seq<string>, data: seq<seq<Cell>>) {
    && (forall raw | raw in data :: |raw| == |headers|)
    && (data != [] ==> forall column | column in spec.identity :: column in headers)
    && forall i, j | 0 <= i < j < |data| && |data[i]| == |headers| && |data[j]| == |headers| ::
         KeyOf(spec, RowOf(headers, data[i])) != KeyOf(spec, RowOf(headers, data[j]))
  }

  /** The table holds these rows under their identities. */
  ghost predicate Tabulates(t: Table, spec: SheetSpec, headers: seq<string>, data: seq<seq<Cell>>) {
    forall key, row :: (key in t && t[key] == row) <==> RowAt(spec, headers, data, key, row)
  }

  ghost predicate RowAt(spec: SheetSpec, headers: seq<string>, data: seq<seq<Cell>>, key: seq<Cell>, row: Cells) {
    exists raw :: raw in data && |raw| == |headers| && row == RowOf(headers, raw) && key == KeyOf(spec, row)
  }

  lemma {:induction false} TableExactly(spec: SheetSpec, headers: seq<string>, data: seq<seq<Cell>>)
    ensures TableOf(spec, headers, data).Ok? <==> DataFine(spec, headers, data)
    ensures TableOf(spec, headers, data).Ok? ==> Tabulates(TableOf(spec, headers, data).value, spec, headers, data)
  {
    hide KeyOf, RowOf, DataFine, Tabulates, RawOk;
    if data == [] {
      NoData(spec, headers);
    } else {
      var n := |data| - 1;
      TableExactly(spec, headers, data[..n]);
      DataStep(spec, headers, data);
      RawHasHeaders(spec, headers, data[n]);
      if TableOf(spec, headers, data[..n]).Ok? && RawOk(spec, headers, data[n]) { TabulatesStep(TableOf(spec, headers, data[..n]).value, spec, headers, data); }
    }
  }

  lemma NoData(spec: SheetSpec, headers: seq<string>)
    ensures DataFine(spec, headers, []) && Tabulates(map[], spec, headers, [])
  {
  }

  lemma RawHasHeaders(spec: SheetSpec, headers: seq<string>, raw: seq<Cell>)
    ensures RawOk(spec, headers, raw) <==> |raw| == |headers| && forall column | column in spec.identity :: column in headers
  {
    hide RowOf;
    if |raw| == |headers| { forall column ensures column in RowOf(headers, raw) <==> column in headers { RowExactly(headers, raw, column, Null); } }
  }

  lemma DataStep(spec: SheetSpec, headers: seq<string>, data: seq<seq<Cell>>)
    requires data != []
    ensures var n := |data| - 1;
            DataFine(spec, headers, data) <==>
              && DataFine(spec, headers, data[..n]) && |data[n]| == |headers| && (forall column | column in spec.identity :: column in headers)
              && forall raw | raw in data[..n] && |raw| == |headers| :: KeyOf(spec, RowOf(headers, raw)) != KeyOf(spec, RowOf(headers, data[n]))
  {
    hide RowOf, KeyOf;
    var n := |data| - 1;
    var front := data[..n];
    assert data == front + [data[n]];
    assert forall raw :: raw in data <==> raw in front || raw == data[n];
    if DataFine(spec, headers, data) {
      forall raw | raw in front ensures KeyOf(spec, RowOf(headers, raw)) != KeyOf(spec, RowOf(headers, data[n])) {
        var i :| 0 <= i < n && front[i] == raw;
        assert data[i] == raw;
      }
    }
  }

  lemma TabulatesStep(front: Table, spec: SheetSpec, headers: seq<string>, data: seq<seq<Cell>>)
    requires data != [] && |data[|data| - 1]| == |headers| && Tabulates(front, spec, headers, data[..|data| - 1])
    ensures var row := RowOf(headers, data[|data| - 1]);
            KeyOf(spec, row) in front <==> exists raw :: raw in data[..|data| - 1] && |raw| == |headers| && KeyOf(spec, RowOf(headers, raw)) == KeyOf(spec, row)
    ensures var row := RowOf(headers, data[|data| - 1]);
            KeyOf(spec, row) !in front ==> Tabulates(front[KeyOf(spec, row) := row], spec, headers, data)
  {
    hide RowOf, KeyOf;
    var n := |data| - 1;
    var last := RowOf(headers, data[n]);
    var lastKey := KeyOf(spec, last);
    assert data == data[..n] + [data[n]];
    if lastKey in front { assert RowAt(spec, headers, data[..n], lastKey, front[lastKey]); }
    if raw :| raw in data[..n] && |raw| == |headers| && KeyOf(spec, RowOf(headers, raw)) == lastKey {
      assert RowAt(spec, headers, data[..n], lastKey, RowOf(headers, raw));
    }
    if lastKey !in front {
      var later := front[lastKey := last];
      forall key, row ensures (key in later && later[key] == row) <==> RowAt(spec, headers, data, key, row) {
        assert RowAt(spec, headers, data, key, row) <==> RowAt(spec, headers, data[..n], key, row) || (row == last && key == lastKey);
        assert (key in front && front[key] == row) <==> RowAt(spec, headers, data[..n], key, row);
      }
    }
  }

  /** The report has the sheet, with as many rows and with the hash that it declares, and its rows are in order. */
  ghost predicate SheetFine(d: Digests, report: Report, name: string, spec: SheetSpec) {
    && name in report.sheets
    && var sheet := report.sheets[name];
    && |sheet.data| == sheet.rowCount && d.sheet(sheet.headers, sheet.data) == sheet.contentHash && DataFine(spec, sheet.headers, sheet.data)
  }

  /** The sheet has this row under this identity. */
  ghost predicate SheetRow(report: Report, name: string, spec: SheetSpec, key: seq<Cell>, row: Cells) {
    name in report.sheets && RowAt(spec, report.sheets[name].headers, report.sheets[name].data, key, row)
  }

  ghost predicate HasKey(report: Report, name: string, spec: SheetSpec, key: seq<Cell>) {
    exists row :: SheetRow(report, name, spec, key, row)
  }

  lemma SheetTableExactly(d: Digests, report: Report, name: string, spec: SheetSpec)
    ensures SheetTable(d, report, name, spec).Ok? <==> SheetFine(d, report, name, spec)
    ensures SheetTable(d, report, name, spec).Ok? ==>
              && (forall key, row :: (key in SheetTable(d, report, name, spec).value && SheetTable(d, report, name, spec).value[key] == row) <==>
                    SheetRow(report, name, spec, key, row))
              && forall key :: key in SheetTable(d, report, name, spec).value <==> HasKey(report, name, spec, key)
  {
    hide TableOf, DataFine, RowAt;
    if name in report.sheets {
      var sheet := report.sheets[name];
      TableExactly(spec, sheet.headers, sheet.data);
      if SheetTable(d, report, name, spec).Ok? {
        var t := SheetTable(d, report, name, spec).value;
        forall key, row ensures (key in t && t[key] == row) <==> SheetRow(report, name, spec, key, row) {
          assert (key in t && t[key] == row) <==> RowAt(spec, sheet.headers, sheet.data, key, row);
        }
        forall key ensures key in t <==> HasKey(report, name, spec, key) {
          if key in t { assert SheetRow(report, name, spec, key, t[key]); }
        }
      }
    }
  }

  predicate Concerns(row: Row, store: Cell, product: Cell) {
    Text(row.scope.store) == store && Text(row.scope.product) == product
  }

  /** The category of the first row for the store and the product; empty text if there is none. */
  ghost predicate CategoryIs(rows: seq<Row>, store: Cell, product: Cell, category: Cell) {
    || (category == Text("") && forall row | row in rows :: !Concerns(row, store, product))
    || exists k :: FirstRow(rows, store, product, k) && "category" in rows[k].cells && rows[k].cells["category"] == category
  }

  ghost predicate FirstRow(rows: seq<Row>, store: Cell, product: Cell, k: int) {
    0 <= k < |rows| && Concerns(rows[k], store, product) && forall j | 0 <= j < k :: !Concerns(rows[j], store, product)
  }

  lemma {:induction false} CategoryExactly(rows: seq<Row>, store: Cell, product: Cell, category: Cell)
    ensures CategoryIn(rows, store, product) == Some(category) <==> CategoryIs(rows, store, product, category)
  {
    if rows != [] {
      if Concerns(rows[0], store, product) {
        assert FirstRow(rows, store, product, 0);
      } else {
        CategoryExactly(rows[1..], store, product, category);
        CategoryStep(rows, store, product, category);
      }
    }
  }

  lemma CategoryStep(rows: seq<Row>, store: Cell, product: Cell, category: Cell)
    requires rows != [] && !Concerns(rows[0], store, product)
    ensures CategoryIs(rows, store, product, category) <==> CategoryIs(rows[1..], store, product, category)
  {
    hide Concerns, FirstRow;
    var rest := rows[1..];
    assert (forall row | row in rows :: !Concerns(row, store, product)) <==> forall row | row in rest :: !Concerns(row, store, product) by {
      assert forall row :: row in rows <==> row == rows[0] || row in rest;
    }
    forall k | FirstRow(rows, store, product, k) ensures 0 < k < |rows| && FirstRow(rest, store, product, k - 1) && rest[k - 1] == rows[k] {
      FirstIsLater(rows, store, product, k);
      FirstRowStep(rows, store, product, k - 1);
    }
    forall k | FirstRow(rest, store, product, k) ensures 0 <= k < |rest| && FirstRow(rows, store, product, k + 1) && rest[k] == rows[k + 1] {
      FirstIsHere(rest, store, product, k);
      FirstRowStep(rows, store, product, k);
    }
    CategoryMoves(rows, rest, store, product, category);
  }

  lemma CategoryMoves(rows: seq<Row>, rest: seq<Row>, store: Cell, product: Cell, category: Cell)
    requires (forall row | row in rows :: !Concerns(row, store, product)) <==> forall row | row in rest :: !Concerns(row, store, product)
    requires forall k | FirstRow(rows, store, product, k) :: 0 < k < |rows| && FirstRow(rest, store, product, k - 1) && k - 1 < |rest| && rest[k - 1] == rows[k]
    requires forall k | FirstRow(rest, store, product, k) :: 0 <= k < |rest| && FirstRow(rows, store, product, k + 1) && k + 1 < |rows| && rest[k] == rows[k + 1]
    ensures CategoryIs(rows, store, product, category) <==> CategoryIs(rest, store, product, category)
  {
    hide Concerns, FirstRow;
  }

  lemma FirstIsHere(rows: seq<Row>, store: Cell, product: Cell, k: int)
    requires FirstRow(rows, store, product, k)
    ensures 0 <= k < |rows|
  {
  }

  lemma FirstIsLater(rows: seq<Row>, store: Cell, product: Cell, k: int)
    requires rows != [] && !Concerns(rows[0], store, product) && FirstRow(rows, store, product, k)
    ensures 0 < k < |rows|
  {
    hide Concerns;
  }

  lemma FirstRowStep(rows: seq<Row>, store: Cell, product: Cell, k: int)
    requires rows != [] && !Concerns(rows[0], store, product)
    ensures FirstRow(rows[1..], store, product, k) <==> FirstRow(rows, store, product, k + 1)
  {
    hide Concerns;
    var rest := rows[1..];
    assert forall j | 0 <= j < |rest| :: rest[j] == rows[j + 1];
    if FirstRow(rest, store, product, k) {
      forall j | 0 <= j < k + 1 ensures !Concerns(rows[j], store, product) { if j > 0 { assert rows[j] == rest[j - 1]; } }
    }
    if FirstRow(rows, store, product, k + 1) {
      forall j | 0 <= j < k ensures !Concerns(rest[j], store, product) { assert rest[j] == rows[j + 1]; }
    }
  }

  /** A row of the second report and its row in the third can make an entry. */
  ghost predicate EntryFine(p: Profile, spec: SheetSpec, rows: seq<Row>, b: Cells, c: Cells) {
    && "店铺ID" in b
    && (exists category :: CategoryIs(rows, b["店铺ID"], Field(b, "商品ID"), category) && ParametersFine(p, category, b["店铺ID"]))
    && forall k | k in spec.metrics :: k in c
  }

  lemma EntryFineExactly(p: Profile, spec: SheetSpec, rows: seq<Row>, b: Cells, c: Cells)
    ensures EntryOk(p, spec, rows, b, c) <==> EntryFine(p, spec, rows, b, c)
  {
    hide CategoryIn, CategoryIs, Resolvable, ParametersFine;
    if "店铺ID" in b {
      forall category ensures CategoryIn(rows, b["店铺ID"], Field(b, "商品ID")) == Some(category) <==> CategoryIs(rows, b["店铺ID"], Field(b, "商品ID"), category) {
        CategoryExactly(rows, b["店铺ID"], Field(b, "商品ID"), category);
      }
      forall category ensures Resolvable(p, category, b["店铺ID"]) <==> ParametersFine(p, category, b["店铺ID"]) {
        ResolvableExactly(p, category, b["店铺ID"]);
      }
    }
  }

  /** Exactly when a supplementary sheet is accepted. */
  lemma SheetExactly(d: Digests, p: Profile, reports: seq<Report>, name: string, spec: SheetSpec)
    requires |reports| == 3
    ensures SheetOk(d, p, reports, name, spec) <==>
              && SheetFine(d, reports[0], name, spec) && SheetFine(d, reports[1], name, spec) && SheetFine(d, reports[2], name, spec)
              && (forall key :: HasKey(reports[0], name, spec, key) <==> HasKey(reports[1], name, spec, key))
              && (forall key :: HasKey(reports[0], name, spec, key) <==> HasKey(reports[2], name, spec, key))
              && forall key, b, c | SheetRow(reports[1], name, spec, key, b) && SheetRow(reports[2], name, spec, key, c) ::
                   EntryFine(p, spec, reports[1].rows, b, c)
  {
    hide SheetTable, SheetFine, SheetRow, HasKey, EntryOk, EntryFine;
    SheetTableExactly(d, reports[0], name, spec);
    SheetTableExactly(d, reports[1], name, spec);
    SheetTableExactly(d, reports[2], name, spec);
    forall b, c ensures EntryOk(p, spec, reports[1].rows, b, c) <==> EntryFine(p, spec, reports[1].rows, b, c) {
      EntryFineExactly(p, spec, reports[1].rows, b, c);
    }
    var x, y, z := SheetTable(d, reports[0], name, spec), SheetTable(d, reports[1], name, spec), SheetTable(d, reports[2], name, spec);
    if x.Ok? && y.Ok? && z.Ok? {
      KeysAgree(x.value, y.value, k => HasKey(reports[0], name, spec, k), k => HasKey(reports[1], name, spec, k));
      KeysAgree(x.value, z.value, k => HasKey(reports[0], name, spec, k), k => HasKey(reports[2], name, spec, k));
      if x.value.Keys == y.value.Keys == z.value.Keys {
        RowsAgree(x.value, y.value, z.value, (k, b) => SheetRow(reports[1], name, spec, k, b), (k, c) => SheetRow(reports[2], name, spec, k, c),
                  (b, c) => EntryOk(p, spec, reports[1].rows, b, c));
      }
    }
  }

  lemma RowsAgree(x: Table, y: Table, z: Table, inY: (seq<Cell>, Cells) -> bool, inZ: (seq<Cell>, Cells) -> bool, ok: (Cells, Cells) -> bool)
    requires x.Keys == y.Keys == z.Keys
    requires forall key, row :: (key in y && y[key] == row) <==> inY(key, row)
    requires forall key, row :: (key in z && z[key] == row) <==> inZ(key, row)
    ensures (forall key | key in x :: ok(y[key], z[key])) <==> forall key, b, c | inY(key, b) && inZ(key, c) :: ok(b, c)
  {
    if forall key, b, c | inY(key, b) && inZ(key, c) :: ok(b, c) {
      forall key | key in x ensures ok(y[key], z[key]) { assert inY(key, y[key]) && inZ(key, z[key]); }
    }
  }

  lemma KeysAgree(x: Table, y: Table, p: seq<Cell> -> bool, q: seq<Cell> -> bool)
    requires forall k :: k in x <==> p(k)
    requires forall k :: k in y <==> q(k)
    ensures x.Keys == y.Keys <==> forall k :: p(k) <==> q(k)
  {
  }

  /** A metric of an entry: both values as they stand, and the change where both are numbers. */
  ghost predicate MetricSays(p: Profile, floor: Cell, x: Cell, y: Cell, unit: string, m: Metric) {
    && m.first == x && m.second == y && m.unit == unit
    && (m.delta.Some? <==> exists a, b :: Amount(x, a) && Amount(y, b))
    && (m.relative.Some? ==> m.delta.Some?) && (m.threshold.Some? <==> m.relative.Some?)
    && forall a, b, least | Amount(x, a) && Amount(y, b) && Amount(floor, least) ::
         && m.delta == Some(b - a) && ChangeIs(p, a, b, m.relative)
         && (m.threshold.Some? ==> m.threshold.value >= least && m.threshold.value >= Size(m.relative.value) &&
                                   (m.threshold.value == least || m.threshold.value == Size(m.relative.value)))
  }

  /** An entry, given its rows in the three reports: metrics from the training rows, facts from the third one. */
  ghost predicate EntrySays(d: Digests, p: Profile, spec: SheetSpec, rows: seq<Row>, third: string, key: seq<Cell>, a: Cells, b: Cells, c: Cells, e: Entry) {
    && e.identity == key && e.holdoutReport == third && e.metrics.Keys == spec.metrics.Keys == e.facts.Keys
    && (forall k | k in spec.metrics && k in e.facts :: e.facts[k] == Field(c, k))
    && exists category, parameters ::
         && CategoryIs(rows, Field(b, "店铺ID"), Field(b, "商品ID"), category) && e.parameterHash == d.parameters(parameters)
         && parameters == Resolved(p, category, Field(b, "店铺ID"))
         && forall k | k in spec.metrics && k in e.metrics ::
              MetricSays(p, Field(parameters.values, "minimumRelativeThreshold"), Field(a, k), Field(b, k), spec.metrics[k], e.metrics[k])
  }

  lemma MetricExactly(p: Profile, floor: Cell, x: Cell, y: Cell, unit: string)
    ensures MetricSays(p, floor, x, y, unit, MetricFor(p, ValueOf(floor), x, y, unit))
  {
    BothAreNumbers(x, y);
    forall c, v ensures Amount(c, v) <==> IsNumber(c) && ValueOf(c) == v { AmountExactly(c, v); }
    hide Amount, ValueOf, IsNumber;
  }

  lemma EntryExactly(d: Digests, p: Profile, spec: SheetSpec, rows: seq<Row>, key: seq<Cell>, a: Cells, b: Cells, c: Cells, third: string)
    requires EntryOk(p, spec, rows, b, c)
    ensures EntrySays(d, p, spec, rows, third, key, a, b, c, EntryFor(d, p, spec, rows, key, a, b, c, third))
  {
    hide CategoryIn, CategoryIs, Resolved, Resolvable, MetricFor, MetricSays, ValueOf;
    var e := EntryFor(d, p, spec, rows, key, a, b, c, third);
    var category := CategoryIn(rows, Field(b, "店铺ID"), Field(b, "商品ID")).value;
    CategoryExactly(rows, Field(b, "店铺ID"), Field(b, "商品ID"), category);
    var parameters := Resolved(p, category, Field(b, "店铺ID"));
    var floor := Field(parameters.values, "minimumRelativeThreshold");
    forall k | k in spec.metrics ensures MetricSays(p, floor, Field(a, k), Field(b, k), spec.metrics[k], e.metrics[k]) {
      MetricExactly(p, floor, Field(a, k), Field(b, k), spec.metrics[k]);
    }
  }

  /** What a compiled sheet holds: one entry for each identity, told by its rows in the three reports. */
  lemma SheetsExactly(d: Digests, p: Profile, reports: seq<Report>, name: string, spec: SheetSpec)
    requires |reports| == 3 && SheetOk(d, p, reports, name, spec)
    ensures var r := SheetsFor(d, p, reports, name, spec);
            && (forall key :: key in r.entries <==> HasKey(reports[0], name, spec, key))
            && (forall key, a, b, c | key in r.entries && SheetRow(reports[0], name, spec, key, a) && SheetRow(reports[1], name, spec, key, b) &&
                                      SheetRow(reports[2], name, spec, key, c) ::
                  EntrySays(d, p, spec, reports[1].rows, reports[2].id, key, a, b, c, r.entries[key]))
            && r.spec == spec && name in reports[0].sheets && name in reports[1].sheets
            && r.sources == [(reports[0].id, reports[0].sheets[name].contentHash), (reports[1].id, reports[1].sheets[name].contentHash)]
  {
    hide SheetTable, SheetRow, HasKey, EntryOk, EntryFor, EntrySays;
    SheetTableExactly(d, reports[0], name, spec);
    SheetTableExactly(d, reports[1], name, spec);
    SheetTableExactly(d, reports[2], name, spec);
    var r := SheetsFor(d, p, reports, name, spec);
    forall key, a, b, c | key in r.entries && SheetRow(reports[0], name, spec, key, a) && SheetRow(reports[1], name, spec, key, b) && SheetRow(reports[2], name, spec, key, c)
      ensures EntrySays(d, p, spec, reports[1].rows, reports[2].id, key, a, b, c, r.entries[key]) {
      EntryExactly(d, p, spec, reports[1].rows, key, a, b, c, reports[2].id);
    }
    SheetIsThere(d, reports[0], name, spec);
    SheetIsThere(d, reports[1], name, spec);
  }

  lemma SheetIsThere(d: Digests, report: Report, name: string, spec: SheetSpec)
    requires SheetTable(d, report, name, spec).Ok?
    ensures name in report.sheets
  {
  }
}
