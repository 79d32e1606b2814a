/** The dashboard's configuration (factors and palettes), the colour groups
    derived from a factor, and the global level filter with the database
    filter it stands for. */
module DashState {
  import opened Common
  import opened Abstract

  datatype Kind = Nominal | Ordinal

  /** A factor: an attribute of the rows with a fixed list of levels. */
  datatype Factor = Factor(name: string, levels: seq<string>, kind: Kind)

  datatype Palette = Palette(kind: Kind, colors: seq<string>)

  datatype Config = Config(factors: seq<Factor>, palettes: seq<Palette>)

  /** A colour group: the factor levels it stands for and its colour. */
  datatype ColorGroup = ColorGroup(values: seq<string>, color: string)

  datatype Grouping = Grouping(groupsBy: seq<string>, groups: seq<ColorGroup>)

  /** A field value of a visualization description. */
  datatype Value = Text(s: string) | Number(r: real) | Flag(b: bool)

  /** A visualization description: its id and its other fields by name
      (type, variables, scales, opacity, line width, point size, height). */
  datatype View = View(id: string, fields: map<string, Value>)

  /** The dashboard's state; the database handle is not part of the model. */
  datatype DashboardState = DashboardState(
    table: string,
    variableList: seq<Variable>,
    timeStart: int, timeEnd: int,
    detailTimeStart: int, detailTimeEnd: int,
    overviewViews: seq<View>, overviewGranularity: Granularity,
    detailViews: seq<View>, detailGranularity: Granularity,
    aggregation: Granularity,
    currentTime: Option<int>,
    groupsBy: seq<string>, groups: seq<ColorGroup>,
    facetBy: Option<string>, facetLevels: Option<seq<string>>,
    filter: LevelFilter,
    config: Config)

  const Black := "#000000"

  // ---------------------------------------------------------------------
  // getFactor

  /** The first factor with the given name. */
  function FactorNamed(factors: seq<Factor>, name: string): Option<Factor>
  {
    if factors == [] then None
    else if factors[0].name == name then Some(factors[0])
    else FactorNamed(factors[1..], name)
  }

  lemma {:induction false} FactorNamedSpec(factors: seq<Factor>, name: string)
    ensures FactorNamed(factors, name).None? <==> forall f :: f in factors ==> f.name != name
    ensures FactorNamed(factors, name).Some? ==>
      exists k :: 0 <= k < |factors| && factors[k] == FactorNamed(factors, name).value
        && factors[k].name == name && forall j :: 0 <= j < k ==> factors[j].name != name
  {
    if factors != [] {
      FactorNamedSpec(factors[1..], name);
      assert factors == [factors[0]] + factors[1..];
      if factors[0].name != name && FactorNamed(factors, name).Some? {
        var k :| 0 <= k < |factors[1..]| && factors[1..][k] == FactorNamed(factors, name).value
          && factors[1..][k].name == name && forall j :: 0 <= j < k ==> factors[1..][j].name != name;
        assert factors[k + 1] == factors[1..][k];
        assert forall j :: 0 <= j < k + 1 ==> factors[j].name != name by {
          forall j | 0 < j < k + 1 ensures factors[j].name != name {
            assert factors[j] == factors[1..][j - 1];
          }
        }
      }
    }
  }

  /** getFactor: a search loop returning at the first match. */
  method GetFactor(config: Config, name: string) returns (r: Option<Factor>)
    ensures r == FactorNamed(config.factors, name)
  {
    var factors := config.factors;
    for i := 0 to |factors|
      invariant FactorNamed(factors, name) == FactorNamed(factors[i..], name)
    {
      assert factors[i..][1..] == factors[i + 1..];
      if factors[i].name == name {
        return Some(factors[i]);
      }
    }
    assert factors[|factors|..] == [];
    return None;
  }

  // ---------------------------------------------------------------------
  // getFactorColors and groupsFromFactor

  /** A palette of the factor's kind with a colour for every level. */
  predicate Fits(p: Palette, factor: Factor)
  {
    p.kind == factor.kind && |factor.levels| <= |p.colors|
  }

  /** The colours of the first palette of the factor's kind that has enough
      colours, or black once per level. */
  function FactorColors(palettes: seq<Palette>, factor: Factor): (colors: seq<string>)
    ensures |colors| >= |factor.levels|
  {
    if palettes == [] then seq(|factor.levels|, _ => Black)
    else if Fits(palettes[0], factor) then palettes[0].colors
    else FactorColors(palettes[1..], factor)
  }

  /** The colours are those of a suitable palette, the first one, or all
      black when there is none; either way there is one for every level. */
  lemma {:induction false} FactorColorsSpec(palettes: seq<Palette>, factor: Factor)
    ensures (exists k :: 0 <= k < |palettes| && Fits(palettes[k], factor)) ==>
      exists k :: 0 <= k < |palettes| && FactorColors(palettes, factor) == palettes[k].colors
        && Fits(palettes[k], factor) && forall j :: 0 <= j < k ==> !Fits(palettes[j], factor)
    ensures (forall p :: p in palettes ==> !Fits(p, factor)) ==>
      FactorColors(palettes, factor) == seq(|factor.levels|, _ => Black)
  {
    if palettes != [] {
      FactorColorsSpec(palettes[1..], factor);
      if !Fits(palettes[0], factor) {
        if exists k :: 0 <= k < |palettes| && Fits(palettes[k], factor) {
          var k0 :| 0 <= k0 < |palettes| && Fits(palettes[k0], factor);
          assert palettes[1..][k0 - 1] == palettes[k0];
          var k :| 0 <= k < |palettes[1..]| && FactorColors(palettes[1..], factor) == palettes[1..][k].colors
            && Fits(palettes[1..][k], factor) && forall j :: 0 <= j < k ==> !Fits(palettes[1..][j], factor);
          assert palettes[k + 1] == palettes[1..][k];
          forall j | 0 < j < k + 1
            ensures !Fits(palettes[j], factor)
          {
            assert palettes[j] == palettes[1..][j - 1];
          }
        }
        if forall p :: p in palettes ==> !Fits(p, factor) {
          assert forall p :: p in palettes[1..] ==> p in palettes;
        }
      }
    }
  }

  /** getFactorColors: a search loop returning at the first suitable palette. */
  method GetFactorColors(palettes: seq<Palette>, factor: Factor) returns (colors: seq<string>)
    ensures colors == FactorColors(palettes, factor)
  {
    for i := 0 to |palettes|
      invariant FactorColors(palettes, factor) == FactorColors(palettes[i..], factor)
    {
      assert palettes[i..][1..] == palettes[i + 1..];
      if palettes[i].kind == factor.kind {
        if |factor.levels| <= |palettes[i].colors| {
          return palettes[i].colors;
        }
      }
    }
    assert palettes[|palettes|..] == [];
    return seq(|factor.levels|, _ => Black);
  }

  /** groupsFromFactor: group by the factor, one group per level in order,
      coloured by the factor's palette. */
  function GroupsFromFactor(palettes: seq<Palette>, factor: Factor): (g: Grouping)
    ensures g.groupsBy == [factor.name]
    ensures |g.groups| == |factor.levels|
    ensures forall i :: 0 <= i < |g.groups| ==>
      g.groups[i].values == [factor.levels[i]] && g.groups[i].color == FactorColors(palettes, factor)[i]
  {
    var colors := FactorColors(palettes, factor);
    Grouping([factor.name], seq(|factor.levels|, i requires 0 <= i < |factor.levels| => ColorGroup([factor.levels[i]], colors[i])))
  }

  /** Every level gets its own group and the groups cover the levels. */
  lemma GroupsCoverLevels(palettes: seq<Palette>, factor: Factor, level: string)
    ensures level in factor.levels <==> exists g :: g in GroupsFromFactor(palettes, factor).groups && g.values == [level]
  {
    var gs := GroupsFromFactor(palettes, factor).groups;
    if level in factor.levels {
      var i :| 0 <= i < |factor.levels| && factor.levels[i] == level;
      assert gs[i] in gs;
    }
    if exists g :: g in gs && g.values == [level] {
      var g :| g in gs && g.values == [level];
      var i :| 0 <= i < |gs| && gs[i] == g;
      assert factor.levels[i] == level;
    }
  }

  // ---------------------------------------------------------------------
  // The global filter: selected levels per factor

  /** The level filter: for each factor name, the selected levels. */
  type LevelFilter = map<string, seq<string>>

  predicate Covers(filter: LevelFilter, factors: seq<Factor>)
  {
    forall f :: f in factors ==> f.name in filter
  }

  /** The `in` constraints of getDBFilter over the factors taken so far. */
  function DBAttributes(factors: seq<Factor>, filter: LevelFilter): Attributes
    requires Covers(filter, factors)
  {
    if factors == [] then []
    else
      var f := factors[|factors| - 1];
      var before := DBAttributes(factors[..|factors| - 1], filter);
      if |filter[f.name]| != |f.levels| then Put(before, f.name, AttrFilter(Some(filter[f.name]), None))
      else before
  }

  /** A factor name is constrained exactly when some factor of that name has
      a selection that does not hold as many levels as it has, and then
      the constraint admits the selected levels. */
  lemma {:induction false} DBAttributesSpec(factors: seq<Factor>, filter: LevelFilter, name: string)
    requires Covers(filter, factors)
    ensures Lookup(DBAttributes(factors, filter), name).Some? <==>
      exists f :: f in factors && f.name == name && |filter[name]| != |f.levels|
    ensures Lookup(DBAttributes(factors, filter), name).Some? ==>
      Lookup(DBAttributes(factors, filter), name) == Some(AttrFilter(Some(filter[name]), None))
  {
    if factors != [] {
      var init := factors[..|factors| - 1];
      var f := factors[|factors| - 1];
      assert factors == init + [f];
      DBAttributesSpec(init, filter, name);
    }
  }

  /** getDBFilter: a loop over the factors filling the attributes. */
  method GetDBFilter(config: Config, filter: LevelFilter) returns (r: Filter)
    requires Covers(filter, config.factors)
    ensures r == Filter(None, None, Some(DBAttributes(config.factors, filter)))
  {
    var factors := config.factors;
    var attrs: Attributes := [];
    for i := 0 to |factors|
      invariant attrs == DBAttributes(factors[..i], filter)
    {
      var f := factors[i];
      assert factors[..i + 1][..i] == factors[..i];
      if |filter[f.name]| != |f.levels| {
        attrs := Put(attrs, f.name, AttrFilter(Some(filter[f.name]), None));
      }
    }
    assert factors[..|factors|] == factors;
    r := Filter(None, None, Some(attrs));
  }

  /** createDefaultFilter over the factors taken so far: each name selects
      all levels of the last factor of that name. */
  function DefaultFilter(factors: seq<Factor>): (filter: LevelFilter)
    ensures Covers(filter, factors)
  {
    if factors == [] then map[]
    else
      var f := factors[|factors| - 1];
      assert forall g :: g in factors ==> g in factors[..|factors| - 1] || g == f by {
        assert factors == factors[..|factors| - 1] + [f];
      }
      DefaultFilter(factors[..|factors| - 1])[f.name := f.levels]
  }

  predicate DistinctFactorNames(factors: seq<Factor>)
  {
    forall i, j :: 0 <= i < j < |factors| ==> factors[i].name != factors[j].name
  }

  /** The default filter has a key per factor name; with distinct names it
      selects every level of every factor. */
  lemma {:induction false} DefaultFilterSpec(factors: seq<Factor>)
    ensures DefaultFilter(factors).Keys == set f | f in factors :: f.name
    ensures DistinctFactorNames(factors) ==>
      forall f :: f in factors ==> DefaultFilter(factors)[f.name] == f.levels
  {
    if factors != [] {
      var init := factors[..|factors| - 1];
      var last := factors[|factors| - 1];
      assert factors == init + [last];
      DefaultFilterSpec(init);
      if DistinctFactorNames(factors) {
        assert DistinctFactorNames(init);
        forall f | f in factors
          ensures DefaultFilter(factors)[f.name] == f.levels
        {
          if f != last {
            var k :| 0 <= k < |factors| && factors[k] == f;
            assert k < |factors| - 1;
            assert f in init;
          }
        }
      }
    }
  }

  /** createDefaultFilter: a loop over the factors. */
  method CreateDefaultFilter(factors: seq<Factor>) returns (filter: LevelFilter)
    ensures filter == DefaultFilter(factors)
  {
    filter := map[];
    for i := 0 to |factors|
      invariant filter == DefaultFilter(factors[..i])
    {
      assert factors[..i + 1][..i] == factors[..i];
      filter := filter[factors[i].name := factors[i].levels];
    }
    assert factors[..|factors|] == factors;
  }

  /** With distinct factor names, the default filter selects everything, so
      the database filter derived from it constrains nothing. */
  lemma DefaultFilterUnconstrained(factors: seq<Factor>)
    requires DistinctFactorNames(factors)
    ensures Covers(DefaultFilter(factors), factors)
    ensures DBAttributes(factors, DefaultFilter(factors)) == []
  {
    DefaultFilterSpec(factors);
    var attrs := DBAttributes(factors, DefaultFilter(factors));
    if attrs != [] {
      var name := attrs[0].0;
      assert Keys(attrs)[0] == name;
      DBAttributesSpec(factors, DefaultFilter(factors), name);
    }
  }

  /** With a repeated factor name the default keeps the last factor's
      levels, so the first one of that name may still be constrained. */
  lemma DefaultFilterRepeatedName(a: string)
    ensures var factors := [Factor(a, ["x"], Nominal), Factor(a, ["x", "y"], Nominal)];
      DBAttributes(factors, DefaultFilter(factors)) != []
  {
    var factors := [Factor(a, ["x"], Nominal), Factor(a, ["x", "y"], Nominal)];
    DefaultFilterSpec(factors);
    assert DefaultFilter(factors)[a] == ["x", "y"];
    DBAttributesSpec(factors, DefaultFilter(factors), a);
    assert factors[0] in factors;
  }
}
