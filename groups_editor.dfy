/** The groups editor: the preset groupings (one group per level of a
    factor, coloured from a palette), the text shown for a group's filter,
    which preset the current groups are, and the preset a selection
    hands on. */
module GroupsEditor {
  import opened Common
  import opened Abstract

  /** A group of the editor: its filter and its colour; a palette index
      past the palette's end leaves the colour undefined (None). */
  datatype DashboardGroup = DashboardGroup(filter: Filter, color: Option<string>)

  /** d3's `schemeSet1`. */
  const Set1: seq<string> := ["#e41a1c", "#377eb8", "#4daf4a", "#984ea3", "#ff7f00", "#ffff33", "#a65628", "#f781bf", "#999999"]

  /** d3's `schemeCategory10`. */
  const Category10: seq<string> := ["#1f77b4", "#ff7f0e", "#2ca02c", "#d62728", "#9467bd", "#8c564b", "#e377c2", "#7f7f7f", "#bcbd22", "#17becf"]

  /** `kColorsSequential`: orange, green, blue. */
  const Sequential: seq<string> := [Category10[1], Category10[2], Category10[0]]

  /** `palette[index]`, undefined past the end. */
  function ColorAt(palette: seq<string>, index: nat): (c: Option<string>)
    ensures c.Some? <==> index < |palette|
    ensures c.Some? ==> c.value == palette[index]
  {
    if index < |palette| then Some(palette[index]) else None
  }

  /** The filter `{attributes: {attribute: {in: [value]}}}`. */
  function FacetFilter(attribute: string, value: string): Filter
  {
    Filter(None, None, Some([(attribute, AttrFilter(Some([value]), None))]))
  }

  /** `createFacets`: one group per value, in order, admitting just that
      value of the attribute, coloured by its index. */
  function CreateFacets(attribute: string, values: seq<string>, isSequential: bool): (r: seq<DashboardGroup>)
    ensures |r| == |values|
    ensures forall i :: 0 <= i < |values| ==>
      && r[i].filter.attributes.Some?
      && Lookup(r[i].filter.attributes.value, attribute) == Some(AttrFilter(Some([values[i]]), None))
      && Keys(r[i].filter.attributes.value) == [attribute]
      && r[i].filter.timeStart.None? && r[i].filter.timeEnd.None?
      && r[i].color == ColorAt(if isSequential then Sequential else Set1, i)
  {
    seq(|values|, i requires 0 <= i < |values| =>
      DashboardGroup(FacetFilter(attribute, values[i]), ColorAt(if isSequential then Sequential else Set1, i)))
  }

  /** Distinct values give distinct groups, and every group within the
      palette gets a colour of its own. */
  lemma FacetsDistinct(attribute: string, values: seq<string>, isSequential: bool, i: nat, j: nat)
    requires i < j < |values|
    ensures values[i] != values[j] ==> CreateFacets(attribute, values, isSequential)[i] != CreateFacets(attribute, values, isSequential)[j]
    ensures j < |if isSequential then Sequential else Set1| ==>
      CreateFacets(attribute, values, isSequential)[i].color != CreateFacets(attribute, values, isSequential)[j].color
  {
    var r := CreateFacets(attribute, values, isSequential);
    if values[i] != values[j] {
      assert Lookup(r[i].filter.attributes.value, attribute) != Lookup(r[j].filter.attributes.value, attribute);
    }
  }

  // ---------------------------------------------------------------------
  // filterToText

  /** The items of filterToText: "attr = v1,v2" for each attribute, in key
      order, that has an `in` list. */
  function TextItems(attrs: Attributes): seq<string>
  {
    if attrs == [] then []
    else
      var prev := TextItems(attrs[..|attrs| - 1]);
      var (name, f) := attrs[|attrs| - 1];
      if f.inList.Some? then prev + [name + " = " + Join(f.inList.value, ",")] else prev
  }

  /** An attribute without `in` adds no text; one with it adds its item at
      the end. */
  lemma TextItemsSnoc(attrs: Attributes, name: string, f: AttrFilter)
    ensures f.inList.None? ==> TextItems(attrs + [(name, f)]) == TextItems(attrs)
    ensures f.inList.Some? ==> TextItems(attrs + [(name, f)]) == TextItems(attrs) + [name + " = " + Join(f.inList.value, ",")]
  {
    assert (attrs + [(name, f)])[..|attrs|] == attrs;
  }

  /** Attributes with only `within` constraints contribute nothing. */
  lemma {:induction false} TextItemsWithinOnly(attrs: Attributes)
    requires forall k :: 0 <= k < |attrs| ==> attrs[k].1.inList.None?
    ensures TextItems(attrs) == []
  {
    if attrs != [] {
      TextItemsWithinOnly(attrs[..|attrs| - 1]);
    }
  }

  /** The items of a filter; none without attributes. */
  function FilterItems(filter: Filter): seq<string>
  {
    if filter.attributes.Some? then TextItems(filter.attributes.value) else []
  }

  /** filterToText's loop over the keys, then the join with "; ". */
  method FilterToText(filter: Filter) returns (text: string)
    ensures text == Join(FilterItems(filter), "; ")
  {
    var items: seq<string> := [];
    if filter.attributes.Some? {
      var attrs := filter.attributes.value;
      for k := 0 to |attrs|
        invariant items == TextItems(attrs[..k])
      {
        var (name, f) := attrs[k];
        TextItemsSnoc(attrs[..k], name, f);
        assert attrs[..k + 1] == attrs[..k] + [(name, f)];
        if f.inList.Some? {
          items := items + [name + " = " + Join(f.inList.value, ",")];
        }
      }
      assert attrs[..|attrs|] == attrs;
    }
    text := Join(items, "; ");
  }

  /** A facet's text names its attribute and value, and the "All" group's
      text is empty. */
  lemma FacetText(attribute: string, values: seq<string>, isSequential: bool, i: nat)
    requires i < |values|
    ensures Join(FilterItems(CreateFacets(attribute, values, isSequential)[i].filter), "; ") == attribute + " = " + values[i]
    ensures Join(FilterItems(Filter(None, None, None)), "; ") == ""
  {
    var attrs := [(attribute, AttrFilter(Some([values[i]]), None))];
    TextItemsSnoc([], attribute, AttrFilter(Some([values[i]]), None));
    assert [] + attrs == attrs;
  }

  // ---------------------------------------------------------------------
  // The presets

  datatype Preset = Preset(name: string, groups: seq<DashboardGroup>)

  /** `kOptions`. */
  function Presets(): (r: seq<Preset>)
    ensures |r| == 4
  {
    [ Preset("Veg", CreateFacets("veg", ["chap", "oak", "tgrass", "tgrass_irr"], false)),
      Preset("EIA", CreateFacets("EIA", ["low", "med", "high"], true)),
      Preset("TIA", CreateFacets("TIA", ["LOW", "MED", "HIGH"], true)),
      Preset("All", [DashboardGroup(Filter(None, None, None), Some("#000000"))]) ]
  }

  /** The name of the last of the first n presets whose groups equal the
      given ones (serialised alike), if any. */
  function LastMatch(options: seq<Preset>, groups: seq<DashboardGroup>, n: nat): Option<string>
    requires n <= |options|
  {
    if n == 0 then None
    else if options[n - 1].groups == groups then Some(options[n - 1].name)
    else LastMatch(options, groups, n - 1)
  }

  /** The current option is found exactly when some preset matches, and it
      is the name of the last matching one. */
  lemma {:induction false} LastMatchSpec(options: seq<Preset>, groups: seq<DashboardGroup>, n: nat)
    requires n <= |options|
    ensures LastMatch(options, groups, n).None? <==> forall i :: 0 <= i < n ==> options[i].groups != groups
    ensures LastMatch(options, groups, n).Some? ==> exists i ::
      && 0 <= i < n && options[i].groups == groups && options[i].name == LastMatch(options, groups, n).value
      && forall j :: i < j < n ==> options[j].groups != groups
  {
    if n > 0 && options[n - 1].groups != groups {
      LastMatchSpec(options, groups, n - 1);
    }
  }

  /** render's loop over the options: the last match wins. */
  method CurrentOption(options: seq<Preset>, groups: seq<DashboardGroup>) returns (current: Option<string>)
    ensures current == LastMatch(options, groups, |options|)
  {
    current := None;
    for k := 0 to |options|
      invariant current == LastMatch(options, groups, k)
    {
      if options[k].groups == groups {
        current := Some(options[k].name);
      }
    }
  }

  /** `kOptions.filter(x => x.name == name)`. */
  function Named(options: seq<Preset>, name: string): (r: seq<Preset>)
    ensures forall p :: p in r <==> p in options && p.name == name
    ensures |r| <= |options|
  {
    if options == [] then []
    else (if options[0].name == name then [options[0]] else []) + Named(options[1..], name)
  }

  /** The select's onChange: the groups handed on, only when exactly one
      preset carries the selected name. */
  function OnSelect(options: seq<Preset>, name: string): (r: Option<seq<DashboardGroup>>)
    ensures r.Some? <==> |Named(options, name)| == 1
    ensures r.Some? ==> exists i :: 0 <= i < |options| && options[i].name == name && options[i].groups == r.value
  {
    var opt := Named(options, name);
    if |opt| == 1 then
      assert opt[0] in opt;
      Some(opt[0].groups)
    else None
  }

  /** A name no preset carries changes nothing. */
  lemma OnSelectUnknown(options: seq<Preset>, name: string)
    requires forall i :: 0 <= i < |options| ==> options[i].name != name
    ensures OnSelect(options, name) == None
  {
    if |Named(options, name)| == 1 {
      assert Named(options, name)[0] in Named(options, name);
    }
  }

  /** A name carried by one preset only selects that preset. */
  lemma {:induction false} NamedUnique(options: seq<Preset>, i: nat)
    requires i < |options|
    requires forall j :: 0 <= j < |options| && j != i ==> options[j].name != options[i].name
    ensures Named(options, options[i].name) == [options[i]]
  {
    if i > 0 {
      NamedUnique(options[1..], i - 1);
    } else {
      NamedNone(options[1..], options[0].name);
    }
  }

  lemma {:induction false} NamedNone(options: seq<Preset>, name: string)
    requires forall j :: 0 <= j < |options| ==> options[j].name != name
    ensures Named(options, name) == []
  {
    if options != [] {
      NamedNone(options[1..], name);
    }
  }

  /** Groups no later preset repeats are recognised as their preset. */
  lemma {:induction false} LastMatchUnique(options: seq<Preset>, i: nat, n: nat)
    requires i < n <= |options|
    requires forall j :: i < j < n ==> options[j].groups != options[i].groups
    ensures LastMatch(options, options[i].groups, n) == Some(options[i].name)
  {
    if n - 1 != i {
      LastMatchUnique(options, i, n - 1);
    }
  }

  /** The presets carry distinct names and distinct groups. */
  lemma PresetsDistinct(i: nat, j: nat)
    requires i < j < |Presets()|
    ensures Presets()[i].name != Presets()[j].name
    ensures Presets()[i].groups != Presets()[j].groups
  {
    var ps := Presets();
    assert ps[0].name == "Veg" && ps[1].name == "EIA" && ps[2].name == "TIA" && ps[3].name == "All";
    assert |ps[0].groups| == 4 && |ps[1].groups| == 3 && |ps[2].groups| == 3 && |ps[3].groups| == 1;
    if i == 1 && j == 2 {
      // EIA and TIA differ in the attribute of their first group.
      assert Keys(ps[1].groups[0].filter.attributes.value) == ["EIA"];
      assert Keys(ps[2].groups[0].filter.attributes.value) == ["TIA"];
    }
  }

  /** Choosing a preset hands on its groups, and the editor then shows that
      same preset as current. */
  lemma PresetRoundTrip(i: nat)
    requires i < |Presets()|
    ensures OnSelect(Presets(), Presets()[i].name) == Some(Presets()[i].groups)
    ensures LastMatch(Presets(), Presets()[i].groups, |Presets()|) == Some(Presets()[i].name)
  {
    var ps := Presets();
    forall j | 0 <= j < |ps| && j != i
      ensures ps[j].name != ps[i].name && ps[j].groups != ps[i].groups
    {
      if j < i { PresetsDistinct(j, i); } else { PresetsDistinct(i, j); }
    }
    NamedUnique(ps, i);
    LastMatchUnique(ps, i, |ps|);
  }
}
