/** A visualization panel of the dashboard: the facet filters, the test
    whether a facet level survives the global filter, the merge of several
    filters into one, the up/down buttons and the height switch. */
module Visualization {
  import opened Common
  import opened Abstract
  import opened DashState
  import opened Reducers

  // ---------------------------------------------------------------------
  // Facet filters

  /** getFacetFilter: admit one level of one attribute. */
  function FacetFilter(variable: string, level: string): Filter
  {
    Filter(None, None, Some([(variable, AttrFilter(Some([level]), None))]))
  }

  /** isInFilter: a level is out only when the filter has an `in` list for
      the factor and the level is not in it. */
  function IsInFilter(factor: string, level: string, filter: Option<Filter>): (b: bool)
    ensures !b <==>
      && filter.Some? && filter.value.attributes.Some?
      && Lookup(filter.value.attributes.value, factor).Some?
      && Lookup(filter.value.attributes.value, factor).value.inList.Some?
      && level !in Lookup(filter.value.attributes.value, factor).value.inList.value
  {
    if filter.Some? && filter.value.attributes.Some? then
      var af := Lookup(filter.value.attributes.value, factor);
      !(af.Some? && af.value.inList.Some? && IndexIn(af.value.inList.value, level) < 0)
    else true
  }

  /** A facet filter admits its own level of its attribute and no other,
      and says nothing about any other attribute. */
  lemma FacetFilterAdmits(variable: string, level: string, factor: string, x: string)
    ensures IsInFilter(variable, x, Some(FacetFilter(variable, level))) <==> x == level
    ensures factor != variable ==> IsInFilter(factor, x, Some(FacetFilter(variable, level)))
  {
    assert Keys([(variable, AttrFilter(Some([level]), None))]) == [variable];
  }

  /** The facet levels shown: those the global filter admits, in order. */
  function ValidFacetLevels(facetBy: string, levels: seq<string>, filter: Filter): (r: seq<string>)
    ensures forall x :: x in r <==> x in levels && IsInFilter(facetBy, x, Some(filter))
    ensures |r| <= |levels|
  {
    if levels == [] then []
    else
      var rest := ValidFacetLevels(facetBy, levels[1..], filter);
      assert forall x :: x in levels <==> x == levels[0] || x in levels[1..] by {
        assert levels == [levels[0]] + levels[1..];
      }
      if IsInFilter(facetBy, levels[0], Some(filter)) then [levels[0]] + rest else rest
  }

  /** Every level of the factor is shown when the global filter is the
      default one (see createDefaultFilter). */
  lemma DefaultShowsAllLevels(factors: seq<Factor>, facetBy: string, levels: seq<string>)
    requires DistinctFactorNames(factors)
    ensures var filter := Filter(None, None, Some(DBAttributes(factors, DefaultFilter(factors))));
      ValidFacetLevels(facetBy, levels, filter) == levels
  {
    DefaultFilterUnconstrained(factors);
    var filter := Filter(None, None, Some(DBAttributes(factors, DefaultFilter(factors))));
    AllAdmitted(facetBy, levels, filter);
  }

  lemma {:induction false} AllAdmitted(facetBy: string, levels: seq<string>, filter: Filter)
    requires filter.attributes == Some([])
    ensures ValidFacetLevels(facetBy, levels, filter) == levels
  {
    if levels != [] {
      AllAdmitted(facetBy, levels[1..], filter);
    }
  }

  // ---------------------------------------------------------------------
  // mergeFilter

  /** Every attribute constraint carries an `in` list; mergeFilter reads
      `.in` of every attribute it meets. */
  predicate AllIn(attrs: Attributes)
  {
    forall i :: 0 <= i < |attrs| ==> attrs[i].1.inList.Some?
  }

  lemma {:induction false} LookupAllIn(attrs: Attributes, name: string)
    requires AllIn(attrs)
    ensures Lookup(attrs, name).Some? ==> Lookup(attrs, name).value.inList.Some?
  {
    if attrs != [] && attrs[0].0 != name {
      assert AllIn(attrs[1..]) by {
        forall i | 0 <= i < |attrs[1..]| ensures attrs[1..][i].1.inList.Some? {
          assert attrs[1..][i] == attrs[i + 1];
        }
      }
      LookupAllIn(attrs[1..], name);
    }
  }

  lemma {:induction false} PutAllIn(attrs: Attributes, name: string, v: AttrFilter)
    requires AllIn(attrs) && v.inList.Some?
    ensures AllIn(Put(attrs, name, v))
  {
    if attrs != [] && attrs[0].0 != name {
      assert AllIn(attrs[1..]) by {
        forall i | 0 <= i < |attrs[1..]| ensures attrs[1..][i].1.inList.Some? {
          assert attrs[1..][i] == attrs[i + 1];
        }
      }
      PutAllIn(attrs[1..], name, v);
      var r := Put(attrs, name, v);
      assert r == [attrs[0]] + Put(attrs[1..], name, v);
    }
  }

  /** `xs.filter(x => ys.indexOf(x) >= 0)`. */
  function Keep(xs: seq<string>, ys: seq<string>): (r: seq<string>)
    ensures forall x :: x in r <==> x in xs && x in ys
  {
    if xs == [] then []
    else
      var rest := Keep(xs[1..], ys);
      assert forall x :: x in xs <==> x == xs[0] || x in xs[1..] by {
        assert xs == [xs[0]] + xs[1..];
      }
      if IndexIn(ys, xs[0]) >= 0 then [xs[0]] + rest else rest
  }

  /** One attribute of one filter merged into the result: intersect with
      the `in` list already there, or copy the list. */
  function MergeOne(result: Attributes, name: string, values: seq<string>): (r: Attributes)
    requires AllIn(result)
    ensures AllIn(r)
  {
    LookupAllIn(result, name);
    var cur := Lookup(result, name);
    var merged := if cur.Some? then Keep(cur.value.inList.value, values) else values;
    PutAllIn(result, name, AttrFilter(Some(merged), None));
    Put(result, name, AttrFilter(Some(merged), None))
  }

  /** The attributes of one filter merged into the result, key by key. */
  function MergeAttrs(result: Attributes, attrs: Attributes): (r: Attributes)
    requires AllIn(result) && AllIn(attrs)
    ensures AllIn(r)
  {
    if attrs == [] then result
    else
      var n := |attrs| - 1;
      assert AllIn(attrs[..n]) by {
        forall i | 0 <= i < n ensures attrs[..n][i].1.inList.Some? {
          assert attrs[..n][i] == attrs[i];
        }
      }
      MergeOne(MergeAttrs(result, attrs[..n]), attrs[n].0, attrs[n].1.inList.value)
  }

  /** The `in` list of an attribute, when the attributes carry one. */
  function InList(attrs: Attributes, name: string): seq<string>
    requires AllIn(attrs) && Lookup(attrs, name).Some?
  {
    LookupAllIn(attrs, name);
    Lookup(attrs, name).value.inList.value
  }

  /** Merging one attribute: only that attribute changes; it is then
      present, and a value is in its list exactly when it was in the list
      before (if there was one) and in the new list. */
  lemma MergeOneSpec(result: Attributes, key: string, values: seq<string>, name: string, x: string)
    requires AllIn(result)
    ensures var m := MergeOne(result, key, values);
      && (key != name ==> Lookup(m, name) == Lookup(result, name))
      && (key == name ==>
        && Lookup(m, name).Some?
        && (x in InList(m, name) <==> (Lookup(result, name).Some? ==> x in InList(result, name)) && x in values))
  {
    LookupAllIn(result, name);
  }

  /** Some pair of the attributes has the name. */
  predicate Names(attrs: Attributes, name: string)
  {
    exists j :: 0 <= j < |attrs| && attrs[j].0 == name
  }

  /** Every list the attributes give the name holds the value. */
  predicate InEvery(attrs: Attributes, name: string, x: string)
    requires AllIn(attrs)
  {
    forall j :: 0 <= j < |attrs| && attrs[j].0 == name ==> x in attrs[j].1.inList.value
  }

  lemma NamesSnoc(attrs: Attributes, name: string, x: string)
    requires AllIn(attrs) && |attrs| > 0
    ensures AllIn(attrs[..|attrs| - 1])
    ensures Names(attrs, name) <==> Names(attrs[..|attrs| - 1], name) || attrs[|attrs| - 1].0 == name
    ensures InEvery(attrs, name, x) <==>
      InEvery(attrs[..|attrs| - 1], name, x) && (attrs[|attrs| - 1].0 == name ==> x in attrs[|attrs| - 1].1.inList.value)
  {
    var n := |attrs| - 1;
    assert forall j :: 0 <= j < n ==> attrs[..n][j] == attrs[j];
  }

  /** After the merge an attribute is present when it was before or the
      filter names it, and a value is in its list exactly when it was in
      the list before (if there was one) and in every list the filter
      gives the attribute. */
  lemma {:induction false} MergeAttrsSpec(result: Attributes, attrs: Attributes, name: string, x: string)
    requires AllIn(result) && AllIn(attrs)
    ensures var m := MergeAttrs(result, attrs);
      && (Lookup(m, name).Some? <==> Lookup(result, name).Some? || Names(attrs, name))
      && (Lookup(m, name).Some? ==>
        (x in InList(m, name) <==>
          (Lookup(result, name).Some? ==> x in InList(result, name)) && InEvery(attrs, name, x)))
  {
    if attrs != [] {
      var n := |attrs| - 1;
      NamesSnoc(attrs, name, x);
      MergeAttrsSpec(result, attrs[..n], name, x);
      var before := MergeAttrs(result, attrs[..n]);
      MergeOneSpec(before, attrs[n].0, attrs[n].1.inList.value, name, x);
    }
  }

  /** The given time starts, in order. */
  function Starts(filters: seq<Filter>): (r: seq<int>)
    ensures forall t :: t in r <==> exists i :: 0 <= i < |filters| && filters[i].timeStart == Some(t)
  {
    if filters == [] then []
    else
      var n := |filters| - 1;
      var rest := Starts(filters[..n]);
      assert forall i :: 0 <= i < n ==> filters[..n][i] == filters[i];
      if filters[n].timeStart.Some? then rest + [filters[n].timeStart.value] else rest
  }

  /** The given time ends, in order. */
  function Ends(filters: seq<Filter>): (r: seq<int>)
    ensures forall t :: t in r <==> exists i :: 0 <= i < |filters| && filters[i].timeEnd == Some(t)
  {
    if filters == [] then []
    else
      var n := |filters| - 1;
      var rest := Ends(filters[..n]);
      assert forall i :: 0 <= i < n ==> filters[..n][i] == filters[i];
      if filters[n].timeEnd.Some? then rest + [filters[n].timeEnd.value] else rest
  }

  /** `Math.max(...s)`. */
  function MaxOf(s: seq<int>): (m: int)
    requires |s| > 0
    ensures m in s && forall t :: t in s ==> t <= m
  {
    if |s| == 1 then s[0]
    else
      var m := MaxOf(s[1..]);
      assert forall t :: t in s ==> t == s[0] || t in s[1..] by {
        assert s == [s[0]] + s[1..];
      }
      if s[0] > m then s[0] else m
  }

  /** `Math.min(...s)`. */
  function MinOf(s: seq<int>): (m: int)
    requires |s| > 0
    ensures m in s && forall t :: t in s ==> m <= t
  {
    if |s| == 1 then s[0]
    else
      var m := MinOf(s[1..]);
      assert forall t :: t in s ==> t == s[0] || t in s[1..] by {
        assert s == [s[0]] + s[1..];
      }
      if s[0] < m then s[0] else m
  }

  /** Every `in` list a filter carries. */
  predicate FiltersAllIn(filters: seq<Filter>)
  {
    forall i :: 0 <= i < |filters| && filters[i].attributes.Some? ==> AllIn(filters[i].attributes.value)
  }

  /** The attributes of mergeFilter after the filters taken so far. */
  function MergedAttrs(filters: seq<Filter>): (r: Attributes)
    requires FiltersAllIn(filters)
    ensures AllIn(r)
  {
    if filters == [] then []
    else
      var n := |filters| - 1;
      assert FiltersAllIn(filters[..n]) by {
        assert forall i :: 0 <= i < n ==> filters[..n][i] == filters[i];
      }
      var before := MergedAttrs(filters[..n]);
      if filters[n].attributes.Some? then MergeAttrs(before, filters[n].attributes.value) else before
  }

  /** mergeFilter as written: the latest start and the latest end. */
  function MergedAsWritten(filters: seq<Filter>): Filter
    requires FiltersAllIn(filters)
  {
    var starts := Starts(filters);
    var ends := Ends(filters);
    Filter(if |starts| > 0 then Some(MaxOf(starts)) else None,
           if |ends| > 0 then Some(MaxOf(ends)) else None,
           Some(MergedAttrs(filters)))
  }

  /** mergeFilter as intended: the latest start and the earliest end, so
      that the time window is the intersection of the windows. */
  function Merged(filters: seq<Filter>): Filter
    requires FiltersAllIn(filters)
  {
    var starts := Starts(filters);
    var ends := Ends(filters);
    Filter(if |starts| > 0 then Some(MaxOf(starts)) else None,
           if |ends| > 0 then Some(MinOf(ends)) else None,
           Some(MergedAttrs(filters)))
  }

  /** The inner loop of mergeFilter: one filter's attributes, key by key. */
  method MergeInto(attrs: Attributes, fa: Attributes) returns (r: Attributes)
    requires AllIn(attrs) && AllIn(fa)
    ensures r == MergeAttrs(attrs, fa)
  {
    r := attrs;
    for j := 0 to |fa|
      invariant AllIn(fa[..j])
      invariant r == MergeAttrs(attrs, fa[..j])
    {
      assert fa[..j + 1][..j] == fa[..j];
      r := MergeOne(r, fa[j].0, fa[j].1.inList.value);
    }
    assert fa[..|fa|] == fa;
  }

  /** mergeFilter: the loop over the filters and, inside it, over each
      filter's attribute keys. */
  method MergeFilter(filters: seq<Filter>) returns (r: Filter)
    requires FiltersAllIn(filters)
    ensures r == MergedAsWritten(filters)
  {
    var attrs: Attributes := [];
    var tStarts: seq<int> := [];
    var tEnds: seq<int> := [];
    for i := 0 to |filters|
      invariant FiltersAllIn(filters[..i])
      invariant tStarts == Starts(filters[..i]) && tEnds == Ends(filters[..i])
      invariant attrs == MergedAttrs(filters[..i])
    {
      assert filters[..i + 1][..i] == filters[..i];
      var filter := filters[i];
      if filter.timeStart.Some? {
        tStarts := tStarts + [filter.timeStart.value];
      }
      if filter.timeEnd.Some? {
        tEnds := tEnds + [filter.timeEnd.value];
      }
      if filter.attributes.Some? {
        attrs := MergeInto(attrs, filter.attributes.value);
      }
    }
    assert filters[..|filters|] == filters;
    r := Filter(if |tStarts| > 0 then Some(MaxOf(tStarts)) else None,
                if |tEnds| > 0 then Some(MaxOf(tEnds)) else None,
                Some(attrs));
  }

  /** JavaScript objects never repeat a key. */
  predicate DistinctKeys(attrs: Attributes)
  {
    forall i, j :: 0 <= i < j < |attrs| ==> attrs[i].0 != attrs[j].0
  }

  lemma {:induction false} LookupDistinct(attrs: Attributes, j: int)
    requires DistinctKeys(attrs) && 0 <= j < |attrs|
    ensures Lookup(attrs, attrs[j].0) == Some(attrs[j].1)
  {
    if j > 0 {
      assert DistinctKeys(attrs[1..]) by {
        forall a, b | 0 <= a < b < |attrs[1..]| ensures attrs[1..][a].0 != attrs[1..][b].0 {
          assert attrs[1..][a] == attrs[a + 1] && attrs[1..][b] == attrs[b + 1];
        }
      }
      LookupDistinct(attrs[1..], j - 1);
    }
  }

  /** Within one filter with distinct keys, the lists the merge meets for a
      name are exactly its one `in` list. */
  lemma OneListPerName(attrs: Attributes, name: string, x: string)
    requires AllIn(attrs) && DistinctKeys(attrs)
    ensures (exists j :: 0 <= j < |attrs| && attrs[j].0 == name) <==> Lookup(attrs, name).Some?
    ensures Lookup(attrs, name).Some? ==>
      ((forall j :: 0 <= j < |attrs| && attrs[j].0 == name ==> x in attrs[j].1.inList.value) <==> x in InList(attrs, name))
  {
    if exists j :: 0 <= j < |attrs| && attrs[j].0 == name {
      var j :| 0 <= j < |attrs| && attrs[j].0 == name;
      LookupDistinct(attrs, j);
    }
    if Lookup(attrs, name).Some? {
      assert name in Keys(attrs);
      var j :| 0 <= j < |attrs| && Keys(attrs)[j] == name;
      LookupDistinct(attrs, j);
    }
  }

  /** The merged filter admits a level of an attribute exactly when every
      filter does: the merge is the intersection of the attribute filters. */
  lemma {:induction false} MergedAdmits(filters: seq<Filter>, name: string, x: string)
    requires FiltersAllIn(filters)
    requires forall i :: 0 <= i < |filters| && filters[i].attributes.Some? ==> DistinctKeys(filters[i].attributes.value)
    ensures IsInFilter(name, x, Some(Filter(None, None, Some(MergedAttrs(filters))))) <==>
      forall i :: 0 <= i < |filters| ==> IsInFilter(name, x, Some(filters[i]))
  {
    if filters != [] {
      var n := |filters| - 1;
      assert forall i :: 0 <= i < n ==> filters[..n][i] == filters[i];
      MergedAdmits(filters[..n], name, x);
      var before := MergedAttrs(filters[..n]);
      LookupAllIn(before, name);
      if filters[n].attributes.Some? {
        var fa := filters[n].attributes.value;
        MergeAttrsSpec(before, fa, name, x);
        OneListPerName(fa, name, x);
        LookupAllIn(fa, name);
        LookupAllIn(MergedAttrs(filters), name);
      }
    }
  }

  /** The time window a filter admits; both ends are inclusive. */
  predicate AdmitsTime(f: Filter, t: int)
  {
    (f.timeStart.None? || f.timeStart.value <= t) && (f.timeEnd.None? || t <= f.timeEnd.value)
  }

  /** The corrected merge admits a time exactly when every filter does. */
  lemma MergedTimeWindow(filters: seq<Filter>, t: int)
    requires FiltersAllIn(filters)
    ensures AdmitsTime(Merged(filters), t) <==> forall i :: 0 <= i < |filters| ==> AdmitsTime(filters[i], t)
  {
    var starts := Starts(filters);
    var ends := Ends(filters);
    if forall i :: 0 <= i < |filters| ==> AdmitsTime(filters[i], t) {
      if |starts| > 0 { assert MaxOf(starts) in starts; }
      if |ends| > 0 { assert MinOf(ends) in ends; }
    }
    if AdmitsTime(Merged(filters), t) {
      forall i | 0 <= i < |filters| ensures AdmitsTime(filters[i], t) {
        if filters[i].timeStart.Some? { assert filters[i].timeStart.value in starts; }
        if filters[i].timeEnd.Some? { assert filters[i].timeEnd.value in ends; }
      }
    }
  }

  /** As written, the merged window can admit a time one of the filters
      excludes: the later of two ends wins. */
  lemma MergedAsWrittenWidens()
    ensures var filters := [Filter(None, Some(100), None), Filter(None, Some(200), None)];
      && AdmitsTime(MergedAsWritten(filters), 150)
      && !AdmitsTime(filters[0], 150)
  {
    var filters := [Filter(None, Some(100), None), Filter(None, Some(200), None)];
    assert Ends(filters[..1]) == [100];
    assert Ends(filters) == [100, 200];
  }

  /** Without end times the two merges agree; the panels only merge a facet
      filter with the global filter, and neither has an end time. */
  lemma MergeVersionsAgree(filters: seq<Filter>)
    requires FiltersAllIn(filters)
    requires forall i :: 0 <= i < |filters| ==> filters[i].timeEnd.None?
    ensures MergedAsWritten(filters) == Merged(filters)
  {
    assert |Ends(filters)| == 0 by {
      if |Ends(filters)| > 0 {
        assert Ends(filters)[0] in Ends(filters);
      }
    }
  }

  /** The filter of a facet panel: the facet level merged with the global
      filter, or the global filter alone when there is no facet. */
  function PanelFilter(facetBy: string, facetLevel: Option<string>, dbFilter: Filter): Filter
    requires dbFilter.attributes.Some? ==> AllIn(dbFilter.attributes.value)
  {
    if facetLevel.None? then dbFilter
    else
      var filters := [FacetFilter(facetBy, facetLevel.value), dbFilter];
      assert FiltersAllIn(filters);
      MergedAsWritten(filters)
  }

  /** A facet panel shows exactly its level, when the global filter admits it. */
  lemma PanelFilterAdmits(facetBy: string, level: string, dbFilter: Filter, x: string)
    requires dbFilter.attributes.Some? ==> AllIn(dbFilter.attributes.value) && DistinctKeys(dbFilter.attributes.value)
    ensures IsInFilter(facetBy, x, Some(PanelFilter(facetBy, Some(level), dbFilter))) <==>
      x == level && IsInFilter(facetBy, level, Some(dbFilter))
    ensures dbFilter.timeEnd.None? ==>
      PanelFilter(facetBy, Some(level), dbFilter) == Merged([FacetFilter(facetBy, level), dbFilter])
  {
    var filters := [FacetFilter(facetBy, level), dbFilter];
    assert FiltersAllIn(filters);
    assert MergedAsWritten(filters).attributes == Merged(filters).attributes;
    if dbFilter.timeEnd.None? {
      MergeVersionsAgree(filters);
    }
    MergedAdmits(filters, facetBy, x);
    FacetFilterAdmits(facetBy, level, facetBy, x);
  }

  // ---------------------------------------------------------------------
  // Toolbar

  /** The list of the panel's role. */
  function RoleViews(state: DashboardState, role: string): seq<View>
  {
    if role == "overview" then state.overviewViews else state.detailViews
  }

  /** canUp: the view is not the first of its list. */
  function CanUp(views: seq<View>, v: View): bool
  {
    IndexIn(views, v) != 0
  }

  /** canDown: the view is not the last of its list. */
  function CanDown(views: seq<View>, v: View): bool
  {
    IndexIn(views, v) != |views| - 1
  }

  predicate UniqueIds(views: seq<View>)
  {
    forall i, j :: 0 <= i < j < |views| ==> views[i].id != views[j].id
  }

  /** For a view of the list, the up button is disabled exactly when the
      view is first, and (the ids being unique) the down button exactly
      when it is last. */
  lemma CanUpDownSpec(views: seq<View>, v: View)
    requires v in views
    ensures !CanUp(views, v) <==> views[0] == v
    ensures UniqueIds(views) ==> (!CanDown(views, v) <==> views[|views| - 1] == v)
  {
    var k := IndexIn(views, v);

  }

  /** With unique ids, the up button is enabled exactly when the reducer's
      move-up action changes the list, and likewise for down. */
  lemma ButtonsMatchReducer(views: seq<View>, v: View)
    requires v in views && UniqueIds(views)
    ensures CanUp(views, v) <==> EditFirst(views, v.id, MoveVisualizationUp(v.id)) != views
    ensures CanDown(views, v) <==> EditFirst(views, v.id, MoveVisualizationDown(v.id)) != views
  {
    var k := IndexIn(views, v);
    FirstWithIdSpec(views, v.id);
    var i := FirstWithId(views, v.id).value;
    assert i == k;
    if k >= 1 {
      assert MoveUp(views, k)[k - 1] == v;
      assert views[k - 1] != v by { assert views[k - 1].id != views[k].id; }
    }
    if k < |views| - 1 {
      assert MoveDown(views, k)[k + 1] == v;
      assert views[k + 1] != v by { assert views[k + 1].id != views[k].id; }
    }
  }

  // ---------------------------------------------------------------------
  // HeightButtons

  /** The switch is on when the height is above the first step. */
  function Expanded(value: real, steps: seq<real>): bool
    requires |steps| >= 2
  {
    value > steps[0]
  }

  /** The height the switch reports when toggled. */
  function ToggledHeight(checked: bool, steps: seq<real>): real
    requires |steps| >= 2
  {
    if checked then steps[1] else steps[0]
  }

  /** With increasing steps, the switch shows what it was last set to. */
  lemma HeightSwitchRoundTrip(checked: bool, steps: seq<real>)
    requires |steps| >= 2 && steps[0] < steps[1]
    ensures Expanded(ToggledHeight(checked, steps), steps) == checked
  {
  }
}
