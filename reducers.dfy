/** The dashboard reducer: the copy-and-edit array helpers, the merge of
    a view with its updates, and the reducer that maps a state and an
    action to the next state. */
module Reducers {
  import opened Common
  import opened Abstract
  import opened DashState

  // ---------------------------------------------------------------------
  // Array helpers; each works on a fresh copy, so the input list is never
  // changed and the result is a new value

  /** arraySetAt. */
  function SetAt<T>(a: seq<T>, i: int, v: T): (r: seq<T>)
    requires 0 <= i < |a|
    ensures |r| == |a| && r[i] == v
    ensures forall k :: 0 <= k < |a| && k != i ==> r[k] == a[k]
  {
    a[i := v]
  }

  /** arrayRemoveAt, with `splice(i, 1)`'s reading of the index: one past
      the end or beyond removes nothing, a negative index counts from the
      end and is clamped to 0. */
  function RemoveAt<T>(a: seq<T>, i: int): (r: seq<T>)
    ensures 0 <= i < |a| ==>
      && |r| == |a| - 1
      && (forall k :: 0 <= k < i ==> r[k] == a[k])
      && (forall k :: i <= k < |r| ==> r[k] == a[k + 1])
    ensures i >= |a| ==> r == a
  {
    if i >= |a| || a == [] then a
    else
      var start := if i >= 0 then i else if |a| + i >= 0 then |a| + i else 0;
      a[..start] + a[start + 1..]
  }

  /** arrayMoveUp: swap with the previous element when there is one. */
  function MoveUp<T>(a: seq<T>, i: int): (r: seq<T>)
    ensures |r| == |a| && multiset(r) == multiset(a)
    ensures 1 <= i < |a| ==> r == a[i - 1 := a[i]][i := a[i - 1]]
    ensures !(1 <= i < |a|) ==> r == a
  {
    if 1 <= i < |a| then
      var r := a[i - 1 := a[i]][i := a[i - 1]];
      SwapMultiset(a, i - 1, i);
      r
    else a
  }

  /** arrayMoveDown: swap with the next element when there is one. */
  function MoveDown<T>(a: seq<T>, i: int): (r: seq<T>)
    ensures |r| == |a| && multiset(r) == multiset(a)
    ensures 0 <= i < |a| - 1 ==> r == a[i := a[i + 1]][i + 1 := a[i]]
    ensures !(0 <= i < |a| - 1) ==> r == a
  {
    if 0 <= i < |a| - 1 then
      var r := a[i := a[i + 1]][i + 1 := a[i]];
      SwapMultiset(a, i, i + 1);
      r
    else a
  }

  lemma SwapMultiset<T>(a: seq<T>, i: int, j: int)
    requires 0 <= i < j < |a|
    ensures multiset(a[i := a[j]][j := a[i]]) == multiset(a)
  {
    var b := a[i := a[j]];
    assert multiset(b) == multiset(a) - multiset{a[i]} + multiset{a[j]};
    assert b[j] == a[j];
    assert multiset(b[j := a[i]]) == multiset(b) - multiset{b[j]} + multiset{a[i]};
  }

  /** Moving an element up and then down again restores the list. */
  lemma MoveUpRoundTrip<T>(a: seq<T>, i: int)
    requires 1 <= i < |a|
    ensures MoveDown(MoveUp(a, i), i - 1) == a
  {
    var b := a[i - 1 := a[i]][i := a[i - 1]];
    assert MoveUp(a, i) == b;
    assert b[i - 1 := b[i]][i := b[i - 1]] == a;
  }

  /** Moving an element down and then up again restores the list. */
  lemma MoveDownRoundTrip<T>(a: seq<T>, i: int)
    requires 0 <= i < |a| - 1
    ensures MoveUp(MoveDown(a, i), i + 1) == a
  {
    var b := a[i := a[i + 1]][i + 1 := a[i]];
    assert MoveDown(a, i) == b;
    assert b[i := b[i + 1]][i + 1 := b[i]] == a;
  }

  /** arrayAppend. */
  function Append<T>(a: seq<T>, v: T): (r: seq<T>)
    ensures |r| == |a| + 1 && r[|a|] == v && r[..|a|] == a
  {
    a + [v]
  }

  // ---------------------------------------------------------------------
  // applyUpdates

  /** A partial visualization description: the fields it sets. */
  datatype ViewUpdate = ViewUpdate(id: Option<string>, fields: map<string, Value>)

  /** applyUpdates: `{...view, ...updates}`; the updates win. */
  function ApplyUpdates(v: View, u: ViewUpdate): (r: View)
    ensures r.id == if u.id.Some? then u.id.value else v.id
    ensures r.fields.Keys == v.fields.Keys + u.fields.Keys
    ensures forall k :: k in u.fields ==> r.fields[k] == u.fields[k]
    ensures forall k :: k in v.fields && k !in u.fields ==> r.fields[k] == v.fields[k]
  {
    View(if u.id.Some? then u.id.value else v.id, v.fields + u.fields)
  }

  /** Applying the same updates twice is applying them once. */
  lemma ApplyUpdatesIdempotent(v: View, u: ViewUpdate)
    ensures ApplyUpdates(ApplyUpdates(v, u), u) == ApplyUpdates(v, u)
  {
    var once := ApplyUpdates(v, u);
    assert once.fields + u.fields == once.fields;
  }

  // ---------------------------------------------------------------------
  // Searching

  /** `indexOf`: the first position of `x`, or -1. */
  function IndexIn<T(==)>(s: seq<T>, x: T): (k: int)
    ensures -1 <= k < |s|
    ensures k == -1 <==> x !in s
    ensures k >= 0 ==> s[k] == x && x !in s[..k]
  {
    if s == [] then -1
    else if s[0] == x then 0
    else
      var k := IndexIn(s[1..], x);
      assert x in s ==> s[0] == x || x in s[1..] by {
        if x in s {
          var j :| 0 <= j < |s| && s[j] == x;
          if j > 0 { assert s[1..][j - 1] == x; }
        }
      }
      if k == -1 then -1
      else
        assert s[..k + 1] == [s[0]] + s[1..][..k];
        k + 1
  }

  /** The position of the first view with the given id. */
  function FirstWithId(views: seq<View>, id: string): Option<nat>
  {
    if views == [] then None
    else if views[0].id == id then Some(0)
    else
      var r := FirstWithId(views[1..], id);
      if r.None? then None else Some(r.value + 1)
  }

  lemma {:induction false} FirstWithIdSpec(views: seq<View>, id: string)
    ensures FirstWithId(views, id).None? <==> forall k :: 0 <= k < |views| ==> views[k].id != id
    ensures FirstWithId(views, id).Some? ==>
      var i := FirstWithId(views, id).value;
      i < |views| && views[i].id == id && forall k :: 0 <= k < i ==> views[k].id != id
  {
    if views != [] {
      FirstWithIdSpec(views[1..], id);
      if views[0].id != id {
        forall k | 0 < k < |views|
          ensures views[k].id == views[1..][k - 1].id
        {
        }
      }
    }
  }

  /** The index search of the reducer: a loop that stops at the first
      view with the id. */
  method FindView(views: seq<View>, id: string) returns (found: Option<nat>)
    ensures found == FirstWithId(views, id)
  {
    found := None;
    var i := 0;
    while i < |views|
      invariant 0 <= i <= |views|
      invariant FirstWithId(views, id) == (var r := FirstWithId(views[i..], id); if r.None? then None else Some(r.value + i))
    {
      assert views[i..][1..] == views[i + 1..];
      if views[i].id == id {
        found := Some(i);
        break;
      }
      i := i + 1;
    }
    if i == |views| {
      assert views[i..] == [];
    }
  }

  // ---------------------------------------------------------------------
  // The reducer

  datatype Action =
    | SetOverviewGranularity(granularity: Granularity)
    | SetDetailTimeRange(range: (int, int))
    | SetDetailGranularity(granularity: Granularity)
    | SetCurrentTime(time: int)
    | SetAggregation(aggregation: Granularity)
    | SetGroupByWithFactor(factor: string)
    | SetFacetWithFactor(factor: string)
    | SetFilterValue(factor: string, level: string, enabled: bool)
    | RemoveVisualization(visualizationID: string)
    | AddVisualization(role: string, visualization: View)
    | UpdateVisualization(visualizationID: string, updates: ViewUpdate)
    | MoveVisualizationUp(visualizationID: string)
    | MoveVisualizationDown(visualizationID: string)
    | MoveVisualizationToOverview(visualizationID: string)
    | MoveVisualizationToDetail(visualizationID: string)
    | OtherAction(actionType: string)

  /** The first view with the id removed, moved or updated. */
  function EditFirst(views: seq<View>, id: string, action: Action): seq<View>
    requires action.RemoveVisualization? || action.UpdateVisualization?
      || action.MoveVisualizationUp? || action.MoveVisualizationDown?
  {
    FirstWithIdSpec(views, id);
    match FirstWithId(views, id)
    case None => views
    case Some(i) =>
      match action
      case RemoveVisualization(_) => RemoveAt(views, i)
      case UpdateVisualization(_, u) => SetAt(views, i, ApplyUpdates(views[i], u))
      case MoveVisualizationUp(_) => MoveUp(views, i)
      case MoveVisualizationDown(_) => MoveDown(views, i)
  }

  /** SetFilterValue on one factor's selected levels: enabling adds the
      level unless it is there, disabling removes its first occurrence. */
  function Toggle(levels: seq<string>, level: string, enabled: bool): seq<string>
  {
    if enabled then
      if IndexIn(levels, level) < 0 then Append(levels, level) else levels
    else
      var idx := IndexIn(levels, level);
      if idx >= 0 then RemoveAt(levels, idx) else levels
  }

  predicate ReducerDefined(state: DashboardState, action: Action)
  {
    action.SetFilterValue? ==> action.factor in state.filter
  }

  /** The next state. */
  function Reducer(state: DashboardState, action: Action): DashboardState
    requires ReducerDefined(state, action)
  {
    match action
    case SetOverviewGranularity(g) => state.(overviewGranularity := g)
    case SetDetailTimeRange(range) => state.(detailTimeStart := range.0, detailTimeEnd := range.1)
    case SetDetailGranularity(g) => state.(detailGranularity := g)
    case SetCurrentTime(t) => state.(currentTime := Some(t))
    case SetAggregation(g) => state.(aggregation := g)
    case SetGroupByWithFactor(name) =>
      var f := FactorNamed(state.config.factors, name);
      if f.Some? then
        var g := GroupsFromFactor(state.config.palettes, f.value);
        state.(groupsBy := g.groupsBy, groups := g.groups)
      else state.(groupsBy := [], groups := [ColorGroup([], Black)])
    case SetFacetWithFactor(name) =>
      var f := FactorNamed(state.config.factors, name);
      if f.Some? then state.(facetBy := Some(f.value.name), facetLevels := Some(f.value.levels))
      else state.(facetBy := None, facetLevels := None)
    case SetFilterValue(factor, level, enabled) =>
      state.(filter := state.filter[factor := Toggle(state.filter[factor], level, enabled)])
    case AddVisualization(role, v) =>
      var s1 := if role == "overview" then state.(overviewViews := Append(state.overviewViews, v)) else state;
      if role == "detail" then s1.(detailViews := Append(s1.detailViews, v)) else s1
    case RemoveVisualization(id) =>
      state.(overviewViews := EditFirst(state.overviewViews, id, action), detailViews := EditFirst(state.detailViews, id, action))
    case UpdateVisualization(id, _) =>
      state.(overviewViews := EditFirst(state.overviewViews, id, action), detailViews := EditFirst(state.detailViews, id, action))
    case MoveVisualizationUp(id) =>
      state.(overviewViews := EditFirst(state.overviewViews, id, action), detailViews := EditFirst(state.detailViews, id, action))
    case MoveVisualizationDown(id) =>
      state.(overviewViews := EditFirst(state.overviewViews, id, action), detailViews := EditFirst(state.detailViews, id, action))
    case MoveVisualizationToOverview(_) => state
    case MoveVisualizationToDetail(_) => state
    case OtherAction(_) => state
  }

  /** One view list under a view action: the reducer's search loop over
      the list and the helper applied at the index found. */
  method EditViews(views: seq<View>, action: Action) returns (r: seq<View>)
    requires action.RemoveVisualization? || action.UpdateVisualization?
      || action.MoveVisualizationUp? || action.MoveVisualizationDown?
    ensures r == EditFirst(views, action.visualizationID, action)
  {
    var found := FindView(views, action.visualizationID);
    FirstWithIdSpec(views, action.visualizationID);
    r := views;
    if found.Some? {
      var i := found.value;
      match action
      case RemoveVisualization(_) => r := RemoveAt(views, i);
      case UpdateVisualization(_, u) => r := SetAt(views, i, ApplyUpdates(views[i], u));
      case MoveVisualizationUp(_) => r := MoveUp(views, i);
      case MoveVisualizationDown(_) => r := MoveDown(views, i);
    }
  }

  /** The reducer: a copy of the state with the action's fields replaced. */
  method Reduce(state: DashboardState, action: Action) returns (newState: DashboardState)
    requires ReducerDefined(state, action)
    ensures newState == Reducer(state, action)
  {
    newState := state;
    match action {
      case SetOverviewGranularity(g) => newState := newState.(overviewGranularity := g);
      case SetDetailTimeRange(range) =>
        newState := newState.(detailTimeStart := range.0);
        newState := newState.(detailTimeEnd := range.1);
      case SetDetailGranularity(g) => newState := newState.(detailGranularity := g);
      case SetCurrentTime(t) => newState := newState.(currentTime := Some(t));
      case SetAggregation(g) => newState := newState.(aggregation := g);
      case SetGroupByWithFactor(name) =>
        var f := GetFactor(state.config, name);
        if f.Some? {
          var g := GroupsFromFactor(state.config.palettes, f.value);
          newState := newState.(groupsBy := g.groupsBy, groups := g.groups);
        } else {
          newState := newState.(groupsBy := [], groups := [ColorGroup([], Black)]);
        }
      case SetFacetWithFactor(name) =>
        var f := GetFactor(state.config, name);
        if f.Some? {
          newState := newState.(facetBy := Some(f.value.name), facetLevels := Some(f.value.levels));
        } else {
          newState := newState.(facetBy := None, facetLevels := None);
        }
      case SetFilterValue(factor, level, enabled) =>
        var levels := newState.filter[factor];
        if enabled {
          if IndexIn(levels, level) < 0 {
            levels := Append(levels, level);
          }
        } else {
          var idx := IndexIn(levels, level);
          if idx >= 0 {
            levels := RemoveAt(levels, idx);
          }
        }
        newState := newState.(filter := newState.filter[factor := levels]);
      case AddVisualization(role, v) =>
        if role == "overview" {
          newState := newState.(overviewViews := Append(newState.overviewViews, v));
        }
        if role == "detail" {
          newState := newState.(detailViews := Append(newState.detailViews, v));
        }
      case RemoveVisualization(_) =>
        var o := EditViews(newState.overviewViews, action);
        var d := EditViews(newState.detailViews, action);
        newState := newState.(overviewViews := o, detailViews := d);
      case UpdateVisualization(_, _) =>
        var o := EditViews(newState.overviewViews, action);
        var d := EditViews(newState.detailViews, action);
        newState := newState.(overviewViews := o, detailViews := d);
      case MoveVisualizationUp(_) =>
        var o := EditViews(newState.overviewViews, action);
        var d := EditViews(newState.detailViews, action);
        newState := newState.(overviewViews := o, detailViews := d);
      case MoveVisualizationDown(_) =>
        var o := EditViews(newState.overviewViews, action);
        var d := EditViews(newState.detailViews, action);
        newState := newState.(overviewViews := o, detailViews := d);
      case MoveVisualizationToOverview(_) =>
      case MoveVisualizationToDetail(_) =>
      case OtherAction(_) =>
    }
  }

  // ---------------------------------------------------------------------
  // Properties of the reducer

  predicate IsViewAction(action: Action)
  {
    action.RemoveVisualization? || action.AddVisualization? || action.UpdateVisualization?
      || action.MoveVisualizationUp? || action.MoveVisualizationDown?
  }

  /** A view action changes only the two view lists; every other action
      leaves both lists as they were. */
  lemma ReducerFrame(state: DashboardState, action: Action)
    requires ReducerDefined(state, action)
    ensures var r := Reducer(state, action);
      (IsViewAction(action) ==> r == state.(overviewViews := r.overviewViews, detailViews := r.detailViews))
      && (!IsViewAction(action) ==> r.overviewViews == state.overviewViews && r.detailViews == state.detailViews)
  {
  }

  /** The move actions the reducer has no case for leave the state as it is. */
  lemma ReducerUnhandled(state: DashboardState, id: string)
    ensures Reducer(state, MoveVisualizationToOverview(id)) == state
    ensures Reducer(state, MoveVisualizationToDetail(id)) == state
  {
  }

  /** Removing takes out the first view with the id from each list, and
      nothing else; a list without the id is unchanged. */
  lemma RemoveSpec(views: seq<View>, id: string)
    ensures var r := EditFirst(views, id, RemoveVisualization(id));
      match FirstWithId(views, id)
      case None => r == views
      case Some(i) => i < |views| && views[i].id == id && r == views[..i] + views[i + 1..]
  {
    FirstWithIdSpec(views, id);
    var r := EditFirst(views, id, RemoveVisualization(id));
    if FirstWithId(views, id).Some? {
      var i := FirstWithId(views, id).value;
      assert r == views[..i] + views[i + 1..];
    }
  }

  /** Updating merges the updates into the first view with the id and
      leaves every other view and the list's length as they were. */
  lemma UpdateSpec(views: seq<View>, id: string, u: ViewUpdate)
    ensures var r := EditFirst(views, id, UpdateVisualization(id, u));
      |r| == |views|
      && (FirstWithId(views, id).None? ==> r == views)
      && (FirstWithId(views, id).Some? ==>
        var i := FirstWithId(views, id).value;
        && i < |views| && r[i] == ApplyUpdates(views[i], u)
        && forall k :: 0 <= k < |views| && k != i ==> r[k] == views[k])
  {
    FirstWithIdSpec(views, id);
  }

  /** Moving a view up and then down restores the lists, provided the view
      is not already first in a list that holds it. */
  lemma MoveUpThenDown(state: DashboardState, id: string)
    requires forall i :: FirstWithId(state.overviewViews, id) == Some(i) ==> i >= 1
    requires forall i :: FirstWithId(state.detailViews, id) == Some(i) ==> i >= 1
    ensures Reducer(Reducer(state, MoveVisualizationUp(id)), MoveVisualizationDown(id)) == state
  {
    UpDownOneList(state.overviewViews, id);
    UpDownOneList(state.detailViews, id);
  }

  /** After moving the first view with the id up, it is found one place
      earlier. */
  lemma FirstAfterMoveUp(views: seq<View>, id: string, i: nat)
    requires FirstWithId(views, id) == Some(i) && i >= 1
    ensures i < |views| && FirstWithId(MoveUp(views, i), id) == Some(i - 1)
  {
    FirstWithIdSpec(views, id);
    var up := MoveUp(views, i);
    FirstWithIdSpec(up, id);
    assert up[i - 1].id == id;
    assert forall k :: 0 <= k < i - 1 ==> up[k] == views[k];
  }

  lemma UpDownOneList(views: seq<View>, id: string)
    requires forall i :: FirstWithId(views, id) == Some(i) ==> i >= 1
    ensures EditFirst(EditFirst(views, id, MoveVisualizationUp(id)), id, MoveVisualizationDown(id)) == views
  {
    var first := FirstWithId(views, id);
    if first.Some? {
      var i := first.value;
      FirstAfterMoveUp(views, id, i);
      assert EditFirst(views, id, MoveVisualizationUp(id)) == MoveUp(views, i);
      assert EditFirst(MoveUp(views, i), id, MoveVisualizationDown(id)) == MoveDown(MoveUp(views, i), i - 1);
      MoveUpRoundTrip(views, i);
    }
  }

  /** Moving a view keeps the set of views: each list is a permutation. */
  lemma MovesPermute(state: DashboardState, id: string)
    ensures var up := Reducer(state, MoveVisualizationUp(id));
      multiset(up.overviewViews) == multiset(state.overviewViews) && multiset(up.detailViews) == multiset(state.detailViews)
    ensures var down := Reducer(state, MoveVisualizationDown(id));
      multiset(down.overviewViews) == multiset(state.overviewViews) && multiset(down.detailViews) == multiset(state.detailViews)
  {
  }

  /** Enabling a level twice is enabling it once, and the level is then
      selected. */
  lemma EnableIdempotent(levels: seq<string>, level: string)
    ensures level in Toggle(levels, level, true)
    ensures Toggle(Toggle(levels, level, true), level, true) == Toggle(levels, level, true)
  {
  }

  /** Disabling removes one occurrence: a level selected once is then no
      longer selected, and the other levels keep their order. */
  lemma DisableRemovesOne(levels: seq<string>, level: string)
    requires level in levels
    ensures var r := Toggle(levels, level, false);
      |r| == |levels| - 1 && multiset(r) == multiset(levels) - multiset{level}
  {
    var k := IndexIn(levels, level);
    assert levels == levels[..k] + [level] + levels[k + 1..];
  }

  /** Enabling a level that was not selected and disabling it again
      restores the selection. */
  lemma EnableThenDisable(levels: seq<string>, level: string)
    requires level !in levels
    ensures Toggle(Toggle(levels, level, true), level, false) == levels
  {
    var once := levels + [level];
    assert IndexIn(once, level) == |levels| by {
      assert once[|levels|] == level && once[..|levels|] == levels;
    }
  }

  /** The filter action edits only the named factor's selection. */
  lemma FilterValueFrame(state: DashboardState, factor: string, level: string, enabled: bool)
    requires factor in state.filter
    ensures var r := Reducer(state, SetFilterValue(factor, level, enabled));
      r.filter.Keys == state.filter.Keys
      && (forall f :: f in state.filter && f != factor ==> r.filter[f] == state.filter[f])
      && r == state.(filter := r.filter)
  {
  }

  /** Grouping by a known factor follows groupsFromFactor; an unknown one
      leaves a single black group over no attribute. */
  lemma GroupBySpec(state: DashboardState, name: string)
    ensures var r := Reducer(state, SetGroupByWithFactor(name));
      (forall f :: f in state.config.factors ==> f.name != name) ==>
        r.groupsBy == [] && r.groups == [ColorGroup([], Black)]
    ensures var r := Reducer(state, SetGroupByWithFactor(name));
      (exists f :: f in state.config.factors && f.name == name) ==>
        r.groupsBy == [name] && |r.groups| == |FactorNamed(state.config.factors, name).value.levels|
  {
    FactorNamedSpec(state.config.factors, name);
  }
}
