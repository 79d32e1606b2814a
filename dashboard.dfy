/** The dashboard page: the list of numeric variables offered in the
    selectors, the two editable lists of timelines (overview and detail),
    and the axis auto-scaling of one timeline from the daily statistics of
    its variable. */
module Dashboard {
  import opened Common
  import opened Abstract

  // ---------------------------------------------------------------------
  // The variable list: numeric variables sorted by name

  /** The variables of type "number", in their original order. */
  function Numeric(list: seq<Variable>): seq<Variable>
  {
    if list == [] then []
    else if list[0].vtype == NumberType then [list[0]] + Numeric(list[1..])
    else Numeric(list[1..])
  }

  lemma {:induction false} NumericSpec(list: seq<Variable>)
    ensures forall v :: v in Numeric(list) <==> v in list && v.vtype == NumberType
    ensures forall v :: multiset(Numeric(list))[v] == if v.vtype == NumberType then multiset(list)[v] else 0
  {
    if list != [] {
      NumericSpec(list[1..]);
      assert list == [list[0]] + list[1..];
    }
  }

  /** Ascending by name: no variable's name is below an earlier one's. */
  predicate SortedByName(s: seq<Variable>)
  {
    forall i, j :: 0 <= i < j < |s| ==> !LexLess(s[j].name, s[i].name)
  }

  /** Insert `v` before the first element whose name is not below its own. */
  function Insert(v: Variable, s: seq<Variable>): seq<Variable>
  {
    if s == [] || !LexLess(s[0].name, v.name) then [v] + s
    else [s[0]] + Insert(v, s[1..])
  }

  /** `!LexLess` is the order "at or above"; it is transitive. */
  lemma NotBelowTransitive(a: string, b: string, c: string)
    requires !LexLess(a, b) && !LexLess(b, c)
    ensures !LexLess(a, c)
  {
    LexLessTotal(a, b);
    LexLessTotal(b, c);
    if LexLess(a, c) {
      if a != b {
        LexLessTransitive(b, a, c);
        if b != c {
          LexLessTransitive(c, b, c);
          LexLessIrreflexive(c);
        } else {
          LexLessIrreflexive(c);
        }
      } else if b != c {
        LexLessTransitive(c, b, c);
        LexLessIrreflexive(c);
      }
    }
  }

  /** A sorted list stays sorted under a head no name in it is below. */
  lemma ConsSorted(x: Variable, s: seq<Variable>)
    requires SortedByName(s)
    requires forall y :: y in s ==> !LexLess(y.name, x.name)
    ensures SortedByName([x] + s)
  {
    var r := [x] + s;
    forall i, j | 0 <= i < j < |r|
      ensures !LexLess(r[j].name, r[i].name)
    {
      if i == 0 {
        assert r[j] == s[j - 1] && r[j] in s;
      } else {
        assert r[i] == s[i - 1] && r[j] == s[j - 1];
      }
    }
  }

  lemma {:induction false} InsertMultiset(v: Variable, s: seq<Variable>)
    ensures multiset(Insert(v, s)) == multiset(s) + multiset{v}
  {
    if s != [] && LexLess(s[0].name, v.name) {
      InsertMultiset(v, s[1..]);
      assert s == [s[0]] + s[1..];
    }
  }

  lemma {:induction false} InsertSorted(v: Variable, s: seq<Variable>)
    requires SortedByName(s)
    ensures SortedByName(Insert(v, s))
  {
    if s == [] || !LexLess(s[0].name, v.name) {
      forall y | y in s
        ensures !LexLess(y.name, v.name)
      {
        var k :| 0 <= k < |s| && s[k] == y;
        if k > 0 {
          NotBelowTransitive(y.name, s[0].name, v.name);
        }
      }
      ConsSorted(v, s);
    } else {
      InsertSorted(v, s[1..]);
      InsertMultiset(v, s[1..]);
      var rest := Insert(v, s[1..]);
      forall y | y in rest
        ensures !LexLess(y.name, s[0].name)
      {
        assert y in multiset(rest);
        if y == v {
          if LexLess(v.name, s[0].name) {
            LexLessTransitive(s[0].name, v.name, s[0].name);
            LexLessIrreflexive(s[0].name);
          }
        } else {
          assert y in multiset(s[1..]);
          var k :| 0 <= k < |s[1..]| && s[1..][k] == y;
          assert s[k + 1] == y;
        }
      }
      ConsSorted(s[0], rest);
    }
  }

  /** An insertion sort by name, stable for equal names. */
  function SortByName(s: seq<Variable>): seq<Variable>
  {
    if s == [] then [] else Insert(s[0], SortByName(s[1..]))
  }

  lemma {:induction false} SortByNameSpec(s: seq<Variable>)
    ensures SortedByName(SortByName(s))
    ensures multiset(SortByName(s)) == multiset(s)
  {
    if s != [] {
      SortByNameSpec(s[1..]);
      InsertSorted(s[0], SortByName(s[1..]));
      InsertMultiset(s[0], SortByName(s[1..]));
      assert s == [s[0]] + s[1..];
    }
  }

  /** updateVariableList: the numeric variables, sorted by name. */
  function VariableList(list: seq<Variable>): seq<Variable>
  {
    SortByName(Numeric(list))
  }

  /** The offered list is sorted by name, holds exactly the numeric
      variables of the table, and each as often as the table lists it. */
  lemma VariableListSpec(list: seq<Variable>)
    ensures SortedByName(VariableList(list))
    ensures forall v :: v in VariableList(list) <==> v in list && v.vtype == NumberType
    ensures forall v :: multiset(VariableList(list))[v] == if v.vtype == NumberType then multiset(list)[v] else 0
  {
    NumericSpec(list);
    SortByNameSpec(Numeric(list));
    forall v
      ensures v in VariableList(list) <==> v in list && v.vtype == NumberType
    {
      assert v in VariableList(list) <==> v in multiset(VariableList(list));
      assert v in Numeric(list) <==> v in multiset(Numeric(list));
    }
  }

  predicate DistinctNames(s: seq<Variable>)
  {
    forall i, j :: 0 <= i < j < |s| ==> s[i].name != s[j].name
  }

  /** Two sorted orderings of the same variables start with the same one
      when the names are distinct. */
  lemma SameHead(a: seq<Variable>, b: seq<Variable>)
    requires |a| > 0 && |b| > 0
    requires SortedByName(a) && SortedByName(b) && DistinctNames(a)
    requires a[0] in b && b[0] in a
    ensures a[0] == b[0]
  {
    var j :| 0 <= j < |b| && b[j] == a[0];
    var i :| 0 <= i < |a| && a[i] == b[0];
    if a[0] != b[0] {
      assert !LexLess(a[0].name, b[0].name) by { assert !LexLess(b[j].name, b[0].name); }
      assert !LexLess(b[0].name, a[0].name) by { assert !LexLess(a[i].name, a[0].name); }
      assert 0 < i && a[0].name != a[i].name;
      LexLessTotal(a[0].name, b[0].name);
    }
  }

  lemma SortedTail(a: seq<Variable>)
    requires |a| > 0 && SortedByName(a) && DistinctNames(a)
    ensures SortedByName(a[1..]) && DistinctNames(a[1..])
  {
    forall i, j | 0 <= i < j < |a| - 1
      ensures !LexLess(a[1..][j].name, a[1..][i].name) && a[1..][i].name != a[1..][j].name
    {
      assert a[1..][i] == a[i + 1] && a[1..][j] == a[j + 1];
    }
  }

  lemma SortedTailOnly(a: seq<Variable>)
    requires |a| > 0 && SortedByName(a)
    ensures SortedByName(a[1..])
  {
    forall i, j | 0 <= i < j < |a| - 1
      ensures !LexLess(a[1..][j].name, a[1..][i].name)
    {
      assert a[1..][i] == a[i + 1] && a[1..][j] == a[j + 1];
    }
  }

  lemma TailMultiset(a: seq<Variable>, b: seq<Variable>)
    requires |a| > 0 && |b| > 0 && a[0] == b[0] && multiset(a) == multiset(b)
    ensures multiset(a[1..]) == multiset(b[1..])
  {
    assert a == [a[0]] + a[1..] && b == [b[0]] + b[1..];
    assert multiset(a) == multiset{a[0]} + multiset(a[1..]);
    assert multiset(b) == multiset{b[0]} + multiset(b[1..]);
    assert multiset(a[1..]) == multiset(a) - multiset{a[0]};
  }

  /** With distinct names there is only one ordering sorted by name, so the
      order the page shows does not depend on the sort algorithm. */
  lemma {:induction false} SortedUnique(a: seq<Variable>, b: seq<Variable>)
    requires SortedByName(a) && SortedByName(b) && DistinctNames(a)
    requires multiset(a) == multiset(b)
    ensures a == b
  {
    if a == [] {
      assert |b| == |multiset(b)| == 0;
    } else {
      assert |b| == |multiset(b)| == |a|;
      assert a[0] in multiset(b) && b[0] in multiset(a);
      SameHead(a, b);
      TailMultiset(a, b);
      SortedTail(a);
      SortedTailOnly(b);
      SortedUnique(a[1..], b[1..]);
    }
  }

  // ---------------------------------------------------------------------
  // The timeline lists of the dashboard

  datatype Section = Overview | Detail

  /** The Dashboard component's state; the handlers of the variable
      selectors and delete buttons edit the timeline lists in place. */
  class DashboardPage {
    var variableList: seq<Variable>
    var overviewVariables: seq<string>
    var overviewGranularity: Granularity
    var detailVariables: seq<string>
    var detailGranularity: Granularity

    constructor()
      ensures variableList == []
      ensures overviewVariables == ["precip", "streamflow"] && overviewGranularity == Month
      ensures detailVariables == ["streamflow", "streamflow_NO3", "root_depth"] && detailGranularity == Day
    {
      variableList := [];
      overviewVariables := ["precip", "streamflow"];
      overviewGranularity := Month;
      detailVariables := ["streamflow", "streamflow_NO3", "root_depth"];
      detailGranularity := Day;
    }

    function Variables(section: Section): seq<string>
      reads this
    {
      if section == Overview then overviewVariables else detailVariables
    }

    /** The list fetched from the database arrives. */
    method UpdateVariableList(list: seq<Variable>)
      modifies this
      ensures variableList == VariableList(list)
      ensures overviewVariables == old(overviewVariables) && detailVariables == old(detailVariables)
      ensures overviewGranularity == old(overviewGranularity) && detailGranularity == old(detailGranularity)
    {
      variableList := SortByName(Numeric(list));
    }

    /** A timeline's selector picks another variable. */
    method SetVariable(section: Section, index: int, value: string)
      requires 0 <= index < |Variables(section)|
      modifies this
      ensures Variables(section) == old(Variables(section))[index := value]
      ensures section == Overview ==> detailVariables == old(detailVariables)
      ensures section == Detail ==> overviewVariables == old(overviewVariables)
      ensures variableList == old(variableList)
      ensures overviewGranularity == old(overviewGranularity) && detailGranularity == old(detailGranularity)
    {
      if section == Overview {
        overviewVariables := overviewVariables[index := value];
      } else {
        detailVariables := detailVariables[index := value];
      }
    }

    /** A timeline's delete button: `splice(index, 1)`. */
    method RemoveVariable(section: Section, index: int)
      requires 0 <= index < |Variables(section)|
      modifies this
      ensures Variables(section) == old(Variables(section))[..index] + old(Variables(section))[index + 1..]
      ensures section == Overview ==> detailVariables == old(detailVariables)
      ensures section == Detail ==> overviewVariables == old(overviewVariables)
      ensures variableList == old(variableList)
      ensures overviewGranularity == old(overviewGranularity) && detailGranularity == old(detailGranularity)
    {
      if section == Overview {
        overviewVariables := overviewVariables[..index] + overviewVariables[index + 1..];
      } else {
        detailVariables := detailVariables[..index] + detailVariables[index + 1..];
      }
    }

    /** The "Add new variable" selector: `push(value)`. */
    method AddVariable(section: Section, value: string)
      modifies this
      ensures Variables(section) == old(Variables(section)) + [value]
      ensures section == Overview ==> detailVariables == old(detailVariables)
      ensures section == Detail ==> overviewVariables == old(overviewVariables)
      ensures variableList == old(variableList)
      ensures overviewGranularity == old(overviewGranularity) && detailGranularity == old(detailGranularity)
    {
      if section == Overview {
        overviewVariables := overviewVariables + [value];
      } else {
        detailVariables := detailVariables + [value];
      }
    }

    /** Adding a timeline and then pressing the delete button of the
        timeline just added leaves the whole page state as it was. */
    method AddThenRemove(section: Section, value: string)
      modifies this
      ensures overviewVariables == old(overviewVariables) && detailVariables == old(detailVariables)
      ensures variableList == old(variableList)
      ensures overviewGranularity == old(overviewGranularity) && detailGranularity == old(detailGranularity)
    {
      ghost var before := Variables(section);
      var n := |Variables(section)|;
      AddVariable(section, value);
      RemoveVariable(section, n);
      assert (before + [value])[..n] == before;
    }

    /** A section's granularity selector. */
    method SetGranularity(section: Section, g: Granularity)
      modifies this
      ensures section == Overview ==> overviewGranularity == g && detailGranularity == old(detailGranularity)
      ensures section == Detail ==> detailGranularity == g && overviewGranularity == old(overviewGranularity)
      ensures variableList == old(variableList)
      ensures overviewVariables == old(overviewVariables) && detailVariables == old(detailVariables)
    {
      if section == Overview {
        overviewGranularity := g;
      } else {
        detailGranularity := g;
      }
    }
  }

  // ---------------------------------------------------------------------
  // Auto-scaling of one timeline

  /** The y axis of a timeline. */
  datatype AxisState = AxisState(ready: bool, domainMin: real, domainMax: real, log: bool)

  /** The axis before the statistics arrive. */
  const InitialAxis := AxisState(false, 0.0, 1.0, false)

  /** autoScale's branch table on the daily statistics of the variable. */
  function AutoScale(stat: Stats): (r: AxisState)
    ensures r.ready && !r.log
  {
    if stat.min < 0.0 then
      AxisState(true, -stat.stdev * 5.0, stat.stdev * 5.0, false)
    else if stat.mean > stat.stdev * 10.0 then
      AxisState(true, stat.mean - stat.stdev * 5.0, stat.mean + stat.stdev * 5.0, false)
    else
      AxisState(true, 0.0, stat.mean + stat.stdev * 5.0, false)
  }

  /** Statistics a non-empty column can have. */
  predicate Consistent(stat: Stats)
  {
    stat.count > 0 && stat.stdev >= 0.0 && stat.min <= stat.mean <= stat.max
  }

  /** A variable with a negative value gets an axis symmetric about zero,
      five standard deviations each way, whatever its mean. */
  lemma AutoScaleNegative(stat: Stats, mean: real)
    requires stat.min < 0.0
    ensures AutoScale(stat).domainMin == -AutoScale(stat).domainMax == -5.0 * stat.stdev
    ensures AutoScale(stat) == AutoScale(stat.(mean := mean))
  {
  }

  /** A variable with no negative value gets a non-negative axis that ends
      five standard deviations above the mean and starts at or below the
      mean's five-sigma floor, so the mean is on the axis. */
  lemma AutoScaleNonNegative(stat: Stats)
    requires Consistent(stat) && stat.min >= 0.0
    ensures var r := AutoScale(stat);
      && 0.0 <= r.domainMin <= stat.mean <= r.domainMax
      && r.domainMax == stat.mean + 5.0 * stat.stdev
      && (r.domainMin == 0.0 || r.domainMin == stat.mean - 5.0 * stat.stdev)
  {
  }

  /** No branch handles a constant variable: with zero deviation and a
      positive mean the axis has zero width. */
  lemma AutoScaleConstant(stat: Stats)
    requires stat.min >= 0.0 && stat.stdev == 0.0 && stat.mean > 0.0
    ensures AutoScale(stat).domainMin == AutoScale(stat).domainMax == stat.mean
  {
  }

  /** The statistics query of autoScale: always at day granularity. */
  datatype StatsQuery = StatsQuery(variable: string, granularity: Granularity)

  datatype TimelineProps = TimelineProps(variable: string, granularity: Granularity, timeStart: int, timeEnd: int)

  /** A DashboardTimeline: its props and its axis. autoScale's query and
      its answer are split into the query returned by `DidMount` and
      `DidUpdate` and the answer handed to `ApplyStats`. */
  class Timeline {
    var props: TimelineProps
    var axis: AxisState

    constructor(p: TimelineProps)
      ensures props == p && axis == InitialAxis
    {
      props := p;
      axis := InitialAxis;
    }

    /** componentDidMount: always scale. */
    method DidMount() returns (query: StatsQuery)
      ensures query == StatsQuery(props.variable, Day)
    {
      query := StatsQuery(props.variable, Day);
    }

    /** New props: scale again if and only if the variable or the
        granularity changed. */
    method DidUpdate(newProps: TimelineProps) returns (query: Option<StatsQuery>)
      modifies this
      ensures props == newProps && axis == old(axis)
      ensures query.Some? <==>
        old(props).variable != newProps.variable || old(props).granularity != newProps.granularity
      ensures query.Some? ==> query.value == StatsQuery(newProps.variable, Day)
    {
      var changed := props.variable != newProps.variable || props.granularity != newProps.granularity;
      props := newProps;
      if changed {
        query := Some(StatsQuery(props.variable, Day));
      } else {
        query := None;
      }
    }

    /** The statistics arrive. */
    method ApplyStats(stat: Stats)
      modifies this
      ensures props == old(props)
      ensures axis == AutoScale(stat)
    {
      if stat.min < 0.0 {
        axis := AxisState(true, -stat.stdev * 5.0, stat.stdev * 5.0, false);
      } else if stat.mean > stat.stdev * 10.0 {
        axis := AxisState(true, stat.mean - stat.stdev * 5.0, stat.mean + stat.stdev * 5.0, false);
      } else {
        axis := AxisState(true, 0.0, stat.mean + stat.stdev * 5.0, false);
      }
    }
  }
}
