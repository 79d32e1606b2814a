/** The value types of the database interface: granularities, query filters,
    grouping descriptions, variables and summary statistics. */
module Abstract {
  import opened Common

  datatype Granularity = Year | Month | Week | Day

  /** The granularity as it appears in column names (`t_day`, `ty_month`, ...). */
  function GranularityName(g: Granularity): string
  {
    match g
    case Year => "year"
    case Month => "month"
    case Week => "week"
    case Day => "day"
  }

  /** `within: {min?, max?}`: an inclusive numeric range on an attribute. */
  datatype Within = Within(min: Option<int>, max: Option<int>)

  /** One attribute constraint: `in` (a list of admitted values) and/or `within`. */
  datatype AttrFilter = AttrFilter(inList: Option<seq<string>>, within: Option<Within>)

  /** The attributes of a filter in key order; a JavaScript object keeps its
      keys in insertion order and never holds a key twice. */
  type Attributes = seq<(string, AttrFilter)>

  /** A query filter; time bounds are seconds since 1970-01-01 UTC, both inclusive. */
  datatype Filter = Filter(timeStart: Option<int>, timeEnd: Option<int>, attributes: Option<Attributes>)

  /** Grouping: the attributes to group by and one value tuple per group. */
  datatype Groups = Groups(variables: seq<string>, groups: seq<seq<string>>)

  datatype VarType = NumberType | StringType | UnknownType

  datatype Variable = Variable(name: string, vtype: VarType, description: string, unit: string)

  datatype Stats = Stats(count: int, mean: real, stdev: real, min: real, max: real)

  function Keys(attrs: Attributes): seq<string>
  {
    seq(|attrs|, k requires 0 <= k < |attrs| => attrs[k].0)
  }

  /** `obj[name]`: the constraint stored under a key, if any. */
  function Lookup(attrs: Attributes, name: string): (r: Option<AttrFilter>)
    ensures r.Some? <==> name in Keys(attrs)
  {
    if attrs == [] then None
    else
      assert Keys(attrs) == [attrs[0].0] + Keys(attrs[1..]);
      if attrs[0].0 == name then Some(attrs[0].1)
      else Lookup(attrs[1..], name)
  }

  /** What `obj[name]` finds is the constraint of the first entry with that name. */
  lemma {:induction false} LookupFirst(attrs: Attributes, name: string)
    ensures Lookup(attrs, name).Some? ==>
      exists k :: 0 <= k < |attrs| && attrs[k] == (name, Lookup(attrs, name).value)
        && forall j :: 0 <= j < k ==> attrs[j].0 != name
  {
    if attrs != [] && attrs[0].0 != name && Lookup(attrs, name).Some? {
      LookupFirst(attrs[1..], name);
      var k :| 0 <= k < |attrs| - 1 && attrs[1..][k] == (name, Lookup(attrs, name).value)
        && forall j :: 0 <= j < k ==> attrs[1..][j].0 != name;
      assert attrs[k + 1] == (name, Lookup(attrs, name).value);
      assert forall j :: 0 <= j < k + 1 ==> attrs[j].0 != name by {
        forall j | 0 <= j < k + 1
          ensures attrs[j].0 != name
        {
          if j > 0 {
            assert attrs[j] == attrs[1..][j - 1];
          }
        }
      }
    }
  }

  /** The keys of a list with one more entry in front. */
  lemma KeysCons(e: (string, AttrFilter), rest: Attributes)
    ensures Keys([e] + rest) == [e.0] + Keys(rest)
  {
  }

  /** `obj[name] = v`: an existing key keeps its position, a new key goes last. */
  function Put(attrs: Attributes, name: string, v: AttrFilter): (r: Attributes)
    ensures Lookup(r, name) == Some(v)
    ensures forall n :: n != name ==> Lookup(r, n) == Lookup(attrs, n)
    ensures name in Keys(attrs) ==> Keys(r) == Keys(attrs)
    ensures name !in Keys(attrs) ==> Keys(r) == Keys(attrs) + [name]
  {
    if attrs == [] then [(name, v)]
    else
      KeysCons(attrs[0], attrs[1..]);
      assert [attrs[0]] + attrs[1..] == attrs;
      if attrs[0].0 == name then
        KeysCons((name, v), attrs[1..]);
        [(name, v)] + attrs[1..]
      else
        var rest := Put(attrs[1..], name, v);
        KeysCons(attrs[0], rest);
        [attrs[0]] + rest
  }
}
