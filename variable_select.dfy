/** The variable picker: finding the selected variable by name, the
    case-insensitive search over names and descriptions, and the labels
    it shows. */
module VariableSelect {
  import opened Common
  import opened Abstract

  // ---------------------------------------------------------------------
  // getItem

  /** The first variable of the list with the given name, if any. */
  function FirstNamed(list: seq<Variable>, name: string): Option<Variable>
  {
    if list == [] then None
    else if list[0].name == name then Some(list[0])
    else FirstNamed(list[1..], name)
  }

  /** None exactly when no variable has the name; otherwise the variable
      at the first index with that name. */
  lemma {:induction false} FirstNamedSpec(list: seq<Variable>, name: string)
    ensures FirstNamed(list, name).None? <==> forall k :: 0 <= k < |list| ==> list[k].name != name
    ensures FirstNamed(list, name).Some? ==> exists k ::
      && 0 <= k < |list| && list[k] == FirstNamed(list, name).value && list[k].name == name
      && forall j :: 0 <= j < k ==> list[j].name != name
  {
    if list != [] && list[0].name != name {
      FirstNamedSpec(list[1..], name);
      if FirstNamed(list, name).Some? {
        var k :| 0 <= k < |list[1..]| && list[1..][k] == FirstNamed(list, name).value && list[1..][k].name == name
          && forall j :: 0 <= j < k ==> list[1..][j].name != name;
        assert list[k + 1] == list[1..][k];
        forall j | 0 <= j < k + 1 ensures list[j].name != name {
          if j > 0 { assert list[j] == list[1..][j - 1]; }
        }
      }
    }
  }

  // ---------------------------------------------------------------------
  // itemPredicate

  /** Whether the query occurs in the text, ignoring ASCII case. */
  ghost predicate MentionsIgnoringCase(text: string, query: string)
  {
    exists k :: OccursAt(ToLower(text), ToLower(query), k)
  }

  /** `itemPredicate`: the lower-cased query occurs in the lower-cased name
      or description. */
  function ItemPredicate(query: string, item: Variable): (b: bool)
    ensures b <==> MentionsIgnoringCase(item.name, query) || MentionsIgnoringCase(item.description, query)
  {
    IndexOfSpec(ToLower(item.name), ToLower(query));
    IndexOfSpec(ToLower(item.description), ToLower(query));
    IndexOf(ToLower(item.name), ToLower(query)) >= 0 || IndexOf(ToLower(item.description), ToLower(query)) >= 0
  }

  /** An empty query lists every variable, and typing a variable's own
      name, in any case, keeps it listed. */
  lemma ItemPredicateFinds(item: Variable, typed: string)
    requires ToLower(typed) == ToLower(item.name)
    ensures ItemPredicate("", item)
    ensures ItemPredicate(typed, item)
  {
    assert OccursAt(ToLower(item.name), ToLower(""), 0);
    assert OccursAt(ToLower(item.name), ToLower(typed), 0);
  }

  // ---------------------------------------------------------------------
  // Labels

  /** A menu entry: the variable's name, labelled with its description and
      unit. */
  datatype MenuEntry = MenuEntry(text: string, caption: string)

  /** The unit in parentheses after a space; nothing for an empty unit. */
  function UnitSuffix(unit: string): string
  {
    if unit != "" then " (" + unit + ")" else ""
  }

  /** `itemRenderer`: nothing for an item the query filters out. */
  function ItemRenderer(query: string, item: Variable): (r: Option<MenuEntry>)
    ensures r.Some? <==> ItemPredicate(query, item)
    ensures r.Some? ==> r.value.text == item.name
    ensures r.Some? ==> |r.value.caption| == |item.description| + (if item.unit != "" then 3 + |item.unit| else 0)
    ensures r.Some? ==> r.value.caption[..|item.description|] == item.description
    ensures r.Some? && item.unit != "" ==> r.value.caption[|item.description|..] == " (" + item.unit + ")"
  {
    if !ItemPredicate(query, item) then None
    else Some(MenuEntry(item.name, item.description + UnitSuffix(item.unit)))
  }

  /** The button text: the item's name, " - description" if it has one,
      " (unit)" if it has one; without an item the placeholder, or "none"
      when that is missing or empty. */
  function CurrentDescription(item: Option<Variable>, placeholder: Option<string>): (r: string)
    ensures item.Some? ==> |r| >= |item.value.name| && r[..|item.value.name|] == item.value.name
    ensures item.Some? && item.value.description == "" && item.value.unit == "" ==> r == item.value.name
    ensures item.Some? && item.value.description != "" ==>
      |r| >= |item.value.name| + 3 + |item.value.description| &&
      r[|item.value.name|..|item.value.name| + 3 + |item.value.description|] == " - " + item.value.description
    ensures item.Some? ==>
      |r| == |item.value.name| + (if item.value.description != "" then 3 + |item.value.description| else 0)
             + (if item.value.unit != "" then 3 + |item.value.unit| else 0)
    ensures item.Some? && item.value.unit != "" ==> r[|r| - |item.value.unit| - 3..] == " (" + item.value.unit + ")"
    ensures item.None? && placeholder.Some? && placeholder.value != "" ==> r == placeholder.value
    ensures item.None? && (placeholder.None? || placeholder.value == "") ==> r == "none"
  {
    if item.Some? then
      var v := item.value;
      v.name + (if v.description != "" then " - " + v.description else "") + UnitSuffix(v.unit)
    else if placeholder.Some? && placeholder.value != "" then placeholder.value
    else "none"
  }

  // ---------------------------------------------------------------------
  // The component

  class VariableSelector {
    var list: seq<Variable>
    var value: string
    var placeholder: Option<string>
    /** The highlighted item of the menu (`activeItem`). */
    var activeItem: Option<Variable>

    constructor(list: seq<Variable>, value: string, placeholder: Option<string>)
      ensures this.list == list && this.value == value && this.placeholder == placeholder
      ensures activeItem == None
    {
      this.list := list;
      this.value := value;
      this.placeholder := placeholder;
      activeItem := None;
    }

    /** getItem: the loop over the list, returning on the first match. */
    method GetItem(name: string) returns (item: Option<Variable>)
      ensures item == FirstNamed(list, name)
    {
      var k := 0;
      while k < |list|
        invariant 0 <= k <= |list|
        invariant FirstNamed(list, name) == FirstNamed(list[k..], name)
      {
        assert list[k..][1..] == list[k + 1..];
        if list[k].name == name {
          return Some(list[k]);
        }
        k := k + 1;
      }
      return None;
    }

    /** The text of the button render shows. */
    method Render() returns (text: string)
      ensures text == CurrentDescription(FirstNamed(list, value), placeholder)
    {
      var item := GetItem(value);
      text := CurrentDescription(item, placeholder);
    }

    /** handleActiveItemChange: record the highlighted item. */
    method HandleActiveItemChange(item: Variable)
      modifies this
      ensures activeItem == Some(item)
      ensures list == old(list) && value == old(value) && placeholder == old(placeholder)
    {
      activeItem := Some(item);
    }
  }

  /** Selecting a listed variable makes it the one the button describes
      (the first with its name). */
  lemma SelectThenDescribe(list: seq<Variable>, k: nat, placeholder: Option<string>)
    requires k < |list|
    requires forall j :: 0 <= j < |list| && j != k ==> list[j].name != list[k].name
    ensures FirstNamed(list, list[k].name) == Some(list[k])
    ensures CurrentDescription(FirstNamed(list, list[k].name), placeholder)[..|list[k].name|] == list[k].name
  {
    FirstNamedSpec(list, list[k].name);
  }
}
