/** A session's option catalog, as the agent announces it whole, and how one option of it is found. */
module CatalogOptions {
  import opened Prelude

  datatype Value = Text(text: string) | Boolean(flag: bool) | Integer(number: int)

  datatype Category = ModelCategory | EffortCategory | ModeCategory | OtherCategory(name: string)

  datatype ValueType = Enumerated | BooleanType | OtherType

  /** One option of the catalog, as far as a patch looks at it. */
  datatype Option_ = Option_(id: string, category: Category, valueType: ValueType, values: seq<Value>)

  type Catalog = seq<Option_>

  function OptionIn(catalog: Catalog, id: string): Option<Option_> {
    if catalog == [] then None
    else if catalog[0].id == id then Some(catalog[0])
    else OptionIn(catalog[1..], id)
  }

  function InCategory(catalog: Catalog, category: Category): seq<Option_> {
    if catalog == [] then []
    else (if catalog[0].category == category then [catalog[0]] else []) + InCategory(catalog[1..], category)
  }

  /** The one option of a category; a repeated category cannot choose one. */
  function UniqueOptionIn(catalog: Catalog, category: Category): Option<Option_> {
    if |InCategory(catalog, category)| == 1 then Some(InCategory(catalog, category)[0]) else None
  }

  predicate IsOnlyOne(catalog: Catalog, category: Category, i: nat) {
    i < |catalog| && forall j :: 0 <= j < |catalog| ==> (catalog[j].category == category <==> j == i)
  }

  predicate IsFirst(catalog: Catalog, id: string, i: nat) {
    i < |catalog| && catalog[i].id == id && forall j :: 0 <= j < i ==> catalog[j].id != id
  }

  lemma {:induction false} CategoryMembers(catalog: Catalog, category: Category)
    ensures InCategory(catalog, category) == [] <==>
      forall j :: 0 <= j < |catalog| ==> catalog[j].category != category
  {
    if catalog != [] {
      CategoryMembers(catalog[1..], category);
      assert catalog == [catalog[0]] + catalog[1..];
    }
  }

  /** An option stands for its category exactly when no other option of the catalog is in it. */
  lemma {:induction false} TheOnlyOneOfItsCategory(catalog: Catalog, category: Category, option: Option_)
    ensures UniqueOptionIn(catalog, category) == Some(option) <==>
      exists i: nat :: IsOnlyOne(catalog, category, i) && catalog[i] == option
  {
    if catalog != [] {
      var later := catalog[1..];
      CategoryMembers(later, category);
      TheOnlyOneOfItsCategory(later, category, option);
      if catalog[0].category == category {
        assert InCategory(later, category) == [] ==> IsOnlyOne(catalog, category, 0);
        assert forall i: nat :: i > 0 ==> !IsOnlyOne(catalog, category, i);
      } else {
        assert forall i: nat :: IsOnlyOne(later, category, i) ==> IsOnlyOne(catalog, category, i + 1);
        assert forall i: nat :: IsOnlyOne(catalog, category, i) ==> i > 0 && IsOnlyOne(later, category, i - 1);
      }
    }
  }

  /** An option is found under an id exactly when it is the first of that id. */
  lemma {:induction false} TheFirstOfItsId(catalog: Catalog, id: string, option: Option_)
    ensures OptionIn(catalog, id) == Some(option) <==> exists i: nat :: IsFirst(catalog, id, i) && catalog[i] == option
  {
    if catalog != [] {
      var later := catalog[1..];
      TheFirstOfItsId(later, id, option);
      if catalog[0].id == id {
        assert IsFirst(catalog, id, 0);
        assert forall i: nat :: i > 0 ==> !IsFirst(catalog, id, i);
      } else {
        assert forall i: nat :: IsFirst(later, id, i) ==> IsFirst(catalog, id, i + 1);
        assert forall i: nat :: IsFirst(catalog, id, i) ==> i > 0 && IsFirst(later, id, i - 1);
      }
    }
  }

  predicate Semantic(category: Category) {
    category.ModelCategory? || category.EffortCategory? || category.ModeCategory?
  }

  /** Whether the option takes values of this kind, and this one when it lists them. */
  predicate Takes(option: Option_, value: Value) {
    && ((option.valueType.Enumerated? && value.Text?) || (option.valueType.BooleanType? && value.Boolean?))
    && (option.valueType.Enumerated? ==> value in option.values)
  }
}
