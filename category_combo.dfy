/** CategoryComboBox: a drop-down that picks a category by name from a list,
    or adds one typed into its text box. Its categories are compared by
    name, ignoring case. */
module CategoryCombo {
  import opened Text
  import opened Seqs

  const DefaultPlaceholder := "Select Category"

  /** The control's own Category: a name only. */
  datatype ComboCategory = ComboCategory(name: string)

  /** Category.Equals: the names are equal ignoring case. */
  predicate SameCategory(a: ComboCategory, b: ComboCategory)
    ensures SameCategory(a, b) <==> Fold(a.name) == Fold(b.name)
  {
    EqualsIgnoreCaseIsFoldEquality(a.name, b.name);
    EqualsIgnoreCase(a.name, b.name)
  }

  /** What Category.GetHashCode hashes: the case-folded name. */
  function HashKey(c: ComboCategory): (k: string)
    ensures |k| == |c.name|
  {
    Fold(c.name)
  }

  /** GetHashCode agrees with Equals, in both directions: equal categories
      hash the same key, and categories with the same key are equal. */
  lemma HashKeyMatchesEquality(a: ComboCategory, b: ComboCategory)
    ensures SameCategory(a, b) <==> HashKey(a) == HashKey(b)
  {
    EqualsIgnoreCaseIsFoldEquality(a.name, b.name);
  }

  /** Equals is an equivalence relation. */
  lemma SameCategoryIsEquivalence(a: ComboCategory, b: ComboCategory, c: ComboCategory)
    ensures SameCategory(a, a)
    ensures SameCategory(a, b) ==> SameCategory(b, a)
    ensures SameCategory(a, b) && SameCategory(b, c) ==> SameCategory(a, c)
  {
    HashKeyMatchesEquality(a, a);
    HashKeyMatchesEquality(a, b);
    HashKeyMatchesEquality(b, a);
    HashKeyMatchesEquality(b, c);
    HashKeyMatchesEquality(a, c);
  }

  /** c => c.Name.Equals(name, StringComparison.OrdinalIgnoreCase). */
  function NamedLike(name: string): ComboCategory -> bool {
    (c: ComboCategory) => EqualsIgnoreCase(c.name, name)
  }

  /** No two categories of the list are equal ignoring case. */
  predicate NoCaseDuplicates(cs: seq<ComboCategory>) {
    forall i, j :: 0 <= i < j < |cs| ==> !SameCategory(cs[i], cs[j])
  }

  /** The list and selection AddNewCategory leaves for a non-empty trimmed
      name: the first category with that name ignoring case is selected;
      when there is none, a new one is appended and selected. */
  function AfterAdd(cs: seq<ComboCategory>, name: string): (r: (seq<ComboCategory>, ComboCategory))
    ensures r.1 in r.0 && EqualsIgnoreCase(r.1.name, name)
    ensures FirstIndex(cs, NamedLike(name)) >= 0 ==> r.0 == cs && r.1 == cs[FirstIndex(cs, NamedLike(name))]
    ensures FirstIndex(cs, NamedLike(name)) == -1 ==> r.0 == cs + [ComboCategory(name)] && r.1 == ComboCategory(name)
  {
    var i := FirstIndex(cs, NamedLike(name));
    if i >= 0 then
      (cs, cs[i])
    else
      HashKeyMatchesEquality(ComboCategory(name), ComboCategory(name));
      (cs + [ComboCategory(name)], ComboCategory(name))
  }

  /** Adding keeps the list free of case-insensitive duplicates. */
  lemma AfterAddKeepsNoDuplicates(cs: seq<ComboCategory>, name: string)
    requires NoCaseDuplicates(cs)
    ensures NoCaseDuplicates(AfterAdd(cs, name).0)
  {
    var r := AfterAdd(cs, name).0;
    if FirstIndex(cs, NamedLike(name)) == -1 {
      forall i, j | 0 <= i < j < |r|
        ensures !SameCategory(r[i], r[j])
      {
        if j == |cs| {
          assert !NamedLike(name)(cs[i]);
          assert r[j] == ComboCategory(name) && r[i] == cs[i];
        }
      }
    }
  }

  /** Adding the same name twice adds it once, and selects the same
      category both times. */
  lemma AfterAddTwice(cs: seq<ComboCategory>, name: string)
    ensures AfterAdd(AfterAdd(cs, name).0, name) == AfterAdd(cs, name)
  {
    var i := FirstIndex(cs, NamedLike(name));
    var once := AfterAdd(cs, name).0;
    if i == -1 {
      assert NamedLike(name)(once[|cs|]);
      FirstIndexIs(once, NamedLike(name), |cs|);
    }
  }

  class CategoryComboBox {
    var categories: seq<ComboCategory>
    var selectedCategory: Option<ComboCategory>
    var placeholderText: string
    /** The text box's text; None stands for a missing text box or null text. */
    var newCategoryText: Option<string>
    var flyoutOpen: bool

    /** Every list the control shows has no case-insensitive duplicates. */
    predicate Valid()
      reads this
    {
      NoCaseDuplicates(categories)
    }

    /** A new control: no categories, nothing selected, the default
        placeholder. */
    constructor()
      ensures categories == [] && selectedCategory == None && placeholderText == DefaultPlaceholder
      ensures newCategoryText == None && !flyoutOpen
      ensures Valid()
    {
      categories := [];
      selectedCategory := None;
      placeholderText := DefaultPlaceholder;
      newCategoryText := None;
      flyoutOpen := false;
    }

    /** UpdateDisplayText: the selected category's name, or the placeholder
        when nothing is selected. */
    function DisplayText(): (r: string)
      reads this
      ensures selectedCategory == None ==> r == placeholderText
      ensures selectedCategory != None ==> r == selectedCategory.value.name
    {
      match selectedCategory
      case None => placeholderText
      case Some(c) => c.name
    }

    /** UpdateCategoriesList: one button per category, labelled with its
        name, in list order. */
    function ButtonLabels(): (r: seq<string>)
      reads this
      ensures |r| == |categories|
      ensures forall i :: 0 <= i < |r| ==> r[i] == categories[i].name
    {
      var cs := categories;
      seq(|cs|, i requires 0 <= i < |cs| => cs[i].name)
    }

    /** OnCategorySelected: selects the clicked category, hides the flyout,
        and reports the old and the new selection. */
    method OnCategorySelected(c: ComboCategory) returns (previous: Option<ComboCategory>, current: ComboCategory)
      modifies this
      ensures previous == old(selectedCategory) && current == c
      ensures selectedCategory == Some(c) && DisplayText() == c.name && !flyoutOpen
      ensures categories == old(categories) && newCategoryText == old(newCategoryText)
      ensures placeholderText == old(placeholderText)
    {
      previous := selectedCategory;
      selectedCategory := Some(c);
      flyoutOpen := false;
      current := c;
    }

    /** AddNewCategory. A missing or blank name changes nothing. Otherwise
        the category with that name ignoring case is selected, being
        appended first when the list has none; `added` is the appended one,
        which CategoryAdded reports. The text is then cleared and the flyout
        closed. */
    method AddNewCategory() returns (added: Option<ComboCategory>)
      modifies this
      ensures old(newCategoryText) == None || Trim(old(newCategoryText).value) == [] ==>
        added == None && categories == old(categories) && selectedCategory == old(selectedCategory)
        && newCategoryText == old(newCategoryText) && flyoutOpen == old(flyoutOpen)
      ensures old(newCategoryText) != None && Trim(old(newCategoryText).value) != [] ==>
        var name := Trim(old(newCategoryText).value);
        var r := AfterAdd(old(categories), name);
        && categories == r.0 && selectedCategory == Some(r.1)
        && (added != None <==> FirstIndex(old(categories), NamedLike(name)) == -1)
        && (added != None ==> added.value == r.1)
        && newCategoryText == Some("") && !flyoutOpen
      ensures placeholderText == old(placeholderText)
      ensures old(Valid()) ==> Valid()
    {
      added := None;
      if newCategoryText == None {
        return;
      }
      var name := Trim(newCategoryText.value);
      if name == [] {
        return;
      }
      if Valid() {
        AfterAddKeepsNoDuplicates(categories, name);
      }
      var i := FirstIndex(categories, NamedLike(name));
      if i >= 0 {
        selectedCategory := Some(categories[i]);
      } else {
        var newCategory := ComboCategory(name);
        categories := categories + [newCategory];
        selectedCategory := Some(newCategory);
        added := Some(newCategory);
      }
      ClearAndCloseFlyout();
    }

    /** ClearAndCloseFlyout: empties the text box and hides the flyout. */
    method ClearAndCloseFlyout()
      modifies this
      ensures newCategoryText == Some("") && !flyoutOpen
      ensures categories == old(categories) && selectedCategory == old(selectedCategory)
      ensures placeholderText == old(placeholderText)
    {
      newCategoryText := Some("");
      flyoutOpen := false;
    }
  }
}
