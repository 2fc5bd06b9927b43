/** CategoryService: the category table behind tags and categories. It keeps
    the categories in a list with a counter for the next id, seeds three
    defaults when categories.json does not exist, and writes the whole list
    back after every change. */
module CategoryServices {
  import opened Text
  import opened Seqs
  import opened Models
  import opened JsonData

  function CategoryId(c: Category): int {
    c.id
  }

  function CategoryHasId(id: int): Category -> bool {
    (c: Category) => c.id == id
  }

  /** The position of the first category with the id, or -1. */
  function IndexOfCategory(cs: seq<Category>, id: int): (i: int)
    ensures -1 <= i < |cs|
    ensures i == -1 <==> forall j :: 0 <= j < |cs| ==> cs[j].id != id
    ensures i >= 0 ==> cs[i].id == id && forall j :: 0 <= j < i ==> cs[j].id != id
  {
    FirstIndex(cs, CategoryHasId(id))
  }

  /** GetCategoryById: the first category with the id, or null. */
  function CategoryById(cs: seq<Category>, id: int): (r: Option<Category>)
    ensures r == None <==> forall j :: 0 <= j < |cs| ==> cs[j].id != id
    ensures r != None ==> r.value.id == id && r.value == cs[IndexOfCategory(cs, id)]
  {
    var i := IndexOfCategory(cs, id);
    if i == -1 then None else Some(cs[i])
  }

  /** The categories a first run starts with. */
  function DefaultCategories(): (cs: seq<Category>)
    ensures |cs| == 3
    ensures forall i :: 0 <= i < 3 ==> cs[i].id == i + 1
    ensures cs[0].name == "Work" && cs[1].name == "Personal" && cs[2].name == "Urgent"
  {
    [Category(1, "Work", "#2196F3"), Category(2, "Personal", "#4CAF50"), Category(3, "Urgent", "#F44336")]
  }

  /** The list after UpdateCategoryAsync of a present id: the first category
      with the id takes the given name and colour and keeps its id; every
      other category is unchanged. */
  function Renamed(cs: seq<Category>, c: Category): (r: seq<Category>)
    requires IndexOfCategory(cs, c.id) >= 0
    ensures |r| == |cs|
    ensures r[IndexOfCategory(cs, c.id)] == c
    ensures forall j :: 0 <= j < |cs| ==> r[j].id == cs[j].id
    ensures forall j :: 0 <= j < |cs| && j != IndexOfCategory(cs, c.id) ==> r[j] == cs[j]
  {
    var i := IndexOfCategory(cs, c.id);
    cs[i := cs[i].(name := c.name, color := c.color)]
  }

  /** After an update the category is found under its id with the new name
      and colour. */
  lemma RenamedIsFound(cs: seq<Category>, c: Category)
    requires IndexOfCategory(cs, c.id) >= 0
    ensures CategoryById(Renamed(cs, c), c.id) == Some(c)
  {
    var i := IndexOfCategory(cs, c.id);
    var r := Renamed(cs, c);
    assert forall j :: 0 <= j < i ==> r[j].id != c.id;
    FirstIndexIs(r, CategoryHasId(c.id), i);
  }

  class CategoryService {
    var categories: seq<Category>
    var nextId: int
    /** The content of categories.json. */
    var file: JsonFile<Category>

    /** Every id in the table is below the counter. */
    predicate Valid()
      reads this
    {
      forall j :: 0 <= j < |categories| ==> categories[j].id < nextId
    }

    /** The table, counter and file GetAllCategoriesAsync leaves, given the
        ones it found: a non-empty table is kept as it is; an empty one is
        reloaded as LoadCategoriesAsync does it. */
    predicate ReloadedFrom(before: seq<Category>, nextBefore: int, fileBefore: JsonFile<Category>)
      reads this
    {
      if |before| > 0 then
        categories == before && nextId == nextBefore && file == fileBefore
      else match fileBefore
        case NoFile => categories == DefaultCategories() && nextId == 4 && file == Stored(categories)
        case Stored(cs) =>
          && categories == cs && file == fileBefore
          && nextId == (if |cs| > 0 then NextId(cs, CategoryId) else nextBefore)
        case _ => categories == [] && nextId == nextBefore && file == fileBefore
    }

    /** The constructor, which starts the load. */
    constructor(stored: JsonFile<Category>)
      ensures file == (if stored.NoFile? then Stored(DefaultCategories()) else stored)
      ensures stored.NoFile? ==> categories == DefaultCategories() && nextId == 4
      ensures stored.Stored? ==> categories == stored.items && nextId == NextId(stored.items, CategoryId)
      ensures !stored.NoFile? && !stored.Stored? ==> categories == [] && nextId == 1
      ensures Valid()
    {
      file := stored;
      categories := [];
      nextId := 1;
      new;
      LoadCategories();
    }

    /** LoadCategoriesAsync. With no file the three defaults are seeded with
        ids 1 to 3, the counter set to 4 and the file written. A readable
        list replaces the table, and moves the counter one past its largest
        id only when the list is not empty. `null` empties the table, and
        text the deserialiser rejects does too; the counter then stays. */
    method LoadCategories()
      modifies this
      ensures old(file).NoFile? ==> categories == DefaultCategories() && nextId == 4 && file == Stored(categories)
      ensures old(file).Stored? ==> categories == old(file).items && file == old(file)
      ensures old(file).Stored? && |old(file).items| > 0 ==> nextId == NextId(categories, CategoryId)
      ensures old(file).Stored? && |old(file).items| == 0 ==> nextId == old(nextId)
      ensures !old(file).NoFile? && !old(file).Stored? ==> categories == [] && nextId == old(nextId) && file == old(file)
      ensures Valid()
    {
      match file
      case NoFile =>
        categories := DefaultCategories();
        nextId := 4;
        SaveCategories();
      case Stored(cs) =>
        categories := cs;
        if |cs| > 0 {
          nextId := NextId(cs, CategoryId);
        }
      case _ =>
        categories := [];
    }

    /** SaveCategoriesAsync: the list is written whole. */
    method SaveCategories()
      modifies this
      ensures file == Stored(categories)
      ensures categories == old(categories) && nextId == old(nextId)
    {
      file := Stored(categories);
    }

    /** GetAllCategoriesAsync: reloads when the table is empty, then returns
        the table. The result is a value, so changing it cannot change the
        table. */
    method GetAllCategories() returns (r: seq<Category>)
      modifies this
      ensures |old(categories)| > 0 ==> categories == old(categories) && nextId == old(nextId) && file == old(file)
      ensures old(file) == Stored(old(categories)) ==> categories == old(categories) && file == old(file)
      ensures ReloadedFrom(old(categories), old(nextId), old(file))
      ensures r == categories
      ensures old(Valid()) ==> Valid()
    {
      if |categories| == 0 {
        LoadCategories();
      }
      r := categories;
    }

    /** GetCategoryById. */
    function GetCategoryById(id: int): (r: Option<Category>)
      reads this
      ensures r == None <==> forall j :: 0 <= j < |categories| ==> categories[j].id != id
      ensures r != None ==> r.value.id == id && r.value in categories
    {
      CategoryById(categories, id)
    }

    /** CreateCategoryAsync: the new category takes the counter as its id,
        the counter moves on, and the category is appended and saved. */
    method CreateCategory(name: string, color: string) returns (created: Category)
      requires Valid()
      modifies this
      ensures created == Category(old(nextId), name, color)
      ensures categories == old(categories) + [created]
      ensures nextId == old(nextId) + 1
      ensures forall j :: 0 <= j < |old(categories)| ==> old(categories)[j].id < created.id
      ensures file == Stored(categories)
      ensures Valid()
    {
      created := Category(nextId, name, color);
      nextId := nextId + 1;
      categories := categories + [created];
      SaveCategories();
    }

    /** UpdateCategoryAsync: copies name and colour onto the category with the
        same id and saves; nothing happens when no category has the id. */
    method UpdateCategory(c: Category)
      modifies this
      ensures IndexOfCategory(old(categories), c.id) == -1 ==> categories == old(categories) && file == old(file)
      ensures IndexOfCategory(old(categories), c.id) >= 0 ==>
        categories == Renamed(old(categories), c) && file == Stored(categories)
      ensures nextId == old(nextId)
      ensures old(Valid()) ==> Valid()
    {
      var i := IndexOfCategory(categories, c.id);
      if i >= 0 {
        categories := Renamed(categories, c);
        SaveCategories();
      }
    }

    /** DeleteCategoryAsync: removes the first category with the id and
        saves; nothing happens when no category has the id. */
    method DeleteCategory(id: int)
      modifies this
      ensures var i := IndexOfCategory(old(categories), id);
        && (i == -1 ==> categories == old(categories) && file == old(file))
        && (i >= 0 ==> categories == RemoveAt(old(categories), i) && file == Stored(categories))
      ensures nextId == old(nextId)
      ensures old(Valid()) ==> Valid()
    {
      var i := IndexOfCategory(categories, id);
      if i >= 0 {
        categories := RemoveAt(categories, i);
        SaveCategories();
      }
    }
  }
}
