/** JsonDataService: the task store. Every operation reads the whole task
    list from its JSON file, changes it as a list, and writes it back whole.
    The file is a value held by the service; reading and writing it stand
    for File.ReadAllTextAsync and File.WriteAllTextAsync. */
module JsonData {
  import opened Text
  import opened Seqs
  import opened Models

  /** What a JSON list file holds, as a loader sees it: no file, only white
      space, the literal `null`, text the deserialiser rejects, or a list. */
  datatype JsonFile<T> = NoFile | BlankText | NullLiteral | Malformed | Stored(items: seq<T>)

  /** The outcome of reading a list: the items, or the exception the
      deserialiser threw. */
  datatype Loaded<T> = Items(items: seq<T>) | ParseError

  /** LoadItemsAsync: a missing file, blank text and `null` all read as the
      empty list; malformed text throws. */
  function LoadItems(f: JsonFile<TodoItem>): (r: Loaded<TodoItem>)
    ensures r == ParseError <==> f == Malformed
    ensures f.NoFile? || f.BlankText? || f.NullLiteral? ==> r == Items([])
    ensures f.Stored? ==> r == Items(f.items)
  {
    match f
    case NoFile => Items([])
    case BlankText => Items([])
    case NullLiteral => Items([])
    case Malformed => ParseError
    case Stored(items) => Items(items)
  }

  /** GetAllAsync: the loaded list, or the empty list when loading threw. */
  function AllItems(f: JsonFile<TodoItem>): (r: seq<TodoItem>)
    ensures f.Stored? ==> r == f.items
    ensures !f.Stored? ==> r == []
  {
    match LoadItems(f)
    case Items(items) => items
    case ParseError => []
  }

  /** The serialiser's view of a list: each item without its [JsonIgnore]
      properties. */
  function PersistAll(items: seq<TodoItem>): (r: seq<TodoItem>)
    ensures |r| == |items|
    ensures forall i :: 0 <= i < |items| ==> r[i] == PersistedItem(items[i])
  {
    seq(|items|, i requires 0 <= i < |items| => PersistedItem(items[i]))
  }

  function ItemId(t: TodoItem): int {
    t.id
  }

  function ItemHasId(id: int): TodoItem -> bool {
    (t: TodoItem) => t.id == id
  }

  /** FindIndex(t => t.Id == id). */
  function IndexOfItem(items: seq<TodoItem>, id: int): (i: int)
    ensures -1 <= i < |items|
    ensures i == -1 <==> forall j :: 0 <= j < |items| ==> items[j].id != id
    ensures i >= 0 ==> items[i].id == id && forall j :: 0 <= j < i ==> items[j].id != id
  {
    FirstIndex(items, ItemHasId(id))
  }

  /** GetByIdAsync: the first item with the id, or null when there is none
      (also when the file could not be read). */
  function ItemById(f: JsonFile<TodoItem>, id: int): (r: Option<TodoItem>)
    ensures r == None <==> forall j :: 0 <= j < |AllItems(f)| ==> AllItems(f)[j].id != id
    ensures r != None ==> r.value.id == id && r.value == AllItems(f)[IndexOfItem(AllItems(f), id)]
  {
    var items := AllItems(f);
    var i := IndexOfItem(items, id);
    if i == -1 then None else Some(items[i])
  }

  /** CreateAsync's id rule: an item with Id 0 gets one more than the largest
      id in the store, or 1 in an empty store; any other id is kept. */
  function AssignId(items: seq<TodoItem>, item: TodoItem): (r: TodoItem)
    ensures item.id != 0 ==> r == item
    ensures item.id == 0 ==> r == item.(id := NextId(items, ItemId))
    ensures item.id == 0 ==> forall j :: 0 <= j < |items| ==> items[j].id < r.id
    ensures item.id == 0 && |items| == 0 ==> r.id == 1
  {
    if item.id == 0 then item.(id := NextId(items, ItemId)) else item
  }

  class JsonDataService {
    var file: JsonFile<TodoItem>

    constructor(initial: JsonFile<TodoItem>)
      ensures file == initial
    {
      file := initial;
    }

    /** GetAllAsync. */
    method GetAll() returns (items: seq<TodoItem>)
      ensures items == AllItems(file)
    {
      var loaded := LoadItems(file);
      match loaded
      case Items(xs) => items := xs;
      case ParseError => items := [];
    }

    /** GetByIdAsync. */
    method GetById(id: int) returns (r: Option<TodoItem>)
      ensures r == ItemById(file, id)
    {
      var items := GetAll();
      var i := IndexOfItem(items, id);
      if i == -1 {
        r := None;
      } else {
        r := Some(items[i]);
      }
    }

    /** SaveChangesAsync: the list is written whole. */
    method SaveChanges(items: seq<TodoItem>) returns (ok: bool)
      modifies this
      ensures ok && file == Stored(PersistAll(items))
    {
      file := Stored(PersistAll(items));
      ok := true;
    }

    /** CreateAsync: assigns an id to an item with Id 0, appends the item and
        saves. When the file cannot be read the store is left alone and the
        result is false. `created` is the item as the caller holds it
        afterwards. */
    method Create(item: TodoItem) returns (ok: bool, created: TodoItem)
      modifies this
      ensures old(file) == Malformed ==> !ok && file == old(file) && created == item
      ensures old(file) != Malformed ==>
        var items := AllItems(old(file));
        ok && created == AssignId(items, item) && file == Stored(PersistAll(items + [created]))
    {
      var loaded := LoadItems(file);
      match loaded {
        case ParseError =>
          ok, created := false, item;
        case Items(items) =>
          created := AssignId(items, item);
          ok := SaveChanges(items + [created]);
      }
    }

    /** UpdateAsync: replaces the first item with the same id and saves; false,
        with the store unchanged, when no item has that id. */
    method Update(item: TodoItem) returns (ok: bool)
      modifies this
      ensures old(file) == Malformed ==> !ok && file == old(file)
      ensures old(file) != Malformed ==>
        var items := AllItems(old(file));
        var i := IndexOfItem(items, item.id);
        (i == -1 ==> !ok && file == old(file)) &&
        (i >= 0 ==> ok && file == Stored(PersistAll(items[i := item])))
    {
      var loaded := LoadItems(file);
      match loaded {
        case ParseError =>
          ok := false;
        case Items(items) =>
          var i := IndexOfItem(items, item.id);
          if i == -1 {
            ok := false;
          } else {
            ok := SaveChanges(items[i := item]);
          }
      }
    }

    /** DeleteAsync: removes the first item with the id and saves; false,
        with the store unchanged, when no item has that id. */
    method Delete(id: int) returns (ok: bool)
      modifies this
      ensures old(file) == Malformed ==> !ok && file == old(file)
      ensures old(file) != Malformed ==>
        var items := AllItems(old(file));
        var i := IndexOfItem(items, id);
        (i == -1 ==> !ok && file == old(file)) &&
        (i >= 0 ==> ok && file == Stored(PersistAll(RemoveAt(items, i))))
    {
      var loaded := LoadItems(file);
      match loaded {
        case ParseError =>
          ok := false;
        case Items(items) =>
          var i := IndexOfItem(items, id);
          if i == -1 {
            ok := false;
          } else {
            ok := SaveChanges(RemoveAt(items, i));
          }
      }
    }
  }

  /** A created item with Id 0 gets an id no stored item has, so looking it
      up afterwards finds exactly what was saved. */
  lemma CreatedIsFound(items: seq<TodoItem>, item: TodoItem)
    requires item.id == 0
    ensures var c := AssignId(items, item);
      ItemById(Stored(PersistAll(items + [c])), c.id) == Some(PersistedItem(c))
  {
    var c := AssignId(items, item);
    var saved := PersistAll(items + [c]);
    assert forall j :: 0 <= j < |items| ==> saved[j].id == items[j].id;
    assert saved[|items|] == PersistedItem(c);
    FirstIndexIs(saved, ItemHasId(c.id), |items|);
  }

  /** After an update of a present id, looking the id up finds the new item
      as saved. */
  lemma UpdatedIsFound(items: seq<TodoItem>, item: TodoItem)
    requires IndexOfItem(items, item.id) >= 0
    ensures ItemById(Stored(PersistAll(items[IndexOfItem(items, item.id) := item])), item.id) == Some(PersistedItem(item))
  {
    var i := IndexOfItem(items, item.id);
    var saved := PersistAll(items[i := item]);
    assert forall j :: 0 <= j < i ==> saved[j].id == items[j].id;
    FirstIndexIs(saved, ItemHasId(item.id), i);
  }

  /** Deleting an id removes exactly one item with it, keeps the others in
      order, and leaves the id absent when it occurred once. */
  lemma DeleteRemovesOne(items: seq<TodoItem>, id: int)
    requires IndexOfItem(items, id) >= 0
    requires forall j, k :: 0 <= j < k < |items| ==> items[j].id != items[k].id
    ensures var r := RemoveAt(items, IndexOfItem(items, id));
      |r| == |items| - 1 && IndexOfItem(r, id) == -1
  {
    var i := IndexOfItem(items, id);
    var r := RemoveAt(items, i);
    assert forall j :: 0 <= j < |r| ==> r[j] == items[if j < i then j else j + 1];
  }
}
