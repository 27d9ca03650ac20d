/**
 * The "Add New Item" form: the item record it builds from its widgets, the
 * dropdown fallback, the supplier choice, and the two checks that decide
 * whether the item is inserted.
 */
module AddItem {
  import opened Wrappers
  import opened Schema
  import ItemHandler
  import Relational

  /** The form's plain text fields, in form order. */
  const TextFields: seq<Column> :=
    [ItemNameEnglish, ItemNameKurdish, OriginCountry, Manufacturer, Brand, Barcode, UnitType, Packaging, ItemPicture]

  /** The numeric fields (min_value 0, step 1). */
  const NumericFields: seq<Column> := [ShelfLife, Threshold, AverageRequired]

  /** The fields chosen from the Dropdowns table, keyed by their section name. */
  const DropdownSections: seq<Column> := [ClassCat, DepartmentCat, SectionCat, FamilyCat, SubFamilyCat]

  /** The fields the form insists on. */
  const RequiredFields: seq<Column> := [ItemNameEnglish, ClassCat, DepartmentCat, ShelfLife, Threshold, AverageRequired]

  /** The Dropdowns.section value of a dropdown field. */
  function SectionName(c: Column): string {
    match c
    case ClassCat => "ClassCat"
    case DepartmentCat => "DepartmentCat"
    case SectionCat => "SectionCat"
    case FamilyCat => "FamilyCat"
    case SubFamilyCat => "SubFamilyCat"
    case _ => ""
  }

  /** A text widget's content; an untouched one is empty. */
  function TextOf(text: map<Column, string>, c: Column): string {
    if c in text then text[c] else ""
  }

  /** A number widget's content; an untouched one sits at its minimum 0. */
  function NumberOfInput(numbers: map<Column, nat>, c: Column): nat {
    if c in numbers then numbers[c] else 0
  }

  /**
   * A dropdown field: "" when its section has no values (the only option
   * is the placeholder), otherwise the option the operator has selected.
   */
  function DropdownChoice(dropdowns: set<(string, string)>, chosen: map<Column, string>, c: Column): string {
    if ItemHandler.GetDropdownValues(dropdowns, SectionName(c)) == {} then ""
    else if c in chosen then chosen[c] else ""
  }

  /** A selectbox returns one of its options. */
  predicate ValidSelections(dropdowns: set<(string, string)>, chosen: map<Column, string>) {
    forall c :: c in DropdownSections && ItemHandler.GetDropdownValues(dropdowns, SectionName(c)) != {} ==>
      c in chosen && chosen[c] in ItemHandler.GetDropdownValues(dropdowns, SectionName(c))
  }

  /** How the form fills a column. */
  datatype FieldKind = TextField | NumericField | DropdownField

  function KindOf(c: Column): FieldKind {
    match c
    case ShelfLife | Threshold | AverageRequired => NumericField
    case ClassCat | DepartmentCat | SectionCat | FamilyCat | SubFamilyCat => DropdownField
    case _ => TextField
  }

  /** Each field list holds exactly the columns of its kind, and together they cover the table. */
  lemma FieldLists()
    ensures forall c :: c in TextFields <==> KindOf(c) == TextField
    ensures forall c :: c in NumericFields <==> KindOf(c) == NumericField
    ensures forall c :: c in DropdownSections <==> KindOf(c) == DropdownField
  {
    forall c: Column
      ensures (c in TextFields <==> KindOf(c) == TextField)
           && (c in NumericFields <==> KindOf(c) == NumericField)
           && (c in DropdownSections <==> KindOf(c) == DropdownField)
    {
      match c
      case ItemNameEnglish => case ItemNameKurdish => case ClassCat => case DepartmentCat =>
      case SectionCat => case FamilyCat => case SubFamilyCat => case ShelfLife => case Threshold =>
      case AverageRequired => case OriginCountry => case Manufacturer => case Brand => case Barcode =>
      case UnitType => case Packaging => case ItemPicture =>
    }
  }

  /** The value the form puts in a column. */
  function FieldValue(text: map<Column, string>, numbers: map<Column, nat>,
                      dropdowns: set<(string, string)>, chosen: map<Column, string>, c: Column): Value {
    match KindOf(c)
    case TextField => Text(TextOf(text, c))
    case NumericField => Number(NumberOfInput(numbers, c))
    case DropdownField => Text(DropdownChoice(dropdowns, chosen, c))
  }

  /**
   * `item_data`: every column of the form is set, text fields to their text,
   * numeric fields to a number at least 0, dropdown fields to the choice.
   */
  function ItemData(text: map<Column, string>, numbers: map<Column, nat>,
                    dropdowns: set<(string, string)>, chosen: map<Column, string>): (data: map<Column, Value>)
    ensures forall c: Column :: c in data
    ensures forall c :: c in TextFields ==> data[c] == Text(TextOf(text, c))
    ensures forall c :: c in NumericFields ==> data[c].Number? && data[c].number == NumberOfInput(numbers, c) >= 0
    ensures forall c :: c in DropdownSections ==> data[c] == Text(DropdownChoice(dropdowns, chosen, c))
  {
    FieldLists();
    map c | c in TextFields + NumericFields + DropdownSections :: FieldValue(text, numbers, dropdowns, chosen, c)
  }

  /** The three loops that fill `item_data`, one field at a time. */
  method BuildItemData(text: map<Column, string>, numbers: map<Column, nat>,
                       dropdowns: set<(string, string)>, chosen: map<Column, string>)
    returns (data: map<Column, Value>)
    ensures data == ItemData(text, numbers, dropdowns, chosen)
  {
    FieldLists();
    data := map[];
    var i := 0;
    while i < |TextFields|
      invariant 0 <= i <= |TextFields|
      invariant forall c :: c in data <==> c in TextFields[..i]
      invariant forall c :: c in data ==> data[c] == FieldValue(text, numbers, dropdowns, chosen, c)
    {
      assert TextFields[..i + 1] == TextFields[..i] + [TextFields[i]];
      data := data[TextFields[i] := Text(TextOf(text, TextFields[i]))];
      i := i + 1;
    }
    assert TextFields[..i] == TextFields;
    i := 0;
    while i < |NumericFields|
      invariant 0 <= i <= |NumericFields|
      invariant forall c :: c in data <==> c in TextFields || c in NumericFields[..i]
      invariant forall c :: c in data ==> data[c] == FieldValue(text, numbers, dropdowns, chosen, c)
    {
      assert NumericFields[..i + 1] == NumericFields[..i] + [NumericFields[i]];
      data := data[NumericFields[i] := Number(NumberOfInput(numbers, NumericFields[i]))];
      i := i + 1;
    }
    assert NumericFields[..i] == NumericFields;
    i := 0;
    while i < |DropdownSections|
      invariant 0 <= i <= |DropdownSections|
      invariant forall c :: c in data <==> c in TextFields || c in NumericFields || c in DropdownSections[..i]
      invariant forall c :: c in data ==> data[c] == FieldValue(text, numbers, dropdowns, chosen, c)
    {
      assert DropdownSections[..i + 1] == DropdownSections[..i] + [DropdownSections[i]];
      var c := DropdownSections[i];
      var values := ItemHandler.GetDropdownValues(dropdowns, SectionName(c));
      var selected := if values == {} then "" else if c in chosen then chosen[c] else "";
      data := data[c := Text(selected)];
      i := i + 1;
    }
    assert DropdownSections[..i] == DropdownSections;
  }

  /** The listed fields whose value is falsy, in list order. */
  function MissingOf(fields: seq<Column>, data: map<Column, Value>): (r: seq<Column>)
    ensures |r| <= |fields|
    ensures forall c :: c in r <==> c in fields && !Truthy(Cell(data, c))
  {
    if fields == [] then []
    else (if Truthy(Cell(data, fields[0])) then [] else [fields[0]]) + MissingOf(fields[1..], data)
  }

  /** The required fields the form reports as missing. */
  function MissingFields(data: map<Column, Value>): (r: seq<Column>)
    ensures r == [] <==> forall c :: c in RequiredFields ==> Truthy(Cell(data, c))
  {
    var r := MissingOf(RequiredFields, data);
    assert r != [] ==> r[0] in r;
    r
  }

  /** A required number left at 0 is reported missing. */
  lemma ZeroNumberIsMissing(text: map<Column, string>, numbers: map<Column, nat>,
                            dropdowns: set<(string, string)>, chosen: map<Column, string>, c: Column)
    requires c in NumericFields && NumberOfInput(numbers, c) == 0
    ensures c in MissingOf(RequiredFields, ItemData(text, numbers, dropdowns, chosen))
  {
  }

  /** A required section with no dropdown values is always reported missing. */
  lemma EmptySectionIsMissing(text: map<Column, string>, numbers: map<Column, nat>,
                              dropdowns: set<(string, string)>, chosen: map<Column, string>, c: Column)
    requires c == ClassCat || c == DepartmentCat
    requires ItemHandler.GetDropdownValues(dropdowns, SectionName(c)) == {}
    ensures c in MissingOf(RequiredFields, ItemData(text, numbers, dropdowns, chosen))
  {
  }

  /**
   * The name-to-id options over the fetched Supplier rows, zipped as
   * (name, id) pairs: every listed name maps to the id of the LAST row
   * carrying it.
   */
  function SupplierOptions(rows: seq<(string, int)>): (options: map<string, int>)
    ensures forall name :: name in options <==> exists k :: 0 <= k < |rows| && rows[k].0 == name
    ensures forall name :: name in options ==> Relational.LastFor(rows, name) == Some(options[name])
  {
    Relational.ToDict(rows)
  }

  /**
   * The ids of the chosen names, in the order they were chosen. With no
   * Supplier rows there are no options, so nothing can be chosen.
   */
  function SelectedIds(rows: seq<(string, int)>, names: seq<string>): (ids: seq<int>)
    requires forall k :: 0 <= k < |names| ==> names[k] in SupplierOptions(rows)
    ensures |ids| == |names|
    ensures forall k :: 0 <= k < |names| ==> Relational.LastFor(rows, names[k]) == Some(ids[k])
  {
    var options := SupplierOptions(rows);
    seq(|names|, k requires 0 <= k < |names| => options[names[k]])
  }

  /** What one run of the form ends with. */
  datatype FormOutcome = NotClicked | MissingRequired(fields: seq<Column>) | NoSupplier | Added(itemId: int) | AddFailed

  /**
   * One run of the form. `rows` is the Supplier listing it fetched,
   * `names` the multiselect's choice, `clicked` the button, `stored` whether
   * the handler's INSERT returned an id, `now` CURRENT_TIMESTAMP.
   */
  method AddItemTab(db: Database, text: map<Column, string>, numbers: map<Column, nat>, chosen: map<Column, string>,
                    rows: seq<(string, int)>, names: seq<string>, clicked: bool, now: int, stored: bool)
    returns (outcome: FormOutcome)
    requires db.Valid()
    requires ValidSelections(db.dropdowns, chosen)
    requires forall k :: 0 <= k < |rows| ==> rows[k].1 in db.suppliers && db.suppliers[rows[k].1] == rows[k].0
    requires forall k :: 0 <= k < |names| ==> names[k] in SupplierOptions(rows)
    modifies db`items, db`nextItemId, db`itemSuppliers
    ensures db.Valid()
    ensures var data := ItemData(text, numbers, db.dropdowns, chosen);
      var ids := SelectedIds(rows, names);
      && (!clicked ==> outcome == NotClicked)
      && (clicked && MissingFields(data) != [] ==> outcome == MissingRequired(MissingFields(data)))
      && (clicked && MissingFields(data) == [] && ids == [] ==> outcome == NoSupplier)
      && (clicked && MissingFields(data) == [] && ids != [] ==>
            if stored then
              && outcome == Added(old(db.nextItemId))
              && db.items == old(db.items)[outcome.itemId := Item(data, now, now)]
              && db.itemSuppliers == ItemHandler.Linked(old(db.itemSuppliers), outcome.itemId, ids)
            else outcome == AddFailed)
    ensures !outcome.Added? ==>
      db.items == old(db.items) && db.nextItemId == old(db.nextItemId) && db.itemSuppliers == old(db.itemSuppliers)
    ensures outcome.Added? ==> var ids := SelectedIds(rows, names);
      forall k :: 0 <= k < |names| ==>
        (outcome.itemId, ids[k]) in db.itemSuppliers && ids[k] in db.suppliers && db.suppliers[ids[k]] == names[k]
  {
    var data := BuildItemData(text, numbers, db.dropdowns, chosen);
    var ids := SelectedIds(rows, names);
    if !clicked {
      return NotClicked;
    }
    var missing := MissingFields(data);
    if missing != [] {
      return MissingRequired(missing);
    }
    if ids == [] {
      return NoSupplier;
    }
    var id := ItemHandler.AddItem(db, data, ids, now, stored);
    if id.None? {
      return AddFailed;
    }
    ChosenSuppliersLinked(old(db.itemSuppliers), db.suppliers, rows, names, id.value);
    return Added(id.value);
  }

  /** Every chosen name ends up linked to the new item through the supplier id it maps to. */
  lemma ChosenSuppliersLinked(links: set<(int, int)>, suppliers: map<int, string>, rows: seq<(string, int)>,
                              names: seq<string>, itemId: int)
    requires forall k :: 0 <= k < |rows| ==> rows[k].1 in suppliers && suppliers[rows[k].1] == rows[k].0
    requires forall k :: 0 <= k < |names| ==> names[k] in SupplierOptions(rows)
    ensures var ids := SelectedIds(rows, names);
      forall k :: 0 <= k < |names| ==>
        && (itemId, ids[k]) in ItemHandler.Linked(links, itemId, ids)
        && ids[k] in suppliers && suppliers[ids[k]] == names[k]
  {
    var ids := SelectedIds(rows, names);
    forall k | 0 <= k < |names|
      ensures ids[k] in suppliers && suppliers[ids[k]] == names[k]
    {
      assert Relational.LastFor(rows, names[k]) == Some(ids[k]);
      var j :| 0 <= j < |rows| && rows[j] == (names[k], ids[k]);
    }
  }
}
