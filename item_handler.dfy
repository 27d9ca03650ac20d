/**
 * The catalogue handler: inserting and updating items, linking them to
 * suppliers, and the per-section dropdown values the item form offers.
 */
module ItemHandler {
  import opened Wrappers
  import opened Schema
  import PoHandler

  // ---------------------------------------------------------------------
  // Item/supplier links
  // ---------------------------------------------------------------------

  /** The names of the suppliers linked to an item (ItemSupplier joined with Supplier). */
  function GetItemSuppliers(links: set<(int, int)>, suppliers: map<int, string>, itemId: int): (names: set<string>)
    ensures forall n :: n in names <==>
      exists s :: (itemId, s) in links && s in suppliers && suppliers[s] == n
    ensures (forall s :: (itemId, s) !in links) ==> names == {}
  {
    var names := PoHandler.LinkedSupplierNames(links, suppliers, itemId);
    assert forall n :: n in names ==> exists s :: (itemId, s) in links && s in suppliers && suppliers[s] == n by {
      forall n | n in names ensures exists s :: (itemId, s) in links && s in suppliers && suppliers[s] == n {
        var p :| p in links && p.0 == itemId && p.1 in suppliers && suppliers[p.1] == n;
        var s := p.1;
        assert (itemId, s) == p;
        assert (itemId, s) in links && s in suppliers && suppliers[s] == n;
      }
    }
    assert forall s :: (itemId, s) in links && s in suppliers ==> suppliers[s] in names by {
      forall s | (itemId, s) in links && s in suppliers ensures suppliers[s] in names {
        var p := (itemId, s);
        assert p in links && p.0 == itemId && p.1 in suppliers;
      }
    }
    names
  }

  /** The links after inserting (item, id) for each id, ignoring pairs already present. */
  function Linked(links: set<(int, int)>, itemId: int, ids: seq<int>): (r: set<(int, int)>)
    ensures forall p :: p in r <==> p in links || (p.0 == itemId && p.1 in ids)
    ensures ids == [] ==> r == links
  {
    var added := set s | s in ids :: (itemId, s);
    assert forall p: (int, int) :: p.0 == itemId && p.1 in ids ==> p in added by {
      forall p: (int, int) | p.0 == itemId && p.1 in ids ensures p in added {
        var s := p.1;
        assert s in ids && p == (itemId, s);
      }
    }
    links + added
  }

  /** The links after deleting every link of the item. */
  function Unlinked(links: set<(int, int)>, itemId: int): (r: set<(int, int)>)
    ensures forall p :: p in r <==> p in links && p.0 != itemId
  {
    set p | p in links && p.0 != itemId
  }

  /** The pairs a flat parameter list (item, supplier, item, supplier, ...) binds. */
  function PairsOf(params: seq<int>): set<(int, int)>
    decreases |params|
  {
    if |params| < 2 then {} else {(params[0], params[1])} + PairsOf(params[2..])
  }

  /** The parameter list the handler extends with [item_id, supplier_id] per supplier. */
  method BuildLinkParams(itemId: int, ids: seq<int>) returns (params: seq<int>)
    ensures |params| == 2 * |ids|
    ensures forall k :: 0 <= k < |ids| ==> params[2 * k] == itemId && params[2 * k + 1] == ids[k]
  {
    params := [];
    var i := 0;
    while i < |ids|
      invariant 0 <= i <= |ids|
      invariant |params| == 2 * i
      invariant forall k :: 0 <= k < i ==> params[2 * k] == itemId && params[2 * k + 1] == ids[k]
    {
      params := params + [itemId, ids[i]];
      i := i + 1;
    }
  }

  /** The multi-row VALUES list binds exactly the pairs (item, id) for the listed ids. */
  lemma {:induction false} PairsOfParams(itemId: int, ids: seq<int>, params: seq<int>)
    requires |params| == 2 * |ids|
    requires forall k :: 0 <= k < |ids| ==> params[2 * k] == itemId && params[2 * k + 1] == ids[k]
    ensures PairsOf(params) == set s | s in ids :: (itemId, s)
    decreases |ids|
  {
    if ids != [] {
      var rest := params[2..];
      forall k | 0 <= k < |ids[1..]|
        ensures rest[2 * k] == itemId && rest[2 * k + 1] == ids[1..][k]
      {
        assert rest[2 * k] == params[2 * (k + 1)];
        assert rest[2 * k + 1] == params[2 * (k + 1) + 1];
      }
      PairsOfParams(itemId, ids[1..], rest);
      assert params[0] == itemId && params[1] == ids[0];
      assert forall s :: s in ids <==> s == ids[0] || s in ids[1..];
    }
  }

  /**
   * INSERT ... ON CONFLICT DO NOTHING of one (item, id) pair per listed id:
   * the links grow by exactly those pairs; an empty list returns at once.
   */
  method LinkItemSuppliers(db: Database, itemId: int, ids: seq<int>)
    modifies db`itemSuppliers
    ensures db.itemSuppliers == Linked(old(db.itemSuppliers), itemId, ids)
  {
    if ids == [] {
      return;
    }
    var params := BuildLinkParams(itemId, ids);
    PairsOfParams(itemId, ids, params);
    db.itemSuppliers := db.itemSuppliers + PairsOf(params);
  }

  /** Linking the same ids again changes nothing, and linking never removes a link. */
  lemma LinkingIsIdempotent(links: set<(int, int)>, itemId: int, ids: seq<int>)
    ensures Linked(Linked(links, itemId, ids), itemId, ids) == Linked(links, itemId, ids)
    ensures links <= Linked(links, itemId, ids)
  {
  }

  predicate Distinct(s: seq<int>) {
    forall i, j :: 0 <= i < j < |s| ==> s[i] != s[j]
  }

  /**
   * Replace the item's links: DELETE them, then INSERT one pair per id in
   * order. A repeated id violates the pair's uniqueness; the failing
   * statement ends the call with the earlier statements in place, and
   * `failedAt` is that id's position.
   */
  method UpdateItemSuppliers(db: Database, itemId: int, ids: seq<int>) returns (failedAt: Option<nat>)
    modifies db`itemSuppliers
    ensures var n := if failedAt.Some? then failedAt.value else |ids|;
      n <= |ids| && db.itemSuppliers == Linked(Unlinked(old(db.itemSuppliers), itemId), itemId, ids[..n])
    ensures failedAt.None? <==> Distinct(ids)
    ensures failedAt.Some? ==> failedAt.value < |ids| && ids[failedAt.value] in ids[..failedAt.value]
    ensures failedAt.Some? ==> Distinct(ids[..failedAt.value])
    ensures failedAt.None? ==> forall s :: (itemId, s) in db.itemSuppliers <==> s in ids
    ensures forall p: (int, int) :: p.0 != itemId ==> (p in db.itemSuppliers <==> p in old(db.itemSuppliers))
  {
    db.itemSuppliers := Unlinked(db.itemSuppliers, itemId);
    var i := 0;
    while i < |ids|
      invariant 0 <= i <= |ids|
      invariant db.itemSuppliers == Linked(Unlinked(old(db.itemSuppliers), itemId), itemId, ids[..i])
      invariant Distinct(ids[..i])
    {
      if (itemId, ids[i]) in db.itemSuppliers {
        assert ids[i] in ids[..i];
        assert !Distinct(ids) by {
          var j :| 0 <= j < i && ids[..i][j] == ids[i];
          assert ids[j] == ids[i];
        }
        return Some(i);
      }
      assert forall j :: 0 <= j < i ==> ids[j] != ids[i] by {
        forall j | 0 <= j < i ensures ids[j] != ids[i] {
          assert ids[j] in ids[..i];
        }
      }
      assert ids[..i + 1] == ids[..i] + [ids[i]];
      db.itemSuppliers := db.itemSuppliers + {(itemId, ids[i])};
      i := i + 1;
    }
    assert ids[..i] == ids;
    return None;
  }

  /** After a successful replacement with existing suppliers, the item's supplier names are theirs. */
  lemma ReplacedSupplierNames(links: set<(int, int)>, suppliers: map<int, string>, itemId: int, ids: seq<int>)
    requires forall k :: 0 <= k < |ids| ==> ids[k] in suppliers
    ensures GetItemSuppliers(Linked(Unlinked(links, itemId), itemId, ids), suppliers, itemId)
            == set k | 0 <= k < |ids| :: suppliers[ids[k]]
  {
    var after := Linked(Unlinked(links, itemId), itemId, ids);
    var names := GetItemSuppliers(after, suppliers, itemId);
    forall k | 0 <= k < |ids| ensures suppliers[ids[k]] in names {
      assert (itemId, ids[k]) in after;
    }
    forall n | n in names ensures n in set k | 0 <= k < |ids| :: suppliers[ids[k]] {
      var s :| (itemId, s) in after && s in suppliers && suppliers[s] == n;
      var k :| 0 <= k < |ids| && ids[k] == s;
    }
  }

  // ---------------------------------------------------------------------
  // Items
  // ---------------------------------------------------------------------

  /**
   * INSERT INTO item ... RETURNING itemid. `stored` says whether the insert
   * returned a row; only then are the suppliers linked and the new id returned.
   */
  method AddItem(db: Database, data: map<Column, Value>, supplierIds: seq<int>, now: int, stored: bool)
    returns (id: Option<int>)
    requires db.Valid()
    modifies db`items, db`nextItemId, db`itemSuppliers
    ensures db.Valid()
    ensures stored ==>
      && id == Some(old(db.nextItemId))
      && id.value !in old(db.items)
      && db.items == old(db.items)[id.value := Item(data, now, now)]
      && db.nextItemId == old(db.nextItemId) + 1
      && db.itemSuppliers == Linked(old(db.itemSuppliers), id.value, supplierIds)
    ensures !stored ==>
      && id == None
      && db.items == old(db.items) && db.nextItemId == old(db.nextItemId)
      && db.itemSuppliers == old(db.itemSuppliers)
  {
    if !stored {
      return None;
    }
    var newId := db.nextItemId;
    db.items := db.items[newId := Item(data, now, now)];
    db.nextItemId := newId + 1;
    LinkItemSuppliers(db, newId, supplierIds);
    return Some(newId);
  }

  /**
   * The item table after UPDATE item SET <named columns>, updatedat = now
   * WHERE itemid = id: only that item, only the named columns and its
   * update time change; an id with no row changes nothing.
   */
  function Updated(items: map<int, Item>, itemId: int, updated: map<Column, Value>, now: int): (r: map<int, Item>)
    ensures r.Keys == items.Keys
    ensures forall id :: id in items && id != itemId ==> r[id] == items[id]
    ensures itemId in items ==>
      && r[itemId].createdAt == items[itemId].createdAt
      && r[itemId].updatedAt == now
      && (forall c :: c in updated ==> Cell(r[itemId].cols, c) == updated[c])
      && (forall c :: c !in updated ==> Cell(r[itemId].cols, c) == Cell(items[itemId].cols, c))
  {
    if itemId in items then
      var old_ := items[itemId];
      items[itemId := Item(old_.cols + updated, old_.createdAt, now)]
    else items
  }

  /** An empty update only warns (`warned`); otherwise the one UPDATE runs. */
  method UpdateItem(db: Database, itemId: int, updated: map<Column, Value>, now: int) returns (warned: bool)
    modifies db`items
    ensures warned <==> updated == map[]
    ensures db.items == if warned then old(db.items) else Updated(old(db.items), itemId, updated, now)
  {
    if updated == map[] {
      return true;
    }
    db.items := Updated(db.items, itemId, updated, now);
    return false;
  }

  // ---------------------------------------------------------------------
  // Dropdowns
  // ---------------------------------------------------------------------

  /** The values stored for one section. */
  function GetDropdownValues(dropdowns: set<(string, string)>, section: string): (values: set<string>)
    ensures forall v :: v in values <==> (section, v) in dropdowns
  {
    set p | p in dropdowns && p.0 == section :: p.1
  }

  /** INSERT ... ON CONFLICT (section, value) DO NOTHING. */
  method AddDropdownValue(db: Database, section: string, value: string)
    modifies db`dropdowns
    ensures db.dropdowns == old(db.dropdowns) + {(section, value)}
  {
    db.dropdowns := db.dropdowns + {(section, value)};
  }

  /** DELETE of exactly that (section, value) pair. */
  method DeleteDropdownValue(db: Database, section: string, value: string)
    modifies db`dropdowns
    ensures db.dropdowns == old(db.dropdowns) - {(section, value)}
  {
    db.dropdowns := db.dropdowns - {(section, value)};
  }

  /**
   * Adding offers the value in its section and touches no other section;
   * adding twice is adding once; deleting withdraws just that value.
   */
  lemma DropdownEdits(dropdowns: set<(string, string)>, section: string, value: string, other: string)
    ensures GetDropdownValues(dropdowns + {(section, value)}, section) == GetDropdownValues(dropdowns, section) + {value}
    ensures GetDropdownValues(dropdowns - {(section, value)}, section) == GetDropdownValues(dropdowns, section) - {value}
    ensures other != section ==>
      && GetDropdownValues(dropdowns + {(section, value)}, other) == GetDropdownValues(dropdowns, other)
      && GetDropdownValues(dropdowns - {(section, value)}, other) == GetDropdownValues(dropdowns, other)
    ensures dropdowns + {(section, value)} + {(section, value)} == dropdowns + {(section, value)}
  {
  }
}
