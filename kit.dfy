/**
 * The kit manager: a kit document with one entry per inventory category, loaded at start-up into
 * three slot sets of items (validated, then locked and made unbreakable), and written back one
 * category at a time.
 */
module Kit {
  import opened Results
  import opened Items

  const Inventory: string := "inventory"
  const ArmorInventory: string := "armorInventory"
  const OffHandInventory: string := "offHandInventory"

  /** The categories in the order the loader visits them. */
  const Categories: seq<string> := [Inventory, ArmorInventory, OffHandInventory]

  /** Values of the item-lock tag: locked in its slot (armour), or locked in the inventory. */
  const ItemLockInSlot: int := 1
  const ItemLockInInventory: int := 2

  /** A slot set: slot index to entry, in the order of the underlying array. The indices of such
      an array are distinct, so writing a new index appends. */
  type Slots<T> = seq<(int, T)>

  /** The value stored under a category key: an array of records by slot index, or any
      non-array value (a string, a number, a boolean). */
  datatype Value = Entries(entries: Slots<Record>) | Scalar

  /** The kit document, key by key (the in-memory contents of the kit file). */
  type Document = map<string, Value>

  /** Why loading a category failed: its value is not an array, or the entry at `index` has a
      name that does not resolve, in `field`. */
  datatype LoadError = NotAnArray(key: string) | InvalidValue(key: string, index: int, field: Field)

  /** The entry at `j` is the first entry whose record does not decode. */
  ghost predicate FirstFailure(res: Resolvers, es: Slots<Record>, j: int)
    requires 0 <= j < |es|
  {
    DecodeRecord(res, es[j].1).Err? && forall i :: 0 <= i < j ==> DecodeRecord(res, es[i].1).Ok?
  }

  /** Decodes a category's entries in array order, keeping each one's slot index; the first entry
      that fails aborts with an error naming the category, its index and the field. */
  function DecodeEntries(res: Resolvers, key: string, es: Slots<Record>): (r: Result<Slots<Item>, LoadError>)
    decreases |es|
    ensures r.Ok? <==> forall j :: 0 <= j < |es| ==> DecodeRecord(res, es[j].1).Ok?
    ensures r.Ok? ==> |r.value| == |es|
    ensures r.Ok? ==> forall j :: 0 <= j < |es| ==> r.value[j] == (es[j].0, DecodeRecord(res, es[j].1).value)
  {
    if es == [] then Ok([])
    else
      var last := es[|es| - 1];
      match DecodeEntries(res, key, es[..|es| - 1])
      case Err(e) => Err(e)
      case Ok(prefix) =>
        match DecodeRecord(res, last.1)
        case Err(f) => Err(InvalidValue(key, last.0, f))
        case Ok(item) => Ok(prefix + [(last.0, item)])
  }

  /** A failed decode names the first entry that fails: its slot index and the field that did
      not resolve. */
  lemma {:induction false} DecodeEntriesFirstFailure(res: Resolvers, key: string, es: Slots<Record>, j: int)
    requires 0 <= j < |es| && FirstFailure(res, es, j)
    ensures DecodeEntries(res, key, es) == Err(InvalidValue(key, es[j].0, DecodeRecord(res, es[j].1).error))
    decreases |es|
  {
    var init := es[..|es| - 1];
    if j < |es| - 1 {
      assert FirstFailure(res, init, j);
      DecodeEntriesFirstFailure(res, key, init, j);
    } else {
      assert DecodeEntries(res, key, init).Ok?;
    }
  }

  /** One category of the document: a missing key reads as an empty array, a non-array value is
      rejected, an array is decoded entry by entry. */
  function DecodeCategory(res: Resolvers, doc: Document, key: string): (r: Result<Slots<Item>, LoadError>)
    ensures key !in doc ==> r == Ok([])
    ensures key in doc && doc[key].Scalar? ==> r == Err(NotAnArray(key))
    ensures key in doc && doc[key].Entries? ==> r == DecodeEntries(res, key, doc[key].entries)
  {
    if key !in doc then Ok([])
    else match doc[key]
      case Scalar => Err(NotAnArray(key))
      case Entries(es) => DecodeEntries(res, key, es)
  }

  /** The lock value the loader gives items of a category. */
  function LockValue(key: string): int
  {
    if key == ArmorInventory then ItemLockInSlot else ItemLockInInventory
  }

  /** The post-load transform of one item: set the lock tag, and make durable items unbreakable. */
  function PostLoad(key: string, item: Item): (r: Item)
    ensures r.lockTag == Some(LockValue(key))
    ensures r.unbreakable <==> item.kind.durable || item.unbreakable
    ensures Bare(r) == Bare(item)
  {
    item.(lockTag := Some(LockValue(key)), unbreakable := if item.kind.durable then true else item.unbreakable)
  }

  /** The post-load transform applied to every item of a slot set, keeping the slot indices. */
  function Prepared(key: string, s: Slots<Item>): (r: Slots<Item>)
    decreases |s|
    ensures |r| == |s|
    ensures forall j :: 0 <= j < |s| ==> r[j] == (s[j].0, PostLoad(key, s[j].1))
  {
    if s == [] then [] else Prepared(key, s[..|s| - 1]) + [(s[|s| - 1].0, PostLoad(key, s[|s| - 1].1))]
  }

  /** Every item of the slot set carries the category's lock value, and is unbreakable exactly
      when its type is durable. */
  ghost predicate Flagged(key: string, s: Slots<Item>)
  {
    forall j :: 0 <= j < |s| ==> s[j].1.lockTag == Some(LockValue(key)) && s[j].1.unbreakable == s[j].1.kind.durable
  }

  /** A value per category, keyed by category name. */
  function CategoryMap<V>(inv: V, armor: V, offHand: V): map<string, V>
  {
    map[Inventory := inv, ArmorInventory := armor, OffHandInventory := offHand]
  }

  /** Overwriting one category of a category map. */
  lemma CategoryMapUpdate<V>(inv: V, armor: V, offHand: V, w: V)
    ensures CategoryMap(inv, armor, offHand)[Inventory := w] == CategoryMap(w, armor, offHand)
    ensures CategoryMap(inv, armor, offHand)[ArmorInventory := w] == CategoryMap(inv, w, offHand)
    ensures CategoryMap(inv, armor, offHand)[OffHandInventory := w] == CategoryMap(inv, armor, w)
  {
  }

  /** The in-memory items before anything is loaded: all three categories empty. */
  function EmptyItems(): map<string, Slots<Item>>
  {
    CategoryMap([], [], [])
  }

  /** The loader after its first `n` categories: the first failure aborts, otherwise each visited
      category holds its prepared items and the others are still empty. */
  function LoadCategories(res: Resolvers, doc: Document, n: nat): Result<map<string, Slots<Item>>, LoadError>
    requires n <= |Categories|
  {
    if n == 0 then Ok(EmptyItems())
    else match LoadCategories(res, doc, n - 1)
      case Err(e) => Err(e)
      case Ok(items) =>
        match DecodeCategory(res, doc, Categories[n - 1])
        case Err(e) => Err(e)
        case Ok(decoded) => Ok(items[Categories[n - 1] := Prepared(Categories[n - 1], decoded)])
  }

  /** The whole load of a document: inventory, then armour, then off-hand; the first category that
      fails supplies the error, otherwise each category holds its decoded items, prepared. */
  function LoadKit(res: Resolvers, doc: Document): Result<map<string, Slots<Item>>, LoadError>
  {
    match DecodeCategory(res, doc, Inventory)
    case Err(e) => Err(e)
    case Ok(inv) =>
      match DecodeCategory(res, doc, ArmorInventory)
      case Err(e) => Err(e)
      case Ok(armor) =>
        match DecodeCategory(res, doc, OffHandInventory)
        case Err(e) => Err(e)
        case Ok(offHand) => Ok(CategoryMap(
          Prepared(Inventory, inv), Prepared(ArmorInventory, armor), Prepared(OffHandInventory, offHand)))
  }

  /** A load succeeds exactly when all three categories decode; a failed load reports the first
      failing category, in the order inventory, armour, off-hand. */
  lemma LoadKitOutcome(res: Resolvers, doc: Document)
    ensures LoadKit(res, doc).Ok? <==>
      DecodeCategory(res, doc, Inventory).Ok? && DecodeCategory(res, doc, ArmorInventory).Ok? && DecodeCategory(res, doc, OffHandInventory).Ok?
    ensures DecodeCategory(res, doc, Inventory).Err? ==> LoadKit(res, doc) == Err(DecodeCategory(res, doc, Inventory).error)
    ensures (DecodeCategory(res, doc, Inventory).Ok? && DecodeCategory(res, doc, ArmorInventory).Err?) ==>
      LoadKit(res, doc) == Err(DecodeCategory(res, doc, ArmorInventory).error)
    ensures (DecodeCategory(res, doc, Inventory).Ok? && DecodeCategory(res, doc, ArmorInventory).Ok? && DecodeCategory(res, doc, OffHandInventory).Err?) ==>
      LoadKit(res, doc) == Err(DecodeCategory(res, doc, OffHandInventory).error)
  {
  }

  /** Serializes a slot set, keeping slot indices and order. */
  function EncodeSlots(s: Slots<Item>): (r: Slots<Record>)
    decreases |s|
    ensures |r| == |s|
    ensures forall j :: 0 <= j < |s| ==> r[j] == (s[j].0, EncodeItem(s[j].1))
  {
    if s == [] then [] else EncodeSlots(s[..|s| - 1]) + [(s[|s| - 1].0, EncodeItem(s[|s| - 1].1))]
  }

  /** Once an array prefix fails to decode, the whole array fails with the same error. */
  lemma {:induction false} DecodeEntriesErrSticks(res: Resolvers, key: string, es: Slots<Record>, n: nat)
    requires n <= |es|
    requires DecodeEntries(res, key, es[..n]).Err?
    ensures DecodeEntries(res, key, es) == DecodeEntries(res, key, es[..n])
    decreases |es| - n
  {
    if n < |es| {
      assert es[..n + 1][..n] == es[..n];
      DecodeEntriesErrSticks(res, key, es, n + 1);
    } else {
      assert es[..n] == es;
    }
  }

  /** Once a category fails, the load fails with that category's error. */
  lemma {:induction false} LoadErrSticks(res: Resolvers, doc: Document, n: nat)
    requires n <= |Categories|
    requires LoadCategories(res, doc, n).Err?
    ensures LoadCategories(res, doc, |Categories|) == LoadCategories(res, doc, n)
    decreases |Categories| - n
  {
    if n < |Categories| {
      LoadErrSticks(res, doc, n + 1);
    }
  }

  /** One more category: on top of a successful prefix, a category that decodes is written in,
      prepared. */
  lemma LoadStep(res: Resolvers, doc: Document, n: nat, decoded: Slots<Item>)
    requires n < |Categories|
    requires LoadCategories(res, doc, n).Ok?
    requires DecodeCategory(res, doc, Categories[n]) == Ok(decoded)
    ensures LoadCategories(res, doc, n + 1) ==
      Ok(LoadCategories(res, doc, n).value[Categories[n] := Prepared(Categories[n], decoded)])
  {
  }

  /** A loader prefix has all three category keys, and the categories not yet visited are empty. */
  lemma {:induction false} LoadPrefixShape(res: Resolvers, doc: Document, n: nat)
    requires n <= |Categories|
    requires LoadCategories(res, doc, n).Ok?
    ensures LoadCategories(res, doc, n).value.Keys == {Inventory, ArmorInventory, OffHandInventory}
    ensures forall i :: n <= i < |Categories| ==> LoadCategories(res, doc, n).value[Categories[i]] == []
  {
    if n > 0 {
      LoadPrefixShape(res, doc, n - 1);
    }
  }

  /** The loader loop, run over all three categories, computes exactly the load of the document. */
  lemma LoadCategoriesComplete(res: Resolvers, doc: Document)
    ensures LoadCategories(res, doc, |Categories|) == LoadKit(res, doc)
  {
    var inv := DecodeCategory(res, doc, Inventory);
    var armor := DecodeCategory(res, doc, ArmorInventory);
    var offHand := DecodeCategory(res, doc, OffHandInventory);
    if inv.Err? {
      assert LoadCategories(res, doc, 1) == Err(inv.error);
      LoadErrSticks(res, doc, 1);
    } else {
      var pi := Prepared(Inventory, inv.value);
      CategoryMapUpdate([], [], [], pi);
      assert LoadCategories(res, doc, 1) == Ok(CategoryMap(pi, [], []));
      if armor.Err? {
        assert LoadCategories(res, doc, 2) == Err(armor.error);
        LoadErrSticks(res, doc, 2);
      } else {
        var pa := Prepared(ArmorInventory, armor.value);
        CategoryMapUpdate(pi, [], [], pa);
        assert LoadCategories(res, doc, 2) == Ok(CategoryMap(pi, pa, []));
        if offHand.Ok? {
          CategoryMapUpdate(pi, pa, [], Prepared(OffHandInventory, offHand.value));
        }
      }
    }
  }

  /** After a load, armour items are locked in their slot, the other items locked in the
      inventory, and exactly the durable items are unbreakable. */
  lemma LoadedItemsFlagged(res: Resolvers, doc: Document)
    requires LoadKit(res, doc).Ok?
    ensures LoadKit(res, doc).value.Keys == {Inventory, ArmorInventory, OffHandInventory}
    ensures forall k :: k in LoadKit(res, doc).value ==> Flagged(k, LoadKit(res, doc).value[k])
  {
    forall k | k in LoadKit(res, doc).value
      ensures Flagged(k, LoadKit(res, doc).value[k])
    {
      var decoded := DecodeCategory(res, doc, k).value;
      assert LoadKit(res, doc).value[k] == Prepared(k, decoded);
      forall j | 0 <= j < |decoded| ensures !decoded[j].1.unbreakable {
        if k in doc {
          assert decoded[j].1 == DecodeRecord(res, doc[k].entries[j].1).value;
        }
      }
    }
  }

  /** Saving a slot set and decoding that category again gives back its items under the same
      indices, without the run-time-only flags, provided the resolvers map canonical names back. */
  lemma SaveThenDecode(res: Resolvers, doc: Document, key: string, s: Slots<Item>)
    requires forall j :: 0 <= j < |s| ==> Canonical(res, s[j].1)
    ensures DecodeCategory(res, doc[key := Entries(EncodeSlots(s))], key).Ok?
    ensures |DecodeCategory(res, doc[key := Entries(EncodeSlots(s))], key).value| == |s|
    ensures forall j :: 0 <= j < |s| ==> DecodeCategory(res, doc[key := Entries(EncodeSlots(s))], key).value[j] == (s[j].0, Bare(s[j].1))
  {
    var es := EncodeSlots(s);
    forall j | 0 <= j < |s| ensures DecodeRecord(res, es[j].1) == Ok(Bare(s[j].1)) {
      DecodeEncode(res, s[j].1);
    }
  }

  /** Saving one category of a loaded kit as the accessor returned it, then loading the same
      in-memory document again, reproduces that category exactly and leaves the other two as
      they were. */
  lemma SaveThenReload(res: Resolvers, doc: Document, key: string, s: Slots<Item>)
    requires LoadKit(res, doc).Ok?
    requires key in Categories
    requires forall j :: 0 <= j < |s| ==> Canonical(res, s[j].1)
    requires Flagged(key, s)
    ensures LoadKit(res, doc[key := Entries(EncodeSlots(s))]).Ok?
    ensures LoadKit(res, doc[key := Entries(EncodeSlots(s))]).value == LoadKit(res, doc).value[key := s]
  {
    var doc' := doc[key := Entries(EncodeSlots(s))];
    SaveThenDecode(res, doc, key, s);
    PreparedRestoresFlags(key, s, DecodeCategory(res, doc', key).value);
    OtherCategoriesUnchanged(res, doc, key, Entries(EncodeSlots(s)));
    LoadKitReplace(res, doc, doc', key);
  }

  /** Overwriting one key of the document leaves the decoding of every other key as it was. */
  lemma OtherCategoriesUnchanged(res: Resolvers, doc: Document, key: string, v: Value)
    ensures forall k :: k != key ==> DecodeCategory(res, doc[key := v], k) == DecodeCategory(res, doc, k)
  {
    forall k | k != key ensures DecodeCategory(res, doc[key := v], k) == DecodeCategory(res, doc, k) {
      assert (k in doc[key := v] <==> k in doc) && (k in doc ==> doc[key := v][k] == doc[k]);
    }
  }

  /** Replacing the document under one category changes the load only in that category. */
  lemma LoadKitReplace(res: Resolvers, doc: Document, doc': Document, key: string)
    requires LoadKit(res, doc).Ok?
    requires key in Categories
    requires DecodeCategory(res, doc', key).Ok?
    requires forall k :: k in Categories && k != key ==> DecodeCategory(res, doc', k) == DecodeCategory(res, doc, k)
    ensures LoadKit(res, doc').Ok?
    ensures LoadKit(res, doc').value == LoadKit(res, doc).value[key := Prepared(key, DecodeCategory(res, doc', key).value)]
  {
    assert Inventory in Categories && ArmorInventory in Categories && OffHandInventory in Categories;
    var inv, armor, offHand := DecodeCategory(res, doc, Inventory), DecodeCategory(res, doc, ArmorInventory), DecodeCategory(res, doc, OffHandInventory);
    var inv', armor', offHand' := DecodeCategory(res, doc', Inventory), DecodeCategory(res, doc', ArmorInventory), DecodeCategory(res, doc', OffHandInventory);
    assert inv'.Ok? && armor'.Ok? && offHand'.Ok?;
    var p := Prepared(key, DecodeCategory(res, doc', key).value);
    var pi, pa, po := Prepared(Inventory, inv.value), Prepared(ArmorInventory, armor.value), Prepared(OffHandInventory, offHand.value);
    CategoryMapUpdate(pi, pa, po, p);
    if key == Inventory {
      assert armor' == armor && offHand' == offHand;
    } else if key == ArmorInventory {
      assert inv' == inv && offHand' == offHand;
    } else {
      assert inv' == inv && armor' == armor;
    }
  }

  /** The loader's transform gives back the flags that stripping removed, for items that carried
      the category's flags. */
  lemma PreparedRestoresFlags(key: string, s: Slots<Item>, stripped: Slots<Item>)
    requires Flagged(key, s)
    requires |stripped| == |s| && forall j :: 0 <= j < |s| ==> stripped[j] == (s[j].0, Bare(s[j].1))
    ensures Prepared(key, stripped) == s
  {
    var p := Prepared(key, stripped);
    forall j | 0 <= j < |s| ensures p[j] == s[j] {
      assert p[j] == (s[j].0, PostLoad(key, Bare(s[j].1)));
    }
  }

  class KitManager {
    /** The kit document as held by the configuration object. */
    var kit: Document
    /** The loaded items, one slot set per category. */
    var items: map<string, Slots<Item>>
    /** The item-name and enchantment-name parsers. */
    const res: Resolvers

    /** The items stay as the loader left them: all three categories, every item flagged. */
    ghost predicate Valid()
      reads this
    {
      && items.Keys == {Inventory, ArmorInventory, OffHandInventory}
      && forall k :: k in items ==> Flagged(k, items[k])
    }

    /** The object before its load loop: the document read, every category empty. */
    constructor Init(kit: Document, res: Resolvers)
      ensures this.kit == kit && this.res == res && items == EmptyItems()
    {
      this.kit := kit;
      this.res := res;
      items := EmptyItems();
    }

    /** Builds the manager: visits the categories in order, decodes each, and writes each item,
        locked and made unbreakable where durable, under its slot index. A failure aborts the
        construction, so no half-loaded manager exists. */
    static method Open(kit: Document, res: Resolvers) returns (r: Result<KitManager, LoadError>)
      ensures r.Err? <==> LoadKit(res, kit).Err?
      ensures r.Err? ==> r.error == LoadKit(res, kit).error
      ensures r.Ok? ==> fresh(r.value) && r.value.Valid()
      ensures r.Ok? ==> r.value.kit == kit && r.value.res == res && r.value.items == LoadKit(res, kit).value
    {
      var m := new KitManager.Init(kit, res);
      var c := 0;
      while c < |Categories|
        invariant 0 <= c <= |Categories|
        invariant m.kit == kit && m.res == res
        invariant LoadCategories(res, kit, c) == Ok(m.items)
      {
        var key := Categories[c];
        var data := m.LoadKitData(key);
        if data.Err? {
          LoadErrSticks(res, kit, c + 1);
          LoadCategoriesComplete(res, kit);
          return Err(data.error);
        }
        var slots := data.value;
        LoadPrefixShape(res, kit, c);
        LoadStep(res, kit, c, slots);
        assert m.items[key] == [];
        m.StoreItems(key, slots);
        assert [] + Prepared(key, slots) == Prepared(key, slots);
        c := c + 1;
      }
      LoadCategoriesComplete(res, kit);
      LoadedItemsFlagged(res, kit);
      return Ok(m);
    }

    /** The body of the load loop for one category: each decoded item, locked and made
        unbreakable where durable, is written under its slot index. */
    method StoreItems(key: string, slots: Slots<Item>)
      requires key in items
      modifies this`items
      ensures items == old(items)[key := old(items)[key] + Prepared(key, slots)]
    {
      var j := 0;
      assert old(items)[key] + Prepared(key, slots[..0]) == old(items)[key];
      assert items == old(items)[key := old(items)[key]];
      while j < |slots|
        invariant 0 <= j <= |slots|
        invariant items == old(items)[key := old(items)[key] + Prepared(key, slots[..j])]
      {
        var (index, item) := slots[j];
        assert slots[..j + 1][..j] == slots[..j];
        assert Prepared(key, slots[..j + 1]) == Prepared(key, slots[..j]) + [(index, PostLoad(key, item))];
        assert old(items)[key] + Prepared(key, slots[..j + 1]) == items[key] + [(index, PostLoad(key, item))];
        items := items[key := items[key] + [(index, PostLoad(key, item))]];
        j := j + 1;
      }
      assert slots[..j] == slots;
    }

    /** Reads one category of the document and decodes it, without touching the loaded items. */
    method LoadKitData(key: string) returns (r: Result<Slots<Item>, LoadError>)
      ensures r == DecodeCategory(res, kit, key)
    {
      if key !in kit {
        return Ok([]);
      }
      if kit[key].Scalar? {
        return Err(NotAnArray(key));
      }
      var entries := kit[key].entries;
      var decoded: Slots<Item> := [];
      var j := 0;
      while j < |entries|
        invariant 0 <= j <= |entries|
        invariant DecodeEntries(res, key, entries[..j]) == Ok(decoded)
      {
        var (index, data) := entries[j];
        assert entries[..j + 1][..j] == entries[..j];
        var item := DecodeRecord(res, data);
        if item.Err? {
          DecodeEntriesErrSticks(res, key, entries, j + 1);
          return Err(InvalidValue(key, index, item.error));
        }
        decoded := decoded + [(index, item.value)];
        j := j + 1;
      }
      assert entries[..j] == entries;
      return Ok(decoded);
    }

    method GetInventoryItems() returns (r: Slots<Item>)
      requires Valid()
      ensures r == items[Inventory] && Flagged(Inventory, r)
    {
      r := items[Inventory];
    }

    method GetArmorInventoryItems() returns (r: Slots<Item>)
      requires Valid()
      ensures r == items[ArmorInventory] && Flagged(ArmorInventory, r)
    {
      r := items[ArmorInventory];
    }

    method GetOffHandInventoryItems() returns (r: Slots<Item>)
      requires Valid()
      ensures r == items[OffHandInventory] && Flagged(OffHandInventory, r)
    {
      r := items[OffHandInventory];
    }

    /** Encodes `slots` entry by entry and overwrites the document's `key` entry with the result;
        every other key of the document and the loaded items stay as they were. */
    method SaveKit(key: string, slots: Slots<Item>)
      modifies this`kit
      ensures kit == old(kit)[key := Entries(EncodeSlots(slots))]
      ensures forall k :: k != key ==> (k in kit <==> k in old(kit)) && (k in kit ==> kit[k] == old(kit)[k])
      ensures items == old(items)
    {
      var itemsData: Slots<Record> := [];
      var j := 0;
      while j < |slots|
        invariant 0 <= j <= |slots|
        invariant itemsData == EncodeSlots(slots[..j])
      {
        var (index, item) := slots[j];
        assert slots[..j + 1][..j] == slots[..j];
        itemsData := itemsData + [(index, EncodeItem(item))];
        j := j + 1;
      }
      assert slots[..j] == slots;
      kit := kit[key := Entries(itemsData)];
    }
  }
}
