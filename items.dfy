/**
 * The item codec of the kit loader: one persisted item record
 * `{name, custom_name, lore, count, enchantments: [{name, level}]}` is turned into an item
 * stack by looking its names up in two resolvers, and an item stack is written back as such a
 * record using the canonical names of its types.
 */
module Items {
  import opened Results

  /** An item type as the item-name resolver hands it out: its vanilla (canonical) name, and
      whether items of this type have durability. */
  datatype ItemType = ItemType(typeName: string, durable: bool)

  /** An enchantment type as the enchantment-name resolver hands it out, with its canonical name. */
  datatype EnchantmentType = EnchantmentType(typeName: string)

  /** One enchantment on an item: its type and its level. */
  datatype Enchantment = Enchantment(kind: EnchantmentType, level: int)

  /** An item stack. `lockTag` (the byte under the item-lock tag) and `unbreakable` exist only at
      run time: neither is written by the encoder. */
  datatype Item = Item(
    kind: ItemType,
    customName: string,
    lore: seq<string>,
    count: int,
    enchantments: seq<Enchantment>,
    lockTag: Option<int>,
    unbreakable: bool)

  /** The persisted shape of one enchantment: `{name, level}`. */
  datatype EnchantmentRecord = EnchantmentRecord(name: string, level: int)

  /** The persisted shape of one item: `{name, custom_name, lore, count, enchantments}`. */
  datatype Record = Record(
    name: string,
    customName: string,
    lore: seq<string>,
    count: int,
    enchantments: seq<EnchantmentRecord>)

  /** The item-name parser and the enchantment-name parser, as partial maps: a name that is not
      a key does not resolve. */
  datatype Resolvers = Resolvers(items: map<string, ItemType>, enchantments: map<string, EnchantmentType>)

  /** The record field whose value did not resolve. */
  datatype Field = ItemName | EnchantmentName

  /** Resolves every enchantment entry in order; the first name that does not resolve makes the
      whole list fail. */
  function DecodeEnchantments(resolve: map<string, EnchantmentType>, es: seq<EnchantmentRecord>): (r: Option<seq<Enchantment>>)
    ensures r.Some? <==> forall j :: 0 <= j < |es| ==> es[j].name in resolve
    ensures r.Some? ==> |r.value| == |es|
    ensures r.Some? ==> forall j :: 0 <= j < |es| ==> r.value[j] == Enchantment(resolve[es[j].name], es[j].level)
  {
    if es == [] then Some([])
    else if es[0].name !in resolve then None
    else match DecodeEnchantments(resolve, es[1..])
      case None => None
      case Some(rest) => Some([Enchantment(resolve[es[0].name], es[0].level)] + rest)
  }

  /** Decodes one record: the item name is resolved first, then custom name, lore and count are
      copied, then every enchantment is resolved and added. No item survives a failure. */
  function DecodeRecord(res: Resolvers, rec: Record): (r: Result<Item, Field>)
    ensures r.Ok? <==> rec.name in res.items && forall j :: 0 <= j < |rec.enchantments| ==> rec.enchantments[j].name in res.enchantments
    ensures rec.name !in res.items ==> r == Err(ItemName)
    ensures rec.name in res.items && r.Err? ==> r == Err(EnchantmentName)
    ensures r.Ok? ==> r.value.kind == res.items[rec.name]
    ensures r.Ok? ==> r.value.customName == rec.customName && r.value.lore == rec.lore && r.value.count == rec.count
    ensures r.Ok? ==> |r.value.enchantments| == |rec.enchantments|
    ensures r.Ok? ==> forall j :: 0 <= j < |rec.enchantments| ==>
      r.value.enchantments[j] == Enchantment(res.enchantments[rec.enchantments[j].name], rec.enchantments[j].level)
    ensures r.Ok? ==> r.value.lockTag == None && !r.value.unbreakable
  {
    if rec.name !in res.items then Err(ItemName)
    else match DecodeEnchantments(res.enchantments, rec.enchantments)
      case None => Err(EnchantmentName)
      case Some(es) => Ok(Item(res.items[rec.name], rec.customName, rec.lore, rec.count, es, None, false))
  }

  /** Writes every enchantment as `{type name, level}`, in the item's order. */
  function EncodeEnchantments(es: seq<Enchantment>): (r: seq<EnchantmentRecord>)
    ensures |r| == |es|
    ensures forall j :: 0 <= j < |es| ==> r[j] == EnchantmentRecord(es[j].kind.typeName, es[j].level)
  {
    if es == [] then [] else [EnchantmentRecord(es[0].kind.typeName, es[0].level)] + EncodeEnchantments(es[1..])
  }

  /** Writes one item as a record: vanilla name, custom name, lore, count and enchantments. */
  function EncodeItem(item: Item): (r: Record)
    ensures r.name == item.kind.typeName
    ensures r.customName == item.customName && r.lore == item.lore && r.count == item.count
    ensures |r.enchantments| == |item.enchantments|
    ensures forall j :: 0 <= j < |item.enchantments| ==>
      r.enchantments[j] == EnchantmentRecord(item.enchantments[j].kind.typeName, item.enchantments[j].level)
  {
    Record(item.kind.typeName, item.customName, item.lore, item.count, EncodeEnchantments(item.enchantments))
  }

  /** An item without its run-time-only flags: what a record can carry. */
  function Bare(item: Item): Item
  {
    item.(lockTag := None, unbreakable := false)
  }

  /** The resolvers map the canonical names of the item's type and of each of its enchantment
      types back to those same types. */
  ghost predicate Canonical(res: Resolvers, item: Item)
  {
    && item.kind.typeName in res.items
    && res.items[item.kind.typeName] == item.kind
    && forall j :: 0 <= j < |item.enchantments| ==>
         && item.enchantments[j].kind.typeName in res.enchantments
         && res.enchantments[item.enchantments[j].kind.typeName] == item.enchantments[j].kind
  }

  /** The record already uses canonical names: each name resolves to a type whose canonical
      name is that same name. */
  ghost predicate UsesCanonicalNames(res: Resolvers, rec: Record)
  {
    && rec.name in res.items
    && res.items[rec.name].typeName == rec.name
    && forall j :: 0 <= j < |rec.enchantments| ==>
         && rec.enchantments[j].name in res.enchantments
         && res.enchantments[rec.enchantments[j].name].typeName == rec.enchantments[j].name
  }

  /** Round trip: decoding the record written for an item gives the item back, up to the
      run-time-only lock and unbreakable flags. */
  lemma DecodeEncode(res: Resolvers, item: Item)
    requires Canonical(res, item)
    ensures DecodeRecord(res, EncodeItem(item)) == Ok(Bare(item))
  {
    var rec := EncodeItem(item);
    var r := DecodeRecord(res, rec);
    assert r.Ok?;
    assert r.value.enchantments == item.enchantments;
  }

  /** The other direction: a record that uses canonical names is written back unchanged after
      it is decoded. */
  lemma EncodeDecode(res: Resolvers, rec: Record)
    requires UsesCanonicalNames(res, rec)
    ensures DecodeRecord(res, rec).Ok?
    ensures EncodeItem(DecodeRecord(res, rec).value) == rec
  {
    var item := DecodeRecord(res, rec).value;
    assert EncodeEnchantments(item.enchantments) == rec.enchantments;
  }
}
