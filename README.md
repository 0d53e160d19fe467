# Kit and stats persistence of the FFA arena plugin, in Dafny

This project models two stateful components of the FFA (free-for-all arena) game mode and proves
properties about them.

1. **The kit manager** (`src/KitManager.php`). It keeps the kit document: one entry per inventory
   category (`inventory`, `armorInventory`, `offHandInventory`). Each entry maps slot indices to
   item records `{name, custom_name, lore, count, enchantments: [{name, level}]}`. At start-up it
   visits the three categories in that order and decodes every record through the item-name and
   enchantment-name parsers. It then tags each item with the item-lock value (1 for armour,
   "locked in slot"; 2 for the rest, "locked in inventory") and makes durable items unbreakable.
   `saveKit` encodes one slot set and overwrites that one category of the document.
2. **The per-player stats record** (`src/session/Stats.php`). It holds kills, deaths, the
   kill/death ratio and the highest kill streak. Constructing it issues a player upsert and a
   read of the player's row. The read's rows arrive later. Every mutation issues
   fire-and-forget writes to the store.

Files:

- `results.dfy`: module `Results`, with `Option`, `Result` and `Outcome`.
- `items.dfy`: module `Items`, the record codec. It holds the item, record and resolver datatypes,
  `DecodeRecord`, `EncodeItem` and the two round-trip lemmas.
- `kit.dfy`: module `Kit`. It holds the document shape, the specification of a load
  (`DecodeEntries`, `DecodeCategory`, `Prepared`, `LoadKit`), the save encoding (`EncodeSlots`),
  the load/save lemmas, and class `KitManager`. The class has fields `kit` (the document),
  `items` (the loaded slot sets) and `res` (the resolvers).
- `stats.dfy`: module `Session`. It holds the store operations, the ratio in hundredths
  with its rounding lemmas, and class `Stats`. The class has fields for the four counters and an
  `ops` log of the store calls it has issued.

Modelling choices:

- **Resolvers.** The item parser and the enchantment parser are partial maps in `Resolvers`. An
  item type is its vanilla name plus a `durable` flag. An enchantment type is its name.
- **Slot sets.** A slot set is `seq<(int, T)>`: slot index to entry, in array order. A PHP array
  is an ordered map with distinct keys. Keeping the order lets the model say which entry's error
  a failed load reports: the first failing one in the document's order. Writing
  `$items[$index] = $item` into an array that starts empty appends, so the model appends.
- **The document.** It is `map<string, Value>`. A `Value` is an array of records (`Entries`) or
  a non-array value (`Scalar`), which the loader rejects.
- **The fallible constructor.** The PHP constructor can throw. So the load is the static method
  `KitManager.Open`, which returns either a fresh manager or the load error. Because the error
  aborts construction, no half-loaded manager can be observed.
- **The ratio.** It is an integer number of hundredths. PHP's `round($k / $m, 2)` rounds halves
  away from zero. For `k >= 0` it is `(200*k + m) / (2*m)`, and for negative `k` the mirror
  image, with `m` the divisor (`deaths` when positive, else 1). `RoundsTo` is an independent
  definition of "rounded to two decimals". `KdrRounds` and `RoundsToUnique` prove that the
  formula meets it and that it is unique.
- **Asynchronous calls.** Store calls are appended to `ops` when they are issued. The rows of the
  `statsByUuid` read arrive through `DeliverRows`. A zero-row result is the defect the source
  raises as an exception: `DeliverRows` returns `Fail(PlayerNotRegistered)` and changes nothing,
  because the source throws before assigning any field.

A reader might expect `addKill` and `addDeath` to update the in-memory ratio. They do not: they
only issue `updateKdr` with a recomputed value, and `kdr` is assigned only at construction and
when rows arrive (src/session/Stats.php:46, 64). So `AddKill` and `AddDeath` leave `kdr`
unchanged, and `TwoKillsThenDeath` shows the in-memory ratio still at 0 while the issued ratios
are 1.00, 2.00 and 2.00.

## Model

| member | source | states |
|---|---|---|
| `Items.DecodeEnchantments` | src/KitManager.php:108-114 | the enchantment list resolves exactly when every entry's name resolves; then it holds one enchantment per entry, in order, with that entry's resolved type and level |
| `Items.DecodeRecord` | src/KitManager.php:100-114 | a record decodes exactly when its item name and all enchantment names resolve; an unresolved item name fails with `ItemName` (checked first), otherwise an unresolved enchantment fails with `EnchantmentName`; on success the item has the resolved type, the record's custom name, lore and count, one enchantment per entry, no lock tag and is not unbreakable |
| `Items.EncodeEnchantments` | src/KitManager.php:161-168 | the encoder writes one `{type name, level}` entry per enchantment, in the item's order; its partner is `DecodeEnchantments`, through the round-trip lemmas |
| `Items.EncodeItem` | src/KitManager.php:169-175 | a record carries the item type's vanilla name, the custom name, lore and count, and one `{type name, level}` per enchantment in order; `DecodeEncode` and `EncodeDecode` tie it to `DecodeRecord` |
| `Items.DecodeEncode` | src/KitManager.php:163-175 | round trip: when the resolvers map canonical names back to the same types, decoding the record written for an item gives the item back, with only the lock tag and unbreakable flag cleared |
| `Items.EncodeDecode` | src/KitManager.php:100-113 | the other round trip: a record that uses canonical names decodes, and encoding the decoded item gives back exactly that record |
| `Kit.DecodeEntries` | src/KitManager.php:99-119 | a category's array decodes exactly when every record decodes; the result then has the same slot indices in the same order, each with the decoded item |
| `Kit.DecodeEntriesFirstFailure` | src/KitManager.php:99-117 | if entry `j` is the first record that fails, decoding the array fails with `InvalidValue(key, index of j, failing field)` and yields no items |
| `Kit.DecodeEntriesErrSticks` | src/KitManager.php:99-117 | once a prefix of the array fails, the whole array fails with that same error: later entries are not looked at |
| `Kit.DecodeCategory` | src/KitManager.php:80-84 | a missing category reads as an empty slot set; a present non-array value fails with `NotAnArray(key)`; an array is decoded entry by entry |
| `Kit.PostLoad` | src/KitManager.php:61-67 | the post-load transform sets the category's lock value, makes an item unbreakable when its type is durable (and keeps it unbreakable if it already was), and changes nothing else about the item |
| `Kit.Prepared` | src/KitManager.php:59-69 | the post-load pass keeps every slot index and applies the lock and unbreakable transform to each item |
| `Kit.LoadErrSticks` | src/KitManager.php:58-59 | once a category fails, the whole load fails with that category's error |
| `Kit.LoadPrefixShape` | src/KitManager.php:44-48 | while loading, all three category keys are present and categories not yet visited are still empty |
| `Kit.LoadKitOutcome` | src/KitManager.php:58-71 | a load succeeds exactly when all three categories decode; a failure carries the error of the first failing category in the order inventory, armour, off-hand |
| `Kit.LoadCategoriesComplete` | src/KitManager.php:58-71 | running the load loop over the three categories computes `LoadKit`: the first failing category in the order inventory, armour, off-hand supplies the error, otherwise each category holds its prepared items |
| `Kit.LoadedItemsFlagged` | src/KitManager.php:61-67 | after a successful load, every armour item has lock value 1, every inventory and off-hand item has lock value 2, and exactly the items of durable type are unbreakable |
| `Kit.EncodeSlots` | src/KitManager.php:153-176 | `saveKit`'s loop writes one record per item under the same slot index, in order; `SaveThenDecode` proves decoding gives the items back |
| `Kit.SaveThenDecode` | src/KitManager.php:141-178 | after saving a slot set under a key, decoding that key gives the same slot indices with the same items, minus the run-time-only flags, when the resolvers map canonical names back |
| `Kit.OtherCategoriesUnchanged` | src/KitManager.php:178 | overwriting one document key leaves the decoding of every other key unchanged |
| `Kit.LoadKitReplace` | src/KitManager.php:58-71 | if only one category of the document changes and it still decodes, a fresh load differs from the old one only in that category |
| `Kit.PreparedRestoresFlags` | src/KitManager.php:61-67 | for items that carry their category's flags, the post-load pass restores exactly what stripping the run-time flags removed |
| `Kit.SaveThenReload` | src/KitManager.php:141-178 | saving one category of a loaded kit as the accessors return it, then loading the in-memory document again, reproduces that category exactly and leaves the other two as loaded before |
| `Kit.KitManager.Init` | src/KitManager.php:44-56 | before the load loop, the manager holds the document and all three categories are empty |
| `Kit.KitManager.Open` | src/KitManager.php:50-72 | construction fails exactly when `LoadKit` fails, with its error and no manager; otherwise the fresh manager holds the document and exactly the loaded items, and keeps its invariant |
| `Kit.KitManager.StoreItems` | src/KitManager.php:59-70 | the inner load loop appends each decoded item, transformed, under its slot index to its category, and touches no other category |
| `Kit.KitManager.LoadKitData` | src/KitManager.php:77-120 | the loop computes `DecodeCategory` of the manager's document and leaves the loaded items alone |
| `Kit.KitManager.GetInventoryItems` | src/KitManager.php:125 | returns the loaded inventory slot set, in which every item carries lock value 2 and is unbreakable exactly when durable |
| `Kit.KitManager.GetArmorInventoryItems` | src/KitManager.php:130 | returns the loaded armour slot set, in which every item carries lock value 1 and is unbreakable exactly when durable |
| `Kit.KitManager.GetOffHandInventoryItems` | src/KitManager.php:135 | returns the loaded off-hand slot set, in which every item carries lock value 2 and is unbreakable exactly when durable |
| `Kit.KitManager.SaveKit` | src/KitManager.php:141-179 | the document's `key` entry becomes the encoding of the slot set under the same indices; every other document key and the loaded items are unchanged |
| `Session.Kdr` | src/session/Stats.php:111 | the issued ratio has the sign of the kill count; `KdrRounds` and `RoundsToUnique` prove it is the ratio rounded to hundredths |
| `Session.KdrRounds` | src/session/Stats.php:111 | the issued ratio is `kills / divisor` rounded to hundredths with halves away from zero, where the divisor is `deaths` if positive and 1 otherwise |
| `Session.RoundsToUnique` | src/session/Stats.php:111 | that rounding determines at most one number of hundredths |
| `Session.KdrWithoutDeaths` | src/session/Stats.php:111 | with no deaths the divisor is 1 and the ratio equals the kill count |
| `Session.KdrExactRatio` | src/session/Stats.php:111 | a whole ratio is exact: `c * deaths` kills over `deaths > 0` deaths gives `c` |
| `Session.Stats.constructor` | src/session/Stats.php:41-57 | the record takes its identity and the given counters (zero by default) and issues exactly `Player(uuid, name)` then `StatsByUuid(uuid)` |
| `Session.Stats.FromRow` | src/session/Stats.php:30-39 | a record built from a row has that row's identity and counters and issues the same two calls |
| `Session.Stats.DeliverRows` | src/session/Stats.php:58-66 | no rows is the defect `PlayerNotRegistered` and changes nothing; otherwise all four counters are overwritten from the first row; nothing is issued |
| `Session.Stats.GetName` | src/session/Stats.php:71 | returns the record's name |
| `Session.Stats.GetKills` | src/session/Stats.php:73 | returns the in-memory kill count |
| `Session.Stats.GetDeaths` | src/session/Stats.php:81 | returns the in-memory death count |
| `Session.Stats.GetKdr` | src/session/Stats.php:89 | returns the in-memory ratio: the constructor's value (0 by default, or the row's for `FromRow`) until rows arrive, then the value from the first row |
| `Session.Stats.GetHighestKillStreak` | src/session/Stats.php:91 | returns the in-memory highest kill streak |
| `Session.Stats.UpdateStat` | src/session/Stats.php:99-115 | appends `Update(uuid, stat, value)`, then, only for `kills` or `deaths`, `UpdateKdr` with the ratio of the current counters |
| `Session.Stats.AddKill` | src/session/Stats.php:75-79 | kills goes up by exactly one; deaths, the in-memory ratio and the streak are unchanged; `Update(uuid, "kills", new kills)` then `UpdateKdr(uuid, ratio of the new kills)` are appended |
| `Session.Stats.AddDeath` | src/session/Stats.php:83-87 | deaths goes up by exactly one; kills, the in-memory ratio and the streak are unchanged; `Update(uuid, "deaths", new deaths)` then `UpdateKdr(uuid, ratio with the new deaths)` are appended |
| `Session.Stats.SetHighestKillStreak` | src/session/Stats.php:93-97 | the streak becomes the value with no comparison to the old one; exactly one `Update(uuid, "highestKillStreak", value)` is appended and no ratio |
| `Session.TwoKillsThenDeath` | src/session/Stats.php:75-113 | after construction, two kills and a death: kills 2, deaths 1, in-memory ratio still 0, and the log is upsert, read, then kills/ratio, kills/ratio, deaths/ratio with ratios 1.00, 2.00, 2.00 |

Every `Stats` method keeps `Valid()`: the upsert and the read come first, all later calls are
writes, and every call carries the record's own `uuid`. `uuid` and `name` are `const` fields, so
they never change after construction.

## Left out

- File handling in the kit manager's constructor is not modelled. That covers copying the bundled
  `kit.json` when the file is missing, and the JSON-backed configuration object. The document is
  an in-memory map given to `KitManager.Open`. `saveKit` only updates that map: the source
  calls `Config::set` and never `Config::save`, so nothing is written to disk there either.
  A consequence: the next construction of a kit manager reads `kit.json` from disk
  (src/KitManager.php:52-56), which `saveKit` never wrote, so a saved category is lost across
  constructions. `SaveThenReload` is about loading the same in-memory document again, not
  about that later construction.
- The item and enchantment parsers, the named tag, durability and unbreakability are engine
  internals. They appear as partial maps, a `lockTag` field, a `durable` flag and an
  `unbreakable` field.
- Whether the real parsers accept the vanilla and enchantment names the encoder writes is a
  property of those parsers. The round-trip lemmas assume it (`Canonical`, `UsesCanonicalNames`).
- Items are values in the model. In the source an `Item` is a shared object: the three accessors
  (src/KitManager.php:125, 130, 135) return arrays whose elements are the very objects held in
  `$this->items`, so a caller that mutates a returned item changes the loaded kit. The accessors'
  `r == items[...]` and `SaveKit`'s `items == old(items)` do not capture that aliasing.
- Slot indices are `int`. The source iterates `$kitData as $index => $data`
  (src/KitManager.php:99), where a JSON object key that is not numeric stays a string key; such
  keys are not modelled.
- Slot sets do not enforce distinct indices. In PHP `$items[$index] = $item`
  (src/KitManager.php:116, 169) overwrites an existing index; the model appends, which agrees
  with the source only when the indices are distinct, as they are in any PHP array the loader
  or the saver reads.
- How the engine treats two enchantments of the same type on one item is not modelled. The model
  keeps both entries, in order.
- The text of the exception messages is not modelled. The error values carry what those messages
  name: the category key, the slot index, and whether the item name or an enchantment name failed.
  Written out, the source's enchantment path reads `key.index.enchantmentsname`, with no dot
  before `name`.
- Mistyped record fields (type errors under strict typing) and entries that are not arrays are
  not modelled; record fields are taken as already typed. The only checks modelled are the
  non-array category, the unresolved item name and the unresolved enchantment name.
- A category key whose value is JSON `null` is not modelled. It may read as missing through the
  configuration object's default, and that object is not part of this model.
- Asynchronous execution is not modelled: scheduling, completion order, the store's errors and
  the logging of them. Writes exist only as the `ops` log, and the read exists only as the
  `DeliverRows` step. Error callbacks only log in the source, so they are left out.
- The store's ordering of the upsert before the read is not modelled. `DeliverRows` accepts
  whatever rows it receives.
- Floating-point arithmetic for the ratio is not modelled; the model uses exact integer
  hundredths. Floating-point edge cases of PHP's `round` are out of scope, and so is the float that the
  `(float)` cast reads back from a row.
- Integer overflow at `PHP_INT_MAX` is not modelled: counters are unbounded integers.
- `src/FFA.php` is plugin bootstrap: configuration loading and validation, database connection
  set-up and shutdown, and listener and command registration. It is not part of this model.
