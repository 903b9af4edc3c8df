/** The plugin store on disk as a value, and what each committed operation makes of it. */
module StoreModel {
  import opened Wrappers
  import opened Paths

  /** `packages/<plugin id>/<version>`. */
  datatype Location = Location(pluginId: string, version: string)

  /** The files of an unpacked package by relative path. */
  datatype Tree = Tree(files: map<string, Bytes>)

  datatype InstalledVersion = InstalledVersion(version: string, packageSha256: string, source: string, path: Location)

  datatype Entry = Entry(pluginId: string, active: Option<string>, versions: map<string, InstalledVersion>)

  datatype Inventory = Inventory(revision: int, plugins: map<string, Entry>)

  /** An active pointer file, or one that holds no JSON object. */
  datatype Pointer = Pointer(pluginId: string, version: string, path: Location) | Unreadable

  datatype Store = Store(inventory: Inventory, packages: map<Location, Tree>, pointers: map<string, Pointer>)

  /** What resolving and inspecting a package source yields. */
  datatype Package = Package(pluginId: string, version: string, sha256: string, source: string, tree: Tree)

  const MANIFEST := "plugin.json"

  const PAYLOAD := "payload/"

  predicate HasPayload(tree: Tree) {
    exists path :: path in tree.files && PAYLOAD <= path
  }

  /** An unpacked package has its manifest and its payload directory; inspection sees to that. */
  predicate Sound(tree: Tree) {
    MANIFEST in tree.files && HasPayload(tree)
  }

  // ---------------------------------------------------------------- the inventory

  predicate ValidEntry(pluginId: string, entry: Entry) {
    && entry.pluginId == pluginId
    && (entry.active.Some? ==> entry.active.value in entry.versions)
    && forall v :: v in entry.versions ==> entry.versions[v].version == v
  }

  /** `validate_inventory` */
  predicate ValidInventory(inventory: Inventory) {
    && inventory.revision >= 0
    && forall id :: id in inventory.plugins ==> ValidEntry(id, inventory.plugins[id])
  }

  predicate HasVersion(inventory: Inventory, pluginId: string, version: string) {
    pluginId in inventory.plugins && version in inventory.plugins[pluginId].versions
  }

  function EntryOf(inventory: Inventory, pluginId: string): Entry {
    if pluginId in inventory.plugins then inventory.plugins[pluginId] else Entry(pluginId, None, map[])
  }

  function PutEntry(inventory: Inventory, entry: Entry): Inventory {
    Inventory(inventory.revision + 1, inventory.plugins[entry.pluginId := entry])
  }

  function PlaceOf(p: Package): Location {
    Location(p.pluginId, p.version)
  }

  function RecordOf(p: Package): InstalledVersion {
    InstalledVersion(p.version, p.sha256, p.source, PlaceOf(p))
  }

  function PointerTo(pluginId: string, record: InstalledVersion): Pointer {
    Pointer(pluginId, record.version, record.path)
  }

  // ---------------------------------------------------------------- committed operations

  function InventoryWith(inventory: Inventory, p: Package): Inventory {
    var entry := EntryOf(inventory, p.pluginId);
    PutEntry(inventory, Entry(p.pluginId, Some(p.version), entry.versions[p.version := RecordOf(p)]))
  }

  predicate CanInstall(s: Store, p: Package) {
    ValidInventory(s.inventory) && !HasVersion(s.inventory, p.pluginId, p.version) && PlaceOf(p) !in s.packages && Sound(p.tree)
  }

  function Installed(s: Store, p: Package): Store {
    Store(InventoryWith(s.inventory, p), s.packages[PlaceOf(p) := p.tree],
          s.pointers[p.pluginId := PointerTo(p.pluginId, RecordOf(p))])
  }

  function InventorySwitched(inventory: Inventory, pluginId: string, target: string): Inventory
    requires HasVersion(inventory, pluginId, target)
  {
    PutEntry(inventory, inventory.plugins[pluginId].(active := Some(target)))
  }

  predicate CanRollBack(s: Store, pluginId: string, target: string) {
    && ValidInventory(s.inventory) && HasVersion(s.inventory, pluginId, target)
    && s.inventory.plugins[pluginId].versions[target].path in s.packages
  }

  function RolledBack(s: Store, pluginId: string, target: string): Store
    requires CanRollBack(s, pluginId, target)
  {
    var record := s.inventory.plugins[pluginId].versions[target];
    s.(inventory := InventorySwitched(s.inventory, pluginId, target),
       pointers := s.pointers[pluginId := PointerTo(pluginId, record)])
  }

  /** The versions that stay when `version` goes. */
  function Others(entry: Entry, version: string): map<string, InstalledVersion> {
    entry.versions - {version}
  }

  /** The active version may go only if it is the last one, or another installed version takes its place. */
  predicate ReplacementFits(entry: Entry, version: string, replacement: Option<string>) {
    entry.active == Some(version) ==>
      if replacement.None? then Others(entry, version) == map[]
      else replacement.value in entry.versions && replacement.value != version
  }

  function ActiveAfter(entry: Entry, version: string, replacement: Option<string>): Option<string> {
    if entry.active == Some(version) then replacement else entry.active
  }

  function InventoryWithout(inventory: Inventory, pluginId: string, version: string, replacement: Option<string>): Inventory
    requires HasVersion(inventory, pluginId, version)
  {
    var entry := inventory.plugins[pluginId];
    if Others(entry, version) == map[] then
      Inventory(inventory.revision + 1, inventory.plugins - {pluginId})
    else
      PutEntry(inventory, Entry(pluginId, ActiveAfter(entry, version, replacement), Others(entry, version)))
  }

  predicate CanRemove(s: Store, pluginId: string, version: string, replacement: Option<string>) {
    && ValidInventory(s.inventory) && HasVersion(s.inventory, pluginId, version)
    && ReplacementFits(s.inventory.plugins[pluginId], version, replacement)
    && s.inventory.plugins[pluginId].versions[version].path in s.packages
  }

  function PointersWithout(s: Store, pluginId: string, version: string, replacement: Option<string>): map<string, Pointer>
    requires CanRemove(s, pluginId, version, replacement)
  {
    var entry := s.inventory.plugins[pluginId];
    var active := ActiveAfter(entry, version, replacement);
    if Others(entry, version) == map[] then s.pointers - {pluginId}
    else if active.Some? then s.pointers[pluginId := PointerTo(pluginId, entry.versions[active.value])]
    else s.pointers
  }

  function Removed(s: Store, pluginId: string, version: string, replacement: Option<string>): Store
    requires CanRemove(s, pluginId, version, replacement)
  {
    Store(InventoryWithout(s.inventory, pluginId, version, replacement),
          s.packages - {s.inventory.plugins[pluginId].versions[version].path},
          PointersWithout(s, pluginId, version, replacement))
  }

  /** `save_inventory` never rejects what an operation is about to save. */
  lemma {:induction false} SavedInventoriesAreValid(inventory: Inventory, p: Package, pluginId: string, version: string, replacement: Option<string>)
    requires ValidInventory(inventory)
    ensures ValidInventory(InventoryWith(inventory, p))
    ensures HasVersion(inventory, pluginId, version) ==> ValidInventory(InventorySwitched(inventory, pluginId, version))
    ensures HasVersion(inventory, pluginId, version) && ReplacementFits(inventory.plugins[pluginId], version, replacement) ==>
      ValidInventory(InventoryWithout(inventory, pluginId, version, replacement))
  {
  }
}
