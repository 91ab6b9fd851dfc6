/**
  The table id holder (`TableContext`): one slot of state, `currentTableId`,
  mirrored into the browser storage under the key "currentTableId". Storage
  may be unavailable, in which case every storage access is caught and
  ignored. `null` is `None`; an id is a string.
 */
module Table {
  import opened Seqs

  /** The storage as this context sees it: whether it works, and the value under "currentTableId". */
  datatype Store = Store(available: bool, entry: Option<string>)

  datatype Holder = Holder(current: Option<string>, store: Store)

  /** JavaScript truthiness of an id: neither `null` nor the empty string. */
  predicate Truthy(id: Option<string>) {
    id.Some? && id.value != ""
  }

  /** `getStoredTableId`: the stored value, or `null` when storage throws. */
  function GetStored(store: Store): (r: Option<string>)
    ensures store.available ==> r == store.entry
    ensures !store.available ==> r == None
  {
    if store.available then store.entry else None
  }

  /** `setStoredTableId(id)`: write a truthy id, remove the key otherwise; nothing happens when storage throws. */
  function SetStored(store: Store, id: Option<string>): (r: Store)
    ensures r.available == store.available
    ensures !store.available ==> r == store
    ensures store.available && Truthy(id) ==> r.entry == id
    ensures store.available && !Truthy(id) ==> r.entry == None
  {
    if !store.available then store
    else if Truthy(id) then store.(entry := id)
    else store.(entry := None)
  }

  /** The provider's initial state: the stored id. */
  function Init(store: Store): (r: Holder)
    ensures r.store == store
    ensures r.current == GetStored(store)
    ensures !store.available ==> r.current == None
  {
    Holder(GetStored(store), store)
  }

  /** `setTableId(newTableId)`: a no-op for the id already held; otherwise state and storage both follow. */
  function SetTableId(h: Holder, id: Option<string>): (r: Holder)
    ensures id == h.current ==> r == h
    ensures id != h.current ==> r.current == id && r.store == SetStored(h.store, id)
    ensures r.store.available == h.store.available
  {
    if id == h.current then h else Holder(id, SetStored(h.store, id))
  }

  /** `clearTableId()`: state to `null`, key removed. */
  function ClearTableId(h: Holder): (r: Holder)
    ensures r.current == None
    ensures h.store.available ==> r.store.entry == None
    ensures !h.store.available ==> r.store == h.store
  {
    Holder(None, SetStored(h.store, None))
  }

  /** `hasTableId: !!currentTableId` */
  function HasTableId(h: Holder): (r: bool)
    ensures r <==> h.current.Some? && h.current.value != ""
    ensures h.current == None || h.current == Some("") ==> !r
  {
    Truthy(h.current)
  }

  /**
    The invariant the storage mirror keeps while storage works: the key holds
    the current id, or the id is falsy and the key is gone.
   */
  predicate Mirrored(h: Holder) {
    h.store.available ==> (h.store.entry == h.current || (!Truthy(h.current) && h.store.entry == None))
  }

  lemma InitIsMirrored(store: Store)
    ensures Mirrored(Init(store))
  {
  }

  lemma SetTableIdKeepsMirrored(h: Holder, id: Option<string>)
    requires Mirrored(h)
    ensures Mirrored(SetTableId(h, id))
  {
  }

  lemma ClearTableIdKeepsMirrored(h: Holder)
    requires Mirrored(h)
    ensures Mirrored(ClearTableId(h))
  {
  }

  /**
    What the mirror is for: a mirrored holder, reloaded from its storage,
    reports the same `hasTableId`, and the same id whenever it has one.
   */
  lemma ReloadAgrees(h: Holder)
    requires Mirrored(h) && h.store.available
    ensures HasTableId(Init(h.store)) == HasTableId(h)
    ensures HasTableId(h) ==> Init(h.store).current == h.current
  {
  }

  /** A holder driven only by the context's own operations. */
  datatype TableOp = Set(id: Option<string>) | Clear

  function Apply(h: Holder, op: TableOp): Holder {
    match op
    case Set(id) => SetTableId(h, id)
    case Clear => ClearTableId(h)
  }

  function Run(h: Holder, ops: seq<TableOp>): Holder
    decreases |ops|
  {
    if ops == [] then h else Run(Apply(h, ops[0]), ops[1..])
  }

  /**
    Starting from whatever is stored and applying any sequence of sets and
    clears, a reload from storage agrees with the live `hasTableId` and id.
   */
  lemma {:induction false} RunKeepsMirrored(h: Holder, ops: seq<TableOp>)
    requires Mirrored(h)
    ensures Mirrored(Run(h, ops))
    ensures Run(h, ops).store.available == h.store.available
    decreases |ops|
  {
    if ops != [] {
      match ops[0] {
        case Set(id) => SetTableIdKeepsMirrored(h, id);
        case Clear => ClearTableIdKeepsMirrored(h);
      }
      RunKeepsMirrored(Apply(h, ops[0]), ops[1..]);
    }
  }

  /** Storing a truthy id then reloading gives that id back; a falsy one reloads as no table. */
  lemma SetThenReload(h: Holder, id: Option<string>)
    requires h.store.available && id != h.current
    ensures Truthy(id) ==> Init(SetTableId(h, id).store).current == id
    ensures !Truthy(id) ==> !HasTableId(Init(SetTableId(h, id).store))
  {
  }
}
