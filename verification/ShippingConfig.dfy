/** A vendor's Kargonomi shipping configuration: reading a draft out of stored metadata with its
    alias keys, and writing the draft back. */
module ShippingConfig {
  import opened Options
  import opened Text

  /** A metadata value; `Number` carries what `String` prints, `Other` is an array, object or
      non-finite number. An undefined property is an absent key. */
  datatype Json = Null | Bool(flag: bool) | Number(printed: string) | Str(text: string) | Other

  /** The property names the form knows (`Snake` marks the underscored spelling), and all others. */
  datatype Key =
    | KargonomiBuyerStateId | BuyerStateId | BuyerStateIdSnake
    | KargonomiBuyerCityId | BuyerCityId | BuyerCityIdSnake
    | KargonomiShippingProviderId | KargonomiShippingProviderIdSnake | ShippingProviderId | ShippingProviderIdSnake
    | KargonomiReturnReceiverName | ReturnReceiverName
    | KargonomiReturnReceiverPhone | ReturnReceiverPhone | ReceiverPhone | WarehousePhone | Phone
    | KargonomiReturnReceiverAddress | ReturnReceiverAddress | WarehouseAddress
    | PackageType | PackageTypeSnake
    | Unrelated(name: string)

  type Metadata = map<Key, Json>

  datatype Warehouse = Warehouse(
    warehouseId: string, name: string, address: Option<string>, isDefault: bool, kargonomi: bool)

  datatype Outbound = Kargonomi | VendorIntegration

  /** `metadata` is empty when the stored value is not a record. */
  datatype Config = Config(
    locationGid: Option<string>, outbound: Option<Outbound>, sopyo: bool, defaultWarehouseId: Option<string>,
    metadata: Metadata, warehouses: seq<Warehouse>)

  datatype Draft = Draft(
    locationGid: string, outbound: Option<Outbound>, sopyo: bool, defaultWarehouseId: string,
    shippingProviderId: string, buyerStateId: string, buyerCityId: string,
    receiverName: string, receiverPhone: string, receiverAddress: string, document: bool)

  // ---------------------------------------------------------------------------------------
  // Reading
  // ---------------------------------------------------------------------------------------

  /** `a ?? b ?? …` over keys: the first value that is neither absent nor null. */
  function FirstPresent(m: Metadata, keys: seq<Key>): Json
    decreases |keys|
  {
    if keys == [] then Null
    else if keys[0] in m && !m[keys[0]].Null? then m[keys[0]]
    else FirstPresent(m, keys[1..])
  }

  /** The first text under the keys that is not blank. */
  function FirstNonBlank(m: Metadata, keys: seq<Key>): Option<string>
    decreases |keys|
  {
    if keys == [] then None
    else if keys[0] in m && m[keys[0]].Str? && Trim(m[keys[0]].text) != "" then Some(m[keys[0]].text)
    else FirstNonBlank(m, keys[1..])
  }

  const STATE_KEYS := [KargonomiBuyerStateId, BuyerStateId, BuyerStateIdSnake]
  const CITY_KEYS := [KargonomiBuyerCityId, BuyerCityId, BuyerCityIdSnake]
  const PROVIDER_KEYS :=
    [KargonomiShippingProviderId, KargonomiShippingProviderIdSnake, ShippingProviderId, ShippingProviderIdSnake]
  const NAME_KEYS := [KargonomiReturnReceiverName, ReturnReceiverName]
  const PHONE_KEYS := [KargonomiReturnReceiverPhone, ReturnReceiverPhone, ReceiverPhone, WarehousePhone, Phone]
  const ADDRESS_KEYS := [KargonomiReturnReceiverAddress, ReturnReceiverAddress, WarehouseAddress]

  function ReadText(m: Metadata, keys: seq<Key>): string {
    var raw := FirstPresent(m, keys);
    if raw.Str? then raw.text else ""
  }

  function ReadProviderId(m: Metadata): string {
    var raw := FirstPresent(m, PROVIDER_KEYS);
    if raw.Str? then raw.text else if raw.Number? then raw.printed else ""
  }

  function ReadReceiver(m: Metadata, keys: seq<Key>, fallback: Option<string>): string {
    var found := FirstNonBlank(m, keys);
    if found.Some? then found.value else if fallback.Some? then fallback.value else ""
  }

  /** The package type: a document, or else a box. */
  predicate ReadsDocument(m: Metadata) { FirstPresent(m, [PackageType, PackageTypeSnake]) == Str("document") }

  /** `warehouses.find(isDefault)`. */
  function FindDefault(ws: seq<Warehouse>): Option<Warehouse>
    decreases |ws|
  {
    if ws == [] then None else if ws[0].isDefault then Some(ws[0]) else FindDefault(ws[1..])
  }

  function FindKargonomi(ws: seq<Warehouse>, id: string): Option<Warehouse>
    decreases |ws|
  {
    if ws == [] then None
    else if ws[0].kargonomi && ws[0].warehouseId == id then Some(ws[0])
    else FindKargonomi(ws[1..], id)
  }

  function DefaultOrFirst(ws: seq<Warehouse>): Option<Warehouse> {
    if FindDefault(ws).Some? then FindDefault(ws) else if ws != [] then Some(ws[0]) else None
  }

  function NameFallback(ws: seq<Warehouse>): Option<string> {
    if DefaultOrFirst(ws).Some? then Some(DefaultOrFirst(ws).value.name) else None
  }

  /** The default warehouse's address, or else the first warehouse's. */
  function AddressFallback(ws: seq<Warehouse>): Option<string> {
    if FindDefault(ws).Some? && FindDefault(ws).value.address.Some? then FindDefault(ws).value.address
    else if ws != [] then ws[0].address
    else None
  }

  const NO_CONFIG := Config(None, None, false, None, map[], [])

  /** `buildShippingConfigDraft`, the Kargonomi part; a missing configuration reads as an empty one. */
  function BuildDraft(current: Option<Config>): Draft {
    var c := if current.Some? then current.value else NO_CONFIG;
    Draft(if c.locationGid.Some? then c.locationGid.value else "", c.outbound, c.sopyo,
          if c.defaultWarehouseId.Some? then c.defaultWarehouseId.value
          else if FindDefault(c.warehouses).Some? then FindDefault(c.warehouses).value.warehouseId else "",
          ReadProviderId(c.metadata), ReadText(c.metadata, STATE_KEYS), ReadText(c.metadata, CITY_KEYS),
          ReadReceiver(c.metadata, NAME_KEYS, NameFallback(c.warehouses)),
          ReadReceiver(c.metadata, PHONE_KEYS, None),
          ReadReceiver(c.metadata, ADDRESS_KEYS, AddressFallback(c.warehouses)),
          ReadsDocument(c.metadata))
  }

  /** The first default warehouse is at position `k`. */
  ghost predicate FirstDefault(ws: seq<Warehouse>, k: int) {
    0 <= k < |ws| && ws[k].isDefault && forall j | 0 <= j < k :: !ws[j].isDefault
  }

  lemma {:induction false} DefaultIsFound(ws: seq<Warehouse>) returns (k: nat)
    ensures k <= |ws| && (forall j | 0 <= j < k :: !ws[j].isDefault) && (k < |ws| ==> FirstDefault(ws, k))
    ensures FindDefault(ws) == if k < |ws| then Some(ws[k]) else None
  {
    k := 0;
    if ws != [] && !ws[0].isDefault {
      var rest := DefaultIsFound(ws[1..]);
      k := rest + 1;
      assert forall j | 1 <= j < |ws| :: ws[j] == ws[1..][j - 1];
    }
  }

  /** What a draft takes from the warehouses: with a first default one, its id unless one is stored, its
      name, and its address or else the first warehouse's; without one, the first warehouse's name and
      address, and no id. */
  lemma WarehousesAreReadExactly(c: Config, k: nat)
    ensures c.defaultWarehouseId.Some? ==> BuildDraft(Some(c)).defaultWarehouseId == c.defaultWarehouseId.value
    ensures FirstDefault(c.warehouses, k) ==>
              && NameFallback(c.warehouses) == Some(c.warehouses[k].name)
              && AddressFallback(c.warehouses) ==
                   (if c.warehouses[k].address != None then c.warehouses[k].address else c.warehouses[0].address)
              && (c.defaultWarehouseId.None? ==> BuildDraft(Some(c)).defaultWarehouseId == c.warehouses[k].warehouseId)
    ensures (forall j | 0 <= j < |c.warehouses| :: !c.warehouses[j].isDefault) ==>
              && NameFallback(c.warehouses) == (if c.warehouses == [] then None else Some(c.warehouses[0].name))
              && AddressFallback(c.warehouses) == (if c.warehouses == [] then None else c.warehouses[0].address)
              && (c.defaultWarehouseId.None? ==> BuildDraft(Some(c)).defaultWarehouseId == "")
  {
    var found := DefaultIsFound(c.warehouses);
  }

  /** The fields read as they are stored; a missing configuration reads as an empty one. */
  lemma PlainFieldsAreReadExactly(c: Config)
    ensures var d := BuildDraft(Some(c));
            && d.locationGid == (if c.locationGid != None then c.locationGid.value else "")
            && d.outbound == c.outbound && d.sopyo == c.sopyo
            && d.shippingProviderId == ReadProviderId(c.metadata)
            && d.buyerStateId == ReadText(c.metadata, STATE_KEYS) && d.buyerCityId == ReadText(c.metadata, CITY_KEYS)
            && d.receiverName == ReadReceiver(c.metadata, NAME_KEYS, NameFallback(c.warehouses))
            && d.receiverPhone == ReadReceiver(c.metadata, PHONE_KEYS, None)
            && d.receiverAddress == ReadReceiver(c.metadata, ADDRESS_KEYS, AddressFallback(c.warehouses))
    ensures BuildDraft(None) == BuildDraft(Some(Config(None, None, false, None, map[], [])))
  {
  }

  /** The package type is a document exactly when its first present key says so. */
  lemma PackageTypeIsReadInOrder(m: Metadata)
    ensures ReadsDocument(m) <==>
              if Present(m, PackageType) then m[PackageType] == Str("document")
              else Present(m, PackageTypeSnake) && m[PackageTypeSnake] == Str("document")
  {
    assert [PackageType, PackageTypeSnake] == [PackageType] + ([PackageTypeSnake] + []);
    PresentCons(m, PackageType, [PackageTypeSnake] + []);
    PresentCons(m, PackageTypeSnake, []);
  }

  predicate Present(m: Metadata, k: Key) { k in m && m[k] != Null }

  predicate HoldsText(m: Metadata, k: Key) { k in m && m[k].Str? && Trim(m[k].text) != "" }

  lemma PresentCons(m: Metadata, k: Key, rest: seq<Key>)
    ensures FirstPresent(m, [k] + rest) == if Present(m, k) then m[k] else FirstPresent(m, rest)
  {
    assert ([k] + rest)[1..] == rest;
  }

  lemma NonBlankCons(m: Metadata, k: Key, rest: seq<Key>)
    ensures FirstNonBlank(m, [k] + rest) == if HoldsText(m, k) then Some(m[k].text) else FirstNonBlank(m, rest)
  {
    assert ([k] + rest)[1..] == rest;
  }

  /** The ids are read from the form's own key or, when that is absent or null, from its aliases in
      this order; only a text counts, for the carrier also a number. */
  lemma IdsAreReadInOrder(m: Metadata)
    ensures var raw := if Present(m, KargonomiBuyerStateId) then m[KargonomiBuyerStateId]
                       else if Present(m, BuyerStateId) then m[BuyerStateId]
                       else if Present(m, BuyerStateIdSnake) then m[BuyerStateIdSnake] else Null;
            ReadText(m, STATE_KEYS) == if raw.Str? then raw.text else ""
    ensures var raw := if Present(m, KargonomiBuyerCityId) then m[KargonomiBuyerCityId]
                       else if Present(m, BuyerCityId) then m[BuyerCityId]
                       else if Present(m, BuyerCityIdSnake) then m[BuyerCityIdSnake] else Null;
            ReadText(m, CITY_KEYS) == if raw.Str? then raw.text else ""
  {
    assert STATE_KEYS == [KargonomiBuyerStateId] + ([BuyerStateId] + ([BuyerStateIdSnake] + []));
    PresentCons(m, KargonomiBuyerStateId, [BuyerStateId] + ([BuyerStateIdSnake] + []));
    PresentCons(m, BuyerStateId, [BuyerStateIdSnake] + []);
    PresentCons(m, BuyerStateIdSnake, []);
    assert CITY_KEYS == [KargonomiBuyerCityId] + ([BuyerCityId] + ([BuyerCityIdSnake] + []));
    PresentCons(m, KargonomiBuyerCityId, [BuyerCityId] + ([BuyerCityIdSnake] + []));
    PresentCons(m, BuyerCityId, [BuyerCityIdSnake] + []);
    PresentCons(m, BuyerCityIdSnake, []);
  }

  lemma CarrierIsReadInOrder(m: Metadata)
    ensures var raw := if Present(m, KargonomiShippingProviderId) then m[KargonomiShippingProviderId]
                       else if Present(m, KargonomiShippingProviderIdSnake) then m[KargonomiShippingProviderIdSnake]
                       else if Present(m, ShippingProviderId) then m[ShippingProviderId]
                       else if Present(m, ShippingProviderIdSnake) then m[ShippingProviderIdSnake] else Null;
            ReadProviderId(m) == if raw.Str? then raw.text else if raw.Number? then raw.printed else ""
  {
    var last := [ShippingProviderIdSnake] + [];
    assert PROVIDER_KEYS ==
           [KargonomiShippingProviderId] + ([KargonomiShippingProviderIdSnake] + ([ShippingProviderId] + last));
    PresentCons(m, KargonomiShippingProviderId, [KargonomiShippingProviderIdSnake] + ([ShippingProviderId] + last));
    PresentCons(m, KargonomiShippingProviderIdSnake, [ShippingProviderId] + last);
    PresentCons(m, ShippingProviderId, last);
    PresentCons(m, ShippingProviderIdSnake, []);
  }

  /** A receiver field is the first text that is not blank, in this order; else the fallback. */
  lemma NameIsReadInOrder(m: Metadata, fallback: Option<string>)
    ensures ReadReceiver(m, NAME_KEYS, fallback) ==
            if HoldsText(m, KargonomiReturnReceiverName) then m[KargonomiReturnReceiverName].text
            else if HoldsText(m, ReturnReceiverName) then m[ReturnReceiverName].text
            else if fallback.Some? then fallback.value else ""
  {
    assert NAME_KEYS == [KargonomiReturnReceiverName] + ([ReturnReceiverName] + []);
    NonBlankCons(m, KargonomiReturnReceiverName, [ReturnReceiverName] + []);
    NonBlankCons(m, ReturnReceiverName, []);
  }

  lemma PhoneIsReadInOrder(m: Metadata, fallback: Option<string>)
    ensures ReadReceiver(m, PHONE_KEYS, fallback) ==
            if HoldsText(m, KargonomiReturnReceiverPhone) then m[KargonomiReturnReceiverPhone].text
            else if HoldsText(m, ReturnReceiverPhone) then m[ReturnReceiverPhone].text
            else if HoldsText(m, ReceiverPhone) then m[ReceiverPhone].text
            else if HoldsText(m, WarehousePhone) then m[WarehousePhone].text
            else if HoldsText(m, Phone) then m[Phone].text
            else if fallback.Some? then fallback.value else ""
  {
    var last := [WarehousePhone] + ([Phone] + []);
    assert PHONE_KEYS == [KargonomiReturnReceiverPhone] + ([ReturnReceiverPhone] + ([ReceiverPhone] + last));
    NonBlankCons(m, KargonomiReturnReceiverPhone, [ReturnReceiverPhone] + ([ReceiverPhone] + last));
    NonBlankCons(m, ReturnReceiverPhone, [ReceiverPhone] + last);
    NonBlankCons(m, ReceiverPhone, last);
    NonBlankCons(m, WarehousePhone, [Phone] + []);
    NonBlankCons(m, Phone, []);
  }

  lemma AddressIsReadInOrder(m: Metadata, fallback: Option<string>)
    ensures ReadReceiver(m, ADDRESS_KEYS, fallback) ==
            if HoldsText(m, KargonomiReturnReceiverAddress) then m[KargonomiReturnReceiverAddress].text
            else if HoldsText(m, ReturnReceiverAddress) then m[ReturnReceiverAddress].text
            else if HoldsText(m, WarehouseAddress) then m[WarehouseAddress].text
            else if fallback.Some? then fallback.value else ""
  {
    assert ADDRESS_KEYS == [KargonomiReturnReceiverAddress] + ([ReturnReceiverAddress] + ([WarehouseAddress] + []));
    NonBlankCons(m, KargonomiReturnReceiverAddress, [ReturnReceiverAddress] + ([WarehouseAddress] + []));
    NonBlankCons(m, ReturnReceiverAddress, [WarehouseAddress] + []);
    NonBlankCons(m, WarehouseAddress, []);
  }

  // ---------------------------------------------------------------------------------------
  // Writing
  // ---------------------------------------------------------------------------------------

  /** The keys a save owns: six it may set, seven it only removes. */
  predicate Owned(k: Key) {
    match k
    case KargonomiBuyerStateId | BuyerStateId | BuyerStateIdSnake => true
    case KargonomiBuyerCityId | BuyerCityId | BuyerCityIdSnake => true
    case KargonomiShippingProviderId | KargonomiShippingProviderIdSnake => true
    case ShippingProviderId | ShippingProviderIdSnake => true
    case KargonomiReturnReceiverName | KargonomiReturnReceiverPhone | KargonomiReturnReceiverAddress => true
    case _ => false
  }

  /** The six trimmed texts a save may write. */
  datatype Fields = Fields(
    providerId: string, stateId: string, cityId: string, name: string, phone: string, address: string)

  function Trimmed(draft: Draft): Fields {
    Fields(Trim(draft.shippingProviderId), Trim(draft.buyerStateId), Trim(draft.buyerCityId),
           Trim(draft.receiverName), Trim(draft.receiverPhone), Trim(draft.receiverAddress))
  }

  /** What is written under a key; blank is not written. */
  function Written(f: Fields, k: Key): string {
    match k
    case KargonomiShippingProviderId => f.providerId
    case KargonomiBuyerStateId => f.stateId
    case KargonomiBuyerCityId => f.cityId
    case KargonomiReturnReceiverName => f.name
    case KargonomiReturnReceiverPhone => f.phone
    case KargonomiReturnReceiverAddress => f.address
    case _ => ""
  }

  /** An owned key holds exactly its non-blank field; every other key is as it was. */
  predicate KeySaved(f: Fields, m: Metadata, saved: Metadata, k: Key) {
    if Owned(k) then (k in saved <==> Written(f, k) != "") && (k in saved ==> saved[k] == Str(Written(f, k)))
    else (k in saved <==> k in m) && (k in m ==> saved[k] == m[k])
  }

  ghost predicate MetadataSaved(f: Fields, m: Metadata, saved: Metadata) {
    forall k :: KeySaved(f, m, saved, k)
  }

  function SelectedWarehouse(draft: Draft, ws: seq<Warehouse>): Option<Warehouse> {
    var found := FindKargonomi(ws, Trim(draft.defaultWarehouseId));
    if found.Some? then found else DefaultOrFirst(ws)
  }

  /** The first Kargonomi warehouse with this id is at position `k`. */
  ghost predicate FirstChosen(ws: seq<Warehouse>, id: string, k: int) {
    && 0 <= k < |ws| && ws[k].kargonomi && ws[k].warehouseId == id
    && forall j | 0 <= j < k :: !(ws[j].kargonomi && ws[j].warehouseId == id)
  }

  predicate SameText(w: Warehouse, v: Warehouse) { w.name == v.name && w.address == v.address }

  /** The warehouse stored under `id` has name and address of the first Kargonomi warehouse with that
      id; if there is none, of the first default one; if there is none either, of the first; and of no
      warehouse at all, a fixed name and no address. */
  ghost predicate TakesChosen(w: Warehouse, id: string, ws: seq<Warehouse>) {
    && w.warehouseId == id && w.isDefault && w.kargonomi
    && (forall k | FirstChosen(ws, id, k) :: SameText(w, ws[k]))
    && ((forall j | 0 <= j < |ws| :: !(ws[j].kargonomi && ws[j].warehouseId == id)) ==>
          && (forall k | FirstDefault(ws, k) :: SameText(w, ws[k]))
          && ((forall j | 0 <= j < |ws| :: !ws[j].isDefault) ==>
                if ws == [] then w.name == "Default warehouse" && w.address == None else SameText(w, ws[0])))
  }

  lemma {:induction false} KargonomiIsFound(ws: seq<Warehouse>, id: string) returns (k: nat)
    ensures k <= |ws| && (forall j | 0 <= j < k :: !(ws[j].kargonomi && ws[j].warehouseId == id))
    ensures k < |ws| ==> FirstChosen(ws, id, k)
    ensures FindKargonomi(ws, id) == if k < |ws| then Some(ws[k]) else None
  {
    k := 0;
    if ws != [] && !(ws[0].kargonomi && ws[0].warehouseId == id) {
      var rest := KargonomiIsFound(ws[1..], id);
      k := rest + 1;
      assert forall j | 1 <= j < |ws| :: ws[j] == ws[1..][j - 1];
    }
  }

  /** The stored configuration after a save, when the update is stored as sent. */
  ghost predicate Saved(draft: Draft, current: Option<Config>, saved: Config) {
    var c := if current.Some? then current.value else NO_CONFIG;
    var id := Trim(draft.defaultWarehouseId);
    var chosen := SelectedWarehouse(draft, c.warehouses);
    && saved.locationGid == (if Trim(draft.locationGid) != "" then Some(Trim(draft.locationGid)) else None)
    && saved.outbound == draft.outbound
    && saved.sopyo == (draft.outbound == Some(VendorIntegration) && draft.sopyo)
    && saved.defaultWarehouseId == Some(id)
    && saved.warehouses ==
       [Warehouse(id, if chosen.Some? then chosen.value.name else "Default warehouse",
                  if chosen.Some? then chosen.value.address else None, true, true)]
    && MetadataSaved(Trimmed(draft), c.metadata, saved.metadata)
  }

  /** Every saved configuration stores one warehouse, the chosen one. */
  lemma SavedWarehouseExactly(draft: Draft, current: Option<Config>, saved: Config)
    requires Saved(draft, current, saved)
    ensures |saved.warehouses| == 1
    ensures TakesChosen(saved.warehouses[0], Trim(draft.defaultWarehouseId), (if current.Some? then current.value else NO_CONFIG).warehouses)
  {
    var ws := (if current.Some? then current.value else NO_CONFIG).warehouses;
    var chosen := KargonomiIsFound(ws, Trim(draft.defaultWarehouseId));
    var default := DefaultIsFound(ws);
  }

  /** The thirteen deletions. */
  method DeleteOwned(metadata: Metadata) returns (m: Metadata)
    ensures forall k :: k in m <==> k in metadata && !Owned(k)
    ensures forall k | k in m :: m[k] == metadata[k]
  {
    m := metadata;
    m := m - {KargonomiBuyerStateId};
    m := m - {KargonomiBuyerCityId};
    m := m - {BuyerStateId};
    m := m - {BuyerCityId};
    m := m - {BuyerStateIdSnake};
    m := m - {BuyerCityIdSnake};
    m := m - {KargonomiShippingProviderId};
    m := m - {KargonomiShippingProviderIdSnake};
    m := m - {ShippingProviderId};
    m := m - {ShippingProviderIdSnake};
    m := m - {KargonomiReturnReceiverName};
    m := m - {KargonomiReturnReceiverPhone};
    m := m - {KargonomiReturnReceiverAddress};
  }

  /** The order in which the six keys are assigned. */
  function Turn(k: Key): nat {
    match k
    case KargonomiShippingProviderId => 0
    case KargonomiBuyerStateId => 1
    case KargonomiBuyerCityId => 2
    case KargonomiReturnReceiverName => 3
    case KargonomiReturnReceiverPhone => 4
    case KargonomiReturnReceiverAddress => 5
    case _ => 6
  }

  /** The first `n` keys have had their turn, all others are as in `base`. */
  ghost predicate Assigned(f: Fields, base: Metadata, m: Metadata, n: nat) {
    forall k ::
      if Turn(k) < n && Written(f, k) != "" then k in m && m[k] == Str(Written(f, k))
      else (k in m <==> k in base) && (k in m ==> m[k] == base[k])
  }

  method Assign(ghost f: Fields, ghost base: Metadata, m: Metadata, k: Key, text: string) returns (r: Metadata)
    requires Turn(k) < 6 && text == Written(f, k) && Assigned(f, base, m, Turn(k))
    ensures Assigned(f, base, r, Turn(k) + 1)
  {
    r := m;
    if text != "" { r := r[k := Str(text)]; }
  }

  /** The six conditional assignments: three ids, then three receiver fields. */
  method SetIds(f: Fields, metadata: Metadata) returns (m: Metadata)
    ensures Assigned(f, metadata, m, 3)
  {
    m := metadata;
    m := Assign(f, metadata, m, KargonomiShippingProviderId, f.providerId);
    m := Assign(f, metadata, m, KargonomiBuyerStateId, f.stateId);
    m := Assign(f, metadata, m, KargonomiBuyerCityId, f.cityId);
  }

  method SetReceiver(f: Fields, ghost base: Metadata, metadata: Metadata) returns (m: Metadata)
    requires Assigned(f, base, metadata, 3)
    ensures Assigned(f, base, m, 6)
  {
    m := metadata;
    m := Assign(f, base, m, KargonomiReturnReceiverName, f.name);
    m := Assign(f, base, m, KargonomiReturnReceiverPhone, f.phone);
    m := Assign(f, base, m, KargonomiReturnReceiverAddress, f.address);
  }

  lemma AllAssigned(f: Fields, base: Metadata, m: Metadata)
    requires Assigned(f, base, m, 6) && forall k | Owned(k) :: k !in base
    ensures MetadataSaved(f, base, m)
  {
    forall k ensures KeySaved(f, base, m, k) {
      assert Turn(k) < 6 || Written(f, k) == "";
      assert Written(f, k) != "" ==> Owned(k);
    }
  }

  /** `buildShippingConfigUpdate`, the Kargonomi branch: copy, delete, then set what is not blank. */
  method BuildShippingConfigUpdate(draft: Draft, current: Option<Config>) returns (update: Config)
    ensures Saved(draft, current, update)
    ensures |update.warehouses| == 1
    ensures TakesChosen(update.warehouses[0], Trim(draft.defaultWarehouseId),
                        (if current.Some? then current.value else NO_CONFIG).warehouses)
  {
    var c := if current.Some? then current.value else NO_CONFIG;
    var id := Trim(draft.defaultWarehouseId);
    var chosen := SelectedWarehouse(draft, c.warehouses);
    var kept := DeleteOwned(c.metadata);
    var m := SetIds(Trimmed(draft), kept);
    m := SetReceiver(Trimmed(draft), kept, m);
    AllAssigned(Trimmed(draft), kept, m);
    forall k ensures KeySaved(Trimmed(draft), c.metadata, m, k) { assert KeySaved(Trimmed(draft), kept, m, k); }
    var warehouse := Warehouse(id, if chosen.Some? then chosen.value.name else "Default warehouse",
                               if chosen.Some? then chosen.value.address else None, true, true);
    update := Config(if Trim(draft.locationGid) != "" then Some(Trim(draft.locationGid)) else None, draft.outbound,
                     draft.outbound == Some(VendorIntegration) && draft.sopyo, Some(id), m, [warehouse]);
    SavedWarehouseExactly(draft, current, update);
  }

  // ---------------------------------------------------------------------------------------
  // Reading back what was written
  // ---------------------------------------------------------------------------------------

  /** A saved configuration is determined by draft and current configuration. */
  lemma SavedIsUnique(draft: Draft, current: Option<Config>, a: Config, b: Config)
    requires Saved(draft, current, a) && Saved(draft, current, b)
    ensures a == b
  {
    var m := (if current.Some? then current.value else NO_CONFIG).metadata;
    forall k ensures (k in a.metadata <==> k in b.metadata) && (k in a.metadata ==> a.metadata[k] == b.metadata[k]) {
      assert KeySaved(Trimmed(draft), m, a.metadata, k) && KeySaved(Trimmed(draft), m, b.metadata, k);
    }
    assert a.metadata == b.metadata;
  }

  /** The keys of one id: the first is set or absent, the aliases are gone. */
  lemma IdReadsWritten(f: Fields, m: Metadata, saved: Metadata, keys: seq<Key>)
    requires MetadataSaved(f, m, saved) && |keys| > 0
    requires Owned(keys[0]) && forall i | 0 < i < |keys| :: Owned(keys[i]) && Written(f, keys[i]) == ""
    ensures FirstPresent(saved, keys) == if Written(f, keys[0]) != "" then Str(Written(f, keys[0])) else Null
  {
    assert forall i | 0 <= i < |keys| :: KeySaved(f, m, saved, keys[i]);
    AllOwnedReadsFirst(saved, keys);
  }

  lemma BuyerIdsReadBack(f: Fields, m: Metadata, saved: Metadata)
    requires MetadataSaved(f, m, saved)
    ensures ReadText(saved, STATE_KEYS) == f.stateId
    ensures ReadText(saved, CITY_KEYS) == f.cityId
  {
    IdReadsWritten(f, m, saved, STATE_KEYS);
    IdReadsWritten(f, m, saved, CITY_KEYS);
  }

  lemma ProviderIdReadsBack(f: Fields, m: Metadata, saved: Metadata)
    requires MetadataSaved(f, m, saved)
    ensures ReadProviderId(saved) == f.providerId
  {
    IdReadsWritten(f, m, saved, PROVIDER_KEYS);
  }

  /** Whatever the aliases held is no longer read: blank or not, an id reads back trimmed. */
  lemma IdsReadBack(draft: Draft, current: Option<Config>, saved: Config)
    requires Saved(draft, current, saved)
    ensures var back := BuildDraft(Some(saved));
            && back.shippingProviderId == Trim(draft.shippingProviderId)
            && back.buyerStateId == Trim(draft.buyerStateId)
            && back.buyerCityId == Trim(draft.buyerCityId)
            && back.defaultWarehouseId == Trim(draft.defaultWarehouseId)
            && back.locationGid == Trim(draft.locationGid)
            && back.outbound == draft.outbound
  {
    var m := (if current.Some? then current.value else NO_CONFIG).metadata;
    BuyerIdsReadBack(Trimmed(draft), m, saved.metadata);
    ProviderIdReadsBack(Trimmed(draft), m, saved.metadata);
  }

  /** When every alias is gone, only the first key can answer. */
  lemma {:induction false} AllOwnedReadsFirst(m: Metadata, keys: seq<Key>)
    requires |keys| > 0 && forall i | 0 < i < |keys| :: keys[i] !in m
    ensures FirstPresent(m, keys) == if keys[0] in m then m[keys[0]] else Null
  {
    NonePresent(m, keys[1..]);
  }

  lemma {:induction false} NonePresent(m: Metadata, keys: seq<Key>)
    requires forall k | k in keys :: k !in m
    ensures FirstPresent(m, keys) == Null
  {
    if keys != [] { NonePresent(m, keys[1..]); }
  }

  /** The integration provider reads back exactly when the vendor's own integration is chosen or no
      provider was picked: the save drops it otherwise. */
  lemma IntegrationReadsBackExactlyWhen(draft: Draft, current: Option<Config>, saved: Config)
    requires Saved(draft, current, saved)
    ensures BuildDraft(Some(saved)).sopyo == draft.sopyo <==>
              draft.outbound == Some(VendorIntegration) || !draft.sopyo
  {
  }

  lemma {:induction false} SamePresent(m: Metadata, n: Metadata, keys: seq<Key>)
    requires forall k | k in keys :: (k in m <==> k in n) && (k in m ==> m[k] == n[k])
    ensures FirstPresent(m, keys) == FirstPresent(n, keys)
  {
    if keys != [] { SamePresent(m, n, keys[1..]); }
  }

  /** Keys the form does not own survive a save, so any property read from them reads as before. */
  lemma OtherKeysSurvive(draft: Draft, current: Option<Config>, saved: Config, keys: seq<Key>)
    requires Saved(draft, current, saved) && forall k | k in keys :: !Owned(k)
    ensures var m := (if current.Some? then current.value else NO_CONFIG).metadata;
            && (forall k | k in keys :: (k in saved.metadata <==> k in m) && (k in m ==> saved.metadata[k] == m[k]))
            && FirstPresent(saved.metadata, keys) == FirstPresent(m, keys)
  {
    var m := (if current.Some? then current.value else NO_CONFIG).metadata;
    assert forall k | k in keys :: KeySaved(Trimmed(draft), m, saved.metadata, k);
    SamePresent(saved.metadata, m, keys);
  }

  /** The package type in particular: the draft carries it, but a Kargonomi save does not write it. */
  lemma PackageTypeReadsAsBefore(draft: Draft, current: Option<Config>, saved: Config)
    requires Saved(draft, current, saved)
    ensures BuildDraft(Some(saved)).document == BuildDraft(current).document
  {
    OtherKeysSurvive(draft, current, saved, [PackageType, PackageTypeSnake]);
  }

  /** The three return-receiver fields of a draft, with the key they are saved under first. */
  datatype Receiver = Name | PhoneNumber | Address

  function KeysOf(f: Receiver): seq<Key> {
    match f case Name => NAME_KEYS case PhoneNumber => PHONE_KEYS case Address => ADDRESS_KEYS
  }

  function TextOf(f: Receiver, draft: Draft): string {
    match f case Name => draft.receiverName case PhoneNumber => draft.receiverPhone case Address => draft.receiverAddress
  }

  /** What a blank field falls back to once saved: the remaining aliases, then the saved warehouse. */
  function Leftover(f: Receiver, draft: Draft, current: Option<Config>): string {
    var c := if current.Some? then current.value else NO_CONFIG;
    var chosen := SelectedWarehouse(draft, c.warehouses);
    ReadReceiver(c.metadata, KeysOf(f)[1..],
                 match f
                 case Name => Some(if chosen.Some? then chosen.value.name else "Default warehouse")
                 case PhoneNumber => None
                 case Address => if chosen.Some? then chosen.value.address else None)
  }

  lemma {:induction false} SameNonBlank(m: Metadata, n: Metadata, keys: seq<Key>)
    requires forall k | k in keys :: (k in m <==> k in n) && (k in m ==> m[k] == n[k])
    ensures FirstNonBlank(m, keys) == FirstNonBlank(n, keys)
  {
    if keys != [] { SameNonBlank(m, n, keys[1..]); }
  }

  /** A return-receiver field that is not blank reads back trimmed; a blank one reads back as
      whatever the aliases and the chosen warehouse leave. */
  lemma ReceiverReadsBack(draft: Draft, current: Option<Config>, saved: Config, f: Receiver)
    requires Saved(draft, current, saved)
    ensures TextOf(f, BuildDraft(Some(saved))) ==
            if Trim(TextOf(f, draft)) != "" then Trim(TextOf(f, draft)) else Leftover(f, draft, current)
  {
    var c := if current.Some? then current.value else NO_CONFIG;
    SavedReceiver(f, draft, c.metadata, saved.metadata);
    assert DefaultOrFirst(saved.warehouses) == Some(saved.warehouses[0]);
  }

  lemma RestIsKept(f: Receiver, draft: Draft, m: Metadata, saved: Metadata)
    requires MetadataSaved(Trimmed(draft), m, saved)
    ensures FirstNonBlank(saved, KeysOf(f)[1..]) == FirstNonBlank(m, KeysOf(f)[1..])
  {
    var keys := KeysOf(f);
    FirstKeyOf(f, draft);
    assert forall i | 0 < i < |keys| :: KeySaved(Trimmed(draft), m, saved, keys[i]);
    SameNonBlank(saved, m, keys[1..]);
  }

  lemma SavedReceiver(f: Receiver, draft: Draft, m: Metadata, saved: Metadata)
    requires MetadataSaved(Trimmed(draft), m, saved)
    ensures FirstNonBlank(saved, KeysOf(f)) ==
            if Trim(TextOf(f, draft)) != "" then Some(Trim(TextOf(f, draft))) else FirstNonBlank(m, KeysOf(f)[1..])
  {
    TrimIdempotent(TextOf(f, draft));
    FirstKeyOf(f, draft);
    assert KeySaved(Trimmed(draft), m, saved, KeysOf(f)[0]);
    RestIsKept(f, draft, m, saved);
  }

  lemma FirstKeyOf(f: Receiver, draft: Draft)
    ensures var keys := KeysOf(f);
            && |keys| > 0 && Owned(keys[0]) && Written(Trimmed(draft), keys[0]) == Trim(TextOf(f, draft))
            && forall i | 0 < i < |keys| :: !Owned(keys[i])
  {
    RestNotOwned(f);
  }

  lemma RestNotOwned(f: Receiver)
    ensures forall i | 0 < i < |KeysOf(f)| :: !Owned(KeysOf(f)[i])
  {
  }

  /** A blanked return-receiver field stays blank exactly when no remaining alias holds text and the
      chosen warehouse supplies none; a name therefore never stays blank without a warehouse. */
  lemma BlankReceiverStaysBlankExactlyWhen(draft: Draft, current: Option<Config>, saved: Config, f: Receiver)
    requires Saved(draft, current, saved) && Trim(TextOf(f, draft)) == ""
    ensures Trim(TextOf(f, BuildDraft(Some(saved)))) == "" <==>
              var c := if current.Some? then current.value else NO_CONFIG;
              var chosen := SelectedWarehouse(draft, c.warehouses);
              && (forall k | k in KeysOf(f)[1..] && k in c.metadata && c.metadata[k].Str? :: Trim(c.metadata[k].text) == "")
              && (f.Name? ==> chosen.Some? && Trim(chosen.value.name) == "")
              && (f.Address? && chosen.Some? && chosen.value.address.Some? ==> Trim(chosen.value.address.value) == "")
  {
    ReceiverReadsBack(draft, current, saved, f);
    var c := if current.Some? then current.value else NO_CONFIG;
    FirstNonBlankIsNone(c.metadata, KeysOf(f)[1..]);
    assert Trim("") == "";
    DefaultNameIsText();
  }

  lemma DefaultNameIsText()
    ensures Trim("Default warehouse") == "Default warehouse"
  {
    assert "" + "Default warehouse" + "" == "Default warehouse";
    TrimPadded("", "Default warehouse", "");
  }

  lemma {:induction false} FirstNonBlankIsNone(m: Metadata, keys: seq<Key>)
    ensures FirstNonBlank(m, keys).None? <==> forall k | k in keys && k in m && m[k].Str? :: Trim(m[k].text) == ""
    ensures FirstNonBlank(m, keys).Some? ==> Trim(FirstNonBlank(m, keys).value) != ""
  {
    if keys != [] {
      FirstNonBlankIsNone(m, keys[1..]);
      assert forall k :: k in keys <==> k == keys[0] || k in keys[1..];
    }
  }

  /** A draft with nothing but a warehouse id and the given choices. */
  function PlainDraft(outbound: Option<Outbound>, sopyo: bool): Draft {
    Draft("", outbound, sopyo, "1", "", "", "", "", "", "", false)
  }

  function PlainConfig(outbound: Option<Outbound>, sopyo: bool, name: string): Config {
    Config(None, outbound, sopyo, Some("1"), map[], [Warehouse("1", name, None, true, true)])
  }

  lemma TrimsOne()
    ensures Trim("1") == "1" && Trim("") == ""
  {
    assert "" + "1" + "" == "1";
    TrimPadded("", "1", "");
  }

  lemma PlainIsSaved(outbound: Option<Outbound>, sopyo: bool)
    ensures Saved(PlainDraft(outbound, sopyo), None, PlainConfig(outbound, outbound == Some(VendorIntegration) && sopyo, "Default warehouse"))
  {
    TrimsOne();
    forall k ensures KeySaved(Trimmed(PlainDraft(outbound, sopyo)), map[], map[], k) {}
  }

  /** For example: a blank receiver name saved without any warehouse comes back as the name the save
      gives its warehouse. */
  lemma BlankNameComesBack()
    ensures var draft, saved := PlainDraft(None, false), PlainConfig(None, false, "Default warehouse");
            Saved(draft, None, saved) && draft.receiverName == "" && BuildDraft(Some(saved)).receiverName == "Default warehouse"
  {
    PlainIsSaved(None, false);
    var saved := PlainConfig(None, false, "Default warehouse");
    FirstNonBlankIsNone(saved.metadata, NAME_KEYS);
    assert DefaultOrFirst(saved.warehouses) == Some(saved.warehouses[0]);
  }

  /** For example: a picked integration is dropped by a save with Kargonomi as outbound method. */
  lemma IntegrationIsDropped()
    ensures var draft, saved := PlainDraft(Some(Kargonomi), true), PlainConfig(Some(Kargonomi), false, "Default warehouse");
            Saved(draft, None, saved) && draft.sopyo && !BuildDraft(Some(saved)).sopyo
  {
    PlainIsSaved(Some(Kargonomi), true);
  }

  // ---------------------------------------------------------------------------------------
  // Saving again
  // ---------------------------------------------------------------------------------------

  /** Reopening a saved form leaves the same things to fall back to. */
  lemma LeftoverSurvives(draft: Draft, current: Option<Config>, saved: Config, f: Receiver)
    requires Saved(draft, current, saved)
    ensures Leftover(f, BuildDraft(Some(saved)), Some(saved)) == Leftover(f, draft, current)
  {
    var m := (if current.Some? then current.value else NO_CONFIG).metadata;
    RestIsKept(f, draft, m, saved.metadata);
    ReselectsSaved(draft, current, saved);
  }

  lemma ReselectsSaved(draft: Draft, current: Option<Config>, saved: Config)
    requires Saved(draft, current, saved)
    ensures SelectedWarehouse(BuildDraft(Some(saved)), saved.warehouses) == Some(saved.warehouses[0])
  {
    IdsReadBack(draft, current, saved);
    TrimIdempotent(draft.defaultWarehouseId);
  }

  lemma SecondSaveWritesIds(draft: Draft, current: Option<Config>, saved: Config)
    requires Saved(draft, current, saved)
    ensures var w, again := Trimmed(draft), Trimmed(BuildDraft(Some(saved)));
            again.providerId == w.providerId && again.stateId == w.stateId && again.cityId == w.cityId
  {
    IdsReadBack(draft, current, saved);
    TrimIdempotent(draft.shippingProviderId);
    TrimIdempotent(draft.buyerStateId);
    TrimIdempotent(draft.buyerCityId);
  }

  lemma SecondSaveWritesReceiver(draft: Draft, current: Option<Config>, saved: Config, f: Receiver)
    requires Saved(draft, current, saved)
    ensures Trim(TextOf(f, BuildDraft(Some(saved)))) ==
            if Trim(TextOf(f, draft)) != "" then Trim(TextOf(f, draft)) else Trim(Leftover(f, draft, current))
  {
    ReceiverReadsBack(draft, current, saved, f);
    TrimIdempotent(TextOf(f, draft));
  }

  lemma WrittenTexts(draft: Draft)
    ensures var w := Trimmed(draft);
            && w.name == Trim(TextOf(Name, draft)) && w.phone == Trim(TextOf(PhoneNumber, draft))
            && w.address == Trim(TextOf(Address, draft))
  {
  }

  /** Saving the reopened form writes the same ids, and for each receiver field the same text or,
      where it was blank, what it fell back to. */
  lemma SecondSaveWrites(draft: Draft, current: Option<Config>, saved: Config)
    requires Saved(draft, current, saved)
    ensures var w, again := Trimmed(draft), Trimmed(BuildDraft(Some(saved)));
            && again.providerId == w.providerId && again.stateId == w.stateId && again.cityId == w.cityId
            && again.name == (if w.name != "" then w.name else Trim(Leftover(Name, draft, current)))
            && again.phone == (if w.phone != "" then w.phone else Trim(Leftover(PhoneNumber, draft, current)))
            && again.address == (if w.address != "" then w.address else Trim(Leftover(Address, draft, current)))
  {
    SecondSaveWritesIds(draft, current, saved);
    SecondSaveWritesReceiver(draft, current, saved, Name);
    SecondSaveWritesReceiver(draft, current, saved, PhoneNumber);
    SecondSaveWritesReceiver(draft, current, saved, Address);
    WrittenTexts(draft);
    WrittenTexts(BuildDraft(Some(saved)));
  }

  /** Same written texts over the same other keys, same metadata; and conversely. */
  lemma SameMetadataExactlyWhen(f: Fields, g: Fields, m: Metadata, saved: Metadata, again: Metadata)
    requires MetadataSaved(f, m, saved) && MetadataSaved(g, saved, again)
    ensures again == saved <==> f == g
  {
    if f == g {
      forall k ensures (k in again <==> k in saved) && (k in again ==> again[k] == saved[k]) {
        assert KeySaved(f, m, saved, k) && KeySaved(g, saved, again, k);
      }
      assert again == saved;
    }
    if again == saved {
      forall k | Owned(k) ensures Written(f, k) == Written(g, k) {
        assert KeySaved(f, m, saved, k) && KeySaved(g, saved, again, k);
      }
      assert Written(f, KargonomiShippingProviderId) == Written(g, KargonomiShippingProviderId);
      assert Written(f, KargonomiBuyerStateId) == Written(g, KargonomiBuyerStateId);
      assert Written(f, KargonomiBuyerCityId) == Written(g, KargonomiBuyerCityId);
      assert Written(f, KargonomiReturnReceiverName) == Written(g, KargonomiReturnReceiverName);
      assert Written(f, KargonomiReturnReceiverPhone) == Written(g, KargonomiReturnReceiverPhone);
      assert Written(f, KargonomiReturnReceiverAddress) == Written(g, KargonomiReturnReceiverAddress);
    }
  }

  /** Reopening and saving unchanged stores the same configuration exactly when no blanked receiver
      field had anything to fall back to. */
  lemma ResaveChangesNothingExactlyWhen(draft: Draft, current: Option<Config>, saved: Config, again: Config)
    requires Saved(draft, current, saved) && Saved(BuildDraft(Some(saved)), Some(saved), again)
    ensures again == saved <==>
              forall f | f in {Name, PhoneNumber, Address} && Trim(TextOf(f, draft)) == "" :: Trim(Leftover(f, draft, current)) == ""
  {
    var c := if current.Some? then current.value else NO_CONFIG;
    IdsReadBack(draft, current, saved);
    ReselectsSaved(draft, current, saved);
    SecondSaveWrites(draft, current, saved);
    SameMetadataExactlyWhen(Trimmed(draft), Trimmed(BuildDraft(Some(saved))), c.metadata, saved.metadata, again.metadata);
    TrimIdempotent(draft.locationGid);
    TrimIdempotent(draft.defaultWarehouseId);
    assert again.warehouses == saved.warehouses;
    assert again == saved <==> again.metadata == saved.metadata;
    BlankFieldsDecide(draft, current);
  }

  lemma BlankFieldsDecide(draft: Draft, current: Option<Config>)
    ensures (forall f | f in {Name, PhoneNumber, Address} && Trim(TextOf(f, draft)) == "" :: Trim(Leftover(f, draft, current)) == "") <==>
              && (Trim(draft.receiverName) == "" ==> Trim(Leftover(Name, draft, current)) == "")
              && (Trim(draft.receiverPhone) == "" ==> Trim(Leftover(PhoneNumber, draft, current)) == "")
              && (Trim(draft.receiverAddress) == "" ==> Trim(Leftover(Address, draft, current)) == "")
  {
    assert TextOf(Name, draft) == draft.receiverName;
    assert TextOf(PhoneNumber, draft) == draft.receiverPhone;
    assert TextOf(Address, draft) == draft.receiverAddress;
  }

  /** From the second save on, reopening and saving changes nothing at all. */
  lemma SavingSettles(draft: Draft, current: Option<Config>, first: Config, second: Config, third: Config)
    requires Saved(draft, current, first)
    requires Saved(BuildDraft(Some(first)), Some(first), second)
    requires Saved(BuildDraft(Some(second)), Some(second), third)
    ensures third == second
  {
    var back := BuildDraft(Some(first));
    forall f | f in {Name, PhoneNumber, Address} && Trim(TextOf(f, back)) == "" ensures Trim(Leftover(f, back, Some(first))) == "" {
      ReceiverReadsBack(draft, current, first, f);
      LeftoverSurvives(draft, current, first, f);
      TrimIdempotent(TextOf(f, draft));
    }
    ResaveChangesNothingExactlyWhen(back, Some(first), second, third);
  }

  // ---------------------------------------------------------------------------------------
  // Validation
  // ---------------------------------------------------------------------------------------

  predicate Numeric(s: string) { s != "" && AllDigits(s) }

  predicate SignedNumeric(s: string) { Numeric(s) || (s != "" && s[0] == '-' && Numeric(s[1..])) }

  const GID_PREFIX := "gid://shopify/Location/"

  predicate IsLocationGid(s: string) {
    && |s| > |GID_PREFIX| && s[..|GID_PREFIX|] == GID_PREFIX
    && forall i | |GID_PREFIX| <= i < |s| :: !IsWhitespace(s[i]) && s[i] !in {'/', '?', '#'}
  }

  datatype Problem =
    | BadLocationGid | MissingLocationGid | MissingIntegration | BadWarehouse
    | BadCarrier | BadBuyerState | BadBuyerCity | BadDesi

  predicate Has(p: Problem, draft: Draft, desiPositive: bool) {
    match p
    case BadLocationGid => Trim(draft.locationGid) != "" && !IsLocationGid(Trim(draft.locationGid))
    case MissingLocationGid => draft.outbound == Some(VendorIntegration) && draft.sopyo && Trim(draft.locationGid) == ""
    case MissingIntegration => draft.outbound == Some(VendorIntegration) && !draft.sopyo
    case BadWarehouse => !Numeric(Trim(draft.defaultWarehouseId))
    case BadCarrier => Trim(draft.shippingProviderId) != "" && !SignedNumeric(Trim(draft.shippingProviderId))
    case BadBuyerState => Trim(draft.buyerStateId) != "" && !Numeric(Trim(draft.buyerStateId))
    case BadBuyerCity => Trim(draft.buyerCityId) != "" && !Numeric(Trim(draft.buyerCityId))
    case BadDesi => !desiPositive
  }

  /** The problems in the order in which they are looked for. */
  const ALL_PROBLEMS: seq<Problem> := [
    BadLocationGid, MissingLocationGid, MissingIntegration, BadWarehouse, BadCarrier, BadBuyerState, BadBuyerCity, BadDesi]

  /** Those of the listed problems that the draft has. */
  function Found(problems: seq<Problem>, draft: Draft, desiPositive: bool): seq<Problem> {
    if problems == [] then []
    else (if Has(problems[0], draft, desiPositive) then [problems[0]] else []) + Found(problems[1..], draft, desiPositive)
  }

  lemma {:induction false} FoundSnoc(problems: seq<Problem>, n: nat, draft: Draft, desiPositive: bool)
    requires n < |problems|
    ensures Found(problems[..n + 1], draft, desiPositive) ==
            Found(problems[..n], draft, desiPositive) + (if Has(problems[n], draft, desiPositive) then [problems[n]] else [])
  {
    var longer, shorter := problems[..n + 1], problems[..n];
    if n > 0 {
      FoundSnoc(problems[1..], n - 1, draft, desiPositive);
      assert longer[1..] == problems[1..][..n] && shorter[1..] == problems[1..][..n - 1];
    } else {
      assert longer[1..] == [];
    }
  }

  /** One check: pushes its problem when the draft has it. */
  method Push(errors: seq<Problem>, ghost n: nat, bad: bool, problem: Problem, ghost draft: Draft, ghost desiPositive: bool)
    returns (r: seq<Problem>)
    requires n < |ALL_PROBLEMS| && problem == ALL_PROBLEMS[n] && bad == Has(problem, draft, desiPositive)
    requires errors == Found(ALL_PROBLEMS[..n], draft, desiPositive)
    ensures r == Found(ALL_PROBLEMS[..n + 1], draft, desiPositive)
  {
    FoundSnoc(ALL_PROBLEMS, n, draft, desiPositive);
    r := errors;
    if bad { r := r + [problem]; }
  }

  /** The checks of location, integration and warehouse. */
  method ValidateRouting(draft: Draft, ghost desiPositive: bool) returns (errors: seq<Problem>)
    ensures errors == Found(ALL_PROBLEMS[..4], draft, desiPositive)
  {
    var gid := Trim(draft.locationGid);
    var own := draft.outbound == Some(VendorIntegration);
    errors := Push([], 0, gid != "" && !IsLocationGid(gid), BadLocationGid, draft, desiPositive);
    errors := Push(errors, 1, own && draft.sopyo && gid == "", MissingLocationGid, draft, desiPositive);
    errors := Push(errors, 2, own && !draft.sopyo, MissingIntegration, draft, desiPositive);
    errors := Push(errors, 3, !Numeric(Trim(draft.defaultWarehouseId)), BadWarehouse, draft, desiPositive);
  }

  /** `validateShippingConfigDraft` for Kargonomi: the problems of the draft, each once, in order.
      `desiPositive` says the desi text parses to a finite number above zero. */
  method ValidateShippingConfigDraft(draft: Draft, desiPositive: bool) returns (errors: seq<Problem>)
    ensures errors == Found(ALL_PROBLEMS, draft, desiPositive)
  {
    var carrier, state, city := Trim(draft.shippingProviderId), Trim(draft.buyerStateId), Trim(draft.buyerCityId);
    errors := ValidateRouting(draft, desiPositive);
    errors := Push(errors, 4, carrier != "" && !SignedNumeric(carrier), BadCarrier, draft, desiPositive);
    errors := Push(errors, 5, state != "" && !Numeric(state), BadBuyerState, draft, desiPositive);
    errors := Push(errors, 6, city != "" && !Numeric(city), BadBuyerCity, draft, desiPositive);
    errors := Push(errors, 7, !desiPositive, BadDesi, draft, desiPositive);
    assert ALL_PROBLEMS[..8] == ALL_PROBLEMS;
  }

  lemma IsListed(p: Problem)
    ensures p in ALL_PROBLEMS
  {
    match p
    case BadLocationGid => assert ALL_PROBLEMS[0] == p;
    case MissingLocationGid => assert ALL_PROBLEMS[1] == p;
    case MissingIntegration => assert ALL_PROBLEMS[2] == p;
    case BadWarehouse => assert ALL_PROBLEMS[3] == p;
    case BadCarrier => assert ALL_PROBLEMS[4] == p;
    case BadBuyerState => assert ALL_PROBLEMS[5] == p;
    case BadBuyerCity => assert ALL_PROBLEMS[6] == p;
    case BadDesi => assert ALL_PROBLEMS[7] == p;
  }

  /** The order in which the problems are reported. */
  function Rank(p: Problem): nat {
    match p
    case BadLocationGid => 0
    case MissingLocationGid => 1
    case MissingIntegration => 2
    case BadWarehouse => 3
    case BadCarrier => 4
    case BadBuyerState => 5
    case BadBuyerCity => 6
    case BadDesi => 7
  }

  /** A problem is reported exactly when the draft has it, none twice, and in this order. */
  lemma ReportsExactlyTheProblems(draft: Draft, desiPositive: bool)
    ensures var errors := Found(ALL_PROBLEMS, draft, desiPositive);
            && (forall p :: p in errors <==> Has(p, draft, desiPositive))
            && (forall i, j | 0 <= i < j < |errors| :: Rank(errors[i]) < Rank(errors[j]))
  {
    FoundMembers(ALL_PROBLEMS, draft, desiPositive);
    forall p: Problem ensures p in ALL_PROBLEMS { IsListed(p); }
    FoundInOrder(ALL_PROBLEMS, draft, desiPositive);
  }

  lemma {:induction false} FoundInOrder(problems: seq<Problem>, draft: Draft, desiPositive: bool)
    requires forall i, j | 0 <= i < j < |problems| :: Rank(problems[i]) < Rank(problems[j])
    ensures forall i, j | 0 <= i < j < |Found(problems, draft, desiPositive)| ::
              Rank(Found(problems, draft, desiPositive)[i]) < Rank(Found(problems, draft, desiPositive)[j])
  {
    if problems != [] {
      FoundInOrder(problems[1..], draft, desiPositive);
      FoundMembers(problems[1..], draft, desiPositive);
      var rest := Found(problems[1..], draft, desiPositive);
      forall k | 0 <= k < |rest| ensures Rank(problems[0]) < Rank(rest[k]) {
        assert rest[k] in rest && rest[k] in problems[1..];
      }
    }
  }

  /** One or more decimal digits. */
  predicate IsNumber(s: string) { s != "" && forall i | 0 <= i < |s| :: '0' <= s[i] <= '9' }

  lemma NumberTexts(s: string)
    ensures Numeric(s) <==> IsNumber(s)
    ensures SignedNumeric(s) <==> IsNumber(s) || exists rest :: s == "-" + rest && IsNumber(rest)
  {
    if s != "" && s[0] == '-' && Numeric(s[1..]) { assert s == "-" + s[1..] && IsNumber(s[1..]); }
    if rest :| s == "-" + rest && IsNumber(rest) { assert s[1..] == rest; }
  }

  predicate IsIdText(s: string) {
    s != "" && forall i | 0 <= i < |s| :: !IsWhitespace(s[i]) && s[i] != '/' && s[i] != '?' && s[i] != '#'
  }

  lemma PrefixedTexts(s: string, prefix: string)
    ensures && |s| > |prefix| && s[..|prefix|] == prefix
            && (forall i | |prefix| <= i < |s| :: !IsWhitespace(s[i]) && s[i] !in {'/', '?', '#'}) <==>
              exists rest :: s == prefix + rest && IsIdText(rest)
  {
    var n := |prefix|;
    if |s| > n && s[..n] == prefix && forall i | n <= i < |s| :: !IsWhitespace(s[i]) && s[i] !in {'/', '?', '#'} {
      assert s == prefix + s[n..];
      assert forall i | 0 <= i < |s[n..]| :: s[n..][i] == s[n + i];
      assert IsIdText(s[n..]);
    }
    if rest :| s == prefix + rest && IsIdText(rest) {
      assert s[..n] == prefix;
      assert forall i | n <= i < |s| :: s[i] == rest[i - n];
    }
  }

  lemma LocationTexts(s: string)
    ensures IsLocationGid(s) <==> exists rest :: s == "gid://shopify/Location/" + rest && IsIdText(rest)
  {
    PrefixedTexts(s, GID_PREFIX);
  }

  /** Which drafts have which problem. */
  lemma ProblemIsReportedExactlyWhen(p: Problem, draft: Draft, desiPositive: bool)
    ensures p in Found(ALL_PROBLEMS, draft, desiPositive) <==>
              var gid, carrier := Trim(draft.locationGid), Trim(draft.shippingProviderId);
              match p
              case BadLocationGid => gid != "" && forall rest :: gid == "gid://shopify/Location/" + rest ==> !IsIdText(rest)
              case MissingLocationGid => draft.outbound == Some(VendorIntegration) && draft.sopyo && gid == ""
              case MissingIntegration => draft.outbound == Some(VendorIntegration) && !draft.sopyo
              case BadWarehouse => !IsNumber(Trim(draft.defaultWarehouseId))
              case BadCarrier => carrier != "" && !IsNumber(carrier) && forall rest :: carrier == "-" + rest ==> !IsNumber(rest)
              case BadBuyerState => Trim(draft.buyerStateId) != "" && !IsNumber(Trim(draft.buyerStateId))
              case BadBuyerCity => Trim(draft.buyerCityId) != "" && !IsNumber(Trim(draft.buyerCityId))
              case BadDesi => !desiPositive
  {
    ReportsExactlyTheProblems(draft, desiPositive);
    LocationTexts(Trim(draft.locationGid));
    NumberTexts(Trim(draft.defaultWarehouseId));
    NumberTexts(Trim(draft.shippingProviderId));
    NumberTexts(Trim(draft.buyerStateId));
    NumberTexts(Trim(draft.buyerCityId));
  }

  lemma {:induction false} FoundMembers(problems: seq<Problem>, draft: Draft, desiPositive: bool)
    ensures forall p :: p in Found(problems, draft, desiPositive) <==> p in problems && Has(p, draft, desiPositive)
  {
    if problems != [] {
      FoundMembers(problems[1..], draft, desiPositive);
      assert forall p :: p in problems <==> p == problems[0] || p in problems[1..];
    }
  }

  /** A save neither cures nor causes a validation problem. */
  lemma ProblemsSurviveASave(draft: Draft, current: Option<Config>, saved: Config, p: Problem, desiPositive: bool)
    requires Saved(draft, current, saved)
    ensures Has(p, BuildDraft(Some(saved)), desiPositive) <==> Has(p, draft, desiPositive)
  {
    IdsReadBack(draft, current, saved);
    TrimIdempotent(draft.locationGid);
    TrimIdempotent(draft.defaultWarehouseId);
    TrimIdempotent(draft.shippingProviderId);
    TrimIdempotent(draft.buyerStateId);
    TrimIdempotent(draft.buyerCityId);
  }
}
