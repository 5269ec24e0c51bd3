/**
  Soul properties: one row per registered type. Sensitive types are stored encrypted behind a
  placeholder; whether a type is sensitive, and which keys it may hold, comes from the registry.
 */
module Properties {
  import opened Prelude
  import opened Crypto
  import opened Store
  import opened KeyCache
  import opened Ordering
  import opened PyText
  import opened Untrusted

  const VALUE_MAX_LEN := 8192

  datatype Schema = Schema(version: int, sensitive: bool, allowed: set<string>)

  /** The registry. */
  function SchemaOf(ptype: string): Option<Schema> {
    if ptype == "communication_style" then Some(Schema(1, false, {"formality", "verbosity", "humor", "notes"}))
    else if ptype == "interests" then Some(Schema(1, false, {"topics", "notes"}))
    else if ptype == "locale" then Some(Schema(1, false, {"timezone", "language", "region"}))
    else if ptype == "boundaries" then Some(Schema(1, true, {"avoid_topics", "hard_limits", "notes"}))
    else None
  }

  datatype PropertyError =
    | BadType
    | UnknownType
    | NotAnObject
    | UnknownKeys
    | TooLarge
    | NoActiveProperty
    | NoSuchSoul  // the foreign key; a soul and its key row are created together
    | Unreadable(error: KeyError)

  /** `^[a-z][a-z0-9_]{0,49}$`; the `$` also matches before a final line feed. */
  predicate IsPropertyType(s: string) {
    var core := UpToEnd(s);
    && 1 <= |core| <= 50
    && 'a' <= core[0] <= 'z'
    && forall i :: 0 <= i < |core| ==> 'a' <= core[i] <= 'z' || '0' <= core[i] <= '9' || core[i] == '_'
  }

  /** A property type is a name with `_`. */
  lemma PropertyTypeIs(s: string)
    ensures IsPropertyType(s) <==> IsLineOfName(s, "_")
  {
    LineOfName(s, "_");
    var core := UpToEnd(s);
    NameIs(core, "_");
    forall i | 0 <= i < |core| ensures core[i] in "_" <==> core[i] == '_' {}
    assert IsPropertyType(s) <==> IsName(core, "_");
  }

  /** `value` is `None` when the JSON value is not an object. */
  function Validate(schema: Schema, value: Option<Json>): Outcome<PropertyError> {
    if value.None? then Fail(NotAnObject)
    else if !(value.value.keys <= schema.allowed) then Fail(UnknownKeys)
    else if |value.value.dump| > VALUE_MAX_LEN then Fail(TooLarge)
    else Pass
  }

  // ---- what is stored for a value ----

  function Placeholder(): Json { Json({"_encrypted"}, "{\"_encrypted\": true}") }

  datatype Stored = Stored(value: Json, secret: Option<Sealed>)

  function SerializeValue(value: Json, sensitive: bool, soul: SoulId, dek: Key, nonce: Nonce): Stored {
    if sensitive then Stored(Placeholder(), Some(Encrypt(Doc(value), dek, nonce, Aad(soul, PropertyDomain))))
    else Stored(value, None)
  }

  function DeserializeValue(row: PropertyRow, soul: SoulId, dek: Key): Option<Json> {
    if !row.sensitive then Some(row.value)
    else if row.secret.None? then None
    else
      match Decrypt(row.secret.value, dek, Aad(soul, PropertyDomain))
      case Some(Doc(doc)) => Some(doc)
      case _ => None
  }

  // ---- the operations ----

  datatype Op =
    | Set(k: PropertyKey, value: Option<Json>, nonce: Nonce)
    | Delete(k: PropertyKey)

  /** The key is fetched only for a sensitive type. */
  function Written(keys: KeyTable, master: Key, k: PropertyKey, value: Option<Json>,
                   nonce: Nonce): Result<PropertyRow, PropertyError> {
    if !IsPropertyType(k.ptype) then Err(BadType)
    else
      match SchemaOf(k.ptype)
      case None => Err(UnknownType)
      case Some(schema) => WrittenAs(keys, master, k.soul, schema, value, nonce)
  }

  function WrittenAs(keys: KeyTable, master: Key, soul: SoulId, schema: Schema, value: Option<Json>, nonce: Nonce):
    Result<PropertyRow, PropertyError>
  {
    match Validate(schema, value)
    case Fail(e) => Err(e)
    case Pass =>
      if schema.sensitive then
        match TableDek(keys, master, soul)
        case Err(e) => Err(Unreadable(e))
        case Ok(dek) => Ok(RowFor(schema, SerializeValue(value.value, true, soul, dek, nonce)))
      else if soul !in keys then Err(NoSuchSoul)
      else Ok(RowFor(schema, Stored(value.value, None)))
  }

  function RowFor(schema: Schema, s: Stored): PropertyRow {
    PropertyRow(schema.version, s.value, schema.sensitive, s.secret, Active)
  }

  predicate IsActive(props: PropertyTable, k: PropertyKey) { k in props && props[k].status.Active? }

  function Apply(keys: KeyTable, master: Key, props: PropertyTable, op: Op): (PropertyTable, Outcome<PropertyError>) {
    match op
    case Set(k, value, nonce) => (
      match Written(keys, master, k, value, nonce)
      case Err(e) => (props, Fail(e))
      case Ok(row) => (props[k := row], Pass))
    case Delete(k) =>
      if !IsPropertyType(k.ptype) then (props, Fail(BadType))
      else if IsActive(props, k) then (props[k := props[k].(status := Deleted)], Pass) else (props, Fail(NoActiveProperty))
  }

  method SetProperty(db: Database, master: Key, k: PropertyKey, value: Option<Json>, nonce: Nonce)
    returns (r: Outcome<PropertyError>)
    modifies db`properties
    ensures (db.properties, r) == Apply(db.keys, master, old(db.properties), Set(k, value, nonce))
  {
    if !IsPropertyType(k.ptype) {
      return Fail(BadType);
    }
    var schema := SchemaOf(k.ptype);
    if schema.None? {
      return Fail(UnknownType);
    }
    var valid := Validate(schema.value, value);
    if valid.Fail? {
      return valid;
    }
    var dek := Ok(0);
    if schema.value.sensitive {
      dek := TableDek(db.keys, master, k.soul);
      if dek.Err? {
        return Fail(Unreadable(dek.error));
      }
    }
    if k.soul !in db.keys {
      return Fail(NoSuchSoul);
    }
    var stored := SerializeValue(value.value, schema.value.sensitive, k.soul, dek.value, nonce);
    db.properties := db.properties[k := RowFor(schema.value, stored)];
    return Pass;
  }

  method DeleteProperty(db: Database, master: Key, k: PropertyKey) returns (r: Outcome<PropertyError>)
    modifies db`properties
    ensures (db.properties, r) == Apply(db.keys, master, old(db.properties), Delete(k))
  {
    if !IsPropertyType(k.ptype) {
      return Fail(BadType);
    }
    if k !in db.properties || !db.properties[k].status.Active? {
      return Fail(NoActiveProperty);
    }
    db.properties := db.properties[k := db.properties[k].(status := Deleted)];
    return Pass;
  }

  // ---- what every row satisfies ----

  /** Written by `SetProperty` for its type: registered, valid, and encrypted exactly when the type is sensitive. */
  predicate RowOk(row: PropertyRow, k: PropertyKey, dek: Result<Key, KeyError>) {
    && !row.status.OtherLiveness? && dek != Err(NoKey)
    && IsPropertyType(k.ptype) && SchemaOf(k.ptype).Some?
    && var schema := SchemaOf(k.ptype).value;
    && row.version == schema.version && row.sensitive == schema.sensitive
    && Validate(schema, Some(PlainValue(row))).Pass?
    && if row.sensitive then
         && row.value == Placeholder() && row.secret.Some? && dek.Ok?
         && SealedFor(row.secret.value, dek.value, k.soul, PropertyDomain) && row.secret.value.plain.Doc?
       else row.secret.None?
  }

  function PlainValue(row: PropertyRow): Json {
    if row.sensitive && row.secret.Some? && row.secret.value.plain.Doc? then row.secret.value.plain.doc else row.value
  }

  ghost predicate PropertiesOk(keys: KeyTable, master: Key, props: PropertyTable) {
    forall k :: k in props ==> RowOk(props[k], k, TableDek(keys, master, k.soul))
  }

  lemma WrittenIsOk(keys: KeyTable, master: Key, k: PropertyKey, value: Option<Json>, nonce: Nonce)
    requires Written(keys, master, k, value, nonce).Ok?
    ensures var row := Written(keys, master, k, value, nonce).value;
            RowOk(row, k, TableDek(keys, master, k.soul)) && value == Some(PlainValue(row)) && row.status.Active?
  {
  }

  lemma ApplyKeepsOk(keys: KeyTable, master: Key, props: PropertyTable, op: Op)
    requires PropertiesOk(keys, master, props)
    ensures PropertiesOk(keys, master, Apply(keys, master, props, op).0)
  {
    if op.Set? && Written(keys, master, op.k, op.value, op.nonce).Ok? {
      WrittenIsOk(keys, master, op.k, op.value, op.nonce);
    }
  }

  /** A stored value reads back as the value that was set, encrypted or not. */
  lemma SerializedReadsBack(row: PropertyRow, k: PropertyKey, dek: Key)
    requires RowOk(row, k, Ok(dek))
    ensures DeserializeValue(row, k.soul, dek) == Some(PlainValue(row))
  {
  }

  /** A sensitive row shows nothing of its value outside the ciphertext. */
  lemma SensitiveRowsShowNothing(row: PropertyRow, row': PropertyRow, k: PropertyKey, dek: Result<Key, KeyError>)
    requires RowOk(row, k, dek) && RowOk(row', k, dek) && row.sensitive && row.status == row'.status
    ensures row'.sensitive && row.(secret := None) == row'.(secret := None)
  {
  }

  // ---- the plain map ----

  /** The soul's active properties. */
  function Live(props: PropertyTable, soul: SoulId): map<string, Json> {
    map k | k in props && k.soul == soul && props[k].status.Active? :: k.ptype := PlainValue(props[k])
  }

  lemma LiveAt(props: PropertyTable, soul: SoulId, ptype: string)
    ensures ptype in Live(props, soul) <==> IsActive(props, PropertyKey(soul, ptype))
    ensures ptype in Live(props, soul) ==> Live(props, soul)[ptype] == PlainValue(props[PropertyKey(soul, ptype)])
  {
    assert PropertyKey(soul, ptype) in props ==> PropertyKey(soul, ptype).ptype == ptype;
  }

  lemma PutLive(props: PropertyTable, k: PropertyKey, row: PropertyRow, soul: SoulId)
    ensures Live(props[k := row], soul) ==
      if k.soul != soul then Live(props, soul)
      else if row.status.Active? then Live(props, soul)[k.ptype := PlainValue(row)]
      else Live(props, soul) - {k.ptype}
  {
    var props' := props[k := row];
    forall t
      ensures t in Live(props', soul) <==> if k == PropertyKey(soul, t) then row.status.Active? else t in Live(props, soul)
      ensures t in Live(props', soul) ==>
        Live(props', soul)[t] == if k == PropertyKey(soul, t) then PlainValue(row) else Live(props, soul)[t]
    {
      LiveAt(props, soul, t);
      LiveAt(props', soul, t);
    }
    assert PropertyKey(k.soul, k.ptype) == k;
  }

  /** Seen through the soul's key, setting and deleting are plain map operations. */
  lemma ApplyRefines(keys: KeyTable, master: Key, props: PropertyTable, op: Op, soul: SoulId)
    ensures var (props', r) := Apply(keys, master, props, op);
            Live(props', soul) ==
              if r.Fail? || op.k.soul != soul then Live(props, soul)
              else if op.Delete? then Live(props, soul) - {op.k.ptype}
              else Live(props, soul)[op.k.ptype := op.value.value]
  {
    match op
    case Delete(k) => if IsActive(props, k) { PutLive(props, k, props[k].(status := Deleted), soul); }
    case Set(k, value, nonce) =>
      if Written(keys, master, k, value, nonce).Ok? {
        WrittenIsOk(keys, master, k, value, nonce);
        PutLive(props, k, Written(keys, master, k, value, nonce).value, soul);
      }
  }

  // ---- which operations are accepted ----

  /** The registered types and the keys each allows. */
  ghost predicate Registered(ptype: string, key: string) {
    || (ptype == "communication_style" && (key == "formality" || key == "verbosity" || key == "humor" || key == "notes"))
    || (ptype == "interests" && (key == "topics" || key == "notes"))
    || (ptype == "locale" && (key == "timezone" || key == "language" || key == "region"))
    || (ptype == "boundaries" && (key == "avoid_topics" || key == "hard_limits" || key == "notes"))
  }

  lemma RegistryIs(ptype: string, key: string)
    ensures Registered(ptype, key) <==> SchemaOf(ptype).Some? && key in SchemaOf(ptype).value.allowed
    ensures SchemaOf(ptype).Some? ==> SchemaOf(ptype).value.version == 1 && IsPropertyType(ptype)
    ensures SchemaOf(ptype).Some? && SchemaOf(ptype).value.sensitive <==> ptype == "boundaries"
  {
  }

  lemma KnownType(ptype: string)
    ensures SchemaOf(ptype).Some? <==> ptype in {"communication_style", "interests", "locale", "boundaries"}
  {
  }

  lemma KeysAreRegistered(ptype: string, keys: set<string>)
    requires SchemaOf(ptype).Some?
    ensures keys <= SchemaOf(ptype).value.allowed <==> forall key :: key in keys ==> Registered(ptype, key)
  {
    forall key { RegistryIs(ptype, key); }
  }

  /** Why a set is refused, if it is. */
  ghost predicate Refuses(keys: KeyTable, master: Key, op: Op, e: PropertyError)
    requires op.Set?
  {
    var ptype, soul := op.k.ptype, op.k.soul;
    var known := ptype in {"communication_style", "interests", "locale", "boundaries"};
    var allowed := op.value.Some? && forall key :: key in op.value.value.keys ==> Registered(ptype, key);
    var fits := allowed && |op.value.value.dump| <= 8192;
    match e
    case BadType => !IsPropertyType(ptype)
    case UnknownType => IsPropertyType(ptype) && !known
    case NotAnObject => known && op.value.None?
    case UnknownKeys => known && op.value.Some? && !allowed
    case TooLarge => known && allowed && !fits
    case Unreadable(key) => known && fits && ptype == "boundaries" && TableDek(keys, master, soul) == Err(key)
    case NoSuchSoul => known && fits && ptype != "boundaries" && soul !in keys
    case NoActiveProperty => false
  }

  lemma ValidateIs(ptype: string, value: Option<Json>)
    requires SchemaOf(ptype).Some?
    ensures var allowed := value.Some? && forall key :: key in value.value.keys ==> Registered(ptype, key);
      Validate(SchemaOf(ptype).value, value) ==
        if value.None? then Fail(NotAnObject)
        else if !allowed then Fail(UnknownKeys)
        else if |value.value.dump| > 8192 then Fail(TooLarge)
        else Pass
  {
    if value.Some? { KeysAreRegistered(ptype, value.value.keys); }
  }

  /** A set is refused for exactly these reasons, and otherwise accepted; a refused one changes nothing. */
  lemma SetRefusedIff(keys: KeyTable, master: Key, props: PropertyTable, op: Op, e: PropertyError)
    requires op.Set?
    ensures Apply(keys, master, props, op).1 == Fail(e) <==> Refuses(keys, master, op, e)
    ensures Apply(keys, master, props, op).1.Fail? ==> Apply(keys, master, props, op).0 == props
  {
    KnownType(op.k.ptype);
    RegistryIs(op.k.ptype, "");
    if SchemaOf(op.k.ptype).Some? { ValidateIs(op.k.ptype, op.value); }
  }

  /** An accepted set keeps boundaries sealed behind the placeholder, and everything else in the open. */
  lemma OnlyBoundariesAreSealed(keys: KeyTable, master: Key, props: PropertyTable, op: Op)
    requires op.Set? && Apply(keys, master, props, op).1.Pass?
    ensures var props' := Apply(keys, master, props, op).0;
      && op.k in props' && props' == props[op.k := props'[op.k]] && op.value.Some?
      && var row := props'[op.k];
      && row.status == Active && row.version == 1
      && if op.k.ptype == "boundaries" then
           && row.sensitive && row.value == Json({"_encrypted"}, "{\"_encrypted\": true}") && TableDek(keys, master, op.k.soul).Ok?
           && var dek := TableDek(keys, master, op.k.soul).value;
           row.secret == Some(Sealed(dek, op.nonce, Aad(op.k.soul, PropertyDomain), Doc(op.value.value)))
         else !row.sensitive && row.value == op.value.value && row.secret == None
  {
    RegistryIs(op.k.ptype, "");
  }

  /** A delete is refused if and only if the type is malformed or the soul has no such active property. */
  lemma DeleteRefusedIffAbsent(keys: KeyTable, master: Key, props: PropertyTable, k: PropertyKey)
    ensures Apply(keys, master, props, Delete(k)).1 ==
            if !IsPropertyType(k.ptype) then Fail(BadType)
            else if k.ptype in Live(props, k.soul) then Pass
            else Fail(NoActiveProperty)
  {
    LiveAt(props, k.soul, k.ptype);
  }

  // ---- the reader ----

  datatype Listed = Listed(ptype: string, version: int, value: Json)

  /** An empty type filters nothing. */
  function Wanted(live: map<string, Json>, ptype: Option<string>): set<string> {
    set t | t in live && (ptype.None? || ptype.value == "" || t == ptype.value)
  }

  /** The active properties in order of type: each wanted one once, with its value. */
  ghost predicate IsListing(rows: seq<Listed>, props: PropertyTable, soul: SoulId, ptype: Option<string>) {
    && Lists(seq(|rows|, i requires 0 <= i < |rows| => rows[i].ptype), Wanted(Live(props, soul), ptype), StringLess)
    && forall i :: 0 <= i < |rows| ==> rows[i].ptype in Live(props, soul) && rows[i] == ListedAt(props, soul, rows[i].ptype)
  }

  function ListedAt(props: PropertyTable, soul: SoulId, ptype: string): (row: Listed)
    requires ptype in Live(props, soul)
    ensures row.value == Live(props, soul)[ptype] && row.ptype == ptype
  {
    LiveAt(props, soul, ptype);
    Listed(ptype, props[PropertyKey(soul, ptype)].version, Live(props, soul)[ptype])
  }

  /** The key is looked up at the first sensitive row. */
  method ReadProperties(db: Database, master: Key, soul: SoulId, types: seq<string>)
    returns (r: Result<seq<Listed>, PropertyError>)
    requires forall j :: 0 <= j < |types| ==> types[j] in Live(db.properties, soul)
    ensures r.Ok? ==>
      |r.value| == |types| && forall j :: 0 <= j < |types| ==> r.value[j] == ListedAt(db.properties, soul, types[j])
    ensures PropertiesOk(db.keys, master, db.properties) ==> r.Ok?
  {
    var rows: seq<Listed> := [];
    var dek := None;
    for i := 0 to |types|
      invariant |rows| == i && forall j :: 0 <= j < i ==> rows[j] == ListedAt(db.properties, soul, types[j])
      invariant dek.Some? ==> TableDek(db.keys, master, soul) == Ok(dek.value)
    {
      LiveAt(db.properties, soul, types[i]);
      var row := db.properties[PropertyKey(soul, types[i])];
      if row.sensitive && dek.None? {
        var found := TableDek(db.keys, master, soul);
        if found.Err? {
          return Err(Unreadable(found.error));
        }
        dek := Some(found.value);
      }
      var value := DeserializeValue(row, soul, if dek.Some? then dek.value else 0);
      if value.None? {
        return Err(Unreadable(BadTag));
      }
      rows := rows + [Listed(types[i], row.version, value.value)];
    }
    return Ok(rows);
  }

  /** How versions, the day of a row's last change and values (`json.dumps`, indented) print. */
  datatype Style = Style(version: int -> string, updated: string -> string, dump: Json -> string)

  /** A property under its header line. */
  function Entry(style: Style, row: Listed): string {
    "[" + row.ptype + ", v" + style.version(row.version) + ", updated=" + style.updated(row.ptype) + "]\n"
    + style.dump(row.value)
  }

  function Entries(style: Style, rows: seq<Listed>): seq<string> {
    seq(|rows|, i requires 0 <= i < |rows| => Entry(style, rows[i]))
  }

  function Types(rows: seq<Listed>): seq<string> {
    seq(|rows|, i requires 0 <= i < |rows| => rows[i].ptype)
  }

  /** What the tool returns for the rows it selected. */
  function Told(style: Style, rows: seq<Listed>, ptype: Option<string>): string {
    if rows != [] then Join("\n\n", WrapAll(PROPERTY, Types(rows), Entries(style, rows)))
    else "No properties found" + (if ptype.Some? && ptype.value != "" then " of type '" + ptype.value + "'" else "") + "."
  }

  lemma NothingTold(style: Style, ptype: Option<string>)
    ensures ptype in {None, Some("")} ==> Told(style, [], ptype) == "No properties found" + "."
    ensures ptype !in {None, Some("")} ==> Told(style, [], ptype) == "No properties found" + (" of type '" + ptype.value + "'") + "."
  {
    assert "No properties found" + "" + "." == "No properties found" + ".";
  }

  lemma ListedInOrder(rows: seq<Listed>, types: seq<string>, props: PropertyTable, soul: SoulId, ptype: Option<string>)
    requires Lists(types, Wanted(Live(props, soul), ptype), StringLess) && |rows| == |types|
    requires forall j :: 0 <= j < |types| ==> types[j] in Live(props, soul) && rows[j] == ListedAt(props, soul, types[j])
    ensures IsListing(rows, props, soul, ptype)
  {
    assert seq(|rows|, i requires 0 <= i < |rows| => rows[i].ptype) == types;
  }

  method GetProperties(db: Database, master: Key, style: Style, soul: SoulId, ptype: Option<string>)
    returns (r: Result<string, PropertyError>, ghost rows: seq<Listed>)
    ensures r.Ok? ==> IsListing(rows, db.properties, soul, ptype) && r.value == Told(style, rows, ptype)
    ensures PropertiesOk(db.keys, master, db.properties) ==> r.Ok?
  {
    rows := [];
    StringOrder();
    var types := OrderBy(Wanted(Live(db.properties, soul), ptype), StringLess);
    assert forall j :: 0 <= j < |types| ==> types[j] in types;
    var found := ReadProperties(db, master, soul, types);
    if found.Err? {
      return Err(found.error), rows;
    }
    rows := found.value;
    ListedInOrder(rows, types, db.properties, soul, ptype);
    if found.value == [] {
      return Ok(Told(style, [], ptype)), rows;
    }
    var text := Render(PROPERTY, Types(found.value), Entries(style, found.value));
    return Ok(text), rows;
  }

  lemma RegisteredIsClean(ptype: string)
    requires SchemaOf(ptype).Some?
    ensures CleanId(ptype)
  {
  }

  /** Entry `i` is the property's type, version and day, and under them its value. */
  ghost predicate ShowsProperty(style: Style, rows: seq<Listed>, i: nat)
    requires i < |rows|
  {
    var row := rows[i];
    Entries(style, rows)[i] == "[" + row.ptype + ", v" + style.version(row.version) + ", updated=" + style.updated(row.ptype)
                               + "]\n" + style.dump(row.value)
  }

  lemma PropertyIsShown(style: Style, rows: seq<Listed>, i: nat)
    requires i < |rows|
    ensures ShowsProperty(style, rows, i)
  {
  }

  /**
    Scanning the text of a listing finds exactly the active properties that were asked for, in order of
    type, each under its header, whatever their values are and however they print.
   */
  lemma TextHoldsActiveProperties(keys: KeyTable, master: Key, props: PropertyTable, soul: SoulId, ptype: Option<string>,
                                  style: Style, rows: seq<Listed>)
    requires PropertiesOk(keys, master, props) && IsListing(rows, props, soul, ptype) && rows != []
    ensures Scans(Told(style, rows, ptype), PROPERTY, Types(rows), Entries(style, rows))
    ensures forall i, j :: 0 <= i < j < |rows| ==> StringLess(rows[i].ptype, rows[j].ptype)
    ensures forall t :: t in Types(rows) <==>
      IsActive(props, PropertyKey(soul, t)) && (ptype.None? || ptype.value == "" || t == ptype.value)
    ensures forall i :: 0 <= i < |rows| ==> rows[i].value == PlainValue(props[PropertyKey(soul, rows[i].ptype)])
    ensures forall i :: 0 <= i < |rows| ==> ShowsProperty(style, rows, i)
  {
    forall i | 0 <= i < |rows| ensures CleanId(Types(rows)[i]) {
      LiveAt(props, soul, rows[i].ptype);
      RegisteredIsClean(rows[i].ptype);
    }
    forall i, j | 0 <= i < j < |rows| ensures StringLess(rows[i].ptype, rows[j].ptype) {
      assert StringLess(Types(rows)[i], Types(rows)[j]);
    }
    forall t { LiveAt(props, soul, t); }
    forall i | 0 <= i < |rows| ensures ShowsProperty(style, rows, i) { PropertyIsShown(style, rows, i); }
    PropertyTagIsValid();
    ScanRecoversAll(PROPERTY, Types(rows), Entries(style, rows));
  }
}
