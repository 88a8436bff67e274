/**
 * A participant of the relay: its chat id, its role and its command queue,
 * the store identity derived from the chat id, and the JSON value serde
 * derives for it (and reads back, with the queue defaulting to empty).
 */
module Users {
  import opened Base
  import Utf8
  import BigEndian

  datatype Role = Cantor | Offerer

  /** A parsed command of the command language; its structure is not part of this model. */
  type Command(==)

  datatype User = User(telegramId: string, role: Role, commandsQueue: seq<Command>)

  /** A store identity: 16 bytes. */
  datatype ObjectId = ObjectId(value: seq<byte>)

  type u128 = x: nat | x < 0x1_0000_0000_0000_0000_0000_0000_0000_0000

  /** The 128-bit hash of a byte string (xxh3_128); no property of it is assumed. */
  type Hash128 = seq<byte> -> u128

  /**
   * The store identity of a user: the hash of the bytes of its chat id,
   * written as 16 bytes, most significant first.
   */
  function Id(u: User, xxh3: Hash128): (r: ObjectId)
    ensures |r.value| == 16
    ensures BigEndian.FromBytes(r.value) == xxh3(Utf8.Encode(u.telegramId))
  {
    var h := xxh3(Utf8.Encode(u.telegramId));
    BigEndian.Pow256Sixteen();
    BigEndian.FromToBytes(h, 16);
    ObjectId(BigEndian.ToBytes(h, 16))
  }

  /** The identity depends on the chat id alone: role and queue never change it. */
  lemma IdOnlyFromTelegramId(u: User, v: User, xxh3: Hash128)
    requires u.telegramId == v.telegramId
    ensures Id(u, xxh3) == Id(v, xxh3)
  {
  }

  /**
   * Two users get the same identity exactly when the hash agrees on the
   * bytes of their chat ids; and those bytes determine the chat id.
   */
  lemma IdIsHashOfChatIdBytes(u: User, v: User, xxh3: Hash128)
    ensures Id(u, xxh3) == Id(v, xxh3) <==> xxh3(Utf8.Encode(u.telegramId)) == xxh3(Utf8.Encode(v.telegramId))
    ensures Utf8.Encode(u.telegramId) == Utf8.Encode(v.telegramId) ==> u.telegramId == v.telegramId
  {
    var a, b := Id(u, xxh3), Id(v, xxh3);
    if xxh3(Utf8.Encode(u.telegramId)) == xxh3(Utf8.Encode(v.telegramId)) {
      BigEndian.ToFromBytes(a.value);
      BigEndian.ToFromBytes(b.value);
    }
    if Utf8.Encode(u.telegramId) == Utf8.Encode(v.telegramId) {
      Utf8.EncodeInjective(u.telegramId, v.telegramId);
    }
  }

  /** serde's externally tagged form of a unit variant, as it writes it: the variant's name. */
  function RoleToJson(r: Role): Json
  {
    match r
    case Cantor => JString("Cantor")
    case Offerer => JString("Offerer")
  }

  /** The role a variant name stands for. */
  function RoleNamed(name: string): Result<Role>
  {
    if name == "Cantor" then Ok(Cantor)
    else if name == "Offerer" then Ok(Offerer)
    else Err(Cause("unknown variant, expected `Cantor` or `Offerer`"))
  }

  /** A unit variant given with a content: the content must be `null`. */
  function UnitVariant(r: Role, content: Json): Result<Role>
  {
    if content == JNull then Ok(r) else Err(Cause("invalid type, expected unit"))
  }

  /**
   * Reading a role from a JSON value: either the variant's name, or a map
   * with the variant's name as its single key and `null` as its content.
   */
  function RoleFromJson(v: Json): Result<Role>
  {
    match v
    case JString(name) => RoleNamed(name)
    case JObject(fields) =>
      if |fields| != 1 then Err(Cause("invalid value, expected map with a single key"))
      else if "Cantor" in fields then UnitVariant(Cantor, fields["Cantor"])
      else if "Offerer" in fields then UnitVariant(Offerer, fields["Offerer"])
      else Err(Cause("unknown variant, expected `Cantor` or `Offerer`"))
    case _ => Err(Cause("invalid type, expected string or map"))
  }

  /** A map with one entry is the map of that entry alone. */
  lemma SingleEntry(fields: map<string, Json>, key: string)
    requires |fields| == 1 && key in fields
    ensures fields == map[key := fields[key]]
  {
    var rest := fields.Keys - {key};
    assert |rest| == 0;
    assert fields.Keys == {key};
  }

  /**
   * A role is read back from exactly four values: the two names, and the two
   * single-key maps from a name to `null`; each gives the role of that name,
   * and each role reads back from the name serde writes for it.
   */
  lemma RoleNames(v: Json)
    ensures RoleFromJson(v).Ok? <==>
      v == JString("Cantor") || v == JString("Offerer") ||
      v == JObject(map["Cantor" := JNull]) || v == JObject(map["Offerer" := JNull])
    ensures RoleFromJson(v).Ok? ==>
      var name := RoleToJson(RoleFromJson(v).value);
      v == name || v == JObject(map[name.s := JNull])
    ensures forall r: Role :: RoleFromJson(RoleToJson(r)) == Ok(r)
  {
    if v.JObject? && RoleFromJson(v).Ok? {
      if "Cantor" in v.fields {
        SingleEntry(v.fields, "Cantor");
      } else {
        SingleEntry(v.fields, "Offerer");
      }
    }
  }

  /**
   * `serde_json::to_value(user)`: an object with the three fields; fails
   * when a queued command fails to serialise (the first failure is reported).
   */
  function ToValue(u: User, encode: Command -> Result<Json>): Result<Json>
  {
    var queue := CollectAll(MapSeq(u.commandsQueue, encode));
    match queue
    case Err(e) => Err(e)
    case Ok(items) =>
      Ok(JObject(map["telegram_id" := JString(u.telegramId),
                     "role" := RoleToJson(u.role),
                     "commands_queue" := JArray(items)]))
  }

  /** A queue read from its JSON value: an array of commands, the first failing one reported. */
  function QueueFromJson(v: Json, decode: Json -> Result<Command>): Result<seq<Command>>
  {
    match v
    case JArray(items) => CollectAll(MapSeq(items, decode))
    case _ => Err(Cause("invalid type for `commands_queue`, expected a sequence"))
  }

  /**
   * A user from the values of its three fields; a missing `commands_queue`
   * (`#[serde(default)]`) is an empty queue.
   */
  function UserFrom(id: Json, role: Json, queue: Option<Json>, decode: Json -> Result<Command>): Result<User>
  {
    if !id.JString? then Err(Cause("invalid type for `telegram_id`, expected a string"))
    else
      match RoleFromJson(role)
      case Err(e) => Err(e)
      case Ok(r) =>
        match queue
        case None => Ok(User(id.s, r, []))
        case Some(q) =>
          match QueueFromJson(q, decode)
          case Err(e) => Err(e)
          case Ok(commands) => Ok(User(id.s, r, commands))
  }

  /**
   * Deserialising a user from a JSON value, as the derived `Deserialize`
   * reads one: either an object, where `telegram_id` and `role` are required
   * and other fields are ignored, or an array of the fields in declaration
   * order, where the last one may be left out. A missing `commands_queue`
   * means an empty queue.
   */
  function FromValue(v: Json, decode: Json -> Result<Command>): Result<User>
  {
    match v
    case JObject(fields) =>
      if "telegram_id" !in fields then Err(Cause("missing field `telegram_id`"))
      else if "role" !in fields then Err(Cause("missing field `role`"))
      else
        var queue := if "commands_queue" in fields then Some(fields["commands_queue"]) else None;
        UserFrom(fields["telegram_id"], fields["role"], queue, decode)
    case JArray(items) =>
      if |items| < 2 then Err(Cause("invalid length, expected struct User with 3 elements"))
      else if |items| > 3 then Err(Cause("invalid length, expected fewer elements in array"))
      else
        var queue := if |items| == 3 then Some(items[2]) else None;
        UserFrom(items[0], items[1], queue, decode)
    case _ => Err(Cause("invalid type, expected struct User"))
  }

  /** Serialising succeeds exactly when every queued command serialises. */
  lemma ToValueOk(u: User, encode: Command -> Result<Json>)
    ensures ToValue(u, encode).Ok? <==>
      forall i :: 0 <= i < |u.commandsQueue| ==> encode(u.commandsQueue[i]).Ok?
  {
    CollectAllOk(MapSeq(u.commandsQueue, encode));
  }

  /**
   * The serialised value holds the whole user: reading it back gives the
   * same chat id, role and queue, whenever commands read back as written.
   */
  lemma ValueRoundTrip(u: User, encode: Command -> Result<Json>, decode: Json -> Result<Command>)
    requires forall c :: encode(c).Ok? ==> decode(encode(c).value) == Ok(c)
    requires ToValue(u, encode).Ok?
    ensures FromValue(ToValue(u, encode).value, decode) == Ok(u)
  {
    var q := u.commandsQueue;
    var encoded := MapSeq(q, encode);
    CollectAllOk(encoded);
    var items := CollectAll(encoded).value;
    var decoded := MapSeq(items, decode);
    forall i | 0 <= i < |items| ensures decoded[i] == Ok(q[i]) {
      assert items[i] == encode(q[i]).value;
    }
    CollectAllOk(decoded);
    var back := CollectAll(decoded).value;
    assert back == q;
    RoleNames(RoleToJson(u.role));
  }

  /** A user read from a value without `commands_queue` has an empty queue and the value's chat id. */
  lemma MissingQueueIsEmpty(fields: map<string, Json>, decode: Json -> Result<Command>)
    requires "commands_queue" !in fields
    requires FromValue(JObject(fields), decode).Ok?
    ensures FromValue(JObject(fields), decode).value.commandsQueue == []
    ensures FromValue(JObject(fields), decode).value.telegramId == fields["telegram_id"].s
  {
  }

  /**
   * The array form reads as the object with the same fields in declaration
   * order; with two elements, as the object without `commands_queue`.
   */
  lemma ArrayFormIsObjectForm(id: Json, role: Json, queue: Json, decode: Json -> Result<Command>)
    ensures FromValue(JArray([id, role]), decode) == FromValue(JObject(map["telegram_id" := id, "role" := role]), decode)
    ensures FromValue(JArray([id, role, queue]), decode)
      == FromValue(JObject(map["telegram_id" := id, "role" := role, "commands_queue" := queue]), decode)
  {
  }
}
