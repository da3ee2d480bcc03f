/** The managed entity: the player record, its stored document layout, its JSON
    form, and the filter request over it. */
module Players {

  /** An `xid.ID`: 12 bytes, compared and ordered as one 96-bit number. */
  newtype Id = x: int | 0 <= x < 0x1_0000_0000_0000_0000_0000_0000

  type Nanos = n: int | 0 <= n < 1_000_000_000

  /** A `time.Time`: an instant, as whole seconds since the Unix epoch (rounded
      down) and the nanoseconds past that second, and the offset in seconds east
      of UTC of the zone it is shown in. */
  datatype Time = Time(unix: int, nanos: Nanos, offset: int)

  /** `t.UTC()`: the same instant, shown in UTC. */
  function UTC(t: Time): Time
  {
    Time(t.unix, t.nanos, 0)
  }

  datatype Player = Player(
    id: Id,
    version: Id,
    email: string,
    name: string,
    updatedAt: Time,
    createdAt: Time)

  /** A field value of a stored document. */
  datatype Value = IdValue(id: Id) | Str(s: string) | Date(t: Time)

  /** A key of the stored document, one per field of the record. */
  datatype Field = IdField | VersionField | EmailField | NameField | UpdatedAtField | CreatedAtField

  const Fields: seq<Field> := [IdField, VersionField, EmailField, NameField, UpdatedAtField, CreatedAtField]

  /** The name each key is stored under (the record's `bson` tags). */
  function BsonKey(k: Field): string
  {
    match k
    case IdField => "_id"
    case VersionField => "version"
    case EmailField => "email"
    case NameField => "name"
    case UpdatedAtField => "updated_at"
    case CreatedAtField => "created_at"
  }

  /** The stored document of a record: one key per field, the id under `_id`. */
  function Document(p: Player): map<Field, Value>
  {
    map[
      IdField := IdValue(p.id),
      VersionField := IdValue(p.version),
      EmailField := Str(p.email),
      NameField := Str(p.name),
      UpdatedAtField := Date(p.updatedAt),
      CreatedAtField := Date(p.createdAt)]
  }

  /** Distinct fields are stored under distinct names. */
  lemma BsonKeysDistinct(a: Field, b: Field)
    ensures BsonKey(a) == BsonKey(b) <==> a == b
  {
    if a != b {
      assert |BsonKey(a)| != |BsonKey(b)| || BsonKey(a)[0] != BsonKey(b)[0];
    }
  }

  /** A record has exactly six fields: its document has every key, and `_id`
      holds the id. */
  lemma DocumentLayout(p: Player)
    ensures |Fields| == 6
    ensures forall i, j :: 0 <= i < j < |Fields| ==> Fields[i] != Fields[j]
    ensures forall k: Field :: k in Fields && k in Document(p)
    ensures Document(p)[IdField] == IdValue(p.id)
  {
    forall k: Field
      ensures k in Fields && k in Document(p)
    {
      match k
      case IdField => assert Fields[0] == k;
      case VersionField => assert Fields[1] == k;
      case EmailField => assert Fields[2] == k;
      case NameField => assert Fields[3] == k;
      case UpdatedAtField => assert Fields[4] == k;
      case CreatedAtField => assert Fields[5] == k;
    }
  }

  /** The document determines the record: nothing of a record is lost in
      storing it. */
  lemma DocumentInjective(p: Player, q: Player)
    ensures Document(p) == Document(q) <==> p == q
  {
    if Document(p) == Document(q) {
      assert Document(p)[IdField] == Document(q)[IdField];
      assert Document(p)[VersionField] == Document(q)[VersionField];
      assert Document(p)[EmailField] == Document(q)[EmailField];
      assert Document(p)[NameField] == Document(q)[NameField];
      assert Document(p)[UpdatedAtField] == Document(q)[UpdatedAtField];
      assert Document(p)[CreatedAtField] == Document(q)[CreatedAtField];
    }
  }

  /** The text `id.String()` gives for an identifier (its 20-character base32
      form); the encoding itself is not part of this model. */
  datatype IdText = XidString(id: Id)

  /** The text `t.Format(time.RFC3339)` gives for a time shown in UTC: the
      date-time layout of section 5.6 of RFC 3339 with the offset written "Z" and
      no fraction of a second, so it renders the whole second only. The
      calendar arithmetic is not part of this model. */
  datatype Rfc3339 = Rfc3339Utc(unix: int)

  function FormatRFC3339(t: Time): Rfc3339
    requires t.offset == 0
  {
    Rfc3339Utc(t.unix)
  }

  /** The JSON object for a record, under the keys `id`, `version`, `email`,
      `name`, `updated_at` and `created_at`. */
  datatype PlayerJSON = PlayerJSON(
    id: IdText,
    version: IdText,
    email: string,
    name: string,
    updatedAt: Rfc3339,
    createdAt: Rfc3339)

  function MarshalJSON(p: Player): PlayerJSON
  {
    PlayerJSON(
      XidString(p.id),
      XidString(p.version),
      p.email,
      p.name,
      FormatRFC3339(UTC(p.updatedAt)),
      FormatRFC3339(UTC(p.createdAt)))
  }

  /** What the JSON form shows of a record: the id and version texts, email and
      name unchanged, and each timestamp as the whole UTC second it falls in.
      Two records marshal alike exactly when they agree on those. */
  lemma MarshalJSONShows(p: Player, q: Player)
    ensures MarshalJSON(p).email == p.email && MarshalJSON(p).name == p.name
    ensures MarshalJSON(p).id == XidString(p.id) && MarshalJSON(p).version == XidString(p.version)
    ensures MarshalJSON(p).updatedAt == Rfc3339Utc(p.updatedAt.unix)
    ensures MarshalJSON(p).createdAt == Rfc3339Utc(p.createdAt.unix)
    ensures MarshalJSON(p) == MarshalJSON(q) <==>
      && p.id == q.id && p.version == q.version
      && p.email == q.email && p.name == q.name
      && p.updatedAt.unix == q.updatedAt.unix
      && p.createdAt.unix == q.createdAt.unix
  {
  }

  /** The zone a timestamp is shown in and its fraction of a second never reach
      the JSON form. */
  lemma MarshalJSONIgnoresZoneAndFraction(p: Player, updated: Time, created: Time)
    requires updated.unix == p.updatedAt.unix && created.unix == p.createdAt.unix
    ensures MarshalJSON(p.(updatedAt := updated, createdAt := created)) == MarshalJSON(p)
  {
  }

  /** A filter request: a field left empty puts no constraint on that field. */
  datatype FilterRequest = FilterRequest(name: string, email: string)

  predicate IsEmptyRequest(req: FilterRequest)
  {
    req.name == "" && req.email == ""
  }

  /** The records a request asks for: every non-empty field equal, AND-ed. */
  predicate Selects(req: FilterRequest, p: Player)
  {
    (req.name == "" || p.name == req.name) && (req.email == "" || p.email == req.email)
  }
}
