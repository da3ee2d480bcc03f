/** The record service: stamps identity, version and timestamps on new and
    updated records and delegates to the storage engine. Identifier generation
    and the clock are inputs: `newId` and `newVersion` stand for the values
    `xid.New` returns and `clock` for `time.Now()`. */
module Service {

  import opened Base
  import opened Errors
  import opened Players
  import opened Mongo
  import opened Storage

  /** The record `Create` inserts: the given email and name under the new id
      and version, created and updated at the same instant, the current time
      shown in UTC. */
  function NewRecord(id: Id, version: Id, email: string, name: string, clock: Time): (r: Player)
    ensures r.id == id && r.version == version && r.email == email && r.name == name
    ensures r.createdAt == r.updatedAt
    ensures r.updatedAt.offset == 0 && r.updatedAt.unix == clock.unix && r.updatedAt.nanos == clock.nanos
  {
    var now := UTC(clock);
    Player(id, version, email, name, now, now)
  }

  /** The record `Update` writes: the read copy with email and name overwritten,
      a new version and the current time in UTC as UpdatedAt. The id and
      CreatedAt are those of the read copy. */
  function Restamp(read: Player, email: string, name: string, version: Id, clock: Time): (r: Player)
    ensures r.id == read.id && r.createdAt == read.createdAt
    ensures r.email == email && r.name == name && r.version == version
    ensures r.updatedAt.offset == 0 && r.updatedAt.unix == clock.unix && r.updatedAt.nanos == clock.nanos
  {
    read.(email := email, name := name, version := version, updatedAt := UTC(clock))
  }

  function CreateSpec(
    db: Db, email: string, name: string, id: Id, version: Id, clock: Time,
    uniqueEmail: bool, fault: Option<Fault>): Outcome<Player>
  {
    var s := InsertSpec(db, NewRecord(id, version, email, name, clock), uniqueEmail, fault);
    if s.result.Err? then Outcome(Err(Wrapped("insert player", s.result.error)), s.db) else s
  }

  /** `Update` when `rival`, if present, is a record another client stores by a
      replace made from the same read copy, committed between this call's read
      and its replace. */
  function UpdateSpec(
    db: Db, id: Id, email: string, name: string, version: Id, clock: Time, uniqueEmail: bool,
    readFault: Option<Fault>, rival: Option<Player>, replaceFault: Option<Fault>): Outcome<Player>
  {
    var read := GetSpec(db, id, readFault);
    if read.Err? then Outcome(Err(read.error), db)
    else
      var mid := if rival.Some? then ReplaceSpec(db, read.value, rival.value, uniqueEmail, None).db else db;
      var s := ReplaceSpec(mid, read.value, Restamp(read.value, email, name, version, clock), uniqueEmail, replaceFault);
      if s.result.Err? then Outcome(Err(Wrapped("replace player", s.result.error)), s.db) else s
  }

  function ServiceDeleteSpec(db: Db, id: Id, fault: Option<Fault>): Outcome<()>
  {
    var s := DeleteSpec(db, id, fault);
    if s.result.Err? then Outcome(Err(Wrapped("delete player", s.result.error)), s.db) else s
  }

  // ---- Lemmas ---------------------------------------------------------------

  /** Create stores and returns a record with the given email and name, the
      generated id and version, and CreatedAt equal to UpdatedAt, both the
      current time in UTC. When the id collides (or, under the unique email
      index, the email), the result is Conflict wrapped as "insert player",
      still classified as Conflict, and nothing changes. */
  lemma CreateEffect(
    db: Db, email: string, name: string, id: Id, version: Id, clock: Time,
    uniqueEmail: bool, fault: Option<Fault>)
    requires Indexed(db, uniqueEmail)
    ensures var s := CreateSpec(db, email, name, id, version, clock, uniqueEmail, fault);
      var p := NewRecord(id, version, email, name, clock);
      && Indexed(s.db, uniqueEmail)
      && (fault.Some? ==> s == Outcome(Err(Wrapped("insert player", ConvertErr(fault.value))), db))
      && (fault.None? && InsertCollides(db, p, uniqueEmail) ==>
            && s == Outcome(Err(Wrapped("insert player", Sentinel(Conflict))), db)
            && IsKind(s.result.error, Conflict))
      && (fault.None? && !InsertCollides(db, p, uniqueEmail) ==>
            && s == Outcome(Ok(p), Db(db.docs[id := p], db.order + [id]))
            && p.id == id && p.version == version && p.email == email && p.name == name
            && p.createdAt == p.updatedAt == UTC(clock))
  {
    InsertEffect(db, NewRecord(id, version, email, name, clock), uniqueEmail, fault);
  }

  /** A created record reads back with the email and name it was created with. */
  lemma CreateThenRead(
    db: Db, email: string, name: string, id: Id, version: Id, clock: Time, uniqueEmail: bool)
    requires Indexed(db, uniqueEmail)
    requires CreateSpec(db, email, name, id, version, clock, uniqueEmail, None).result.Ok?
    ensures var s := CreateSpec(db, email, name, id, version, clock, uniqueEmail, None);
      var back := GetSpec(s.db, id, None);
      && back == s.result
      && back.value.email == email && back.value.name == name
      && back.value.createdAt == back.value.updatedAt
  {
    CreateEffect(db, email, name, id, version, clock, uniqueEmail, None);
    var s := CreateSpec(db, email, name, id, version, clock, uniqueEmail, None);
    GetByIdEffect(s.db, id, None);
  }

  /** Update on an absent id is NotFound, unwrapped, and nothing is written. */
  lemma UpdateAbsent(
    db: Db, id: Id, email: string, name: string, version: Id, clock: Time, uniqueEmail: bool,
    rival: Option<Player>, replaceFault: Option<Fault>)
    requires Consistent(db)
    requires id !in db.docs
    ensures UpdateSpec(db, id, email, name, version, clock, uniqueEmail, None, rival, replaceFault)
      == Outcome(Err(Sentinel(NotFound)), db)
  {
    GetByIdEffect(db, id, None);
  }

  /** A successful Update keeps the id and CreatedAt of the stored record, sets
      email and name to the arguments, the version to the generated one (so a
      new one, when `version` is fresh) and UpdatedAt to the current time;
      exactly that entry of the collection changes. */
  lemma UpdateEffect(
    db: Db, id: Id, email: string, name: string, version: Id, clock: Time, uniqueEmail: bool)
    requires Indexed(db, uniqueEmail)
    requires id in db.docs && version != db.docs[id].version
    requires !(uniqueEmail && EmailHeldElsewhere(db.docs, email, id))
    ensures var s := UpdateSpec(db, id, email, name, version, clock, uniqueEmail, None, None, None);
      var stored := db.docs[id];
      && s.result.Ok?
      && s.result.value.id == stored.id && s.result.value.createdAt == stored.createdAt
      && s.result.value.email == email && s.result.value.name == name
      && s.result.value.version == version && s.result.value.version != stored.version
      && s.result.value.updatedAt == UTC(clock)
      && s.db == Db(db.docs[id := s.result.value], db.order)
  {
    GetByIdEffect(db, id, None);
    var read := db.docs[id];
    ReplaceIsCompareAndSwap(db, read, Restamp(read, email, name, version, clock), uniqueEmail, None);
  }

  /** Update passes the record it read as the expected copy: when another
      writer's replace from that same copy, with a new version, commits in
      between, this Update fails with VersionMismatch wrapped as "replace
      player", still classified as VersionMismatch, and only the other write
      stands. */
  lemma UpdateLosesToInterleavedWrite(
    db: Db, id: Id, email: string, name: string, version: Id, clock: Time, uniqueEmail: bool,
    rival: Player)
    requires Indexed(db, uniqueEmail)
    requires id in db.docs
    requires rival.id == id && rival.version != db.docs[id].version
    requires !(uniqueEmail && EmailHeldElsewhere(db.docs, rival.email, id))
    ensures var s := UpdateSpec(db, id, email, name, version, clock, uniqueEmail, None, Some(rival), None);
      && s == Outcome(Err(Wrapped("replace player", Sentinel(VersionMismatch))), Db(db.docs[id := rival], db.order))
      && IsKind(s.result.error, VersionMismatch)
  {
    GetByIdEffect(db, id, None);
    var read := db.docs[id];
    StaleCopyLoses(db, read, rival, Restamp(read, email, name, version, clock), uniqueEmail);
  }

  /** The replace step against any later state of the collection: if, by the
      time Update replaces, the record it read is gone or carries another
      version (whatever insert, delete or replace came in between), the
      replace fails with VersionMismatch and changes nothing. */
  lemma ReplaceAfterAnyInterleavedWriteLoses(
    db: Db, mid: Db, id: Id, email: string, name: string, version: Id, clock: Time, uniqueEmail: bool)
    requires Consistent(db) && Indexed(mid, uniqueEmail)
    requires id in db.docs
    requires !(id in mid.docs && mid.docs[id].version == db.docs[id].version)
    ensures ReplaceSpec(mid, db.docs[id], Restamp(db.docs[id], email, name, version, clock), uniqueEmail, None)
      == Outcome(Err(Sentinel(VersionMismatch)), mid)
  {
    ReplaceIsCompareAndSwap(mid, db.docs[id], Restamp(db.docs[id], email, name, version, clock), uniqueEmail, None);
  }

  /** Delete only wraps the storage error: the service result has exactly the
      kinds the storage result has, and the same effect. */
  lemma DeleteKeepsKind(db: Db, id: Id, fault: Option<Fault>, k: Kind)
    ensures ServiceDeleteSpec(db, id, fault).db == DeleteSpec(db, id, fault).db
    ensures ServiceDeleteSpec(db, id, fault).result.Ok? <==> DeleteSpec(db, id, fault).result.Ok?
    ensures DeleteSpec(db, id, fault).result.Err? ==>
      (IsKind(ServiceDeleteSpec(db, id, fault).result.error, k) <==> IsKind(DeleteSpec(db, id, fault).result.error, k))
  {
  }

  /** As written, boot never runs the setup that would create the unique email
      index, so the collection runs without it: two creates with one email and
      two fresh ids both succeed, and the collection then holds two records with
      that email although Conflict promises there is at most one. */
  lemma DuplicateEmailAccepted(
    db: Db, email: string, name1: string, name2: string, id1: Id, id2: Id,
    v1: Id, v2: Id, c1: Time, c2: Time)
    requires Indexed(db, false) && id1 != id2 && id1 !in db.docs && id2 !in db.docs
    ensures var s1 := CreateSpec(db, email, name1, id1, v1, c1, false, None);
      var s2 := CreateSpec(s1.db, email, name2, id2, v2, c2, false, None);
      && s1.result.Ok? && s2.result.Ok?
      && id1 in s2.db.docs && id2 in s2.db.docs
      && s2.db.docs[id1].email == s2.db.docs[id2].email == email
      && !EmailsUnique(s2.db.docs)
  {
    CreateEffect(db, email, name1, id1, v1, c1, false, None);
    var s1 := CreateSpec(db, email, name1, id1, v1, c1, false, None);
    CreateEffect(s1.db, email, name2, id2, v2, c2, false, None);
  }

  /** With the unique email index in place, the second create of an email held
      by another record fails with Conflict and leaves the collection as it was,
      so emails stay unique. */
  lemma DuplicateEmailRejected(
    db: Db, email: string, name1: string, name2: string, id1: Id, id2: Id,
    v1: Id, v2: Id, c1: Time, c2: Time)
    requires Indexed(db, true) && id1 != id2 && id1 !in db.docs && id2 !in db.docs
    requires !EmailHeldElsewhere(db.docs, email, id1)
    ensures var s1 := CreateSpec(db, email, name1, id1, v1, c1, true, None);
      var s2 := CreateSpec(s1.db, email, name2, id2, v2, c2, true, None);
      && s1.result.Ok?
      && s2 == Outcome(Err(Wrapped("insert player", Sentinel(Conflict))), s1.db)
      && IsKind(s2.result.error, Conflict)
      && EmailsUnique(s2.db.docs)
  {
    CreateEffect(db, email, name1, id1, v1, c1, true, None);
    var s1 := CreateSpec(db, email, name1, id1, v1, c1, true, None);
    assert s1.db.docs[id1].email == email;
    CreateEffect(s1.db, email, name2, id2, v2, c2, true, None);
  }

  // ---- The service ----------------------------------------------------------

  class PlayerService {
    const serviceName: string
    const storage: StorageMongo

    ghost predicate Valid()
      reads this, storage, storage.collection
    {
      storage.Valid()
    }

    constructor (serviceName: string, storage: StorageMongo)
      requires storage.Valid()
      ensures this.serviceName == serviceName && this.storage == storage && Valid()
    {
      this.serviceName := serviceName;
      this.storage := storage;
    }

    method Create(email: string, name: string, newId: Id, newVersion: Id, clock: Time, fault: Option<Fault>)
      returns (r: Result<Player>)
      requires Valid()
      modifies storage.collection
      ensures Valid()
      ensures Outcome(r, storage.collection.State()) ==
        CreateSpec(old(storage.collection.State()), email, name, newId, newVersion, clock, storage.collection.uniqueEmail, fault)
    {
      var now := UTC(clock);
      var p := Player(newId, newVersion, email, name, now, now);
      r := storage.Insert(p, fault);
      if r.Err? {
        return Err(Wrapped("insert player", r.error));
      }
    }

    method Read(id: Id, fault: Option<Fault>) returns (r: Result<Player>)
      requires Valid()
      ensures r == GetSpec(storage.collection.State(), id, fault)
    {
      r := storage.GetByID(id, fault);
    }

    /** `rival`, when present, is another client's write from the same read
        copy that commits between the read and the replace below. */
    method Update(
      id: Id, email: string, name: string, newVersion: Id, clock: Time,
      readFault: Option<Fault>, rival: Option<Player>, replaceFault: Option<Fault>)
      returns (r: Result<Player>)
      requires Valid()
      modifies storage.collection
      ensures Valid()
      ensures Outcome(r, storage.collection.State()) ==
        UpdateSpec(old(storage.collection.State()), id, email, name, newVersion, clock,
                   storage.collection.uniqueEmail, readFault, rival, replaceFault)
    {
      var read := Read(id, readFault);
      if read.Err? {
        return read;
      }
      var oldP := read.value;
      var newP := oldP;
      newP := newP.(email := email);
      newP := newP.(name := name);
      newP := newP.(version := newVersion);
      newP := newP.(updatedAt := UTC(clock));
      if rival.Some? {
        var other := storage.Replace(oldP, rival.value, None);
      }
      r := storage.Replace(oldP, newP, replaceFault);
      if r.Err? {
        return Err(Wrapped("replace player", r.error));
      }
    }

    method Delete(id: Id, fault: Option<Fault>) returns (r: Result<()>)
      requires Valid()
      modifies storage.collection
      ensures Valid()
      ensures Outcome(r, storage.collection.State()) == ServiceDeleteSpec(old(storage.collection.State()), id, fault)
    {
      r := storage.Delete(id, fault);
      if r.Err? {
        return Err(Wrapped("delete player", r.error));
      }
    }

    method List(findFault: Option<Fault>, decodeFault: Option<Fault>) returns (r: Result<seq<Player>>)
      requires Valid()
      ensures r == AllSpec(storage.collection.State(), findFault, decodeFault)
    {
      r := storage.All(findFault, decodeFault);
    }

    method Filter(
      req: FilterRequest, offset: Uint64, limit: Uint64,
      countFault: Option<Fault>, findFault: Option<Fault>, decodeFault: Option<Fault>)
      returns (r: Result<(nat, seq<Player>)>)
      requires Valid()
      ensures r == FilterSpec(storage.collection.State(), req, offset, limit, countFault, findFault, decodeFault)
    {
      r := storage.Filter(req, offset, limit, countFault, findFault, decodeFault);
    }
  }
}
