/** The storage engine for player records: insert, version-checked replace, get,
    delete, full scan and filtered paging over the collection, with driver
    errors classified into the player package's error kinds. */
module Storage {

  import opened Base
  import opened Errors
  import opened Players
  import opened Mongo

  /** Classifies a driver error: no-documents becomes NotFound (checked first),
      duplicate-key becomes Conflict, anything else passes through unchanged.
      No other error is ever made up. */
  function ConvertErr(e: Error): (r: Error)
    ensures r == e || r == Sentinel(NotFound) || r == Sentinel(Conflict)
  {
    if Is(e, NoDocuments) then Sentinel(NotFound)
    else if Is(e, DuplicateKey) then Sentinel(Conflict)
    else e
  }

  function IdFilter(id: Id): Filter
  {
    map[IdField := IdValue(id)]
  }

  /** The compare-and-swap predicate: this id with this version. */
  function CasFilter(p: Player): Filter
  {
    map[IdField := IdValue(p.id), VersionField := IdValue(p.version)]
  }

  /** The filter a request builds: one key per non-empty field, holding that
      field's value, and no other key. */
  function RequestFilter(req: FilterRequest): (f: Filter)
    ensures NameField in f <==> req.name != ""
    ensures EmailField in f <==> req.email != ""
    ensures forall k :: k in f ==>
      (k == NameField && f[k] == Str(req.name)) || (k == EmailField && f[k] == Str(req.email))
  {
    var byName: Filter := if req.name != "" then map[NameField := Str(req.name)] else map[];
    if req.email != "" then byName[EmailField := Str(req.email)] else byName
  }

  /** `cursorToPlayers`: the decoded documents, or the cursor's failure wrapped. */
  function CursorToPlayers(cursor: seq<Player>, fault: Option<Fault>): Result<seq<Player>>
  {
    if fault.Some? then Err(Wrapped("cursor convert all", fault.value)) else Ok(cursor)
  }

  function InsertSpec(db: Db, p: Player, uniqueEmail: bool, fault: Option<Fault>): Outcome<Player>
  {
    var o := InsertOneEffect(db, p, uniqueEmail, fault);
    if o.result.Err? then Outcome(Err(ConvertErr(o.result.error)), o.db) else Outcome(Ok(p), o.db)
  }

  function ReplaceSpec(db: Db, oldP: Player, newP: Player, uniqueEmail: bool, fault: Option<Fault>): Outcome<Player>
  {
    if oldP.id != newP.id then Outcome(Err(Sentinel(IDMismatch)), db)
    else
      var o := UpdateOneEffect(db, CasFilter(oldP), newP, uniqueEmail, fault);
      if o.result.Err? then Outcome(Err(ConvertErr(o.result.error)), o.db)
      else if o.result.value.modified == 0 then Outcome(Err(Sentinel(VersionMismatch)), o.db)
      else Outcome(Ok(newP), o.db)
  }

  function GetSpec(db: Db, id: Id, fault: Option<Fault>): Result<Player>
  {
    var r := FindOneResult(db, IdFilter(id), fault);
    if r.Err? then Err(ConvertErr(r.error)) else r
  }

  function DeleteSpec(db: Db, id: Id, fault: Option<Fault>): Outcome<()>
  {
    var o := DeleteOneEffect(db, IdFilter(id), fault);
    if o.result.Err? then Outcome(Err(ConvertErr(o.result.error)), o.db)
    else if o.result.value == 0 then Outcome(Err(Sentinel(NotFound)), o.db)
    else Outcome(Ok(()), o.db)
  }

  function AllSpec(db: Db, findFault: Option<Fault>, decodeFault: Option<Fault>): Result<seq<Player>>
  {
    var cur := FindResult(db, map[], 0, 0, findFault);
    if cur.Err? then Err(ConvertErr(cur.error)) else CursorToPlayers(cur.value, decodeFault)
  }

  function FilterSpec(
    db: Db, req: FilterRequest, offset: Uint64, limit: Uint64,
    countFault: Option<Fault>, findFault: Option<Fault>, decodeFault: Option<Fault>): Result<(nat, seq<Player>)>
  {
    if IsEmptyRequest(req) then Err(Sentinel(EmptyRequest))
    else
      var f := RequestFilter(req);
      var count := CountResult(db, f, countFault);
      if count.Err? then Err(Wrapped("count players", count.error))
      else if count.value == 0 then Ok((0, []))
      else
        var cur := FindResult(db, f, ToInt64(offset), ToInt64(limit), findFault);
        if cur.Err? then Err(Wrapped("find players", cur.error))
        else
          var pp := CursorToPlayers(cur.value, decodeFault);
          if pp.Err? then Err(pp.error) else Ok((count.value, pp.value))
  }

  /** The records a request selects, in the collection's natural order. */
  function Selected(db: Db, req: FilterRequest): seq<Player>
  {
    Matching(db.docs, db.order, RequestFilter(req))
  }

  // ---- Lemmas ---------------------------------------------------------------

  /** `cursorToPlayers`: without a decode failure the cursor's records come
      back as they are, in order; a decode failure comes back wrapped "cursor
      convert all" and, being a driver failure, carries no kind of the player
      package. */
  lemma CursorToPlayersEffect(cursor: seq<Player>, fault: Option<Fault>, k: Kind)
    ensures fault.None? ==> CursorToPlayers(cursor, fault) == Ok(cursor)
    ensures fault.Some? ==>
      var r := CursorToPlayers(cursor, fault);
      && r == Err(Wrapped("cursor convert all", fault.value))
      && Is(r.error, fault.value)
      && !IsKind(r.error, k)
  {
    if fault.Some? {
      ForeignHasNoKind(fault.value, k);
      WrapKeepsKind("cursor convert all", fault.value, k);
    }
  }

  /** No-documents maps only to NotFound and duplicate-key only to Conflict,
      NotFound taking precedence; any other foreign error passes through and so
      carries no kind at all. */
  lemma ConvertErrClassifies(e: Error)
    requires Foreign(e)
    ensures IsKind(ConvertErr(e), NotFound) <==> Is(e, NoDocuments)
    ensures IsKind(ConvertErr(e), Conflict) <==> !Is(e, NoDocuments) && Is(e, DuplicateKey)
    ensures !IsKind(ConvertErr(e), IDMismatch) && !IsKind(ConvertErr(e), VersionMismatch)
    ensures !IsKind(ConvertErr(e), EmptyRequest)
    ensures !Is(e, NoDocuments) && !Is(e, DuplicateKey) ==> ConvertErr(e) == e
  {
    if !Is(e, NoDocuments) && !Is(e, DuplicateKey) {
      ForeignHasNoKind(e, NotFound);
      ForeignHasNoKind(e, Conflict);
      ForeignHasNoKind(e, IDMismatch);
      ForeignHasNoKind(e, VersionMismatch);
      ForeignHasNoKind(e, EmptyRequest);
    }
  }

  /** The filter a request builds selects exactly what the request asks for. */
  lemma RequestFilterSelects(req: FilterRequest, p: Player)
    ensures Matches(p, RequestFilter(req)) <==> Selects(req, p)
    ensures IsEmptyRequest(req) <==> RequestFilter(req) == map[]
  {
    var f := RequestFilter(req);
    if req.name != "" {
      assert NameField in f;
    }
    if req.email != "" {
      assert EmailField in f;
    }
  }

  /** The compare-and-swap filter matches at most the record stored under the
      id, and that one only when it carries the expected version. */
  lemma CasMatching(db: Db, oldP: Player)
    requires Consistent(db)
    ensures Matching(db.docs, db.order, CasFilter(oldP)) ==
      if oldP.id in db.docs && db.docs[oldP.id].version == oldP.version then [db.docs[oldP.id]] else []
  {
    MatchingById(db.docs, db.order, CasFilter(oldP), oldP.id);
    if oldP.id in db.docs {
      var d := db.docs[oldP.id];
      assert Document(d)[IdField] == IdValue(d.id);
      assert Document(d)[VersionField] == IdValue(d.version);
    }
  }

  lemma IdMatching(db: Db, id: Id)
    requires Consistent(db)
    ensures Matching(db.docs, db.order, IdFilter(id)) == if id in db.docs then [db.docs[id]] else []
  {
    MatchingById(db.docs, db.order, IdFilter(id), id);
    if id in db.docs {
      assert Document(db.docs[id])[IdField] == IdValue(id);
    }
  }

  /** Insert: a record whose id is taken, or whose email is taken while the
      unique email index exists, gives Conflict and changes nothing; otherwise
      exactly that record is added, at the end of the natural order, and
      returned. The indexes' invariant is kept. */
  lemma InsertEffect(db: Db, p: Player, uniqueEmail: bool, fault: Option<Fault>)
    requires Indexed(db, uniqueEmail)
    ensures var s := InsertSpec(db, p, uniqueEmail, fault);
      && Indexed(s.db, uniqueEmail)
      && (fault.Some? ==> s == Outcome(Err(ConvertErr(fault.value)), db))
      && (fault.None? && InsertCollides(db, p, uniqueEmail) ==> s == Outcome(Err(Sentinel(Conflict)), db))
      && (fault.None? && !InsertCollides(db, p, uniqueEmail) ==>
            s == Outcome(Ok(p), Db(db.docs[p.id := p], db.order + [p.id])))
  {
  }

  /** Replace is a compare-and-swap on (id, version):
      - mismatched ids give IDMismatch before the store is touched;
      - when the stored record under the id has the expected version and differs
        from the new one, that entry becomes the new record (every other entry
        and the order unchanged) and the new record is returned, unless the
        unique email index forbids the new email (Conflict);
      - when nothing carries that id and version, or the stored record already
        equals the new one, the result is VersionMismatch.
      Every failure leaves the collection as it was, and the indexes' invariant
      is kept. */
  lemma ReplaceIsCompareAndSwap(db: Db, oldP: Player, newP: Player, uniqueEmail: bool, fault: Option<Fault>)
    requires Indexed(db, uniqueEmail)
    ensures var s := ReplaceSpec(db, oldP, newP, uniqueEmail, fault);
      var hit := oldP.id in db.docs && db.docs[oldP.id].version == oldP.version;
      && Indexed(s.db, uniqueEmail)
      && (s.result.Err? ==> s.db == db)
      && (oldP.id != newP.id ==> s.result == Err(Sentinel(IDMismatch)))
      && (oldP.id == newP.id && fault.Some? ==> s.result == Err(ConvertErr(fault.value)))
      && (oldP.id == newP.id && fault.None? && !hit ==> s.result == Err(Sentinel(VersionMismatch)))
      && (oldP.id == newP.id && fault.None? && hit && db.docs[oldP.id] == newP ==>
            s.result == Err(Sentinel(VersionMismatch)))
      && (oldP.id == newP.id && fault.None? && hit && db.docs[oldP.id] != newP ==>
            if uniqueEmail && EmailHeldElsewhere(db.docs, newP.email, newP.id)
            then s.result == Err(Sentinel(Conflict))
            else s == Outcome(Ok(newP), Db(db.docs[oldP.id := newP], db.order)))
  {
    if oldP.id != newP.id {
    } else if fault.Some? {
      assert ReplaceSpec(db, oldP, newP, uniqueEmail, fault) == Outcome(Err(ConvertErr(fault.value)), db);
    } else {
      CasMatching(db, oldP);
      var s := ReplaceSpec(db, oldP, newP, uniqueEmail, fault);
      if !(oldP.id in db.docs && db.docs[oldP.id].version == oldP.version) || db.docs[oldP.id] == newP {
        assert s == Outcome(Err(Sentinel(VersionMismatch)), db);
      } else if uniqueEmail && EmailHeldElsewhere(db.docs, newP.email, newP.id) {
        assert s == Outcome(Err(Sentinel(Conflict)), db);
      } else {
        OverwriteKeepsIndexed(db, newP, uniqueEmail);
        assert s == Outcome(Ok(newP), Db(db.docs[oldP.id := newP], db.order));
      }
    }
  }

  /** The optimistic-concurrency guarantee: once a replace made from a read copy
      has committed a record with a new version, a second replace made from the
      same read copy fails with VersionMismatch and changes nothing. So of two
      writers holding the same copy, the first wins and the second loses. */
  lemma StaleCopyLoses(db: Db, read: Player, first: Player, second: Player, uniqueEmail: bool)
    requires Indexed(db, uniqueEmail)
    requires read.id in db.docs && db.docs[read.id] == read
    requires first.id == read.id && second.id == read.id
    requires first.version != read.version
    requires !(uniqueEmail && EmailHeldElsewhere(db.docs, first.email, first.id))
    ensures var s1 := ReplaceSpec(db, read, first, uniqueEmail, None);
      var s2 := ReplaceSpec(s1.db, read, second, uniqueEmail, None);
      && s1 == Outcome(Ok(first), Db(db.docs[read.id := first], db.order))
      && s2 == Outcome(Err(Sentinel(VersionMismatch)), s1.db)
  {
    ReplaceIsCompareAndSwap(db, read, first, uniqueEmail, None);
    var s1 := ReplaceSpec(db, read, first, uniqueEmail, None);
    ReplaceIsCompareAndSwap(s1.db, read, second, uniqueEmail, None);
  }

  /** GetByID: the stored record for a present id, NotFound for an absent one. */
  lemma GetByIdEffect(db: Db, id: Id, fault: Option<Fault>)
    requires Consistent(db)
    ensures fault.Some? ==> GetSpec(db, id, fault) == Err(ConvertErr(fault.value))
    ensures fault.None? && id in db.docs ==> GetSpec(db, id, fault) == Ok(db.docs[id])
    ensures fault.None? && id !in db.docs ==> GetSpec(db, id, fault) == Err(Sentinel(NotFound))
  {
    IdMatching(db, id);
  }

  /** Delete: a present id loses exactly its entry (in the map and in the
      order, where the others keep their places); an absent id gives NotFound
      and changes nothing. */
  lemma DeleteEffect(db: Db, id: Id, uniqueEmail: bool, fault: Option<Fault>)
    requires Indexed(db, uniqueEmail)
    ensures var s := DeleteSpec(db, id, fault);
      && Indexed(s.db, uniqueEmail)
      && (fault.Some? ==> s == Outcome(Err(ConvertErr(fault.value)), db))
      && (fault.None? && id !in db.docs ==> s == Outcome(Err(Sentinel(NotFound)), db))
      && (fault.None? && id in db.docs ==>
            && s.result == Ok(())
            && s.db.docs == db.docs - {id}
            && (forall k :: k in s.db.order <==> k in db.order && k != id)
            && |s.db.order| == |db.order| - 1
            && exists i :: 0 <= i < |db.order| && db.order[i] == id
                 && s.db.order == db.order[..i] + db.order[i+1..])
  {
    IdMatching(db, id);
    WithoutSpec(db.order, id);
    if fault.None? && id in db.docs {
      var i :| 0 <= i < |db.order| && db.order[i] == id;
      WithoutSplice(db.order, i);
    }
  }

  /** All: every stored record, in natural order. */
  lemma AllEffect(db: Db, findFault: Option<Fault>, decodeFault: Option<Fault>)
    requires Consistent(db)
    ensures findFault.Some? ==> AllSpec(db, findFault, decodeFault) == Err(ConvertErr(findFault.value))
    ensures findFault.None? && decodeFault.Some? ==>
      AllSpec(db, findFault, decodeFault) == Err(Wrapped("cursor convert all", decodeFault.value))
    ensures findFault.None? && decodeFault.None? ==>
      var r := AllSpec(db, findFault, decodeFault);
      && r.Ok? && |r.value| == |db.order| == |db.docs|
      && forall i :: 0 <= i < |db.order| ==> r.value[i] == db.docs[db.order[i]]
  {
    MatchingAll(db.docs, db.order);
    assert db.docs.Keys == set k | k in db.order;
    CardinalityOfDistinct(db.order);
  }

  lemma {:induction false} CardinalityOfDistinct(s: seq<Id>)
    requires NoDup(s)
    ensures |set k | k in s| == |s|
    decreases |s|
  {
    if s != [] {
      var n := |s| - 1;
      assert NoDup(s[..n]);
      CardinalityOfDistinct(s[..n]);
      assert s == s[..n] + [s[n]];
      assert (set k | k in s) == (set k | k in s[..n]) + {s[n]};
      assert s[n] !in s[..n];
    }
  }

  /** The records a request selects are exactly the stored ones it asks for. */
  lemma SelectedMembers(db: Db, req: FilterRequest, p: Player)
    requires Consistent(db)
    ensures p in Selected(db, req) <==> p.id in db.docs && db.docs[p.id] == p && Selects(req, p)
  {
    RequestFilterSelects(req, p);
    MatchingMember(db.docs, db.order, RequestFilter(req), p);
    if p.id in db.docs && db.docs[p.id] == p && Selects(req, p) {
      var i :| 0 <= i < |db.order| && db.order[i] == p.id;
    }
  }

  /** Filter: with both fields empty it is EmptyRequest; otherwise the total is
      the number of stored records matching every non-empty field, a total of 0
      gives an empty page, and the page is the window of the selected records,
      in natural order, after `offset` of them, at most `limit` long (0 means no
      limit). An offset of 2^63 or more turns negative on the way to the driver
      and the find fails. */
  lemma FilterEffect(
    db: Db, req: FilterRequest, offset: Uint64, limit: Uint64,
    countFault: Option<Fault>, findFault: Option<Fault>, decodeFault: Option<Fault>)
    requires Consistent(db)
    ensures var r := FilterSpec(db, req, offset, limit, countFault, findFault, decodeFault);
      var total := |set k | k in db.docs && Selects(req, db.docs[k])|;
      var sel := Selected(db, req);
      && (IsEmptyRequest(req) ==> r == Err(Sentinel(EmptyRequest)))
      && (!IsEmptyRequest(req) && countFault.Some? ==> r == Err(Wrapped("count players", countFault.value)))
      && (!IsEmptyRequest(req) && countFault.None? ==>
            && |sel| == total
            && (total == 0 ==> r == Ok((0, [])))
            && (total > 0 && findFault.Some? ==> r == Err(Wrapped("find players", findFault.value)))
            && (total > 0 && findFault.None? && offset >= TwoTo63 ==>
                  r == Err(Wrapped("find players", NegativeSkipError)))
            && (total > 0 && findFault.None? && offset < TwoTo63 && decodeFault.Some? ==>
                  r == Err(Wrapped("cursor convert all", decodeFault.value)))
            && (total > 0 && findFault.None? && offset < TwoTo63 && decodeFault.None? ==>
                  && r.Ok? && r.value.0 == total
                  && r.value.1 == Page(sel, offset, ToInt64(limit))
                  && (0 < limit < TwoTo63 ==> |r.value.1| <= limit)
                  && (limit == 0 ==> |r.value.1| == if offset < total then total - offset else 0)))
  {
    if !IsEmptyRequest(req) && countFault.None? {
      SelectedCount(db, req);
      if |Selected(db, req)| > 0 && findFault.None? && offset < TwoTo63 {
        PageWindow(Selected(db, req), offset, ToInt64(limit));
      }
    }
  }

  /** The number of records a request selects, counted over the stored ids. */
  lemma SelectedCount(db: Db, req: FilterRequest)
    requires Consistent(db)
    ensures |Selected(db, req)| == |set k | k in db.docs && Selects(req, db.docs[k])|
  {
    var f := RequestFilter(req);
    MatchingCount(db.docs, db.order, f);
    var viaOrder := set k | k in db.order && k in db.docs && Matches(db.docs[k], f);
    var viaDocs := set k | k in db.docs && Selects(req, db.docs[k]);
    forall k | k in db.docs
      ensures Matches(db.docs[k], f) <==> Selects(req, db.docs[k])
    {
      RequestFilterSelects(req, db.docs[k]);
    }
    assert viaOrder == viaDocs;
  }

  /** IDMismatch comes only from the pre-check made before any store call: a
      Replace fails with it exactly when the two ids differ. */
  lemma IdMismatchOnlyFromPrecheck(db: Db, oldP: Player, newP: Player, uniqueEmail: bool, fault: Option<Fault>)
    ensures var r := ReplaceSpec(db, oldP, newP, uniqueEmail, fault).result;
      r.Err? && IsKind(r.error, IDMismatch) <==> oldP.id != newP.id
  {
    if oldP.id == newP.id && fault.Some? {
      ConvertErrClassifies(fault.value);
    }
  }

  /** EmptyRequest comes only from the pre-check made before any store call: a
      Filter fails with it exactly when both fields are empty. */
  lemma EmptyRequestOnlyFromPrecheck(
    db: Db, req: FilterRequest, offset: Uint64, limit: Uint64,
    countFault: Option<Fault>, findFault: Option<Fault>, decodeFault: Option<Fault>)
    ensures var r := FilterSpec(db, req, offset, limit, countFault, findFault, decodeFault);
      r.Err? && IsKind(r.error, EmptyRequest) <==> IsEmptyRequest(req)
  {
    if !IsEmptyRequest(req) {
      if countFault.Some? {
        ForeignHasNoKind(countFault.value, EmptyRequest);
      } else if findFault.Some? {
        ForeignHasNoKind(findFault.value, EmptyRequest);
      } else if decodeFault.Some? {
        ForeignHasNoKind(decodeFault.value, EmptyRequest);
      }
    }
  }

  // ---- The engine -----------------------------------------------------------

  class StorageMongo {
    const collection: Collection

    ghost predicate Valid()
      reads this, collection
    {
      collection.Valid()
    }

    constructor (collection: Collection)
      requires collection.Valid()
      ensures this.collection == collection && Valid()
    {
      this.collection := collection;
    }

    /** `Setup`: the index creation it should perform is commented out, so it
        creates nothing and always fails, with an error whose message is empty. */
    method Setup() returns (r: Result<()>)
      ensures r.Err? && r.error == Other("")
    {
      r := Err(Other(""));
    }

    method Insert(p: Player, fault: Option<Fault>) returns (r: Result<Player>)
      requires Valid()
      modifies collection
      ensures Valid()
      ensures Outcome(r, collection.State()) == InsertSpec(old(collection.State()), p, collection.uniqueEmail, fault)
    {
      var res := collection.InsertOne(p, fault);
      if res.Err? {
        return Err(ConvertErr(res.error));
      }
      r := Ok(p);
    }

    method Replace(oldP: Player, newP: Player, fault: Option<Fault>) returns (r: Result<Player>)
      requires Valid()
      modifies collection
      ensures Valid()
      ensures Outcome(r, collection.State()) == ReplaceSpec(old(collection.State()), oldP, newP, collection.uniqueEmail, fault)
    {
      if oldP.id != newP.id {
        return Err(Sentinel(IDMismatch));
      }
      var res := collection.UpdateOne(map[IdField := IdValue(oldP.id), VersionField := IdValue(oldP.version)], newP, fault);
      if res.Err? {
        return Err(ConvertErr(res.error));
      }
      if res.value.modified == 0 {
        return Err(Sentinel(VersionMismatch));
      }
      r := Ok(newP);
    }

    method GetByID(id: Id, fault: Option<Fault>) returns (r: Result<Player>)
      requires Valid()
      ensures r == GetSpec(collection.State(), id, fault)
    {
      var res := collection.FindOne(map[IdField := IdValue(id)], fault);
      if res.Err? {
        return Err(ConvertErr(res.error));
      }
      r := res;
    }

    method Delete(id: Id, fault: Option<Fault>) returns (r: Result<()>)
      requires Valid()
      modifies collection
      ensures Valid()
      ensures Outcome(r, collection.State()) == DeleteSpec(old(collection.State()), id, fault)
    {
      var res := collection.DeleteOne(map[IdField := IdValue(id)], fault);
      if res.Err? {
        return Err(ConvertErr(res.error));
      }
      if res.value == 0 {
        return Err(Sentinel(NotFound));
      }
      r := Ok(());
    }

    method All(findFault: Option<Fault>, decodeFault: Option<Fault>) returns (r: Result<seq<Player>>)
      requires Valid()
      ensures r == AllSpec(collection.State(), findFault, decodeFault)
    {
      var cursor := collection.Find(map[], 0, 0, findFault);
      if cursor.Err? {
        return Err(ConvertErr(cursor.error));
      }
      r := CursorToPlayers(cursor.value, decodeFault);
    }

    method Filter(
      req: FilterRequest, offset: Uint64, limit: Uint64,
      countFault: Option<Fault>, findFault: Option<Fault>, decodeFault: Option<Fault>)
      returns (r: Result<(nat, seq<Player>)>)
      requires Valid()
      ensures r == FilterSpec(collection.State(), req, offset, limit, countFault, findFault, decodeFault)
    {
      if req.name == "" && req.email == "" {
        return Err(Sentinel(EmptyRequest));
      }
      var filter: Filter := map[];
      if req.name != "" {
        filter := filter[NameField := Str(req.name)];
      }
      if req.email != "" {
        filter := filter[EmailField := Str(req.email)];
      }
      assert filter == RequestFilter(req);
      var count := collection.CountDocuments(filter, countFault);
      if count.Err? {
        return Err(Wrapped("count players", count.error));
      }
      if count.value == 0 {
        return Ok((0, []));
      }
      var cursor := collection.Find(filter, ToInt64(offset), ToInt64(limit), findFault);
      if cursor.Err? {
        return Err(Wrapped("find players", cursor.error));
      }
      var pp := CursorToPlayers(cursor.value, decodeFault);
      if pp.Err? {
        return Err(pp.error);
      }
      r := Ok((count.value, pp.value));
    }
  }
}
