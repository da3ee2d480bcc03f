/** An in-memory stand-in for the document collection the storage engine talks
    to: documents keyed by `_id`, a natural order, an optional unique index on
    `email`, and the observable effect of each driver call the engine makes. */
module Mongo {

  import opened Base
  import opened Errors
  import opened Players

  /** A query filter: each field named must equal the value given. */
  type Filter = map<Field, Value>

  /** The collection's contents: documents by `_id`, and the natural order the
      collection hands them out in. */
  datatype Db = Db(docs: map<Id, Player>, order: seq<Id>)

  /** The counts an update call reports. */
  datatype UpdateResult = UpdateResult(matched: nat, modified: nat)

  /** The result of a call that may change the collection (a driver call, or
      the storage and service operations built on them), and the collection
      afterwards. */
  datatype Outcome<+T> = Outcome(result: Result<T>, db: Db)

  /** What the server answers when an update would change `_id`. */
  const ImmutableIdError: Error := Other("Performing an update on the path '_id' would modify the immutable field '_id'")

  /** What the server answers to a find with a negative skip. */
  const NegativeSkipError: Error := Other("skip value must be non-negative")

  predicate NoDup(s: seq<Id>)
  {
    forall i, j :: 0 <= i < j < |s| ==> s[i] != s[j]
  }

  /** Documents are keyed by their own `_id` and the natural order lists every
      key exactly once. */
  predicate Consistent(db: Db)
  {
    && NoDup(db.order)
    && (forall k :: k in db.docs <==> k in db.order)
    && (forall k :: k in db.docs ==> db.docs[k].id == k)
  }

  predicate EmailsUnique(docs: map<Id, Player>)
  {
    forall a, b :: a in docs && b in docs && a != b ==> docs[a].email != docs[b].email
  }

  /** What the collection's indexes maintain: the primary key on `_id` always,
      the unique index on `email` only when it has been provisioned. */
  predicate Indexed(db: Db, uniqueEmail: bool)
  {
    Consistent(db) && (uniqueEmail ==> EmailsUnique(db.docs))
  }

  /** Some record other than the one stored under `self` has this email. */
  predicate EmailHeldElsewhere(docs: map<Id, Player>, email: string, self: Id)
  {
    exists k :: k in docs && k != self && docs[k].email == email
  }

  /** Inserting `p` would break a unique index. */
  predicate InsertCollides(db: Db, p: Player, uniqueEmail: bool)
  {
    p.id in db.docs || (uniqueEmail && EmailHeldElsewhere(db.docs, p.email, p.id))
  }

  predicate Matches(p: Player, f: Filter)
  {
    forall k :: k in f ==> k in Document(p) && Document(p)[k] == f[k]
  }

  /** The documents listed in `ids` that match `f`, in the order of `ids`. */
  function Matching(docs: map<Id, Player>, ids: seq<Id>, f: Filter): seq<Player>
    decreases |ids|
  {
    if ids == [] then []
    else
      var last := ids[|ids| - 1];
      Matching(docs, ids[..|ids| - 1], f)
        + (if last in docs && Matches(docs[last], f) then [docs[last]] else [])
  }

  function Abs(x: int): nat
  {
    if x < 0 then -x else x
  }

  /** Skip `skip` documents, then take at most `limit`: a limit of 0 means no limit,
      and a negative limit takes its absolute value (the driver's single-batch
      request). */
  function Page(ms: seq<Player>, skip: nat, limit: int): seq<Player>
  {
    var rest := if skip < |ms| then ms[skip..] else [];
    if limit == 0 || Abs(limit) >= |rest| then rest else rest[..Abs(limit)]
  }

  /** `s` with every occurrence of `x` taken out, the rest in order. */
  function Without(s: seq<Id>, x: Id): seq<Id>
  {
    if s == [] then [] else (if s[0] == x then [] else [s[0]]) + Without(s[1..], x)
  }

  // ---- The effect of each driver call -------------------------------------

  /** `InsertOne`: fails with a duplicate-key error when a unique index would be
      broken, and otherwise appends the document. */
  function InsertOneEffect(db: Db, p: Player, uniqueEmail: bool, fault: Option<Fault>): Outcome<()>
  {
    if fault.Some? then Outcome(Err(fault.value), db)
    else if InsertCollides(db, p, uniqueEmail) then Outcome(Err(DuplicateKey), db)
    else Outcome(Ok(()), Db(db.docs[p.id := p], db.order + [p.id]))
  }

  /** `UpdateOne` with `$set` of a whole record: sets every field of the first
      matching document; reports 0 modified when nothing matches or the document
      already equals the record. */
  function UpdateOneEffect(db: Db, f: Filter, newP: Player, uniqueEmail: bool, fault: Option<Fault>): Outcome<UpdateResult>
  {
    if fault.Some? then Outcome(Err(fault.value), db)
    else
      var ms := Matching(db.docs, db.order, f);
      if ms == [] then Outcome(Ok(UpdateResult(0, 0)), db)
      else if newP.id != ms[0].id then Outcome(Err(ImmutableIdError), db)
      else if newP == ms[0] then Outcome(Ok(UpdateResult(1, 0)), db)
      else if uniqueEmail && EmailHeldElsewhere(db.docs, newP.email, newP.id) then Outcome(Err(DuplicateKey), db)
      else Outcome(Ok(UpdateResult(1, 1)), Db(db.docs[newP.id := newP], db.order))
  }

  /** `DeleteOne`: removes the first matching document and reports how many it removed. */
  function DeleteOneEffect(db: Db, f: Filter, fault: Option<Fault>): Outcome<nat>
  {
    if fault.Some? then Outcome(Err(fault.value), db)
    else
      var ms := Matching(db.docs, db.order, f);
      if ms == [] then Outcome(Ok(0), db)
      else Outcome(Ok(1), Db(db.docs - {ms[0].id}, Without(db.order, ms[0].id)))
  }

  /** `FindOne(...).Decode`: the first matching document, or no-documents. */
  function FindOneResult(db: Db, f: Filter, fault: Option<Fault>): Result<Player>
  {
    if fault.Some? then Err(fault.value)
    else
      var ms := Matching(db.docs, db.order, f);
      if ms == [] then Err(NoDocuments) else Ok(ms[0])
  }

  /** `Find` with skip and limit: the documents its cursor yields. */
  function FindResult(db: Db, f: Filter, skip: Int64, limit: Int64, fault: Option<Fault>): Result<seq<Player>>
  {
    if fault.Some? then Err(fault.value)
    else if skip < 0 then Err(NegativeSkipError)
    else Ok(Page(Matching(db.docs, db.order, f), skip, limit))
  }

  /** `CountDocuments`. */
  function CountResult(db: Db, f: Filter, fault: Option<Fault>): Result<nat>
  {
    if fault.Some? then Err(fault.value) else Ok(|Matching(db.docs, db.order, f)|)
  }

  // ---- Lemmas ---------------------------------------------------------------

  lemma {:induction false} MatchingMember(docs: map<Id, Player>, ids: seq<Id>, f: Filter, p: Player)
    ensures p in Matching(docs, ids, f) <==>
      exists i :: 0 <= i < |ids| && ids[i] in docs && docs[ids[i]] == p && Matches(p, f)
    decreases |ids|
  {
    if ids != [] {
      var n := |ids| - 1;
      MatchingMember(docs, ids[..n], f, p);
      if p in Matching(docs, ids, f) && p !in Matching(docs, ids[..n], f) {
        assert ids[n] in docs && docs[ids[n]] == p && Matches(p, f);
      }
      if exists i :: 0 <= i < |ids| && ids[i] in docs && docs[ids[i]] == p && Matches(p, f) {
        var i :| 0 <= i < |ids| && ids[i] in docs && docs[ids[i]] == p && Matches(p, f);
        if i < n {
          assert ids[..n][i] == ids[i];
        }
      }
    }
  }

  /** Each matching document is stored under its own id. */
  lemma MatchingStored(db: Db, f: Filter, p: Player)
    requires Consistent(db)
    requires p in Matching(db.docs, db.order, f)
    ensures p.id in db.docs && db.docs[p.id] == p && Matches(p, f)
  {
    MatchingMember(db.docs, db.order, f, p);
  }

  /** A filter that names an `_id` matches at most the document stored under it. */
  lemma {:induction false} MatchingById(docs: map<Id, Player>, ids: seq<Id>, f: Filter, x: Id)
    requires NoDup(ids)
    requires forall k :: k in docs ==> docs[k].id == k
    requires IdField in f && f[IdField] == IdValue(x)
    ensures Matching(docs, ids, f) == if x in ids && x in docs && Matches(docs[x], f) then [docs[x]] else []
    decreases |ids|
  {
    if ids != [] {
      var n := |ids| - 1;
      assert NoDup(ids[..n]);
      MatchingById(docs, ids[..n], f, x);
      if ids[n] == x {
        assert x !in ids[..n];
      } else {
        assert ids[n] in docs ==> !Matches(docs[ids[n]], f) by {
          if ids[n] in docs {
            assert Document(docs[ids[n]])[IdField] == IdValue(ids[n]);
          }
        }
        assert x in ids <==> x in ids[..n] by {
          assert ids == ids[..n] + [ids[n]];
        }
      }
    }
  }

  /** How many documents match: one per id of `ids` whose document matches. */
  lemma MatchingCount(docs: map<Id, Player>, ids: seq<Id>, f: Filter)
    requires NoDup(ids)
    ensures |Matching(docs, ids, f)| == |set k | k in ids && k in docs && Matches(docs[k], f)|
  {
    var matched := set k | k in docs && Matches(docs[k], f);
    MatchingCountIn(docs, ids, f, matched);
    assert (set k | k in ids && k in matched) == (set k | k in ids && k in docs && Matches(docs[k], f));
  }

  /** The counting argument of `MatchingCount`, with the matching ids given as
      a set. */
  lemma {:induction false} MatchingCountIn(docs: map<Id, Player>, ids: seq<Id>, f: Filter, matched: set<Id>)
    requires NoDup(ids)
    requires forall i :: 0 <= i < |ids| ==> (ids[i] in matched <==> ids[i] in docs && Matches(docs[ids[i]], f))
    ensures |Matching(docs, ids, f)| == |set k | k in ids && k in matched|
    decreases |ids|
  {
    if ids != [] {
      var n := |ids| - 1;
      var init, last := ids[..n], ids[n];
      assert ids == init + [last];
      assert NoDup(init) && last !in init;
      assert forall i :: 0 <= i < n ==> init[i] == ids[i];
      MatchingCountIn(docs, init, f, matched);
      assert last in matched <==> last in docs && Matches(docs[last], f);
      CountAppend(init, last, matched);
    }
  }

  /** Appending an id not yet listed adds one to the count of listed ids in a
      set exactly when the new id is in it. */
  lemma CountAppend(init: seq<Id>, last: Id, s: set<Id>)
    requires last !in init
    ensures |set k | k in init + [last] && k in s| == |set k | k in init && k in s| + if last in s then 1 else 0
  {
    var before := set k | k in init && k in s;
    var after := set k | k in init + [last] && k in s;
    if last in s {
      assert after == before + {last};
    } else {
      assert after == before;
    }
  }

  /** The empty filter matches every document, so it yields them all in order. */
  lemma {:induction false} MatchingAll(docs: map<Id, Player>, ids: seq<Id>)
    requires forall k :: k in ids ==> k in docs
    ensures |Matching(docs, ids, map[])| == |ids|
    ensures forall i :: 0 <= i < |ids| ==> Matching(docs, ids, map[])[i] == docs[ids[i]]
    decreases |ids|
  {
    if ids != [] {
      var n := |ids| - 1;
      MatchingAll(docs, ids[..n]);
      assert Matches(docs[ids[n]], map[]);
      forall i | 0 <= i < n
        ensures Matching(docs, ids, map[])[i] == docs[ids[i]]
      {
        assert ids[..n][i] == ids[i];
      }
    }
  }

  /** Overwriting a stored record with one of the same id keeps the indexes'
      invariant when the unique email index does not hold its email elsewhere. */
  lemma OverwriteKeepsIndexed(db: Db, p: Player, uniqueEmail: bool)
    requires Indexed(db, uniqueEmail) && p.id in db.docs
    requires !(uniqueEmail && EmailHeldElsewhere(db.docs, p.email, p.id))
    ensures Indexed(Db(db.docs[p.id := p], db.order), uniqueEmail)
  {
  }

  /** A page is the window of the matches that starts after the skipped ones and
      holds as many as the limit allows. */
  lemma PageWindow(ms: seq<Player>, skip: nat, limit: int)
    ensures var start := if skip < |ms| then skip else |ms|;
      var page := Page(ms, skip, limit);
      && start + |page| <= |ms|
      && page == ms[start..start + |page|]
      && |page| == (if limit == 0 || Abs(limit) >= |ms| - start then |ms| - start else Abs(limit))
  {
  }

  lemma {:induction false} WithoutSpec(s: seq<Id>, x: Id)
    ensures forall k :: k in Without(s, x) <==> k in s && k != x
    ensures NoDup(s) ==> NoDup(Without(s, x))
    ensures x in s && NoDup(s) ==> |Without(s, x)| == |s| - 1
    ensures x !in s ==> Without(s, x) == s
    decreases |s|
  {
    if s != [] {
      WithoutSpec(s[1..], x);
      var head := if s[0] == x then [] else [s[0]];
      assert Without(s, x) == head + Without(s[1..], x);
      if NoDup(s) {
        assert NoDup(s[1..]);
        assert s[0] !in s[1..];
        var w := Without(s, x);
        forall i, j | 0 <= i < j < |w|
          ensures w[i] != w[j]
        {
          if head != [] && i == 0 {
            assert w[j] in Without(s[1..], x);
          }
        }
      }
      if x in s && NoDup(s) && s[0] != x {
        assert x in s[1..];
      }
      if x in s && NoDup(s) && s[0] == x {
        assert x !in s[1..];
      }
    }
  }

  /** In an order without repeats, removing the id at position `i` closes the
      gap there: the ids before and after it keep their order. */
  lemma {:induction false} WithoutSplice(s: seq<Id>, i: nat)
    requires NoDup(s) && i < |s|
    ensures Without(s, s[i]) == s[..i] + s[i+1..]
    decreases i
  {
    assert NoDup(s[1..]);
    if i == 0 {
      assert s[0] !in s[1..];
      WithoutSpec(s[1..], s[0]);
    } else {
      assert s[0] != s[i];
      WithoutSplice(s[1..], i - 1);
      assert s[1..][i-1] == s[i];
      assert s[..i] == [s[0]] + s[1..][..i-1];
      assert s[i+1..] == s[1..][i..];
    }
  }

  // ---- The collection -------------------------------------------------------

  class Collection {
    var docs: map<Id, Player>
    var order: seq<Id>
    /** Whether the unique index on `email` exists. */
    const uniqueEmail: bool

    function State(): Db
      reads this
    {
      Db(docs, order)
    }

    ghost predicate Valid()
      reads this
    {
      Indexed(State(), uniqueEmail)
    }

    constructor (uniqueEmail: bool)
      ensures Valid()
      ensures State() == Db(map[], []) && this.uniqueEmail == uniqueEmail
    {
      docs := map[];
      order := [];
      this.uniqueEmail := uniqueEmail;
    }

    /** Walks the collection in natural order and collects the matches. */
    method Scan(f: Filter) returns (ms: seq<Player>)
      requires Valid()
      ensures ms == Matching(docs, order, f)
    {
      ms := [];
      var i := 0;
      while i < |order|
        invariant 0 <= i <= |order|
        invariant ms == Matching(docs, order[..i], f)
      {
        var id := order[i];
        assert order[..i + 1][..i] == order[..i];
        if Matches(docs[id], f) {
          ms := ms + [docs[id]];
        }
        i := i + 1;
      }
      assert order[..|order|] == order;
    }

    method InsertOne(p: Player, fault: Option<Fault>) returns (r: Result<()>)
      requires Valid()
      modifies this
      ensures Valid()
      ensures Outcome(r, State()) == InsertOneEffect(old(State()), p, uniqueEmail, fault)
    {
      if fault.Some? {
        return Err(fault.value);
      }
      if p.id in docs || (uniqueEmail && EmailHeldElsewhere(docs, p.email, p.id)) {
        return Err(DuplicateKey);
      }
      docs := docs[p.id := p];
      order := order + [p.id];
      r := Ok(());
    }

    method UpdateOne(f: Filter, newP: Player, fault: Option<Fault>) returns (r: Result<UpdateResult>)
      requires Valid()
      modifies this
      ensures Valid()
      ensures Outcome(r, State()) == UpdateOneEffect(old(State()), f, newP, uniqueEmail, fault)
    {
      if fault.Some? {
        return Err(fault.value);
      }
      var ms := Scan(f);
      if ms == [] {
        return Ok(UpdateResult(0, 0));
      }
      var d := ms[0];
      if newP.id != d.id {
        return Err(ImmutableIdError);
      }
      if newP == d {
        return Ok(UpdateResult(1, 0));
      }
      if uniqueEmail && EmailHeldElsewhere(docs, newP.email, newP.id) {
        return Err(DuplicateKey);
      }
      MatchingStored(State(), f, d);
      docs := docs[newP.id := newP];
      r := Ok(UpdateResult(1, 1));
    }

    method DeleteOne(f: Filter, fault: Option<Fault>) returns (r: Result<nat>)
      requires Valid()
      modifies this
      ensures Valid()
      ensures Outcome(r, State()) == DeleteOneEffect(old(State()), f, fault)
    {
      if fault.Some? {
        return Err(fault.value);
      }
      var ms := Scan(f);
      if ms == [] {
        return Ok(0);
      }
      var id := ms[0].id;
      WithoutSpec(order, id);
      docs := docs - {id};
      order := Without(order, id);
      r := Ok(1);
    }

    method FindOne(f: Filter, fault: Option<Fault>) returns (r: Result<Player>)
      requires Valid()
      ensures r == FindOneResult(State(), f, fault)
    {
      if fault.Some? {
        return Err(fault.value);
      }
      var ms := Scan(f);
      if ms == [] {
        return Err(NoDocuments);
      }
      r := Ok(ms[0]);
    }

    method Find(f: Filter, skip: Int64, limit: Int64, fault: Option<Fault>) returns (r: Result<seq<Player>>)
      requires Valid()
      ensures r == FindResult(State(), f, skip, limit, fault)
    {
      if fault.Some? {
        return Err(fault.value);
      }
      if skip < 0 {
        return Err(NegativeSkipError);
      }
      var ms := Scan(f);
      r := Ok(Page(ms, skip, limit));
    }

    method CountDocuments(f: Filter, fault: Option<Fault>) returns (r: Result<nat>)
      requires Valid()
      ensures r == CountResult(State(), f, fault)
    {
      if fault.Some? {
        return Err(fault.value);
      }
      var ms := Scan(f);
      r := Ok(|ms|);
    }
  }
}
