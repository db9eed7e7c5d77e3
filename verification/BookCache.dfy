/**
 * Single books are read through a cache. The key does not say who asked, an absent book is not cached, and the
 * operations that change a row drop its entry, except for a ban. Each call is one step at one reading of the clock.
 */
module BookCache {
  import opened Common
  import opened Redis

  datatype BookStatus = PENDING | APPROVED | REJECTED

  datatype Row = Row(
    author: Id,
    bookURL: string,
    isDeleted: bool,
    deletedById: Option<Id>,
    status: BookStatus,
    reviewedById: Option<Id>,
    genreId: Id,
    details: string)               // title, price and the other columns an edit can set

  /** What a client is given: the row with its genre's name, and without the storage key. */
  datatype Body = Body(
    author: Id,
    isDeleted: bool,
    deletedById: Option<Id>,
    status: BookStatus,
    reviewedById: Option<Id>,
    genreId: Id,
    genreName: Option<string>,
    details: string)

  datatype Shelf = Shelf(rows: map<Id, Row>, genres: map<Id, string>, cache: Store<Body>)

  function CacheKey(id: Id): string { "books:id:" + id }

  function Serialized(row: Row, genres: map<Id, string>): Body
  {
    Body(row.author, row.isDeleted, row.deletedById, row.status, row.reviewedById, row.genreId,
         if row.genreId in genres then Some(genres[row.genreId]) else None, row.details)
  }

  /** A body shows every column of its row, with the genre's name, and hides where the file is stored. */
  lemma {:induction false} BodyShowsRow(row: Row, other: Row, genres: map<Id, string>)
    ensures Serialized(row, genres) == Serialized(other, genres) <==> row.(bookURL := "") == other.(bookURL := "")
    ensures Serialized(row, genres).genreName.Some? <==> row.genreId in genres
    ensures row.genreId in genres ==> Serialized(row, genres).genreName == Some(genres[row.genreId])
  {
  }

  /** What a lookup without a cache finds. */
  function Current(s: Shelf, id: Id, includeHidden: bool): Option<Body>
  {
    if id in s.rows && (includeHidden || !s.rows[id].isDeleted) then Some(Serialized(s.rows[id], s.genres)) else None
  }

  /** What `findBookById` answers; nothing stands for its not-found error. */
  function Found(s: Shelf, now: nat, id: Id, includeHidden: bool): Option<Body>
  {
    var cached := Lookup(s.cache, now, CacheKey(id));
    if cached.Some? then cached else Current(s, id, includeHidden)
  }

  function AfterFind(s: Shelf, now: nat, id: Id, includeHidden: bool, ttl: nat): Shelf
  {
    if Lookup(s.cache, now, CacheKey(id)).Some? || Current(s, id, includeHidden).None? then s
    else s.(cache := Put(s.cache, now, CacheKey(id), Current(s, id, includeHidden).value, ttl))
  }

  // ---- The operations on rows ----

  datatype Call =
    | Find(id: Id, includeHidden: bool)
    | Delete(id: Id, user: Id)
    | Update(id: Id, user: Id, details: Option<string>, genreId: Option<Id>, bookURL: Option<string>)
    | Restore(id: Id, user: Id, isAdmin: bool)
    | Review(id: Id, admin: Id, status: BookStatus)
    | AdminUpdate(id: Id, genreId: Option<Id>, newStatus: Option<BookStatus>, details: Option<string>)
    | Ban(id: Id, admin: Id)
    | Elsewhere(rows: map<Id, Row>, genres: map<Id, string>)   // new books, renamed genres: writes without a cache

  datatype Timed = Timed(at: nat, call: Call)

  predicate GenreExists(s: Shelf, genreId: Option<Id>)
  {
    genreId.Some? ==> genreId.value in s.genres
  }

  /** A column the request names, or the one that is there. */
  function Or<T>(given: Option<T>, current: T): T
  {
    if given.Some? then given.value else current
  }

  /** The row an operation writes; nothing when it throws first. */
  function Edited(s: Shelf, call: Call): Option<Row>
    requires !call.Find? && !call.Elsewhere?
  {
    if call.id !in s.rows then None else
      var row := s.rows[call.id];
      match call
      case Delete(_, user) =>
        if row.author == user && !row.isDeleted then Some(row.(isDeleted := true, deletedById := Some(user))) else None
      case Update(_, user, details, genreId, bookURL) =>
        if (details.Some? || genreId.Some? || bookURL.Some?)
           && row.author == user && !row.isDeleted && GenreExists(s, genreId)
        then Some(row.(details := Or(details, row.details), genreId := Or(genreId, row.genreId),
                       bookURL := Or(bookURL, row.bookURL)))
        else None
      case Restore(_, user, isAdmin) =>
        if row.isDeleted && (isAdmin || row.deletedById == Some(user))
        then Some(row.(isDeleted := false, deletedById := None)) else None
      case Review(_, admin, status) => Some(row.(status := status, reviewedById := Some(admin)))
      case AdminUpdate(_, genreId, newStatus, details) =>
        if GenreExists(s, genreId)
        then Some(row.(details := Or(details, row.details), genreId := Or(genreId, row.genreId),
                       status := Or(newStatus, row.status)))
        else None
      case Ban(_, admin) => Some(row.(isDeleted := true, deletedById := Some(admin)))
  }

  function Step(s: Shelf, t: Timed, ttl: nat): Shelf
  {
    match t.call
    case Find(id, includeHidden) => AfterFind(s, t.at, id, includeHidden, ttl)
    case Elsewhere(rows, genres) => s.(rows := rows, genres := genres)
    case Ban(id, _) =>
      if Edited(s, t.call).Some? then s.(rows := s.rows[id := Edited(s, t.call).value]) else s
    case Delete(_, _) | Update(_, _, _, _, _) | Restore(_, _, _) | Review(_, _, _) | AdminUpdate(_, _, _, _) =>
      if Edited(s, t.call).Some?
      then s.(rows := s.rows[t.call.id := Edited(s, t.call).value], cache := s.cache - {CacheKey(t.call.id)}) else s
  }

  class BookLookup {
    const redis: RedisService<Body>
    const ttl: nat
    var rows: map<Id, Row>
    var genres: map<Id, string>

    function View(): Shelf
      reads this, redis
    {
      Shelf(rows, genres, redis.keys)
    }

    constructor (redis: RedisService<Body>, ttl: nat)
      ensures this.redis == redis && this.ttl == ttl && rows == map[] && genres == map[]
    {
      this.redis, this.ttl, rows, genres := redis, ttl, map[], map[];
    }

    method FindBookById(now: nat, id: Id, includeHidden: bool) returns (body: Option<Body>)
      modifies redis
      ensures body == Found(old(View()), now, id, includeHidden)
      ensures View() == Step(old(View()), Timed(now, Find(id, includeHidden)), ttl)
    {
      var cached := redis.Get(now, CacheKey(id));
      if cached.Some? {
        return cached;
      }
      if id !in rows || (rows[id].isDeleted && !includeHidden) {
        return None;
      }
      var serialized := Serialized(rows[id], genres);
      redis.Set(now, CacheKey(id), serialized, ttl);
      return Some(serialized);
    }

    method DeleteBook(now: nat, id: Id, user: Id) returns (reply: Reply)
      modifies this, redis
      ensures reply.Returned? <==> Edited(old(View()), Delete(id, user)).Some?
      ensures View() == Step(old(View()), Timed(now, Delete(id, user)), ttl)
    {
      if id !in rows || rows[id].author != user || rows[id].isDeleted {
        return Thrown("Not Found");
      }
      rows := rows[id := rows[id].(isDeleted := true, deletedById := Some(user))];
      redis.Del(CacheKey(id));
      return Returned;
    }

    /** The row and the cache entry; the files are in `BookServices`. */
    method UpdateBook(now: nat, id: Id, user: Id, details: Option<string>, genreId: Option<Id>, bookURL: Option<string>)
      returns (reply: Reply)
      modifies this, redis
      ensures reply.Returned? <==> Edited(old(View()), Update(id, user, details, genreId, bookURL)).Some?
      ensures View() == Step(old(View()), Timed(now, Update(id, user, details, genreId, bookURL)), ttl)
    {
      if details.None? && genreId.None? && bookURL.None? {
        return Thrown("Please provide fields to be updated");
      }
      if id !in rows || rows[id].author != user || rows[id].isDeleted {
        return Thrown("Not Found");
      }
      if genreId.Some? && genreId.value !in genres {
        return Thrown("Genre not found");
      }
      var row := rows[id];
      if details.Some? {
        row := row.(details := details.value);
      }
      if genreId.Some? {
        row := row.(genreId := genreId.value);
      }
      if bookURL.Some? {
        row := row.(bookURL := bookURL.value);
      }
      rows := rows[id := row];
      redis.Del(CacheKey(id));
      return Returned;
    }

    method RestoreBook(now: nat, id: Id, user: Id, isAdmin: bool) returns (reply: Reply)
      modifies this, redis
      ensures reply.Returned? <==> Edited(old(View()), Restore(id, user, isAdmin)).Some?
      ensures View() == Step(old(View()), Timed(now, Restore(id, user, isAdmin)), ttl)
    {
      if id !in rows || !rows[id].isDeleted {
        return Thrown("Book not found");
      }
      if !isAdmin && rows[id].deletedById != Some(user) {
        return Thrown("You are not allowed to restore this book");
      }
      rows := rows[id := rows[id].(isDeleted := false, deletedById := None)];
      redis.Del(CacheKey(id));
      return Returned;
    }

    method ReviewBook(now: nat, id: Id, admin: Id, status: BookStatus) returns (reply: Reply)
      modifies this, redis
      ensures reply.Returned? <==> id in old(rows)
      ensures View() == Step(old(View()), Timed(now, Review(id, admin, status)), ttl)
    {
      if id !in rows {
        return Thrown("Record to update not found");
      }
      rows := rows[id := rows[id].(status := status, reviewedById := Some(admin))];
      redis.Del(CacheKey(id));
      return Returned;
    }

    method AdminUpdateBook(now: nat, id: Id, genreId: Option<Id>, newStatus: Option<BookStatus>,
                           details: Option<string>)
      returns (reply: Reply)
      modifies this, redis
      ensures reply.Returned? <==> Edited(old(View()), AdminUpdate(id, genreId, newStatus, details)).Some?
      ensures View() == Step(old(View()), Timed(now, AdminUpdate(id, genreId, newStatus, details)), ttl)
    {
      if genreId.Some? && genreId.value !in genres {
        return Thrown("Genre not found");
      }
      if id !in rows {
        return Thrown("Record to update not found");
      }
      var row := rows[id];
      if details.Some? {
        row := row.(details := details.value);
      }
      if genreId.Some? {
        row := row.(genreId := genreId.value);
      }
      if newStatus.Some? {
        row := row.(status := newStatus.value);
      }
      rows := rows[id := row];
      redis.Del(CacheKey(id));
      return Returned;
    }

    method BanBook(now: nat, id: Id, admin: Id) returns (reply: Reply)
      modifies this
      ensures reply.Returned? <==> id in old(rows)
      ensures View() == Step(old(View()), Timed(now, Ban(id, admin)), ttl)
    {
      if id !in rows {
        return Thrown("Record to update not found");
      }
      rows := rows[id := rows[id].(isDeleted := true, deletedById := Some(admin))];
      return Returned;
    }
  }

  // ---- Who may write what ----

  /**
   * Which calls write a row, and what they write. The author of a visible book deletes it or changes what is named,
   * with a genre that exists. Of a hidden one an administrator, or whoever hid it, restores it. Administrators review,
   * edit and ban any row.
   */
  lemma {:induction false} EditIff(s: Shelf, call: Call)
    requires !call.Find? && !call.Elsewhere? && call.id in s.rows
    ensures var row := s.rows[call.id];
      match call
      case Delete(_, user) => Edited(s, call).Some? <==> row.author == user && !row.isDeleted
      case Update(_, user, details, genreId, bookURL) =>
        Edited(s, call).Some? <==>
          && row.author == user && !row.isDeleted
          && !(details == None && genreId == None && bookURL == None)
          && (genreId == None || genreId.value in s.genres)
      case Restore(_, user, isAdmin) =>
        Edited(s, call).Some? <==> row.isDeleted && (isAdmin || row.deletedById == Some(user))
      case Review(_, _, _) => Edited(s, call).Some?
      case AdminUpdate(_, genreId, _, _) => Edited(s, call).Some? <==> genreId == None || genreId.value in s.genres
      case Ban(_, _) => Edited(s, call).Some?
  {
  }

  lemma {:induction false} EditWrites(s: Shelf, call: Call)
    requires !call.Find? && !call.Elsewhere? && call.id in s.rows && Edited(s, call).Some?
    ensures var row, edited := s.rows[call.id], Edited(s, call).value;
      match call
      case Delete(_, user) => edited == row.(isDeleted := true, deletedById := Some(user))
      case Update(_, _, details, genreId, bookURL) =>
        && edited == row.(details := edited.details, genreId := edited.genreId, bookURL := edited.bookURL)
        && details in {None, Some(edited.details)} && (details == None ==> edited.details == row.details)
        && genreId in {None, Some(edited.genreId)} && (genreId == None ==> edited.genreId == row.genreId)
        && bookURL in {None, Some(edited.bookURL)} && (bookURL == None ==> edited.bookURL == row.bookURL)
      case Restore(_, _, _) => edited == row.(isDeleted := false, deletedById := None)
      case Review(_, admin, status) => edited == row.(status := status, reviewedById := Some(admin))
      case AdminUpdate(_, genreId, newStatus, details) =>
        && edited == row.(details := edited.details, genreId := edited.genreId, status := edited.status)
        && details in {None, Some(edited.details)} && (details == None ==> edited.details == row.details)
        && genreId in {None, Some(edited.genreId)} && (genreId == None ==> edited.genreId == row.genreId)
        && newStatus in {None, Some(edited.status)} && (newStatus == None ==> edited.status == row.status)
      case Ban(_, admin) => edited == row.(isDeleted := true, deletedById := Some(admin))
  {
  }

  /** Whatever runs, a row changes only through a call that names it, and nobody who is not its author deletes it. */
  lemma {:induction false} RowChangesOnlyByCalls(s: Shelf, t: Timed, ttl: nat, id: Id)
    requires id in s.rows && !t.call.Elsewhere?
    ensures var rows := Step(s, t, ttl).rows;
      && id in rows && rows[id].author == s.rows[id].author
      && (rows[id] != s.rows[id] ==>
           && !t.call.Find? && t.call.id == id
           && (t.call.Delete? || t.call.Update? ==> t.call.user == s.rows[id].author && !s.rows[id].isDeleted)
           && (t.call.Restore? ==>
                 s.rows[id].isDeleted && (t.call.isAdmin || s.rows[id].deletedById == Some(t.call.user))))
  {
  }

  // ---- Whole runs ----

  function After(s: Shelf, run: seq<Timed>, ttl: nat): Shelf
  {
    if run == [] then s else Step(After(s, run[..|run| - 1], ttl), run[|run| - 1], ttl)
  }

  predicate InOrder(run: seq<Timed>)
  {
    forall i, j :: 0 <= i < j < |run| ==> run[i].at <= run[j].at
  }

  /** The entry was put there by the read at `i`, which found the row as it then stood. */
  ghost predicate FilledAt(s: Shelf, run: seq<Timed>, ttl: nat, i: nat, id: Id, entry: Entry<Body>)
  {
    && i < |run| && run[i].call.Find? && run[i].call.id == id
    && Current(After(s, run[..i], ttl), id, run[i].call.includeHidden) == Some(entry.value)
    && entry.expiresAt == Some(run[i].at + ttl * MILLIS)
  }

  ghost predicate Filled(s: Shelf, run: seq<Timed>, ttl: nat, id: Id)
  {
    CacheKey(id) in After(s, run, ttl).cache ==>
      exists i :: 0 <= i < |run| && FilledAt(s, run, ttl, i, id, After(s, run, ttl).cache[CacheKey(id)])
  }

  lemma {:induction false} SameKey(a: Id, b: Id)
    ensures CacheKey(a) == CacheKey(b) <==> a == b
  {
    PrefixedKeys("books:id:", a, b);
  }

  lemma {:induction false} RunFilled(s: Shelf, run: seq<Timed>, ttl: nat, id: Id)
    requires s.cache == map[] && ttl > 0
    ensures Filled(s, run, ttl, id)
  {
    if run != [] && CacheKey(id) in After(s, run, ttl).cache {
      var last := |run| - 1;
      var head := run[..last];
      var before, entry := After(s, head, ttl), After(s, run, ttl).cache[CacheKey(id)];
      RunFilled(s, head, ttl, id);
      var call := run[last].call;
      if call.Find? {
        SameKey(id, call.id);
      }
      if CacheKey(id) in before.cache && before.cache[CacheKey(id)] == entry {
        var i :| 0 <= i < |head| && FilledAt(s, head, ttl, i, id, entry);
        assert run[..i] == head[..i];
        assert FilledAt(s, run, ttl, i, id, entry);
      } else {
        assert FilledAt(s, run, ttl, last, id, entry);
      }
    }
  }

  /**
   * Bounded staleness: every body a read returns is the serialized row, with its genre's name, as a lookup without
   * a cache found it less than the cache's lifetime earlier.
   */
  lemma {:induction false} ReadsAreBoundedStale(s: Shelf, run: seq<Timed>, ttl: nat, now: nat, id: Id,
                                                includeHidden: bool)
    returns (i: nat)
    requires s.cache == map[] && ttl > 0 && InOrder(run + [Timed(now, Find(id, includeHidden))])
    requires Found(After(s, run, ttl), now, id, includeHidden).Some?
    ensures var all := run + [Timed(now, Find(id, includeHidden))];
      && i < |all| && all[i].call.Find? && all[i].call.id == id
      && all[i].at <= now < all[i].at + ttl * MILLIS
      && Found(After(s, run, ttl), now, id, includeHidden)
         == Current(After(s, all[..i], ttl), id, all[i].call.includeHidden)
  {
    var all := run + [Timed(now, Find(id, includeHidden))];
    var shelf := After(s, run, ttl);
    if Lookup(shelf.cache, now, CacheKey(id)).Some? {
      RunFilled(s, run, ttl, id);
      i :| 0 <= i < |run| && FilledAt(s, run, ttl, i, id, shelf.cache[CacheKey(id)]);
      assert all[..i] == run[..i] && all[i] == run[i] && all[|run|].at == now;
    } else {
      i := |run|;
      assert all[..i] == run;
    }
  }

  // ---- After an invalidation ----

  predicate Invalidates(s: Shelf, call: Call, id: Id)
  {
    !call.Find? && !call.Elsewhere? && !call.Ban? && call.id == id && Edited(s, call).Some?
  }

  /** Until it is read again, a dropped entry stays away. */
  lemma {:induction false} StaysAway(s: Shelf, run: seq<Timed>, ttl: nat, id: Id)
    requires CacheKey(id) !in s.cache
    requires forall t :: t in run && t.call.Find? ==> t.call.id != id
    ensures CacheKey(id) !in After(s, run, ttl).cache
  {
    if run != [] {
      StaysAway(s, run[..|run| - 1], ttl, id);
      var call := run[|run| - 1].call;
      if call.Find? {
        assert run[|run| - 1] in run;
        SameKey(id, call.id);
      }
    }
  }

  /** The first read after a delete, update, restore, review or admin edit answers as if there were no cache. */
  lemma {:induction false} FirstReadIsCurrent(s: Shelf, run: seq<Timed>, edit: Timed, more: seq<Timed>, ttl: nat,
                                              now: nat, id: Id, includeHidden: bool)
    requires Invalidates(After(s, run, ttl), edit.call, id)
    requires forall t :: t in more && t.call.Find? ==> t.call.id != id
    ensures var shelf := After(Step(After(s, run, ttl), edit, ttl), more, ttl);
      Found(shelf, now, id, includeHidden) == Current(shelf, id, includeHidden)
  {
    StaysAway(Step(After(s, run, ttl), edit, ttl), more, ttl, id);
  }

  /** After a ban the next public read is refused if and only if no copy of the book was live in the cache. */
  lemma {:induction false} BanIsSeenOnlyUncached(s: Shelf, at: nat, admin: Id, ttl: nat, now: nat, id: Id)
    requires id in s.rows
    ensures var banned := Step(s, Timed(at, Ban(id, admin)), ttl);
      && Current(banned, id, false).None?
      && (Found(banned, now, id, false).None? <==> Lookup(s.cache, now, CacheKey(id)).None?)
  {
    assert Edited(s, Ban(id, admin)) == Some(s.rows[id].(isDeleted := true, deletedById := Some(admin)));
  }
}
