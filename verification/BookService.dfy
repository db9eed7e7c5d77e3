/**
 * Storing and updating a book, one call at a time: the uploads, the row, and what is taken back when a step fails.
 * `run` records the steps, and `Valid` says that the fields are what the step system reaches by them. Whether a
 * step succeeds is decided freely.
 */
module BookServices {
  import opened Common
  import opened BookFiles

  /** Neither a half-failed upload, nor a half-failed write, nor a failed deletion. */
  predicate Harmless(e: Event)
  {
    match e
    case Upload(_, _, stored, answered) => stored ==> answered
    case Delete(_, ok) => ok
    case Create(_, _, applied, answered) => applied == answered
    case Write(_, _, applied, answered) => applied == answered
    case StoreBook(_) | UpdateBook(_, _, _, _) => true
    case Die(_) => false
  }

  class BookService {
    var storage: set<Ref>
    var rows: map<Slot, Ref>
    var used: set<Ref>
    ghost var calls: map<nat, Call>
    ghost var lost: set<Id>
    ghost var run: seq<Event>

    ghost function View(): Library
      reads this
    {
      Library(storage, rows, calls, used, lost)
    }

    ghost predicate Valid()
      reads this
    {
      View() == After(EMPTY, run)
    }

    constructor ()
      ensures Valid() && rows == map[] && calls == map[]
    {
      storage, rows, used, calls, lost, run := {}, map[], {}, map[], {}, [];
    }

    /** A step already made on the fields joins the run. */
    ghost method Record(e: Event, before: Library)
      requires before == After(EMPTY, run) && Enabled(before, e) && View() == Next(before, e)
      modifies `run
      ensures Valid() && run == old(run) + [e]
    {
      assert (run + [e])[..|run|] == run;
      run := run + [e];
    }

    /** storeFile and storeStream: the new reference, or an error, which may have left the object behind. */
    method UploadFile(ghost call: nat, drawn: Ref) returns (ref: Option<Ref>)
      requires Valid() && call in calls && Uploads(calls[call]) && drawn !in used
      modifies `storage, `used, `calls, `run
      ensures Valid() && used == old(used) + {drawn} && ref in {None, Some(drawn)}
      ensures ref.Some? ==>
        storage == old(storage) + {drawn} && View() == Next(old(View()), Upload(call, drawn, true, true))
      ensures ref.None? ==>
        && (storage == old(storage) || storage == old(storage) + {drawn})
        && calls == Rest(old(calls), call, Listed(old(calls)[call].book, old(calls)[call].cover))
      ensures |run| == |old(run)| + 1 && old(run) <= run
      ensures ref.None? && Harmless(run[|run| - 1]) ==> storage == old(storage)
    {
      ghost var before := View();
      var stored: bool, answered: bool := *, *;
      used := used + {drawn};
      if stored || answered {
        storage := storage + {drawn};
      }
      ref := if answered then Some(drawn) else None;
      ghost var e := Upload(call, drawn, stored || answered, answered);
      calls := Next(before, e).calls;
      Record(e, before);
    }

    /** An error is logged and swallowed. */
    method DeleteFile(ghost call: nat, ref: Ref)
      requires Valid() && call in calls && calls[call].Deleting? && calls[call].refs != [] && calls[call].refs[0] == ref
      modifies `storage, `calls, `run
      ensures Valid()
      ensures storage == old(storage) || storage == old(storage) - {ref}
      ensures calls == Rest(old(calls), call, old(calls)[call].refs[1..])
      ensures |run| == |old(run)| + 1 && old(run) <= run
      ensures Harmless(run[|run| - 1]) ==> storage == old(storage) - {ref}
    {
      ghost var before := View();
      var ok: bool := *;
      if ok {
        storage := storage - {ref};
      }
      calls := Rest(calls, call, calls[call].refs[1..]);
      Record(Delete(call, ok), before);
    }

    /** The compensation: one deletion after the other. */
    method DeleteAll(ghost call: nat, refs: seq<Ref>)
      requires Valid() && calls == Rest(map[], call, refs)
      modifies `storage, `calls, `run
      ensures Valid() && calls == map[]
      ensures storage <= old(storage) && forall r :: r in old(storage) && r !in refs ==> r in storage
      ensures old(run) <= run
      ensures HarmlessSince(|old(run)|) ==> forall r :: r in refs ==> r !in storage
    {
      var i := 0;
      while i < |refs|
        invariant 0 <= i <= |refs|
        invariant Valid() && calls == Rest(map[], call, refs[i..])
        invariant storage <= old(storage) && forall r :: r in old(storage) && r !in refs ==> r in storage
        invariant old(run) <= run
        invariant HarmlessSince(|old(run)|) ==> forall r :: r in refs[..i] ==> r !in storage
      {
        ghost var shorter := run;
        assert refs[i..][1..] == refs[i + 1..] && refs[..i + 1] == refs[..i] + [refs[i]];
        assert map[call := Deleting(refs[i..])] - {call} == map[];
        DeleteFile(call, refs[i]);
        i := i + 1;
      }
      assert refs[..i] == refs;
    }

    ghost predicate HarmlessSince(earlier: nat)
      reads this
    {
      forall i :: earlier <= i < |run| ==> Harmless(run[i])
    }

    /** `accepted` is the outcome of the checks on the request; the keys and the row's id are drawn anew. */
    method StoreBook(ghost call: nat, accepted: bool, id: Id, bookKey: Ref, coverKey: Ref) returns (r: Reply)
      requires Valid() && calls == map[] && BookOf(id) !in rows && CoverOf(id) !in rows
      requires bookKey !in used && coverKey !in used && bookKey != coverKey
      modifies this
      ensures Valid() && calls == map[] && NoDangling(View())
      ensures r.Returned? ==>
        && rows == old(rows)[BookOf(id) := bookKey][CoverOf(id) := coverKey]
        && storage == old(storage) + {bookKey, coverKey}
      ensures r.Thrown? ==>
        rows == old(rows) || (id in lost && rows == Written(old(rows), id, Some(bookKey), Some(coverKey)))
      ensures lost == old(lost) || lost == old(lost) + {id}
      ensures r.Thrown? ==> old(storage) <= storage <= old(storage) + {bookKey, coverKey}
      ensures r.Thrown? && HarmlessSince(|old(run)|) ==> rows == old(rows) && storage == old(storage)
    {
      RunDrawn(EMPTY, run);
      if !accepted {
        RunSound(EMPTY, run);
        return Thrown("Invalid book");
      }
      ghost var before := View();
      calls := map[call := Uploading(None, map[], true, true, None, None)];
      Record(Event.StoreBook(call), before);
      r := StoreFiles(call, id, bookKey, coverKey);
      RunSound(EMPTY, run);
    }

    method StoreFiles(ghost call: nat, id: Id, bookKey: Ref, coverKey: Ref) returns (r: Reply)
      requires Valid() && calls == map[call := Uploading(None, map[], true, true, None, None)]
      requires BookOf(id) !in rows && CoverOf(id) !in rows && storage <= used
      requires bookKey !in used && coverKey !in used && bookKey != coverKey
      modifies this
      ensures Valid() && calls == map[] && old(run) <= run
      ensures r.Returned? ==>
        rows == Written(old(rows), id, Some(bookKey), Some(coverKey)) && storage == old(storage) + {bookKey, coverKey}
      ensures r.Thrown? ==>
        rows == old(rows) || (id in lost && rows == Written(old(rows), id, Some(bookKey), Some(coverKey)))
      ensures lost == old(lost) || lost == old(lost) + {id}
      ensures r.Thrown? ==> old(storage) <= storage <= old(storage) + {bookKey, coverKey}
      ensures r.Thrown? && HarmlessSince(|old(run)|) ==> rows == old(rows) && storage == old(storage)
    {
      var bookURL := UploadFile(call, bookKey);
      if bookURL.None? {
        assert calls == map[];
        return Thrown("upload failed");
      }
      var bookCoverURL := UploadFile(call, coverKey);
      if bookCoverURL.None? {
        assert Listed(Some(bookKey), None) == [bookKey];
        DeleteAll(call, [bookKey]);
        return Thrown("upload failed");
      }
      r := CreateRow(call, id, bookKey, coverKey);
      if r.Thrown? {
        DeleteAll(call, [bookKey, coverKey]);
      }
    }

    /** The new row; an error reply leaves open whether it is there. */
    method CreateRow(ghost call: nat, id: Id, bookKey: Ref, coverKey: Ref) returns (r: Reply)
      requires Valid() && BookOf(id) !in rows && CoverOf(id) !in rows
      requires calls == map[call := Uploading(None, map[], true, true, Some(bookKey), Some(coverKey))]
      modifies `rows, `calls, `lost, `run
      ensures Valid() && |run| == |old(run)| + 1 && old(run) <= run
      ensures lost == old(lost) || lost == old(lost) + {id}
      ensures r.Returned? ==> calls == map[] && rows == Written(old(rows), id, Some(bookKey), Some(coverKey))
      ensures r.Thrown? ==>
        && calls == Rest(map[], call, [bookKey, coverKey])
        && (rows == old(rows) || (id in lost && rows == Written(old(rows), id, Some(bookKey), Some(coverKey))))
        && (Harmless(run[|old(run)|]) ==> rows == old(rows))
    {
      ghost var before := View();
      var created: bool, refused: bool := *, *;
      if created {
        rows := rows[BookOf(id) := bookKey][CoverOf(id) := coverKey];
      }
      if created && !refused {
        calls := map[];
        assert before.calls - {call} == map[];
        Record(Create(call, id, true, true), before);
        return Returned;
      }
      calls := Rest(map[], call, [bookKey, coverKey]);
      lost := if created then lost + {id} else lost;
      assert Listed(Some(bookKey), Some(coverKey)) == [bookKey, coverKey];
      Record(Create(call, id, created, false), before);
      r := Thrown("create failed");
    }

    /** `bookKey` and `coverKey` are there when the request brings a new file of that kind. */
    method UpdateBook(ghost call: nat, accepted: bool, id: Id, bookKey: Option<Ref>, coverKey: Option<Ref>)
      returns (r: Reply)
      requires Valid() && calls == map[]
      requires (bookKey.Some? ==> bookKey.value !in used) && (coverKey.Some? ==> coverKey.value !in used)
      requires bookKey.Some? ==> bookKey != coverKey
      modifies `storage, `rows, `used, `calls, `run
      ensures Valid() && calls == map[] && NoDangling(View())
      ensures r.Returned? ==> rows == Written(old(rows), id, bookKey, coverKey)
      ensures r.Returned? && HarmlessSince(|old(run)|) ==>
        && HasRow(old(rows), id)
        && storage == old(storage) + New(bookKey, coverKey) - Gone(old(rows), id, bookKey, coverKey)
      ensures r.Thrown? ==> rows == old(rows) || rows == Written(old(rows), id, bookKey, coverKey)
      ensures r.Thrown? ==> old(storage) <= storage <= old(storage) + New(bookKey, coverKey)
      ensures r.Thrown? && HarmlessSince(|old(run)|) ==>
        && rows == old(rows)
        && storage == old(storage) + if r.message == "update failed" then New(bookKey, coverKey) else {}
    {
      if !accepted || BookOf(id) !in rows || CoverOf(id) !in rows {
        RunSound(EMPTY, run);
        return Thrown("Book not found");
      }
      var bookRecord := ReadRow(call, id, bookKey.Some?, coverKey.Some?);
      r := UpdateFiles(call, id, bookKey, coverKey, bookRecord);
      RunSound(EMPTY, run);
    }

    method ReadRow(ghost call: nat, id: Id, ghost wantBook: bool, ghost wantCover: bool)
      returns (bookRecord: map<Slot, Ref>)
      requires Valid() && calls == map[] && HasRow(rows, id)
      modifies `calls, `run
      ensures bookRecord == map[BookOf(id) := rows[BookOf(id)], CoverOf(id) := rows[CoverOf(id)]]
      ensures calls == map[call := Uploading(Some(id), bookRecord, wantBook, wantCover, None, None)]
      ensures Valid() && Drawn(View()) && run == old(run) + [Event.UpdateBook(call, id, wantBook, wantCover)]
    {
      ghost var before := View();
      bookRecord := map[BookOf(id) := rows[BookOf(id)], CoverOf(id) := rows[CoverOf(id)]];
      calls := map[call := Uploading(Some(id), bookRecord, wantBook, wantCover, None, None)];
      Record(Event.UpdateBook(call, id, wantBook, wantCover), before);
      RunDrawn(EMPTY, run);
    }

    /** Uploads what is wanted; an error takes back what is already there. */
    method UploadWanted(ghost call: nat, ghost id: Id, bookKey: Option<Ref>, coverKey: Option<Ref>,
                        ghost bookRecord: map<Slot, Ref>)
      returns (r: Reply)
      requires Valid()
      requires calls == map[call := Uploading(Some(id), bookRecord, bookKey.Some?, coverKey.Some?, None, None)]
      requires (bookKey.Some? ==> bookKey.value !in used) && (coverKey.Some? ==> coverKey.value !in used)
      requires (bookKey.Some? ==> bookKey != coverKey) && storage <= used
      modifies `storage, `used, `calls, `run
      ensures Valid() && old(run) <= run
      ensures r.Returned? ==>
        && calls == map[call := Uploading(Some(id), bookRecord, bookKey.Some?, coverKey.Some?, bookKey, coverKey)]
        && storage == old(storage) + New(bookKey, coverKey)
      ensures r.Thrown? ==> calls == map[] && old(storage) <= storage <= old(storage) + New(bookKey, coverKey)
      ensures r.Thrown? ==> r.message == "upload failed" && (HarmlessSince(|old(run)|) ==> storage == old(storage))
    {
      if bookKey.Some? {
        var bookURL := UploadFile(call, bookKey.value);
        if bookURL.None? {
          assert calls == map[];
          return Thrown("upload failed");
        }
      }
      if coverKey.Some? {
        var bookCoverURL := UploadFile(call, coverKey.value);
        if bookCoverURL.None? {
          assert calls == Rest(map[], call, Listed(bookKey, None));
          DeleteAll(call, Listed(bookKey, None));
          return Thrown("upload failed");
        }
      }
      r := Returned;
    }

    /** The update of the row; an error reply leaves open whether it was made, and what was uploaded stays. */
    method UpdateRow(ghost call: nat, id: Id, bookKey: Option<Ref>, coverKey: Option<Ref>, replaced: seq<Ref>)
      returns (r: Reply)
      requires Valid() && HasRow(rows, id) && calls.Keys == {call} && calls[call].Uploading?
      requires calls[call].target == Some(id) && !Uploads(calls[call]) && HasRow(calls[call].previous, id)
      requires calls[call].book == bookKey && calls[call].cover == coverKey && replaced == Replaced(calls[call], id)
      modifies `rows, `calls, `run
      ensures Valid() && |run| == |old(run)| + 1 && old(run) <= run
      ensures r.Returned? ==> calls == Rest(map[], call, replaced) && rows == Written(old(rows), id, bookKey, coverKey)
      ensures r.Thrown? ==>
        && calls == map[] && r.message == "update failed"
        && (rows == old(rows) || rows == Written(old(rows), id, bookKey, coverKey))
        && (Harmless(run[|old(run)|]) ==> rows == old(rows))
    {
      ghost var before := View();
      var updated: bool, refused: bool := *, *;
      if updated {
        rows := Written(rows, id, bookKey, coverKey);
      }
      if !updated || refused {
        calls := map[];
        assert before.calls - {call} == map[];
        Record(Write(call, id, updated, false), before);
        return Thrown("update failed");
      }
      calls := Rest(map[], call, replaced);
      assert Rest(before.calls, call, replaced) == Rest(map[], call, replaced);
      Record(Write(call, id, true, true), before);
      r := Returned;
    }

    /** The update of the row, and the deletion of what it replaced; neither is inside the try block. */
    method WriteRow(ghost call: nat, id: Id, bookKey: Option<Ref>, coverKey: Option<Ref>, bookRecord: map<Slot, Ref>)
      returns (r: Reply)
      requires Valid() && HasRow(rows, id) && HasRow(bookRecord, id)
      requires calls == map[call := Uploading(Some(id), bookRecord, bookKey.Some?, coverKey.Some?, bookKey, coverKey)]
      modifies `storage, `rows, `calls, `run
      ensures Valid() && calls == map[] && old(run) <= run
      ensures r.Returned? ==>
        && rows == Written(old(rows), id, bookKey, coverKey)
        && storage <= old(storage)
        && (forall x :: x in old(storage) && x !in Gone(bookRecord, id, bookKey, coverKey) ==> x in storage)
        && (HarmlessSince(|old(run)|) ==> storage !! Gone(bookRecord, id, bookKey, coverKey))
      ensures r.Thrown? ==>
        && r.message == "update failed" && storage == old(storage)
        && (rows == old(rows) || rows == Written(old(rows), id, bookKey, coverKey))
        && (HarmlessSince(|old(run)|) ==> rows == old(rows))
    {
      var replaced := (if bookKey.Some? then [bookRecord[BookOf(id)]] else [])
                      + (if coverKey.Some? then [bookRecord[CoverOf(id)]] else []);
      r := UpdateRow(call, id, bookKey, coverKey, replaced);
      if r.Returned? {
        DeleteAll(call, replaced);
      }
    }

    method UpdateFiles(ghost call: nat, id: Id, bookKey: Option<Ref>, coverKey: Option<Ref>, bookRecord: map<Slot, Ref>)
      returns (r: Reply)
      requires Valid()
      requires calls == map[call := Uploading(Some(id), bookRecord, bookKey.Some?, coverKey.Some?, None, None)]
      requires (bookKey.Some? ==> bookKey.value !in used) && (coverKey.Some? ==> coverKey.value !in used)
      requires (bookKey.Some? ==> bookKey != coverKey) && Drawn(View())
      requires HasRow(rows, id) && bookRecord == map[BookOf(id) := rows[BookOf(id)], CoverOf(id) := rows[CoverOf(id)]]
      modifies `storage, `rows, `used, `calls, `run
      ensures Valid() && calls == map[] && old(run) <= run
      ensures r.Returned? ==> rows == Written(old(rows), id, bookKey, coverKey)
      ensures r.Returned? && HarmlessSince(|old(run)|) ==>
        storage == old(storage) + New(bookKey, coverKey) - Gone(old(rows), id, bookKey, coverKey)
      ensures r.Thrown? ==> rows == old(rows) || rows == Written(old(rows), id, bookKey, coverKey)
      ensures r.Thrown? ==> old(storage) <= storage <= old(storage) + New(bookKey, coverKey)
      ensures r.Thrown? && HarmlessSince(|old(run)|) ==>
        && rows == old(rows)
        && storage == old(storage) + if r.message == "update failed" then New(bookKey, coverKey) else {}
    {
      r := UploadWanted(call, id, bookKey, coverKey, bookRecord);
      if r.Returned? {
        r := WriteRow(call, id, bookKey, coverKey, bookRecord);
      }
    }
  }

  function New(bookKey: Option<Ref>, coverKey: Option<Ref>): set<Ref>
  {
    set r | r in Listed(bookKey, coverKey)
  }

  /** What the row named in the columns that get a new reference. */
  function Gone(rows: map<Slot, Ref>, id: Id, bookKey: Option<Ref>, coverKey: Option<Ref>): set<Ref>
    requires HasRow(rows, id)
  {
    (if bookKey.Some? then {rows[BookOf(id)]} else {}) + (if coverKey.Some? then {rows[CoverOf(id)]} else {})
  }
}
