/**
 * Book rows and the objects they refer to. Calls that store or update a book interleave at every upload, database
 * write and deletion; each of these can fail, and a call can die at any time. An object is named by the reference
 * that leads to it, and every upload draws a new one.
 */
module BookFiles {
  import opened Common

  type Ref = string

  /** A column of a row that holds a reference. */
  datatype Slot = BookOf(id: Id) | CoverOf(id: Id)

  datatype Call =
    | Uploading(
        target: Option<Id>,          // the row to update; none for a new book
        previous: map<Slot, Ref>,         // the references of that row when the call read it
        wantBook: bool, wantCover: bool,
        book: Option<Ref>, cover: Option<Ref>)
    | Deleting(refs: seq<Ref>)

  datatype Library = Library(
    storage: set<Ref>,
    rows: map<Slot, Ref>,
    calls: map<nat, Call>,
    used: set<Ref>,              // history: every reference ever drawn
    lost: set<Id>)               // history: the rows whose creation was applied and reported as failed

  datatype Event =
    | StoreBook(call: nat)
    | UpdateBook(call: nat, id: Id, wantBook: bool, wantCover: bool)
    | Upload(call: nat, ref: Ref, stored: bool, answered: bool)   // an upload can store the object and still fail
    | Create(call: nat, id: Id, applied: bool, answered: bool)    // a row write can be applied and still fail
    | Write(call: nat, id: Id, applied: bool, answered: bool)
    | Delete(call: nat, ok: bool)                                 // a failed deletion is only logged
    | Die(call: nat)

  predicate HasRow(rows: map<Slot, Ref>, id: Id)
  {
    BookOf(id) in rows && CoverOf(id) in rows
  }

  predicate Uploads(call: Call)
  {
    call.Uploading? && ((call.wantBook && call.book.None?) || (call.wantCover && call.cover.None?))
  }

  /** The call has what it needs to write this row: the row it updates, or one that is new. */
  predicate CanWrite(l: Library, call: nat, id: Id)
  {
    && call in l.calls && l.calls[call].Uploading? && !Uploads(l.calls[call])
    && (match l.calls[call].target
        case Some(target) => id == target && HasRow(l.rows, id) && HasRow(l.calls[call].previous, id)
        case None => BookOf(id) !in l.rows && CoverOf(id) !in l.rows)
  }

  predicate Enabled(l: Library, e: Event)
  {
    match e
    case StoreBook(call) => call !in l.calls
    case UpdateBook(call, id, _, _) => call !in l.calls && HasRow(l.rows, id)
    case Upload(call, ref, stored, answered) =>
      call in l.calls && Uploads(l.calls[call]) && ref !in l.used && (answered ==> stored)
    case Create(call, id, applied, answered) =>
      CanWrite(l, call, id) && l.calls[call].target.None? && (answered ==> applied)
    case Write(call, id, applied, answered) =>
      CanWrite(l, call, id) && l.calls[call].target.Some? && (answered ==> applied)
    case Delete(call, _) => call in l.calls && l.calls[call].Deleting? && l.calls[call].refs != []
    case Die(call) => true
  }

  /** What a call has uploaded and not yet written to a row. */
  function Held(call: Call): set<Ref>
  {
    if call.Deleting? then {}
    else (if call.book.Some? then {call.book.value} else {}) + (if call.cover.Some? then {call.cover.value} else {})
  }

  function Listed(book: Option<Ref>, cover: Option<Ref>): seq<Ref>
  {
    (if book.Some? then [book.value] else []) + (if cover.Some? then [cover.value] else [])
  }

  /** What an update replaces: the old reference of each column it has a new one for. */
  function Replaced(call: Call, id: Id): seq<Ref>
    requires call.Uploading? && HasRow(call.previous, id)
  {
    (if call.book.Some? then [call.previous[BookOf(id)]] else [])
    + (if call.cover.Some? then [call.previous[CoverOf(id)]] else [])
  }

  function Put(rows: map<Slot, Ref>, slot: Slot, ref: Option<Ref>): map<Slot, Ref>
  {
    if ref.Some? then rows[slot := ref.value] else rows
  }

  function Written(rows: map<Slot, Ref>, id: Id, book: Option<Ref>, cover: Option<Ref>): map<Slot, Ref>
  {
    Put(Put(rows, BookOf(id), book), CoverOf(id), cover)
  }

  /** The deletions a call still has to make; after the last one it is over. */
  function Rest(calls: map<nat, Call>, call: nat, refs: seq<Ref>): map<nat, Call>
  {
    if refs == [] then calls - {call} else calls[call := Deleting(refs)]
  }

  function Next(l: Library, e: Event): Library
    requires Enabled(l, e)
  {
    match e
    case StoreBook(call) => l.(calls := l.calls[call := Uploading(None, map[], true, true, None, None)])
    case UpdateBook(call, id, wantBook, wantCover) =>
      var previous := map[BookOf(id) := l.rows[BookOf(id)], CoverOf(id) := l.rows[CoverOf(id)]];
      l.(calls := l.calls[call := Uploading(Some(id), previous, wantBook, wantCover, None, None)])
    case Upload(call, ref, stored, answered) =>
      var c := l.calls[call];
      var drawn := l.(used := l.used + {ref}, storage := if stored then l.storage + {ref} else l.storage);
      if !answered then drawn.(calls := Rest(l.calls, call, Listed(c.book, c.cover)))
      else if c.wantBook && c.book.None? then drawn.(calls := l.calls[call := c.(book := Some(ref))])
      else drawn.(calls := l.calls[call := c.(cover := Some(ref))])
    case Create(call, id, applied, answered) =>
      var c := l.calls[call];
      var rows := if applied then Written(l.rows, id, c.book, c.cover) else l.rows;
      l.(rows := rows, lost := if applied && !answered then l.lost + {id} else l.lost,
         calls := if answered then l.calls - {call} else Rest(l.calls, call, Listed(c.book, c.cover)))
    case Write(call, id, applied, answered) =>
      // an error leaves the call at once, outside the try block, and nothing takes the new objects back
      var c := l.calls[call];
      var rows := if applied then Written(l.rows, id, c.book, c.cover) else l.rows;
      l.(rows := rows, calls := if answered then Rest(l.calls, call, Replaced(c, id)) else l.calls - {call})
    case Delete(call, ok) =>
      var refs := l.calls[call].refs;
      l.(storage := if ok then l.storage - {refs[0]} else l.storage, calls := Rest(l.calls, call, refs[1..]))
    case Die(call) => l.(calls := l.calls - {call})
  }

  // ---- No dangling references ----

  function RowOf(slot: Slot): Id
  {
    match slot
    case BookOf(id) => id
    case CoverOf(id) => id
  }

  /** Every row leads to its objects, unless its own creation was lost. */
  ghost predicate NoDangling(l: Library)
  {
    forall s :: s in l.rows && RowOf(s) !in l.lost ==> l.rows[s] in l.storage
  }

  /** Nobody is about to write this reference to a row. */
  ghost predicate Unheld(l: Library, ref: Ref)
  {
    ref in l.used && forall c :: c in l.calls ==> ref !in Held(l.calls[c])
  }

  ghost predicate CallSound(l: Library, call: Call)
  {
    match call
    case Uploading(target, previous, _, _, book, cover) =>
      && (forall r :: r in Held(call) ==> r in l.storage && forall s :: s in l.rows ==> l.rows[s] != r)
      && (book.Some? && cover.Some? ==> book != cover)
      && (target.Some? ==> HasRow(previous, target.value) && HasRow(l.rows, target.value))
      && (target.None? ==> call.wantBook && call.wantCover)
      && (forall s :: s in previous ==>
            Unheld(l, previous[s]) && forall t :: t in l.rows && l.rows[t] == previous[s] ==> t == s)
    case Deleting(refs) =>
      forall r :: r in refs ==> Unheld(l, r) && Unnamed(l, r)
  }

  /** No row names this reference but one that is lost. */
  ghost predicate Unnamed(l: Library, ref: Ref)
  {
    forall s :: s in l.rows && RowOf(s) !in l.lost ==> l.rows[s] != ref
  }

  ghost predicate NamedOnce(rows: map<Slot, Ref>)
  {
    forall s, t :: s in rows && t in rows && rows[s] == rows[t] ==> s == t
  }

  ghost predicate Sound(l: Library)
  {
    && NoDangling(l)
    && l.storage <= l.used && (forall s :: s in l.rows ==> l.rows[s] in l.used)
    && (forall id :: BookOf(id) in l.rows <==> CoverOf(id) in l.rows)
    && NamedOnce(l.rows)
    && (forall c :: c in l.calls ==> CallSound(l, l.calls[c]))
    && (forall c, d :: c in l.calls && d in l.calls && c != d ==> Held(l.calls[c]) !! Held(l.calls[d]))
  }

  function After(l: Library, run: seq<Event>): Library
  {
    if run == [] then l else
      var before, e := After(l, run[..|run| - 1]), run[|run| - 1];
      if Enabled(before, e) then Next(before, e) else before
  }

  const EMPTY: Library := Library({}, map[], map[], {}, {})

  /** A call stays sound while the rows stand, what it holds stays stored, and nobody takes up what nobody held. */
  lemma {:induction false} CallStays(l: Library, next: Library, call: Call)
    requires CallSound(l, call) && next.rows == l.rows && l.lost <= next.lost && Held(call) <= next.storage
    requires forall r :: Unheld(l, r) ==> Unheld(next, r)
    ensures CallSound(next, call)
  {
  }

  lemma {:induction false} DropSound(l: Library, call: nat)
    requires Sound(l)
    ensures Sound(l.(calls := l.calls - {call}))
  {
    var next := l.(calls := l.calls - {call});
    forall d | d in next.calls ensures CallSound(next, next.calls[d]) {
      CallStays(l, next, l.calls[d]);
    }
  }

  /** A call turns to deleting what nobody holds and no row names. */
  lemma {:induction false} RestSound(l: Library, call: nat, refs: seq<Ref>)
    requires Sound(l.(calls := l.calls - {call}))
    requires forall r :: r in refs ==> r in l.used && Unnamed(l, r)
    requires forall r, d :: r in refs && d in l.calls && d != call ==> r !in Held(l.calls[d])
    ensures Sound(l.(calls := Rest(l.calls, call, refs)))
  {
    var less, next := l.(calls := l.calls - {call}), l.(calls := Rest(l.calls, call, refs));
    assert forall c :: c in next.calls && c != call ==> c in less.calls && next.calls[c] == less.calls[c];
    assert call in next.calls ==> Held(next.calls[call]) == {};
    forall r | Unheld(less, r) ensures Unheld(next, r) {
    }
    forall d | d in next.calls ensures CallSound(next, next.calls[d]) {
      if d != call {
        CallStays(less, next, less.calls[d]);
      }
    }
  }

  lemma {:induction false} DrawnSound(l: Library, ref: Ref, stored: bool)
    requires Sound(l) && ref !in l.used
    ensures Sound(l.(used := l.used + {ref}, storage := if stored then l.storage + {ref} else l.storage))
  {
    var next := l.(used := l.used + {ref}, storage := if stored then l.storage + {ref} else l.storage);
    forall d | d in next.calls ensures CallSound(next, next.calls[d]) {
      assert CallSound(l, l.calls[d]);
      CallStays(l, next, l.calls[d]);
    }
  }

  lemma {:induction false} RefusedUploadSound(l: Library, call: nat, ref: Ref, stored: bool)
    requires Sound(l) && Enabled(l, Upload(call, ref, stored, false))
    ensures Sound(Next(l, Upload(call, ref, stored, false)))
  {
    var c := l.calls[call];
    assert CallSound(l, c);
    DrawnSound(l, ref, stored);
    var drawn := l.(used := l.used + {ref}, storage := if stored then l.storage + {ref} else l.storage);
    DropSound(drawn, call);
    assert forall r :: r in Listed(c.book, c.cover) ==> r in Held(c);
    RestSound(drawn, call, Listed(c.book, c.cover));
  }

  lemma {:induction false} AnsweredUploadSound(l: Library, call: nat, ref: Ref)
    requires Sound(l) && Enabled(l, Upload(call, ref, true, true))
    ensures Sound(Next(l, Upload(call, ref, true, true)))
  {
    var next := Next(l, Upload(call, ref, true, true));
    var c := l.calls[call];
    assert CallSound(l, c);
    assert Held(next.calls[call]) == Held(c) + {ref};
    forall r | Unheld(l, r) ensures Unheld(next, r) {
    }
    forall d | d in next.calls ensures CallSound(next, next.calls[d]) {
      if d != call {
        assert CallSound(l, l.calls[d]);
        CallStays(l, next, l.calls[d]);
      }
    }
  }

  /** A call that holds nothing yet can join. */
  lemma {:induction false} JoinSound(l: Library, call: nat, c: Call)
    requires Sound(l) && call !in l.calls && Held(c) == {} && CallSound(l, c)
    ensures Sound(l.(calls := l.calls[call := c]))
  {
    var next := l.(calls := l.calls[call := c]);
    forall r | Unheld(l, r) ensures Unheld(next, r) {
    }
    CallStays(l, next, c);
    forall d | d in l.calls ensures CallSound(next, l.calls[d]) {
      assert CallSound(l, l.calls[d]);
      CallStays(l, next, l.calls[d]);
    }
  }

  lemma {:induction false} StartSound(l: Library, e: Event)
    requires Sound(l) && Enabled(l, e) && (e.StoreBook? || e.UpdateBook?)
    ensures Sound(Next(l, e))
  {
    RowsUnheld(l);
    var c := Next(l, e).calls[e.call];
    assert Held(c) == {};
    JoinSound(l, e.call, c);
  }

  /** What a row names, no call holds. */
  lemma {:induction false} RowsUnheld(l: Library)
    requires Sound(l)
    ensures forall s :: s in l.rows ==> Unheld(l, l.rows[s])
  {
    forall s, c | s in l.rows && c in l.calls ensures l.rows[s] !in Held(l.calls[c]) {
      assert CallSound(l, l.calls[c]);
    }
  }

  lemma {:induction false} DeleteSound(l: Library, call: nat, ok: bool)
    requires Sound(l) && Enabled(l, Delete(call, ok))
    ensures Sound(Next(l, Delete(call, ok)))
  {
    var refs := l.calls[call].refs;
    assert CallSound(l, l.calls[call]) && refs[0] in refs && Unheld(l, refs[0]);
    var less := l.(storage := if ok then l.storage - {refs[0]} else l.storage);
    forall d | d in less.calls ensures CallSound(less, less.calls[d]) {
      CallStays(l, less, l.calls[d]);
    }
    DropSound(less, call);
    assert forall r :: r in refs[1..] ==> r in refs;
    RestSound(less, call, refs[1..]);
  }

  lemma {:induction false} PutNamedOnce(rows: map<Slot, Ref>, slot: Slot, ref: Option<Ref>)
    requires NamedOnce(rows) && (ref.Some? ==> forall s :: s in rows ==> rows[s] != ref.value)
    ensures NamedOnce(Put(rows, slot, ref))
  {
  }

  /** The rows after a write: what the call held is named once, and nothing else changed its place. */
  lemma {:induction false} WrittenRows(l: Library, call: nat, id: Id)
    requires Sound(l) && CanWrite(l, call, id)
    ensures var c, rows := l.calls[call], Written(l.rows, id, l.calls[call].book, l.calls[call].cover);
      && (forall s :: s in rows ==> (s in l.rows && rows[s] == l.rows[s]) || rows[s] in Held(c))
      && (forall s :: s in l.rows ==> s in rows)
      && (forall x :: BookOf(x) in rows <==> CoverOf(x) in rows)
      && NamedOnce(rows)
  {
    var c := l.calls[call];
    assert CallSound(l, c);
    assert c.book.Some? ==> c.book.value in Held(c);
    assert c.cover.Some? ==> c.cover.value in Held(c);
    var once := Put(l.rows, BookOf(id), c.book);
    PutNamedOnce(l.rows, BookOf(id), c.book);
    PutNamedOnce(once, CoverOf(id), c.cover);
  }

  lemma {:induction false} OtherCallAfterWrite(l: Library, call: nat, id: Id, other: nat)
    requires Sound(l) && CanWrite(l, call, id) && other in l.calls && other != call
    ensures var c := l.calls[call];
      CallSound(l.(rows := Written(l.rows, id, c.book, c.cover), calls := l.calls - {call}), l.calls[other])
  {
    var c, d := l.calls[call], l.calls[other];
    var next := l.(rows := Written(l.rows, id, c.book, c.cover), calls := l.calls - {call});
    assert CallSound(l, c) && CallSound(l, d) && Held(c) !! Held(d);
    WrittenRows(l, call, id);
    if d.Deleting? {
      forall r | r in d.refs ensures Unheld(next, r) && Unnamed(next, r) {
        assert Unheld(l, r);
      }
    } else {
      forall s | s in d.previous
        ensures Unheld(next, d.previous[s]) && forall t :: t in next.rows && next.rows[t] == d.previous[s] ==> t == s
      {
        assert Unheld(l, d.previous[s]);
      }
    }
  }

  lemma {:induction false} WriteSound(l: Library, call: nat, id: Id)
    requires Sound(l) && CanWrite(l, call, id)
    ensures Sound(l.(rows := Written(l.rows, id, l.calls[call].book, l.calls[call].cover), calls := l.calls - {call}))
  {
    var c := l.calls[call];
    var next := l.(rows := Written(l.rows, id, c.book, c.cover), calls := l.calls - {call});
    assert CallSound(l, c);
    WrittenRows(l, call, id);
    forall d | d in next.calls ensures CallSound(next, next.calls[d]) {
      OtherCallAfterWrite(l, call, id, d);
    }
  }

  lemma {:induction false} StepSound(l: Library, e: Event)
    requires Sound(l) && Enabled(l, e)
    ensures Sound(Next(l, e))
  {
    match e {
      case StoreBook(_) => StartSound(l, e);
      case UpdateBook(_, _, _, _) => StartSound(l, e);
      case Upload(call, ref, stored, answered) =>
        if answered {
          AnsweredUploadSound(l, call, ref);
        } else {
          RefusedUploadSound(l, call, ref, stored);
        }
      case Create(call, id, applied, answered) =>
        if answered {
          WriteSound(l, call, id);
        } else if applied {
          LostCreateSound(l, call, id);
        } else {
          RefusedCreateSound(l, call, id);
        }
      case Write(call, id, applied, answered) =>
        if answered {
          UpdateSound(l, call, id);
        } else if applied {
          WriteSound(l, call, id);
        } else {
          DropSound(l, call);
        }
      case Delete(call, ok) => DeleteSound(l, call, ok);
      case Die(call) => DropSound(l, call);
    }
  }

  /** The row is there, the call goes on to delete what it names, and only this row can suffer. */
  lemma {:induction false} LostCreateSound(l: Library, call: nat, id: Id)
    requires Sound(l) && Enabled(l, Create(call, id, true, false))
    ensures Sound(Next(l, Create(call, id, true, false)))
  {
    var c := l.calls[call];
    assert CallSound(l, c);
    WriteSound(l, call, id);
    var written := l.(rows := Written(l.rows, id, c.book, c.cover), calls := l.calls - {call});
    var lost := written.(lost := l.lost + {id});
    forall d | d in lost.calls ensures CallSound(lost, lost.calls[d]) {
      assert CallSound(written, written.calls[d]);
      CallStays(written, lost, written.calls[d]);
    }
    var listed := Listed(c.book, c.cover);
    assert forall r :: r in listed ==> r in Held(c);
    RestSound(l.(rows := written.rows, lost := lost.lost), call, listed);
  }

  lemma {:induction false} UpdateSound(l: Library, call: nat, id: Id)
    requires Sound(l) && Enabled(l, Write(call, id, true, true))
    ensures Sound(Next(l, Write(call, id, true, true)))
  {
    WriteSound(l, call, id);
    var c := l.calls[call];
    assert CallSound(l, c);
    var written := l.(rows := Written(l.rows, id, c.book, c.cover));
    ReplacedIsRetired(l, call, id);
    assert written.calls - {call} == l.calls - {call};
    RestSound(written, call, Replaced(c, id));
  }

  /** After an update's write no row names what it replaced, and nobody is about to. */
  lemma {:induction false} ReplacedIsRetired(l: Library, call: nat, id: Id)
    requires Sound(l) && CanWrite(l, call, id) && l.calls[call].target.Some?
    ensures var c := l.calls[call];
      var rows := Written(l.rows, id, c.book, c.cover);
      forall r :: r in Replaced(c, id) ==> Unheld(l, r) && forall s :: s in rows ==> rows[s] != r
  {
    if l.calls[call].book.Some? {
      SlotIsRetired(l, call, id, BookOf(id));
    }
    if l.calls[call].cover.Some? {
      SlotIsRetired(l, call, id, CoverOf(id));
    }
  }

  lemma {:induction false} SlotIsRetired(l: Library, call: nat, id: Id, slot: Slot)
    requires Sound(l) && CanWrite(l, call, id) && l.calls[call].target.Some?
    requires var c := l.calls[call]; (slot == BookOf(id) && c.book.Some?) || (slot == CoverOf(id) && c.cover.Some?)
    ensures var c := l.calls[call];
      var rows := Written(l.rows, id, c.book, c.cover);
      slot in c.previous && Unheld(l, c.previous[slot]) && forall s :: s in rows ==> rows[s] != c.previous[slot]
  {
    var c := l.calls[call];
    assert CallSound(l, c) && Unheld(l, c.previous[slot]);
    var rows := Written(l.rows, id, c.book, c.cover);
    forall s | s in rows ensures rows[s] != c.previous[slot] {
      if s in l.rows && rows[s] == l.rows[s] {
        assert rows[slot] in Held(c);
      } else {
        assert rows[s] in Held(c);
      }
    }
  }

  lemma {:induction false} RefusedCreateSound(l: Library, call: nat, id: Id)
    requires Sound(l) && Enabled(l, Create(call, id, false, false))
    ensures Sound(Next(l, Create(call, id, false, false)))
  {
    var c := l.calls[call];
    DropSound(l, call);
    assert CallSound(l, c);
    assert forall r :: r in Listed(c.book, c.cover) ==> r in Held(c);
    RestSound(l, call, Listed(c.book, c.cover));
  }

  lemma {:induction false} RunSound(l: Library, run: seq<Event>)
    requires Sound(l)
    ensures Sound(After(l, run))
  {
    if run != [] {
      RunSound(l, run[..|run| - 1]);
      var before := After(l, run[..|run| - 1]);
      if Enabled(before, run[|run| - 1]) {
        StepSound(before, run[|run| - 1]);
      }
    }
  }

  /**
   * In every interleaving, with failing uploads, deletions and row writes, refused or only unanswered, and with calls
   * dying anywhere: every reference in a book row leads to a stored object, unless the creation of that very row was
   * applied and reported as failed; and no object is named by two columns.
   */
  lemma {:induction false} RowsNeverDangle(run: seq<Event>, id: Id)
    requires var rows := After(EMPTY, run).rows; BookOf(id) in rows || CoverOf(id) in rows
    ensures var l := After(EMPTY, run);
      && BookOf(id) in l.rows && CoverOf(id) in l.rows
      && (id !in l.lost ==> l.rows[BookOf(id)] in l.storage && l.rows[CoverOf(id)] in l.storage)
      && (forall s :: s in l.rows && l.rows[s] == l.rows[BookOf(id)] ==> s == BookOf(id))
  {
    RunSound(EMPTY, run);
  }

  /**
   * The condition is needed: from any sound state, a creation that is applied and reported as failed, followed by its
   * compensation, leaves a lost row neither of whose references leads anywhere.
   */
  lemma {:induction false} LostCreationDangles(l: Library, call: nat, id: Id)
    requires Sound(l) && Enabled(l, Create(call, id, true, false))
    ensures var lost := Next(l, Create(call, id, true, false));
      Enabled(lost, Delete(call, true)) && var one := Next(lost, Delete(call, true));
      Enabled(one, Delete(call, true)) && var two := Next(one, Delete(call, true));
      && call !in two.calls && HasRow(two.rows, id) && two.lost == l.lost + {id}
      && two.rows[BookOf(id)] !in two.storage && two.rows[CoverOf(id)] !in two.storage
  {
    var c := l.calls[call];
    assert CallSound(l, c);
    assert Listed(c.book, c.cover) == [c.book.value, c.cover.value];
    assert [c.book.value, c.cover.value][1..] == [c.cover.value];
  }

  // ---- In every run, lost creations or not ----

  /** Nothing is stored, named or held that was not drawn. */
  ghost predicate Drawn(l: Library)
  {
    && l.storage <= l.used && l.rows.Values <= l.used
    && (forall c :: c in l.calls ==> Held(l.calls[c]) <= l.used)
  }

  lemma {:induction false} WrittenDrawn(rows: map<Slot, Ref>, id: Id, c: Call, used: set<Ref>)
    requires c.Uploading? && rows.Values <= used && Held(c) <= used
    ensures Written(rows, id, c.book, c.cover).Values <= used
  {
    forall r | r in Written(rows, id, c.book, c.cover).Values ensures r in used {
      var s :| s in Written(rows, id, c.book, c.cover) && Written(rows, id, c.book, c.cover)[s] == r;
      if s in rows && rows[s] == r {
        assert r in rows.Values;
      } else {
        assert r in Held(c);
      }
    }
  }

  lemma {:induction false} StepDrawn(l: Library, e: Event)
    requires Drawn(l) && Enabled(l, e)
    ensures Drawn(Next(l, e))
  {
    match e {
      case StoreBook(_) =>
      case UpdateBook(_, _, _, _) =>
      case Upload(call, ref, stored, answered) =>
        var next := Next(l, e);
        forall c | c in next.calls ensures Held(next.calls[c]) <= next.used {
          assert c == call && answered ==> Held(next.calls[c]) == Held(l.calls[call]) + {ref};
        }
      case Create(call, id, applied, answered) => WrittenDrawn(l.rows, id, l.calls[call], l.used);
      case Write(call, id, applied, answered) => WrittenDrawn(l.rows, id, l.calls[call], l.used);
      case Delete(_, _) =>
      case Die(_) =>
    }
  }

  lemma {:induction false} RunDrawn(l: Library, run: seq<Event>)
    requires Drawn(l)
    ensures Drawn(After(l, run))
  {
    if run != [] {
      RunDrawn(l, run[..|run| - 1]);
      var before := After(l, run[..|run| - 1]);
      if Enabled(before, run[|run| - 1]) {
        StepDrawn(before, run[|run| - 1]);
      }
    }
  }

  // ---- One call after the other, and nothing but clean failures ----

  /**
   * A call begins only when the last one is over and none dies; a failed upload stores nothing; a refused creation
   * writes nothing; deletions and the row write of an update succeed.
   */
  predicate Clean(l: Library, e: Event)
  {
    match e
    case StoreBook(_) => l.calls == map[]
    case UpdateBook(_, _, _, _) => l.calls == map[]
    case Upload(_, _, stored, answered) => stored ==> answered
    case Create(_, _, applied, answered) => applied == answered
    case Write(_, _, _, answered) => answered
    case Delete(_, ok) => ok
    case Die(_) => false
  }

  predicate CleanRun(l: Library, run: seq<Event>)
  {
    run == [] || (CleanRun(l, run[..|run| - 1]) && Clean(After(l, run[..|run| - 1]), run[|run| - 1]))
  }

  /** What a call holds or is about to delete. */
  function Pending(call: Call): set<Ref>
  {
    if call.Uploading? then Held(call) else set r | r in call.refs
  }

  ghost predicate Tidy(l: Library)
  {
    && l.lost == {}
    && (forall c, d :: c in l.calls && d in l.calls ==> c == d)
    && (forall r :: r in l.storage ==> r in l.rows.Values || exists c :: c in l.calls && r in Pending(l.calls[c]))
    && (forall c :: c in l.calls && l.calls[c].Uploading? && l.calls[c].target.Some? ==>
          forall s :: s in l.calls[c].previous ==> s in l.rows && l.rows[s] == l.calls[c].previous[s])
  }

  lemma {:induction false} UploadTidy(l: Library, call: nat, ref: Ref, stored: bool, answered: bool)
    requires Tidy(l) && Enabled(l, Upload(call, ref, stored, answered)) && (stored ==> answered)
    ensures Tidy(Next(l, Upload(call, ref, stored, answered)))
  {
    var next := Next(l, Upload(call, ref, stored, answered));
    var c := l.calls[call];
    assert answered ==> Held(next.calls[call]) == Held(c) + {ref};
    forall r | r in next.storage
      ensures r in next.rows.Values || exists d :: d in next.calls && r in Pending(next.calls[d])
    {
      if r in Held(c) {
        assert !answered ==> r in Listed(c.book, c.cover);
        assert call in next.calls && r in Pending(next.calls[call]);
      } else if r == ref && stored {
        assert call in next.calls;
      }
    }
  }

  lemma {:induction false} CreateTidy(l: Library, call: nat, id: Id, ok: bool)
    requires Sound(l) && Tidy(l) && Enabled(l, Create(call, id, ok, ok))
    ensures Tidy(Next(l, Create(call, id, ok, ok)))
  {
    var next := Next(l, Create(call, id, ok, ok));
    var c := l.calls[call];
    assert CallSound(l, c);
    forall r | r in next.storage
      ensures r in next.rows.Values || exists d :: d in next.calls && r in Pending(next.calls[d])
    {
      if r in Held(c) {
        if ok {
          HeldIsWritten(l.rows, id, c, r);
        } else {
          assert r in Listed(c.book, c.cover);
          assert call in next.calls && r in Pending(next.calls[call]);
        }
      } else {
        var s :| s in l.rows && l.rows[s] == r;
        assert next.rows[s] == r;
      }
    }
  }

  /** What a row named before an update is named still, or listed for deletion. */
  lemma {:induction false} NamedOrReplaced(l: Library, c: Call, id: Id, s: Slot)
    requires c.Uploading? && HasRow(c.previous, id) && s in l.rows
    requires forall t :: t in c.previous ==> t in l.rows && l.rows[t] == c.previous[t]
    ensures l.rows[s] in Written(l.rows, id, c.book, c.cover).Values || l.rows[s] in Replaced(c, id)
  {
    var rows := Written(l.rows, id, c.book, c.cover);
    if s == BookOf(id) && c.book.Some? {
      assert Replaced(c, id)[0] == l.rows[s];
    } else if s == CoverOf(id) && c.cover.Some? {
      assert Replaced(c, id)[|Replaced(c, id)| - 1] == l.rows[s];
    } else {
      assert s in rows && rows[s] == l.rows[s];
    }
  }

  lemma {:induction false} WriteTidy(l: Library, call: nat, id: Id)
    requires Sound(l) && Tidy(l) && Enabled(l, Write(call, id, true, true))
    ensures Tidy(Next(l, Write(call, id, true, true)))
  {
    var next := Next(l, Write(call, id, true, true));
    var c := l.calls[call];
    forall r | r in next.storage
      ensures r in next.rows.Values || exists d :: d in next.calls && r in Pending(next.calls[d])
    {
      if r in Held(c) {
        HeldIsWritten(l.rows, id, c, r);
      } else {
        var s :| s in l.rows && l.rows[s] == r;
        NamedOrReplaced(l, c, id, s);
        if r in Replaced(c, id) {
          assert call in next.calls && r in Pending(next.calls[call]);
        }
      }
    }
  }

  lemma {:induction false} HeldIsWritten(rows: map<Slot, Ref>, id: Id, c: Call, r: Ref)
    requires c.Uploading? && r in Held(c)
    ensures r in Written(rows, id, c.book, c.cover).Values
  {
    var written := Written(rows, id, c.book, c.cover);
    if c.cover == Some(r) {
      assert written[CoverOf(id)] == r;
    } else {
      assert written[BookOf(id)] == r;
    }
  }

  lemma {:induction false} DeleteTidy(l: Library, call: nat)
    requires Sound(l) && Tidy(l) && Enabled(l, Delete(call, true))
    ensures Tidy(Next(l, Delete(call, true)))
  {
    var next := Next(l, Delete(call, true));
    var refs := l.calls[call].refs;
    forall r | r in next.storage
      ensures r in next.rows.Values || exists d :: d in next.calls && r in Pending(next.calls[d])
    {
      if r in refs {
        assert r in refs[1..];
        assert call in next.calls && r in Pending(next.calls[call]);
      }
    }
  }

  lemma {:induction false} StepTidy(l: Library, e: Event)
    requires Sound(l) && Tidy(l) && Enabled(l, e) && Clean(l, e)
    ensures Tidy(Next(l, e))
  {
    match e {
      case StoreBook(_) =>
      case UpdateBook(_, _, _, _) =>
      case Upload(call, ref, stored, answered) => UploadTidy(l, call, ref, stored, answered);
      case Create(call, id, applied, answered) => CreateTidy(l, call, id, answered);
      case Write(call, id, applied, answered) => WriteTidy(l, call, id);
      case Delete(call, ok) => DeleteTidy(l, call);
    }
  }

  lemma {:induction false} CleanRunTidy(run: seq<Event>)
    requires CleanRun(EMPTY, run)
    ensures Tidy(After(EMPTY, run)) && Sound(After(EMPTY, run))
  {
    if run != [] {
      CleanRunTidy(run[..|run| - 1]);
      var before := After(EMPTY, run[..|run| - 1]);
      if Enabled(before, run[|run| - 1]) {
        StepTidy(before, run[|run| - 1]);
        StepSound(before, run[|run| - 1]);
      }
    }
  }

  /** Between calls of a clean serial run, the stored objects are exactly the ones the rows name. */
  lemma {:induction false} CleanRunsLeaveNoOrphans(run: seq<Event>)
    requires CleanRun(EMPTY, run) && After(EMPTY, run).calls == map[]
    ensures After(EMPTY, run).storage == After(EMPTY, run).rows.Values
  {
    CleanRunTidy(run);
  }
}
