/** The `exerciseTracking` table as the two writing server actions use it:
    rows updated in place or appended, and ids handed out by the table. The
    session is an argument: `None` when nobody is signed in. */
module TrackingTable {
  import opened Wrappers
  import opened Tracking
  import RegisterTracking
  import UpdateNote

  const NotAuthenticated: string := "No autenticado"

  /** Every id is below `n`, and no two records share an id. */
  ghost predicate IdsBelow(rows: seq<ExerciseTracking>, n: Id) {
    && (forall i :: 0 <= i < |rows| ==> rows[i].id < n)
    && (forall i, j :: 0 <= i < j < |rows| ==> rows[i].id != rows[j].id)
  }

  /** Saving repetitions keeps the ids distinct: an update keeps the record's
      id, and a created record takes the next unused one. */
  lemma UpsertKeepsIds(rows: seq<ExerciseTracking>, userId: string, exerciseName: string, repetitions: int,
                       notes: Option<string>, now: int, localDay: DayFn, n: Id)
    requires IdsBelow(rows, n)
    ensures var r := RegisterTracking.Upsert(rows, userId, exerciseName, repetitions, notes, now, localDay, n);
      IdsBelow(r, n + (|r| - |rows|))
  {
  }

  /** Replacing the notes of a record keeps its id. */
  lemma SetNoteKeepsIds(rows: seq<ExerciseTracking>, userId: string, id: Id, notes: string, n: Id)
    requires IdsBelow(rows, n)
    ensures IdsBelow(UpdateNote.SetNote(rows, userId, id, notes), n)
  {
  }

  /** `update({ where: { id }, data })`: the records with that id get the
      change, every other record stays. */
  function UpdateById(rows: seq<ExerciseTracking>, id: Id, change: ExerciseTracking -> ExerciseTracking)
    : (r: seq<ExerciseTracking>)
    ensures |r| == |rows|
  {
    seq(|rows|, j requires 0 <= j < |rows| => if rows[j].id == id then change(rows[j]) else rows[j])
  }

  /** With distinct ids, changing the record at a position is the same as
      updating by that record's id: no other record is touched. */
  lemma PositionIsId(rows: seq<ExerciseTracking>, n: Id, i: nat, change: ExerciseTracking -> ExerciseTracking)
    requires IdsBelow(rows, n) && i < |rows|
    ensures rows[i := change(rows[i])] == UpdateById(rows, rows[i].id, change)
  {
    var r := UpdateById(rows, rows[i].id, change);
    forall j | 0 <= j < |rows|
      ensures rows[i := change(rows[i])][j] == r[j]
    {
      if j != i {
        assert rows[j].id != rows[i].id by {
          if j < i { assert rows[j].id != rows[i].id; } else { assert rows[i].id != rows[j].id; }
        }
      }
    }
  }

  /** The saving action updates today's record by its id, as the database
      call does: the record found gets the repetitions added and the notes
      `notes ?? existing.notes`, and no record with another id changes. */
  lemma UpsertUpdatesById(rows: seq<ExerciseTracking>, userId: string, exerciseName: string, repetitions: int,
                          notes: Option<string>, now: int, localDay: DayFn, n: Id)
    requires IdsBelow(rows, n)
    requires FindFirst(rows, RegisterTracking.TodayKey(userId, exerciseName, now, localDay)).Some?
    ensures var i := FindFirst(rows, RegisterTracking.TodayKey(userId, exerciseName, now, localDay)).value;
      RegisterTracking.Upsert(rows, userId, exerciseName, repetitions, notes, now, localDay, n)
      == UpdateById(rows, rows[i].id, (t: ExerciseTracking) =>
           t.(repetitions := t.repetitions + repetitions, notes := if notes.Some? then notes else t.notes))
  {
    var i := FindFirst(rows, RegisterTracking.TodayKey(userId, exerciseName, now, localDay)).value;
    PositionIsId(rows, n, i, (t: ExerciseTracking) =>
      t.(repetitions := t.repetitions + repetitions, notes := if notes.Some? then notes else t.notes));
  }

  /** The note action updates by the id and owner it was given, as the
      database call does: with an owned record, every record with that id
      gets the new notes and no other changes; without one, nothing changes. */
  lemma SetNoteUpdatesById(rows: seq<ExerciseTracking>, userId: string, id: Id, notes: string, n: Id)
    requires IdsBelow(rows, n)
    ensures UpdateNote.SetNote(rows, userId, id, notes)
         == if FindFirst(rows, UpdateNote.OwnedKey(userId, id)).Some?
            then UpdateById(rows, id, (t: ExerciseTracking) => t.(notes := Some(notes)))
            else rows
  {
    if FindFirst(rows, UpdateNote.OwnedKey(userId, id)).Some? {
      var i := FindFirst(rows, UpdateNote.OwnedKey(userId, id)).value;
      PositionIsId(rows, n, i, (t: ExerciseTracking) => t.(notes := Some(notes)));
    }
  }

  class ExerciseTrackingTable {
    var rows: seq<ExerciseTracking>
    /** The id the next inserted record receives. */
    var nextId: Id

    /** Every id is below `nextId`, so ids are distinct. */
    ghost predicate Valid()
      reads this
    {
      IdsBelow(rows, nextId)
    }

    constructor ()
      ensures Valid() && rows == []
    {
      rows := [];
      nextId := 0;
    }

    /** `findFirst`: scans the rows in order. */
    method FindFirstRow(p: ExerciseTracking -> bool) returns (r: Option<nat>)
      ensures r == FindFirst(rows, p)
    {
      var i := 0;
      while i < |rows|
        invariant 0 <= i <= |rows|
        invariant forall j :: 0 <= j < i ==> !p(rows[j])
      {
        if p(rows[i]) {
          return Some(i);
        }
        i := i + 1;
      }
      return None;
    }

    /** `addOrUpdateTracking`: add the repetitions to the user's record of
        this exercise for the calendar day of `now`, or create that record;
        return the record as saved. */
    method AddOrUpdateTracking(session: Option<string>, repetitions: int, exerciseName: string,
                               notes: Option<string>, now: int, localDay: DayFn)
      returns (r: Result<ExerciseTracking>)
      requires Valid()
      modifies this
      ensures Valid()
      ensures session.None? ==> r == Failure(NotAuthenticated) && rows == old(rows) && nextId == old(nextId)
      ensures session.Some?
        ==> && rows == RegisterTracking.Upsert(old(rows), session.value, exerciseName, repetitions,
                                               notes, now, localDay, old(nextId))
            && r == Success(rows[RegisterTracking.UpsertIndex(old(rows), session.value, exerciseName, now, localDay)])
            && nextId == old(nextId) + (|rows| - |old(rows)|)
    {
      if session.None? {
        return Failure(NotAuthenticated);
      }
      var userId := session.value;
      UpsertKeepsIds(rows, userId, exerciseName, repetitions, notes, now, localDay, nextId);
      var existing := FindFirstRow(RegisterTracking.TodayKey(userId, exerciseName, now, localDay));
      var row;
      if existing.Some? {
        var i := existing.value;
        row := rows[i].(repetitions := rows[i].repetitions + repetitions,
                        notes := if notes.Some? then notes else rows[i].notes);
        rows := rows[i := row];
      } else {
        row := RegisterTracking.NewRecord(nextId, userId, exerciseName, repetitions, notes, now);
        rows := rows + [row];
        nextId := nextId + 1;
      }
      r := Success(row);
    }

    /** `updateNoteTracking`: replace the notes of the user's record with
        this id; return it, or nothing when the user owns no such record. */
    method UpdateNoteTracking(session: Option<string>, id: Id, notes: string)
      returns (r: Result<Option<ExerciseTracking>>)
      requires Valid()
      modifies this
      ensures Valid() && nextId == old(nextId)
      ensures session.None? ==> r == Failure(NotAuthenticated) && rows == old(rows)
      ensures session.Some?
        ==> && rows == UpdateNote.SetNote(old(rows), session.value, id, notes)
            && r == Success(UpdateNote.SetNoteResult(old(rows), session.value, id, notes))
    {
      if session.None? {
        return Failure(NotAuthenticated);
      }
      var userId := session.value;
      SetNoteKeepsIds(rows, userId, id, notes, nextId);
      var existing := FindFirstRow(UpdateNote.OwnedKey(userId, id));
      var updated: Option<ExerciseTracking> := None;
      if existing.Some? {
        var i := existing.value;
        var row := rows[i].(notes := Some(notes));
        rows := rows[i := row];
        updated := Some(row);
      }
      r := Success(updated);
    }
  }
}
