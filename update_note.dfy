/** actions/updateNote.ts, `updateNoteTracking`: the owner of a record may
    replace its notes, and nothing else. */
module UpdateNote {
  import opened Wrappers
  import opened Tracking

  /** The `findFirst` filter: the given id, owned by the session user. */
  function OwnedKey(userId: string, id: Id): ExerciseTracking -> bool {
    (r: ExerciseTracking) => r.userId == userId && r.id == id
  }

  /** The table after the action. */
  function SetNote(rows: seq<ExerciseTracking>, userId: string, id: Id, notes: string): (r: seq<ExerciseTracking>)
    ensures |r| == |rows|
  {
    match FindFirst(rows, OwnedKey(userId, id))
    case Some(i) => rows[i := rows[i].(notes := Some(notes))]
    case None => rows
  }

  /** What the action returns: the updated record, or `undefined` when the
      user owns no record with that id. */
  function SetNoteResult(rows: seq<ExerciseTracking>, userId: string, id: Id, notes: string): (r: Option<ExerciseTracking>)
    ensures r.Some? ==> r.value.id == id && r.value.userId == userId && r.value.notes == Some(notes)
    ensures r.Some? <==> exists j :: 0 <= j < |rows| && OwnedKey(userId, id)(rows[j])
  {
    match FindFirst(rows, OwnedKey(userId, id))
    case Some(i) => Some(rows[i].(notes := Some(notes)))
    case None => None
  }

  /** Only `notes` ever changes, only on a record with the given id that the
      user owns, and it becomes exactly the given text; records of other
      users are never touched, even under the same id. */
  lemma SetNoteOnlyOwnedNotes(rows: seq<ExerciseTracking>, userId: string, id: Id, notes: string)
    ensures var r := SetNote(rows, userId, id, notes);
      forall j :: 0 <= j < |rows| ==>
        && r[j] == rows[j].(notes := r[j].notes)
        && (r[j] != rows[j] ==> rows[j].userId == userId && rows[j].id == id && r[j].notes == Some(notes))
  {
  }

  /** Without such a record the table is unchanged and nothing is returned;
      with one, the returned record is in the new table with the new notes. */
  lemma SetNoteFoundOrNot(rows: seq<ExerciseTracking>, userId: string, id: Id, notes: string)
    ensures (forall j :: 0 <= j < |rows| ==> !OwnedKey(userId, id)(rows[j]))
        ==> SetNote(rows, userId, id, notes) == rows && SetNoteResult(rows, userId, id, notes) == None
    ensures SetNoteResult(rows, userId, id, notes).Some?
        ==> SetNoteResult(rows, userId, id, notes).value in SetNote(rows, userId, id, notes)
  {
    match FindFirst(rows, OwnedKey(userId, id))
    case Some(i) =>
      assert SetNote(rows, userId, id, notes)[i] == SetNoteResult(rows, userId, id, notes).value;
    case None =>
  }
}
