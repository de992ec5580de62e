/** actions/RegisterTracking.ts, `addOrUpdateTracking`: a user's repetitions
    of one exercise are kept in a single record per calendar day; saving more
    repetitions adds them to today's record, or creates it. */
module RegisterTracking {
  import opened Wrappers
  import opened Tracking

  /** The `findFirst` filter: same user, same exercise, dated within the
      calendar day of `now`. */
  function TodayKey(userId: string, exerciseName: string, now: int, localDay: DayFn): ExerciseTracking -> bool {
    (r: ExerciseTracking) => r.userId == userId && r.exerciseName == exerciseName && localDay(r.date) == localDay(now)
  }

  /** The record `create` inserts. */
  function NewRecord(id: Id, userId: string, exerciseName: string, repetitions: int,
                     notes: Option<string>, now: int): ExerciseTracking {
    ExerciseTracking(id, userId, exerciseName, now, repetitions, notes)
  }

  /** Where the saved record ends up: today's record, or the end of the table. */
  function UpsertIndex(rows: seq<ExerciseTracking>, userId: string, exerciseName: string,
                       now: int, localDay: DayFn): (k: nat)
    ensures k <= |rows|
    ensures k < |rows| <==> FindFirst(rows, TodayKey(userId, exerciseName, now, localDay)).Some?
  {
    match FindFirst(rows, TodayKey(userId, exerciseName, now, localDay))
    case Some(i) => i
    case None => |rows|
  }

  /** The table after the action: today's record gets the repetitions added
      and, when notes are supplied, the new notes (`notes ?? existing.notes`);
      without such a record, a new one dated `now` is appended. */
  function Upsert(rows: seq<ExerciseTracking>, userId: string, exerciseName: string, repetitions: int,
                  notes: Option<string>, now: int, localDay: DayFn, freshId: Id): (r: seq<ExerciseTracking>)
    ensures |r| == |rows| + (if UpsertIndex(rows, userId, exerciseName, now, localDay) == |rows| then 1 else 0)
  {
    match FindFirst(rows, TodayKey(userId, exerciseName, now, localDay))
    case Some(i) =>
      rows[i := rows[i].(repetitions := rows[i].repetitions + repetitions,
                         notes := if notes.Some? then notes else rows[i].notes)]
    case None =>
      rows + [NewRecord(freshId, userId, exerciseName, repetitions, notes, now)]
  }

  /** With a record for today, exactly the first one changes: its
      repetitions grow by the new ones and its notes are replaced only when
      new notes are supplied; its id, owner, exercise and date are kept. */
  lemma UpsertUpdates(rows: seq<ExerciseTracking>, userId: string, exerciseName: string, repetitions: int,
                      notes: Option<string>, now: int, localDay: DayFn, freshId: Id)
    requires exists j :: 0 <= j < |rows| && TodayKey(userId, exerciseName, now, localDay)(rows[j])
    ensures var r := Upsert(rows, userId, exerciseName, repetitions, notes, now, localDay, freshId);
            var i := UpsertIndex(rows, userId, exerciseName, now, localDay);
      && |r| == |rows| && i < |rows|
      && rows[i].userId == userId && rows[i].exerciseName == exerciseName
      && localDay(rows[i].date) == localDay(now)
      && r[i].repetitions == rows[i].repetitions + repetitions
      && r[i].notes == (if notes.Some? then notes else rows[i].notes)
      && r[i].id == rows[i].id && r[i].userId == rows[i].userId
      && r[i].exerciseName == rows[i].exerciseName && r[i].date == rows[i].date
      && (forall j :: 0 <= j < |rows| && j != i ==> r[j] == rows[j])
  {
  }

  /** Without a record for today, the table keeps every record and gains
      exactly one, dated now, with the given repetitions, exercise, notes and
      owner. */
  lemma UpsertCreates(rows: seq<ExerciseTracking>, userId: string, exerciseName: string, repetitions: int,
                      notes: Option<string>, now: int, localDay: DayFn, freshId: Id)
    requires forall j :: 0 <= j < |rows| ==> !TodayKey(userId, exerciseName, now, localDay)(rows[j])
    ensures Upsert(rows, userId, exerciseName, repetitions, notes, now, localDay, freshId)
         == rows + [ExerciseTracking(freshId, userId, exerciseName, now, repetitions, notes)]
  {
  }

  /** Records of other users, other exercises or other days are never
      modified. */
  lemma UpsertLeavesOthers(rows: seq<ExerciseTracking>, userId: string, exerciseName: string, repetitions: int,
                           notes: Option<string>, now: int, localDay: DayFn, freshId: Id)
    ensures var r := Upsert(rows, userId, exerciseName, repetitions, notes, now, localDay, freshId);
      forall j :: 0 <= j < |rows| && !TodayKey(userId, exerciseName, now, localDay)(rows[j]) ==> r[j] == rows[j]
  {
  }

  /** The user's total for this exercise today grows by exactly the saved
      repetitions, and every other (user, exercise, day) total is unchanged. */
  lemma UpsertAccumulates(rows: seq<ExerciseTracking>, userId: string, exerciseName: string, repetitions: int,
                          notes: Option<string>, now: int, localDay: DayFn, freshId: Id,
                          otherUser: string, otherExercise: string, otherNow: int)
    ensures var r := Upsert(rows, userId, exerciseName, repetitions, notes, now, localDay, freshId);
      RepsWhere(r, TodayKey(userId, exerciseName, now, localDay))
        == RepsWhere(rows, TodayKey(userId, exerciseName, now, localDay)) + repetitions
    ensures var r := Upsert(rows, userId, exerciseName, repetitions, notes, now, localDay, freshId);
            var other := TodayKey(otherUser, otherExercise, otherNow, localDay);
      (otherUser != userId || otherExercise != exerciseName || localDay(otherNow) != localDay(now))
        ==> RepsWhere(r, other) == RepsWhere(rows, other)
  {
    var key := TodayKey(userId, exerciseName, now, localDay);
    var other := TodayKey(otherUser, otherExercise, otherNow, localDay);
    match FindFirst(rows, key)
    case Some(i) =>
      var x := rows[i].(repetitions := rows[i].repetitions + repetitions,
                        notes := if notes.Some? then notes else rows[i].notes);
      RepsWhereUpdate(rows, i, x, key);
      RepsWhereUpdate(rows, i, x, other);
    case None =>
      var x := NewRecord(freshId, userId, exerciseName, repetitions, notes, now);
      RepsWhereAppend(rows, x, key);
      RepsWhereAppend(rows, x, other);
  }

  /** At most one record per user, exercise and calendar day. */
  predicate OnePerDay(rows: seq<ExerciseTracking>, localDay: DayFn) {
    forall i, j :: 0 <= i < j < |rows|
      ==> !(rows[i].userId == rows[j].userId && rows[i].exerciseName == rows[j].exerciseName
            && localDay(rows[i].date) == localDay(rows[j].date))
  }

  /** The action never creates a second record for the same user, exercise
      and day. */
  lemma UpsertKeepsOnePerDay(rows: seq<ExerciseTracking>, userId: string, exerciseName: string, repetitions: int,
                             notes: Option<string>, now: int, localDay: DayFn, freshId: Id)
    requires OnePerDay(rows, localDay)
    ensures OnePerDay(Upsert(rows, userId, exerciseName, repetitions, notes, now, localDay, freshId), localDay)
  {
    var r := Upsert(rows, userId, exerciseName, repetitions, notes, now, localDay, freshId);
    var key := TodayKey(userId, exerciseName, now, localDay);
    if FindFirst(rows, key).None? {
      forall i, j | 0 <= i < j < |r|
        ensures !(r[i].userId == r[j].userId && r[i].exerciseName == r[j].exerciseName
                  && localDay(r[i].date) == localDay(r[j].date))
      {
        if j == |rows| {
          assert !key(rows[i]);
        }
      }
    }
  }
}
