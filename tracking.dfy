/** The `ExerciseTracking` records the server actions read and write, and the
    searches and sums over a table of them. */
module Tracking {
  import opened Wrappers

  /** A record id; the database allocates them. */
  type Id = nat

  /** The calendar date (`yyyy-MM-dd` in the server's time zone) of a
      timestamp in milliseconds. */
  type DayFn = int -> string

  datatype ExerciseTracking = ExerciseTracking(
    id: Id,
    userId: string,
    exerciseName: string,
    date: int,          // milliseconds since the epoch
    repetitions: int,
    notes: Option<string>)

  /** `findFirst` with a `where` filter: the position of the first record
      satisfying `p`, if any. */
  function FindFirst(rows: seq<ExerciseTracking>, p: ExerciseTracking -> bool): (r: Option<nat>)
    ensures r.Some? ==> r.value < |rows| && p(rows[r.value])
    ensures r.Some? ==> forall j :: 0 <= j < r.value ==> !p(rows[j])
    ensures r.None? ==> forall j :: 0 <= j < |rows| ==> !p(rows[j])
  {
    if rows == [] then None
    else if p(rows[0]) then Some(0)
    else match FindFirst(rows[1..], p)
      case None => None
      case Some(k) => Some(k + 1)
  }

  /** The total of `repetitions` over the records satisfying `p`. */
  function RepsWhere(rows: seq<ExerciseTracking>, p: ExerciseTracking -> bool): int {
    if rows == [] then 0
    else
      var last := rows[|rows| - 1];
      RepsWhere(rows[..|rows| - 1], p) + (if p(last) then last.repetitions else 0)
  }

  /** Replacing one record changes the total by what the new record adds and
      the old one took away. */
  lemma {:induction false} RepsWhereUpdate(rows: seq<ExerciseTracking>, i: nat, x: ExerciseTracking,
                                           p: ExerciseTracking -> bool)
    requires i < |rows|
    ensures RepsWhere(rows[i := x], p)
         == RepsWhere(rows, p) - (if p(rows[i]) then rows[i].repetitions else 0)
                               + (if p(x) then x.repetitions else 0)
  {
    var init := rows[..|rows| - 1];
    if i == |rows| - 1 {
      assert rows[i := x][..|rows| - 1] == init;
    } else {
      RepsWhereUpdate(init, i, x, p);
      assert rows[i := x][..|rows| - 1] == init[i := x];
    }
  }

  lemma RepsWhereAppend(rows: seq<ExerciseTracking>, x: ExerciseTracking, p: ExerciseTracking -> bool)
    ensures RepsWhere(rows + [x], p) == RepsWhere(rows, p) + (if p(x) then x.repetitions else 0)
  {
    assert (rows + [x])[..|rows|] == rows;
  }

  /** Appending a record moves the first match only when there was none. */
  lemma {:induction false} FindFirstSnoc(rows: seq<ExerciseTracking>, x: ExerciseTracking, p: ExerciseTracking -> bool)
    ensures FindFirst(rows + [x], p)
         == if FindFirst(rows, p).Some? then FindFirst(rows, p)
            else if p(x) then Some(|rows|) else None
  {
    var all := rows + [x];
    assert forall j :: 0 <= j < |rows| ==> all[j] == rows[j];
    assert all[|rows|] == x;
  }

  /** The records satisfying `p`, in table order. */
  function Filter(rows: seq<ExerciseTracking>, p: ExerciseTracking -> bool): (r: seq<ExerciseTracking>)
    ensures |r| <= |rows|
    ensures forall i :: 0 <= i < |r| ==> p(r[i]) && r[i] in rows
  {
    if rows == [] then []
    else
      var last := rows[|rows| - 1];
      Filter(rows[..|rows| - 1], p) + (if p(last) then [last] else [])
  }

  lemma FilterAppend(rows: seq<ExerciseTracking>, x: ExerciseTracking, p: ExerciseTracking -> bool)
    ensures Filter(rows + [x], p) == Filter(rows, p) + (if p(x) then [x] else [])
  {
    assert (rows + [x])[..|rows|] == rows;
  }
}
