/**
 * The list of class records held by App.tsx, and the handlers that replace it:
 * add (append), update (replace by id), delete (filter out by id) and clear.
 */
module ScheduleList {
  import opened Wrappers
  import opened Sequences
  import opened ScheduleTypes
  import opened ScheduleParser
  import opened ScheduleGrid

  /** handleAddSchedule: [...prev, schedule]. */
  function AddSchedule(schedules: seq<ClassSchedule>, s: ClassSchedule): (r: seq<ClassSchedule>)
    ensures |r| == |schedules| + 1
    ensures r[..|schedules|] == schedules && r[|schedules|] == s
  {
    schedules + [s]
  }

  /** handleUpdateSchedule: every record with the updated record's id becomes that record. */
  function UpdateSchedule(schedules: seq<ClassSchedule>, updated: ClassSchedule): (r: seq<ClassSchedule>)
    ensures |r| == |schedules|
    ensures forall i :: 0 <= i < |r| ==> r[i].id == schedules[i].id
    ensures forall i :: 0 <= i < |r| && schedules[i].id == updated.id ==> r[i] == updated
    ensures forall i :: 0 <= i < |r| && schedules[i].id != updated.id ==> r[i] == schedules[i]
  {
    seq(|schedules|, i requires 0 <= i < |schedules| =>
      if schedules[i].id == updated.id then updated else schedules[i])
  }

  /** handleDeleteSchedule: the records whose id differs, in their original order. */
  function DeleteSchedule(schedules: seq<ClassSchedule>, id: string): (r: seq<ClassSchedule>)
    ensures |r| <= |schedules|
    ensures !HasId(r, id)
    decreases |schedules|
  {
    if schedules == [] then []
    else
      var rest := DeleteSchedule(schedules[1..], id);
      if schedules[0].id != id then [schedules[0]] + rest else rest
  }

  /** The clear button: setSchedules([]). */
  function ClearSchedules(): (r: seq<ClassSchedule>)
    ensures |r| == 0
  {
    []
  }

  predicate HasId(schedules: seq<ClassSchedule>, id: string)
  {
    exists i :: 0 <= i < |schedules| && schedules[i].id == id
  }

  // ---------------------------------------------------------------------------
  // Nothing else changes

  /** Updating with an id no record has leaves the list as it was. */
  lemma UpdateAbsent(schedules: seq<ClassSchedule>, updated: ClassSchedule)
    requires !HasId(schedules, updated.id)
    ensures UpdateSchedule(schedules, updated) == schedules
  {
    var r := UpdateSchedule(schedules, updated);
    forall i | 0 <= i < |r| ensures r[i] == schedules[i] {
      assert schedules[i].id != updated.id;
    }
  }

  /** Updating twice with the same record is updating once. */
  lemma UpdateIdempotent(schedules: seq<ClassSchedule>, updated: ClassSchedule)
    ensures UpdateSchedule(UpdateSchedule(schedules, updated), updated) == UpdateSchedule(schedules, updated)
  {
  }

  /** After an update of a present id, the updated record is in the list. */
  lemma UpdatePresent(schedules: seq<ClassSchedule>, updated: ClassSchedule)
    ensures HasId(schedules, updated.id) <==> updated in UpdateSchedule(schedules, updated)
  {
    var r := UpdateSchedule(schedules, updated);
    if HasId(schedules, updated.id) {
      var i :| 0 <= i < |schedules| && schedules[i].id == updated.id;
      assert r[i] == updated;
    }
    if updated in r {
      var i :| 0 <= i < |r| && r[i] == updated;
      assert schedules[i].id == updated.id;
    }
  }

  /** Deleting an id no record has leaves the list as it was. */
  lemma {:induction false} DeleteAbsent(schedules: seq<ClassSchedule>, id: string)
    requires !HasId(schedules, id)
    ensures DeleteSchedule(schedules, id) == schedules
    decreases |schedules|
  {
    if schedules != [] {
      var tail := schedules[1..];
      forall i | 0 <= i < |tail| ensures tail[i].id != id {
        assert tail[i] == schedules[i + 1];
      }
      DeleteAbsent(tail, id);
    }
  }

  /** The records kept are in their original relative order. */
  lemma {:induction false} DeleteSubsequence(schedules: seq<ClassSchedule>, id: string)
    ensures IsSubsequence(DeleteSchedule(schedules, id), schedules)
    decreases |schedules|
  {
    if schedules != [] {
      var rest := DeleteSchedule(schedules[1..], id);
      DeleteSubsequence(schedules[1..], id);
      assert schedules == [schedules[0]] + schedules[1..];
      SubsequenceCons(schedules[0], rest, schedules[1..]);
    }
  }

  /** Delete keeps every other record as many times as it occurs, and none with the id. */
  lemma {:induction false} DeleteCounts(schedules: seq<ClassSchedule>, id: string)
    ensures forall x :: multiset(DeleteSchedule(schedules, id))[x] == if x.id == id then 0 else multiset(schedules)[x]
    decreases |schedules|
  {
    if schedules != [] {
      var h, tail := schedules[0], schedules[1..];
      assert schedules == [h] + tail;
      assert multiset(schedules) == multiset{h} + multiset(tail);
      DeleteCounts(tail, id);
      if h.id != id {
        assert multiset(DeleteSchedule(schedules, id)) == multiset{h} + multiset(DeleteSchedule(tail, id));
      }
    }
  }

  /** Delete looks at the first record, then at the rest. */
  lemma DeleteCons(h: ClassSchedule, tail: seq<ClassSchedule>, id: string)
    ensures DeleteSchedule([h] + tail, id) == (if h.id == id then [] else [h]) + DeleteSchedule(tail, id)
  {
    assert ([h] + tail)[0] == h && ([h] + tail)[1..] == tail;
  }

  /** The records left are exactly those of the list whose id differs. */
  lemma DeleteMembers(schedules: seq<ClassSchedule>, id: string)
    ensures forall x :: x in DeleteSchedule(schedules, id) <==> x in schedules && x.id != id
  {
    DeleteCounts(schedules, id);
    forall x ensures x in DeleteSchedule(schedules, id) <==> x in schedules && x.id != id {
      assert x in DeleteSchedule(schedules, id) <==> multiset(DeleteSchedule(schedules, id))[x] > 0;
      assert x in schedules <==> multiset(schedules)[x] > 0;
    }
  }

  /** Deleting distributes over the append of Add. */
  lemma {:induction false} DeleteAppend(schedules: seq<ClassSchedule>, s: ClassSchedule, id: string)
    ensures DeleteSchedule(AddSchedule(schedules, s), id)
      == DeleteSchedule(schedules, id) + (if s.id == id then [] else [s])
    decreases |schedules|
  {
    var kept: seq<ClassSchedule> := if s.id == id then [] else [s];
    if schedules == [] {
      DeleteCons(s, [], id);
      assert [s] + [] == [s] && [] + [s] == [s];
    } else {
      var h, tail := schedules[0], schedules[1..];
      var head: seq<ClassSchedule> := if h.id == id then [] else [h];
      assert schedules == [h] + tail;
      assert schedules + [s] == [h] + (tail + [s]);
      DeleteCons(h, tail + [s], id);
      DeleteCons(h, tail, id);
      DeleteAppend(tail, s, id);
      assert DeleteSchedule(schedules + [s], id) == head + (DeleteSchedule(tail, id) + kept);
      assert head + (DeleteSchedule(tail, id) + kept) == (head + DeleteSchedule(tail, id)) + kept;
    }
  }

  /** Adding a record whose id is new and then deleting that id restores the list. */
  lemma DeleteAfterAdd(schedules: seq<ClassSchedule>, s: ClassSchedule)
    requires !HasId(schedules, s.id)
    ensures DeleteSchedule(AddSchedule(schedules, s), s.id) == schedules
  {
    DeleteAppend(schedules, s, s.id);
    DeleteAbsent(schedules, s.id);
  }

  // ---------------------------------------------------------------------------
  // Invariants of the collection

  /** No two records share an id. */
  predicate DistinctIds(schedules: seq<ClassSchedule>)
  {
    forall i, j :: 0 <= i < j < |schedules| ==> schedules[i].id != schedules[j].id
  }

  /** A record as the form stores it: its time code is valid and its time slots are
      what parseTimeCode makes of it. */
  predicate Consistent(s: ClassSchedule)
  {
    ValidTimeCode(s.timeCode) && ParseSpec(s.timeCode) == Some(s.schedules)
  }

  /** Every record of the list has the property `inv`. */
  predicate All(schedules: seq<ClassSchedule>, inv: ClassSchedule -> bool)
  {
    forall x :: x in schedules ==> inv(x)
  }

  /** A property of single records holds of the whole list after every handler, as long as
      it held before and the record being added or updated has it. */
  lemma HandlersKeep(schedules: seq<ClassSchedule>, s: ClassSchedule, id: string, inv: ClassSchedule -> bool)
    requires All(schedules, inv)
    ensures inv(s) ==> All(AddSchedule(schedules, s), inv)
    ensures inv(s) ==> All(UpdateSchedule(schedules, s), inv)
    ensures All(DeleteSchedule(schedules, id), inv)
    ensures All(ClearSchedules(), inv)
  {
    DeleteMembers(schedules, id);
    var u := UpdateSchedule(schedules, s);
    forall x | x in u ensures x == s || x in schedules {
      var i :| 0 <= i < |u| && u[i] == x;
      if schedules[i].id != s.id {
        assert schedules[i] in schedules;
      }
    }
  }

  /** Every handler keeps the records consistent, given a consistent new record. */
  lemma HandlersKeepConsistent(schedules: seq<ClassSchedule>, s: ClassSchedule, id: string)
    requires All(schedules, Consistent)
    ensures Consistent(s) ==> All(AddSchedule(schedules, s), Consistent)
    ensures Consistent(s) ==> All(UpdateSchedule(schedules, s), Consistent)
    ensures All(DeleteSchedule(schedules, id), Consistent)
    ensures All(ClearSchedules(), Consistent)
  {
    HandlersKeep(schedules, s, id, Consistent);
  }

  /** Adding a record with a new id, updating, deleting and clearing keep ids distinct. */
  lemma HandlersKeepDistinct(schedules: seq<ClassSchedule>, s: ClassSchedule, id: string)
    requires DistinctIds(schedules)
    ensures !HasId(schedules, s.id) ==> DistinctIds(AddSchedule(schedules, s))
    ensures DistinctIds(UpdateSchedule(schedules, s))
    ensures DistinctIds(DeleteSchedule(schedules, id))
    ensures DistinctIds(ClearSchedules())
  {
    if !HasId(schedules, s.id) {
      var a := AddSchedule(schedules, s);
      forall i, j | 0 <= i < j < |a| ensures a[i].id != a[j].id {
        if j == |schedules| {
          assert a[i] == schedules[i];
        }
      }
    }
    DeleteKeepsDistinct(schedules, id);
  }

  lemma DistinctCons(h: ClassSchedule, rest: seq<ClassSchedule>)
    requires DistinctIds(rest) && forall x :: x in rest ==> x.id != h.id
    ensures DistinctIds([h] + rest)
  {
    var r := [h] + rest;
    forall i, j | 0 <= i < j < |r| ensures r[i].id != r[j].id {
      assert r[j] == rest[j - 1] && rest[j - 1] in rest;
      if i > 0 {
        assert r[i] == rest[i - 1];
      }
    }
  }

  lemma {:induction false} DeleteKeepsDistinct(schedules: seq<ClassSchedule>, id: string)
    requires DistinctIds(schedules)
    ensures DistinctIds(DeleteSchedule(schedules, id))
    decreases |schedules|
  {
    if schedules != [] {
      var h, tail := schedules[0], schedules[1..];
      forall i, j | 0 <= i < j < |tail| ensures tail[i].id != tail[j].id {
        assert tail[i] == schedules[i + 1] && tail[j] == schedules[j + 1];
      }
      DeleteKeepsDistinct(tail, id);
      DeleteMembers(tail, id);
      var rest := DeleteSchedule(tail, id);
      if h.id != id {
        forall x | x in rest ensures x.id != h.id {
          var k :| 0 <= k < |tail| && tail[k] == x;
          assert schedules[k + 1] == x;
        }
        DistinctCons(h, rest);
      }
    }
  }

  // ---------------------------------------------------------------------------
  // What the grid shows after each handler

  /** With consistent records, every cell any record covers lies inside the 16 x 7 grid. */
  lemma ConsistentWithinGrid(schedules: seq<ClassSchedule>, x: ClassSchedule, dayIndex: int, timeIndex: int)
    requires All(schedules, Consistent) && x in schedules && Occupies(x, dayIndex, timeIndex)
    ensures 0 <= dayIndex < 7 && 0 <= timeIndex < 16
  {
    RecordCells(x, dayIndex, timeIndex);
  }

  /** A time range that is not a row of the table has index -1, which no consistent record
      covers, so its cell is empty. */
  lemma ForeignTimeEmpty(schedules: seq<ClassSchedule>, time: TimeRange, dayIndex: int)
    requires All(schedules, Consistent) && time !in GenerateTimeRanges()
    ensures RenderTimeCell(schedules, time, dayIndex) == Empty
  {
    var m := MatchingSchedules(schedules, dayIndex, -1);
    if m != [] {
      assert m[0] in m;
      ConsistentWithinGrid(schedules, m[0], dayIndex, -1);
    }
  }

  /** After a delete, no cell shows a record with the deleted id. */
  lemma DeleteHidesRecord(schedules: seq<ClassSchedule>, id: string, t: nat, d: nat)
    requires t < 16 && d < 7
    ensures Grid(DeleteSchedule(schedules, id))[t][d].Occupied? ==>
      Grid(DeleteSchedule(schedules, id))[t][d].record.id != id
  {
    var r := DeleteSchedule(schedules, id);
    GridCell(r, t, d);
    if Grid(r)[t][d].Occupied? {
      var k :| 0 <= k < |r| && r[k] == Grid(r)[t][d].record;
      assert r[k] in r;
    }
  }

  /** After clearing, every cell is empty. */
  lemma ClearedGridEmpty(t: nat, d: nat)
    requires t < 16 && d < 7
    ensures Grid(ClearSchedules())[t][d] == Empty
  {
    GridCell(ClearSchedules(), t, d);
  }
}
