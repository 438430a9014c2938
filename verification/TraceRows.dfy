/** Rows of a persisted trace, and what is left of them when some are skipped. */
module TraceRows {
  import opened EventBus

  function Rows(events: seq<Event>): (rows: seq<Event>)
    ensures |rows| == |events|
  {
    seq(|events|, i requires 0 <= i < |events| => Row(events[i]))
  }

  function RowsOf(items: seq<Item>): seq<Event> {
    if items == [] then []
    else if items[0].Live? then [Row(items[0].event)] + RowsOf(items[1..])
    else RowsOf(items[1..])
  }

  function Nums(rows: seq<Event>): set<nat> {
    set row | row in rows :: row.num
  }

  /** The rows whose number is not among the skipped ones. */
  function Kept(rows: seq<Event>, skipped: set<nat>): seq<Event> {
    if rows == [] then []
    else if rows[0].num in skipped then Kept(rows[1..], skipped)
    else [rows[0]] + Kept(rows[1..], skipped)
  }

  predicate Increasing(rows: seq<Event>) {
    forall i, j :: 0 <= i < j < |rows| ==> rows[i].num < rows[j].num
  }

  lemma {:induction false} RowsOfAppend(a: seq<Item>, b: seq<Item>)
    ensures RowsOf(a + b) == RowsOf(a) + RowsOf(b)
  {
    if a == [] {
      assert a + b == b;
    } else {
      RowsOfAppend(a[1..], b);
      assert (a + b)[1..] == a[1..] + b;
    }
  }

  lemma RowsOfOne(x: Item)
    ensures RowsOf([x]) == if x.Live? then [Row(x.event)] else []
  {
    assert [x][1..] == [];
  }

  lemma {:induction false} KeptAppend(a: seq<Event>, b: seq<Event>, skipped: set<nat>)
    ensures Kept(a + b, skipped) == Kept(a, skipped) + Kept(b, skipped)
  {
    if a == [] {
      assert a + b == b;
    } else {
      KeptAppend(a[1..], b, skipped);
      assert (a + b)[1..] == a[1..] + b;
    }
  }

  lemma KeptPrefix(a: seq<Event>, b: seq<Event>, skipped: set<nat>)
    requires a <= b
    ensures Kept(a, skipped) <= Kept(b, skipped)
  {
    assert b == a + b[|a|..];
    KeptAppend(a, b[|a|..], skipped);
  }

  /** Only the numbers of the rows at hand matter. */
  lemma {:induction false} KeptDependsOnOwnNumbers(rows: seq<Event>, s: set<nat>, t: set<nat>)
    requires forall row :: row in rows ==> (row.num in s <==> row.num in t)
    ensures Kept(rows, s) == Kept(rows, t)
  {
    if rows != [] {
      assert rows[0] in rows;
      KeptDependsOnOwnNumbers(rows[1..], s, t);
    }
  }

  lemma {:induction false} KeptMembers(rows: seq<Event>, skipped: set<nat>)
    ensures forall row :: row in Kept(rows, skipped) <==> row in rows && row.num !in skipped
    ensures |Kept(rows, skipped)| <= |rows|
  {
    if rows != [] {
      KeptMembers(rows[1..], skipped);
      assert rows == [rows[0]] + rows[1..];
    }
  }

  lemma NothingKept(skipped: set<nat>)
    ensures RowsOf([]) == [] && Kept([], skipped) == []
  {}

  lemma {:induction false} KeptNothing(rows: seq<Event>)
    ensures Kept(rows, {}) == rows
  {
    if rows != [] {
      KeptNothing(rows[1..]);
    }
  }

  /** Skipping is a set union, so it can be done in either order. */
  lemma {:induction false} KeptTwice(rows: seq<Event>, s: set<nat>, t: set<nat>)
    ensures Kept(Kept(rows, s), t) == Kept(rows, s + t)
  {
    if rows != [] {
      KeptTwice(rows[1..], s, t);
    }
  }

  lemma {:induction false} AllSkipped(rows: seq<Event>, skipped: set<nat>)
    requires forall row :: row in rows ==> row.num in skipped
    ensures Kept(rows, skipped) == []
  {
    if rows != [] {
      assert rows[0] in rows;
      AllSkipped(rows[1..], skipped);
    }
  }

  lemma {:induction false} KeptIncreasing(rows: seq<Event>, skipped: set<nat>)
    requires Increasing(rows)
    ensures Increasing(Kept(rows, skipped))
  {
    if rows != [] {
      KeptIncreasing(rows[1..], skipped);
      KeptMembers(rows[1..], skipped);
      var rest := Kept(rows[1..], skipped);
      forall j | 0 <= j < |rest| ensures rows[0].num < rest[j].num {
        assert rest[j] in rest;
      }
    }
  }

  // ---------------------------------------------------------------------------------------
  // What a stream shows
  // ---------------------------------------------------------------------------------------

  /** The trace as seen by a stream that replayed its first `replayed` rows: later rows
      reach it live, so it misses the lost ones among them. */
  function Visible(trace: seq<Event>, replayed: nat, lost: set<nat>): seq<Event>
    requires replayed <= |trace|
  {
    trace[..replayed] + Kept(trace[replayed..], lost)
  }

  /** Of the rows offered live, those already replayed are dropped and no others. */
  lemma ReplayedRowsAreDropped(trace: seq<Event>, from: nat, upto: nat, replayed: nat, lost: set<nat>)
    requires Increasing(trace)
    requires from <= upto <= |trace| && from <= replayed <= |trace|
    ensures Kept(Kept(trace[from..upto], lost), Nums(trace[..replayed]))
         == if upto <= replayed then [] else Kept(trace[replayed..upto], lost)
  {
    var nums := Nums(trace[..replayed]);
    forall k | 0 <= k < replayed ensures trace[k].num in nums {
      assert trace[k] in trace[..replayed];
    }
    KeptTwice(trace[from..upto], lost, nums);
    if upto <= replayed {
      AllSkipped(trace[from..upto], lost + nums);
    } else {
      assert trace[from..upto] == trace[from..replayed] + trace[replayed..upto];
      KeptAppend(trace[from..replayed], trace[replayed..upto], lost + nums);
      AllSkipped(trace[from..replayed], lost + nums);
      KeptDependsOnOwnNumbers(trace[replayed..upto], lost + nums, lost);
    }
  }

  /** Nothing is visible but rows of the trace, in its order. */
  lemma VisibleIncreasing(trace: seq<Event>, replayed: nat, lost: set<nat>)
    requires Increasing(trace) && replayed <= |trace|
    ensures Increasing(Visible(trace, replayed, lost))
    ensures forall row :: row in Visible(trace, replayed, lost) ==> row in trace
  {
    KeptIncreasing(trace[replayed..], lost);
    KeptMembers(trace[replayed..], lost);
    var early, late := trace[..replayed], Kept(trace[replayed..], lost);
    forall i, j | 0 <= i < |early| && 0 <= j < |late| ensures early[i].num < late[j].num {
      assert late[j] in late;
    }
  }

  /** The whole trace is visible exactly when no row after the replayed ones was lost. */
  lemma VisibleIsTraceIff(trace: seq<Event>, replayed: nat, lost: set<nat>)
    requires replayed <= |trace|
    ensures Visible(trace, replayed, lost) == trace
       <==> forall row :: row in trace[replayed..] ==> row.num !in lost
  {
    var late := trace[replayed..];
    assert trace == trace[..replayed] + late;
    KeptMembers(late, lost);
    if forall row :: row in late ==> row.num !in lost {
      KeptDependsOnOwnNumbers(late, lost, {});
      KeptNothing(late);
    }
  }

  /** If only the last two rows can be lost, all others are visible in their places. */
  lemma VisibleButForTwo(trace: seq<Event>, replayed: nat, lost: set<nat>)
    requires replayed <= |trace|
    requires forall k :: 0 <= k < |trace| - 2 ==> trace[k].num !in lost
    ensures |trace| <= |Visible(trace, replayed, lost)| + 2
    ensures forall k :: 0 <= k < |trace| - 2 ==> Visible(trace, replayed, lost)[k] == trace[k]
  {
    var sure := if |trace| >= 2 then |trace| - 2 else 0;
    if replayed < sure {
      var middle, last := trace[replayed..sure], trace[sure..];
      assert trace[replayed..] == middle + last;
      KeptAppend(middle, last, lost);
      KeptDependsOnOwnNumbers(middle, lost, {});
      KeptNothing(middle);
    }
  }
}
