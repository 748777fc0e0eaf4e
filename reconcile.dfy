/** The insert-or-update classification behind `storeLocally`: every mapped
    row is converted field by field, matched against a snapshot of the local
    table taken once before the batch, and either skipped or handed to the
    list's `storeRow` with the primary key it matched ("" for a new row). */
module Reconcile {
  import opened Wrappers
  import opened Php
  import opened FieldMap

  /** One call `storeRow($row, $pk)` made on the list. */
  datatype StoreCall = StoreCall(row: Row, pk: string)

  /** Each field after the element's `fromXMLFormat` conversion. */
  function ConvertRow(row: Row, convert: (string, Scalar) -> Scalar): Row
  {
    map k | k in row :: convert(k, row[k])
  }

  /** `$row[$fk]`: an absent field reads as null. */
  function FkValue(row: Row, fk: string): Scalar
  {
    if fk in row then row[fk] else Null
  }

  /** The primary key the snapshot holds for the row's foreign-key value, or
      "" when that value is empty or not in the snapshot. */
  function MatchedPk(row: Row, fk: string, ids: map<string, string>): (pk: string)
    ensures LooseEqualsEmpty(FkValue(row, fk)) || ArrayKey(FkValue(row, fk)) !in ids ==> pk == ""
    ensures !LooseEqualsEmpty(FkValue(row, fk)) && ArrayKey(FkValue(row, fk)) in ids ==> pk == ids[ArrayKey(FkValue(row, fk))]
  {
    var v := FkValue(row, fk);
    if ArrayKey(v) in ids && !LooseEqualsEmpty(v) then ids[ArrayKey(v)] else ""
  }

  /** Whether the row counts as new: no primary key was found for it. */
  predicate IsNew(row: Row, fk: string, ids: map<string, string>, convert: (string, Scalar) -> Scalar)
  {
    MatchedPk(ConvertRow(row, convert), fk, ids) == ""
  }

  /** What one iteration of the loop does with a mapped row: None when the
      row is skipped, otherwise the `storeRow` call it makes. */
  function Decide(row: Row, fk: string, update: bool, ids: map<string, string>,
                  pkColumn: string, convert: (string, Scalar) -> Scalar): Option<StoreCall>
  {
    var converted := ConvertRow(row, convert);
    var pk := MatchedPk(converted, fk, ids);
    if !update && pk != "" then None
    else Some(StoreCall(converted[pkColumn := Str(pk)], pk))
  }

  /** The `storeRow` calls one decision makes: none or one. */
  function Calls(d: Option<StoreCall>): seq<StoreCall>
  {
    match d
    case Some(c) => [c]
    case None => []
  }

  /** The `storeRow` calls a batch makes, in row order. */
  function Plan(rows: seq<Row>, fk: string, update: bool, ids: map<string, string>,
                pkColumn: string, convert: (string, Scalar) -> Scalar): seq<StoreCall>
    decreases |rows|
  {
    if rows == [] then []
    else Plan(rows[..|rows| - 1], fk, update, ids, pkColumn, convert)
         + Calls(Decide(rows[|rows| - 1], fk, update, ids, pkColumn, convert))
  }

  /** `addedCount` as the loop leaves it: the calls made without a key. */
  function CountNew(calls: seq<StoreCall>): nat
    decreases |calls|
  {
    if calls == [] then 0
    else (if calls[0].pk == "" then 1 else 0) + CountNew(calls[1..])
  }

  /** `updateCount` as the loop leaves it: the calls made with a key. */
  function CountExisting(calls: seq<StoreCall>): nat
    decreases |calls|
  {
    if calls == [] then 0
    else (if calls[0].pk != "" then 1 else 0) + CountExisting(calls[1..])
  }

  /** The number of rows of the batch that the snapshot does not match,
      counted directly on the rows. */
  function Unmatched(rows: seq<Row>, fk: string, ids: map<string, string>,
                     convert: (string, Scalar) -> Scalar): (n: nat)
    ensures n <= |rows|
    decreases |rows|
  {
    if rows == [] then 0
    else Unmatched(rows[..|rows| - 1], fk, ids, convert) + (if IsNew(rows[|rows| - 1], fk, ids, convert) then 1 else 0)
  }

  /** The inner `foreach ($row as $k => $v)` loop, which rewrites every field
      of the row in place. */
  method ConvertFields(row: Row, convert: (string, Scalar) -> Scalar) returns (r: Row)
    ensures r == ConvertRow(row, convert)
  {
    r := row;
    var todo := row.Keys;
    while todo != {}
      invariant todo <= row.Keys && r.Keys == row.Keys
      invariant forall k :: k in row && k !in todo ==> r[k] == convert(k, row[k])
      invariant forall k :: k in todo ==> r[k] == row[k]
      decreases todo
    {
      var k :| k in todo;
      r := r[k := convert(k, row[k])];
      todo := todo - {k};
    }
    assert r.Keys == ConvertRow(row, convert).Keys;
  }

  /** The decision on a row, in the terms the loop computes it in. */
  lemma DecideUnfold(raw: Row, fk: string, update: bool, ids: map<string, string>,
                     pkColumn: string, convert: (string, Scalar) -> Scalar, row: Row, pk: string)
    requires row == ConvertRow(raw, convert) && pk == MatchedPk(row, fk, ids)
    ensures Decide(raw, fk, update, ids, pkColumn, convert)
            == if !update && pk != "" then None else Some(StoreCall(row[pkColumn := Str(pk)], pk))
  {
  }

  /** The batch's calls grow by the decision on the next row. */
  lemma PlanStep(rows: seq<Row>, i: nat, fk: string, update: bool, ids: map<string, string>,
                 pkColumn: string, convert: (string, Scalar) -> Scalar)
    requires i < |rows|
    ensures Plan(rows[..i + 1], fk, update, ids, pkColumn, convert)
            == Plan(rows[..i], fk, update, ids, pkColumn, convert) + Calls(Decide(rows[i], fk, update, ids, pkColumn, convert))
  {
    assert rows[..i + 1][..i] == rows[..i];
  }

  /** One iteration of the loop, as the loop's invariants see it: the calls
      and both counters grow by what the decision on row `i` adds. */
  lemma Advance(rows: seq<Row>, i: nat, fk: string, update: bool, ids: map<string, string>,
                pkColumn: string, convert: (string, Scalar) -> Scalar,
                before: seq<StoreCall>, plan: seq<StoreCall>, call: Option<StoreCall>)
    requires i < |rows|
    requires plan == Plan(rows[..i], fk, update, ids, pkColumn, convert)
    requires call == Decide(rows[i], fk, update, ids, pkColumn, convert)
    ensures plan + Calls(call) == Plan(rows[..i + 1], fk, update, ids, pkColumn, convert)
    ensures before + plan + Calls(call) == before + (plan + Calls(call))
    ensures CountNew(plan + Calls(call)) == CountNew(plan) + CountNew(Calls(call))
    ensures CountExisting(plan + Calls(call)) == CountExisting(plan) + CountExisting(Calls(call))
  {
    PlanStep(rows, i, fk, update, ids, pkColumn, convert);
    CountsAppend(plan, Calls(call));
  }

  /** Every `storeRow` call is counted exactly once, as added or as updated. */
  lemma {:induction false} CountsCoverCalls(calls: seq<StoreCall>)
    ensures CountNew(calls) + CountExisting(calls) == |calls|
  {
    if calls != [] {
      CountsCoverCalls(calls[1..]);
    }
  }

  /** Counting distributes over concatenation. */
  lemma {:induction false} CountsAppend(calls: seq<StoreCall>, extra: seq<StoreCall>)
    ensures CountNew(calls + extra) == CountNew(calls) + CountNew(extra)
    ensures CountExisting(calls + extra) == CountExisting(calls) + CountExisting(extra)
  {
    if calls == [] {
      assert calls + extra == extra;
    } else {
      assert (calls + extra)[1..] == calls[1..] + extra;
      CountsAppend(calls[1..], extra);
    }
  }

  /** The counters as the rows alone determine them: `addedCount` is the
      number of unmatched rows whatever `update` is; `updateCount` is the
      number of matched rows when updating and 0 otherwise; and there is one
      `storeRow` call per row when updating, one per unmatched row otherwise. */
  lemma {:induction false} CountsByClassification(rows: seq<Row>, fk: string, update: bool, ids: map<string, string>,
                                                  pkColumn: string, convert: (string, Scalar) -> Scalar)
    ensures var plan := Plan(rows, fk, update, ids, pkColumn, convert);
            var unmatched := Unmatched(rows, fk, ids, convert);
            && CountNew(plan) == unmatched
            && CountExisting(plan) == (if update then |rows| - unmatched else 0)
            && |plan| == (if update then |rows| else unmatched)
  {
    if rows != [] {
      var init := rows[..|rows| - 1];
      CountsByClassification(init, fk, update, ids, pkColumn, convert);
      CountsAppend(Plan(init, fk, update, ids, pkColumn, convert),
                   Calls(Decide(rows[|rows| - 1], fk, update, ids, pkColumn, convert)));
    }
  }

  /** Each stored row carries its primary-key column set to the key it was
      stored with, and that key is "" or a key taken from the snapshot; with
      updates disallowed every call is an insert. */
  lemma {:induction false} StoredRowsCarryKey(rows: seq<Row>, fk: string, update: bool, ids: map<string, string>,
                                              pkColumn: string, convert: (string, Scalar) -> Scalar)
    ensures forall c :: c in Plan(rows, fk, update, ids, pkColumn, convert) ==>
              && pkColumn in c.row && c.row[pkColumn] == Str(c.pk)
              && (c.pk == "" || c.pk in ids.Values)
              && (!update ==> c.pk == "")
  {
    if rows != [] {
      StoredRowsCarryKey(rows[..|rows| - 1], fk, update, ids, pkColumn, convert);
    }
  }

  /** Re-running a batch once its rows all exist locally (every foreign key
      found in the snapshot) with updates allowed adds nothing and updates
      every row. */
  lemma RerunUpdatesEveryRow(rows: seq<Row>, fk: string, ids: map<string, string>,
                             pkColumn: string, convert: (string, Scalar) -> Scalar)
    requires forall i :: 0 <= i < |rows| ==> !IsNew(rows[i], fk, ids, convert)
    ensures CountNew(Plan(rows, fk, true, ids, pkColumn, convert)) == 0
    ensures CountExisting(Plan(rows, fk, true, ids, pkColumn, convert)) == |rows|
  {
    NoneNewMeansNoneUnmatched(rows, fk, ids, convert);
    CountsByClassification(rows, fk, true, ids, pkColumn, convert);
  }

  /** A batch in which no row is new has no unmatched row. */
  lemma {:induction false} NoneNewMeansNoneUnmatched(rows: seq<Row>, fk: string, ids: map<string, string>,
                                                    convert: (string, Scalar) -> Scalar)
    requires forall i :: 0 <= i < |rows| ==> !IsNew(rows[i], fk, ids, convert)
    ensures Unmatched(rows, fk, ids, convert) == 0
  {
    if rows != [] {
      NoneNewMeansNoneUnmatched(rows[..|rows| - 1], fk, ids, convert);
    }
  }

  /** A row whose foreign-key value the snapshot lacks is stored as new. */
  lemma UnknownKeyIsInsert(row: Row, fk: string, update: bool, ids: map<string, string>,
                           pkColumn: string, convert: (string, Scalar) -> Scalar)
    requires ArrayKey(FkValue(ConvertRow(row, convert), fk)) !in ids
    ensures Decide(row, fk, update, ids, pkColumn, convert)
            == Some(StoreCall(ConvertRow(row, convert)[pkColumn := Str("")], ""))
  {
  }

  /** The calls for a batch of two rows. */
  lemma PlanOfTwo(first: Row, second: Row, fk: string, update: bool, ids: map<string, string>,
                  pkColumn: string, convert: (string, Scalar) -> Scalar)
    ensures Plan([first, second], fk, update, ids, pkColumn, convert)
            == Calls(Decide(first, fk, update, ids, pkColumn, convert)) + Calls(Decide(second, fk, update, ids, pkColumn, convert))
  {
    assert [first, second][..1] == [first];
    assert [first][..0] == [];
    assert Plan([first], fk, update, ids, pkColumn, convert) == Calls(Decide(first, fk, update, ids, pkColumn, convert));
  }

  /** The snapshot is not refreshed inside the batch: two rows carrying the
      same foreign-key value that the snapshot lacks are both stored as new
      rows and both counted as added. */
  lemma SameNewKeyAddedTwice(first: Row, second: Row, fk: string, update: bool, ids: map<string, string>,
                             pkColumn: string, convert: (string, Scalar) -> Scalar)
    requires FkValue(ConvertRow(first, convert), fk) == FkValue(ConvertRow(second, convert), fk)
    requires ArrayKey(FkValue(ConvertRow(first, convert), fk)) !in ids
    ensures var plan := Plan([first, second], fk, update, ids, pkColumn, convert);
            |plan| == 2 && plan[0].pk == "" && plan[1].pk == "" && CountNew(plan) == 2
  {
    UnknownKeyIsInsert(first, fk, update, ids, pkColumn, convert);
    UnknownKeyIsInsert(second, fk, update, ids, pkColumn, convert);
    PlanOfTwo(first, second, fk, update, ids, pkColumn, convert);
    var c1 := StoreCall(ConvertRow(first, convert)[pkColumn := Str("")], "");
    var c2 := StoreCall(ConvertRow(second, convert)[pkColumn := Str("")], "");
    assert Plan([first, second], fk, update, ids, pkColumn, convert) == [c1, c2];
    assert [c1, c2][1..] == [c2] && [c2][1..] == [];
    assert CountNew([c2]) == 1;
  }
}
