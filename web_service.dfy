/** A web-service object and the list it stores into. The service keeps its
    construction options, its field map (set by `SetMap`) and the two
    counters `storeLocally` leaves behind. */
module WebServices {
  import opened Wrappers
  import opened Php
  import opened FieldMap
  import opened Reconcile

  /** The parts of a Fabrik list that `storeLocally` uses: the short name of
      its primary-key column, the per-element `fromXMLFormat` conversion, and
      the log of `storeRow` calls made on it. */
  class ListModel {
    const primaryKey: string
    const convert: (string, Scalar) -> Scalar
    var stored: seq<StoreCall>

    constructor (primaryKey: string, convert: (string, Scalar) -> Scalar)
      ensures this.primaryKey == primaryKey && this.convert == convert
      ensures stored == []
    {
      this.primaryKey := primaryKey;
      this.convert := convert;
      stored := [];
    }

    /** `storeRow($row, $pk)`: inserts when `pk` is "", updates otherwise. */
    method StoreRow(row: Row, pk: string)
      modifies this`stored
      ensures stored == old(stored) + [StoreCall(row, pk)]
    {
      stored := stored + [StoreCall(row, pk)];
    }
  }

  class WebService {
    const options: PhpArray
    var rules: seq<Rule>
    var addedCount: nat
    var updateCount: nat

    constructor (options: PhpArray)
      ensures this.options == options
      ensures rules == [] && addedCount == 0 && updateCount == 0
    {
      this.options := options;
      rules := [];
      addedCount, updateCount := 0, 0;
    }

    /** `setMap`: replaces the field map. */
    method SetMap(serviceMap: seq<Rule>)
      modifies this`rules
      ensures rules == serviceMap
    {
      rules := serviceMap;
    }

    /** `map`: one row per record, in order, each built by running every rule
        of the field map in declared order. */
    method Map(datas: seq<Payload>, host: Host) returns (ret: seq<Row>)
      ensures ret == MapAll(rules, datas, host)
    {
      ret := [];
      var i := 0;
      while i < |datas|
        invariant 0 <= i <= |datas|
        invariant ret == MapAll(rules, datas[..i], host)
      {
        var data := datas[i];
        var row: Row := map[];
        var j := 0;
        while j < |rules|
          invariant 0 <= j <= |rules|
          invariant row == MapRecord(rules[..j], data, host)
        {
          row := ApplyRule(row, rules[j], data, host);
          assert rules[..j + 1][..j] == rules[..j];
          j := j + 1;
        }
        assert rules[..j] == rules;
        assert datas[..i + 1][..i] == datas[..i];
        ret := ret + [row];
        i := i + 1;
      }
      assert datas[..i] == datas;
    }

    /** `storeLocally`: maps the batch, resets both counters, then for each
        row converts its fields, looks its foreign key up in the snapshot
        `ids` taken before the loop, skips it when it matched and updates are
        off, and otherwise counts it and stores it with its primary key. */
    method StoreLocally(listModel: ListModel, datas: seq<Payload>, fk: string, update: bool,
                        ids: map<string, string>, host: Host)
      modifies this`addedCount, this`updateCount, listModel`stored
      ensures var plan := Plan(MapAll(rules, datas, host), fk, update, ids, listModel.primaryKey, listModel.convert);
              && listModel.stored == old(listModel.stored) + plan
              && addedCount == CountNew(plan)
              && updateCount == CountExisting(plan)
    {
      var data := Map(datas, host);
      StoreRows(listModel, data, fk, update, ids);
    }

    /** The part of `storeLocally` after mapping: resets both counters and
        runs the classification loop over the mapped rows. */
    method StoreRows(listModel: ListModel, data: seq<Row>, fk: string, update: bool, ids: map<string, string>)
      modifies this`addedCount, this`updateCount, listModel`stored
      ensures var plan := Plan(data, fk, update, ids, listModel.primaryKey, listModel.convert);
              && listModel.stored == old(listModel.stored) + plan
              && addedCount == CountNew(plan)
              && updateCount == CountExisting(plan)
    {
      updateCount := 0;
      addedCount := 0;
      ghost var before := listModel.stored;
      ghost var plan: seq<StoreCall> := [];
      var i := 0;
      while i < |data|
        invariant 0 <= i <= |data|
        invariant plan == Plan(data[..i], fk, update, ids, listModel.primaryKey, listModel.convert)
        invariant listModel.stored == before + plan
        invariant addedCount == CountNew(plan) && updateCount == CountExisting(plan)
      {
        var call := StoreOne(listModel, data[i], fk, update, ids);
        Advance(data, i, fk, update, ids, listModel.primaryKey, listModel.convert, before, plan, call);
        plan := plan + Calls(call);
        i := i + 1;
      }
      assert data[..i] == data;
    }

    /** One pass of the `storeLocally` loop: converts the row's fields, finds
        its primary key in the snapshot, and either skips the row (None) or
        counts it and makes the `storeRow` call it returns. */
    method StoreOne(listModel: ListModel, data: Row, fk: string, update: bool, ids: map<string, string>)
      returns (call: Option<StoreCall>)
      modifies this`addedCount, this`updateCount, listModel`stored
      ensures call == Decide(data, fk, update, ids, listModel.primaryKey, listModel.convert)
      ensures listModel.stored == old(listModel.stored) + Calls(call)
      ensures addedCount == old(addedCount) + CountNew(Calls(call))
      ensures updateCount == old(updateCount) + CountExisting(Calls(call))
    {
      var row := ConvertFields(data, listModel.convert);
      var pk := "";
      var v := if fk in row then row[fk] else Null;
      if ArrayKey(v) in ids && !LooseEqualsEmpty(v) {
        pk := ids[ArrayKey(v)];
      }
      DecideUnfold(data, fk, update, ids, listModel.primaryKey, listModel.convert, row, pk);
      if !update && pk != "" {
        call := None;
      } else {
        if pk == "" {
          addedCount := addedCount + 1;
        } else {
          updateCount := updateCount + 1;
        }
        row := row[listModel.primaryKey := Str(pk)];
        listModel.StoreRow(row, pk);
        call := Some(StoreCall(row, pk));
        assert [StoreCall(row, pk)][..0] == [];
      }
    }
  }
}
