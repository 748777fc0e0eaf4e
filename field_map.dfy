/** The rule-driven field mapper: each external record is turned into one
    local row by running the configured rules in their declared order. */
module FieldMap {
  import opened Wrappers
  import opened Php

  /** An external record as a driver returns it: a scalar, an object with
      named fields, or a list. */
  datatype Payload = Value(v: Scalar) | Object(fields: map<string, Payload>) | List(items: seq<Payload>)

  /** A local row: field name to value. */
  type Row = map<string, Scalar>

  /** One entry of the service map. `matchText` is the entry's `match`, ""
      when the entry has none; `isEval` is its `eval` flag; `value` is what a
      literal match writes (null when the entry has no `value`). */
  datatype Rule = Rule(from: string, to: string, value: Scalar, matchText: string, isEval: bool)

  /** The PHP the mapper calls but whose code is not part of this model:
      `resolve` is the placeholder substitution of a `from` template against a
      record, `evaluate` runs an `eval` rule's code against a record and gives
      None exactly when that code returns `false`. */
  datatype Host = Host(resolve: (string, Payload) -> string, evaluate: (string, Payload) -> Option<Scalar>)

  /** What `rule` writes into `row[rule.to]` for record `rec`, or None when the
      rule leaves the row alone. */
  function Written(rule: Rule, rec: Payload, host: Host): Option<Scalar>
  {
    var from := host.resolve(rule.from, rec);
    if rule.matchText == "" then Some(Str(from))
    else if rule.isEval then host.evaluate(rule.matchText, rec)
    else if rule.matchText == from then Some(rule.value)
    else None
  }

  /** A rule writes `k` for `rec` when it targets `k` and is not gated off. */
  predicate WritesTo(rule: Rule, rec: Payload, host: Host, k: string)
  {
    rule.to == k && Written(rule, rec, host).Some?
  }

  /** One step of the inner loop: the row after one rule has run. Only the
      rule's target can change, and it changes only when the rule writes. */
  function ApplyRule(row: Row, rule: Rule, rec: Payload, host: Host): (r: Row)
    ensures forall k :: k != rule.to ==> (k in r <==> k in row)
    ensures forall k :: k in row && k != rule.to ==> r[k] == row[k]
    ensures rule.matchText == "" ==> rule.to in r && r[rule.to] == Str(host.resolve(rule.from, rec))
    ensures rule.matchText != "" && !rule.isEval ==>
              r == (if rule.matchText == host.resolve(rule.from, rec) then row[rule.to := rule.value] else row)
    ensures rule.matchText != "" && rule.isEval && host.evaluate(rule.matchText, rec).None? ==> r == row
    ensures rule.matchText != "" && rule.isEval && host.evaluate(rule.matchText, rec).Some? ==>
              r == row[rule.to := host.evaluate(rule.matchText, rec).value]
  {
    match Written(rule, rec, host)
    case Some(v) => row[rule.to := v]
    case None => row
  }

  /** The row built for one record by running `rules` in order, starting
      from an empty row. */
  function MapRecord(rules: seq<Rule>, rec: Payload, host: Host): Row
    decreases |rules|
  {
    if rules == [] then map[]
    else ApplyRule(MapRecord(rules[..|rules| - 1], rec, host), rules[|rules| - 1], rec, host)
  }

  /** The mapped batch: one row per record, in input order, each built from
      its own record only. */
  function MapAll(rules: seq<Rule>, records: seq<Payload>, host: Host): (rows: seq<Row>)
    ensures |rows| == |records|
    ensures forall i :: 0 <= i < |records| ==> rows[i] == MapRecord(rules, records[i], host)
    decreases |records|
  {
    if records == [] then []
    else MapAll(rules, records[..|records| - 1], host) + [MapRecord(rules, records[|records| - 1], host)]
  }

  /** A key is in the row exactly when some rule writes it: keys that no
      rule writes stay absent. */
  lemma {:induction false} WrittenKeys(rules: seq<Rule>, rec: Payload, host: Host, k: string)
    ensures k in MapRecord(rules, rec, host) <==> exists i :: 0 <= i < |rules| && WritesTo(rules[i], rec, host, k)
  {
    if rules != [] {
      var n := |rules| - 1;
      var init := rules[..n];
      WrittenKeys(init, rec, host, k);
      if !WritesTo(rules[n], rec, host, k) {
        if k in MapRecord(rules, rec, host) {
          var i :| 0 <= i < n && WritesTo(init[i], rec, host, k);
          assert init[i] == rules[i];
        } else {
          forall i | 0 <= i < |rules| ensures !WritesTo(rules[i], rec, host, k) {
            if i < n { assert init[i] == rules[i]; }
          }
        }
      }
    }
  }

  /** Last write wins: when rule `i` writes key `k` and no later rule does,
      the row holds what rule `i` wrote. */
  lemma {:induction false} LastWriteWins(rules: seq<Rule>, rec: Payload, host: Host, k: string, i: nat)
    requires i < |rules| && WritesTo(rules[i], rec, host, k)
    requires forall j :: i < j < |rules| ==> !WritesTo(rules[j], rec, host, k)
    ensures k in MapRecord(rules, rec, host)
    ensures MapRecord(rules, rec, host)[k] == Written(rules[i], rec, host).value
  {
    var n := |rules| - 1;
    if i < n {
      var init := rules[..n];
      assert init[i] == rules[i];
      LastWriteWins(init, rec, host, k, i);
    }
  }

  /** A rule that writes its target decides it, whatever the rules before it
      wrote there (earlier rules for the same target included), provided no
      rule after it writes that target. */
  lemma LaterRuleOverrides(before: seq<Rule>, rule: Rule, after: seq<Rule>, rec: Payload, host: Host)
    requires Written(rule, rec, host).Some?
    requires forall j :: 0 <= j < |after| ==> !WritesTo(after[j], rec, host, rule.to)
    ensures rule.to in MapRecord(before + [rule] + after, rec, host)
    ensures MapRecord(before + [rule] + after, rec, host)[rule.to] == Written(rule, rec, host).value
  {
    NoWriteInSuffix(before + [rule], after, rec, host, rule.to);
    assert (before + [rule] + after)[|before|] == rule;
    LastWriteWins(before + [rule] + after, rec, host, rule.to, |before|);
  }

  /** Rules that do not write `k` do not write it after a prefix either. */
  lemma NoWriteInSuffix(pre: seq<Rule>, after: seq<Rule>, rec: Payload, host: Host, k: string)
    requires forall j :: 0 <= j < |after| ==> !WritesTo(after[j], rec, host, k)
    ensures forall j :: |pre| <= j < |pre + after| ==> !WritesTo((pre + after)[j], rec, host, k)
  {
    forall j | |pre| <= j < |pre + after|
      ensures !WritesTo((pre + after)[j], rec, host, k)
    {
      assert (pre + after)[j] == after[j - |pre|];
    }
  }
}
