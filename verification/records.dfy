/** The rows the RDW open-data endpoints return and the recall scan both versions of
    `RDWEntity.async_update` run over the recall rows. */
module Records {
  import opened Wrappers
  import opened Ascii
  import opened Const

  /** One JSON object of a Socrata result: field name to text. */
  type Record = map<string, string>

  /** The outcome of one `client.get` call: it raised, or it returned a decoded JSON body
      (`None` for a JSON `null`). */
  datatype Fetch = FetchFailed | Fetched(data: Option<seq<Record>>)

  const CODE_STATUS := "code_status"
  const REFERENCE := "referentiecode_rdw"

  /** `RESOURCE_RECALLINFO.format(ref)`. */
  function RecallUrl(ref: string): (url: string)
    ensures StartsWith(url, RECALL_INFO_PREFIX)
    ensures url[|RECALL_INFO_PREFIX|..] == ref
  {
    RECALL_INFO_PREFIX + ref
  }

  /** The scan can read this row: it has a status, and a reference unless the status is `'P'`. */
  predicate WellFormed(row: Record) {
    CODE_STATUS in row && (row[CODE_STATUS] != "P" ==> REFERENCE in row)
  }

  /** A recall that still counts: its status is not `'P'`. */
  predicate Opens(row: Record) {
    CODE_STATUS in row && row[CODE_STATUS] != "P" && REFERENCE in row
  }

  /** The attribute key of a recall: its reference in lower case. */
  function RecallKey(row: Record): string
    requires REFERENCE in row
  {
    Lower(row[REFERENCE])
  }

  /** The keys the open recalls among `rows` contribute. */
  function OpenKeys(rows: seq<Record>): set<string> {
    set i | 0 <= i < |rows| && Opens(rows[i]) :: RecallKey(rows[i])
  }

  /** The open recalls among `rows`, in order. */
  function OpenRows(rows: seq<Record>): (r: seq<Record>)
    ensures |r| <= |rows|
    ensures forall i :: 0 <= i < |r| ==> Opens(r[i])
  {
    if rows == [] then []
    else
      var prev := OpenRows(rows[..|rows| - 1]);
      if Opens(rows[|rows| - 1]) then prev + [rows[|rows| - 1]] else prev
  }

  /** The state of the scan: the attributes collected so far, and the key whose absence
      raised `KeyError` and stopped it. */
  datatype Scan = Scan(attrs: map<string, string>, missing: Option<string>)

  /** The loop `for recall in recalldata: if recall['code_status'] != 'P':
      attrs[ref.lower()] = RESOURCE_RECALLINFO.format(ref)`, run from empty attributes.
      A missing field raises `KeyError` and leaves the attributes collected before it. */
  function ScanRecalls(rows: seq<Record>): (r: Scan)
    ensures r.missing.None? <==> forall i :: 0 <= i < |rows| ==> WellFormed(rows[i])
    ensures r.missing.Some? ==> r.missing.value == CODE_STATUS || r.missing.value == REFERENCE
  {
    if rows == [] then Scan(map[], None)
    else
      var init := rows[..|rows| - 1];
      var prev := ScanRecalls(init);
      var row := rows[|rows| - 1];
      assert forall i :: 0 <= i < |init| ==> rows[i] == init[i];
      if prev.missing.Some? then prev
      else if CODE_STATUS !in row then Scan(prev.attrs, Some(CODE_STATUS))
      else if row[CODE_STATUS] == "P" then prev
      else if REFERENCE !in row then Scan(prev.attrs, Some(REFERENCE))
      else Scan(prev.attrs[RecallKey(row) := RecallUrl(row[REFERENCE])], None)
  }

  lemma OpenKeysSnoc(rows: seq<Record>, row: Record)
    ensures OpenKeys(rows + [row]) == OpenKeys(rows) + (if Opens(row) then {RecallKey(row)} else {})
  {
    var all := rows + [row];
    assert forall i :: 0 <= i < |rows| ==> all[i] == rows[i];
    assert all[|rows|] == row;
  }

  /** When the scan completes, its keys are exactly the lower-cased references of the rows
      whose status is not `'P'`. */
  lemma {:induction false} ScanKeys(rows: seq<Record>)
    requires ScanRecalls(rows).missing.None?
    ensures ScanRecalls(rows).attrs.Keys == OpenKeys(rows)
  {
    if rows != [] {
      var init := rows[..|rows| - 1];
      var row := rows[|rows| - 1];
      assert init + [row] == rows;
      ScanKeys(init);
      OpenKeysSnoc(init, row);
    }
  }

  /** Every attribute links a key to the recall page of an open row with that key, written
      with the row's reference in its original case. */
  lemma {:induction false} ScanValues(rows: seq<Record>)
    ensures forall k :: k in ScanRecalls(rows).attrs ==>
      exists i :: 0 <= i < |rows| && Opens(rows[i]) && RecallKey(rows[i]) == k
                  && ScanRecalls(rows).attrs[k] == RecallUrl(rows[i][REFERENCE])
  {
    if rows != [] {
      var init := rows[..|rows| - 1];
      var row := rows[|rows| - 1];
      ScanValues(init);
      assert forall i :: 0 <= i < |init| ==> rows[i] == init[i];
      var r := ScanRecalls(rows);
      forall k | k in r.attrs
        ensures exists i :: 0 <= i < |rows| && Opens(rows[i]) && RecallKey(rows[i]) == k
                            && r.attrs[k] == RecallUrl(rows[i][REFERENCE])
      {
        if r.attrs == ScanRecalls(init).attrs {
          var i :| 0 <= i < |init| && Opens(init[i]) && RecallKey(init[i]) == k
                   && ScanRecalls(init).attrs[k] == RecallUrl(init[i][REFERENCE]);
          assert rows[i] == init[i];
        } else if k == RecallKey(row) {
          assert rows[|rows| - 1] == row;
        } else {
          var i :| 0 <= i < |init| && Opens(init[i]) && RecallKey(init[i]) == k
                   && ScanRecalls(init).attrs[k] == RecallUrl(init[i][REFERENCE]);
          assert rows[i] == init[i];
        }
      }
    }
  }

  /** Row `i` is the last open row among `rows` whose key is `k`. */
  predicate LastWithKey(rows: seq<Record>, i: int, k: string) {
    && 0 <= i < |rows| && Opens(rows[i]) && RecallKey(rows[i]) == k
    && forall j :: i < j < |rows| && Opens(rows[j]) ==> RecallKey(rows[j]) != k
  }

  /** A completed scan is the completed scan of all rows but the last, with the last row's
      link stored when it is open. */
  lemma ScanSnoc(rows: seq<Record>)
    requires rows != [] && ScanRecalls(rows).missing.None?
    ensures var init := rows[..|rows| - 1];
            var row := rows[|rows| - 1];
      && ScanRecalls(init).missing.None?
      && ScanRecalls(rows).attrs == if Opens(row) then ScanRecalls(init).attrs[RecallKey(row) := RecallUrl(row[REFERENCE])]
                                    else ScanRecalls(init).attrs
  {
  }

  /** The last open row with key `k` stays the last one when a row with another key, or a
      closed row, is appended. */
  lemma LastWithKeySnoc(rows: seq<Record>, i: int, k: string)
    requires rows != [] && LastWithKey(rows[..|rows| - 1], i, k)
    requires !(Opens(rows[|rows| - 1]) && RecallKey(rows[|rows| - 1]) == k)
    ensures LastWithKey(rows, i, k) && rows[i] == rows[..|rows| - 1][i]
  {
    var init := rows[..|rows| - 1];
    forall j | i < j < |rows| && Opens(rows[j])
      ensures RecallKey(rows[j]) != k
    {
      if j < |init| { assert rows[j] == init[j]; }
    }
  }

  /** When the scan completes, the link kept under a key is the one of the last open row with
      that key: a later row with the same key overwrites an earlier one. */
  lemma {:induction false} ScanLastWins(rows: seq<Record>)
    requires ScanRecalls(rows).missing.None?
    ensures forall k :: k in ScanRecalls(rows).attrs ==>
      exists i :: LastWithKey(rows, i, k) && ScanRecalls(rows).attrs[k] == RecallUrl(rows[i][REFERENCE])
  {
    if rows != [] {
      var init := rows[..|rows| - 1];
      var row := rows[|rows| - 1];
      var prev := ScanRecalls(init);
      var r := ScanRecalls(rows);
      ScanSnoc(rows);
      ScanLastWins(init);
      forall k | k in r.attrs
        ensures exists i :: LastWithKey(rows, i, k) && r.attrs[k] == RecallUrl(rows[i][REFERENCE])
      {
        if Opens(row) && k == RecallKey(row) {
          assert LastWithKey(rows, |rows| - 1, k);
        } else {
          assert k in prev.attrs && r.attrs[k] == prev.attrs[k];
          var i :| LastWithKey(init, i, k) && prev.attrs[k] == RecallUrl(init[i][REFERENCE]);
          LastWithKeySnoc(rows, i, k);
        }
      }
    }
  }

  /** Duplicates collapse, so there are never more attributes than open rows. */
  lemma {:induction false} ScanCount(rows: seq<Record>)
    ensures |ScanRecalls(rows).attrs| <= |OpenRows(rows)|
  {
    if rows != [] {
      var init := rows[..|rows| - 1];
      var row := rows[|rows| - 1];
      ScanCount(init);
      var prev := ScanRecalls(init).attrs;
      if ScanRecalls(rows).attrs != prev {
        var k := RecallKey(row);
        assert ScanRecalls(rows).attrs.Keys == prev.Keys + {k};
        assert |prev.Keys + {k}| <= |prev.Keys| + 1;
      }
    }
  }

  /** Rows with status `'P'` contribute nothing: scanning only the open rows gives the same
      result. */
  lemma {:induction false} ClosedRowsIgnored(rows: seq<Record>)
    requires forall i :: 0 <= i < |rows| ==> WellFormed(rows[i])
    ensures ScanRecalls(rows) == ScanRecalls(OpenRows(rows))
  {
    if rows != [] {
      var init := rows[..|rows| - 1];
      var row := rows[|rows| - 1];
      assert forall i :: 0 <= i < |init| ==> init[i] == rows[i];
      ClosedRowsIgnored(init);
      var open := OpenRows(init);
      if Opens(row) {
        var ext := open + [row];
        assert ext[..|ext| - 1] == open;
        assert ext[|ext| - 1] == row;
        assert forall i :: 0 <= i < |open| ==> WellFormed(open[i]);
      }
    }
  }
}
