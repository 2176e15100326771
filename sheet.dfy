/** The spreadsheet boundary. Decoding the workbook is the XLSX library's job
    and is not modelled: what reaches the pipeline is either no file, a decode
    failure, or the first sheet's rows, each a map from column header to cell. */
module Sheet {
  import opened Types

  /** One row as `sheet_to_json` yields it: header -> cell text. */
  type Row = map<string, string>

  /** What reading the selected file produced. */
  datatype FileRead =
    | NoFile                    // the file input had no file
    | Unreadable                // `XLSX.read` / `sheet_to_json` threw
    | Rows(rows: seq<Row>)      // the first sheet, row by row

  /** `row[key]` is truthy: present and not the empty string. */
  predicate Truthy(row: Row, key: string) {
    key in row && row[key] != ""
  }

  /** `row[a0] || row[a1] || ...`: the cell of the first alias whose cell is
      truthy, or `None` when no alias is. */
  function FirstTruthy(row: Row, aliases: seq<string>): Option<string> {
    if aliases == [] then None
    else if Truthy(row, aliases[0]) then Some(row[aliases[0]])
    else FirstTruthy(row, aliases[1..])
  }

  /** The alias lookup returns nothing exactly when no alias is truthy, and
      otherwise the cell of a truthy alias with no truthy alias before it. */
  lemma {:induction false} FirstTruthySpec(row: Row, aliases: seq<string>)
    ensures FirstTruthy(row, aliases).None? <==> forall i :: 0 <= i < |aliases| ==> !Truthy(row, aliases[i])
    ensures FirstTruthy(row, aliases).Some? ==>
      exists i :: 0 <= i < |aliases| && Truthy(row, aliases[i])
        && FirstTruthy(row, aliases).value == row[aliases[i]]
        && forall j :: 0 <= j < i ==> !Truthy(row, aliases[j])
  {
    if aliases != [] && !Truthy(row, aliases[0]) {
      FirstTruthySpec(row, aliases[1..]);
      assert forall i :: 1 <= i < |aliases| ==> aliases[i] == aliases[1..][i - 1];
      if FirstTruthy(row, aliases).Some? {
        var i :| 0 <= i < |aliases[1..]| && Truthy(row, aliases[1..][i])
          && FirstTruthy(row, aliases[1..]).value == row[aliases[1..][i]]
          && forall j :: 0 <= j < i ==> !Truthy(row, aliases[1..][j]);
        assert Truthy(row, aliases[i + 1]);
      }
    }
  }

  /** Alias `k` is the first truthy one: its cell is truthy and no earlier
      alias's cell is. */
  predicate FirstTruthyAt(row: Row, aliases: seq<string>, k: int) {
    0 <= k < |aliases| && Truthy(row, aliases[k])
      && forall j :: 0 <= j < k ==> !Truthy(row, aliases[j])
  }

  /** The lookup returns the cell of the first truthy alias, whichever it is. */
  lemma FirstTruthyPicks(row: Row, aliases: seq<string>, k: int)
    requires FirstTruthyAt(row, aliases, k)
    ensures FirstTruthy(row, aliases) == Some(row[aliases[k]])
  {
    FirstTruthySpec(row, aliases);
    var i :| 0 <= i < |aliases| && Truthy(row, aliases[i])
      && FirstTruthy(row, aliases).value == row[aliases[i]]
      && forall j :: 0 <= j < i ==> !Truthy(row, aliases[j]);
    assert !(i < k) && !(k < i);
  }
}
