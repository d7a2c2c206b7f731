/**
 * The worksheet of members. Row 1 is the header; every other row is
 * `[telegram_id, username, full_name, paid, expiry_date]` as text. Rows are
 * numbered from 1, as the sheet numbers them.
 */
module Store {

  import opened Wrappers
  import opened Text

  /** What `read_user` returns: the five columns of a row, `paid` in lower case. */
  datatype User = User(telegramId: string, username: string, fullName: string, paid: string, expiryDate: string)

  /** Cell `c` (0-based) of a row; a column the row does not reach reads as "". */
  function Cell(row: seq<string>, c: nat): string
  {
    if c < |row| then row[c] else ""
  }

  /** `worksheet.row_values(k)`: a row past the last one has no values. */
  function RowValues(rows: seq<seq<string>>, k: nat): seq<string>
    requires 1 <= k
  {
    if k <= |rows| then rows[k - 1] else []
  }

  /** The user a row describes, column by column. */
  function UserOf(row: seq<string>): User
  {
    User(Cell(row, 0), Cell(row, 1), Cell(row, 2), Lower(Cell(row, 3)), Cell(row, 4))
  }

  /** `val.strip() == key` for the first cell of the row. */
  predicate Matches(row: seq<string>, key: string)
  {
    Strip(Cell(row, 0)) == key
  }

  /** The 1-based number of the first row whose first cell, stripped, is `key`. */
  function FirstMatch(rows: seq<seq<string>>, key: string): Option<nat>
  {
    if rows == [] then None
    else if Matches(rows[0], key) then Some(1)
    else match FirstMatch(rows[1..], key)
      case None => None
      case Some(k) => Some(k + 1)
  }

  /** A 1-based row number found in a suffix, renumbered for the whole sheet. */
  function Shift(r: Option<nat>, offset: nat): Option<nat>
  {
    match r case None => None case Some(k) => Some(k + offset)
  }

  /** What the handlers see for a member: `read_user(find_row_by_telegram_id(tg_id))`, or nothing. */
  function LookupUser(rows: seq<seq<string>>, tgId: int): Option<User>
  {
    match FirstMatch(rows, IntToString(tgId))
    case None => None
    case Some(k) => Some(UserOf(RowValues(rows, k)))
  }

  /** The column `update_user_fields` writes for a field name, if it knows the name. */
  function ColumnOf(key: string): Option<nat>
  {
    if key == "telegram_id" then Some(0)
    else if key == "username" then Some(1)
    else if key == "full_name" then Some(2)
    else if key == "paid" then Some(3)
    else if key == "expiry_date" then Some(4)
    else None
  }

  /** The value the last pair of `fields` naming column `c` gives it. */
  function FieldValue(fields: seq<(string, string)>, c: nat): Option<string>
  {
    if fields == [] then None
    else if ColumnOf(fields[|fields| - 1].0) == Some(c) then Some(fields[|fields| - 1].1)
    else FieldValue(fields[..|fields| - 1], c)
  }

  /** Columns A to E of a row after `update_user_fields(row, fields)`; later cells unchanged. */
  function UpdatedRow(row: seq<string>, fields: seq<(string, string)>): (r: seq<string>)
    ensures |r| == if |row| > 5 then |row| else 5
    ensures forall c :: 5 <= c < |row| ==> r[c] == row[c]
  {
    seq(5, c requires 0 <= c < 5 =>
          match FieldValue(fields, c) case Some(v) => v case None => Cell(row, c))
    + (if |row| > 5 then row[5..] else [])
  }

  /**
   * The list `update_user_fields` sends for the range A to E as written:
   * the row padded with five empty cells, the mapped cells replaced.
   */
  function UpdatePayload(row: seq<string>, fields: seq<(string, string)>): seq<string>
  {
    seq(|row| + 5, i requires 0 <= i < |row| + 5 =>
          if i < 5 && FieldValue(fields, i).Some? then FieldValue(fields, i).value
          else (row + ["", "", "", "", ""])[i])
  }

  /**
   * The rows after writing `r` as row `k`: a row past the last one extends
   * the sheet, with empty rows in between.
   */
  function WriteRow(rows: seq<seq<string>>, k: nat, r: seq<string>): (w: seq<seq<string>>)
    requires 1 <= k
    ensures |w| == if k <= |rows| then |rows| else k
    ensures w[k - 1] == r
    ensures forall i :: 0 <= i < |rows| && i != k - 1 ==> w[i] == rows[i]
    ensures forall i :: |rows| <= i < k - 1 ==> w[i] == []
  {
    if k <= |rows| then rows[k - 1 := r] else rows + seq(k - 1 - |rows|, _ => []) + [r]
  }

  /** The row `add_user_record(tg_id, username, full_name)` appends. */
  function NewRecord(tgId: int, username: Option<string>, fullName: Option<string>): seq<string>
  {
    [IntToString(tgId), OrEmpty(username), OrEmpty(fullName), "no", ""]
  }

  /** Python's `x or ""` for an optional string. */
  function OrEmpty(x: Option<string>): string
  {
    match x case Some(s) => s case None => ""
  }

  class Sheet {

    var rows: seq<seq<string>>

    constructor (initial: seq<seq<string>>)
      ensures rows == initial
    {
      rows := initial;
    }

    /** `find_row_by_telegram_id(tg_id)`. */
    method FindRowByTelegramId(tgId: int) returns (r: Option<nat>)
      ensures r == FirstMatch(rows, IntToString(tgId))
    {
      var key := IntToString(tgId);
      var idx := 0;
      while idx < |rows|
        invariant 0 <= idx <= |rows|
        invariant FirstMatch(rows, key) == Shift(FirstMatch(rows[idx..], key), idx)
      {
        assert rows[idx..][0] == rows[idx] && rows[idx..][1..] == rows[idx + 1..];
        if Strip(Cell(rows[idx], 0)) == key {
          return Some(idx + 1);
        }
        idx := idx + 1;
      }
      return None;
    }

    /** `read_user(row)`: pads the row with five empty cells and reads the columns. */
    method ReadUser(row: nat) returns (u: User)
      requires 1 <= row
      ensures u == UserOf(RowValues(rows, row))
    {
      var vals := RowValues(rows, row) + ["", "", "", "", ""];
      u := User(vals[0], vals[1], vals[2], Lower(vals[3]), vals[4]);
    }

    /**
     * `update_user_fields(row, fields)`, with the dictionary's items in
     * order: pads the row and overwrites the mapped columns, then writes
     * the first five values to A to E, which is what the range names (the
     * source sends the whole padded list; see `UpdatePayloadOverflows`).
     * A row past the last one reads as empty and the write extends the sheet.
     */
    method UpdateUserFields(row: nat, fields: seq<(string, string)>)
      requires 1 <= row
      modifies this
      ensures rows == WriteRow(old(rows), row, UpdatedRow(RowValues(old(rows), row), fields))
    {
      var before := RowValues(rows, row);
      var current := before + ["", "", "", "", ""];
      var i := 0;
      while i < |fields|
        invariant 0 <= i <= |fields|
        invariant |current| == |before| + 5
        invariant forall c :: 0 <= c < 5 ==>
          current[c] == match FieldValue(fields[..i], c) case Some(v) => v case None => Cell(before, c)
        invariant forall c :: 5 <= c < |current| ==> current[c] == (before + ["", "", "", "", ""])[c]
      {
        assert fields[..i + 1][..i] == fields[..i];
        var col := ColumnOf(fields[i].0);
        if col.Some? {
          current := current[col.value := fields[i].1];
        }
        i := i + 1;
      }
      assert fields[..|fields|] == fields;
      var written := current[..5] + (if |before| > 5 then before[5..] else []);
      assert written == UpdatedRow(before, fields);
      rows := WriteRow(rows, row, written);
    }

    /** `add_user_record(tg_id, username, full_name)`. */
    method AddUserRecord(tgId: int, username: Option<string>, fullName: Option<string>)
      modifies this
      ensures rows == old(rows) + [NewRecord(tgId, username, fullName)]
    {
      rows := rows + [[IntToString(tgId), OrEmpty(username), OrEmpty(fullName), "no", ""]];
    }
  }

  /**
   * The payload holds five more values than the row, so for any row with a
   * value it does not fit the five cells A to E; its first five values are
   * the columns the model writes.
   */
  lemma UpdatePayloadOverflows(row: seq<string>, fields: seq<(string, string)>)
    ensures |UpdatePayload(row, fields)| == |row| + 5
    ensures row != [] ==> |UpdatePayload(row, fields)| > 5
    ensures UpdatePayload(row, fields)[..5] == UpdatedRow(row, fields)[..5]
  {
    var p, u := UpdatePayload(row, fields), UpdatedRow(row, fields);
    forall c | 0 <= c < 5
      ensures p[c] == u[c]
    {
      assert Cell(row, c) == (row + ["", "", "", "", ""])[c];
    }
  }

  /** `read_user` yields every column, "" for each one the row does not reach, and `paid` lowered. */
  lemma UserOfColumns(row: seq<string>)
    ensures |row| <= 4 ==> UserOf(row).expiryDate == ""
    ensures |row| <= 3 ==> UserOf(row).paid == ""
    ensures |row| <= 2 ==> UserOf(row).fullName == ""
    ensures |row| <= 1 ==> UserOf(row).username == ""
    ensures |row| == 0 ==> UserOf(row).telegramId == ""
    ensures |row| >= 5 ==> UserOf(row).expiryDate == row[4] && UserOf(row).telegramId == row[0]
    ensures UserOf(row).paid == "yes" <==>
      |Cell(row, 3)| == 3 && Cell(row, 3)[0] in "yY" && Cell(row, 3)[1] in "eE" && Cell(row, 3)[2] in "sS"
  {
    LowerIsYes(Cell(row, 3));
  }

  /** A column no pair of `fields` names keeps its old cell. */
  lemma {:induction false} UpdateKeepsUnnamedColumns(row: seq<string>, fields: seq<(string, string)>, c: nat)
    requires c < 5
    requires forall j :: 0 <= j < |fields| ==> ColumnOf(fields[j].0) != Some(c)
    ensures UpdatedRow(row, fields)[c] == Cell(row, c)
  {
    FieldValueUnnamed(fields, c);
  }

  lemma {:induction false} FieldValueUnnamed(fields: seq<(string, string)>, c: nat)
    requires forall j :: 0 <= j < |fields| ==> ColumnOf(fields[j].0) != Some(c)
    ensures FieldValue(fields, c) == None
  {
    if fields != [] {
      FieldValueUnnamed(fields[..|fields| - 1], c);
    }
  }

  lemma {:induction false} FieldValueLastNaming(fields: seq<(string, string)>, j: nat)
    requires j < |fields| && ColumnOf(fields[j].0).Some?
    requires forall l :: j < l < |fields| ==> ColumnOf(fields[l].0) != ColumnOf(fields[j].0)
    ensures FieldValue(fields, ColumnOf(fields[j].0).value) == Some(fields[j].1)
  {
    if j < |fields| - 1 {
      FieldValueLastNaming(fields[..|fields| - 1], j);
    }
  }

  /**
   * A named column takes the value of the last pair naming it, as
   * `str(v)` text; with a dictionary's distinct keys, the value given.
   */
  lemma UpdateWritesNamedColumn(row: seq<string>, fields: seq<(string, string)>, j: nat)
    requires j < |fields| && ColumnOf(fields[j].0).Some?
    requires forall l :: j < l < |fields| ==> ColumnOf(fields[l].0) != ColumnOf(fields[j].0)
    ensures UpdatedRow(row, fields)[ColumnOf(fields[j].0).value] == fields[j].1
  {
    FieldValueLastNaming(fields, j);
  }

  /** A pair whose key is not one of the five field names changes nothing. */
  lemma UpdateIgnoresUnknownKey(row: seq<string>, fields: seq<(string, string)>, key: string, v: string)
    requires ColumnOf(key).None?
    ensures UpdatedRow(row, fields + [(key, v)]) == UpdatedRow(row, fields)
  {
    var extended := fields + [(key, v)];
    assert extended[..|extended| - 1] == fields;
    forall c | 0 <= c < 5
      ensures FieldValue(extended, c) == FieldValue(fields, c)
    {
    }
  }

  /**
   * `find_row_by_telegram_id` gives `None` exactly when no row matches, and
   * otherwise the smallest 1-based number of a matching row.
   */
  lemma {:induction false} FirstMatchIsFirst(rows: seq<seq<string>>, key: string)
    ensures FirstMatch(rows, key).None? <==> forall i :: 0 <= i < |rows| ==> !Matches(rows[i], key)
    ensures FirstMatch(rows, key).Some? ==>
      var k := FirstMatch(rows, key).value;
      1 <= k <= |rows| && Matches(rows[k - 1], key) && forall i :: 0 <= i < k - 1 ==> !Matches(rows[i], key)
  {
    if rows != [] && !Matches(rows[0], key) {
      FirstMatchIsFirst(rows[1..], key);
      assert forall i :: 1 <= i < |rows| ==> rows[i] == rows[1..][i - 1];
    }
  }

  /** With duplicate rows the first one wins, whatever is appended later. */
  lemma {:induction false} FirstMatchKeptByAppend(rows: seq<seq<string>>, more: seq<seq<string>>, key: string)
    requires FirstMatch(rows, key).Some?
    ensures FirstMatch(rows + more, key) == FirstMatch(rows, key)
  {
    assert (rows + more)[0] == rows[0];
    if !Matches(rows[0], key) {
      assert (rows + more)[1..] == rows[1..] + more;
      FirstMatchKeptByAppend(rows[1..], more, key);
    }
  }

  /** A row appended to a sheet holding no match for `key` is the first match. */
  lemma {:induction false} FirstMatchOfAppended(rows: seq<seq<string>>, row: seq<string>, key: string)
    requires FirstMatch(rows, key).None?
    requires Matches(row, key)
    ensures FirstMatch(rows + [row], key) == Some(|rows| + 1)
  {
    if rows == [] {
      assert rows + [row] == [row];
    } else {
      assert (rows + [row])[0] == rows[0];
      assert (rows + [row])[1..] == rows[1..] + [row];
      FirstMatchOfAppended(rows[1..], row, key);
    }
  }

  /** The new row matches its own id and reads as not paid with no expiry. */
  lemma NewRecordReads(tgId: int, username: Option<string>, fullName: Option<string>)
    ensures Matches(NewRecord(tgId, username, fullName), IntToString(tgId))
    ensures UserOf(NewRecord(tgId, username, fullName))
            == User(IntToString(tgId), OrEmpty(username), OrEmpty(fullName), "no", "")
  {
    var row := NewRecord(tgId, username, fullName);
    StripTrimmed(IntToString(tgId));
    assert Lower("no") == "no" by {
      assert Lower("no")[0] == 'n' && Lower("no")[1] == 'o';
    }
  }

  /**
   * After `add_user_record` for a member the sheet did not hold, looking the
   * member up finds the new last row, which reads as not paid with no expiry.
   */
  lemma RegisteredMemberFound(rows: seq<seq<string>>, tgId: int, username: Option<string>, fullName: Option<string>)
    requires FirstMatch(rows, IntToString(tgId)).None?
    ensures FirstMatch(rows + [NewRecord(tgId, username, fullName)], IntToString(tgId)) == Some(|rows| + 1)
    ensures LookupUser(rows + [NewRecord(tgId, username, fullName)], tgId)
            == Some(User(IntToString(tgId), OrEmpty(username), OrEmpty(fullName), "no", ""))
  {
    var row := NewRecord(tgId, username, fullName);
    NewRecordReads(tgId, username, fullName);
    FirstMatchOfAppended(rows, row, IntToString(tgId));
    assert RowValues(rows + [row], |rows| + 1) == row;
  }

  /** Replacing one row by a row with the same standing towards `key` keeps the first match. */
  lemma {:induction false} FirstMatchReplaceRow(rows: seq<seq<string>>, j: nat, row: seq<string>, key: string)
    requires j < |rows|
    requires Matches(rows[j], key) <==> Matches(row, key)
    ensures FirstMatch(rows[j := row], key) == FirstMatch(rows, key)
  {
    if j > 0 && !Matches(rows[0], key) {
      assert rows[j := row][1..] == rows[1..][j - 1 := row];
      FirstMatchReplaceRow(rows[1..], j - 1, row, key);
    }
  }

  /** Rewriting the matched row without touching its id keeps it the first match. */
  lemma FirstMatchAfterRewrite(rows: seq<seq<string>>, key: string, k: nat, row: seq<string>)
    requires FirstMatch(rows, key) == Some(k)
    requires 1 <= k <= |rows|
    requires Cell(row, 0) == Cell(rows[k - 1], 0)
    ensures FirstMatch(rows[k - 1 := row], key) == Some(k)
  {
    assert Matches(rows[k - 1], key) <==> Matches(row, key);
    FirstMatchReplaceRow(rows, k - 1, row, key);
  }

  /**
   * Rewriting the member's row without touching its id leaves the member
   * found at the same row, which now reads as the new values.
   */
  lemma LookupAfterRewrite(rows: seq<seq<string>>, tgId: int, k: nat, row: seq<string>)
    requires FirstMatch(rows, IntToString(tgId)) == Some(k)
    requires 1 <= k <= |rows|
    requires Cell(row, 0) == Cell(rows[k - 1], 0)
    ensures LookupUser(rows[k - 1 := row], tgId) == Some(UserOf(row))
  {
    FirstMatchAfterRewrite(rows, IntToString(tgId), k, row);
    assert RowValues(rows[k - 1 := row], k) == row;
  }

  lemma FirstMatchFound(rows: seq<seq<string>>, key: string, k: nat)
    requires FirstMatch(rows, key) == Some(k)
    ensures 1 <= k <= |rows| && Matches(rows[k - 1], key)
  {
    FirstMatchIsFirst(rows, key);
  }

  /** A member that is found is read from the first row holding the id. */
  lemma LookupReadsFirstMatch(rows: seq<seq<string>>, tgId: int, k: nat)
    requires FirstMatch(rows, IntToString(tgId)) == Some(k)
    ensures 1 <= k <= |rows| && Matches(rows[k - 1], IntToString(tgId))
    ensures LookupUser(rows, tgId) == Some(UserOf(rows[k - 1]))
  {
    FirstMatchFound(rows, IntToString(tgId), k);
    assert RowValues(rows, k) == rows[k - 1];
  }

}
