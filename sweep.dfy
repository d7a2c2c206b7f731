/**
 * One cycle of `subscription_watcher`: read every data row (row 1 is the
 * header), pick the rows of paid members whose expiry is past, and run the
 * revoke block for each. The sheet is only read.
 */
module Sweep {

  import opened Wrappers
  import opened Text
  import opened Dates
  import opened Store
  import opened Membership
  import opened Subscription

  /** The rows `get_all_records` turns into records: all but the header. */
  function DataRows(rows: seq<seq<string>>): seq<seq<string>>
  {
    if rows == [] then [] else rows[1..]
  }

  /**
   * The member one row makes the sweep revoke: its stripped id must be an
   * integer, `paid` must lower to "yes" and the expiry must parse to a date
   * before today.
   */
  function SweepTarget(row: seq<string>, today: Date): Option<int>
  {
    var idText := Strip(Cell(row, 0));
    if idText == [] then None
    else match ParseInt(idText)
      case None => None
      case Some(id) =>
        var paid := Lower(Cell(row, 3));
        var expiry := ParseDate(Cell(row, 4));
        if paid == "yes" && expiry.Some? && Before(expiry.value, today) then Some(id) else None
  }

  /**
   * The sweep revokes a row exactly when its stripped id reads as an integer
   * and the record is paid and expired, and then it revokes that id.
   */
  lemma SweepTargetMeaning(row: seq<string>, today: Date)
    ensures var r := SweepTarget(row, today);
      (r.Some? <==> ParseInt(Strip(Cell(row, 0))).Some? && ExpiredOn(UserOf(row), today))
      && (r.Some? ==> r == ParseInt(Strip(Cell(row, 0))))
  {
  }

  /** What the cycle decides for each row, in row order. */
  function Verdicts(data: seq<seq<string>>, today: Date): (v: seq<Option<int>>)
    ensures |v| == |data|
  {
    seq(|data|, i requires 0 <= i < |data| => SweepTarget(data[i], today))
  }

  /** The members a cycle revokes, in row order. */
  function Targets(verdicts: seq<Option<int>>): seq<int>
  {
    if verdicts == [] then []
    else
      Targets(verdicts[..|verdicts| - 1])
      + match verdicts[|verdicts| - 1] case Some(id) => [id] case None => []
  }

  /** The gateway calls the cycle makes for one row. */
  function RowCalls(verdict: Option<int>, faults: set<Call>): seq<Call>
  {
    match verdict
    case Some(id) => Executed(RevokeCalls(id), faults)
    case None => []
  }

  /** The gateway calls of a cycle, row after row. */
  function SweepTrace(verdicts: seq<Option<int>>, faults: set<Call>): seq<Call>
  {
    if verdicts == [] then []
    else SweepTrace(verdicts[..|verdicts| - 1], faults) + RowCalls(verdicts[|verdicts| - 1], faults)
  }

  lemma SweepTraceSnoc(verdicts: seq<Option<int>>, v: Option<int>, faults: set<Call>)
    ensures SweepTrace(verdicts + [v], faults) == SweepTrace(verdicts, faults) + RowCalls(v, faults)
  {
    var extended := verdicts + [v];
    assert extended[..|extended| - 1] == verdicts;
  }

  /**
   * The checks `subscription_watcher` makes on one record before revoking,
   * in the loop body's own form: each early return is one of its
   * `continue`s. It is proved to compute `SweepTarget`.
   */
  method RowTarget(row: seq<string>, today: Date) returns (target: Option<int>)
    ensures target == SweepTarget(row, today)
  {
    var idText := Strip(Cell(row, 0));
    if idText == [] {
      return None;
    }
    var id := ParseInt(idText);
    if id.None? {
      return None;
    }
    var paid := Lower(Cell(row, 3));
    var expiry := ParseDate(Cell(row, 4));
    if paid == "yes" && expiry.Some? && Before(expiry.value, today) {
      return id;
    }
    return None;
  }

  lemma TakeSnoc<T>(s: seq<T>, i: nat)
    requires i < |s|
    ensures s[..i + 1] == s[..i] + [s[i]]
  {
  }

  lemma ConcatAssoc<T>(a: seq<T>, b: seq<T>, c: seq<T>)
    ensures (a + b) + c == a + (b + c)
  {
  }

  /** The body of the sweep's loop for one record: check it, revoke if due. */
  method SweepRow(row: seq<string>, gw: Gateway, today: Date)
    modifies gw
    ensures gw.trace == old(gw.trace) + RowCalls(SweepTarget(row, today), gw.faults)
  {
    var target := RowTarget(row, today);
    if target.Some? {
      var _ := gw.RevokeMember(target.value);
    }
  }

  /** `subscription_watcher`, one pass of its `while True` loop without the sleep. */
  method SweepCycle(sheet: Sheet, gw: Gateway, today: Date)
    modifies gw
    ensures gw.trace == old(gw.trace) + SweepTrace(Verdicts(DataRows(sheet.rows), today), gw.faults)
  {
    var data := DataRows(sheet.rows);
    ghost var verdicts := Verdicts(data, today);
    for i := 0 to |data|
      invariant gw.trace == old(gw.trace) + SweepTrace(verdicts[..i], gw.faults)
    {
      ghost var done := SweepTrace(verdicts[..i], gw.faults);
      SweepRow(data[i], gw, today);
      TakeSnoc(verdicts, i);
      SweepTraceSnoc(verdicts[..i], verdicts[i], gw.faults);
      ConcatAssoc(old(gw.trace), done, RowCalls(verdicts[i], gw.faults));
    }
    assert verdicts[..|data|] == verdicts;
  }

  /** The members whose revoke block started: the users of the chat bans, in order. */
  function RevokeStarts(trace: seq<Call>): seq<int>
  {
    if trace == [] then []
    else
      RevokeStarts(trace[..|trace| - 1])
      + match trace[|trace| - 1] case BanMember(Chat, u) => [u] case _ => []
  }

  lemma {:induction false} RevokeStartsAppend(a: seq<Call>, b: seq<Call>)
    ensures RevokeStarts(a + b) == RevokeStarts(a) + RevokeStarts(b)
    decreases |b|
  {
    if b == [] {
      assert a + b == a;
    } else {
      assert (a + b)[..|a + b| - 1] == a + b[..|b| - 1];
      RevokeStartsAppend(a, b[..|b| - 1]);
    }
  }

  lemma {:induction false} RevokeStartsNoChatBan(trace: seq<Call>)
    requires forall i :: 0 <= i < |trace| ==> !(trace[i].BanMember? && trace[i].group == Chat)
    ensures RevokeStarts(trace) == []
  {
    if trace != [] {
      RevokeStartsNoChatBan(trace[..|trace| - 1]);
    }
  }

  /** Each started revoke block opens with exactly one chat ban. */
  lemma RevokeStartsOfBlock(id: int, faults: set<Call>)
    ensures RevokeStarts(Executed(RevokeCalls(id), faults)) == [id]
  {
    var done := Executed(RevokeCalls(id), faults);
    AttemptedUpToFirstFault(RevokeCalls(id), faults);
    assert done == [BanMember(Chat, id)] + done[1..];
    assert [BanMember(Chat, id)][..0] == [];
    RevokeStartsNoChatBan(done[1..]);
    RevokeStartsAppend([BanMember(Chat, id)], done[1..]);
  }

  /**
   * A failure in one member's block does not end the cycle: every target
   * gets its revoke block started, in row order, whatever the gateway
   * raises, and nobody else does.
   */
  lemma {:induction false} SweepStartsEveryRevoke(verdicts: seq<Option<int>>, faults: set<Call>)
    ensures RevokeStarts(SweepTrace(verdicts, faults)) == Targets(verdicts)
  {
    if verdicts != [] {
      var init := verdicts[..|verdicts| - 1];
      SweepStartsEveryRevoke(init, faults);
      RevokeStartsAppend(SweepTrace(init, faults), RowCalls(verdicts[|verdicts| - 1], faults));
      match verdicts[|verdicts| - 1]
      case Some(id) =>
        RevokeStartsOfBlock(id, faults);
      case None =>
    }
  }

  /** The four revoke calls of every member in `ids`, one member after the other. */
  function RevokeAll(ids: seq<int>): seq<Call>
  {
    if ids == [] then [] else RevokeAll(ids[..|ids| - 1]) + RevokeCalls(ids[|ids| - 1])
  }

  /** When no ban or unban raises, the cycle issues exactly the four revoke calls of each target. */
  lemma {:induction false} SweepFaultFree(verdicts: seq<Option<int>>, faults: set<Call>)
    requires forall c :: c in faults ==> !c.BanMember? && !c.UnbanMember?
    ensures SweepTrace(verdicts, faults) == RevokeAll(Targets(verdicts))
    ensures |SweepTrace(verdicts, faults)| == 4 * |Targets(verdicts)|
  {
    if verdicts != [] {
      var init := verdicts[..|verdicts| - 1];
      SweepFaultFree(init, faults);
      match verdicts[|verdicts| - 1]
      case Some(id) =>
        var ids := Targets(verdicts);
        assert ids[..|ids| - 1] == Targets(init) && ids[|ids| - 1] == id;
        ExecutedFaultFree(RevokeCalls(id), faults);
      case None =>
        assert Targets(verdicts) == Targets(init) + [];
        assert Targets(verdicts) == Targets(init);
        assert SweepTrace(verdicts, faults) == SweepTrace(init, faults) + [];
        assert SweepTrace(verdicts, faults) == SweepTrace(init, faults);
    }
  }

  /** The cycle only bans and unbans, and only the members it targets. */
  lemma {:induction false} SweepOnlyRevokesTargets(verdicts: seq<Option<int>>, faults: set<Call>)
    ensures forall c :: c in SweepTrace(verdicts, faults) ==>
      (c.BanMember? || c.UnbanMember?) && c.user in Targets(verdicts)
  {
    if verdicts != [] {
      var init := verdicts[..|verdicts| - 1];
      SweepOnlyRevokesTargets(init, faults);
      match verdicts[|verdicts| - 1]
      case Some(id) =>
        RevokeOrder(id, faults);
      case None =>
    }
  }

  /** A row enters the targets exactly when the cycle decides to revoke it. */
  lemma {:induction false} TargetsAreRevokedRows(verdicts: seq<Option<int>>, id: int)
    ensures id in Targets(verdicts) <==> Some(id) in verdicts
  {
    if verdicts != [] {
      var init := verdicts[..|verdicts| - 1];
      TargetsAreRevokedRows(init, id);
      assert verdicts == init + [verdicts[|verdicts| - 1]];
    }
  }

  /**
   * For a row that `/check` of member `tgId` reads, the sweep revokes that
   * member exactly when `/check` takes its expired branch on the same day.
   */
  lemma SweepAgreesWithCheck(row: seq<string>, tgId: int, today: Date)
    requires Strip(Cell(row, 0)) == IntToString(tgId)
    ensures SweepTarget(row, today) == Some(tgId) <==> CheckDecision(Some(UserOf(row)), today).action == Revoke
    ensures SweepTarget(row, today).Some? ==> SweepTarget(row, today) == Some(tgId)
  {
    ParseIntOfIntToString(tgId);
  }

  /**
   * For the row `/check` of member `tgId` finds, the sweep revokes that
   * member exactly when `/check` takes its expired branch on the same day.
   */
  lemma SweepAgreesWithLookup(rows: seq<seq<string>>, tgId: int, k: nat, today: Date)
    requires FirstMatch(rows, IntToString(tgId)) == Some(k)
    ensures 1 <= k <= |rows|
    ensures SweepTarget(rows[k - 1], today) == Some(tgId) <==> CheckDecision(LookupUser(rows, tgId), today).action == Revoke
  {
    LookupReadsFirstMatch(rows, tgId, k);
    SweepAgreesWithCheck(rows[k - 1], tgId, today);
  }

  /** The cycle's verdict on data row `i` is `SweepTarget` of that row. */
  lemma VerdictOfRow(data: seq<seq<string>>, i: nat, today: Date)
    requires i < |data|
    ensures i < |Verdicts(data, today)| && Verdicts(data, today)[i] == SweepTarget(data[i], today)
  {
  }

  /** A data row the sweep decides to revoke puts its member among the targets. */
  lemma RevokedRowIsTarget(rows: seq<seq<string>>, j: nat, id: int, today: Date)
    requires 2 <= j <= |rows| && SweepTarget(rows[j - 1], today) == Some(id)
    ensures id in Targets(Verdicts(DataRows(rows), today))
  {
    var data := DataRows(rows);
    assert data[j - 2] == rows[j - 1];
    var verdicts := Verdicts(data, today);
    assert Some(id) in verdicts by {
      VerdictOfRow(data, j - 2, today);
    }
    TargetsAreRevokedRows(verdicts, id);
  }

  /**
   * `/check` reads only the first row holding the member's id, the sweep
   * reads every row. With an active first row and a later expired row for
   * the same id, `/check` sends the links while every cycle revokes the
   * member.
   */
  lemma DuplicateRowsDiverge(rows: seq<seq<string>>, tgId: int, k: nat, j: nat, today: Date)
    requires FirstMatch(rows, IntToString(tgId)) == Some(k)
    requires 1 <= k < j <= |rows| && Strip(Cell(rows[j - 1], 0)) == IntToString(tgId)
    requires Classify(Some(UserOf(rows[k - 1])), today).Active?
    requires ExpiredOn(UserOf(rows[j - 1]), today)
    ensures CheckDecision(LookupUser(rows, tgId), today).action == GrantLinks
    ensures tgId in Targets(Verdicts(DataRows(rows), today))
  {
    var first := UserOf(rows[k - 1]);
    assert LookupUser(rows, tgId) == Some(first) by {
      LookupReadsFirstMatch(rows, tgId, k);
    }
    CheckFollowsClassify(Some(first), today);
    assert SweepTarget(rows[j - 1], today) == Some(tgId) by {
      SweepAgreesWithCheck(rows[j - 1], tgId, today);
    }
    RevokedRowIsTarget(rows, j, tgId, today);
  }

  /** The first row of `DuplicateRowsExample` is active on 1 January 2024. */
  lemma ExampleActive(active: seq<string>)
    requires active == ["5", "", "", "yes", "2099-01-01"]
    ensures Classify(Some(UserOf(active)), Date(2024, 1, 1)).Active?
  {
    assert "" + IsoFormat(Date(2099, 1, 1)) + "" == active[4];
    ParseIsoFormat(Date(2099, 1, 1), "", "");
    LowerIsYes(active[3]);
  }

  /** Its second row is paid and expired on that day. */
  lemma ExampleExpired(expired: seq<string>)
    requires expired == ["5", "", "", "yes", "2020-01-01"]
    ensures ExpiredOn(UserOf(expired), Date(2024, 1, 1))
  {
    assert "" + IsoFormat(Date(2020, 1, 1)) + "" == expired[4];
    ParseIsoFormat(Date(2020, 1, 1), "", "");
    LowerIsYes(expired[3]);
  }

  /** `/check` of member 5 finds the first of the two rows. */
  lemma ExampleFirstMatch(rows: seq<seq<string>>)
    requires rows == [["telegram_id"], ["5", "", "", "yes", "2099-01-01"], ["5", "", "", "yes", "2020-01-01"]]
    ensures FirstMatch(rows, IntToString(5)) == Some(2)
    ensures Strip(Cell(rows[2], 0)) == IntToString(5)
  {
    assert IntToString(5) == "5";
    StripTrimmed("5");
    StripTrimmed("telegram_id");
    assert rows[1..][1..] == [rows[2]];
  }

  /**
   * Member 5 with an active row followed by an expired one: on 1 January
   * 2024 `/check` sends the links and the sweep revokes the member.
   */
  lemma DuplicateRowsExample()
    ensures var rows := [["telegram_id"], ["5", "", "", "yes", "2099-01-01"], ["5", "", "", "yes", "2020-01-01"]];
      CheckDecision(LookupUser(rows, 5), Date(2024, 1, 1)).action == GrantLinks
      && 5 in Targets(Verdicts(DataRows(rows), Date(2024, 1, 1)))
  {
    var rows := [["telegram_id"], ["5", "", "", "yes", "2099-01-01"], ["5", "", "", "yes", "2020-01-01"]];
    ExampleFirstMatch(rows);
    ExampleActive(rows[1]);
    ExampleExpired(rows[2]);
    DuplicateRowsDiverge(rows, 5, 2, 3, Date(2024, 1, 1));
  }

  /**
   * The sweep reads ids with `int()`, `/check` compares text with `str()`:
   * a row whose id is written with a leading zero ("007") is revoked by the
   * sweep as member 7 once it is paid and expired, although `/check` from
   * member 7 never matches it.
   */
  lemma {:induction false} LeadingZeroIdDiverges(n: nat, row: seq<string>, today: Date)
    requires row != [] && row[0] == "0" + NatToString(n)
    ensures SweepTarget(row, today) == if ExpiredOn(UserOf(row), today) then Some(n) else None
    ensures !Matches(row, IntToString(n))
  {
    var id := "0" + NatToString(n);
    LeadingZeroValue(NatToString(n));
    NatToStringValue(n);
    assert IsDigit(id[0]) && IsDigit(id[|id| - 1]);
    StripTrimmed(id);
    ParseIntOfNonNegative(id);
    assert |id| != |IntToString(n)|;
    SweepTargetMeaning(row, today);
  }

}
