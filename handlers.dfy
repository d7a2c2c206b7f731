/**
 * The three message handlers: `/start`, the full-name reply that follows
 * it, and `/check`. Each reads the sheet through `Store`, takes the
 * decision `Subscription` describes and issues the calls of `Membership`.
 * The conversation state of aiogram's FSM is one flag per member.
 */
module Handlers {

  import opened Wrappers
  import opened Text
  import opened Dates
  import opened Store
  import opened Membership
  import opened Subscription

  /** The FSM state of one member's chat: waiting for the full name, or none. */
  class Conversation {

    var waitingForName: bool

    constructor ()
      ensures !waitingForName
    {
      waitingForName := false;
    }
  }

  /** The gateway calls a decided action stands for. */
  function ActionCalls(action: Action, user: int): seq<Call>
  {
    match action
    case NoAction => []
    case GrantLinks => InviteCalls(user)
    case Revoke => RevokeCalls(user)
  }

  /**
   * `cmd_start`: a registered member gets a reply (and the links when the
   * subscription is active) and the state is left alone; anyone else is
   * asked for a full name and the conversation starts waiting for it.
   */
  method CmdStart(sheet: Sheet, gw: Gateway, conv: Conversation, tgId: int, today: Date)
    returns (reply: StartReply)
    modifies gw, conv
    ensures reply == StartDecision(LookupUser(sheet.rows, tgId), today).reply
    ensures gw.trace
            == old(gw.trace) + Executed(ActionCalls(StartDecision(LookupUser(sheet.rows, tgId), today).action, tgId), gw.faults)
    ensures conv.waitingForName == (StartDecision(LookupUser(sheet.rows, tgId), today).awaitName || old(conv.waitingForName))
  {
    var row := sheet.FindRowByTelegramId(tgId);
    if row.Some? {
      var user := sheet.ReadUser(row.value);
      if user.paid == "yes" {
        var expiry := ParseDate(user.expiryDate);
        if expiry.Some? && !Before(expiry.value, today) {
          var _ := gw.SendInviteLinks(tgId);
          return AlreadyPaidUntil(expiry.value);
        }
        return SubscriptionEnded;
      }
      return AwaitingConfirmation;
    }
    conv.waitingForName := true;
    return AskFullName;
  }

  /**
   * `process_full_name`, which runs only while the conversation waits for
   * the name. With no text (a sticker, a photo) `message.text.strip()`
   * raises before anything is written and the state stays. Otherwise the
   * stripped text becomes the full name of a new row and the state clears.
   */
  method ProcessFullName(sheet: Sheet, conv: Conversation, tgId: int, username: Option<string>, text: Option<string>)
    returns (thanked: Option<string>)
    requires conv.waitingForName
    modifies sheet, conv
    ensures text.None? ==> thanked.None? && sheet.rows == old(sheet.rows) && conv.waitingForName
    ensures text.Some? ==>
      thanked == Some(Strip(text.value))
      && sheet.rows == old(sheet.rows) + [NewRecord(tgId, Some(OrEmpty(username)), Some(Strip(text.value)))]
      && !conv.waitingForName
  {
    if text.None? {
      return None;
    }
    var fullName := Strip(text.value);
    sheet.AddUserRecord(tgId, Some(OrEmpty(username)), Some(fullName));
    conv.waitingForName := false;
    return Some(fullName);
  }

  /**
   * `cmd_check`: the reply of the decision tree, after revoking an expired
   * member or sending an active member the links.
   */
  method CmdCheck(sheet: Sheet, gw: Gateway, tgId: int, today: Date) returns (reply: CheckReply)
    modifies gw
    ensures reply == CheckDecision(LookupUser(sheet.rows, tgId), today).reply
    ensures gw.trace
            == old(gw.trace) + Executed(ActionCalls(CheckDecision(LookupUser(sheet.rows, tgId), today).action, tgId), gw.faults)
  {
    var row := sheet.FindRowByTelegramId(tgId);
    if row.None? {
      return NotRegistered;
    }
    var user := sheet.ReadUser(row.value);
    if user.paid != "yes" {
      return PaymentNotConfirmed;
    }
    var expiry := ParseDate(user.expiryDate);
    if expiry.None? {
      return ExpiryNotSet;
    }
    if Before(expiry.value, today) {
      var _ := gw.RevokeMember(tgId);
      return SubscriptionExpired;
    }
    var _ := gw.SendInviteLinks(tgId);
    return ActiveUntil(expiry.value);
  }

  /**
   * Right after registering, a member is told that payment is not
   * confirmed, by `/check` and by `/start` alike, nothing is done on the
   * groups, and `/start` no longer asks for the name.
   */
  lemma RegisteredMemberAwaitsPayment(rows: seq<seq<string>>, tgId: int, username: Option<string>, text: string, today: Date)
    requires FirstMatch(rows, IntToString(tgId)).None?
    ensures var after := rows + [NewRecord(tgId, Some(OrEmpty(username)), Some(Strip(text)))];
      CheckDecision(LookupUser(after, tgId), today) == CheckResult(PaymentNotConfirmed, NoAction)
      && StartDecision(LookupUser(after, tgId), today) == StartResult(AwaitingConfirmation, NoAction, false)
  {
    RegisteredMemberFound(rows, tgId, Some(OrEmpty(username)), Some(Strip(text)));
  }

  /** The fields an administrator sets to confirm a payment up to `until`. */
  function ConfirmFields(until: Date): seq<(string, string)>
    requires IsValid(until)
  {
    [("paid", "yes"), ("expiry_date", IsoFormat(until))]
  }

  /** A confirmed row keeps its id and reads as paid, expiring on `until`. */
  lemma ConfirmedRowReads(row: seq<string>, until: Date)
    requires IsValid(until)
    ensures Cell(UpdatedRow(row, ConfirmFields(until)), 0) == Cell(row, 0)
    ensures UserOf(UpdatedRow(row, ConfirmFields(until))).paid == "yes"
    ensures Expiry(UserOf(UpdatedRow(row, ConfirmFields(until)))) == Some(until)
  {
    var fields := ConfirmFields(until);
    var updated := UpdatedRow(row, fields);
    assert forall j :: 0 <= j < |fields| ==> ColumnOf(fields[j].0) != Some(0);
    UpdateKeepsUnnamedColumns(row, fields, 0);
    UpdateWritesNamedColumn(row, fields, 0);
    LowerIsYes("yes");
    UpdateWritesNamedColumn(row, fields, 1);
    assert "" + IsoFormat(until) + "" == IsoFormat(until);
    ParseIsoFormat(until, "", "");
  }

  /**
   * After `update_user_fields` marks a member's row paid up to `until`,
   * `/check` sends the links and reports `until` when it is not past, and
   * revokes otherwise.
   */
  lemma ConfirmedMemberChecks(rows: seq<seq<string>>, tgId: int, k: nat, until: Date, today: Date)
    requires IsValid(until)
    requires FirstMatch(rows, IntToString(tgId)) == Some(k)
    requires 1 <= k <= |rows|
    ensures var after := rows[k - 1 := UpdatedRow(rows[k - 1], ConfirmFields(until))];
      CheckDecision(LookupUser(after, tgId), today)
      == if Before(until, today) then CheckResult(SubscriptionExpired, Revoke) else CheckResult(ActiveUntil(until), GrantLinks)
  {
    ConfirmedRowReads(rows[k - 1], until);
    LookupAfterRewrite(rows, tgId, k, UpdatedRow(rows[k - 1], ConfirmFields(until)));
  }

}
