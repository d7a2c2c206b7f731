/**
 * The decisions of the `/check` and `/start` handlers: from the member's
 * row, if any, and today's date to a reply and an action on the groups.
 * The action runs before the reply is sent.
 */
module Subscription {

  import opened Wrappers
  import opened Dates
  import opened Store

  datatype Action = NoAction | GrantLinks | Revoke

  /** The five replies of `cmd_check`. */
  datatype CheckReply =
    | NotRegistered
    | PaymentNotConfirmed
    | ExpiryNotSet
    | SubscriptionExpired
    | ActiveUntil(until: Date)

  datatype CheckResult = CheckResult(reply: CheckReply, action: Action)

  /** The four replies of `cmd_start`. */
  datatype StartReply =
    | AskFullName
    | AlreadyPaidUntil(until: Date)
    | SubscriptionEnded
    | AwaitingConfirmation

  /** `awaitName`: the handler enters the "waiting for full name" state. */
  datatype StartResult = StartResult(reply: StartReply, action: Action, awaitName: bool)

  predicate IsPaid(u: User)
  {
    u.paid == "yes"
  }

  /** The expiry the member's row holds, when it parses. */
  function Expiry(u: User): Option<Date>
  {
    ParseDate(u.expiryDate)
  }

  /** Paid, with a parseable expiry earlier than today. */
  predicate ExpiredOn(u: User, today: Date)
  {
    IsPaid(u) && Expiry(u).Some? && Before(Expiry(u).value, today)
  }

  /** The decision tree of `cmd_check`. */
  function CheckDecision(found: Option<User>, today: Date): (r: CheckResult)
    ensures r.reply == NotRegistered <==> found.None?
    ensures r.reply == PaymentNotConfirmed <==> found.Some? && !IsPaid(found.value)
    ensures r.reply == ExpiryNotSet <==> found.Some? && IsPaid(found.value) && Expiry(found.value).None?
    ensures r.action == Revoke <==> found.Some? && ExpiredOn(found.value, today)
    ensures r.action == Revoke <==> r.reply == SubscriptionExpired
    ensures r.action == GrantLinks <==> r.reply.ActiveUntil?
    ensures r.reply.ActiveUntil? ==>
      found.Some? && IsPaid(found.value) && Expiry(found.value) == Some(r.reply.until)
      && !Before(r.reply.until, today)
  {
    match found
    case None => CheckResult(NotRegistered, NoAction)
    case Some(u) =>
      if u.paid != "yes" then CheckResult(PaymentNotConfirmed, NoAction)
      else match ParseDate(u.expiryDate)
        case None => CheckResult(ExpiryNotSet, NoAction)
        case Some(expiry) =>
          if Before(expiry, today) then CheckResult(SubscriptionExpired, Revoke)
          else CheckResult(ActiveUntil(expiry), GrantLinks)
  }

  /** The decision tree of `cmd_start`. */
  function StartDecision(found: Option<User>, today: Date): (r: StartResult)
    ensures r.awaitName <==> found.None?
    ensures r.awaitName <==> r.reply == AskFullName
    ensures r.action != Revoke
    ensures r.reply == AwaitingConfirmation <==> found.Some? && !IsPaid(found.value)
    ensures r.reply == SubscriptionEnded <==>
      found.Some? && IsPaid(found.value) && (Expiry(found.value).None? || Before(Expiry(found.value).value, today))
    ensures r.action == GrantLinks <==> r.reply.AlreadyPaidUntil?
    ensures r.reply.AlreadyPaidUntil? ==>
      found.Some? && IsPaid(found.value) && Expiry(found.value) == Some(r.reply.until)
      && !Before(r.reply.until, today)
  {
    match found
    case None => StartResult(AskFullName, NoAction, true)
    case Some(u) =>
      if u.paid == "yes" then
        var expiry := ParseDate(u.expiryDate);
        if expiry.Some? && !Before(expiry.value, today) then
          StartResult(AlreadyPaidUntil(expiry.value), GrantLinks, false)
        else StartResult(SubscriptionEnded, NoAction, false)
      else StartResult(AwaitingConfirmation, NoAction, false)
  }

  /**
   * The four states a member can be in, derived afresh from the row each
   * time: not registered, awaiting payment, active until a date, or expired
   * since a date.
   */
  datatype Status = Unregistered | AwaitingPayment | Active(until: Date) | Expired(since: Date)

  /**
   * The reference classification: not paid, or paid with no valid expiry,
   * is awaiting payment; otherwise the expiry against today decides.
   */
  function Classify(found: Option<User>, today: Date): Status
  {
    if found.None? then Unregistered
    else if !IsPaid(found.value) || Expiry(found.value).None? then AwaitingPayment
    else if Before(Expiry(found.value).value, today) then Expired(Expiry(found.value).value)
    else Active(Expiry(found.value).value)
  }

  /**
   * `/check` refines `Classify`: links exactly for an
   * active member, a revoke exactly for an expired one, and only a prompt
   * (no action) for a member awaiting payment or not registered.
   */
  lemma CheckFollowsClassify(found: Option<User>, today: Date)
    ensures Classify(found, today).Active? <==> CheckDecision(found, today).reply.ActiveUntil?
    ensures Classify(found, today).Active? ==>
      CheckDecision(found, today) == CheckResult(ActiveUntil(Classify(found, today).until), GrantLinks)
    ensures Classify(found, today).Expired? <==> CheckDecision(found, today) == CheckResult(SubscriptionExpired, Revoke)
    ensures Classify(found, today) == AwaitingPayment <==>
      CheckDecision(found, today).reply in {PaymentNotConfirmed, ExpiryNotSet}
    ensures Classify(found, today) == AwaitingPayment || Classify(found, today) == Unregistered
      <==> CheckDecision(found, today).action == NoAction
  {
  }

  /**
   * `/start` grants links exactly for an active member, like `/check`, but
   * never revokes: an expired member and a paid member without a valid
   * expiry both get the expiry notice.
   */
  lemma StartFollowsClassify(found: Option<User>, today: Date)
    ensures Classify(found, today).Active? <==> StartDecision(found, today).action == GrantLinks
    ensures Classify(found, today).Active? ==>
      StartDecision(found, today) == StartResult(AlreadyPaidUntil(Classify(found, today).until), GrantLinks, false)
    ensures Classify(found, today).Expired? ==> StartDecision(found, today).reply == SubscriptionEnded
    ensures Classify(found, today) == AwaitingPayment && IsPaid(found.value) ==>
      StartDecision(found, today) == StartResult(SubscriptionEnded, NoAction, false)
    ensures Classify(found, today) == Unregistered <==> StartDecision(found, today).awaitName
  {
  }

  /** `/start` and `/check` grant links for the same rows and days, with the same expiry. */
  lemma StartAndCheckGrantAlike(found: Option<User>, today: Date)
    ensures StartDecision(found, today).action == GrantLinks <==> CheckDecision(found, today).action == GrantLinks
    ensures CheckDecision(found, today).reply.ActiveUntil? ==>
      StartDecision(found, today).reply == AlreadyPaidUntil(CheckDecision(found, today).reply.until)
  {
  }

}
