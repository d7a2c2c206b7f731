/**
 * The Telegram calls the bot makes on the managed chat and channel, as a
 * trace of calls, and the two `try` blocks that issue them: the revoke
 * block of `cmd_check` and `subscription_watcher`, and `send_invite_links`.
 * Which calls raise is the gateway's business: `faults` is the set of calls
 * it refuses (a group where the bot lacks the rights, say).
 */
module Membership {

  /** The two managed groups, `CHAT_ID` and `CHANNEL_ID`. */
  datatype Group = Chat | Channel

  datatype Call =
    | BanMember(group: Group, user: int)          // bot.ban_chat_member
    | UnbanMember(group: Group, user: int)        // bot.unban_chat_member
    | CreateInviteLink(group: Group, memberLimit: int)  // bot.create_chat_invite_link
    | SendInviteLink(user: int, group: Group)     // bot.send_message with that group's link

  /** The revoke block: ban then unban in the chat, then the same in the channel. */
  function RevokeCalls(user: int): seq<Call>
  {
    [BanMember(Chat, user), UnbanMember(Chat, user), BanMember(Channel, user), UnbanMember(Channel, user)]
  }

  /** `send_invite_links`: two single-use links, then one message per link. */
  function InviteCalls(user: int): seq<Call>
  {
    [CreateInviteLink(Chat, 1), CreateInviteLink(Channel, 1), SendInviteLink(user, Chat), SendInviteLink(user, Channel)]
  }

  /** None of `calls` raises. */
  predicate FaultFree(calls: seq<Call>, faults: set<Call>)
  {
    forall i :: 0 <= i < |calls| ==> calls[i] !in faults
  }

  /**
   * How many calls of a `try` block are issued: every call up to and
   * including the first one that raises.
   */
  function Attempted(calls: seq<Call>, faults: set<Call>): (k: nat)
    ensures k <= |calls|
  {
    if calls == [] then 0
    else if calls[0] in faults then 1
    else 1 + Attempted(calls[1..], faults)
  }

  /**
   * The calls before the last one issued all succeeded, and a block stops
   * early only because its last issued call raised.
   */
  lemma {:induction false} AttemptedUpToFirstFault(calls: seq<Call>, faults: set<Call>)
    ensures var k := Attempted(calls, faults);
      (calls != [] ==> 1 <= k)
      && (forall i :: 0 <= i < k - 1 ==> calls[i] !in faults)
      && (k < |calls| ==> calls[k - 1] in faults)
      && (FaultFree(calls, faults) ==> k == |calls|)
  {
    if calls != [] && calls[0] !in faults {
      AttemptedUpToFirstFault(calls[1..], faults);
      assert forall i :: 1 <= i < |calls| ==> calls[i] == calls[1..][i - 1];
    }
  }

  /** The calls a `try` block issues, in order. */
  function Executed(calls: seq<Call>, faults: set<Call>): seq<Call>
  {
    calls[..Attempted(calls, faults)]
  }

  class Gateway {

    /** Every call made so far, in order, whether it succeeded or raised. */
    var trace: seq<Call>
    const faults: set<Call>

    constructor (faults: set<Call>)
      ensures trace == [] && this.faults == faults
    {
      trace := [];
      this.faults := faults;
    }

    /** One call; `ok` is false when it raises. */
    method Invoke(c: Call) returns (ok: bool)
      modifies this
      ensures trace == old(trace) + [c]
      ensures ok <==> c !in faults
    {
      ok := c !in faults;
      trace := trace + [c];
    }

    /**
     * A `try` block issuing `calls` one after the other: the first call that
     * raises ends the block, and the error is logged, never raised.
     */
    method RunBlock(calls: seq<Call>) returns (errorLogged: bool)
      modifies this
      ensures trace == old(trace) + Executed(calls, faults)
      ensures errorLogged <==> !FaultFree(calls, faults)
    {
      var i := 0;
      errorLogged := false;
      while i < |calls| && !errorLogged
        invariant 0 <= i <= |calls|
        invariant trace == old(trace) + calls[..i]
        invariant !errorLogged ==> forall j :: 0 <= j < i ==> calls[j] !in faults
        invariant errorLogged ==> 1 <= i && calls[i - 1] in faults
        invariant errorLogged ==> forall j :: 0 <= j < i - 1 ==> calls[j] !in faults
      {
        var ok := Invoke(calls[i]);
        assert calls[..i + 1] == calls[..i] + [calls[i]];
        errorLogged := !ok;
        i := i + 1;
      }
      AttemptedUpToFirstFault(calls, faults);
    }

    /** The revoke block of `cmd_check` and `subscription_watcher` for one member. */
    method RevokeMember(user: int) returns (errorLogged: bool)
      modifies this
      ensures trace == old(trace) + Executed(RevokeCalls(user), faults)
    {
      errorLogged := RunBlock(RevokeCalls(user));
    }

    /** `send_invite_links(tg_id)`. */
    method SendInviteLinks(user: int) returns (errorLogged: bool)
      modifies this
      ensures trace == old(trace) + Executed(InviteCalls(user), faults)
    {
      errorLogged := RunBlock(InviteCalls(user));
    }
  }

  /** With no call raising, a block issues all its calls. */
  lemma ExecutedFaultFree(calls: seq<Call>, faults: set<Call>)
    requires FaultFree(calls, faults)
    ensures Executed(calls, faults) == calls
  {
    AttemptedUpToFirstFault(calls, faults);
  }

  /** No call follows the first one that raises. */
  lemma ExecutedStopsAtFault(calls: seq<Call>, faults: set<Call>, i: nat)
    requires i < |calls| && calls[i] in faults
    ensures |Executed(calls, faults)| <= i + 1
  {
    AttemptedUpToFirstFault(calls, faults);
  }

  /**
   * Revoking bans and unbans in the chat before touching the channel, and a
   * failure in the chat leaves the channel alone, as all four calls share
   * one `try`.
   */
  lemma RevokeOrder(user: int, faults: set<Call>)
    ensures FaultFree(RevokeCalls(user), faults) ==>
      Executed(RevokeCalls(user), faults)
      == [BanMember(Chat, user), UnbanMember(Chat, user), BanMember(Channel, user), UnbanMember(Channel, user)]
    ensures BanMember(Chat, user) in faults ==> Executed(RevokeCalls(user), faults) == [BanMember(Chat, user)]
    ensures BanMember(Chat, user) !in faults && UnbanMember(Chat, user) in faults ==>
      Executed(RevokeCalls(user), faults) == [BanMember(Chat, user), UnbanMember(Chat, user)]
    ensures forall c :: c in Executed(RevokeCalls(user), faults) ==>
      (c.BanMember? || c.UnbanMember?) && c.user == user
  {
    var calls := RevokeCalls(user);
    var k := Attempted(calls, faults);
    AttemptedUpToFirstFault(calls, faults);
    if calls[0] in faults {
      assert k == 1;
    } else if calls[1] in faults {
      assert k == 2;
    }
  }

  /**
   * `send_invite_links` creates both single-use links before it sends
   * either; a message goes out only when both links were created.
   */
  lemma InviteLinksBeforeMessages(user: int, faults: set<Call>)
    ensures var done := Executed(InviteCalls(user), faults);
      1 <= |done| && done[0] == CreateInviteLink(Chat, 1)
      && (|done| >= 2 ==> done[1] == CreateInviteLink(Channel, 1))
      && (forall i :: 0 <= i < |done| && done[i].SendInviteLink? ==>
            2 <= i && CreateInviteLink(Chat, 1) !in faults && CreateInviteLink(Channel, 1) !in faults
            && done[i].user == user)
    ensures forall c :: c in Executed(InviteCalls(user), faults) && c.CreateInviteLink? ==> c.memberLimit == 1
  {
    var calls := InviteCalls(user);
    var k := Attempted(calls, faults);
    AttemptedUpToFirstFault(calls, faults);
    assert k >= 3 ==> calls[0] !in faults && calls[1] !in faults;
  }

}
