/**
 * The dispatcher in front of the handlers. aiogram tries the message
 * handlers in the order they are registered, `cmd_start`, then
 * `process_full_name`, then `cmd_check`, and the first whose filters accept
 * the message handles it; the others never see it.
 */
module Router {

  import opened Wrappers
  import opened Text
  import opened Dates
  import opened Store
  import opened Membership
  import opened Subscription
  import opened Handlers

  /** The first word of `s.split(maxsplit=1)`: leading whitespace skipped, up to the next whitespace. */
  function FirstWord(s: string): string
  {
    Word(StripLeft(s))
  }

  /** The characters of `s` before its first whitespace. */
  function Word(s: string): (w: string)
    ensures |w| <= |s| && w == s[..|w|]
    ensures forall i :: 0 <= i < |w| ==> !IsSpace(w[i])
    ensures |w| < |s| ==> IsSpace(s[|w|])
  {
    if s == [] || IsSpace(s[0]) then [] else [s[0]] + Word(s[1..])
  }

  /** `s.partition("@")[0]`: the characters before the first '@', or all of `s`. */
  function BeforeAt(s: string): string
  {
    if s == [] then [] else if s[0] == '@' then [] else [s[0]] + BeforeAt(s[1..])
  }

  /** `s.partition("@")[2]`: the characters after the first '@', or "" when there is none. */
  function AfterAt(s: string): string
  {
    if s == [] then [] else if s[0] == '@' then s[1..] else AfterAt(s[1..])
  }

  /** A word without '@' has no mention: `partition` keeps it whole. */
  lemma {:induction false} NoMention(s: string)
    requires forall i :: 0 <= i < |s| ==> s[i] != '@'
    ensures BeforeAt(s) == s && AfterAt(s) == []
  {
    if s != [] {
      NoMention(s[1..]);
      assert s == [s[0]] + s[1..];
    }
  }

  /**
   * aiogram's `Command(commands=[name])` filter on a message's text: the
   * first word is '/' and the command name, optionally followed by '@' and
   * a mention that must name the bot, ignoring case, when the bot has a
   * username. A message without text never matches.
   */
  predicate IsCommand(text: Option<string>, name: string, botName: string)
  {
    text.Some? &&
    var word := FirstWord(text.value);
    word != [] && word[0] == '/' && BeforeAt(word[1..]) == name
    && var mention := AfterAt(word[1..]);
    (mention == [] || botName == [] || Lower(mention) == Lower(botName))
  }

  datatype Handler = StartHandler | FullNameHandler | CheckHandler | NoHandler

  /** The handler aiogram picks for a message, given whether the chat waits for a full name. */
  function Route(text: Option<string>, waiting: bool, botName: string): Handler
  {
    if IsCommand(text, "start", botName) then StartHandler
    else if waiting then FullNameHandler
    else if IsCommand(text, "check", botName) then CheckHandler
    else NoHandler
  }

  /**
   * While a chat waits for a full name, every message other than `/start`
   * goes to `process_full_name`, `/check` included; otherwise that handler
   * never runs, and `/start` always reaches `cmd_start`.
   */
  lemma RouteWhileWaiting(text: Option<string>, botName: string)
    ensures Route(text, true, botName) == FullNameHandler <==> !IsCommand(text, "start", botName)
    ensures Route(text, false, botName) != FullNameHandler
    ensures IsCommand(text, "start", botName) ==> Route(text, true, botName) == Route(text, false, botName) == StartHandler
    ensures Route(text, false, botName) == CheckHandler <==> IsCommand(text, "check", botName)
  {
  }

  /** A word followed by nothing or whitespace is the whole word. */
  lemma {:induction false} WordOfConcat(w: string, rest: string)
    requires forall i :: 0 <= i < |w| ==> !IsSpace(w[i])
    requires rest == [] || IsSpace(rest[0])
    ensures Word(w + rest) == w
  {
    if w != [] {
      assert (w + rest)[1..] == w[1..] + rest;
      WordOfConcat(w[1..], rest);
    }
  }

  /** `partition("@")` splits at the first '@'. */
  lemma {:induction false} MentionSplit(name: string, mention: string)
    requires forall i :: 0 <= i < |name| ==> name[i] != '@'
    ensures BeforeAt(name + "@" + mention) == name && AfterAt(name + "@" + mention) == mention
  {
    if name != [] {
      assert (name + "@" + mention)[1..] == name[1..] + "@" + mention;
      MentionSplit(name[1..], mention);
    }
  }

  /** The first word of a text that starts with a word and then nothing or whitespace. */
  lemma FirstWordOf(word: string, rest: string)
    requires word != [] && forall i :: 0 <= i < |word| ==> !IsSpace(word[i])
    requires rest == [] || IsSpace(rest[0])
    ensures FirstWord(word + rest) == word
  {
    assert (word + rest)[0] == word[0];
    assert StripLeft(word + rest) == word + rest;
    WordOfConcat(word, rest);
  }

  /** "/name", then nothing or whitespace and arguments, is the command `name`. */
  lemma CommandPlain(name: string, rest: string, botName: string)
    requires forall i :: 0 <= i < |name| ==> name[i] != '@' && !IsSpace(name[i])
    requires rest == [] || IsSpace(rest[0])
    ensures IsCommand(Some("/" + name + rest), name, botName)
  {
    var word := "/" + name;
    assert forall i :: 0 <= i < |word| ==> !IsSpace(word[i]) by {
      forall i | 0 <= i < |word|
        ensures !IsSpace(word[i])
      {
        if i > 0 {
          assert word[i] == name[i - 1];
        }
      }
    }
    FirstWordOf(word, rest);
    assert word[1..] == name;
    NoMention(name);
  }

  /**
   * "/name@mention", then nothing or whitespace and arguments, is the
   * command `name` exactly when the bot has no username or the mention
   * names it up to case.
   */
  lemma CommandMentioned(name: string, mention: string, rest: string, botName: string)
    requires forall i :: 0 <= i < |name| ==> name[i] != '@' && !IsSpace(name[i])
    requires mention != [] && forall i :: 0 <= i < |mention| ==> !IsSpace(mention[i])
    requires rest == [] || IsSpace(rest[0])
    ensures IsCommand(Some("/" + name + "@" + mention + rest), name, botName)
      <==> botName == [] || Lower(mention) == Lower(botName)
  {
    var word := "/" + name + "@" + mention;
    assert forall i :: 0 <= i < |word| ==> !IsSpace(word[i]) by {
      forall i | 0 <= i < |word|
        ensures !IsSpace(word[i])
      {
        if 0 < i <= |name| {
          assert word[i] == name[i - 1];
        } else if i > |name| + 1 {
          assert word[i] == mention[i - |name| - 2];
        }
      }
    }
    FirstWordOf(word, rest);
    assert word[1..] == name + "@" + mention;
    MentionSplit(name, mention);
  }

  /** A deep-link payload after the command does not stop it from matching. */
  lemma StartWithPayload(botName: string)
    ensures IsCommand(Some("/start ref42"), "start", botName)
  {
    assert "/start ref42" == "/" + "start" + " ref42";
    CommandPlain("start", " ref42", botName);
  }

  /** A command addressed to another bot is not this bot's command; the mention's case does not matter. */
  lemma MentionMustNameTheBot()
    ensures !IsCommand(Some("/check@other"), "check", "paybot")
    ensures IsCommand(Some("/check@PayBot"), "check", "paybot")
  {
    OtherMention();
    OwnMention();
  }

  /** "/check@other" does not reach a bot named "paybot". */
  lemma OtherMention()
    ensures !IsCommand(Some("/check@other"), "check", "paybot")
  {
    assert "/check@other" == "/" + "check" + "@" + "other" + [];
    CommandMentioned("check", "other", [], "paybot");
    assert Lower("other")[0] == 'o';
  }

  /** "/check@PayBot" reaches a bot named "paybot". */
  lemma OwnMention()
    ensures IsCommand(Some("/check@PayBot"), "check", "paybot")
  {
    assert "/check@PayBot" == "/" + "check" + "@" + "PayBot" + [];
    CommandMentioned("check", "PayBot", [], "paybot");
    SameUpToCase();
  }

  lemma SameUpToCase()
    ensures Lower("PayBot") == Lower("paybot")
  {
    var a, b := "PayBot", "paybot";
    assert LowerChar(a[0]) == LowerChar(b[0]) && LowerChar(a[3]) == LowerChar(b[3]);
    assert forall i :: 0 <= i < 6 ==> Lower(a)[i] == Lower(b)[i];
  }

  /** What a handled message produced. */
  datatype Outcome =
    | Started(startReply: StartReply)
    | NameReceived(thanked: Option<string>)
    | Checked(checkReply: CheckReply)
    | Unhandled

  /** One incoming message from member `tgId`, routed to the handler aiogram picks. */
  method HandleMessage(sheet: Sheet, gw: Gateway, conv: Conversation, tgId: int, username: Option<string>,
                       text: Option<string>, botName: string, today: Date)
    returns (out: Outcome)
    modifies sheet, gw, conv
    ensures var route := Route(text, old(conv.waitingForName), botName);
      var start := StartDecision(LookupUser(old(sheet.rows), tgId), today);
      route == StartHandler ==>
        out == Started(start.reply) && sheet.rows == old(sheet.rows)
        && gw.trace == old(gw.trace) + Executed(ActionCalls(start.action, tgId), gw.faults)
        && conv.waitingForName == (start.awaitName || old(conv.waitingForName))
    ensures Route(text, old(conv.waitingForName), botName) == FullNameHandler ==>
      gw.trace == old(gw.trace)
      && (text.None? ==> out == NameReceived(None) && sheet.rows == old(sheet.rows) && conv.waitingForName)
      && (text.Some? ==>
            out == NameReceived(Some(Strip(text.value)))
            && sheet.rows == old(sheet.rows) + [NewRecord(tgId, Some(OrEmpty(username)), Some(Strip(text.value)))]
            && !conv.waitingForName)
    ensures var check := CheckDecision(LookupUser(old(sheet.rows), tgId), today);
      Route(text, old(conv.waitingForName), botName) == CheckHandler ==>
        out == Checked(check.reply) && sheet.rows == old(sheet.rows)
        && gw.trace == old(gw.trace) + Executed(ActionCalls(check.action, tgId), gw.faults)
        && conv.waitingForName == old(conv.waitingForName)
    ensures Route(text, old(conv.waitingForName), botName) == NoHandler ==>
      out == Unhandled && sheet.rows == old(sheet.rows) && gw.trace == old(gw.trace)
      && conv.waitingForName == old(conv.waitingForName)
  {
    var route := Route(text, conv.waitingForName, botName);
    match route
    case StartHandler =>
      var reply := CmdStart(sheet, gw, conv, tgId, today);
      return Started(reply);
    case FullNameHandler =>
      var thanked := ProcessFullName(sheet, conv, tgId, username, text);
      return NameReceived(thanked);
    case CheckHandler =>
      var reply := CmdCheck(sheet, gw, tgId, today);
      return Checked(reply);
    case NoHandler =>
      return Unhandled;
  }

  /**
   * "/check" sent while the chat waits for a name is taken as the full
   * name "/check"; sent otherwise it reaches `cmd_check`.
   */
  lemma CheckWhileWaiting(botName: string)
    ensures Route(Some("/check"), true, botName) == FullNameHandler
    ensures Strip("/check") == "/check"
    ensures Route(Some("/check"), false, botName) == CheckHandler
  {
    assert "/check" == "/" + "check" + [];
    CommandPlain("check", [], botName);
    StripTrimmed("/check");
  }
}
