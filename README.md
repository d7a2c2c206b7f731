# Subscription core of the Sowatly Telegram bot, in Dafny

The bot sells access to a private Telegram chat and channel. Members and
their payments live in a Google Sheets worksheet, one row per member:
`telegram_id, username, full_name, paid, expiry_date`. An administrator
confirms each payment by hand, writing `yes` and an expiry date into the row.
The bot has three parts.

- `/start` registers a newcomer by asking for a full name. A member who is
  already registered gets a reply about their state instead.
- `/check` looks up the member and reads whether the payment is confirmed
  and when it expires. An active member gets two single-use invite links,
  one for the chat and one for the channel. An expired member is removed
  from both groups: banned, then unbanned.
- A background sweep runs every few minutes. It walks the sheet and removes
  every paid member whose expiry date has passed.

This project models that core of `main.py` and proves properties of the
model. The modules follow the program's layers:

| module | file | models |
|---|---|---|
| `Wrappers` | `wrappers.dfy` | `Option` |
| `Text` | `text.dfy` | Python's `str.strip`, `str.lower`, `str(int)` and `int(str)` on the texts the bot handles |
| `Dates` | `dates.dfy` | `parse_date_or_none`: `datetime.strptime(s.strip(), "%Y-%m-%d").date()`, and `date.isoformat()` |
| `Store` | `store.dfy` | the worksheet as a class `Sheet` over `seq<seq<string>>`, with `find_row_by_telegram_id`, `read_user`, `update_user_fields` and `add_user_record` |
| `Membership` | `membership.dfy` | the Telegram calls as a class `Gateway` that records a trace of calls, and the two `try` blocks: the revoke block and `send_invite_links` |
| `Subscription` | `subscription.dfy` | the decision trees of `cmd_check` and `cmd_start`; an independent four-state classification of a member (not registered, awaiting payment, active until a date, expired since a date) as the reference the two trees are checked against |
| `Sweep` | `sweep.dfy` | one cycle of `subscription_watcher` |
| `Handlers` | `handlers.dfy` | `cmd_start`, `process_full_name` and `cmd_check` as methods over a `Sheet`, a `Gateway` and a `Conversation` holding the "waiting for full name" flag |
| `Router` | `router.dfy` | aiogram's dispatch of a message to the first registered handler whose filters accept it, with the `Command` filter on the message text |

Modelling choices:

- **Dates.** Today's date is a parameter. Dates are `Date(year, month, day)`
  values with `IsValid` (years 1 to 9999, as `datetime` allows) and a strict
  lexicographic `Before`.
- **Sheet rows.** Rows are numbered from 1, as the sheet numbers them, and
  row 1 is the header. A cell a row does not reach reads as "".
- **Gateway calls.** The gateway's only state is its trace. Its behaviour is
  the set `faults` of calls that raise, so a block issues its calls up to
  and including the first one in `faults` (`Membership.Executed`). The test
  is `c in faults`, which captures every failure pattern within one block:
  a group where the bot lacks admin rights, a member Telegram cannot ban, a
  link it refuses to create.
- **Replies.** Replies are tags such as `SubscriptionExpired` or
  `ActiveUntil(date)`, not the Russian texts.

In these places the code behaves differently from what its purpose suggests, and the model follows the code:

- **Date formats.** Expiry dates are meant to be written only as `YYYY-MM-DD`.
  strptime's `%m` and `%d` also accept one digit, and `%d` accepts a space
  before a single digit, so "2024-1-5" and "2024-01- 5" are read as
  5 January 2024 (`Dates.ParseOneDigitFields`, `Dates.ParseSpacedDay`).
  Other layouts, impossible days and trailing text still give no date.
- **Failures across groups.** A failure in one group is meant to
  leave the other group unaffected. In the code one `try` covers all four revoke calls, so a failure
  in the chat skips the channel (`Membership.RevokeOrder`).
- **Partial invite links.** Invite links are meant to be best effort: the
  member would get whatever link was created. In the code, a failure to create
  the channel link also prevents sending the chat link, so the member
  receives no message at all (`Membership.InviteLinksBeforeMessages`).
- **`/start` with no usable date.** `/start` answers "subscription ended"
  both for a paid member whose expiry is past and for a paid member with
  no parseable expiry. It never revokes. `/check` separates the two cases:
  it revokes the first and answers "expiry not set" to the second
  (`Subscription.StartFollowsClassify`).
- **How the two paths read the id.** The sweep reads the id with `int()`.
  `/check` compares the stripped cell with `str(tg_id)`. A row holding
  "007" is therefore revoked by the sweep as member 7, while `/check` from
  member 7 never finds that row (`Sweep.LeadingZeroIdDiverges`). When the
  first row holding the id is written canonically, the sweep's verdict on
  that row agrees with `/check` (`Sweep.SweepAgreesWithLookup`).
- **`/check` while a name is awaited.** After `/start` asks for the full
  name, the member is meant to be able to check on their registration. In
  the code, `process_full_name` has no filter but the state and is
  registered before `cmd_check`. So while the name is awaited, every message
  except `/start` is taken as the name, `/check` included: "/check" is
  stored as the member's full name and the state clears
  (`Router.RouteWhileWaiting`, `Router.CheckWhileWaiting`).
- **Several rows for one id.** `/check` and `/start` read only the first
  row holding the id. The sweep reads every row. A second row for the same
  member can come from two registrations racing, or from an administrator
  adding the row while the member is still asked for a name. If the first
  row is active and a later one is paid and expired, `/check` sends the
  links while every cycle of the sweep revokes the member
  (`Sweep.DuplicateRowsDiverge`, with a concrete instance in
  `Sweep.DuplicateRowsExample`).

## Model

| member | source | states |
|---|---|---|
| Text.StripShape | main.py:53 | `strip()` yields the middle of the text: the text is leading whitespace, the result and trailing whitespace, and the result has no whitespace at either end |
| Text.StripPadded | main.py:84 | surrounding whitespace is exactly what `strip()` removes from a trimmed text |
| Text.LowerIsYes | main.py:67 | the lowered `paid` cell is "yes" exactly for the eight spellings y/Y, e/E, s/S, so "YES" counts as paid |
| Text.ParseIntOfIntToString | main.py:199 | `int(str(n)) == n` for every integer, so the id `add_user_record` writes reads back as the same id |
| Text.LeadingZeroValue | main.py:199 | a leading zero changes an id's text but not the number `int()` reads from it |
| Dates.ParseDate | main.py:80-86 | the empty text gives no date; every date returned is a valid calendar date |
| Dates.ParseIsoText | main.py:80-86 | `YYYY-MM-DD` text with any whitespace around it parses to the date it names when that date exists, and to `None` when it does not (day 30 of February, month 13, year 0000) |
| Dates.ParseIsoFormat | main.py:80-86 | for every valid date, parsing its `isoformat()` text, with or without whitespace around it, gives the date back |
| Dates.ParsedShape | main.py:84 | only a stripped text of 8 to 10 characters starting with four year digits and a '-', with a second '-' at position 6 or 7, parses at all, and the year is those four digits |
| Dates.ParseOneDigitFields | main.py:84 | "2024-1-5" parses to 5 January 2024 |
| Dates.ParseSpacedDay | main.py:84 | "2024-01- 5" parses to 5 January 2024 |
| Dates.ParseNoFebruary30 | main.py:84-86 | "2023-02-30" gives no date |
| Dates.ParseDottedRejected | main.py:84-86 | "01.02.2024" gives no date |
| Store.Sheet.FindRowByTelegramId | main.py:50-55 | the loop returns `FirstMatch` of the rows for `str(tg_id)` |
| Store.FirstMatchIsFirst | main.py:50-55 | `None` exactly when no stripped first cell equals the key; otherwise the smallest 1-based matching row, so with duplicates the first row wins |
| Store.FirstMatchFound | main.py:50-55 | a returned row number is within the sheet and its row matches the key |
| Store.Sheet.ReadUser | main.py:60-69 | the user read is `UserOf` the row's values, padded with five empty cells |
| Store.UserOfColumns | main.py:60-69 | all five fields are present, missing trailing columns read as "", and `paid` is the lowered cell |
| Store.LookupReadsFirstMatch | main.py:144-149 | a found member is read from the first row that holds the id |
| Store.Sheet.AddUserRecord | main.py:57-58 | exactly one row `[str(id), username or "", full_name or "", "no", ""]` is appended; earlier rows are unchanged |
| Store.NewRecordReads | main.py:57-58 | the appended row matches its own id and reads as not paid with no expiry |
| Store.FirstMatchKeptByAppend | main.py:57-58 | appending a row never changes a match already present |
| Store.FirstMatchOfAppended | main.py:57-58 | after appending a matching row to a sheet without a match, the match is that new last row |
| Store.RegisteredMemberFound | main.py:57-58 | after registering a member the sheet did not hold, the lookup finds the new last row, which reads as not paid with no expiry |
| Store.WriteRow | main.py:78 | writing row `k` replaces that row and keeps every other one; a row past the last one extends the sheet with empty rows in between |
| Store.Sheet.UpdateUserFields | main.py:71-78 | the target row becomes `UpdatedRow` of its values (none for a row past the last one), written with `WriteRow`; every other row is unchanged |
| Store.UpdateKeepsUnnamedColumns | main.py:71-78 | a column no pair of `fields` names keeps its old cell |
| Store.UpdateWritesNamedColumn | main.py:71-78 | a named column takes the value of the last pair naming it |
| Store.UpdateIgnoresUnknownKey | main.py:71-78 | a pair whose key is not one of the five field names changes nothing |
| Store.FieldValueLastNaming | main.py:75-77 | when no later pair names the same column, the last write to it is that pair's value |
| Store.UpdatePayloadOverflows | main.py:72-78 | the list sent holds the row's length plus five values, more than the five cells A to E whenever the row has a value; its first five values are `UpdatedRow`'s |
| Store.FirstMatchReplaceRow | main.py:71-78 | replacing a row by one holding the same id keeps every member's first match |
| Store.FirstMatchAfterRewrite | main.py:71-78 | rewriting the matched row without touching its id keeps it the first match |
| Store.LookupAfterRewrite | main.py:71-78 | after such a rewrite the member is found at the same row and reads as the new values |
| Subscription.CheckDecision | main.py:144-174 | five outcomes: not registered exactly without a row; not confirmed exactly when `paid != "yes"`, whatever the expiry; no expiry exactly when paid without a parseable date; a revoke exactly when paid with a date before today; otherwise links and that date, which is not before today |
| Subscription.StartDecision | main.py:99-117 | asks for the name and starts waiting exactly when there is no row; links exactly when paid with a date on or after today; "subscription ended" when paid with no date or a past date; not confirmed when unpaid; never revokes |
| Subscription.CheckFollowsClassify | main.py:144-174 | `/check` refines the four statuses (unregistered, awaiting payment, active, expired): links for active, revoke for expired, no action otherwise |
| Subscription.StartFollowsClassify | main.py:99-117 | `/start` gives links for active members, "subscription ended" for expired members and for paid members without a valid date, and asks for a name only when unregistered |
| Subscription.StartAndCheckGrantAlike | main.py:104-108 | `/start` and `/check` grant links for the same rows and days, with the same expiry |
| Membership.Attempted | main.py:161-169 | a block never issues more calls than it holds |
| Membership.AttemptedUpToFirstFault | main.py:161-169 | every call before the last one issued succeeded; a block stops early only because its last issued call raised; with no failure every call is issued |
| Membership.Gateway.Invoke | main.py:162 | one call is appended to the trace, and it raises exactly when it is one of the gateway's faults |
| Membership.Gateway.RunBlock | main.py:161-169 | the trace gains the block's calls up to and including the first that raises; an error is logged exactly when some call raises; nothing is re-raised |
| Membership.Gateway.RevokeMember | main.py:161-169 | the trace gains the revoke block's executed calls |
| Membership.Gateway.SendInviteLinks | main.py:179-186 | the trace gains the invite block's executed calls |
| Membership.ExecutedFaultFree | main.py:161-169 | with no failing call a block issues all its calls |
| Membership.ExecutedStopsAtFault | main.py:161-169 | no call follows the first one that raises |
| Membership.RevokeOrder | main.py:161-169 | ban chat, unban chat, ban channel, unban channel in that order; a failed chat ban or unban skips the channel; only ban and unban calls for that member are issued |
| Membership.InviteLinksBeforeMessages | main.py:179-186 | both `member_limit=1` links are created before either message; a message goes out only when both links were created |
| Sweep.SweepTargetMeaning | main.py:195-207 | a row is revoked exactly when its stripped id reads as an integer, `paid` lowers to "yes" and the expiry parses to a date before today, and then that id is revoked |
| Sweep.RowTarget | main.py:195-207 | the early `continue`s of the loop body pick `SweepTarget` of the row |
| Sweep.SweepRow | main.py:195-216 | one record adds its revoke block's executed calls, or none |
| Sweep.SweepCycle | main.py:193-216 | the trace gains `SweepTrace` of the data rows' verdicts, in row order; the sheet is only read |
| Sweep.SweepStartsEveryRevoke | main.py:208-216 | a failure never ends the cycle: every target's revoke block starts, in row order, and nobody else's does |
| Sweep.SweepFaultFree | main.py:208-216 | when no ban or unban raises, the cycle issues exactly four revoke calls per target, in row order |
| Sweep.SweepOnlyRevokesTargets | main.py:208-216 | the cycle only bans and unbans, and only members it targets |
| Sweep.TargetsAreRevokedRows | main.py:194-207 | an id is among the targets exactly when some row's verdict is to revoke it |
| Sweep.SweepAgreesWithCheck | main.py:159 | for a row whose stripped id is `str(tg_id)`, the sweep revokes `tg_id` exactly when `/check` takes its expired branch on the same day |
| Sweep.SweepAgreesWithLookup | main.py:144-159 | the same for the first row holding `str(tg_id)`, the one `/check` finds; later rows with that id are not covered (see `Sweep.DuplicateRowsDiverge`) |
| Sweep.RevokedRowIsTarget | main.py:194-207 | a data row whose verdict is to revoke a member puts that member among the cycle's targets |
| Sweep.DuplicateRowsDiverge | main.py:50-55 | with an active first row and a later paid, expired row for the same id, `/check` grants the links while the sweep revokes the member |
| Sweep.DuplicateRowsExample | main.py:194-216 | for member 5 with rows dated 2099-01-01 and then 2020-01-01, on 1 January 2024 `/check` grants the links while the sweep revokes the member |
| Sweep.LeadingZeroIdDiverges | main.py:195-199 | an id written with a leading zero is revoked by the sweep as the number it denotes once paid and expired, but never matches that member's `str(tg_id)` |
| Handlers.CmdStart | main.py:98-117 | the reply is `StartDecision`'s; the trace gains the executed calls of its action; the waiting flag is set exactly when there is no row and is otherwise left as it was |
| Handlers.ProcessFullName | main.py:123-136 | with text: one row with the stripped text as full name is appended, and the flag clears; with no text the handler raises before writing, and nothing changes |
| Handlers.CmdCheck | main.py:142-174 | the reply is `CheckDecision`'s; the trace gains exactly the executed revoke or invite calls of its action |
| Handlers.RegisteredMemberAwaitsPayment | main.py:128 | right after registering, `/check` and `/start` both answer "payment not confirmed", do nothing on the groups, and `/start` no longer asks for the name |
| Handlers.ConfirmedRowReads | main.py:71-78 | after the corrected update (`Store.Sheet.UpdateUserFields`), or the same edit made by hand, the row keeps its id, reads as paid and expires on the date written |
| Handlers.ConfirmedMemberChecks | main.py:150-174 | after the corrected update (`Store.Sheet.UpdateUserFields`), or the same edit made by hand, marks the member paid up to a date, `/check` sends links and reports that date if it is not past, and revokes otherwise |
| Router.CommandPlain | main.py:97 | "/name", then nothing or whitespace and arguments, passes the `Command` filter for `name` |
| Router.CommandMentioned | main.py:141 | "/name@mention" passes the filter for `name` exactly when the bot has no username or the mention names it up to case |
| Router.StartWithPayload | main.py:97 | a `/start` with a deep-link argument still reaches `cmd_start` |
| Router.MentionMustNameTheBot | main.py:141 | "/check@other" is not a command for the bot "paybot"; "/check@PayBot" is |
| Router.RouteWhileWaiting | main.py:97-141 | while the chat waits for a name, exactly the messages other than `/start` go to `process_full_name`; otherwise that handler never runs; `/start` always reaches `cmd_start`, and `/check` reaches `cmd_check` exactly when no name is awaited |
| Router.HandleMessage | main.py:97-141 | a message runs the handler `Route` picks, with that handler's reply and new state, and an unhandled message changes nothing |
| Router.CheckWhileWaiting | main.py:122-136 | "/check" sent while a name is awaited is stored as the full name "/check"; sent otherwise it reaches `cmd_check` |

## Left out

- The texts of the replies. Replies are tags.
- aiogram's middleware, its FSM storage and the other update types. The FSM state is one "waiting for full name" flag per conversation, and `Router.HandleMessage` routes one text message at a time.
- Captions. aiogram's `Command` filter also reads `message.caption` when a message has no text; the model only has the text. The bot's username, which the filter fetches with `bot.me()`, is the parameter `botName`.
- The gspread and oauth2client clients, `.env` and configuration loading (main.py:13-48). These are foreign library calls and process setup.
- `asyncio.sleep`, the `while True` timer loop and `asyncio.create_task` (main.py:192, main.py:217, main.py:222-224). One pass of the loop is `Sweep.SweepCycle`.
- `date.today()`. Today's date is a parameter.
- The race between the lookup and the append in registration, and between `/check` and the sweep on the same row. This is concurrency on an external store.
- `get_all_records`' mapping by header names and its numericising of cell values. The sweep reads the data rows by position in the header's order: telegram_id, username, full_name, paid, expiry_date. A numeric `paid` cell, on which `.lower()` would raise and stop the watcher, is not modelled.
- Python's `int()` accepts underscores between digits and non-ASCII decimal digits. The model reads only an optional sign and ASCII digits. strptime's `\d` likewise matches only ASCII digits here.
- `str.lower()` is modelled for ASCII letters only. This does not change whether a cell lowers to "yes".
- `Store.Sheet.UpdateUserFields`: writes the five cells A to E that the range names, not the longer list the source sends (see Findings). For a row past the last one the source's list has exactly five values, so there the as-written code and the model agree. Values are already text, so `str(v)` is the identity. A row number below 1 is not modelled: the range `A0:E0` names no cells.
- `Membership.Gateway`: a call raises or succeeds the same way every time it is made. A failure that comes and goes between two identical calls, such as a rate limit in one cycle but not the next, is not modelled.
- The link strings that `create_chat_invite_link` returns, and the messages that carry them. A message is recorded as the member and the group whose link it carries.
- How the sheet formats a written id. An id can come back as something other than `str(tg_id)`, for instance in scientific notation.

## Findings

| source | as written | input that shows it | evidently intended | confidence | as-written member | corrected member |
|---|---|---|---|---|---|---|
| main.py:72-78 | `update_user_fields` writes the row padded with five empty cells, `len(row) + 5` values, into the five-cell range `A{row}:E{row}` | `update_user_fields(2, {"paid": "yes"})` on a row `["123", "ann", "Ann Lee", "no", ""]` sends ten values to A2:E2, which the Sheets API refuses | write the five columns A to E, leaving the rest of the row | medium, not executed; depends on the Sheets API refusing values beyond the range; the function is never called in this file | Store.UpdatePayloadOverflows | Store.Sheet.UpdateUserFields |
