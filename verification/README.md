# Onboarding decision engine of the welcome-dialogue bot

This project models the `VerificationListener` cog of the welcome-dialogue
Discord bot (`src/discord_bot/cogs/verification_listener.py`) and proves
properties of the model in Dafny. The cog puts new members of one guild into
an onboarding flow:

- **Event path** (`on_member_update`): a member passes the rules screen in the
  managed guild, so its `pending` flag goes from true to false. The bot then
  sends a welcome DM, then the role-selection prompt, then grants the
  onboarding role.
- **Reconciliation sweep** (`walk_members`): runs periodically over the members
  that `fetch_members()` yields. Without a `limit` argument that is at most the
  first 1000 members the platform lists (see "## Findings").
  - A member with exactly one role (the default role) that is not pending and
    joined strictly after `NOT_BEFORE` is onboarded: role, then welcome, then
    prompt. This bumps counter `i`.
  - A member whose snapshot holds the onboarding role, and whose private chat
    the bot's client has not cached, gets a prompt.
  - Otherwise the sweep scans at most the 20 newest DM messages, newest first.
    It stops at the first message that answers an interaction. If that
    interaction has expired, it sends a new prompt and bumps counter `j`.
  - `i` and `j` start at zero every sweep and are logged only when non-zero.
- **Start-up reset** (`cog_load`): purges the onboarding channel and posts the
  entry-point prompt.
- **`update_base_roles`**: replies with the prompt. The reply is ephemeral
  unless the caller chose `loud`.

The model is functional. Members, DM histories and the configuration are
immutable snapshots. Every platform call (`send`, `add_roles`, `purge`) is an
`Action` value in an ordered output sequence. Log lines form a separate
sequence. A member's private chat is modelled as two facts: whether the bot's
client has it cached (`member.dm_channel` is not None), and its history on the
platform. Files:

- `wrappers.dfy`: `Option`.
- `snapshots.dfy`: members, messages, interactions, configuration, actions, log
  lines, and counting actions by kind.
- `texts.dfy`: the welcome text and the `update_base_roles` reply.
- `history_scan.dfy`: the 20-message DM scan, as a function and as the loop
  with `break`.
- `sweep.dfy`: the per-member decision, the whole sweep as a function,
  `WalkMembers` (the loop proved equal to it), and the fetch limit.
- `member_update.dfy`: the event path.
- `entry_point.dfy`: the start-up reset and a model of the channel it acts on.

Behaviour the model keeps as the code has it, although it is easy to misread:

- The sweep orders role → welcome → prompt. The event path orders welcome →
  prompt → role.
- Any snapshot holding the onboarding role enters the prompt/resend branch,
  whatever other roles it has.
- The event path grants the role without looking at the member's roles.
- The sweep's two branches are independent `if`s on one unchanged role list.
  Both apply only when the snapshot's single role is the onboarding role. On
  the platform that means the onboarding role is the default role. Sending the
  welcome then opens and caches the private chat. So the second branch scans
  the history, with the two messages just sent in front, instead of prompting
  unconditionally.
- The "no private chat" test reads the client's cache. After a restart it holds
  for every member until the bot writes to them, so each onboarding-role holder
  gets a prompt in the first sweep.
- When none of the 20 newest messages answers an interaction, nothing is sent.

## Model

| member | source | states |
|---|---|---|
| Texts.WelcomeText | src/discord_bot/cogs/verification_listener.py:124-128 | the welcome text opens with "Hey " followed by the member's display name, names the guild at a fixed place after it, and has the length of its parts |
| Texts.WelcomeTextPersonal | src/discord_bot/cogs/verification_listener.py:124-128 | within one guild, equal welcome texts imply equal display names: the greeting is personal |
| Texts.UpdateBaseRoles | src/discord_bot/cogs/verification_listener.py:43-53 | the prompt reply is ephemeral exactly when the mode is not `loud`, including when the option is omitted (default `silent`) |
| HistoryScan.FirstInteraction | src/discord_bot/cogs/verification_listener.py:106-116 | the scan finds nothing exactly when no message carries an interaction; otherwise what it finds is the interaction of the first (newest) carrier |
| HistoryScan.FirstCarrierDecides | src/discord_bot/cogs/verification_listener.py:106-116 | if message k is the first carrying an interaction, the scan's result is that interaction, whatever follows it |
| HistoryScan.ResendDueIffFirstExpired | src/discord_bot/cogs/verification_listener.py:106-116 | a resend is due iff some message among the newest 20 is the first carrying an interaction and that interaction has expired |
| HistoryScan.NoInteractionNoResend | src/discord_bot/cogs/verification_listener.py:106-116 | if none of the newest 20 messages carries an interaction, no resend happens |
| HistoryScan.LaterMessagesIrrelevant | src/discord_bot/cogs/verification_listener.py:106-116 | two histories that agree up to and including the first interaction lead to the same decision |
| HistoryScan.OlderMessagesIrrelevant | src/discord_bot/cogs/verification_listener.py:106 | replacing any message older than the 20 newest never changes the decision |
| HistoryScan.SkipNonCarriers | src/discord_bot/cogs/verification_listener.py:106-109 | messages that answer no interaction, placed in front of a history, do not change which interaction the scan finds |
| HistoryScan.FreshMessagesShrinkWindow | src/discord_bot/cogs/verification_listener.py:106-116 | p leading messages without interaction take p places of the 20-message window: the decision is that of the 20 − p newest older messages |
| HistoryScan.ScanHistory | src/discord_bot/cogs/verification_listener.py:105-116 | the loop that walks the window newest first and breaks at the first interaction returns true iff a resend is due |
| Sweep.MemberStep | src/discord_bot/cogs/verification_listener.py:84-116 | the per-member decision: every action concerns that member, a resend implies the member holds the onboarding role and logs exactly one resend line, and the member gets three actions if onboarded plus one prompt if refreshed or prompted for lack of a cached chat |
| Sweep.Walk | src/discord_bot/cogs/verification_listener.py:81-116 | walking a member list in order: both counters are at most the number of members, and there is one resend log line per increment of `j` |
| Sweep.RunSweep | src/discord_bot/cogs/verification_listener.py:78-122 | a whole sweep: counters bounded by the member count, the log opens with the check line and has one line per resend plus one per non-zero counter |
| Sweep.FetchMembers | src/discord_bot/cogs/verification_listener.py:83 | the sweep iterates the first min(n, 1000) members the platform lists, in order |
| Sweep.SweepGuild | src/discord_bot/cogs/verification_listener.py:78-122 | the sweep over a guild: every action concerns one of the first 1000 listed members, and both counters are at most 1000 |
| Sweep.MembersPastFetchLimitIgnored | src/discord_bot/cogs/verification_listener.py:83 | with distinct ids, a member listed after position 1000 gets no action from the sweep, so it is never onboarded or prompted even when it meets the onboard condition |
| Sweep.WalkOnboardsEveryEligible | src/discord_bot/cogs/verification_listener.py:79-95 | a sweep over the whole member list grants the onboarding role to every member meeting the onboard condition, wherever it is listed |
| Sweep.OnboardBranchIff | src/discord_bot/cogs/verification_listener.py:87-94 | the sweep adds the onboarding role, and sends a welcome, iff the member has exactly one role, is not pending and joined strictly after the cutoff; a member joined at or before the cutoff gets neither |
| Sweep.OnboardBranchEmits | src/discord_bot/cogs/verification_listener.py:87-95 | when the onboard branch fires, the member's actions start with role, welcome, prompt in that order, and are exactly those three unless the snapshot holds the onboarding role |
| Sweep.NoChatSendsOnePrompt | src/discord_bot/cogs/verification_listener.py:98-103 | a role holder not onboarded in this sweep and without a cached private chat gets exactly one prompt, no resend log, and `j` does not move |
| Sweep.OnboardOpensChat | src/discord_bot/cogs/verification_listener.py:87-116 | when both branches apply, the welcome has opened the chat: no unconditional second prompt; a second prompt goes out iff the first interaction among the 18 newest older messages has expired |
| Sweep.ResendBranch | src/discord_bot/cogs/verification_listener.py:98-116 | for a role holder whose chat is open, `j` moves iff the first interaction among the newest 20 scanned messages is expired; that branch adds only a prompt, never a welcome or a role |
| Sweep.ExtraRolesNeverOnboarded | src/discord_bot/cogs/verification_listener.py:87-94 | a member with more than one role (or none) never receives the onboarding role or a welcome from the sweep |
| Sweep.StepCounts | src/discord_bot/cogs/verification_listener.py:87-116 | per member: one role grant and one welcome iff onboarded; prompts = onboarded + refreshed + (prompted for lack of a cached chat) |
| Sweep.WalkCounters | src/discord_bot/cogs/verification_listener.py:81-116 | over a sweep, `i` equals the number of members meeting the onboard condition, `j` is at most the number of role holders and of members, and the action counts agree with the counters |
| Sweep.WalkAddressesMembers | src/discord_bot/cogs/verification_listener.py:83-116 | every action of a walk concerns one of the walked members |
| Sweep.WalkOnboardsOnlyEligible | src/discord_bot/cogs/verification_listener.py:83-95 | every role grant and every welcome of a sweep is addressed to some fetched member whose snapshot meets the onboard condition |
| Sweep.WalkSnoc | src/discord_bot/cogs/verification_listener.py:83-116 | one more member appends exactly that member's actions and log lines; `i` grows by one iff it is onboarded and `j` by one iff it is refreshed |
| Sweep.SweepLogs | src/discord_bot/cogs/verification_listener.py:80-122 | the log opens with the check line; a summary line `VerifiedSummary(n)` appears iff `n == i` and `i > 0`, and `RefreshedSummary(n)` iff `n == j` and `j > 0`; an empty member list yields no actions, zero counters and only the opening line |
| Sweep.WalkLogsAreResends | src/discord_bot/cogs/verification_listener.py:112-114 | during the walk the only log lines are per-member resend lines |
| Sweep.DecideMember | src/discord_bot/cogs/verification_listener.py:84-116 | the loop body for one member, with the welcome opening the chat and the early exit for a missing chat, yields exactly the functional decision |
| Sweep.WalkEach | src/discord_bot/cogs/verification_listener.py:83-116 | the loop over the fetched members, bumping `i` and `j` as the branches fire, computes exactly the functional walk |
| Sweep.WalkMembers | src/discord_bot/cogs/verification_listener.py:78-122 | the opening log line, the loop with counters starting at zero, and the summary line for each non-zero counter compute exactly the functional sweep; both counters are at most the number of members |
| MemberUpdate.OnMemberUpdate | src/discord_bot/cogs/verification_listener.py:57-75 | no actions unless the later snapshot is in the managed guild and `pending` went from true to false; then exactly welcome, prompt, role in that order |
| MemberUpdate.Fires | src/discord_bot/cogs/verification_listener.py:60-63 | the guild and pending-transition test holds exactly when the event path emits any action |
| MemberUpdate.EventAndSweepOrders | src/discord_bot/cogs/verification_listener.py:67-94 | the event path and the sweep's onboard branch perform the same multiset of actions in different orders; the event path grants the role last, the sweep first |
| MemberUpdate.OnlyBeforePendingMatters | src/discord_bot/cogs/verification_listener.py:60-63 | of the earlier snapshot only `pending` matters; the guild filter reads the later snapshot |
| MemberUpdate.NoRoleGuard | src/discord_bot/cogs/verification_listener.py:63-75 | when the update fires, the role is granted and exactly one welcome is sent, whatever roles the member already holds |
| MemberUpdate.OnboardingScenario | src/discord_bot/cogs/verification_listener.py:57-116 | after the event path onboards a member, a sweep seeing it with default and onboarding roles and a cached chat sends nothing while its newest interaction is live and exactly one prompt once it has expired; without a cached chat it sends one prompt regardless |
| EntryPoint.CogLoad | src/discord_bot/cogs/verification_listener.py:29-36 | the reset leaves, whatever the channel held, the messages older than the 100 newest followed by the entry-point prompt; a channel of at most 100 messages then holds the prompt alone |
| EntryPoint.PurgeThenPost | src/discord_bot/cogs/verification_listener.py:33-36 | purging with a limit and then posting leaves the messages older than the purge window followed by the entry-point prompt |
| EntryPoint.CogLoadEndsWithEntryPoint | src/discord_bot/cogs/verification_listener.py:29-36 | whatever the channel held, after the reset its newest message is the entry-point prompt, preceded only by the oldest messages beyond the purge window |
| EntryPoint.CogLoadLeavesOnlyEntryPoint | src/discord_bot/cogs/verification_listener.py:33-36 | a channel with at most 100 prior messages holds exactly the entry-point prompt after the reset |
| EntryPoint.CogLoadKeepsOlderMessages | src/discord_bot/cogs/verification_listener.py:33 | with 101 prior messages the oldest one survives the reset beside the entry-point prompt |
## Left out

- Transport calls (`send`, `add_roles`, `purge`, `fetch_members`, `history`) are foreign I/O. They are modelled as emitted `Action`s and as input sequences (the fetched member list, the DM history).
- `add_roles` does not change the snapshot being iterated. This matches the code, which reads `member.roles` of the fetched object.
- The client's private-chat cache is an input flag per member (`dmCached`). How it is filled by other code paths (the event path, the buttons, gateway events) is not modelled; within one sweep step the model updates it only for the welcome the sweep itself sends.
- The order in which the platform lists members is taken as given; the model relies only on the fetch keeping the first 1000 of it.
- `tasks.loop` scheduling, `CHECK_PERIOD`, and interleaving of the event path with the sweep are concurrency and timer plumbing. They are not modelled.
- Exceptions raised by transport calls are not modelled. The code has no per-member handling, so a failure ends the whole sweep or event.
- `joined_at` is an integer timestamp. Time-zone stripping and a missing `joined_at` (which the platform permits) are not modelled.
- The button views (`OnboardingButtons`, `EntryPointView`) and their callbacks are not part of this model. Prompts are opaque `SendPrompt`/`SendEntryPoint` actions.
- The environment constants (`GUILD`, `ONBOARDING_ROLE`, `NOT_BEFORE`, guild name) are fields of `Config`. `ROLES`, `START_CHANNEL` and the constructor's role and channel lookups are not used by the modelled logic.
- The German prompt texts and log sinks are not modelled. Only the welcome text's structure is kept, since it is personalised. Log lines are kept as values, in their own sequence, without their relative order to the actions.
- `setup.py` (packaging) and `src/discord_bot/cogs/misc.py` (a ping command and empty stubs) have no onboarding logic.
- EntryPoint.CogLoadLeavesOnlyEntryPoint: requires at most 100 prior messages. `purge()` called without a `limit` deletes only the 100 newest messages by the platform library's default, so older messages survive (`CogLoadKeepsOlderMessages`).

## Findings

| source | as written | input that shows it | evidently intended | confidence | as-written member | corrected member |
|---|---|---|---|---|---|---|
| src/discord_bot/cogs/verification_listener.py:83 | `self.guild.fetch_members()` passes no `limit`, and the platform library then yields at most 1000 members, in ascending id order | a guild of 1001 members with distinct ids whose last-listed member has one role, is not pending and joined after the cutoff | walk every member, as the docstring at :79 says ("Walk all members"); `fetch_members(limit=None)` does that | not executed; medium: rests on the library's default `limit=1000` | Sweep.MembersPastFetchLimitIgnored | Sweep.WalkOnboardsEveryEligible |
