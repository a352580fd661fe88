/**
 * The periodic reconciliation sweep (`walk_members`): for every fetched
 * member, onboard it if it accepted the rules but was missed, and re-send the
 * role-selection prompt to members holding the onboarding role whose prompt
 * can no longer be answered. Counters `i` (onboarded) and `j` (prompts
 * re-sent) start at zero every sweep and are logged only when non-zero.
 *
 * `Walk` and `RunSweep` are the functional definition; `WalkMembers` is the
 * loop the listener runs, proved to compute the same outcome. `FetchMembers`
 * and `SweepGuild` model which members the sweep gets to see.
 */
module Sweep {
  import opened Wrappers
  import opened Snapshots
  import opened Texts
  import opened HistoryScan

  /** What one member contributes: its actions, whether it bumps `i` or `j`, and its log lines. */
  datatype Step = Step(actions: seq<Action>, onboarded: bool, refreshed: bool, logs: seq<LogLine>)

  /** The accumulated result of walking a list of members. */
  datatype Outcome = Outcome(actions: seq<Action>, i: nat, j: nat, logs: seq<LogLine>)

  /** The condition of the sweep's first branch: rules accepted, no role beyond the default, joined after the cutoff. */
  predicate TakesOnboardBranch(cfg: Config, m: Member) {
    |m.roles| == 1 && !m.pending && m.joinedAt > cfg.notBefore
  }

  /** The sweep's onboarding sequence: role first, then welcome, then the prompt. */
  function SweepOnboardActions(cfg: Config, m: Member): (r: seq<Action>) {
    [AddOnboardingRole(m.id), SendWelcome(m.id, WelcomeText(m.displayName, cfg.guildName)), SendPrompt(m.id)]
  }

  /**
   * The welcome and the prompt the onboard branch has just sent, newest first;
   * neither answers an interaction.
   */
  const FreshMessages: seq<Message> := [Message(None), Message(None)]

  /**
   * The private chat history the second branch reads. Sending the welcome
   * opens and caches the chat, so after the onboard branch the two messages it
   * sent lead the history.
   */
  function ScannedHistory(cfg: Config, m: Member): (h: seq<Message>) {
    if TakesOnboardBranch(cfg, m) then FreshMessages + m.dmHistory else m.dmHistory
  }

  /** The member holds the onboarding role and the bot has no cached private chat with it. */
  predicate PromptsWithoutChat(cfg: Config, m: Member) {
    cfg.onboardingRole in m.roles && !m.dmCached && !TakesOnboardBranch(cfg, m)
  }

  /** The decision the sweep takes for one member snapshot. */
  function MemberStep(cfg: Config, m: Member): (s: Step)
    ensures forall t :: 0 <= t < |s.actions| ==> s.actions[t].AddressedTo(m.id)
    ensures s.logs == if s.refreshed then [SentNewInteraction(m.id)] else []
    ensures s.refreshed ==> cfg.onboardingRole in m.roles
    ensures |s.actions| == 3 * Bump(s.onboarded) + Bump(s.refreshed || PromptsWithoutChat(cfg, m))
  {
    var onboarded := TakesOnboardBranch(cfg, m);
    var first := if onboarded then SweepOnboardActions(cfg, m) else [];
    if cfg.onboardingRole !in m.roles then
      Step(first, onboarded, false, [])
    else if !(m.dmCached || onboarded) then
      Step(first + [SendPrompt(m.id)], onboarded, false, [])
    else if ResendDue(ScannedHistory(cfg, m)) then
      Step(first + [SendPrompt(m.id)], onboarded, true, [SentNewInteraction(m.id)])
    else
      Step(first, onboarded, false, [])
  }

  function Bump(b: bool): nat {
    if b then 1 else 0
  }

  /** The outcome of deciding every member of `ms`, in order. */
  function Walk(cfg: Config, ms: seq<Member>): (o: Outcome)
    ensures o.i <= |ms| && o.j <= |ms|
    ensures |o.logs| == o.j
    decreases |ms|
  {
    if |ms| == 0 then Outcome([], 0, 0, [])
    else
      var o := Walk(cfg, ms[..|ms| - 1]);
      var s := MemberStep(cfg, ms[|ms| - 1]);
      Outcome(o.actions + s.actions, o.i + Bump(s.onboarded), o.j + Bump(s.refreshed), o.logs + s.logs)
  }

  /** The summary log lines, one per non-zero counter. */
  function SummaryLogs(i: nat, j: nat): (r: seq<LogLine>) {
    (if i > 0 then [VerifiedSummary(i)] else []) + (if j > 0 then [RefreshedSummary(j)] else [])
  }

  /** One whole sweep over the fetched members: counters start at zero, the walk, then the summary lines. */
  function RunSweep(cfg: Config, ms: seq<Member>): (o: Outcome)
    ensures o.i <= |ms| && o.j <= |ms|
    ensures |o.logs| == 1 + o.j + Bump(o.i > 0) + Bump(o.j > 0)
    ensures o.logs[0] == ExecutingCheck
  {
    var o := Walk(cfg, ms);
    Outcome(o.actions, o.i, o.j, [ExecutingCheck] + o.logs + SummaryLogs(o.i, o.j))
  }

  // ---------------------------------------------------------------------------
  // Which members a sweep sees

  /** The number of members `fetch_members()` without a `limit` argument yields at most. */
  const FetchDefaultLimit: nat := 1000

  /**
   * The members the sweep iterates: the guild's members in the order the
   * platform lists them (ascending id), cut off after `FetchDefaultLimit`.
   */
  function FetchMembers(guildMembers: seq<Member>): (r: seq<Member>)
    ensures |r| == if |guildMembers| < FetchDefaultLimit then |guildMembers| else FetchDefaultLimit
    ensures r == guildMembers[..|r|]
  {
    if |guildMembers| <= FetchDefaultLimit then guildMembers else guildMembers[..FetchDefaultLimit]
  }

  /** The sweep as the listener runs it on a guild: over the fetched members only. */
  function SweepGuild(cfg: Config, guildMembers: seq<Member>): (o: Outcome)
    ensures o.i <= FetchDefaultLimit && o.j <= FetchDefaultLimit
    ensures forall a :: a in o.actions ==>
      exists k :: 0 <= k < |guildMembers| && k < FetchDefaultLimit && a.AddressedTo(guildMembers[k].id)
  {
    var fetched := FetchMembers(guildMembers);
    WalkAddressesMembers(cfg, fetched);
    assert forall k :: 0 <= k < |fetched| ==> fetched[k] == guildMembers[k];
    RunSweep(cfg, fetched)
  }

  /** Member ids are distinct, as on the platform. */
  predicate DistinctIds(ms: seq<Member>) {
    forall s, t :: 0 <= s < t < |ms| ==> ms[s].id != ms[t].id
  }

  /**
   * A member listed after the first `FetchDefaultLimit` is never reached: no
   * action of the sweep concerns it, so even a member meeting the onboard
   * condition is never onboarded.
   */
  lemma MembersPastFetchLimitIgnored(cfg: Config, guildMembers: seq<Member>, k: int)
    requires DistinctIds(guildMembers) && FetchDefaultLimit <= k < |guildMembers|
    ensures forall a :: a in SweepGuild(cfg, guildMembers).actions ==> !a.AddressedTo(guildMembers[k].id)
    ensures AddOnboardingRole(guildMembers[k].id) !in SweepGuild(cfg, guildMembers).actions
    ensures SendPrompt(guildMembers[k].id) !in SweepGuild(cfg, guildMembers).actions
  {
    forall a | a in SweepGuild(cfg, guildMembers).actions
      ensures !a.AddressedTo(guildMembers[k].id)
    {
      var t :| 0 <= t < |guildMembers| && t < FetchDefaultLimit && a.AddressedTo(guildMembers[t].id);
      assert guildMembers[t].id != guildMembers[k].id;
    }
    assert AddOnboardingRole(guildMembers[k].id).AddressedTo(guildMembers[k].id);
    assert SendPrompt(guildMembers[k].id).AddressedTo(guildMembers[k].id);
  }

  /**
   * Walking the whole member list, as the sweep is meant to, onboards every
   * member meeting the onboard condition, wherever it is listed.
   */
  lemma {:induction false} WalkOnboardsEveryEligible(cfg: Config, ms: seq<Member>, k: int)
    requires 0 <= k < |ms| && TakesOnboardBranch(cfg, ms[k])
    ensures AddOnboardingRole(ms[k].id) in RunSweep(cfg, ms).actions
    decreases |ms|
  {
    var init, m := ms[..|ms| - 1], ms[|ms| - 1];
    if k == |ms| - 1 {
      assert MemberStep(cfg, m).actions[0] == AddOnboardingRole(m.id);
      assert AddOnboardingRole(m.id) in MemberStep(cfg, m).actions;
    } else {
      assert init[k] == ms[k];
      WalkOnboardsEveryEligible(cfg, init, k);
    }
  }

  // ---------------------------------------------------------------------------
  // One member

  /**
   * The sweep adds the onboarding role, and sends a welcome, exactly when the
   * member has no role beyond the default one, has accepted the rules and
   * joined strictly after the cutoff; in particular a member who joined at or
   * before the cutoff never gets either from the sweep.
   */
  lemma OnboardBranchIff(cfg: Config, m: Member)
    ensures AddOnboardingRole(m.id) in MemberStep(cfg, m).actions
      <==> |m.roles| == 1 && !m.pending && m.joinedAt > cfg.notBefore
    ensures CountKind(MemberStep(cfg, m).actions, WelcomeKind) > 0
      <==> |m.roles| == 1 && !m.pending && m.joinedAt > cfg.notBefore
    ensures m.joinedAt <= cfg.notBefore ==>
      CountKind(MemberStep(cfg, m).actions, RoleKind) == 0
      && CountKind(MemberStep(cfg, m).actions, WelcomeKind) == 0
  {
    var s := MemberStep(cfg, m);
    var first, tail := StepShape(cfg, m);
    CountKindAppend(first, tail, WelcomeKind);
    CountKindAppend(first, tail, RoleKind);
    if TakesOnboardBranch(cfg, m) {
      assert s.actions[0] == AddOnboardingRole(m.id);
      assert CountKind(first, WelcomeKind) == 1;
    } else {
      assert first == [];
      assert AddOnboardingRole(m.id) !in tail;
    }
  }

  /**
   * Every step splits into the onboarding sequence (possibly empty) followed
   * by at most one prompt.
   */
  lemma StepShape(cfg: Config, m: Member) returns (first: seq<Action>, tail: seq<Action>)
    ensures first == if TakesOnboardBranch(cfg, m) then SweepOnboardActions(cfg, m) else []
    ensures tail == [] || tail == [SendPrompt(m.id)]
    ensures MemberStep(cfg, m).actions == first + tail
    ensures |tail| == 1 <==> PromptsWithoutChat(cfg, m) || MemberStep(cfg, m).refreshed
  {
    first := if TakesOnboardBranch(cfg, m) then SweepOnboardActions(cfg, m) else [];
    tail := MemberStep(cfg, m).actions[|first|..];
    assert MemberStep(cfg, m).actions == first + tail;
  }

  /**
   * When the onboard branch fires it emits role, welcome and prompt in that
   * order, and exactly those unless the snapshot also holds the onboarding role.
   */
  lemma OnboardBranchEmits(cfg: Config, m: Member)
    requires TakesOnboardBranch(cfg, m)
    ensures MemberStep(cfg, m).onboarded
    ensures MemberStep(cfg, m).actions[..3]
      == [AddOnboardingRole(m.id), SendWelcome(m.id, WelcomeText(m.displayName, cfg.guildName)), SendPrompt(m.id)]
    ensures cfg.onboardingRole !in m.roles ==> |MemberStep(cfg, m).actions| == 3
  {
  }

  /**
   * A member holding the onboarding role, not onboarded in this sweep, with no
   * cached private chat gets exactly one prompt; its history is not consulted
   * and `j` does not move.
   */
  lemma NoChatSendsOnePrompt(cfg: Config, m: Member)
    requires cfg.onboardingRole in m.roles && !m.dmCached && !TakesOnboardBranch(cfg, m)
    ensures MemberStep(cfg, m).actions == [SendPrompt(m.id)]
    ensures !MemberStep(cfg, m).refreshed && MemberStep(cfg, m).logs == []
  {
  }

  /**
   * When both branches apply (the snapshot's only role is the onboarding
   * role), the welcome has opened the private chat, so the second branch scans
   * the history instead of prompting unconditionally: the two messages just
   * sent take two places of the window, and a second prompt goes out exactly
   * when the first interaction among the `HistoryLimit - 2` newest older
   * messages has expired.
   */
  lemma OnboardOpensChat(cfg: Config, m: Member)
    requires TakesOnboardBranch(cfg, m) && cfg.onboardingRole in m.roles
    ensures MemberStep(cfg, m).refreshed
      == ResendDue(m.dmHistory[..if |m.dmHistory| < HistoryLimit - 2 then |m.dmHistory| else HistoryLimit - 2])
    ensures MemberStep(cfg, m).actions
      == SweepOnboardActions(cfg, m) + (if MemberStep(cfg, m).refreshed then [SendPrompt(m.id)] else [])
  {
    FreshMessagesShrinkWindow(FreshMessages, m.dmHistory);
  }

  /**
   * For a member holding the onboarding role whose private chat is open, the
   * resend branch adds a prompt and bumps `j` exactly when the first
   * interaction among the newest `HistoryLimit` messages has expired, and adds
   * nothing else: no welcome and no role.
   */
  lemma ResendBranch(cfg: Config, m: Member)
    requires cfg.onboardingRole in m.roles && (m.dmCached || TakesOnboardBranch(cfg, m))
    ensures MemberStep(cfg, m).refreshed <==>
      exists k :: FirstCarrierAt(Window(ScannedHistory(cfg, m)), k)
        && ScannedHistory(cfg, m)[k].interaction.value.expired
    ensures !TakesOnboardBranch(cfg, m) ==>
      MemberStep(cfg, m).actions == (if MemberStep(cfg, m).refreshed then [SendPrompt(m.id)] else [])
    ensures CountKind(MemberStep(cfg, m).actions, WelcomeKind) == Bump(TakesOnboardBranch(cfg, m))
    ensures CountKind(MemberStep(cfg, m).actions, RoleKind) == Bump(TakesOnboardBranch(cfg, m))
  {
    ResendDueIffFirstExpired(ScannedHistory(cfg, m));
    var first, tail := StepShape(cfg, m);
    BlockCounts(cfg, m, first, tail);
    CountKindAppend(first, tail, WelcomeKind);
    CountKindAppend(first, tail, RoleKind);
  }

  /**
   * The sweep only ever adds the onboarding role to, or welcomes, a member
   * with exactly one role: members that already have further roles are never
   * moved back into onboarding by the sweep.
   */
  lemma ExtraRolesNeverOnboarded(cfg: Config, m: Member)
    requires |m.roles| != 1
    ensures CountKind(MemberStep(cfg, m).actions, RoleKind) == 0
    ensures CountKind(MemberStep(cfg, m).actions, WelcomeKind) == 0
  {
    var first, tail := StepShape(cfg, m);
    BlockCounts(cfg, m, first, tail);
    CountKindAppend(first, tail, RoleKind);
    CountKindAppend(first, tail, WelcomeKind);
  }

  /** Per member: prompts = onboarded + refreshed + (role holder without chat). */
  lemma StepCounts(cfg: Config, m: Member)
    ensures CountKind(MemberStep(cfg, m).actions, RoleKind) == Bump(MemberStep(cfg, m).onboarded)
    ensures CountKind(MemberStep(cfg, m).actions, WelcomeKind) == Bump(MemberStep(cfg, m).onboarded)
    ensures CountKind(MemberStep(cfg, m).actions, PromptKind)
      == Bump(MemberStep(cfg, m).onboarded) + Bump(MemberStep(cfg, m).refreshed) + Bump(PromptsWithoutChat(cfg, m))
  {
    var first, tail := StepShape(cfg, m);
    BlockCounts(cfg, m, first, tail);
    CountKindAppend(first, tail, RoleKind);
    CountKindAppend(first, tail, WelcomeKind);
    CountKindAppend(first, tail, PromptKind);
  }

  /** Kind counts of the two blocks a step is made of. */
  lemma BlockCounts(cfg: Config, m: Member, first: seq<Action>, tail: seq<Action>)
    requires first == [] || first == SweepOnboardActions(cfg, m)
    requires tail == [] || tail == [SendPrompt(m.id)]
    ensures CountKind(first, RoleKind) == Bump(first != [])
    ensures CountKind(first, WelcomeKind) == Bump(first != [])
    ensures CountKind(first, PromptKind) == Bump(first != [])
    ensures CountKind(tail, RoleKind) == CountKind(tail, WelcomeKind) == 0
    ensures CountKind(tail, PromptKind) == |tail|
  {
    if first != [] {
      OnboardBlockCounts(cfg, m, RoleKind);
      OnboardBlockCounts(cfg, m, WelcomeKind);
      OnboardBlockCounts(cfg, m, PromptKind);
    }
    if tail != [] {
      CountKindSingle(SendPrompt(m.id), RoleKind);
      CountKindSingle(SendPrompt(m.id), WelcomeKind);
      CountKindSingle(SendPrompt(m.id), PromptKind);
    }
  }

  /** The onboarding sequence holds one action of each of its three kinds. */
  lemma OnboardBlockCounts(cfg: Config, m: Member, k: Kind)
    requires k in {RoleKind, WelcomeKind, PromptKind}
    ensures CountKind(SweepOnboardActions(cfg, m), k) == 1
  {
    var acts := SweepOnboardActions(cfg, m);
    assert acts == [acts[0]] + [acts[1]] + [acts[2]];
    CountKindSingle(acts[0], k);
    CountKindSingle(acts[1], k);
    CountKindSingle(acts[2], k);
    CountKindAppend([acts[0]], [acts[1]], k);
    CountKindAppend([acts[0]] + [acts[1]], [acts[2]], k);
  }

  // ---------------------------------------------------------------------------
  // Whole sweep

  /** Number of members of `ms` satisfying the onboard condition. */
  function CountOnboard(cfg: Config, ms: seq<Member>): (n: nat) {
    if |ms| == 0 then 0 else CountOnboard(cfg, ms[..|ms| - 1]) + Bump(TakesOnboardBranch(cfg, ms[|ms| - 1]))
  }

  /** Number of members of `ms` holding the onboarding role. */
  function CountHolders(cfg: Config, ms: seq<Member>): (n: nat) {
    if |ms| == 0 then 0 else CountHolders(cfg, ms[..|ms| - 1]) + Bump(cfg.onboardingRole in ms[|ms| - 1].roles)
  }

  /** Number of members of `ms` prompted because the bot has no cached private chat with them. */
  function CountWithoutChat(cfg: Config, ms: seq<Member>): (n: nat) {
    if |ms| == 0 then 0 else CountWithoutChat(cfg, ms[..|ms| - 1]) + Bump(PromptsWithoutChat(cfg, ms[|ms| - 1]))
  }

  /**
   * The counters of a sweep: `i` counts the members that satisfy the onboard
   * condition, `j` never exceeds the number of onboarding-role holders nor the
   * number of members, and the actions agree with the counters: one role and
   * one welcome per onboarded member, one prompt per onboarded member, per
   * refreshed member and per role holder prompted for lack of a cached chat.
   */
  lemma {:induction false} WalkCounters(cfg: Config, ms: seq<Member>)
    ensures Walk(cfg, ms).i == CountOnboard(cfg, ms) <= |ms|
    ensures Walk(cfg, ms).j <= CountHolders(cfg, ms) <= |ms|
    ensures CountKind(Walk(cfg, ms).actions, RoleKind) == Walk(cfg, ms).i
    ensures CountKind(Walk(cfg, ms).actions, WelcomeKind) == Walk(cfg, ms).i
    ensures CountKind(Walk(cfg, ms).actions, PromptKind)
      == Walk(cfg, ms).i + Walk(cfg, ms).j + CountWithoutChat(cfg, ms)
    decreases |ms|
  {
    if |ms| > 0 {
      var init, m := ms[..|ms| - 1], ms[|ms| - 1];
      WalkCounters(cfg, init);
      StepCounts(cfg, m);
      var o, s := Walk(cfg, init), MemberStep(cfg, m);
      CountKindAppend(o.actions, s.actions, RoleKind);
      CountKindAppend(o.actions, s.actions, WelcomeKind);
      CountKindAppend(o.actions, s.actions, PromptKind);
    }
  }

  /** Every action of a walk concerns one of the walked members. */
  lemma {:induction false} WalkAddressesMembers(cfg: Config, ms: seq<Member>)
    ensures forall a :: a in Walk(cfg, ms).actions ==>
      exists k :: 0 <= k < |ms| && a.AddressedTo(ms[k].id)
    decreases |ms|
  {
    if |ms| > 0 {
      var init, m := ms[..|ms| - 1], ms[|ms| - 1];
      WalkAddressesMembers(cfg, init);
      forall a | a in Walk(cfg, ms).actions
        ensures exists k :: 0 <= k < |ms| && a.AddressedTo(ms[k].id)
      {
        if a in Walk(cfg, init).actions {
          var k :| 0 <= k < |init| && a.AddressedTo(init[k].id);
          assert ms[k] == init[k];
        } else {
          var s := MemberStep(cfg, m);
          assert a in s.actions;
          var t :| 0 <= t < |s.actions| && s.actions[t] == a;
          assert a.AddressedTo(ms[|ms| - 1].id);
        }
      }
    }
  }

  /**
   * Every role grant and every welcome of a sweep goes to a member whose
   * snapshot satisfies the onboard condition: nobody who joined at or before
   * the cutoff, is still pending or has a further role is onboarded by the sweep.
   */
  lemma {:induction false} WalkOnboardsOnlyEligible(cfg: Config, ms: seq<Member>)
    ensures forall a :: a in Walk(cfg, ms).actions && (a.AddOnboardingRole? || a.SendWelcome?) ==>
      exists k :: 0 <= k < |ms| && ms[k].id == a.member && TakesOnboardBranch(cfg, ms[k])
    decreases |ms|
  {
    if |ms| > 0 {
      var init, m := ms[..|ms| - 1], ms[|ms| - 1];
      WalkOnboardsOnlyEligible(cfg, init);
      forall a | a in Walk(cfg, ms).actions && (a.AddOnboardingRole? || a.SendWelcome?)
        ensures exists k :: 0 <= k < |ms| && ms[k].id == a.member && TakesOnboardBranch(cfg, ms[k])
      {
        if a in Walk(cfg, init).actions {
          var k :| 0 <= k < |init| && init[k].id == a.member && TakesOnboardBranch(cfg, init[k]);
          assert ms[k] == init[k];
        } else {
          var s := MemberStep(cfg, m);
          assert a in s.actions;
          var first, tail := StepShape(cfg, m);
          assert a in first;
          assert ms[|ms| - 1] == m;
        }
      }
    }
  }

  /**
   * Walking a list extended by one member extends the outcome by that
   * member's step: `i` and `j` each grow by at most one, and by exactly one
   * when the member is onboarded, respectively refreshed.
   */
  lemma WalkSnoc(cfg: Config, ms: seq<Member>, m: Member)
    ensures Walk(cfg, ms + [m]).actions == Walk(cfg, ms).actions + MemberStep(cfg, m).actions
    ensures Walk(cfg, ms + [m]).i == Walk(cfg, ms).i + Bump(TakesOnboardBranch(cfg, m))
    ensures Walk(cfg, ms + [m]).j == Walk(cfg, ms).j + Bump(MemberStep(cfg, m).refreshed)
    ensures Walk(cfg, ms + [m]).logs == Walk(cfg, ms).logs + MemberStep(cfg, m).logs
  {
    assert (ms + [m])[..|ms|] == ms;
  }

  /**
   * The sweep's log: the opening line, one line per re-sent prompt, then a
   * summary line for `i` only if `i` is positive and for `j` only if `j` is
   * positive, each carrying its counter and no other count.
   */
  lemma SweepLogs(cfg: Config, ms: seq<Member>)
    ensures RunSweep(cfg, ms).logs[0] == ExecutingCheck
    ensures forall n ::
      (VerifiedSummary(n) in RunSweep(cfg, ms).logs <==> n == RunSweep(cfg, ms).i && RunSweep(cfg, ms).i > 0)
    ensures forall n ::
      (RefreshedSummary(n) in RunSweep(cfg, ms).logs <==> n == RunSweep(cfg, ms).j && RunSweep(cfg, ms).j > 0)
    ensures |ms| == 0 ==> RunSweep(cfg, ms) == Outcome([], 0, 0, [ExecutingCheck])
  {
    WalkLogsAreResends(cfg, ms);
  }

  /** Within the walk, the only log lines are per-member resend lines. */
  lemma {:induction false} WalkLogsAreResends(cfg: Config, ms: seq<Member>)
    ensures forall l :: l in Walk(cfg, ms).logs ==> l.SentNewInteraction?
    decreases |ms|
  {
    if |ms| > 0 {
      WalkLogsAreResends(cfg, ms[..|ms| - 1]);
    }
  }

  // ---------------------------------------------------------------------------
  // The loop the listener runs

  /**
   * The body of the listener's member loop for one member: the onboard
   * branch, whose welcome opens the private chat, then the onboarding-role
   * branch, where a missing chat ends the member's turn early (the loop's
   * `continue`).
   */
  method DecideMember(cfg: Config, m: Member)
    returns (actions: seq<Action>, onboarded: bool, refreshed: bool, logs: seq<LogLine>)
    ensures Step(actions, onboarded, refreshed, logs) == MemberStep(cfg, m)
  {
    actions, onboarded, refreshed, logs := [], false, false, [];
    var chatCached, history := m.dmCached, m.dmHistory;
    if |m.roles| == 1 && !m.pending && m.joinedAt > cfg.notBefore {
      actions := actions + [AddOnboardingRole(m.id)];
      actions := actions + [SendWelcome(m.id, WelcomeText(m.displayName, cfg.guildName))];
      chatCached, history := true, [Message(None)] + history;
      actions := actions + [SendPrompt(m.id)];
      history := [Message(None)] + history;
      onboarded := true;
    }
    assert onboarded == TakesOnboardBranch(cfg, m);
    assert actions == if onboarded then SweepOnboardActions(cfg, m) else [];
    assert history == ScannedHistory(cfg, m) && chatCached == (m.dmCached || onboarded);
    if cfg.onboardingRole in m.roles {
      if !chatCached {
        actions := actions + [SendPrompt(m.id)];
        return;
      }
      var resend := ScanHistory(history);
      if resend {
        logs := logs + [SentNewInteraction(m.id)];
        actions := actions + [SendPrompt(m.id)];
        refreshed := true;
      }
    }
  }

  /**
   * The listener's `async for` over the fetched members: each member's
   * decision in turn, with the counters bumped as the branches fire.
   */
  method WalkEach(cfg: Config, members: seq<Member>)
    returns (actions: seq<Action>, i: nat, j: nat, walked: seq<LogLine>)
    ensures Outcome(actions, i, j, walked) == Walk(cfg, members)
  {
    actions, i, j, walked := [], 0, 0, [];
    for k := 0 to |members|
      invariant Walk(cfg, members[..k]) == Outcome(actions, i, j, walked)
    {
      var m := members[k];
      assert members[..k + 1] == members[..k] + [m];
      WalkSnoc(cfg, members[..k], m);
      var acts, onboarded, refreshed, lines := DecideMember(cfg, m);
      actions := actions + acts;
      walked := walked + lines;
      if onboarded {
        i := i + 1;
      }
      if refreshed {
        j := j + 1;
      }
    }
    assert members[..|members|] == members;
  }

  /**
   * `walk_members`: the opening log line, the loop over the fetched members
   * with fresh counters, then one summary line per non-zero counter; it
   * computes exactly the functional `RunSweep`.
   */
  method WalkMembers(cfg: Config, members: seq<Member>)
    returns (actions: seq<Action>, i: nat, j: nat, logs: seq<LogLine>)
    ensures Outcome(actions, i, j, logs) == RunSweep(cfg, members)
    ensures i <= |members| && j <= |members|
  {
    var walked;
    actions, i, j, walked := WalkEach(cfg, members);
    logs := [ExecutingCheck] + walked;
    if i > 0 {
      logs := logs + [VerifiedSummary(i)];
    }
    if j > 0 {
      logs := logs + [RefreshedSummary(j)];
    }
  }
}
