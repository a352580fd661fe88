/**
 * The event path (`on_member_update`): when a member of the managed guild
 * passes the rules screen, greet it, send the role-selection prompt and put
 * it into onboarding mode.
 */
module MemberUpdate {
  import opened Snapshots
  import opened Wrappers
  import opened Texts
  import HistoryScan
  import Sweep

  /** The actions the listener takes for one before/after pair of member snapshots. */
  function OnMemberUpdate(cfg: Config, before: Member, after: Member): (r: seq<Action>)
    ensures r != [] <==> after.guild == cfg.guild && before.pending && !after.pending
    ensures r != [] ==>
      r == [SendWelcome(after.id, WelcomeText(after.displayName, cfg.guildName)), SendPrompt(after.id), AddOnboardingRole(after.id)]
  {
    if after.guild != cfg.guild then []
    else if before.pending && !after.pending then
      [SendWelcome(after.id, WelcomeText(after.displayName, cfg.guildName)),
       SendPrompt(after.id),
       AddOnboardingRole(after.id)]
    else []
  }

  /**
   * The update is for the managed guild and flips `pending` from true to
   * false; these are exactly the updates the listener acts on.
   */
  function Fires(cfg: Config, before: Member, after: Member): (b: bool)
    ensures b <==> OnMemberUpdate(cfg, before, after) != []
  {
    after.guild == cfg.guild && before.pending && !after.pending
  }

  /**
   * The event path and the sweep's onboard branch perform the same three
   * effects for a member, but in a different order: the event path greets
   * first and grants the role last, the sweep grants the role first.
   */
  lemma EventAndSweepOrders(cfg: Config, before: Member, after: Member)
    requires Fires(cfg, before, after)
    ensures multiset(OnMemberUpdate(cfg, before, after)) == multiset(Sweep.SweepOnboardActions(cfg, after))
    ensures OnMemberUpdate(cfg, before, after) != Sweep.SweepOnboardActions(cfg, after)
    ensures OnMemberUpdate(cfg, before, after)[2] == Sweep.SweepOnboardActions(cfg, after)[0]
  {
    var e := OnMemberUpdate(cfg, before, after);
    assert e[0] != Sweep.SweepOnboardActions(cfg, after)[0];
  }

  /**
   * Only the `pending` flag of the earlier snapshot matters; in particular the
   * guild filter looks at the later snapshot alone.
   */
  lemma OnlyBeforePendingMatters(cfg: Config, b1: Member, b2: Member, after: Member)
    requires b1.pending == b2.pending
    ensures OnMemberUpdate(cfg, b1, after) == OnMemberUpdate(cfg, b2, after)
  {
  }

  /**
   * The event path has no role guard: a member that already holds further
   * roles, or the onboarding role itself, is still greeted and given the
   * onboarding role when its `pending` flag flips.
   */
  lemma NoRoleGuard(cfg: Config, before: Member, after: Member)
    requires Fires(cfg, before, after)
    ensures AddOnboardingRole(after.id) in OnMemberUpdate(cfg, before, after)
    ensures CountKind(OnMemberUpdate(cfg, before, after), WelcomeKind) == 1
  {
    var e := OnMemberUpdate(cfg, before, after);
    assert e == [e[0]] + [e[1]] + [e[2]];
    CountKindAppend([e[0]], [e[1]], WelcomeKind);
    CountKindAppend([e[0]] + [e[1]], [e[2]], WelcomeKind);
  }

  /**
   * A member passes the rules screen and is onboarded by the event path. A
   * later sweep that sees it holding the default and the onboarding role, with
   * its private chat cached and an interaction as the newest message, leaves
   * it alone while that interaction is live and sends exactly one new prompt,
   * and no welcome, once it has expired. Had the bot restarted in between, so
   * that the chat is no longer cached, the sweep prompts it regardless.
   */
  lemma OnboardingScenario(cfg: Config, before: Member, after: Member, defaultRole: RoleId,
                           older: seq<Message>, expired: bool, cached: bool)
    requires defaultRole != cfg.onboardingRole
    requires after.guild == cfg.guild && before.pending && !after.pending && after.roles == [defaultRole]
    ensures OnMemberUpdate(cfg, before, after)
      == [SendWelcome(after.id, WelcomeText(after.displayName, cfg.guildName)), SendPrompt(after.id), AddOnboardingRole(after.id)]
    ensures
      var later := after.(roles := [defaultRole, cfg.onboardingRole], dmCached := cached,
                          dmHistory := [Message(Some(Interaction(expired)))] + older);
      Sweep.MemberStep(cfg, later).actions == (if expired || !cached then [SendPrompt(after.id)] else [])
  {
    var later := after.(roles := [defaultRole, cfg.onboardingRole], dmCached := cached,
                        dmHistory := [Message(Some(Interaction(expired)))] + older);
    var h := later.dmHistory;
    assert !Sweep.TakesOnboardBranch(cfg, later);
    assert HistoryScan.FirstCarrierAt(HistoryScan.Window(h), 0);
    HistoryScan.FirstCarrierDecides(HistoryScan.Window(h), 0);
  }
}
