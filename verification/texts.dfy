/**
 * The texts and replies of the verification listener whose shape matters to
 * the onboarding flow: the personalised welcome message and the reply of the
 * `update_base_roles` slash command.
 */
module Texts {
  import opened Wrappers

  const WelcomeGreeting: string := "Hey "

  /** The words between the member's name and the guild name. */
  const WelcomeMiddle: string := ", willkommen auf dem _"

  /** Everything of the welcome message that follows the guild name. */
  const WelcomeClosing: string :=
    "_ Discord!\n" + "\n" + "Bei Fragen kannst du dich jederzeit an uns wenden.\n" + "~Die Serverleitung"

  /**
   * The welcome direct message for a member called `displayName` in the guild
   * called `guildName`: it opens with a greeting naming the member and names
   * the guild further on.
   */
  function WelcomeText(displayName: string, guildName: string): (t: string)
    ensures |t| == |WelcomeGreeting| + |displayName| + |WelcomeMiddle| + |guildName| + |WelcomeClosing|
    ensures t[..|WelcomeGreeting|] == WelcomeGreeting
    ensures t[|WelcomeGreeting|..|WelcomeGreeting| + |displayName|] == displayName
    ensures var at := |WelcomeGreeting| + |displayName| + |WelcomeMiddle|;
      t[at..at + |guildName|] == guildName
  {
    WelcomeGreeting + displayName + WelcomeMiddle + guildName + WelcomeClosing
  }

  /**
   * Within one guild the welcome text is personal: two members with different
   * display names never receive the same welcome message.
   */
  lemma WelcomeTextPersonal(d1: string, d2: string, guildName: string)
    requires WelcomeText(d1, guildName) == WelcomeText(d2, guildName)
    ensures d1 == d2
  {
    var t := WelcomeText(d1, guildName);
    assert |d1| == |d2|;
    assert d1 == t[|WelcomeGreeting|..|WelcomeGreeting| + |d1|];
  }

  /** The two choices of the `mode` option of `update_base_roles`. */
  datatype Mode = Silent | Loud

  /**
   * The interaction response of `update_base_roles`: the role-selection prompt,
   * visible only to the caller when `ephemeral` holds.
   */
  datatype Reply = PromptReply(ephemeral: bool)

  /**
   * The reply to `update_base_roles`; `mode` is None when the caller omitted the
   * option, in which case the declared default "silent" applies.
   */
  function UpdateBaseRoles(mode: Option<Mode>): (r: Reply)
    ensures r.ephemeral <==> mode != Some(Loud)
  {
    PromptReply(mode.GetOr(Silent) == Silent)
  }
}
