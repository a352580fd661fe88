/**
 * Immutable snapshots of what the onboarding listener reads from the chat
 * platform, and the abstract effects it asks the platform to perform.
 *
 * Every transport call of the listener (sending a direct message, adding a
 * role, purging a channel, posting the entry-point button) is modelled as an
 * `Action` value appended to an output sequence, so that the decision logic is
 * a pure function from snapshots to an ordered list of actions.
 */
module Snapshots {
  import opened Wrappers

  type UserId = nat
  type RoleId = nat
  type GuildId = nat

  /** A join instant; the listener compares naive datetimes, modelled as integers. */
  type Timestamp = int

  /** The interaction a message answers; it can no longer be responded to once expired. */
  datatype Interaction = Interaction(expired: bool)

  /** A direct message; `interaction` is set when the message answers an interaction. */
  datatype Message = Message(interaction: Option<Interaction>)

  /**
   * A member as fetched from the guild. `roles` is the platform's role list,
   * which always contains the guild's default role, so a member with exactly
   * one role has no role beyond the default one.
   *
   * `dmCached` says whether the bot's client holds the member's private chat
   * in its cache (`member.dm_channel` is then not None); after a restart it is
   * false even for members the bot has written to before. `dmHistory` is the
   * platform-side history of that chat, newest first, empty if none exists.
   */
  datatype Member = Member(
    id: UserId,
    guild: GuildId,
    displayName: string,
    roles: seq<RoleId>,
    pending: bool,
    joinedAt: Timestamp,
    dmCached: bool,
    dmHistory: seq<Message>
  )

  /** The environment constants the listener is configured with. */
  datatype Config = Config(
    guild: GuildId,
    guildName: string,
    onboardingRole: RoleId,
    notBefore: Timestamp
  )

  /** The kinds of platform effect, used to count actions independently of their arguments. */
  datatype Kind = RoleKind | WelcomeKind | PromptKind | PurgeKind | EntryPointKind

  /** One side effect requested from the platform. */
  datatype Action =
    | AddOnboardingRole(member: UserId)
    | SendWelcome(member: UserId, text: string)
    | SendPrompt(member: UserId)
    | Purge(limit: nat)
    | SendEntryPoint
  {
    function Kind(): Kind {
      match this
      case AddOnboardingRole(_) => RoleKind
      case SendWelcome(_, _) => WelcomeKind
      case SendPrompt(_) => PromptKind
      case Purge(_) => PurgeKind
      case SendEntryPoint => EntryPointKind
    }

    /** The action is a direct effect on the member `id`. */
    predicate AddressedTo(id: UserId) {
      (AddOnboardingRole? || SendWelcome? || SendPrompt?) && member == id
    }
  }

  /** The info-level log lines the sweep writes. */
  datatype LogLine =
    | ExecutingCheck
    | SentNewInteraction(member: UserId)
    | VerifiedSummary(count: nat)
    | RefreshedSummary(count: nat)

  /** Number of actions of kind `k` in `s`. */
  function CountKind(s: seq<Action>, k: Kind): (n: nat)
    ensures n <= |s|
    ensures n == 0 <==> forall t :: 0 <= t < |s| ==> s[t].Kind() != k
  {
    if |s| == 0 then 0
    else CountKind(s[..|s| - 1], k) + (if s[|s| - 1].Kind() == k then 1 else 0)
  }

  /** Counting distributes over concatenation. */
  lemma {:induction false} CountKindAppend(a: seq<Action>, b: seq<Action>, k: Kind)
    ensures CountKind(a + b, k) == CountKind(a, k) + CountKind(b, k)
    decreases |b|
  {
    if |b| == 0 {
      assert a + b == a;
    } else {
      var b' := b[..|b| - 1];
      assert (a + b)[..|a + b| - 1] == a + b';
      CountKindAppend(a, b', k);
    }
  }

  /** A one-action sequence counts that action's kind once. */
  lemma CountKindSingle(a: Action, k: Kind)
    ensures CountKind([a], k) == if a.Kind() == k then 1 else 0
  {
    assert [a][..0] == [];
  }
}
