/**
 * The start-up reset of the public onboarding channel (`cog_load`): purge the
 * channel, then post the entry-point prompt.
 *
 * The channel is modelled oldest first. The platform library's `purge()`,
 * called without arguments, deletes at most the `PurgeDefaultLimit` newest
 * messages, so that is the limit the reset's purge carries.
 */
module EntryPoint {
  import opened Snapshots

  /** The number of messages a `purge()` without a `limit` argument deletes at most. */
  const PurgeDefaultLimit: nat := 100

  /** A message in the onboarding channel. */
  datatype ChannelMessage = EntryPointPrompt | OtherMessage(id: int)

  /** The effect of one action on the onboarding channel (oldest first). */
  function ApplyToChannel(c: seq<ChannelMessage>, a: Action): (c': seq<ChannelMessage>)
    ensures a.Purge? ==> |c'| == (if a.limit < |c| then |c| - a.limit else 0) && c' == c[..|c'|]
    ensures a.SendEntryPoint? ==> |c'| == |c| + 1 && c'[|c|] == EntryPointPrompt && c'[..|c|] == c
    ensures !a.Purge? && !a.SendEntryPoint? ==> c' == c
  {
    match a
    case Purge(limit) => c[..|c| - (if limit < |c| then limit else |c|)]
    case SendEntryPoint => c + [EntryPointPrompt]
    case _ => c
  }

  /** The channel after performing `acts` in order. */
  function Run(c: seq<ChannelMessage>, acts: seq<Action>): (c': seq<ChannelMessage>)
    decreases |acts|
  {
    if |acts| == 0 then c else Run(ApplyToChannel(c, acts[0]), acts[1..])
  }

  /** The messages a purge with `limit` leaves: all but the `limit` newest. */
  function Kept(prior: seq<ChannelMessage>, limit: nat): (k: seq<ChannelMessage>)
    ensures |k| == if limit < |prior| then |prior| - limit else 0
    ensures k == prior[..|k|]
  {
    prior[..if limit < |prior| then |prior| - limit else 0]
  }

  /**
   * Purging with `limit` and then posting the entry point leaves the messages
   * older than the purge window followed by the entry-point prompt.
   */
  lemma PurgeThenPost(prior: seq<ChannelMessage>, limit: nat)
    ensures Run(prior, [Purge(limit), SendEntryPoint]) == Kept(prior, limit) + [EntryPointPrompt]
  {
    var acts := [Purge(limit), SendEntryPoint];
    var purged := ApplyToChannel(prior, Purge(limit));
    var posted := ApplyToChannel(purged, SendEntryPoint);
    assert acts[0] == Purge(limit) && acts[1..] == [SendEntryPoint];
    assert Run(prior, acts) == Run(purged, [SendEntryPoint]);
    assert [SendEntryPoint][1..] == [];
    assert Run(purged, [SendEntryPoint]) == Run(posted, []) == posted;
  }

  /**
   * The actions of the start-up reset. Whatever the channel held, afterwards
   * it holds the messages older than the newest `PurgeDefaultLimit` followed
   * by the entry-point prompt; a channel of at most `PurgeDefaultLimit`
   * messages holds the entry-point prompt alone.
   */
  function CogLoad(): (r: seq<Action>)
    ensures forall prior: seq<ChannelMessage> :: Run(prior, r) == Kept(prior, PurgeDefaultLimit) + [EntryPointPrompt]
    ensures forall prior: seq<ChannelMessage> :: |prior| <= PurgeDefaultLimit ==> Run(prior, r) == [EntryPointPrompt]
  {
    var r := [Purge(PurgeDefaultLimit), SendEntryPoint];
    assert forall prior: seq<ChannelMessage> :: Run(prior, r) == Kept(prior, PurgeDefaultLimit) + [EntryPointPrompt] by {
      forall prior: seq<ChannelMessage> ensures Run(prior, r) == Kept(prior, PurgeDefaultLimit) + [EntryPointPrompt] {
        PurgeThenPost(prior, PurgeDefaultLimit);
      }
    }
    r
  }

  /**
   * Whatever the channel held, after the reset its newest message is the
   * entry-point prompt and no message newer than the purge window survives
   * besides it.
   */
  lemma CogLoadEndsWithEntryPoint(prior: seq<ChannelMessage>)
    ensures var after := Run(prior, CogLoad());
      && |after| == (if PurgeDefaultLimit < |prior| then |prior| - PurgeDefaultLimit else 0) + 1
      && after[|after| - 1] == EntryPointPrompt
      && after[..|after| - 1] == prior[..|after| - 1]
  {
    var after := Run(prior, CogLoad());
    var kept := Kept(prior, PurgeDefaultLimit);
    assert after == kept + [EntryPointPrompt];
    assert after[..|after| - 1] == kept;
  }

  /**
   * A channel holding at most `PurgeDefaultLimit` messages, whatever they are,
   * holds exactly one message after the reset: the entry-point prompt.
   */
  lemma CogLoadLeavesOnlyEntryPoint(prior: seq<ChannelMessage>)
    requires |prior| <= PurgeDefaultLimit
    ensures Run(prior, CogLoad()) == [EntryPointPrompt]
  {
  }

  /** With more than `PurgeDefaultLimit` prior messages, the oldest ones survive the reset. */
  lemma CogLoadKeepsOlderMessages()
    ensures Run(seq(PurgeDefaultLimit + 1, t => OtherMessage(t)), CogLoad()) == [OtherMessage(0), EntryPointPrompt]
  {
    var prior := seq(PurgeDefaultLimit + 1, t => OtherMessage(t));
    assert prior[..1] == [OtherMessage(0)];
  }
}
