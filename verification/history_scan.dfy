/**
 * The sweep's inspection of a member's private chat: walk at most the
 * `HistoryLimit` newest messages, newest first, stop at the first message
 * that answers an interaction, and ask for a new prompt only if that
 * interaction has expired.
 */
module HistoryScan {
  import opened Wrappers
  import opened Snapshots

  /** How many of the newest messages the sweep fetches from a private chat. */
  const HistoryLimit: nat := 20

  /** The messages the sweep fetches: the newest `HistoryLimit` of a newest-first history. */
  function Window(h: seq<Message>): (w: seq<Message>)
    ensures |w| == if |h| < HistoryLimit then |h| else HistoryLimit
    ensures w == h[..|w|]
  {
    if |h| <= HistoryLimit then h else h[..HistoryLimit]
  }

  /** Message `k` of `w` is the first (newest) one carrying an interaction. */
  predicate FirstCarrierAt(w: seq<Message>, k: int) {
    && 0 <= k < |w|
    && w[k].interaction.Some?
    && forall t :: 0 <= t < k ==> w[t].interaction.None?
  }

  /** The interaction of the first message of `w` that carries one, if any. */
  function FirstInteraction(w: seq<Message>): (r: Option<Interaction>)
    ensures r.None? <==> forall t :: 0 <= t < |w| ==> w[t].interaction.None?
    ensures r.Some? ==> exists k :: FirstCarrierAt(w, k) && w[k].interaction == r
  {
    if |w| == 0 then None
    else if w[0].interaction.Some? then
      assert FirstCarrierAt(w, 0);
      w[0].interaction
    else
      var r := FirstInteraction(w[1..]);
      if r.Some? then
        var k :| FirstCarrierAt(w[1..], k) && w[1..][k].interaction == r;
        assert FirstCarrierAt(w, k + 1);
        r
      else
        r
  }

  /** Whether the sweep re-sends the prompt to a member with history `h`. */
  predicate ResendDue(h: seq<Message>) {
    match FirstInteraction(Window(h))
    case Some(x) => x.expired
    case None => false
  }

  /**
   * The scan decides on the first interaction it meets: whatever the messages
   * after it say, the result is that interaction.
   */
  lemma {:induction false} FirstCarrierDecides(w: seq<Message>, k: int)
    requires FirstCarrierAt(w, k)
    ensures FirstInteraction(w) == w[k].interaction
    decreases k
  {
    if k > 0 {
      assert w[0].interaction.None?;
      assert FirstCarrierAt(w[1..], k - 1);
      FirstCarrierDecides(w[1..], k - 1);
    }
  }

  /**
   * Re-sending is due exactly when some message among the newest
   * `HistoryLimit` is the first carrying an interaction and that interaction
   * has expired.
   */
  lemma ResendDueIffFirstExpired(h: seq<Message>)
    ensures ResendDue(h) <==>
      exists k :: FirstCarrierAt(Window(h), k) && h[k].interaction.value.expired
  {
    var w := Window(h);
    if ResendDue(h) {
      var k :| FirstCarrierAt(w, k) && w[k].interaction == FirstInteraction(w);
      assert h[k] == w[k];
    }
    if exists k :: FirstCarrierAt(w, k) && h[k].interaction.value.expired {
      var k :| FirstCarrierAt(w, k) && h[k].interaction.value.expired;
      FirstCarrierDecides(w, k);
      assert h[k] == w[k];
    }
  }

  /** With no interaction among the newest `HistoryLimit` messages, nothing is re-sent. */
  lemma NoInteractionNoResend(h: seq<Message>)
    requires forall t :: 0 <= t < |h| && t < HistoryLimit ==> h[t].interaction.None?
    ensures !ResendDue(h)
  {
    var w := Window(h);
    assert forall t :: 0 <= t < |w| ==> w[t] == h[t];
  }

  /**
   * Messages after the first interaction never affect the outcome: two
   * histories that agree up to and including that message decide alike.
   */
  lemma LaterMessagesIrrelevant(h: seq<Message>, h': seq<Message>, k: int)
    requires FirstCarrierAt(Window(h), k)
    requires k < |h'| && h'[..k + 1] == h[..k + 1]
    ensures ResendDue(h') == ResendDue(h)
  {
    var w, w' := Window(h), Window(h');
    assert forall t :: 0 <= t <= k ==> h'[t] == h[t] by {
      forall t | 0 <= t <= k ensures h'[t] == h[t] {
        assert h'[..k + 1][t] == h[..k + 1][t];
      }
    }
    assert FirstCarrierAt(w', k) by {
      assert k < |w'|;
      assert w'[k] == h[k] == w[k];
      forall t | 0 <= t < k ensures w'[t].interaction.None? {
        assert w'[t] == h[t] == w[t];
      }
    }
    FirstCarrierDecides(w, k);
    FirstCarrierDecides(w', k);
  }

  /** A message older than the newest `HistoryLimit` never affects the outcome. */
  lemma OlderMessagesIrrelevant(h: seq<Message>, k: nat, m: Message)
    requires HistoryLimit <= k < |h|
    ensures ResendDue(h[k := m]) == ResendDue(h)
  {
    assert Window(h[k := m]) == Window(h);
  }

  /** Messages answering no interaction are skipped by the search. */
  lemma {:induction false} SkipNonCarriers(p: seq<Message>, x: seq<Message>)
    requires forall t :: 0 <= t < |p| ==> p[t].interaction.None?
    ensures FirstInteraction(p + x) == FirstInteraction(x)
    decreases |p|
  {
    if |p| > 0 {
      var y := p + x;
      assert y[0] == p[0];
      assert y[1..] == p[1..] + x;
      assert y[0].interaction.None?;
      assert FirstInteraction(y) == FirstInteraction(y[1..]);
      assert forall t :: 0 <= t < |p[1..]| ==> p[1..][t].interaction.None?;
      SkipNonCarriers(p[1..], x);
    } else {
      assert p + x == x;
    }
  }

  /**
   * When messages answering no interaction lead the chat (the bot's own
   * freshly sent messages), they use up part of the window: the decision is
   * the one the older history's `HistoryLimit - |p|` newest messages give.
   */
  lemma FreshMessagesShrinkWindow(p: seq<Message>, h: seq<Message>)
    requires |p| <= HistoryLimit
    requires forall t :: 0 <= t < |p| ==> p[t].interaction.None?
    ensures ResendDue(p + h) == ResendDue(h[..if |h| < HistoryLimit - |p| then |h| else HistoryLimit - |p|])
  {
    var n := if |h| < HistoryLimit - |p| then |h| else HistoryLimit - |p|;
    assert Window(p + h) == p + h[..n];
    SkipNonCarriers(p, h[..n]);
    assert Window(h[..n]) == h[..n];
  }

  /**
   * The scan as the listener performs it: walk the fetched window newest
   * first and stop at the first message answering an interaction.
   */
  method ScanHistory(h: seq<Message>) returns (resend: bool)
    ensures resend <==> ResendDue(h)
  {
    var w := Window(h);
    resend := false;
    var k := 0;
    while k < |w|
      invariant 0 <= k <= |w|
      invariant forall t :: 0 <= t < k ==> w[t].interaction.None?
      invariant !resend
    {
      var interaction := w[k].interaction;
      if interaction.Some? {
        if interaction.value.expired {
          resend := true;
        }
        FirstCarrierDecides(w, k);
        break;
      }
      k := k + 1;
    }
  }
}
