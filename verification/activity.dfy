/**
 * The voice-activity notification throttle of the microphone callback
 * (`onaudioprocess` in components/gemini-playground.tsx).
 *
 * Two refs are kept between audio blocks: the speaking flag last reported and the
 * time of the last report. A `user_activity` notification goes out when the flag
 * changes, or as a keep-alive when strictly more than one second has passed.
 */
module Activity {

  const KeepAliveMs: int := 1000

  /** `lastSpeakingRef` and `lastActivitySentAtRef`. */
  datatype Throttle = Throttle(lastSpeaking: bool, lastSentAt: int)

  /** The refs' initial values. */
  const Initial := Throttle(false, 0)

  /** One processed audio block: its speech classification and `Date.now()` at that moment. */
  datatype Tick = Tick(speaking: bool, now: int)

  /** What one block decides: whether to notify, and the refs afterwards. */
  datatype Decision = Decision(notify: bool, next: Throttle)

  /**
   * One block. A notification goes out exactly when the flag changed or strictly more
   * than the keep-alive interval has passed since the last one; no notification leaves
   * the refs alone, and one records the flag and time it carried. Either way the
   * remembered flag is now the block's flag.
   */
  function Decide(t: Throttle, tick: Tick): (d: Decision)
    ensures d.notify <==> tick.speaking != t.lastSpeaking || tick.now - t.lastSentAt > KeepAliveMs
    ensures !d.notify ==> d.next == t
    ensures d.notify ==> d.next == Throttle(tick.speaking, tick.now)
    ensures d.next.lastSpeaking == tick.speaking
  {
    var changed := tick.speaking != t.lastSpeaking;
    var throttled := tick.now - t.lastSentAt > KeepAliveMs;
    if changed || throttled then Decision(true, Throttle(tick.speaking, tick.now))
    else Decision(false, t)
  }

  /** Feeds the blocks in order; gives the final refs and the notifications sent, as the blocks that sent them. */
  function Run(t: Throttle, ticks: seq<Tick>): (r: (Throttle, seq<Tick>))
    ensures |r.1| <= |ticks|
    ensures ticks == [] ==> r == (t, [])
    decreases |ticks|
  {
    if ticks == [] then (t, [])
    else
      var d := Decide(t, ticks[0]);
      var rest := Run(d.next, ticks[1..]);
      (rest.0, (if d.notify then [ticks[0]] else []) + rest.1)
  }

  /** The refs always hold the flag and time of the most recent notification (or are untouched if none went out). */
  lemma {:induction false} RunRemembersLastSent(t: Throttle, ticks: seq<Tick>)
    ensures var (final, sent) := Run(t, ticks);
      && (sent == [] ==> final == t)
      && (sent != [] ==> final == Throttle(sent[|sent| - 1].speaking, sent[|sent| - 1].now))
    decreases |ticks|
  {
    if ticks != [] {
      RunRemembersLastSent(Decide(t, ticks[0]).next, ticks[1..]);
    }
  }

  /** After any non-empty run the remembered flag is the last block's classification: the peer is never more than one block behind. */
  lemma {:induction false} RunTracksClassification(t: Throttle, ticks: seq<Tick>)
    requires ticks != []
    ensures Run(t, ticks).0.lastSpeaking == ticks[|ticks| - 1].speaking
    decreases |ticks|
  {
    if |ticks| > 1 {
      RunTracksClassification(Decide(t, ticks[0]).next, ticks[1..]);
      assert ticks[1..][|ticks| - 2] == ticks[|ticks| - 1];
    }
  }

  /** Each notification carries a changed flag or comes more than a second after the previous one. */
  predicate Spaced(before: Tick, after: Tick) {
    after.speaking != before.speaking || after.now - before.now > KeepAliveMs
  }

  /**
   * Rate bound: two consecutive notifications with the same flag are strictly more than
   * 1000 ms apart, and the first one is spaced likewise from the refs' starting values.
   * No assumption on the clock is needed.
   */
  lemma {:induction false} RunSpacing(t: Throttle, ticks: seq<Tick>)
    ensures var sent := Run(t, ticks).1;
      && (sent != [] ==> Spaced(Tick(t.lastSpeaking, t.lastSentAt), sent[0]))
      && forall k :: 0 < k < |sent| ==> Spaced(sent[k - 1], sent[k])
    decreases |ticks|
  {
    if ticks != [] {
      var d := Decide(t, ticks[0]);
      RunSpacing(d.next, ticks[1..]);
      var rest := Run(d.next, ticks[1..]).1;
      var sent := Run(t, ticks).1;
      if d.notify {
        assert sent == [ticks[0]] + rest;
        forall k | 1 < k < |sent|
          ensures Spaced(sent[k - 1], sent[k])
        {
          assert sent[k - 1] == rest[k - 2] && sent[k] == rest[k - 1];
        }
      }
    }
  }

  /** Every notification comes from a block of the run. */
  lemma {:induction false} RunSentFromRun(t: Throttle, ticks: seq<Tick>)
    ensures forall x :: x in Run(t, ticks).1 ==> x in ticks
    decreases |ticks|
  {
    if ticks != [] {
      RunSentFromRun(Decide(t, ticks[0]).next, ticks[1..]);
    }
  }
}
