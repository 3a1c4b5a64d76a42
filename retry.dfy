// The polling loop shared by set_scenario and collect_data_from_node, as a
// function of the trace of loop iterations it sees. Each iteration reads the
// clock once and the serial line once; a request is (re)sent when none has been
// sent yet or when more than the retry interval has passed since the last one,
// until the attempt budget is spent; the first packet of the expected type from
// the node asked ends the exchange.

module Retry {
  import opened Wrappers
  import opened Packets

  /** One pass of the loop: the clock reading, in microseconds, and what the non-blocking read returned. */
  datatype Tick = Tick(nowUs: int, read: Option<Packet>)

  /** What one exchange waits for and how patiently. */
  datatype Exchange = Exchange(expectedType: int, node: int, maxAttempts: nat, intervalUs: int)

  /**
   * The loop's variables: the time of the last attempt, the times at which a
   * request was written (so the attempt counter is their number), the loop
   * flag, and the reply that ended the exchange, if any.
   */
  datatype Attempt = Attempt(lastSendUs: int, sendTimes: seq<int>, looping: bool, reply: Option<Packet>)

  /** The state before the first pass; startUs is the clock read just before the loop. */
  function Start(startUs: int): Attempt {
    Attempt(startUs, [], true, None)
  }

  predicate Answers(e: Exchange, read: Option<Packet>) {
    read.Some? && IsReplyFrom(read.value, e.expectedType, e.node)
  }

  /**
   * Whether the pass at time nowUs makes an attempt (a send, or giving up once
   * the budget is spent): always before the first send, and afterwards only
   * once more than the retry interval has passed since the last attempt.
   */
  predicate Due(e: Exchange, s: Attempt, nowUs: int): (due: bool)
    ensures |s.sendTimes| == 0 ==> due
    ensures |s.sendTimes| > 0 && nowUs <= s.lastSendUs + e.intervalUs ==> !due
  {
    |s.sendTimes| < 1 || nowUs - s.lastSendUs > e.intervalUs
  }

  /**
   * One pass of the loop body: a due pass sends one more request while the
   * budget lasts and stops the loop once it is spent; an answering read
   * becomes the reply and stops the loop; nothing else changes.
   */
  function Step(e: Exchange, s: Attempt, t: Tick): (r: Attempt)
    ensures r.sendTimes == s.sendTimes || r.sendTimes == s.sendTimes + [t.nowUs]
    ensures |r.sendTimes| > |s.sendTimes| <==> Due(e, s, t.nowUs) && |s.sendTimes| < e.maxAttempts
    ensures Due(e, s, t.nowUs) && |s.sendTimes| >= e.maxAttempts ==> !r.looping
    ensures Answers(e, t.read) ==> r.reply == t.read && !r.looping
    ensures !Answers(e, t.read) ==> r.reply == s.reply
    ensures r.looping ==> s.looping
    ensures !Due(e, s, t.nowUs) && !Answers(e, t.read) ==> r == s
  {
    var afterAttempt :=
      if !Due(e, s, t.nowUs) then s
      else if |s.sendTimes| < e.maxAttempts then s.(lastSendUs := t.nowUs, sendTimes := s.sendTimes + [t.nowUs])
      else s.(lastSendUs := t.nowUs, looping := false);
    if Answers(e, t.read) then afterAttempt.(reply := t.read, looping := false) else afterAttempt
  }

  /** The loop run over a trace: it stops at the first pass that clears the loop flag, or when the trace ends. */
  function Run(e: Exchange, s: Attempt, ticks: seq<Tick>): (r: Attempt)
    ensures !s.looping ==> r == s
    ensures s.sendTimes <= r.sendTimes
    ensures |s.sendTimes| <= e.maxAttempts ==> |r.sendTimes| <= e.maxAttempts
    ensures r.reply != s.reply ==> Answers(e, r.reply)
    decreases |ticks|
  {
    if !s.looping || |ticks| == 0 then s else Run(e, Step(e, s, ticks[0]), ticks[1..])
  }

  /** A running loop consumes the next pass of the trace. */
  lemma RunConsumesPass(e: Exchange, s: Attempt, ticks: seq<Tick>, i: nat)
    requires s.looping && i < |ticks|
    ensures Run(e, s, ticks[i..]) == Run(e, Step(e, s, ticks[i]), ticks[i + 1..])
  {
    assert ticks[i..][1..] == ticks[i + 1..];
  }

  /** A trace that is used up or a loop that has stopped leaves the state as it is. */
  lemma RunAtEnd(e: Exchange, s: Attempt, ticks: seq<Tick>, i: nat)
    requires i <= |ticks|
    requires !s.looping || i == |ticks|
    ensures Run(e, s, ticks[i..]) == s
  {
  }

  /** Running over a concatenated trace is running over the second part from where the first part left off. */
  lemma {:induction false} RunSplits(e: Exchange, s: Attempt, a: seq<Tick>, b: seq<Tick>)
    ensures Run(e, s, a + b) == Run(e, Run(e, s, a), b)
    decreases |a|
  {
    if !s.looping {
    } else if |a| == 0 {
      assert a + b == b;
    } else {
      assert (a + b)[1..] == a[1..] + b;
      RunSplits(e, Step(e, s, a[0]), a[1..], b);
    }
  }

  /** The attempt budget is never exceeded. */
  lemma AttemptsBounded(e: Exchange, startUs: int, ticks: seq<Tick>)
    ensures |Run(e, Start(startUs), ticks).sendTimes| <= e.maxAttempts
  {
  }

  predicate Spaced(times: seq<int>, intervalUs: int) {
    forall i :: 0 <= i < |times| - 1 ==> times[i + 1] - times[i] > intervalUs
  }

  /** The loop invariant behind the spacing of attempts: while looping, the last attempt time is the last send time. */
  predicate SpacingInvariant(e: Exchange, s: Attempt) {
    Spaced(s.sendTimes, e.intervalUs) &&
    (s.looping && |s.sendTimes| > 0 ==> s.lastSendUs == s.sendTimes[|s.sendTimes| - 1])
  }

  lemma {:induction false} RunKeepsSpacing(e: Exchange, s: Attempt, ticks: seq<Tick>)
    requires SpacingInvariant(e, s)
    ensures SpacingInvariant(e, Run(e, s, ticks))
    decreases |ticks|
  {
    if s.looping && |ticks| > 0 {
      RunKeepsSpacing(e, Step(e, s, ticks[0]), ticks[1..]);
    }
  }

  /** Consecutive requests of one exchange are more than the retry interval apart. */
  lemma AttemptsAreSpaced(e: Exchange, startUs: int, ticks: seq<Tick>)
    ensures Spaced(Run(e, Start(startUs), ticks).sendTimes, e.intervalUs)
  {
    RunKeepsSpacing(e, Start(startUs), ticks);
  }

  /** The first pass always sends, provided the budget allows one attempt at all. */
  lemma FirstPassSends(e: Exchange, startUs: int, ticks: seq<Tick>)
    requires |ticks| > 0 && e.maxAttempts >= 1
    ensures var r := Run(e, Start(startUs), ticks); |r.sendTimes| >= 1 && r.sendTimes[0] == ticks[0].nowUs
  {
    var s1 := Step(e, Start(startUs), ticks[0]);
    assert s1.sendTimes == [ticks[0].nowUs];
    assert ticks == [ticks[0]] + ticks[1..];
  }

  /** The exchange only ends without a reply by spending the whole budget. */
  predicate GaveUpInvariant(e: Exchange, s: Attempt) {
    |s.sendTimes| <= e.maxAttempts && (!s.looping && s.reply.None? ==> |s.sendTimes| == e.maxAttempts)
  }

  lemma {:induction false} RunKeepsGaveUp(e: Exchange, s: Attempt, ticks: seq<Tick>)
    requires GaveUpInvariant(e, s)
    ensures GaveUpInvariant(e, Run(e, s, ticks))
    decreases |ticks|
  {
    if s.looping && |ticks| > 0 {
      RunKeepsGaveUp(e, Step(e, s, ticks[0]), ticks[1..]);
    }
  }

  /** An exchange that finished without a reply made exactly the maximum number of attempts. */
  lemma FailureSpendsBudget(e: Exchange, startUs: int, ticks: seq<Tick>)
    requires var r := Run(e, Start(startUs), ticks); !r.looping && r.reply.None?
    ensures |Run(e, Start(startUs), ticks).sendTimes| == e.maxAttempts
  {
    RunKeepsGaveUp(e, Start(startUs), ticks);
  }

  /** The trace with every read that does not answer this exchange blanked out. */
  function Relevant(e: Exchange, ticks: seq<Tick>): (r: seq<Tick>)
    ensures |r| == |ticks|
    ensures forall i :: 0 <= i < |ticks| ==> r[i].nowUs == ticks[i].nowUs
    ensures forall i :: 0 <= i < |ticks| ==> r[i].read == (if Answers(e, ticks[i].read) then ticks[i].read else None)
  {
    if |ticks| == 0 then []
    else [Tick(ticks[0].nowUs, if Answers(e, ticks[0].read) then ticks[0].read else None)] + Relevant(e, ticks[1..])
  }

  /** Packets of another type or from another node have no effect on the exchange. */
  lemma {:induction false} ForeignPacketsIgnored(e: Exchange, s: Attempt, ticks: seq<Tick>)
    ensures Run(e, s, ticks) == Run(e, s, Relevant(e, ticks))
    decreases |ticks|
  {
    if s.looping && |ticks| > 0 {
      var rel := Relevant(e, ticks);
      assert Step(e, s, ticks[0]) == Step(e, s, rel[0]);
      assert rel[1..] == Relevant(e, ticks[1..]);
      ForeignPacketsIgnored(e, Step(e, s, ticks[0]), ticks[1..]);
    }
  }

  predicate Silent(e: Exchange, ticks: seq<Tick>) {
    forall i :: 0 <= i < |ticks| ==> !Answers(e, ticks[i].read)
  }

  /** Without an answering packet in the trace the exchange gets no reply. */
  lemma {:induction false} SilenceGivesNoReply(e: Exchange, s: Attempt, ticks: seq<Tick>)
    requires Silent(e, ticks)
    ensures Run(e, s, ticks).reply == s.reply
    decreases |ticks|
  {
    if s.looping && |ticks| > 0 {
      SilenceGivesNoReply(e, Step(e, s, ticks[0]), ticks[1..]);
    }
  }

  /**
   * The reply is the first answering packet read while the loop still runs:
   * if the loop is still going after the passes before k and pass k reads an
   * answer, that answer is the reply, whatever follows.
   */
  lemma FirstAnswerWins(e: Exchange, s: Attempt, ticks: seq<Tick>, k: nat)
    requires k < |ticks|
    requires Run(e, s, ticks[..k]).looping
    requires Answers(e, ticks[k].read)
    ensures Run(e, s, ticks).reply == ticks[k].read
    ensures !Run(e, s, ticks).looping
  {
    assert ticks == ticks[..k] + ticks[k..];
    RunSplits(e, s, ticks[..k], ticks[k..]);
    var m := Run(e, s, ticks[..k]);
    assert ticks[k..] == [ticks[k]] + ticks[k + 1..];
    assert Run(e, m, ticks[k..]) == Run(e, Step(e, m, ticks[k]), ticks[k + 1..]);
  }

  /** The trace's clock strictly increases from pass to pass. */
  predicate Increasing(ticks: seq<Tick>) {
    forall i :: 0 <= i < |ticks| - 1 ==> ticks[i].nowUs < ticks[i + 1].nowUs
  }

  function Max0(x: int): nat {
    if x < 0 then 0 else x
  }

  /** Passes still to wait before the next attempt falls due. */
  function Wait(e: Exchange, s: Attempt, ticks: seq<Tick>): nat {
    if |ticks| == 0 then 0 else Max0(s.lastSendUs + e.intervalUs + 1 - ticks[0].nowUs)
  }

  /**
   * Passes enough for `left` more attempts when the clock advances by at least
   * one microsecond per pass: each attempt falls due at most intervalUs + 1
   * passes after the one before it.
   */
  function Budget(left: nat, intervalUs: nat): nat {
    if left == 0 then 0 else Budget(left - 1, intervalUs) + intervalUs + 1
  }

  lemma {:induction false} BudgetIsProduct(left: nat, intervalUs: nat)
    ensures Budget(left, intervalUs) == left * (intervalUs + 1)
  {
    if left > 0 {
      BudgetIsProduct(left - 1, intervalUs);
    }
  }

  /** Over a silent, strictly increasing clock a running exchange spends its remaining budget and gives up. */
  lemma {:induction false} SilentRunGivesUp(e: Exchange, s: Attempt, ticks: seq<Tick>)
    requires e.intervalUs >= 0
    requires s.looping && s.reply.None? && 1 <= |s.sendTimes| <= e.maxAttempts
    requires Increasing(ticks) && Silent(e, ticks)
    requires |ticks| >= Budget(e.maxAttempts - |s.sendTimes|, e.intervalUs) + Wait(e, s, ticks) + 1
    ensures var r := Run(e, s, ticks); !r.looping && r.reply.None? && |r.sendTimes| == e.maxAttempts
    decreases |ticks|
  {
    var rest := ticks[1..];
    var s1 := Step(e, s, ticks[0]);
    assert !Answers(e, ticks[0].read);
    if Due(e, s, ticks[0].nowUs) {
      if |s.sendTimes| < e.maxAttempts {
        SilentSend(e, s, ticks);
        SilentRunGivesUp(e, s1, rest);
      }
    } else {
      SilentWait(e, s, ticks);
      SilentRunGivesUp(e, s, rest);
    }
  }

  /** A silent pass that sends uses one attempt of the budget, and the next attempt is at most intervalUs + 1 passes away. */
  lemma SilentSend(e: Exchange, s: Attempt, ticks: seq<Tick>)
    requires e.intervalUs >= 0
    requires s.looping && s.reply.None? && 1 <= |s.sendTimes| < e.maxAttempts
    requires Increasing(ticks) && Silent(e, ticks) && 1 <= |ticks| && Due(e, s, ticks[0].nowUs)
    requires |ticks| >= Budget(e.maxAttempts - |s.sendTimes|, e.intervalUs) + Wait(e, s, ticks) + 1
    ensures var s1 := Step(e, s, ticks[0]);
      && s1.looping && s1.reply.None? && |s1.sendTimes| == |s.sendTimes| + 1
      && Increasing(ticks[1..]) && Silent(e, ticks[1..])
      && |ticks[1..]| >= Budget(e.maxAttempts - |s1.sendTimes|, e.intervalUs) + Wait(e, s1, ticks[1..]) + 1
  {
    var rest := ticks[1..];
    var s1 := Step(e, s, ticks[0]);
    assert !Answers(e, ticks[0].read);
    assert s1.sendTimes == s.sendTimes + [ticks[0].nowUs];
    SilentRest(e, ticks);
    var left := e.maxAttempts - |s.sendTimes|;
    assert e.maxAttempts - |s1.sendTimes| == left - 1;
    assert Budget(left, e.intervalUs) == Budget(left - 1, e.intervalUs) + e.intervalUs + 1;
    assert Wait(e, s1, rest) <= e.intervalUs;
  }

  /** A silent pass before the next attempt is due changes nothing and brings that attempt one pass closer. */
  lemma SilentWait(e: Exchange, s: Attempt, ticks: seq<Tick>)
    requires e.intervalUs >= 0
    requires s.looping && s.reply.None? && 1 <= |s.sendTimes| <= e.maxAttempts
    requires Increasing(ticks) && Silent(e, ticks) && 1 <= |ticks| && !Due(e, s, ticks[0].nowUs)
    requires |ticks| >= Budget(e.maxAttempts - |s.sendTimes|, e.intervalUs) + Wait(e, s, ticks) + 1
    ensures Step(e, s, ticks[0]) == s
    ensures Increasing(ticks[1..]) && Silent(e, ticks[1..])
    ensures |ticks[1..]| >= Budget(e.maxAttempts - |s.sendTimes|, e.intervalUs) + Wait(e, s, ticks[1..]) + 1
  {
    assert !Answers(e, ticks[0].read);
    SilentRest(e, ticks);
    assert Wait(e, s, ticks[1..]) <= Wait(e, s, ticks) - 1;
  }

  /** The rest of a silent, increasing trace is silent and increasing. */
  lemma SilentRest(e: Exchange, ticks: seq<Tick>)
    requires 1 <= |ticks| && Increasing(ticks) && Silent(e, ticks)
    ensures Increasing(ticks[1..]) && Silent(e, ticks[1..])
  {
    var rest := ticks[1..];
    forall i | 0 <= i < |rest| ensures !Answers(e, rest[i].read) {
      assert rest[i] == ticks[i + 1];
    }
  }

  /**
   * Liveness of the retry loop: over a strictly increasing clock with no
   * answer on the line, 1 + maxAttempts * (interval + 1) passes are enough for
   * the exchange to give up, with the whole budget spent and no reply.
   */
  lemma SilentExchangeGivesUp(e: Exchange, startUs: int, ticks: seq<Tick>)
    requires e.intervalUs >= 0
    requires Increasing(ticks) && Silent(e, ticks)
    requires |ticks| >= 1 + e.maxAttempts * (e.intervalUs + 1)
    ensures var r := Run(e, Start(startUs), ticks); !r.looping && r.reply.None? && |r.sendTimes| == e.maxAttempts
  {
    var s1 := Step(e, Start(startUs), ticks[0]);
    var rest := ticks[1..];
    assert ticks == [ticks[0]] + rest;
    if e.maxAttempts >= 1 {
      assert s1.sendTimes == [ticks[0].nowUs];
      BudgetIsProduct(e.maxAttempts, e.intervalUs);
      assert Budget(e.maxAttempts, e.intervalUs) == Budget(e.maxAttempts - 1, e.intervalUs) + e.intervalUs + 1;
      SilentRest(e, ticks);
      SilentRunGivesUp(e, s1, rest);
    }
  }
}
