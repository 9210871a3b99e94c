/**
 * `wlan_connect`: issue connect(), then poll isconnected() and re-issue
 * connect() until the link is up or the retry budget is spent. The radio
 * is not modelled; its answers to the polls are an input.
 */
module Radio {

  /** Largest value the retry counter `attempt` is meant to reach. */
  const MaxAttempt: nat := 10

  /**
   * The answers isconnected() gives to successive polls: a recorded
   * sequence of answers, after which the link stays `settled`.
   */
  datatype Link = Link(answers: seq<bool>, settled: bool) {
    function At(i: nat): bool
    {
      if i < |answers| then answers[i] else settled
    }
  }

  /** Some poll among the first MaxAttempt + 1 finds the link up. */
  ghost predicate UpWithinBudget(link: Link)
  {
    exists i: nat :: i <= MaxAttempt && link.At(i)
  }

  /**
   * The round at which the corrected loop stops, searching from round `k`:
   * the first round up to MaxAttempt whose poll finds the link up, or
   * MaxAttempt when none does.
   */
  function StopRound(link: Link, k: nat): (r: nat)
    requires k <= MaxAttempt
    ensures k <= r <= MaxAttempt
    ensures forall i: nat :: k <= i < r ==> !link.At(i)
    ensures r < MaxAttempt ==> link.At(r)
    decreases MaxAttempt - k
  {
    if k == MaxAttempt || link.At(k) then k else StopRound(link, k + 1)
  }

  /**
   * The connection loop with the retry test the code evidently intends:
   * one isconnected() poll per round; stop when it reports the link up,
   * or when it reports it down after `attempt` has reached 10; otherwise
   * count a retry and issue connect() again.
   */
  method WlanConnect(link: Link) returns (connected: bool, attempt: nat, connects: nat, polls: nat)
    ensures attempt <= MaxAttempt && connects == attempt + 1 && polls == attempt + 1
    ensures forall i: nat :: i < attempt ==> !link.At(i)
    ensures connected == link.At(attempt)
    ensures !connected ==> attempt == MaxAttempt
    ensures connected <==> UpWithinBudget(link)
    ensures attempt == StopRound(link, 0)
  {
    attempt, connects, polls := 0, 1, 0;
    while true
      invariant attempt <= MaxAttempt && connects == attempt + 1 && polls == attempt
      invariant forall i: nat :: i < attempt ==> !link.At(i)
      decreases MaxAttempt - attempt
    {
      connected := link.At(polls);
      polls := polls + 1;
      if connected {
        break;
      }
      if attempt == MaxAttempt {
        break;
      }
      attempt := attempt + 1;
      connects := connects + 1;
    }
    if !connected {
      forall i: nat | i <= MaxAttempt
        ensures !link.At(i)
      {
      }
    }
  }

  /** How a run of the loop as written ends on a finite record of answers. */
  datatype Run =
    | Connected(attempt: nat, connects: nat, polls: nat)
    | GaveUp(attempt: nat, connects: nat, polls: nat)
    | Unfinished(attempt: nat, connects: nat)

  /**
   * The loop of `wlan_connect` as written, from the top of a round with
   * `polls` answers consumed. A round polls at the top (break when up);
   * then, only when `attempt == 10`, polls again (break when down); then
   * polls a third time and, when down, counts a retry and re-issues
   * connect(). `Unfinished` means the record ran out first.
   */
  function AsWrittenLoop(answers: seq<bool>, polls: nat, attempt: nat, connects: nat): (r: Run)
    ensures r.attempt >= attempt && r.connects - r.attempt == connects - attempt
    ensures r.Connected? ==> 0 < r.polls <= |answers| && answers[r.polls - 1]
    ensures r.GaveUp? ==> r.attempt == MaxAttempt && 0 < r.polls <= |answers| && !answers[r.polls - 1]
    decreases |answers| - polls
  {
    if polls >= |answers| then Unfinished(attempt, connects)
    else if answers[polls] then Connected(attempt, connects, polls + 1)
    else if attempt == MaxAttempt && polls + 1 >= |answers| then Unfinished(attempt, connects)
    else if attempt == MaxAttempt && !answers[polls + 1] then GaveUp(attempt, connects, polls + 2)
    else
      var next := if attempt == MaxAttempt then polls + 2 else polls + 1;
      if next >= |answers| then Unfinished(attempt, connects)
      else if answers[next] then AsWrittenLoop(answers, next + 1, attempt, connects)
      else AsWrittenLoop(answers, next + 1, attempt + 1, connects + 1)
  }

  /** `wlan_connect` as written: one connect() before the loop. */
  function AsWrittenConnect(answers: seq<bool>): Run
  {
    AsWrittenLoop(answers, 0, 0, 1)
  }

  /** `n` answers that all report the link down. */
  function Downs(n: nat): (s: seq<bool>)
    ensures |s| == n && forall i :: 0 <= i < n ==> !s[i]
  {
    seq(n, _ => false)
  }

  /** While every answer is "down", each round below 10 costs two polls and one retry. */
  lemma {:induction false} AsWrittenRetries(answers: seq<bool>, polls: nat, attempt: nat, connects: nat)
    requires attempt <= MaxAttempt
    requires polls + 2 * (MaxAttempt - attempt) <= |answers|
    requires forall i :: polls <= i < polls + 2 * (MaxAttempt - attempt) ==> !answers[i]
    ensures AsWrittenLoop(answers, polls, attempt, connects)
         == AsWrittenLoop(answers, polls + 2 * (MaxAttempt - attempt), MaxAttempt, connects + (MaxAttempt - attempt))
    decreases MaxAttempt - attempt
  {
    if attempt < MaxAttempt {
      AsWrittenRetries(answers, polls + 2, attempt + 1, connects + 1);
    }
  }

  /** A link that never comes up: the loop gives up after 11 connect() calls and 22 polls. */
  lemma AsWrittenGivesUpOnDeadLink(n: nat)
    requires n >= 22
    ensures AsWrittenConnect(Downs(n)) == GaveUp(MaxAttempt, MaxAttempt + 1, 22)
  {
    AsWrittenRetries(Downs(n), 0, 0, 1);
  }

  /** Past attempt 10 the test `attempt == 10` never fires again, so the loop never gives up. */
  lemma {:induction false} AsWrittenKeepsRetrying(answers: seq<bool>, polls: nat, attempt: nat, connects: nat)
    requires attempt > MaxAttempt
    requires forall i :: polls <= i < |answers| ==> !answers[i]
    ensures AsWrittenLoop(answers, polls, attempt, connects).Unfinished?
    decreases |answers| - polls
  {
    if polls + 1 < |answers| {
      AsWrittenKeepsRetrying(answers, polls + 2, attempt + 1, connects + 1);
    }
  }

  /** Down for 21 polls, then up for the extra poll made when attempt == 10. */
  function Flicker(): (s: seq<bool>)
    ensures |s| == 22 && s[21] && forall i :: 0 <= i < 21 ==> !s[i]
  {
    Downs(21) + [true]
  }

  /**
   * If the link is up for the poll at attempt 10 and down again for the
   * next one, the loop as written never gives up, however long the link
   * then stays down.
   */
  lemma AsWrittenNeverGivesUp(n: nat)
    ensures AsWrittenConnect(Flicker() + Downs(n)).Unfinished?
  {
    var w := Flicker() + Downs(n);
    AsWrittenRetries(w, 0, 0, 1);
    if n > 0 {
      AsWrittenKeepsRetrying(w, 23, MaxAttempt + 1, MaxAttempt + 2);
    }
  }

  /** The same flicker lets the loop issue a 12th connect() before it connects. */
  lemma AsWrittenExceedsRetryBudget()
    ensures AsWrittenConnect(Flicker() + [false, true]) == Connected(MaxAttempt + 1, MaxAttempt + 2, 24)
  {
    AsWrittenRetries(Flicker() + [false, true], 0, 0, 1);
  }

  /** Each answer of `r` given twice in a row. */
  function Doubled(r: seq<bool>): (s: seq<bool>)
    ensures |s| == 2 * |r|
    ensures forall k :: 0 <= k < |r| ==> s[2 * k] == r[k] && s[2 * k + 1] == r[k]
  {
    if r == [] then [] else [r[0], r[0]] + Doubled(r[1..])
  }

  /**
   * The record of answers the loop as written sees when the link holds
   * one state per round: round k < 10 is polled twice (lines 150 and 169),
   * round 10 up to three times (lines 150, 164 and 169).
   */
  function SteadyRecord(rounds: seq<bool>): (s: seq<bool>)
    requires |rounds| == MaxAttempt + 1
    ensures |s| == 2 * MaxAttempt + 3
    ensures forall k :: 0 <= k < MaxAttempt ==> s[2 * k] == rounds[k] && s[2 * k + 1] == rounds[k]
    ensures s[2 * MaxAttempt] == s[2 * MaxAttempt + 1] == s[2 * MaxAttempt + 2] == rounds[MaxAttempt]
  {
    var last := rounds[MaxAttempt];
    Doubled(rounds[..MaxAttempt]) + [last, last, last]
  }

  /**
   * How a run that stops at round `r` ends: connected after r retries when
   * that round finds the link up, otherwise given up after 10 retries.
   */
  function SteadyEnd(rounds: seq<bool>, r: nat): Run
    requires r < |rounds|
  {
    if rounds[r] then Connected(r, r + 1, 2 * r + 1) else GaveUp(MaxAttempt, MaxAttempt + 1, 2 * MaxAttempt + 2)
  }

  /**
   * From round `k` on (after `polls` = 2k polls and `connects` = k + 1 calls),
   * the loop as written on a steady record stops where the corrected loop does.
   */
  lemma {:induction false} AsWrittenSteadyFrom(rounds: seq<bool>, k: nat, polls: nat, connects: nat)
    requires |rounds| == MaxAttempt + 1 && k <= MaxAttempt
    requires polls == 2 * k && connects == k + 1
    ensures AsWrittenLoop(SteadyRecord(rounds), polls, k, connects) == SteadyEnd(rounds, StopRound(Link(rounds, false), k))
    decreases MaxAttempt - k
  {
    var w := SteadyRecord(rounds);
    var link := Link(rounds, false);
    if k < MaxAttempt {
      assert w[polls] == rounds[k] && w[polls + 1] == rounds[k];
      if rounds[k] {
        assert StopRound(link, k) == k;
      } else {
        assert StopRound(link, k) == StopRound(link, k + 1);
        assert AsWrittenLoop(w, polls, k, connects) == AsWrittenLoop(w, polls + 2, k + 1, connects + 1);
        AsWrittenSteadyFrom(rounds, k + 1, polls + 2, connects + 1);
      }
    } else {
      assert StopRound(link, k) == MaxAttempt;
    }
  }

  /**
   * When the link does not change within a round, the loop as written and
   * the corrected loop agree: both stop at round StopRound (the corrected
   * loop's `attempt`), connected exactly when that round finds the link up,
   * after the same number of connect() calls.
   */
  lemma AsWrittenAgreesOnSteadyLink(rounds: seq<bool>)
    requires |rounds| == MaxAttempt + 1
    ensures AsWrittenConnect(SteadyRecord(rounds)) == SteadyEnd(rounds, StopRound(Link(rounds, false), 0))
  {
    AsWrittenSteadyFrom(rounds, 0, 0, 1);
  }

  /** Down at every top-of-round poll, up at every retry-test poll, for `n` rounds. */
  function Alternating(n: nat): (s: seq<bool>)
    ensures |s| == 2 * n
    ensures forall k :: 0 <= k < n ==> !s[2 * k] && s[2 * k + 1]
  {
    if n == 0 then [] else Alternating(n - 1) + [false, true]
  }

  /**
   * If the link is down at each poll of line 150 and up at each poll of
   * line 169, the loop as written neither connects, nor counts a retry,
   * nor gives up: it spins at attempt 0 for as long as this lasts.
   */
  lemma {:induction false} AsWrittenSpinsFrom(n: nat, k: nat)
    requires k <= n
    ensures AsWrittenLoop(Alternating(n), 2 * k, 0, 1) == Unfinished(0, 1)
    decreases n - k
  {
    if k < n {
      AsWrittenSpinsFrom(n, k + 1);
    }
  }

  lemma AsWrittenSpinsWithoutRetry(n: nat)
    ensures AsWrittenConnect(Alternating(n)) == Unfinished(0, 1)
  {
    AsWrittenSpinsFrom(n, 0);
  }
}
