/** The two polling loops: growing delays against a deadline. Times are nanoseconds. */
module Polling {
  import opened Options
  import opened Text

  const MS := 1_000_000

  /** time.Duration(float64(delay) * 1.5), capped. Every value the loops reach is a whole number of nanoseconds. */
  function NextDelay(delay: nat, cap: nat): nat {
    var next := delay * 3 / 2;
    if next > cap then cap else next
  }

  function DelayAt(first: nat, cap: nat, i: nat): nat {
    if i == 0 then first else NextDelay(DelayAt(first, cap, i - 1), cap)
  }

  /** The time the first n waits take at least. */
  function Waited(first: nat, cap: nat, n: nat): nat {
    if n == 0 then 0 else Waited(first, cap, n - 1) + DelayAt(first, cap, n - 1)
  }

  lemma {:induction false} DelaysGrowToCap(first: nat, cap: nat, i: nat)
    requires 2 <= first <= cap
    ensures first <= DelayAt(first, cap, i) <= DelayAt(first, cap, i + 1) <= cap
  {
    if i > 0 {
      DelaysGrowToCap(first, cap, i - 1);
    }
  }

  /** Waiting from 40 ms up to 320 ms loses 1088.75 ms against waiting 320 ms each time, and no more. */
  lemma {:induction false} OffsetWaits(n: nat)
    ensures Waited(40 * MS, 320 * MS, n) >= 320 * MS * n - 1_088_750_000
    ensures n >= 6 ==> DelayAt(40 * MS, 320 * MS, n) == 320 * MS
                       && Waited(40 * MS, 320 * MS, n) == 320 * MS * n - 1_088_750_000
  {
    if n > 0 {
      OffsetWaits(n - 1);
    }
    if n <= 6 {
      FirstOffsetDelays();
    }
  }

  lemma FirstOffsetDelays()
    ensures DelayAt(40 * MS, 320 * MS, 0) == 40 * MS
    ensures DelayAt(40 * MS, 320 * MS, 1) == 60 * MS
    ensures DelayAt(40 * MS, 320 * MS, 2) == 90 * MS
    ensures DelayAt(40 * MS, 320 * MS, 3) == 135 * MS
    ensures DelayAt(40 * MS, 320 * MS, 4) == 202_500_000
    ensures DelayAt(40 * MS, 320 * MS, 5) == 303_750_000
    ensures DelayAt(40 * MS, 320 * MS, 6) == 320 * MS
    ensures Waited(40 * MS, 320 * MS, 6) == 831_250_000
  {
    assert Waited(40 * MS, 320 * MS, 1) == 40 * MS;
    assert Waited(40 * MS, 320 * MS, 2) == 100 * MS;
    assert Waited(40 * MS, 320 * MS, 3) == 190 * MS;
    assert Waited(40 * MS, 320 * MS, 4) == 325 * MS;
    assert Waited(40 * MS, 320 * MS, 5) == 527_500_000;
  }

  lemma {:induction false} CommandWaits(n: nat)
    ensures Waited(20 * MS, 250 * MS, n) >= 250 * MS * n - 1_106_562_500
    ensures n >= 7 ==> DelayAt(20 * MS, 250 * MS, n) == 250 * MS
                       && Waited(20 * MS, 250 * MS, n) == 250 * MS * n - 1_106_562_500
  {
    if n > 0 {
      CommandWaits(n - 1);
    }
    if n <= 7 {
      FirstCommandDelays();
    }
  }

  lemma FirstCommandDelays()
    ensures DelayAt(20 * MS, 250 * MS, 1) == 30 * MS
    ensures DelayAt(20 * MS, 250 * MS, 2) == 45 * MS
    ensures DelayAt(20 * MS, 250 * MS, 3) == 67_500_000
    ensures DelayAt(20 * MS, 250 * MS, 4) == 101_250_000
    ensures DelayAt(20 * MS, 250 * MS, 5) == 151_875_000
    ensures DelayAt(20 * MS, 250 * MS, 6) == 227_812_500
    ensures DelayAt(20 * MS, 250 * MS, 7) == 250 * MS
    ensures Waited(20 * MS, 250 * MS, 7) == 643_437_500
  {
    assert Waited(20 * MS, 250 * MS, 1) == 20 * MS;
    assert Waited(20 * MS, 250 * MS, 2) == 50 * MS;
    assert Waited(20 * MS, 250 * MS, 3) == 95 * MS;
    assert Waited(20 * MS, 250 * MS, 4) == 162_500_000;
    assert Waited(20 * MS, 250 * MS, 5) == 263_750_000;
    assert Waited(20 * MS, 250 * MS, 6) == 415_625_000;
  }

  /** The least whole number that is at least a / b. */
  function Ceil(a: nat, b: nat): nat
    requires b > 0
  {
    (a + b - 1) / b
  }

  lemma CeilBounds(n: nat, a: nat, b: nat)
    requires b > 0 && n * b < a + b
    ensures n <= Ceil(a, b)
  {
    var c := Ceil(a, b);
    assert a + b - 1 == c * b + (a + b - 1) % b;
    Scale(c + 1, n, b);
  }

  /** It is the least: one less falls short. */
  lemma CeilExactly(a: nat, b: nat)
    requires b > 0
    ensures (Ceil(a, b) - 1) * b < a <= Ceil(a, b) * b
  {
    var c := Ceil(a, b);
    assert a + b - 1 == c * b + (a + b - 1) % b;
    assert (c - 1) * b == c * b - b;
  }

  lemma AtMost(n: nat, c: nat, a: nat, b: nat)
    requires b > 0 && n <= c && (c - 1) * b < a
    ensures (n - 1) * b < a
  {
    if n > 0 {
      Scale(n - 1, c - 1, b);
    }
  }

  /** The bounds written out: one poll less than made fits into the time there is. */
  lemma OffsetPollsFit(polls: nat, timeout: int)
    requires polls <= OffsetPolls(timeout)
    ensures timeout <= 0 ==> polls == 0
    ensures timeout > 0 ==> (polls - 1) * 320_000_000 < timeout + 1_088_750_000
  {
    if timeout > 0 {
      CeilExactly(timeout + 1_088_750_000, 320 * MS);
      AtMost(polls, OffsetPolls(timeout), timeout + 1_088_750_000, 320 * MS);
    }
  }

  lemma CommandPollsFit(polls: nat, timeout: int)
    requires polls <= CommandPolls(timeout)
    ensures timeout <= 0 ==> polls == 0
    ensures timeout > 0 ==> (polls - 1) * 250_000_000 < timeout + 1_106_562_500
  {
    if timeout > 0 {
      CeilExactly(timeout + 1_106_562_500, 250 * MS);
      AtMost(polls, CommandPolls(timeout), timeout + 1_106_562_500, 250 * MS);
    }
  }

  lemma Scale(m: nat, n: nat, b: nat)
    ensures m <= n ==> m * b <= n * b
  {
  }

  /** ceil((T + 1088.75) / 320) for T milliseconds, none without a positive T. */
  function OffsetPolls(timeout: int): nat {
    if timeout <= 0 then 0 else Ceil(timeout + 1_088_750_000, 320 * MS)
  }

  /** ceil((T + 1106.5625) / 250) for T milliseconds. */
  function CommandPolls(timeout: int): nat {
    if timeout <= 0 then 0 else Ceil(timeout + 1_106_562_500, 250 * MS)
  }

  /** One round of the loop: the poll count stays within the bound and the next wait is a real one. */
  lemma OffsetRound(elapsed: int, timeout: int, polls: nat)
    requires Waited(40 * MS, 320 * MS, polls) <= elapsed < timeout
    ensures polls + 1 <= OffsetPolls(timeout)
    ensures DelayAt(40 * MS, 320 * MS, polls) > 0
    ensures DelayAt(40 * MS, 320 * MS, polls + 1) == NextDelay(DelayAt(40 * MS, 320 * MS, polls), 320 * MS)
    ensures Waited(40 * MS, 320 * MS, polls + 1)
            == Waited(40 * MS, 320 * MS, polls) + DelayAt(40 * MS, 320 * MS, polls)
  {
    DelaysGrowToCap(40 * MS, 320 * MS, polls);
    OffsetWaits(polls);
    CeilBounds(polls + 1, timeout + 1_088_750_000, 320 * MS);
  }

  /** One round of the loop: the poll count stays within the bound and the next wait is a real one. */
  lemma CommandRound(elapsed: int, timeout: int, polls: nat)
    requires Waited(20 * MS, 250 * MS, polls) <= elapsed < timeout
    ensures polls + 1 <= CommandPolls(timeout)
    ensures DelayAt(20 * MS, 250 * MS, polls) > 0
    ensures DelayAt(20 * MS, 250 * MS, polls + 1) == NextDelay(DelayAt(20 * MS, 250 * MS, polls), 250 * MS)
    ensures Waited(20 * MS, 250 * MS, polls + 1)
            == Waited(20 * MS, 250 * MS, polls) + DelayAt(20 * MS, 250 * MS, polls)
  {
    DelaysGrowToCap(20 * MS, 250 * MS, polls);
    CommandWaits(polls);
    CeilBounds(polls + 1, timeout + 1_106_562_500, 250 * MS);
  }

  datatype Outcome = Reached | TimedOut | Cancelled | QueryFailed

  /** `clock(i)` is the reading at the loop's i-th test, `offset(i)` what poll i reads (None for an error), and
      `cancelled(i)` whether the context ends during the wait after it. */
  method WaitForProjectionOffset(target: nat, timeout: int, start: int,
                                 clock: nat -> int, offset: nat -> Option<int>, cancelled: nat -> bool)
    returns (outcome: Outcome, polls: nat)
    requires start <= clock(0)
    requires forall i: nat {:trigger DelayAt(40 * MS, 320 * MS, i)} ::
               clock(i + 1) >= clock(i) + DelayAt(40 * MS, 320 * MS, i)
    ensures target == 0 ==> polls == 0 && outcome.Reached?
    ensures target > 0 ==>
              match outcome
              case Reached => polls > 0 && offset(polls - 1).Some? && offset(polls - 1).value >= target
              case TimedOut => clock(polls) >= start + timeout
              case Cancelled => polls > 0 && cancelled(polls - 1)
              case QueryFailed => false
    ensures forall i :: 0 <= i < polls - 1 ==> offset(i).None? || offset(i).value < target
    ensures timeout <= 0 ==> polls == 0
    ensures timeout > 0 ==> (polls - 1) * 320_000_000 < timeout + 1_088_750_000
    ensures polls <= OffsetPolls(timeout)
  {
    polls := 0;
    if target == 0 {
      OffsetPollsFit(0, timeout);
      return Reached, 0;
    }
    var deadline := start + timeout;
    var delay := 40 * MS;
    while clock(polls) < deadline
      invariant delay == DelayAt(40 * MS, 320 * MS, polls)
      invariant clock(polls) >= start + Waited(40 * MS, 320 * MS, polls)
      invariant polls <= OffsetPolls(timeout)
      invariant forall i :: 0 <= i < polls ==> offset(i).None? || offset(i).value < target
      decreases deadline - clock(polls)
    {
      var read := offset(polls);
      var ended := cancelled(polls);
      OffsetRound(clock(polls) - start, timeout, polls);
      polls := polls + 1;
      OffsetPollsFit(polls, timeout);
      if read.Some? && read.value >= target {
        return Reached, polls;
      }
      if ended {
        return Cancelled, polls;
      }
      delay := NextDelay(delay, 320 * MS);
    }
    OffsetPollsFit(polls, timeout);
    return TimedOut, polls;
  }

  /** A timeout that is not positive stands for two seconds. */
  function CommandTimeout(timeout: int): (r: nat)
    ensures r == if timeout <= 0 then 2_000_000_000 else timeout
  {
    if timeout <= 0 then 2000 * MS else timeout
  }

  predicate Blank(commandID: string, groupID: string) {
    Trim(commandID) == "" || Trim(groupID) == ""
  }

  /** One blank id is enough not to wait. */
  lemma BlankExactly(commandID: string, groupID: string)
    ensures Blank(commandID, groupID) <==> Trim(commandID) == "" || Trim(groupID) == ""
  {
  }

  /** What one query for the command's event answers. */
  datatype Answer = Found | NoRows | TableMissing | OtherError

  /** WaitForCommandApplied's loop. */
  method PollForCommand(allowed: nat, start: int, clock: nat -> int, answer: nat -> Answer, cancelled: nat -> bool)
    returns (outcome: Outcome, polls: nat)
    requires start <= clock(0)
    requires forall i: nat {:trigger DelayAt(20 * MS, 250 * MS, i)} ::
               clock(i + 1) >= clock(i) + DelayAt(20 * MS, 250 * MS, i)
    ensures match outcome
            case Reached => polls > 0 && answer(polls - 1).Found?
            case TimedOut => clock(polls) >= start + allowed
            case Cancelled => polls > 0 && cancelled(polls - 1)
            case QueryFailed => polls > 0 && answer(polls - 1).OtherError?
    ensures forall i :: 0 <= i < polls - 1 ==> answer(i).NoRows? || answer(i).TableMissing?
    ensures polls <= CommandPolls(allowed)
  {
    polls := 0;
    var deadline := start + allowed;
    var delay := 20 * MS;
    while clock(polls) < deadline
      invariant delay == DelayAt(20 * MS, 250 * MS, polls)
      invariant clock(polls) >= start + Waited(20 * MS, 250 * MS, polls)
      invariant polls <= CommandPolls(allowed)
      invariant forall i :: 0 <= i < polls ==> answer(i).NoRows? || answer(i).TableMissing?
      decreases deadline - clock(polls)
    {
      var got := answer(polls);
      var ended := cancelled(polls);
      CommandRound(clock(polls) - start, allowed, polls);
      polls := polls + 1;
      if got.Found? {
        return Reached, polls;
      }
      if got.OtherError? {
        return QueryFailed, polls;
      }
      if ended {
        return Cancelled, polls;
      }
      delay := NextDelay(delay, 250 * MS);
    }
    return TimedOut, polls;
  }

  method WaitForCommandApplied(commandID: string, groupID: string, timeout: int, start: int,
                               clock: nat -> int, answer: nat -> Answer, cancelled: nat -> bool)
    returns (outcome: Outcome, polls: nat)
    requires start <= clock(0)
    requires forall i: nat {:trigger DelayAt(20 * MS, 250 * MS, i)} ::
               clock(i + 1) >= clock(i) + DelayAt(20 * MS, 250 * MS, i)
    ensures Blank(commandID, groupID) ==> polls == 0 && outcome.Reached?
    ensures !Blank(commandID, groupID) && outcome.Reached? ==> polls > 0 && answer(polls - 1).Found?
    ensures outcome.TimedOut? ==> clock(polls) >= start + if timeout <= 0 then 2_000_000_000 else timeout
    ensures outcome.QueryFailed? ==> polls > 0 && answer(polls - 1).OtherError?
    ensures outcome.Cancelled? ==> polls > 0 && cancelled(polls - 1)
    ensures forall i :: 0 <= i < polls - 1 ==> answer(i).NoRows? || answer(i).TableMissing?
    ensures polls <= CommandPolls(CommandTimeout(timeout))
    ensures (polls - 1) * 250_000_000 < (if timeout <= 0 then 2_000_000_000 else timeout) + 1_106_562_500
  {
    if Blank(commandID, groupID) {
      return Reached, 0;
    }
    outcome, polls := PollForCommand(CommandTimeout(timeout), start, clock, answer, cancelled);
    CommandPollsFit(polls, CommandTimeout(timeout));
  }
}
