/** The per-client fixed-window limiter, which forgets old clients when it holds too many. Times are nanoseconds. */
module RateLimiter {
  import opened Options
  import opened Text

  const MAX_CLIENTS := 100_000

  /** One client's state: when its window opened and how many calls it admitted. */
  datatype Window = Window(start: int, count: int)

  datatype Config = Config(limit: int, window: int)

  datatype Call = Call(key: string, now: int)

  predicate OpensWindow(w: Option<Window>, cfg: Config, now: int) {
    w.None? || now - w.value.start >= cfg.window
  }

  predicate Admits(w: Option<Window>, cfg: Config, now: int) {
    OpensWindow(w, cfg, now) || w.value.count < cfg.limit
  }

  function Advance(w: Option<Window>, cfg: Config, now: int): Option<Window> {
    if OpensWindow(w, cfg, now) then Some(Window(now, 1))
    else if w.value.count >= cfg.limit then w
    else Some(w.value.(count := w.value.count + 1))
  }

  function Recent(clients: map<string, Window>, cutoff: int): map<string, Window> {
    map k | k in clients && !(clients[k].start < cutoff) :: clients[k]
  }

  /** The table after one call of the limiter as it is, evictions included. */
  function Step(clients: map<string, Window>, cfg: Config, c: Call): map<string, Window> {
    var clients' := clients[c.key := Advance(Lookup(clients, c.key), cfg, c.now).value];
    if OpensWindow(Lookup(clients, c.key), cfg, c.now) && |clients'| > MAX_CLIENTS
    then Recent(clients', c.now - 2 * cfg.window)
    else clients'
  }

  /** What a call does to each entry: its own key's window opens, counts on or stays; any other stays, or goes when the
      table would hold more than 100000 and the entry's window opened more than two windows ago. */
  lemma StepExactly(clients: map<string, Window>, cfg: Config, c: Call, k: string)
    ensures var opens := c.key !in clients || c.now - clients[c.key].start >= cfg.window;
            var own := if opens then Window(c.now, 1)
                       else if clients[c.key].count >= cfg.limit then clients[c.key]
                       else Window(clients[c.key].start, clients[c.key].count + 1);
            var all := clients[c.key := own];
            var evicts := opens && |all| > 100_000;
            Lookup(Step(clients, cfg, c), k)
            == if k in all && !(evicts && all[k].start < c.now - 2 * cfg.window) then Some(all[k]) else None
  {
  }

  /** A call is admitted when its key has no window, an expired one, or one with room. */
  lemma AdmitsExactly(clients: map<string, Window>, cfg: Config, c: Call)
    ensures Admits(Lookup(clients, c.key), cfg, c.now) <==>
              c.key !in clients || c.now - clients[c.key].start >= cfg.window || clients[c.key].count < cfg.limit
  {
  }

  class IPRateLimiter {
    const cfg: Config
    var clients: map<string, Window>

    constructor (limit: int, window: int)
      ensures cfg == Config(limit, window) && clients == map[]
    {
      cfg := Config(limit, window);
      clients := map[];
    }

    method Allow(key: string, now: int) returns (allowed: bool)
      modifies this
      ensures allowed == Admits(Lookup(old(clients), key), cfg, now)
      ensures clients == Step(old(clients), cfg, Call(key, now))
    {
      if key !in clients || now - clients[key].start >= cfg.window {
        clients := clients[key := Window(now, 1)];
        if |clients| > MAX_CLIENTS {
          ghost var full := clients;
          var cutoff := now + -2 * cfg.window;
          var todo := clients.Keys;
          while todo != {}
            invariant todo <= full.Keys
            invariant forall k :: k in clients <==> k in full && (k in todo || !(full[k].start < cutoff))
            invariant forall k :: k in clients ==> clients[k] == full[k]
            decreases todo
          {
            var k :| k in todo;
            if k in clients && clients[k].start < cutoff {
              clients := clients - {k};
            }
            todo := todo - {k};
          }
          assert clients == Recent(full, cutoff);
        }
        return true;
      }
      var state := clients[key];
      if state.count >= cfg.limit {
        assert clients[key := state] == clients;
        return false;
      }
      clients := clients[key := state.(count := state.count + 1)];
      return true;
    }
  }

  // ---------- when eviction changes an answer ----------

  function Clients(cfg: Config, calls: seq<Call>): map<string, Window> {
    if calls == [] then map[] else Step(Clients(cfg, calls[..|calls| - 1]), cfg, calls[|calls| - 1])
  }

  /** What the limiter answers to call i. */
  predicate Answer(cfg: Config, calls: seq<Call>, i: nat)
    requires i < |calls|
  {
    Admits(Lookup(Clients(cfg, calls[..i]), calls[i].key), cfg, calls[i].now)
  }

  /** The times of one key's calls. */
  function Times(calls: seq<Call>, key: string): seq<int> {
    if calls == [] then []
    else Times(calls[..|calls| - 1], key) + if calls[|calls| - 1].key == key then [calls[|calls| - 1].now] else []
  }

  /** A limiter for one key that never evicts: its window after calls at these times. */
  function KeyWindow(cfg: Config, times: seq<int>): Option<Window> {
    if times == [] then None else Advance(KeyWindow(cfg, times[..|times| - 1]), cfg, times[|times| - 1])
  }

  /** No call's time is more than one window behind an earlier call's. */
  ghost predicate WithinOneWindow(cfg: Config, calls: seq<Call>) {
    forall i, j :: 0 <= i < j < |calls| ==> calls[j].now >= calls[i].now - cfg.window
  }

  lemma TimesStep(calls: seq<Call>, c: Call, key: string)
    ensures Times(calls + [c], key) == Times(calls, key) + if c.key == key then [c.now] else []
  {
    assert (calls + [c])[..|calls|] == calls;
  }

  lemma KeyWindowStep(cfg: Config, calls: seq<Call>, c: Call, key: string)
    ensures KeyWindow(cfg, Times(calls + [c], key)) ==
            if c.key == key then Advance(KeyWindow(cfg, Times(calls, key)), cfg, c.now)
            else KeyWindow(cfg, Times(calls, key))
  {
    TimesStep(calls, c, key);
    if c.key == key {
      var times := Times(calls, key);
      assert (times + [c.now])[..|times|] == times;
    } else {
      assert Times(calls, key) + [] == Times(calls, key);
    }
  }

  /** What the table holds for a key is what the never-evicting limiter holds, or nothing when that window was opened
      more than two windows before some call. */
  ghost predicate AgreesOn(cfg: Config, mine: Option<Window>, calls: seq<Call>, k: string) {
    var full := KeyWindow(cfg, Times(calls, k));
    || mine == full
    || (mine.None? && full.Some?
        && exists i :: 0 <= i < |calls| && full.value.start < calls[i].now - 2 * cfg.window)
  }

  /** A forgotten window would have expired anyway. */
  lemma SameDecision(cfg: Config, clients: map<string, Window>, calls: seq<Call>, c: Call)
    requires cfg.window >= 0 && AgreesOn(cfg, Lookup(clients, c.key), calls, c.key) && WithinOneWindow(cfg, calls + [c])
    ensures var mine, full := Lookup(clients, c.key), KeyWindow(cfg, Times(calls, c.key));
            Admits(mine, cfg, c.now) == Admits(full, cfg, c.now)
              && Advance(mine, cfg, c.now) == Advance(full, cfg, c.now)
  {
    var full := KeyWindow(cfg, Times(calls, c.key));
    if Lookup(clients, c.key) != full {
      var i :| 0 <= i < |calls| && full.value.start < calls[i].now - 2 * cfg.window;
      assert (calls + [c])[|calls|].now >= (calls + [c])[i].now - cfg.window;
    }
  }

  /** One call writes its own key's window and may forget windows opened more than two windows before it. */
  lemma StepEntry(clients: map<string, Window>, cfg: Config, c: Call, k: string)
    ensures var w := if k == c.key then Advance(Lookup(clients, k), cfg, c.now) else Lookup(clients, k);
            || Lookup(Step(clients, cfg, c), k) == w
            || (Lookup(Step(clients, cfg, c), k) == None && w.Some? && w.value.start < c.now - 2 * cfg.window)
  {
  }

  lemma AgreesOnStep(cfg: Config, clients: map<string, Window>, calls: seq<Call>, c: Call, k: string)
    requires cfg.window >= 0 && WithinOneWindow(cfg, calls + [c])
    requires AgreesOn(cfg, Lookup(clients, k), calls, k)
    ensures AgreesOn(cfg, Lookup(Step(clients, cfg, c), k), calls + [c], k)
  {
    KeyWindowStep(cfg, calls, c, k);
    StepEntry(clients, cfg, c, k);
    assert (calls + [c])[|calls|] == c;
    var mine, full := Lookup(clients, k), KeyWindow(cfg, Times(calls, k));
    if mine != full {
      var i :| 0 <= i < |calls| && full.value.start < calls[i].now - 2 * cfg.window;
      assert (calls + [c])[i] == calls[i];
      if k == c.key {
        SameDecision(cfg, clients, calls, c);
      }
    }
  }

  lemma {:induction false} ClientsAgree(cfg: Config, calls: seq<Call>, k: string)
    requires cfg.window >= 0 && WithinOneWindow(cfg, calls)
    ensures AgreesOn(cfg, Lookup(Clients(cfg, calls), k), calls, k)
  {
    if calls != [] {
      var before := calls[..|calls| - 1];
      ClientsAgree(cfg, before, k);
      assert before + [calls[|calls| - 1]] == calls;
      AgreesOnStep(cfg, Clients(cfg, before), before, calls[|calls| - 1], k);
    }
  }

  /** The answer of a limiter that never evicts and sees only this key's calls. */
  predicate OwnAnswer(cfg: Config, calls: seq<Call>, i: nat)
    requires i < |calls|
  {
    Admits(KeyWindow(cfg, Times(calls[..i], calls[i].key)), cfg, calls[i].now)
  }

  /** The table's entry for the key, if there is one, is the own-calls window. */
  predicate EntryIsOwn(cfg: Config, calls: seq<Call>, key: string) {
    Lookup(Clients(cfg, calls), key).None? || Lookup(Clients(cfg, calls), key) == KeyWindow(cfg, Times(calls, key))
  }

  /** Call i is answered, and recorded, as if nothing had ever been evicted. */
  predicate AsOwn(cfg: Config, calls: seq<Call>, i: nat)
    requires i < |calls|
  {
    Answer(cfg, calls, i) == OwnAnswer(cfg, calls, i) && EntryIsOwn(cfg, calls[..i + 1], calls[i].key)
  }

  /** Call i comes while its key's window is still open, and the table has evicted that window. */
  predicate Forgotten(cfg: Config, calls: seq<Call>, i: nat)
    requires i < |calls|
  {
    Lookup(Clients(cfg, calls[..i]), calls[i].key).None?
    && !OpensWindow(KeyWindow(cfg, Times(calls[..i], calls[i].key)), cfg, calls[i].now)
  }

  /** A forgotten window shows: in the answer, or in the count the key starts again with. */
  lemma ForgottenShows(cfg: Config, calls: seq<Call>, i: nat)
    requires cfg.window >= 0 && i < |calls| && Forgotten(cfg, calls, i)
    ensures !AsOwn(cfg, calls, i)
  {
    var before, c := calls[..i], calls[i];
    assert calls[..i + 1] == before + [c] && calls[..i + 1][..i] == before;
    KeyWindowStep(cfg, before, c, c.key);
    CountWithinLimit(cfg, Times(before, c.key));
    assert Lookup(Clients(cfg, calls[..i + 1]), c.key) == Some(Window(c.now, 1));
  }

  lemma NotForgottenStep(cfg: Config, calls: seq<Call>, i: nat, k: string)
    requires cfg.window >= 0 && i < |calls| && !Forgotten(cfg, calls, i)
    requires EntryIsOwn(cfg, calls[..i], k) && EntryIsOwn(cfg, calls[..i], calls[i].key)
    ensures EntryIsOwn(cfg, calls[..i + 1], k) && Answer(cfg, calls, i) == OwnAnswer(cfg, calls, i)
  {
    var before, c := calls[..i], calls[i];
    assert calls[..i + 1] == before + [c] && calls[..i + 1][..i] == before;
    KeyWindowStep(cfg, before, c, k);
    StepEntry(Clients(cfg, before), cfg, c, k);
  }

  lemma {:induction false} NothingForgottenTable(cfg: Config, calls: seq<Call>, n: nat, k: string)
    requires cfg.window >= 0 && n <= |calls|
    requires forall i :: 0 <= i < n ==> !Forgotten(cfg, calls, i)
    ensures EntryIsOwn(cfg, calls[..n], k)
  {
    if n > 0 {
      NothingForgottenTable(cfg, calls, n - 1, k);
      NothingForgottenTable(cfg, calls, n - 1, calls[n - 1].key);
      NotForgottenStep(cfg, calls, n - 1, k);
    }
  }

  /** The limiter answers and records the first n calls as one that never evicts if and only if none of them finds its
      still open window evicted. */
  lemma AnswersAreOwnExactly(cfg: Config, calls: seq<Call>, n: nat)
    requires cfg.window >= 0 && n <= |calls|
    ensures (forall i :: 0 <= i < n ==> AsOwn(cfg, calls, i))
            <==> (forall i :: 0 <= i < n ==> !Forgotten(cfg, calls, i))
  {
    forall i | 0 <= i < n && Forgotten(cfg, calls, i) ensures !AsOwn(cfg, calls, i) {
      ForgottenShows(cfg, calls, i);
    }
    if forall i :: 0 <= i < n ==> !Forgotten(cfg, calls, i) {
      forall i | 0 <= i < n ensures AsOwn(cfg, calls, i) {
        NothingForgottenTable(cfg, calls, i, calls[i].key);
        NotForgottenStep(cfg, calls, i, calls[i].key);
      }
    }
  }

  lemma NothingForgotten(cfg: Config, calls: seq<Call>, i: nat)
    requires cfg.window >= 0 && WithinOneWindow(cfg, calls) && i < |calls|
    ensures !Forgotten(cfg, calls, i)
  {
    ClientsAgree(cfg, calls[..i], calls[i].key);
    assert calls[..i] + [calls[i]] == calls[..i + 1];
    SameDecision(cfg, Clients(cfg, calls[..i]), calls[..i], calls[i]);
  }

  /** When no call's time falls more than one window behind an earlier one, every answer is the one a limiter that
      never evicts gives from that key's own calls alone, and so is every entry of the table. */
  lemma AnswersDependOnOwnCalls(cfg: Config, calls: seq<Call>, i: nat)
    requires cfg.window >= 0 && WithinOneWindow(cfg, calls) && i < |calls|
    ensures Answer(cfg, calls, i) == OwnAnswer(cfg, calls, i)
    ensures EntryIsOwn(cfg, calls, calls[i].key)
  {
    forall j | 0 <= j < |calls| ensures !Forgotten(cfg, calls, j) {
      NothingForgotten(cfg, calls, j);
    }
    AnswersAreOwnExactly(cfg, calls, |calls|);
    assert AsOwn(cfg, calls, i);
    NothingForgottenTable(cfg, calls, |calls|, calls[i].key);
    assert calls[..|calls|] == calls;
  }

  // ---------- how much one key can get ----------

  ghost predicate NonDecreasing(times: seq<int>) {
    forall i, j :: 0 <= i <= j < |times| ==> times[i] <= times[j]
  }

  /** How many of the calls at these times were admitted at a time in [from, until). */
  function AdmittedIn(cfg: Config, times: seq<int>, from: int, until: int): nat {
    if times == [] then 0
    else
      var before, now := times[..|times| - 1], times[|times| - 1];
      AdmittedIn(cfg, before, from, until)
      + if Admits(KeyWindow(cfg, before), cfg, now) && from <= now < until then 1 else 0
  }

  /** A window admits up to `limit` calls, and always the one that opens it. */
  function PerWindow(cfg: Config): int {
    if cfg.limit > 1 then cfg.limit else 1
  }

  lemma {:induction false} CountWithinLimit(cfg: Config, times: seq<int>)
    ensures KeyWindow(cfg, times).Some? <==> times != []
    ensures times != [] ==> 1 <= KeyWindow(cfg, times).value.count <= PerWindow(cfg)
    ensures times != [] && NonDecreasing(times) && cfg.window > 0 ==>
              KeyWindow(cfg, times).value.start <= times[|times| - 1]
  {
    if times != [] {
      CountWithinLimit(cfg, times[..|times| - 1]);
    }
  }

  lemma {:induction false} NoneAdmittedBefore(cfg: Config, times: seq<int>, from: int, until: int)
    requires NonDecreasing(times) && (times != [] ==> times[|times| - 1] < from)
    ensures AdmittedIn(cfg, times, from, until) == 0
  {
    if times != [] {
      NoneAdmittedBefore(cfg, times[..|times| - 1], from, until);
    }
  }

  /** `m` windows opened from `from` on, before the current one; each admitted at most PerWindow, and so did the one
      that was open at `from`. */
  ghost predicate Budget(cfg: Config, times: seq<int>, from: int, until: int, m: nat)
    requires times != []
  {
    CountWithinLimit(cfg, times);
    var w, admitted := KeyWindow(cfg, times).value, AdmittedIn(cfg, times, from, until);
    if w.start < from then admitted <= w.count
    else w.start >= from + m * cfg.window && admitted <= (m + 1) * PerWindow(cfg) + w.count
  }

  lemma {:induction false} WithinBudget(cfg: Config, times: seq<int>, from: int, until: int) returns (m: nat)
    requires cfg.window > 0 && NonDecreasing(times) && times != [] && times[|times| - 1] < until
    ensures Budget(cfg, times, from, until, m)
  {
    m := 0;
    var before, now := times[..|times| - 1], times[|times| - 1];
    if before == [] {
      assert AdmittedIn(cfg, before, from, until) == 0;
    } else {
      var m0 := WithinBudget(cfg, before, from, until);
      CountWithinLimit(cfg, before);
      var w := KeyWindow(cfg, before).value;
      if OpensWindow(Some(w), cfg, now) && w.start >= from {
        m := m0 + 1;
        assert (m + 1) * PerWindow(cfg) == (m0 + 1) * PerWindow(cfg) + PerWindow(cfg);
        assert m * cfg.window == m0 * cfg.window + cfg.window;
      } else {
        m := m0;
        if OpensWindow(Some(w), cfg, now) {
          m := 0;
        }
        if now < from {
          NoneAdmittedBefore(cfg, times, from, until);
        }
      }
    }
  }

  /** With non-decreasing times one key's admitted calls in k windows' time number at most (k + 1) times the limit. */
  lemma {:induction false} KeyAdmissionBound(cfg: Config, times: seq<int>, from: int, k: nat)
    requires cfg.window > 0 && cfg.limit >= 1 && k >= 1 && NonDecreasing(times)
    ensures AdmittedIn(cfg, times, from, from + k * cfg.window) <= (k + 1) * cfg.limit
  {
    var until := from + k * cfg.window;
    if times == [] {
    } else if times[|times| - 1] >= until {
      KeyAdmissionBound(cfg, times[..|times| - 1], from, k);
    } else {
      var m := WithinBudget(cfg, times, from, until);
      CountWithinLimit(cfg, times);
      if KeyWindow(cfg, times).value.start >= from {
        FewerWindows(m, k, cfg.window);
      }
      BudgetAddsUp(AdmittedIn(cfg, times, from, until), KeyWindow(cfg, times).value.count, cfg.limit, m, k);
    }
  }

  lemma BudgetAddsUp(admitted: int, count: int, limit: int, m: nat, k: nat)
    requires limit >= 1 && k >= 1 && count <= limit
    requires admitted <= count || (admitted <= (m + 1) * limit + count && m < k)
    ensures admitted <= (k + 1) * limit
  {
    if m < k {
      assert (k - m - 1) * limit >= 0;
    }
    assert (k + 1) * limit == (m + 1) * limit + (k - m - 1) * limit + limit;
    assert k * limit >= 0;
  }

  lemma FewerWindows(m: nat, k: nat, window: int)
    requires window > 0 && m * window < k * window
    ensures m < k
  {
  }

  /** The count is the number of calls admitted since the window opened. */
  lemma {:induction false} KeyCountIsAdmitted(cfg: Config, times: seq<int>, until: int)
    requires cfg.window > 0 && NonDecreasing(times) && times != [] && times[|times| - 1] < until
    ensures KeyWindow(cfg, times).Some?
    ensures var w := KeyWindow(cfg, times).value;
            w.count == AdmittedIn(cfg, times, w.start, until)
  {
    var before, now := times[..|times| - 1], times[|times| - 1];
    if before != [] {
      KeyCountIsAdmitted(cfg, before, until);
      CountWithinLimit(cfg, before);
      var w := KeyWindow(cfg, before).value;
      if OpensWindow(Some(w), cfg, now) {
        BeforeNewWindow(cfg, before, now, until);
      }
    }
  }

  lemma BeforeNewWindow(cfg: Config, before: seq<int>, now: int, until: int)
    requires cfg.window > 0 && before != [] && NonDecreasing(before) && before[|before| - 1] <= now < until
    requires OpensWindow(KeyWindow(cfg, before), cfg, now)
    ensures AdmittedIn(cfg, before, now, until) == 0
  {
    StaysInWindow(cfg, before);
    NoneAdmittedBefore(cfg, before, now, until);
  }

  /** Each call falls inside the window that is current after it. */
  lemma StaysInWindow(cfg: Config, times: seq<int>)
    requires cfg.window > 0 && times != []
    ensures KeyWindow(cfg, times).Some? && times[|times| - 1] - KeyWindow(cfg, times).value.start < cfg.window
  {
    CountWithinLimit(cfg, times[..|times| - 1]);
  }

  /** A call is refused only when exactly `limit` calls were admitted since some time within the last window. */
  lemma KeyRefusedAtLimit(cfg: Config, times: seq<int>, now: int) returns (since: int)
    requires cfg.window > 0 && cfg.limit >= 1 && NonDecreasing(times + [now])
    requires !Admits(KeyWindow(cfg, times), cfg, now)
    ensures now - cfg.window < since <= now && AdmittedIn(cfg, times, since, now + 1) == cfg.limit
  {
    assert NonDecreasing(times) by {
      assert forall i :: 0 <= i < |times| ==> (times + [now])[i] == times[i];
    }
    CountWithinLimit(cfg, times);
    assert times[|times| - 1] <= now by {
      assert (times + [now])[|times| - 1] <= (times + [now])[|times|];
    }
    KeyCountIsAdmitted(cfg, times, now + 1);
    since := KeyWindow(cfg, times).value.start;
  }

  // ---------- what the limiter itself admits, whoever else calls ----------

  /** How many of one key's calls in a run of all clients' calls were admitted at a time in [from, until). */
  function AdmittedOf(cfg: Config, calls: seq<Call>, key: string, from: int, until: int): nat {
    if calls == [] then 0
    else
      var n := |calls| - 1;
      AdmittedOf(cfg, calls[..n], key, from, until)
      + if calls[n].key == key && Answer(cfg, calls, n) && from <= calls[n].now < until then 1 else 0
  }

  /** While no time falls more than one window behind, the limiter admits what one for this key alone would. */
  lemma {:induction false} AdmittedIsOwn(cfg: Config, calls: seq<Call>, key: string, from: int, until: int)
    requires cfg.window >= 0 && WithinOneWindow(cfg, calls)
    ensures AdmittedOf(cfg, calls, key, from, until) == AdmittedIn(cfg, Times(calls, key), from, until)
  {
    if calls != [] {
      var n := |calls| - 1;
      AdmittedIsOwn(cfg, calls[..n], key, from, until);
      AnswersDependOnOwnCalls(cfg, calls, n);
      var times := Times(calls[..n], key);
      if calls[n].key == key {
        assert (times + [calls[n].now])[..|times|] == times;
      } else {
        assert Times(calls, key) == times;
      }
    }
  }

  ghost predicate InOrder(calls: seq<Call>) {
    forall i, j :: 0 <= i <= j < |calls| ==> calls[i].now <= calls[j].now
  }

  lemma {:induction false} TimesInOrder(calls: seq<Call>, key: string)
    requires InOrder(calls)
    ensures NonDecreasing(Times(calls, key))
    ensures forall i :: 0 <= i < |Times(calls, key)| ==> Times(calls, key)[i] <= calls[|calls| - 1].now
  {
    if calls != [] {
      TimesInOrder(calls[..|calls| - 1], key);
    }
  }

  /** With non-decreasing times at most (k + 1) times the limit of one key's calls are admitted in k windows' time,
      whatever other clients call and whatever is evicted. */
  lemma AdmissionBound(cfg: Config, calls: seq<Call>, key: string, from: int, k: nat)
    requires cfg.window > 0 && cfg.limit >= 1 && k >= 1 && InOrder(calls)
    ensures AdmittedOf(cfg, calls, key, from, from + k * cfg.window) <= (k + 1) * cfg.limit
  {
    AdmittedIsOwn(cfg, calls, key, from, from + k * cfg.window);
    TimesInOrder(calls, key);
    KeyAdmissionBound(cfg, Times(calls, key), from, k);
  }

  /** An entry's count is the number of its key's calls admitted since its window opened. */
  lemma CountIsAdmittedSince(cfg: Config, calls: seq<Call>, key: string, until: int)
    requires cfg.window > 0 && InOrder(calls) && key in Clients(cfg, calls)
    requires calls[|calls| - 1].now < until
    ensures var w := Clients(cfg, calls)[key]; w.count == AdmittedOf(cfg, calls, key, w.start, until)
  {
    ClientsAgree(cfg, calls, key);
    TimesInOrder(calls, key);
    CountWithinLimit(cfg, Times(calls, key));
    KeyCountIsAdmitted(cfg, Times(calls, key), until);
    AdmittedIsOwn(cfg, calls, key, Clients(cfg, calls)[key].start, until);
  }

  /** A call is refused only when exactly `limit` of its key's calls were admitted since some time within the last
      window. */
  lemma RefusedOnlyAtLimit(cfg: Config, calls: seq<Call>, i: nat) returns (since: int)
    requires cfg.window > 0 && cfg.limit >= 1 && InOrder(calls) && i < |calls| && !Answer(cfg, calls, i)
    ensures var now := calls[i].now;
            && now - cfg.window < since <= now
            && AdmittedOf(cfg, calls[..i], calls[i].key, since, now + 1) == cfg.limit
  {
    var before, key, now := calls[..i], calls[i].key, calls[i].now;
    AnswersDependOnOwnCalls(cfg, calls, i);
    TimesInOrder(before, key);
    since := KeyRefusedAtLimit(cfg, Times(before, key), now);
    AdmittedIsOwn(cfg, before, key, since, now + 1);
  }

  // ---------- the hypothesis on times is needed ----------

  const ONE_PER_TEN := Config(1, 10)

  function CrowdKey(n: nat): string { "k" + Decimal(n) }

  /** One call of "a" at time 0, then n calls by n other clients at time 21. */
  function Crowd(n: nat): (calls: seq<Call>)
    ensures |calls| == n + 1
  {
    if n == 0 then [Call("a", 0)] else Crowd(n - 1) + [Call(CrowdKey(n), 21)]
  }

  lemma {:induction false} CrowdFills(n: nat)
    requires n < MAX_CLIENTS
    ensures var clients := Clients(ONE_PER_TEN, Crowd(n));
            && |clients| == n + 1
            && Lookup(clients, "a") == Some(Window(0, 1))
            && forall k :: k in clients && k != "a" ==> exists j :: 1 <= j <= n && k == CrowdKey(j)
  {
    if n > 0 {
      CrowdFills(n - 1);
      NewCrowdKey(Clients(ONE_PER_TEN, Crowd(n - 1)), n);
      assert Crowd(n)[..n] == Crowd(n - 1);
    } else {
      assert Crowd(0)[..0] == [];
    }
  }

  lemma NewCrowdKey(clients: map<string, Window>, n: nat)
    requires n >= 1 && forall k :: k in clients && k != "a" ==> exists j :: 1 <= j <= n - 1 && k == CrowdKey(j)
    ensures CrowdKey(n) !in clients && CrowdKey(n) != "a"
  {
    assert CrowdKey(n)[0] == 'k' && "a"[0] == 'a';
    if CrowdKey(n) in clients {
      var j :| 1 <= j <= n - 1 && CrowdKey(n) == CrowdKey(j);
      NumberedNamesDiffer("k", j, n);
    }
  }

  /** A call more than one window behind: after 100000 other clients the first one is forgotten, and a call of its own
      window, which a limiter that never evicts refuses, is admitted. */
  lemma LateCallAfterCrowd()
    ensures var calls := Crowd(100_000) + [Call("a", 5)];
            && Answer(ONE_PER_TEN, calls, 100_001)
            && !Admits(KeyWindow(ONE_PER_TEN, Times(calls[..100_001], "a")), ONE_PER_TEN, 5)
  {
    var n := MAX_CLIENTS;
    var calls := Crowd(n) + [Call("a", 5)];
    assert calls[..n + 1] == Crowd(n);
    assert Crowd(n)[..n] == Crowd(n - 1);
    CrowdFills(n - 1);
    NewCrowdKey(Clients(ONE_PER_TEN, Crowd(n - 1)), n);
    assert Lookup(Clients(ONE_PER_TEN, Crowd(n)), "a") == None;
    CrowdTimes(n);
  }

  lemma {:induction false} CrowdTimes(n: nat)
    ensures KeyWindow(ONE_PER_TEN, Times(Crowd(n), "a")) == Some(Window(0, 1))
  {
    if n == 0 {
      assert Crowd(0)[..0] == [];
      assert Times(Crowd(0), "a") == [0];
      assert KeyWindow(ONE_PER_TEN, [0][..0]) == None;
    } else {
      CrowdTimes(n - 1);
      assert CrowdKey(n)[0] == 'k' && "a"[0] == 'a';
      KeyWindowStep(ONE_PER_TEN, Crowd(n - 1), Call(CrowdKey(n), 21), "a");
    }
  }
}
