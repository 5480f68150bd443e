/** Every interleaving of adds, removes, event callbacks and timer callbacks on one fan-out stream.
    Each lock region and each call the code makes between regions is one step. */
module FanOut {
  import opened Options
  import opened GroupStreams
  import Text

  /** Where one subscriber's add-then-remove is. The subscriber's channel is named by the call's number. */
  datatype Pc =
    | Registered(key: string)                        // entry made, subscription not yet looked at
    | Subscribing(key: string)                       // saw no subscription; js.Subscribe is running
    | Holding(key: string, created: nat)             // js.Subscribe returned a subscription, not installed yet
    | Surplus(key: string, created: nat)             // somebody else's is installed; ours is to be unsubscribed
    | Failing(key: string)                           // js.Subscribe failed; the entry is still there
    | Failed
    | Joined(key: string)                            // addSubscriber returned without error
    | Leaving(sub: Option<nat>, timer: Option<nat>)  // removed; timer.Stop and Unsubscribe still to come
    | Stopping(sub: Option<nat>)                     // timer stopped; Unsubscribe still to come
    | Gone

  datatype Fate = Pending | Covered(target: nat) | Dropped

  /** One sequence number passed to scheduleSnapshot, and what became of it. */
  datatype Scheduled = Scheduled(seqNo: nat, fate: Fate)

  datatype State = State(
    groupID: string,
    fields: Fields<nat>,
    calls: map<nat, Pc>,
    active: set<nat>,        // NATS subscriptions that exist
    nextSub: nat,
    armed: set<nat>,         // timers that will fire
    entering: multiset<nat>, // fired callbacks that have not taken the lock yet
    nextTimer: nat,
    scheduled: seq<Scheduled>)

  datatype Step =
    | BeginAdd(call: nat) | CheckSubscription(call: nat)
    | SubscribeSucceeds(call: nat) | SubscribeFails(call: nat)
    | InstallCreated(call: nat) | UnsubscribeSurplus(call: nat) | ForgetEntry(call: nat)
    | BeginRemove(call: nat) | StopTimer(call: nat) | UnsubscribeOld(call: nat)
    | Schedule(seqNo: nat) | Fire(timer: nat) | EnterRefresh(timer: nat)

  function Initial(groupID: string): State {
    State(groupID, Empty(), map[], {}, 0, {}, multiset{}, 0, [])
  }

  predicate HasEntry(pc: Pc) {
    pc.Registered? || pc.Subscribing? || pc.Holding? || pc.Surplus? || pc.Failing? || pc.Joined?
  }

  predicate Enabled(st: State, step: Step) {
    match step
    case BeginAdd(c) => c !in st.calls
    case CheckSubscription(c) => c in st.calls && st.calls[c].Registered?
    case SubscribeSucceeds(c) => c in st.calls && st.calls[c].Subscribing?
    case SubscribeFails(c) => c in st.calls && st.calls[c].Subscribing?
    case InstallCreated(c) => c in st.calls && st.calls[c].Holding?
    case UnsubscribeSurplus(c) => c in st.calls && st.calls[c].Surplus?
    case ForgetEntry(c) => c in st.calls && st.calls[c].Failing?
    case BeginRemove(c) => c in st.calls && st.calls[c].Joined?
    case StopTimer(c) => c in st.calls && st.calls[c].Leaving?
    case UnsubscribeOld(c) => c in st.calls && st.calls[c].Stopping?
    case Schedule(_) => true
    case Fire(t) => t in st.armed
    case EnterRefresh(t) => t in st.entering
  }

  function Without(ids: set<nat>, id: Option<nat>): set<nat> {
    if id.Some? then ids - {id.value} else ids
  }

  function Settle(log: seq<Scheduled>, fate: Fate): (r: seq<Scheduled>)
    ensures |r| == |log|
    ensures forall i :: 0 <= i < |log| ==> r[i].seqNo == log[i].seqNo
    ensures forall i :: 0 <= i < |log| ==> r[i].fate == if log[i].fate.Pending? then fate else log[i].fate
  {
    seq(|log|, i requires 0 <= i < |log| => if log[i].fate.Pending? then log[i].(fate := fate) else log[i])
  }

  function Apply(st: State, step: Step): State
    requires Enabled(st, step)
  {
    match step
    case BeginAdd(c) =>
      st.(fields := Register(st.fields, st.groupID, c),
          calls := st.calls[c := Registered(SubscriberKey(st.groupID, st.fields.nextID + 1))])
    case CheckSubscription(c) =>
      var key := st.calls[c].key;
      st.(calls := st.calls[c := if st.fields.sub.Some? then Joined(key) else Subscribing(key)])
    case SubscribeSucceeds(c) =>
      st.(calls := st.calls[c := Holding(st.calls[c].key, st.nextSub)],
          active := st.active + {st.nextSub}, nextSub := st.nextSub + 1)
    case SubscribeFails(c) =>
      st.(calls := st.calls[c := Failing(st.calls[c].key)])
    case InstallCreated(c) =>
      var pc := st.calls[c];
      st.(fields := Install(st.fields, pc.created),
          calls := st.calls[c := if st.fields.sub.Some? then Surplus(pc.key, pc.created) else Joined(pc.key)])
    case UnsubscribeSurplus(c) =>
      st.(active := st.active - {st.calls[c].created}, calls := st.calls[c := Joined(st.calls[c].key)])
    case ForgetEntry(c) =>
      st.(fields := Forget(st.fields, st.calls[c].key), calls := st.calls[c := Failed])
    case BeginRemove(c) =>
      var key := st.calls[c].key;
      if IsLast(st.fields, key) then
        st.(fields := Leave(st.fields, key),
            calls := st.calls[c := Leaving(st.fields.sub, st.fields.refreshTimer)],
            scheduled := Settle(st.scheduled, Dropped))
      else
        st.(fields := Leave(st.fields, key), calls := st.calls[c := Gone])
    case StopTimer(c) =>
      st.(armed := Without(st.armed, st.calls[c].timer), calls := st.calls[c := Stopping(st.calls[c].sub)])
    case UnsubscribeOld(c) =>
      st.(active := Without(st.active, st.calls[c].sub), calls := st.calls[c := Gone])
    case Schedule(seqNo) =>
      var f := Note(st.fields, seqNo, st.nextTimer);
      st.(fields := f,
          armed := st.armed + {f.refreshTimer.value},
          nextTimer := if st.fields.refreshTimer.None? then st.nextTimer + 1 else st.nextTimer,
          scheduled := st.scheduled + [Scheduled(seqNo, Pending)])
    case Fire(t) =>
      st.(armed := st.armed - {t}, entering := st.entering + multiset{t})
    case EnterRefresh(t) =>
      st.(fields := Take(st.fields), entering := st.entering - multiset{t},
          scheduled := Settle(st.scheduled,
            if st.fields.subscribers != map[] then Covered(st.fields.pendingSeq) else Dropped))
  }

  ghost predicate Next(st: State, st': State) {
    exists step :: Enabled(st, step) && st' == Apply(st, step)
  }

  ghost predicate NextAt(states: seq<State>, i: nat)
    requires 0 < i < |states|
  {
    Next(states[i - 1], states[i])
  }

  /** A run: the stream starts empty and every later state is one step further. */
  ghost predicate Run(states: seq<State>) {
    && states != []
    && states[0] == Initial(states[0].groupID)
    && forall i :: 0 < i < |states| ==> NextAt(states, i)
  }

  // ---------- which calls have an entry ----------

  ghost predicate CallHasEntry(st: State, c: nat) {
    c in st.calls && HasEntry(st.calls[c]) ==>
      st.calls[c].key in st.fields.subscribers && st.fields.subscribers[st.calls[c].key] == c
  }

  ghost predicate EntryHasCall(st: State, k: string) {
    k in st.fields.subscribers ==>
      var c := st.fields.subscribers[k];
      c in st.calls && HasEntry(st.calls[c]) && st.calls[c].key == k
  }

  ghost predicate EntryLaw(st: State) {
    && Numbered(st.fields, st.groupID)
    && (forall c :: c in st.calls ==> CallHasEntry(st, c))
    && (forall k :: k in st.fields.subscribers ==> EntryHasCall(st, k))
  }

  lemma NumberedKept(st: State, step: Step)
    requires Numbered(st.fields, st.groupID) && Enabled(st, step)
    ensures Numbered(Apply(st, step).fields, st.groupID)
  {
    var f' := Apply(st, step).fields;
    forall k | k in f'.subscribers ensures exists n :: 1 <= n <= f'.nextID && k == SubscriberKey(st.groupID, n) {
      if k in st.fields.subscribers {
        var n :| 1 <= n <= st.fields.nextID && k == SubscriberKey(st.groupID, n);
      } else {
        assert k == SubscriberKey(st.groupID, f'.nextID);
      }
    }
  }

  /** A call other than the one that moves keeps its entry: no two share a key, and a new key is nobody's. */
  lemma CallHasEntryKept(st: State, step: Step, c: nat)
    requires EntryLaw(st) && Enabled(st, step)
    ensures CallHasEntry(Apply(st, step), c)
  {
    NextKeyIsNew(st.fields, st.groupID);
    assert CallHasEntry(st, c);
    if !step.Schedule? && !step.Fire? && !step.EnterRefresh? {
      assert CallHasEntry(st, step.call);
    }
  }

  lemma EntryHasCallAfterAdd(st: State, c: nat, k: string)
    requires EntryLaw(st) && Enabled(st, BeginAdd(c))
    ensures EntryHasCall(Apply(st, BeginAdd(c)), k)
  {
    assert EntryHasCall(st, k);
  }

  lemma EntryHasCallKept(st: State, step: Step, k: string)
    requires EntryLaw(st) && Enabled(st, step)
    ensures EntryHasCall(Apply(st, step), k)
  {
    assert EntryHasCall(st, k);
    match step
    case BeginAdd(c) => EntryHasCallAfterAdd(st, c, k);
    case ForgetEntry(c) => assert CallHasEntry(st, c);
    case BeginRemove(c) => assert CallHasEntry(st, c);
    case _ =>
  }

  lemma EntryLawKept(st: State, step: Step)
    requires EntryLaw(st) && Enabled(st, step)
    ensures EntryLaw(Apply(st, step))
  {
    NumberedKept(st, step);
    forall c | c in Apply(st, step).calls ensures CallHasEntry(Apply(st, step), c) {
      CallHasEntryKept(st, step, c);
    }
    forall k | k in Apply(st, step).fields.subscribers ensures EntryHasCall(Apply(st, step), k) {
      EntryHasCallKept(st, step, k);
    }
  }

  // ---------- the subscription law ----------

  /** The NATS subscription a call is responsible for. */
  function HeldBy(pc: Pc): Option<nat> {
    match pc
    case Holding(_, n) => Some(n)
    case Surplus(_, n) => Some(n)
    case Leaving(s, _) => s
    case Stopping(s) => s
    case _ => None
  }

  ghost predicate Accounted(st: State, n: nat) {
    st.fields.sub == Some(n) || exists c :: c in st.calls && HeldBy(st.calls[c]) == Some(n)
  }

  /** The active subscriptions are exactly the installed one and the ones some call still holds, each in one place. */
  ghost predicate SubscriptionLaw(st: State) {
    && (forall n :: n in st.active <==> Accounted(st, n))
    && (forall n :: n in st.active ==> n < st.nextSub)
    && (forall c :: c in st.calls && HeldBy(st.calls[c]).Some? ==> HeldBy(st.calls[c]) != st.fields.sub)
    && (forall c, d :: c in st.calls && d in st.calls && c != d && HeldBy(st.calls[c]).Some? ==>
          HeldBy(st.calls[c]) != HeldBy(st.calls[d]))
  }

  /** A subscriber whose add has succeeded, and who has not left, is served. */
  ghost predicate ServedLaw(st: State) {
    forall c :: c in st.calls && (st.calls[c].Joined? || st.calls[c].Surplus?) ==> st.fields.sub.Some?
  }

  lemma ServedLawKept(st: State, step: Step)
    requires EntryLaw(st) && ServedLaw(st) && Enabled(st, step)
    ensures ServedLaw(Apply(st, step))
  {
  }

  predicate ChangesSubscriptions(step: Step) {
    step.SubscribeSucceeds? || step.InstallCreated? || step.UnsubscribeSurplus? || step.BeginRemove?
      || step.UnsubscribeOld?
  }

  /** Other steps change neither what is active, nor what is installed, nor what any call holds. */
  lemma HoldingsStay(st: State, step: Step)
    requires Enabled(st, step) && !ChangesSubscriptions(step)
    ensures var st' := Apply(st, step);
            && st'.active == st.active && st'.fields.sub == st.fields.sub
            && forall c :: c in st'.calls ==>
                 HeldBy(st'.calls[c]) == if c in st.calls then HeldBy(st.calls[c]) else None
    ensures st.calls.Keys <= Apply(st, step).calls.Keys
  {
  }

  lemma AccountedStays(st: State, step: Step, n: nat)
    requires Enabled(st, step) && !ChangesSubscriptions(step)
    ensures Accounted(Apply(st, step), n) <==> Accounted(st, n)
  {
    HoldingsStay(st, step);
    var st' := Apply(st, step);
    if c :| c in st.calls && HeldBy(st.calls[c]) == Some(n) {
      assert c in st'.calls && HeldBy(st'.calls[c]) == Some(n);
    }
  }

  /** Of a subscription no call but c holds, c's next holding decides. */
  lemma AccountedByOne(st: State, st': State, c: nat, n: nat)
    requires c in st.calls && c in st'.calls
    requires st'.calls == st.calls[c := st'.calls[c]]
    ensures Accounted(st', n) <==>
            || st'.fields.sub == Some(n) || HeldBy(st'.calls[c]) == Some(n)
            || exists d :: d in st.calls && d != c && HeldBy(st.calls[d]) == Some(n)
  {
    if d :| d in st'.calls && HeldBy(st'.calls[d]) == Some(n) {
      assert d == c || (d in st.calls && HeldBy(st.calls[d]) == Some(n));
    }
    if d :| d in st.calls && d != c && HeldBy(st.calls[d]) == Some(n) {
      assert d in st'.calls && HeldBy(st'.calls[d]) == Some(n);
    }
  }

  lemma CreatedIsAccounted(st: State, c: nat, n: nat)
    requires SubscriptionLaw(st) && Enabled(st, SubscribeSucceeds(c))
    ensures n in Apply(st, SubscribeSucceeds(c)).active <==> Accounted(Apply(st, SubscribeSucceeds(c)), n)
  {
    AccountedByOne(st, Apply(st, SubscribeSucceeds(c)), c, n);
    AccountedByOne(st, st, c, n);
  }

  lemma InstalledIsAccounted(st: State, c: nat, n: nat)
    requires SubscriptionLaw(st) && Enabled(st, InstallCreated(c))
    ensures n in Apply(st, InstallCreated(c)).active <==> Accounted(Apply(st, InstallCreated(c)), n)
  {
    AccountedByOne(st, Apply(st, InstallCreated(c)), c, n);
    AccountedByOne(st, st, c, n);
  }

  lemma DetachedIsAccounted(st: State, c: nat, n: nat)
    requires SubscriptionLaw(st) && Enabled(st, BeginRemove(c))
    ensures n in Apply(st, BeginRemove(c)).active <==> Accounted(Apply(st, BeginRemove(c)), n)
  {
    AccountedByOne(st, Apply(st, BeginRemove(c)), c, n);
    AccountedByOne(st, st, c, n);
  }

  lemma UnsubscribedIsAccounted(st: State, step: Step, n: nat)
    requires SubscriptionLaw(st) && Enabled(st, step) && (step.UnsubscribeSurplus? || step.UnsubscribeOld?)
    ensures n in Apply(st, step).active <==> Accounted(Apply(st, step), n)
  {
    AccountedByOne(st, Apply(st, step), step.call, n);
    AccountedByOne(st, st, step.call, n);
  }

  lemma AccountedKept(st: State, step: Step, n: nat)
    requires SubscriptionLaw(st) && Enabled(st, step)
    ensures n in Apply(st, step).active <==> Accounted(Apply(st, step), n)
  {
    match step
    case SubscribeSucceeds(c) => CreatedIsAccounted(st, c, n);
    case InstallCreated(c) => InstalledIsAccounted(st, c, n);
    case BeginRemove(c) => DetachedIsAccounted(st, c, n);
    case UnsubscribeSurplus(_) => UnsubscribedIsAccounted(st, step, n);
    case UnsubscribeOld(_) => UnsubscribedIsAccounted(st, step, n);
    case _ =>
      HoldingsStay(st, step);
      AccountedStays(st, step, n);
  }

  ghost predicate HeldApart(st: State, c: nat, d: nat) {
    c in st.calls && HeldBy(st.calls[c]).Some? ==>
      && HeldBy(st.calls[c]) != st.fields.sub
      && (d in st.calls && c != d ==> HeldBy(st.calls[c]) != HeldBy(st.calls[d]))
  }

  lemma HeldApartStays(st: State, step: Step, c: nat, d: nat)
    requires SubscriptionLaw(st) && Enabled(st, step) && !ChangesSubscriptions(step)
    ensures HeldApart(Apply(st, step), c, d)
  {
    HoldingsStay(st, step);
  }

  lemma HeldApartCreated(st: State, step: Step, c: nat, d: nat)
    requires SubscriptionLaw(st) && Enabled(st, step) && (step.SubscribeSucceeds? || step.InstallCreated?)
    ensures HeldApart(Apply(st, step), c, d)
  {
    assert c in st.calls && HeldBy(st.calls[c]).Some? ==> Accounted(st, HeldBy(st.calls[c]).value);
    assert d in st.calls && HeldBy(st.calls[d]).Some? ==> Accounted(st, HeldBy(st.calls[d]).value);
  }

  lemma HeldApartDetached(st: State, e: nat, c: nat, d: nat)
    requires SubscriptionLaw(st) && Enabled(st, BeginRemove(e))
    ensures HeldApart(Apply(st, BeginRemove(e)), c, d)
  {
  }

  lemma HeldApartUnsubscribed(st: State, step: Step, c: nat, d: nat)
    requires SubscriptionLaw(st) && Enabled(st, step) && (step.UnsubscribeSurplus? || step.UnsubscribeOld?)
    ensures HeldApart(Apply(st, step), c, d)
  {
  }

  lemma HeldApartChanges(st: State, step: Step, c: nat, d: nat)
    requires SubscriptionLaw(st) && Enabled(st, step) && ChangesSubscriptions(step)
    ensures HeldApart(Apply(st, step), c, d)
  {
    match step
    case BeginRemove(e) => HeldApartDetached(st, e, c, d);
    case UnsubscribeSurplus(_) => HeldApartUnsubscribed(st, step, c, d);
    case UnsubscribeOld(_) => HeldApartUnsubscribed(st, step, c, d);
    case _ => HeldApartCreated(st, step, c, d);
  }

  lemma ActiveAreNumbered(st: State, step: Step, n: nat)
    requires SubscriptionLaw(st) && Enabled(st, step) && n in Apply(st, step).active
    ensures n < Apply(st, step).nextSub
  {
  }

  lemma LawFromParts(st: State)
    requires forall n :: n in st.active <==> Accounted(st, n)
    requires forall n :: n in st.active ==> n < st.nextSub
    requires forall c, d :: HeldApart(st, c, d)
    ensures SubscriptionLaw(st)
  {
    forall c, d | c in st.calls && d in st.calls && HeldBy(st.calls[c]).Some?
      ensures HeldBy(st.calls[c]) != st.fields.sub && (c != d ==> HeldBy(st.calls[c]) != HeldBy(st.calls[d]))
    {
      assert HeldApart(st, c, d);
    }
  }

  lemma SubscriptionLawKept(st: State, step: Step)
    requires SubscriptionLaw(st) && Enabled(st, step)
    ensures SubscriptionLaw(Apply(st, step))
  {
    forall n ensures n in Apply(st, step).active <==> Accounted(Apply(st, step), n) {
      AccountedKept(st, step, n);
    }
    forall n | n in Apply(st, step).active ensures n < Apply(st, step).nextSub {
      ActiveAreNumbered(st, step, n);
    }
    forall c, d ensures HeldApart(Apply(st, step), c, d) {
      if ChangesSubscriptions(step) {
        HeldApartChanges(st, step, c, d);
      } else {
        HeldApartStays(st, step, c, d);
      }
    }
    LawFromParts(Apply(st, step));
  }

  // ---------- debounce ----------

  /** Detached timers are never the current one. */
  ghost predicate TimerLaw(st: State) {
    && (st.fields.refreshTimer.Some? ==> st.fields.refreshTimer.value < st.nextTimer)
    && (forall c :: c in st.calls && st.calls[c].Leaving? && st.calls[c].timer.Some? ==>
          st.calls[c].timer.value < st.nextTimer && st.calls[c].timer != st.fields.refreshTimer)
  }

  ghost predicate TimerLives(st: State) {
    st.fields.refreshTimer.Some? ==>
      st.fields.refreshTimer.value in st.armed || st.fields.refreshTimer.value in st.entering
  }

  ghost predicate PendingWaits(st: State) {
    forall i :: 0 <= i < |st.scheduled| && st.scheduled[i].fate.Pending? ==>
      st.scheduled[i].seqNo <= st.fields.pendingSeq && st.fields.refreshTimer.Some?
  }

  ghost predicate MaximumIsPending(st: State) {
    st.fields.pendingSeq > 0 ==>
      exists i :: 0 <= i < |st.scheduled| && st.scheduled[i] == Scheduled(st.fields.pendingSeq, Pending)
  }

  ghost predicate CoveredByTarget(st: State) {
    forall i :: 0 <= i < |st.scheduled| && st.scheduled[i].fate.Covered? ==>
      st.scheduled[i].seqNo <= st.scheduled[i].fate.target
  }

  /** No scheduled sequence is lost: it waits behind a live timer, or a refresh covered it, or nobody was listening. */
  ghost predicate DebounceLaw(st: State) {
    TimerLives(st) && PendingWaits(st) && MaximumIsPending(st) && CoveredByTarget(st)
  }

  lemma TimerLawKept(st: State, step: Step)
    requires TimerLaw(st) && Enabled(st, step)
    ensures TimerLaw(Apply(st, step))
  {
  }

  lemma TimerLivesOn(st: State, step: Step)
    requires TimerLaw(st) && TimerLives(st) && Enabled(st, step)
    ensures TimerLives(Apply(st, step))
  {
  }

  lemma PendingWaitsOn(st: State, step: Step)
    requires PendingWaits(st) && Enabled(st, step)
    ensures PendingWaits(Apply(st, step))
  {
  }

  lemma CoveredStaysCovered(st: State, step: Step)
    requires PendingWaits(st) && CoveredByTarget(st) && Enabled(st, step)
    ensures CoveredByTarget(Apply(st, step))
  {
  }

  lemma MaximumStaysPending(st: State, step: Step)
    requires MaximumIsPending(st) && Enabled(st, step)
    ensures MaximumIsPending(Apply(st, step))
  {
    var st' := Apply(st, step);
    if st'.fields.pendingSeq > 0 {
      if step.Schedule? && step.seqNo == st'.fields.pendingSeq {
        assert st'.scheduled[|st.scheduled|] == Scheduled(step.seqNo, Pending);
      } else {
        var i :| 0 <= i < |st.scheduled| && st.scheduled[i] == Scheduled(st.fields.pendingSeq, Pending);
        assert st'.scheduled[i] == Scheduled(st'.fields.pendingSeq, Pending);
      }
    }
  }

  lemma DebounceLawKept(st: State, step: Step)
    requires TimerLaw(st) && DebounceLaw(st) && Enabled(st, step)
    ensures DebounceLaw(Apply(st, step))
  {
    TimerLivesOn(st, step);
    PendingWaitsOn(st, step);
    MaximumStaysPending(st, step);
    CoveredStaysCovered(st, step);
  }

  // ---------- runs ----------

  ghost predicate Law(st: State) {
    EntryLaw(st) && SubscriptionLaw(st) && ServedLaw(st) && TimerLaw(st) && DebounceLaw(st)
  }

  lemma LawKept(st: State, step: Step)
    requires Law(st) && Enabled(st, step)
    ensures Law(Apply(st, step))
  {
    EntryLawKept(st, step);
    SubscriptionLawKept(st, step);
    ServedLawKept(st, step);
    TimerLawKept(st, step);
    DebounceLawKept(st, step);
  }

  lemma {:induction false} RunKeepsLaw(states: seq<State>, i: nat)
    requires Run(states) && i < |states|
    ensures Law(states[i])
  {
    if i > 0 {
      RunKeepsLaw(states, i - 1);
      assert NextAt(states, i);
      var step :| Enabled(states[i - 1], step) && states[i] == Apply(states[i - 1], step);
      LawKept(states[i - 1], step);
    }
  }

  /** In every interleaving the active NATS subscriptions are the installed one, those created but not installed, and
      those detached but not yet unsubscribed, each held in one place; and every live subscriber is served. */
  lemma SubscriptionsAccountedFor(states: seq<State>, i: nat)
    requires Run(states) && i < |states|
    ensures var st := states[i];
            && (forall n :: n in st.active <==>
                  || st.fields.sub == Some(n)
                  || exists c :: c in st.calls && HeldBy(st.calls[c]) == Some(n))
            && (forall c, d :: c in st.calls && d in st.calls && HeldBy(st.calls[c]).Some? ==>
                  HeldBy(st.calls[c]) != st.fields.sub && (c != d ==> HeldBy(st.calls[c]) != HeldBy(st.calls[d])))
            && (forall c :: c in st.calls && st.calls[c].Joined? ==>
                  st.calls[c].key in st.fields.subscribers && st.fields.sub.Some? && st.fields.sub.value in st.active)
  {
    RunKeepsLaw(states, i);
    var st := states[i];
    forall n ensures n in st.active <==>
              (st.fields.sub == Some(n) || exists c :: c in st.calls && HeldBy(st.calls[c]) == Some(n)) {
      assert n in st.active <==> Accounted(st, n);
    }
  }

  /** No call is between two of its steps. */
  ghost predicate Quiescent(st: State) {
    forall c :: c in st.calls ==> st.calls[c].Joined? || st.calls[c].Gone? || st.calls[c].Failed?
  }

  /** No js.Subscribe has just failed. */
  ghost predicate FailureFree(st: State) {
    forall c :: c in st.calls ==> !st.calls[c].Failing?
  }

  /** A subscription is installed although nobody is subscribed. */
  predicate Orphaned(st: State) {
    st.fields.sub.Some? && st.fields.subscribers == map[]
  }

  /** The one transition that leaves an orphan: a failed add deletes the last entry while a subscription is installed.
      */
  ghost predicate Orphans(st: State, st': State) {
    exists c :: c in st.calls && st.calls[c].Failing? && st' == Apply(st, ForgetEntry(c))
      && st.fields.sub.Some? && st.fields.subscribers.Keys == {st.calls[c].key}
  }

  ghost predicate OrphansAt(states: seq<State>, i: nat)
    requires 0 < i < |states|
  {
    Orphans(states[i - 1], states[i])
  }

  lemma OnlyForgetOrphans(st: State, step: Step)
    requires EntryLaw(st) && Enabled(st, step) && !Orphaned(st) && !step.ForgetEntry?
    ensures !Orphaned(Apply(st, step))
  {
    var st' := Apply(st, step);
    if step.BeginRemove? {
      if !IsLast(st.fields, st.calls[step.call].key) {
        var k :| k in st.fields.subscribers && k != st.calls[step.call].key;
        assert k in st'.fields.subscribers;
      }
    } else if step.InstallCreated? {
      assert st.calls[step.call].key in st'.fields.subscribers;
    } else {
      assert forall k :: k in st.fields.subscribers ==> k in st'.fields.subscribers;
    }
  }

  lemma ForgetOrphansExactly(st: State, c: nat)
    requires EntryLaw(st) && Enabled(st, ForgetEntry(c)) && !Orphaned(st)
    ensures Orphaned(Apply(st, ForgetEntry(c))) <==>
            st.fields.sub.Some? && st.fields.subscribers.Keys == {st.calls[c].key}
  {
    var key := st.calls[c].key;
    var rest := st.fields.subscribers - {key};
    if st.fields.subscribers.Keys == {key} {
      assert rest.Keys == {};
    } else {
      var k :| k in st.fields.subscribers && k != key;
      assert k in rest;
    }
  }

  lemma OrphanStep(st: State, st': State)
    requires EntryLaw(st) && Next(st, st') && !Orphaned(st)
    ensures Orphaned(st') <==> Orphans(st, st')
  {
    if Orphaned(st') {
      var step :| Enabled(st, step) && st' == Apply(st, step);
      if !step.ForgetEntry? {
        OnlyForgetOrphans(st, step);
        assert false;
      }
      ForgetOrphansExactly(st, step.call);
      assert st' == Apply(st, ForgetEntry(step.call));
    }
    if Orphans(st, st') {
      var c :| c in st.calls && st.calls[c].Failing? && st' == Apply(st, ForgetEntry(c))
        && st.fields.sub.Some? && st.fields.subscribers.Keys == {st.calls[c].key};
      ForgetOrphansExactly(st, c);
    }
  }

  lemma OrphanAt(states: seq<State>, n: nat)
    requires Run(states) && 0 < n < |states| && !Orphaned(states[n - 1])
    ensures Orphaned(states[n]) <==> OrphansAt(states, n)
  {
    RunKeepsLaw(states, n - 1);
    assert NextAt(states, n);
    OrphanStep(states[n - 1], states[n]);
  }

  /** A run never shows an orphaned subscription up to state n exactly when, up to there, no failed add deletes the
      last entry under an installed one. */
  lemma {:induction false} OrphanedExactlyByFailedAdd(states: seq<State>, n: nat)
    requires Run(states) && n < |states|
    ensures (forall i :: 0 <= i <= n ==> !Orphaned(states[i])) <==>
            (forall i :: 0 < i <= n ==> !OrphansAt(states, i))
  {
    if n > 0 {
      OrphanedExactlyByFailedAdd(states, n - 1);
      if !Orphaned(states[n - 1]) {
        OrphanAt(states, n);
      }
    }
  }

  lemma SettledSubscriptions(st: State)
    requires EntryLaw(st) && SubscriptionLaw(st) && ServedLaw(st) && Quiescent(st)
    ensures st.active == (if st.fields.sub.Some? then {st.fields.sub.value} else {})
    ensures st.fields.subscribers != map[] ==> st.fields.sub.Some?
    ensures !Orphaned(st) ==> (st.fields.sub.Some? <==> st.fields.subscribers != map[])
  {
    forall n ensures n in st.active <==> st.fields.sub == Some(n) {
      assert n in st.active <==> Accounted(st, n);
    }
    if st.fields.subscribers != map[] {
      var k :| k in st.fields.subscribers;
      assert EntryHasCall(st, k);
      assert st.calls[st.fields.subscribers[k]].Joined?;
    }
  }

  /** Once every call has settled there is at most one subscription, and while no orphan arose it exists exactly
      when somebody is subscribed. */
  lemma QuiescentSubscriptions(states: seq<State>)
    requires Run(states) && Quiescent(states[|states| - 1])
    ensures var st := states[|states| - 1];
            && st.active == (if st.fields.sub.Some? then {st.fields.sub.value} else {})
            && |st.active| <= 1
            && (st.fields.subscribers != map[] ==> |st.active| == 1)
            && ((|st.active| == 1 <==> st.fields.subscribers != map[]) <==> !Orphaned(st))
            && ((forall i :: 0 < i < |states| ==> !OrphansAt(states, i)) ==>
                  (|st.active| == 1 <==> st.fields.subscribers != map[]))
            && ((forall i :: 0 <= i < |states| ==> FailureFree(states[i])) ==>
                  (|st.active| == 1 <==> st.fields.subscribers != map[]))
  {
    RunKeepsLaw(states, |states| - 1);
    SettledSubscriptions(states[|states| - 1]);
    OrphanedExactlyByFailedAdd(states, |states| - 1);
    if forall i :: 0 <= i < |states| ==> FailureFree(states[i]) {
      forall i | 0 < i < |states| ensures !OrphansAt(states, i) {
        assert FailureFree(states[i - 1]);
      }
    }
  }

  lemma RunExtends(states: seq<State>, step: Step)
    requires Run(states) && Enabled(states[|states| - 1], step)
    ensures Run(states + [Apply(states[|states| - 1], step)])
  {
    var longer := states + [Apply(states[|states| - 1], step)];
    forall i | 0 < i < |longer| ensures NextAt(longer, i) {
      if i < |states| {
        assert NextAt(states, i);
      }
    }
  }

  lemma Extend(states: seq<State>, step: Step) returns (longer: seq<State>)
    requires Run(states) && Enabled(states[|states| - 1], step)
    ensures Run(longer) && longer[|longer| - 1] == Apply(states[|states| - 1], step)
  {
    RunExtends(states, step);
    longer := states + [Apply(states[|states| - 1], step)];
  }

  lemma OverlappingAdds(k1: string, k2: string) returns (states: seq<State>)
    requires k1 == SubscriberKey("g", 1) && k2 == SubscriberKey("g", 2)
    ensures Run(states)
    ensures states[|states| - 1] ==
            State("g", Fields(None, map[k1 := 0, k2 := 1], 2, 0, None), map[0 := Subscribing(k1), 1 := Subscribing(k2)],
                  {}, 0, {}, multiset{}, 0, [])
  {
    states := [Initial("g")];
    states := Extend(states, BeginAdd(0));
    states := Extend(states, BeginAdd(1));
    states := Extend(states, CheckSubscription(0));
    states := Extend(states, CheckSubscription(1));
  }

  lemma FirstFailsSecondJoins(k1: string, k2: string) returns (states: seq<State>)
    requires k1 == SubscriberKey("g", 1) && k2 == SubscriberKey("g", 2)
    ensures Run(states)
    ensures states[|states| - 1] ==
            State("g", Fields(Some(0), map[k1 := 0, k2 := 1], 2, 0, None), map[0 := Failing(k1), 1 := Joined(k2)],
                  {0}, 1, {}, multiset{}, 0, [])
  {
    states := OverlappingAdds(k1, k2);
    states := Extend(states, SubscribeFails(0));
    states := Extend(states, SubscribeSucceeds(1));
    states := Extend(states, InstallCreated(1));
  }

  lemma KeysDiffer()
    ensures SubscriberKey("g", 1) != SubscriberKey("g", 2)
  {
    assert SubscriberKey("g", 1)[2..] == Text.Decimal(1) && SubscriberKey("g", 2)[2..] == Text.Decimal(2);
    Text.ParseDecimal(1);
    Text.ParseDecimal(2);
  }

  /** Two adds overlap, the first fails to subscribe and cleans up after the second has come and gone:
      everything has settled, nobody is subscribed, and one NATS subscription stays active. */
  lemma FailedAddCanLeak() returns (states: seq<State>)
    ensures Run(states)
    ensures var st := states[|states| - 1];
            Quiescent(st) && st.fields.subscribers == map[] && st.active == {0} && Orphaned(st)
  {
    KeysDiffer();
    var k1, k2 := SubscriberKey("g", 1), SubscriberKey("g", 2);
    states := FirstFailsSecondJoins(k1, k2);
    assert k1 in states[|states| - 1].fields.subscribers;
    states := Extend(states, BeginRemove(1));
    states := Extend(states, ForgetEntry(0));
    assert states[|states| - 1].fields.subscribers.Keys == {};
  }

  // ---------- no call is stuck ----------

  /** How many of its own steps a call is away from having settled, at most. */
  function StepsLeft(pc: Pc): nat {
    match pc
    case Registered(_) => 5
    case Subscribing(_) => 4
    case Holding(_, _) => 3
    case Surplus(_, _) => 2
    case Failing(_) => 2
    case Leaving(_, _) => 2
    case Stopping(_) => 1
    case Joined(_) => 0
    case Failed => 0
    case Gone => 0
  }

  /** A call that has not settled can take its own next step, which brings it closer, and leaves every other call where
      it is: so it settles after at most five steps of its own. */
  lemma CallCanStep(st: State, c: nat) returns (step: Step)
    requires c in st.calls && StepsLeft(st.calls[c]) > 0
    ensures Enabled(st, step)
    ensures c in Apply(st, step).calls && StepsLeft(Apply(st, step).calls[c]) < StepsLeft(st.calls[c])
    ensures forall d :: d in st.calls && d != c ==>
            d in Apply(st, step).calls && Apply(st, step).calls[d] == st.calls[d]
  {
    match st.calls[c]
    case Registered(_) => step := CheckSubscription(c);
    case Subscribing(_) => step := SubscribeFails(c);
    case Holding(_, _) => step := InstallCreated(c);
    case Surplus(_, _) => step := UnsubscribeSurplus(c);
    case Failing(_) => step := ForgetEntry(c);
    case Leaving(_, _) => step := StopTimer(c);
    case Stopping(_) => step := UnsubscribeOld(c);
  }

  /** Where each step of an add takes its call: one that finds a subscription installed has joined at once and makes
      none; else js.Subscribe makes exactly one, which is installed unless another came first, and then given up. */
  lemma AddMoves(st: State, c: nat)
    requires c in st.calls
    ensures st.calls[c].Registered? ==>
              var st' := Apply(st, CheckSubscription(c));
              && st'.calls[c] == (if st.fields.sub.Some? then Joined(st.calls[c].key) else Subscribing(st.calls[c].key))
              && st'.active == st.active && st'.fields == st.fields
    ensures st.calls[c].Subscribing? ==>
              var made, failed := Apply(st, SubscribeSucceeds(c)), Apply(st, SubscribeFails(c));
              && made.calls[c] == Holding(st.calls[c].key, st.nextSub) && made.active == st.active + {st.nextSub}
              && failed.calls[c] == Failing(st.calls[c].key) && failed.active == st.active
              && made.fields == st.fields == failed.fields
    ensures st.calls[c].Holding? ==>
              var st' := Apply(st, InstallCreated(c));
              && (st.fields.sub.None? ==> st'.fields.sub == Some(st.calls[c].created) && st'.calls[c].Joined?)
              && (st.fields.sub.Some? ==> st'.fields.sub == st.fields.sub && st'.calls[c].Surplus?)
              && st'.active == st.active && st'.fields.subscribers == st.fields.subscribers
    ensures st.calls[c].Surplus? ==>
              var st' := Apply(st, UnsubscribeSurplus(c));
              st'.active == st.active - {st.calls[c].created} && st'.calls[c].Joined? && st'.fields == st.fields
    ensures st.calls[c].Failing? ==>
              var st' := Apply(st, ForgetEntry(c));
              && st'.fields.subscribers == st.fields.subscribers - {st.calls[c].key} && st'.calls[c] == Failed
              && st'.fields.sub == st.fields.sub && st'.active == st.active
  {
  }

  /** Where each step of a removal takes its call: the last one out takes the subscription and the timer along, stops
      the timer and then unsubscribes; any other only takes its own entry. */
  lemma RemoveMoves(st: State, c: nat)
    requires EntryLaw(st) && c in st.calls
    ensures st.calls[c].Joined? ==>
              var st', key := Apply(st, BeginRemove(c)), st.calls[c].key;
              && st'.fields.subscribers == st.fields.subscribers - {key} && st'.active == st.active
              && st'.armed == st.armed
              && if st.fields.subscribers.Keys == {key}
                 then st'.calls[c] == Leaving(st.fields.sub, st.fields.refreshTimer)
                      && st'.fields.sub == None && st'.fields.refreshTimer == None && st'.fields.pendingSeq == 0
                 else st'.calls[c] == Gone && st'.fields == st.fields.(subscribers := st'.fields.subscribers)
    ensures st.calls[c].Leaving? ==>
              var st', timer := Apply(st, StopTimer(c)), st.calls[c].timer;
              && st'.armed == (if timer.Some? then st.armed - {timer.value} else st.armed)
              && st'.calls[c] == Stopping(st.calls[c].sub) && st'.active == st.active && st'.fields == st.fields
    ensures st.calls[c].Stopping? ==>
              var st', sub := Apply(st, UnsubscribeOld(c)), st.calls[c].sub;
              && st'.active == (if sub.Some? then st.active - {sub.value} else st.active)
              && st'.calls[c] == Gone && st'.fields == st.fields
  {
    if st.calls[c].Joined? {
      assert CallHasEntry(st, c);
    }
  }

  /** A new subscriber can always come, a joined one can always leave, a running js.Subscribe can succeed or fail,
      events can always come, an armed timer can fire and a fired one's callback can enter. */
  lemma OthersCanStep(st: State, c: nat, seqNo: nat, t: nat)
    ensures Enabled(st, BeginAdd(c)) <==> c !in st.calls
    ensures Enabled(st, BeginRemove(c)) <==> c in st.calls && st.calls[c].Joined?
    ensures Enabled(st, SubscribeSucceeds(c)) <==> c in st.calls && st.calls[c].Subscribing?
    ensures Enabled(st, SubscribeFails(c)) <==> c in st.calls && st.calls[c].Subscribing?
    ensures Enabled(st, Schedule(seqNo))
    ensures Enabled(st, Fire(t)) <==> t in st.armed
    ensures Enabled(st, EnterRefresh(t)) <==> t in st.entering
  {
  }

  // ---------- stopped timers ----------

  /** The timer was made, and nothing will set it again. */
  predicate Detached(st: State, t: nat) {
    t < st.nextTimer && st.fields.refreshTimer != Some(t)
  }

  lemma DetachedStays(st: State, step: Step, t: nat)
    requires TimerLaw(st) && Enabled(st, step) && Detached(st, t) && t !in st.armed
    ensures Detached(Apply(st, step), t) && t !in Apply(st, step).armed
  {
  }

  /** The call has detached this timer and not yet stopped it. */
  predicate AboutToStop(st: State, c: nat, t: nat) {
    c in st.calls && st.calls[c].Leaving? && st.calls[c].timer == Some(t)
  }

  lemma StopStep(st: State, step: Step, c: nat, t: nat)
    requires TimerLaw(st) && Enabled(st, step) && AboutToStop(st, c, t)
    ensures AboutToStop(Apply(st, step), c, t) || (Detached(Apply(st, step), t) && t !in Apply(st, step).armed)
  {
  }

  /** A timer the last subscriber took along is stopped by its next step, and is never armed again: what is still to
      come of it are callbacks that had fired before. */
  lemma {:induction false} StoppedIsNeverArmed(states: seq<State>, i: nat, j: nat, c: nat, t: nat)
    requires Run(states) && i <= j < |states| && AboutToStop(states[i], c, t)
    ensures AboutToStop(states[j], c, t) || (Detached(states[j], t) && t !in states[j].armed)
  {
    if i < j {
      StoppedIsNeverArmed(states, i, j - 1, c, t);
      RunKeepsLaw(states, j - 1);
      assert NextAt(states, j);
      StoppedNext(states[j - 1], states[j], c, t);
    }
  }

  lemma StoppedNext(st: State, st': State, c: nat, t: nat)
    requires TimerLaw(st) && Next(st, st')
    requires AboutToStop(st, c, t) || (Detached(st, t) && t !in st.armed)
    ensures AboutToStop(st', c, t) || (Detached(st', t) && t !in st'.armed)
  {
    var step :| Enabled(st, step) && st' == Apply(st, step);
    if AboutToStop(st, c, t) {
      StopStep(st, step, c, t);
    } else {
      DetachedStays(st, step, t);
    }
  }

  /** Scheduling arms the current timer, and a timer that fires leaves exactly one callback more to enter. */
  lemma TimerSteps(st: State, seqNo: nat, t: nat)
    requires TimerLaw(st)
    ensures var st' := Apply(st, Schedule(seqNo));
            st'.fields.refreshTimer.Some? && st'.armed == st.armed + {st'.fields.refreshTimer.value}
            && st'.scheduled == st.scheduled + [Scheduled(seqNo, Pending)]
            && st'.fields.pendingSeq == (if seqNo > st.fields.pendingSeq then seqNo else st.fields.pendingSeq)
            && (st.fields.refreshTimer.Some? ==> st'.fields.refreshTimer == st.fields.refreshTimer)
    ensures t in st.armed ==>
              var st' := Apply(st, Fire(t));
              st'.armed == st.armed - {t} && st'.entering[t] == st.entering[t] + 1 && st'.fields == st.fields
    ensures t in st.entering ==>
              var st' := Apply(st, EnterRefresh(t));
              st'.armed == st.armed && st'.entering[t] == st.entering[t] - 1
              && st'.fields.refreshTimer == None && st'.fields.pendingSeq == 0
              && st'.fields.subscribers == st.fields.subscribers && st'.fields.sub == st.fields.sub
  {
  }

  /** In every interleaving, Reset of an already fired timer included: each scheduled sequence waits below pendingSeq
      behind a timer that is armed or whose callback is about to enter, or was covered by a refresh of at least that
      target, or was dropped. So once no timer is armed and no callback is waiting, nothing is pending. */
  lemma DebounceLosesNothing(states: seq<State>, i: nat, k: nat)
    requires Run(states) && i < |states| && k < |states[i].scheduled|
    ensures var st, s := states[i], states[i].scheduled[k];
            match s.fate
            case Pending =>
              && s.seqNo <= st.fields.pendingSeq
              && st.fields.refreshTimer.Some?
              && (st.fields.refreshTimer.value in st.armed || st.fields.refreshTimer.value in st.entering)
            case Covered(target) => s.seqNo <= target
            case Dropped => true
  {
    RunKeepsLaw(states, i);
  }

  lemma SettleStep(st: State, step: Step, k: nat)
    requires Enabled(st, step) && k < |st.scheduled|
    ensures var st', s := Apply(st, step), st.scheduled[k];
            && k < |st'.scheduled| && st'.scheduled[k].seqNo == s.seqNo
            && (!s.fate.Pending? ==> st'.scheduled[k] == s)
            && (s.fate.Pending? && st'.scheduled[k].fate.Covered? ==>
                  st.fields.subscribers != map[] && st'.scheduled[k].fate.target == st.fields.pendingSeq)
            && (s.fate.Pending? && st'.scheduled[k].fate.Dropped? ==> st'.fields.subscribers == map[])
  {
    var st' := Apply(st, step);
    if step.BeginRemove? && IsLast(st.fields, st.calls[step.call].key) {
      assert st'.fields.subscribers.Keys == {};
    }
  }

  /** From one state of a run to the next: a pending sequence becomes covered only by the target a refresh takes from
      pendingSeq while somebody is subscribed, and is dropped only where nobody is. */
  lemma FateOfScheduled(states: seq<State>, i: nat, k: nat)
    requires Run(states) && 0 < i < |states| && k < |states[i - 1].scheduled|
    requires states[i - 1].scheduled[k].fate.Pending?
    ensures k < |states[i].scheduled|
    ensures match states[i].scheduled[k].fate
            case Pending => true
            case Covered(target) =>
              target == states[i - 1].fields.pendingSeq && states[i - 1].fields.subscribers != map[]
            case Dropped => states[i].fields.subscribers == map[]
  {
    assert NextAt(states, i);
    var step :| Enabled(states[i - 1], step) && states[i] == Apply(states[i - 1], step);
    SettleStep(states[i - 1], step, k);
  }

  lemma FateNext(st: State, st': State, k: nat)
    requires Next(st, st') && k < |st.scheduled|
    ensures k < |st'.scheduled| && st'.scheduled[k].seqNo == st.scheduled[k].seqNo
    ensures !st.scheduled[k].fate.Pending? ==> st'.scheduled[k] == st.scheduled[k]
  {
    var step :| Enabled(st, step) && st' == Apply(st, step);
    SettleStep(st, step, k);
  }

  /** The log of scheduled sequences only grows, and a settled fate never changes again. */
  lemma {:induction false} FatesAreFinal(states: seq<State>, i: nat, j: nat, k: nat)
    requires Run(states) && i <= j < |states| && k < |states[i].scheduled|
    ensures k < |states[j].scheduled| && states[j].scheduled[k].seqNo == states[i].scheduled[k].seqNo
    ensures !states[i].scheduled[k].fate.Pending? ==> states[j].scheduled[k] == states[i].scheduled[k]
  {
    if i < j {
      FatesAreFinal(states, i, j - 1, k);
      assert NextAt(states, j);
      FateNext(states[j - 1], states[j], k);
    }
  }

  /** A refresh's target is the maximum of the sequences scheduled since the previous take or reset, 0 if none;
      taking it settles every one of them. */
  lemma RefreshTargetIsMaximum(states: seq<State>, i: nat, t: nat)
    requires Run(states) && i < |states| && Enabled(states[i], EnterRefresh(t))
    ensures var st := states[i];
            var target := st.fields.pendingSeq;
            && (forall k :: 0 <= k < |st.scheduled| && st.scheduled[k].fate.Pending? ==>
                  st.scheduled[k].seqNo <= target)
            && (target != 0 ==> exists k :: 0 <= k < |st.scheduled| && st.scheduled[k] == Scheduled(target, Pending))
            && (forall k :: 0 <= k < |st.scheduled| ==> !Apply(st, EnterRefresh(t)).scheduled[k].fate.Pending?)
  {
    RunKeepsLaw(states, i);
  }
}
