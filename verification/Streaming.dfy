/** The registry and all its fan-out streams together: every interleaving of subscribers of every group. */
module Streaming {
  import opened Options
  import GroupStreams
  import FanOut
  import Registry

  /** Stream s of the registry is streams[s]; a call has one number in both. */
  datatype State = State(registry: Registry.State, streams: seq<FanOut.State>)

  datatype Step =
    | Find(call: nat, groupID: string)
    | OnStream(stream: nat, step: FanOut.Step)
    | Drop(call: nat)

  const INITIAL := State(Registry.INITIAL, [])

  /** A call enters the stream the registry gave it, and drops a stream once its removal, Unsubscribe included, has
      returned. */
  predicate Enabled(st: State, step: Step) {
    match step
    case Find(c, g) => Registry.Enabled(st.registry, Registry.Find(c, g))
    case OnStream(s, step) =>
      s < |st.streams| && FanOut.Enabled(st.streams[s], step)
      && (step.BeginAdd? ==>
            step.call in st.registry.calls && st.registry.calls[step.call] == Registry.Found(s))
    case Drop(c) =>
      && Registry.Enabled(st.registry, Registry.Drop(c))
      && st.registry.calls[c].stream < |st.streams|
      && c in st.streams[st.registry.calls[c].stream].calls
      && st.streams[st.registry.calls[c].stream].calls[c].Gone?
  }

  /** What a step on a stream means for the registry's view of its call; removeSubscriber's answer decides whether the
      registry is to be told. */
  function CallAfter(stream: FanOut.State, s: nat, step: FanOut.Step): Option<Registry.Pc>
    requires FanOut.Enabled(stream, step)
  {
    match step
    case BeginAdd(_) => Some(Registry.Entered(s))
    case ForgetEntry(_) => Some(Registry.Ended)
    case BeginRemove(c) =>
      if GroupStreams.IsLast(stream.fields, stream.calls[c].key) then Some(Registry.Emptied(s))
      else Some(Registry.Ended)
    case _ => None
  }

  function RegistryAfter(registry: Registry.State, stream: FanOut.State, s: nat, step: FanOut.Step): Registry.State
    requires FanOut.Enabled(stream, step)
  {
    match CallAfter(stream, s, step)
    case None => registry
    case Some(pc) => registry.(calls := registry.calls[step.call := pc])
  }

  ghost function Apply(st: State, step: Step): State
    requires Enabled(st, step)
  {
    match step
    case Find(c, g) =>
      State(Registry.Apply(st.registry, Registry.Find(c, g)),
            if g in st.registry.byGroup then st.streams else st.streams + [FanOut.Initial(g)])
    case OnStream(s, step) =>
      State(RegistryAfter(st.registry, st.streams[s], s, step), st.streams[s := FanOut.Apply(st.streams[s], step)])
    case Drop(c) => st.(registry := Registry.Apply(st.registry, Registry.Drop(c)))
  }

  ghost predicate Next(st: State, st': State) {
    exists step :: Enabled(st, step) && st' == Apply(st, step)
  }

  ghost predicate NextAt(states: seq<State>, i: nat)
    requires 0 < i < |states|
  {
    Next(states[i - 1], states[i])
  }

  ghost predicate Run(states: seq<State>) {
    && states != []
    && states[0] == INITIAL
    && forall i :: 0 < i < |states| ==> NextAt(states, i)
  }

  // ---------- the two views agree ----------

  /** Stream s holds an entry of call c. */
  predicate HasEntryIn(st: State, s: nat, c: nat)
    requires s < |st.streams|
  {
    c in st.streams[s].calls && FanOut.HasEntry(st.streams[s].calls[c])
  }

  predicate EnteredIn(st: State, s: nat, c: nat) {
    c in st.registry.calls && st.registry.calls[c] == Registry.Entered(s)
  }

  ghost predicate Agree(st: State, s: nat)
    requires s < |st.streams|
  {
    forall c: nat :: HasEntryIn(st, s, c) <==> EnteredIn(st, s, c)
  }

  ghost predicate StreamLaw(stream: FanOut.State) {
    FanOut.EntryLaw(stream) && FanOut.SubscriptionLaw(stream) && FanOut.ServedLaw(stream)
  }

  ghost predicate Law(st: State) {
    && Registry.StreamsLaw(st.registry)
    && |st.streams| == |st.registry.groups|
    && (forall s :: 0 <= s < |st.streams| ==> st.streams[s].groupID == st.registry.groups[s])
    && (forall s :: 0 <= s < |st.streams| ==> StreamLaw(st.streams[s]))
    && (forall s :: 0 <= s < |st.streams| ==> Agree(st, s))
  }

  /** removeSubscriber's answer is the registry's: the stream is empty exactly when no other call has an entry. */
  lemma LastExactlyWhenAlone(st: State, s: nat, c: nat)
    requires Law(st) && s < |st.streams| && FanOut.Enabled(st.streams[s], FanOut.BeginRemove(c))
    ensures GroupStreams.IsLast(st.streams[s].fields, st.streams[s].calls[c].key)
            <==> !Registry.OthersEntered(st.registry, s, c)
  {
    var stream := st.streams[s];
    var key := stream.calls[c].key;
    assert Agree(st, s) && FanOut.EntryLaw(stream);
    if Registry.OthersEntered(st.registry, s, c) {
      var d :| d in st.registry.calls && d != c && st.registry.calls[d] == Registry.Entered(s);
      assert EnteredIn(st, s, d) && HasEntryIn(st, s, d);
      assert FanOut.CallHasEntry(stream, c) && FanOut.CallHasEntry(stream, d);
      assert stream.calls[d].key in stream.fields.subscribers && stream.calls[d].key != key;
    }
    if !GroupStreams.IsLast(stream.fields, key) {
      var k :| k in stream.fields.subscribers && k != key;
      assert FanOut.EntryHasCall(stream, k);
      var d := stream.fields.subscribers[k];
      assert HasEntryIn(st, s, d) && EnteredIn(st, s, d);
    }
  }

  /** Seen from the registry, every step is one of its own or none. */
  lemma RegistryFollows(st: State, step: Step)
    requires Law(st) && Enabled(st, step)
    ensures var registry' := Apply(st, step).registry;
            registry' == st.registry || Registry.Next(st.registry, registry')
  {
    match step
    case Find(c, g) => assert Registry.Enabled(st.registry, Registry.Find(c, g));
    case Drop(c) => assert Registry.Enabled(st.registry, Registry.Drop(c));
    case OnStream(s, step) => StreamStepFollows(st, s, step);
  }

  lemma StreamStepFollows(st: State, s: nat, step: FanOut.Step)
    requires Law(st) && Enabled(st, OnStream(s, step))
    ensures var registry' := Apply(st, OnStream(s, step)).registry;
            registry' == st.registry || Registry.Next(st.registry, registry')
  {
    var registry, registry' := st.registry, Apply(st, OnStream(s, step)).registry;
    assert Agree(st, s);
    match step
    case BeginAdd(c) =>
      assert Registry.Enabled(registry, Registry.Enter(c)) && registry' == Registry.Apply(registry, Registry.Enter(c));
    case ForgetEntry(c) =>
      assert HasEntryIn(st, s, c) && EnteredIn(st, s, c);
      assert Registry.Enabled(registry, Registry.Fail(c)) && registry' == Registry.Apply(registry, Registry.Fail(c));
    case BeginRemove(c) =>
      assert HasEntryIn(st, s, c) && EnteredIn(st, s, c);
      LastExactlyWhenAlone(st, s, c);
      assert Registry.Enabled(registry, Registry.Remove(c))
        && registry' == Registry.Apply(registry, Registry.Remove(c));
    case _ =>
  }

  lemma RegistryLawKept(st: State, step: Step)
    requires Law(st) && Enabled(st, step)
    ensures Registry.StreamsLaw(Apply(st, step).registry)
  {
    RegistryFollows(st, step);
    var registry' := Apply(st, step).registry;
    if registry' != st.registry {
      var own :| Registry.Enabled(st.registry, own) && registry' == Registry.Apply(st.registry, own);
      Registry.StreamsLawKept(st.registry, own);
    }
  }

  lemma StartsLawful(groupID: string)
    ensures StreamLaw(FanOut.Initial(groupID)) && !FanOut.Orphaned(FanOut.Initial(groupID))
  {
  }

  lemma StreamLawKept(stream: FanOut.State, step: FanOut.Step)
    requires StreamLaw(stream) && FanOut.Enabled(stream, step)
    ensures StreamLaw(FanOut.Apply(stream, step)) && FanOut.Apply(stream, step).groupID == stream.groupID
  {
    FanOut.EntryLawKept(stream, step);
    FanOut.SubscriptionLawKept(stream, step);
    FanOut.ServedLawKept(stream, step);
  }

  /** Which entry a step on a stream makes or removes: its own call's, as the registry is told. */
  lemma EntriesFollow(stream: FanOut.State, s: nat, step: FanOut.Step, c: nat)
    requires FanOut.Enabled(stream, step)
    ensures var calls, calls' := stream.calls, FanOut.Apply(stream, step).calls;
            var pc := CallAfter(stream, s, step);
            (c in calls' && FanOut.HasEntry(calls'[c]))
            <==> if pc.Some? && c == step.call then pc.value.Entered? else c in calls && FanOut.HasEntry(calls[c])
  {
  }

  lemma AgreeAfterStreamStep(st: State, s: nat, step: FanOut.Step, r: nat)
    requires Law(st) && Enabled(st, OnStream(s, step)) && r < |st.streams|
    ensures Agree(Apply(st, OnStream(s, step)), r)
  {
    var st' := Apply(st, OnStream(s, step));
    assert Agree(st, r) && Agree(st, s);
    forall c: nat ensures HasEntryIn(st', r, c) <==> EnteredIn(st', r, c) {
      EntriesFollow(st.streams[s], s, step, c);
      assert HasEntryIn(st, r, c) <==> EnteredIn(st, r, c);
      assert HasEntryIn(st, s, c) <==> EnteredIn(st, s, c);
    }
  }

  lemma AgreeAfterFind(st: State, c: nat, g: string, r: nat)
    requires Law(st) && Enabled(st, Find(c, g)) && r < |Apply(st, Find(c, g)).streams|
    ensures Agree(Apply(st, Find(c, g)), r)
  {
    var st' := Apply(st, Find(c, g));
    if r < |st.streams| {
      assert Agree(st, r);
      forall d: nat ensures HasEntryIn(st', r, d) <==> EnteredIn(st', r, d) {
        assert HasEntryIn(st, r, d) <==> EnteredIn(st, r, d);
      }
    }
  }

  lemma AgreeAfterDrop(st: State, c: nat, r: nat)
    requires Law(st) && Enabled(st, Drop(c)) && r < |st.streams|
    ensures Agree(Apply(st, Drop(c)), r)
  {
    var st' := Apply(st, Drop(c));
    assert Agree(st, r);
    forall d: nat ensures HasEntryIn(st', r, d) <==> EnteredIn(st', r, d) {
      assert HasEntryIn(st, r, d) <==> EnteredIn(st, r, d);
    }
  }

  lemma FindKeepsLaw(st: State, c: nat, g: string)
    requires Law(st) && Enabled(st, Find(c, g))
    ensures Law(Apply(st, Find(c, g)))
  {
    RegistryLawKept(st, Find(c, g));
    StartsLawful(g);
    forall r | 0 <= r < |Apply(st, Find(c, g)).streams| ensures Agree(Apply(st, Find(c, g)), r) {
      AgreeAfterFind(st, c, g, r);
    }
  }

  lemma StreamStepKeepsLaw(st: State, s: nat, step: FanOut.Step)
    requires Law(st) && Enabled(st, OnStream(s, step))
    ensures Law(Apply(st, OnStream(s, step)))
  {
    RegistryLawKept(st, OnStream(s, step));
    StreamLawKept(st.streams[s], step);
    forall r | 0 <= r < |st.streams| ensures Agree(Apply(st, OnStream(s, step)), r) {
      AgreeAfterStreamStep(st, s, step, r);
    }
  }

  lemma DropKeepsLaw(st: State, c: nat)
    requires Law(st) && Enabled(st, Drop(c))
    ensures Law(Apply(st, Drop(c)))
  {
    RegistryLawKept(st, Drop(c));
    forall r | 0 <= r < |st.streams| ensures Agree(Apply(st, Drop(c)), r) {
      AgreeAfterDrop(st, c, r);
    }
  }

  lemma LawKept(st: State, step: Step)
    requires Law(st) && Enabled(st, step)
    ensures Law(Apply(st, step))
  {
    match step
    case Find(c, g) => FindKeepsLaw(st, c, g);
    case OnStream(s, step) => StreamStepKeepsLaw(st, s, step);
    case Drop(c) => DropKeepsLaw(st, c);
  }

  lemma {:induction false} RunKeepsLaw(states: seq<State>, i: nat)
    requires Run(states) && i < |states|
    ensures Law(states[i])
  {
    if i > 0 {
      RunKeepsLaw(states, i - 1);
      assert NextAt(states, i);
      var step :| Enabled(states[i - 1], step) && states[i] == Apply(states[i - 1], step);
      LawKept(states[i - 1], step);
    }
  }

  // ---------- one subscription per group ----------

  /** No call uses a stream the registry has lost, and no stream keeps a subscription without subscribers. */
  ghost predicate Sound(st: State) {
    !Registry.SomeAstray(st.registry) && forall s :: 0 <= s < |st.streams| ==> !FanOut.Orphaned(st.streams[s])
  }

  /** The two kinds of step that break this: dropping a stream found again, and a failed add cleaning up last. */
  ghost predicate Breaks(st: State, st': State) {
    || Registry.DropsUsed(st.registry, st'.registry)
    || exists s :: 0 <= s < |st.streams| && s < |st'.streams| && FanOut.Orphans(st.streams[s], st'.streams[s])
  }

  ghost predicate BreaksAt(states: seq<State>, i: nat)
    requires 0 < i < |states|
  {
    Breaks(states[i - 1], states[i])
  }

  lemma NothingDropped(registry: Registry.State)
    ensures !Registry.DropsUsed(registry, registry)
  {
  }

  lemma AstrayStep(st: State, step: Step)
    requires Law(st) && Enabled(st, step) && !Registry.SomeAstray(st.registry)
    ensures Registry.SomeAstray(Apply(st, step).registry)
            <==> Registry.DropsUsed(st.registry, Apply(st, step).registry)
  {
    RegistryFollows(st, step);
    if Apply(st, step).registry == st.registry {
      NothingDropped(st.registry);
    } else {
      Registry.LostStep(st.registry, Apply(st, step).registry);
    }
  }

  lemma NothingOrphaned(stream: FanOut.State)
    ensures !FanOut.Orphans(stream, stream)
  {
  }

  /** A stream becomes orphaned exactly by a failed add's clean-up on it. */
  lemma OrphanedStep(st: State, step: Step, s: nat)
    requires Law(st) && Enabled(st, step) && s < |st.streams| && !FanOut.Orphaned(st.streams[s])
    ensures s < |Apply(st, step).streams|
    ensures FanOut.Orphaned(Apply(st, step).streams[s])
            <==> FanOut.Orphans(st.streams[s], Apply(st, step).streams[s])
  {
    if step.OnStream? && step.stream == s {
      assert StreamLaw(st.streams[s]);
      assert FanOut.Next(st.streams[s], FanOut.Apply(st.streams[s], step.step));
      FanOut.OrphanStep(st.streams[s], FanOut.Apply(st.streams[s], step.step));
    } else {
      NothingOrphaned(st.streams[s]);
    }
  }

  lemma SoundStep(st: State, step: Step)
    requires Law(st) && Enabled(st, step) && Sound(st)
    ensures Sound(Apply(st, step)) <==> !Breaks(st, Apply(st, step))
  {
    var st' := Apply(st, step);
    AstrayStep(st, step);
    forall s | 0 <= s < |st.streams|
      ensures s < |st'.streams|
      ensures FanOut.Orphaned(st'.streams[s]) <==> FanOut.Orphans(st.streams[s], st'.streams[s])
    {
      OrphanedStep(st, step, s);
    }
    if step.Find? {
      StartsLawful(step.groupID);
    }
  }

  lemma SoundAt(states: seq<State>, n: nat)
    requires Run(states) && 0 < n < |states| && Sound(states[n - 1])
    ensures Sound(states[n]) <==> !BreaksAt(states, n)
  {
    RunKeepsLaw(states, n - 1);
    assert NextAt(states, n);
    var step :| Enabled(states[n - 1], step) && states[n] == Apply(states[n - 1], step);
    SoundStep(states[n - 1], step);
  }

  /** A run stays sound up to state n exactly when neither kind of breaking step was taken. */
  lemma {:induction false} SoundExactly(states: seq<State>, n: nat)
    requires Run(states) && n < |states|
    ensures (forall i :: 0 <= i <= n ==> Sound(states[i])) <==> (forall i :: 0 < i <= n ==> !BreaksAt(states, i))
  {
    if n > 0 {
      SoundExactly(states, n - 1);
      if Sound(states[n - 1]) {
        SoundAt(states, n);
      }
    }
  }

  /** No call on a stream is between two of its steps. */
  ghost predicate Settled(st: State) {
    forall s :: 0 <= s < |st.streams| ==> FanOut.Quiescent(st.streams[s])
  }

  /** The NATS subscriptions that exist for a group's events, over all the streams it ever had. */
  function ActiveOf(st: State, groupID: string): set<(nat, nat)> {
    set s: nat, n: nat | s < |st.streams| && n in st.streams[s].active && st.streams[s].groupID == groupID :: (s, n)
  }

  predicate HasSubscribers(st: State, groupID: string) {
    exists s: nat :: s < |st.streams| && SubscribedOf(st, groupID, s)
  }

  /** A stream with subscribers is the registered one. */
  lemma SubscribedIsRegistered(st: State, s: nat)
    requires Law(st) && !Registry.SomeAstray(st.registry)
    requires s < |st.streams| && st.streams[s].fields.subscribers != map[]
    ensures Registry.Registered(st.registry, s)
  {
    var stream := st.streams[s];
    var k :| k in stream.fields.subscribers;
    var c := stream.fields.subscribers[k];
    assert StreamLaw(stream) && Agree(st, s);
    assert FanOut.EntryHasCall(stream, k);
    assert HasEntryIn(st, s, c) && EnteredIn(st, s, c);
    assert !Registry.Astray(st.registry, c);
  }

  /** In a settled stream the installed subscription is the only one, and subscribers have it. */
  lemma SettledStream(st: State, s: nat)
    requires Law(st) && Settled(st) && s < |st.streams|
    ensures var fields := st.streams[s].fields;
            && st.streams[s].active == (if fields.sub.Some? then {fields.sub.value} else {})
            && (fields.subscribers != map[] ==> fields.sub.Some?)
            && (!FanOut.Orphaned(st.streams[s]) ==> (fields.sub.Some? <==> fields.subscribers != map[]))
  {
    assert StreamLaw(st.streams[s]);
    FanOut.SettledSubscriptions(st.streams[s]);
  }

  predicate SubscribedOf(st: State, groupID: string, s: nat) {
    s < |st.streams| && st.streams[s].groupID == groupID && st.streams[s].fields.subscribers != map[]
  }

  /** A group's subscribers have one subscription between them, and a group without subscribers has none. */
  predicate GroupServed(st: State, groupID: string) {
    |ActiveOf(st, groupID)| <= 1 && (|ActiveOf(st, groupID)| == 1 <==> HasSubscribers(st, groupID))
  }

  ghost predicate NoOrphan(st: State) {
    forall s :: 0 <= s < |st.streams| ==> !FanOut.Orphaned(st.streams[s])
  }

  /** No two streams of one group have subscribers. */
  ghost predicate NoneSplit(st: State) {
    forall g, s, t :: SubscribedOf(st, g, s) && SubscribedOf(st, g, t) ==> s == t
  }

  lemma ActiveMember(st: State, s: nat)
    requires Law(st) && Settled(st) && s < |st.streams| && st.streams[s].fields.sub.Some?
    ensures (s, st.streams[s].fields.sub.value) in ActiveOf(st, st.streams[s].groupID)
  {
    SettledStream(st, s);
  }

  lemma ActiveIsSubscribed(st: State, groupID: string, p: (nat, nat))
    requires Law(st) && Settled(st) && NoOrphan(st) && p in ActiveOf(st, groupID)
    ensures SubscribedOf(st, groupID, p.0) && st.streams[p.0].fields.sub == Some(p.1)
  {
    SettledStream(st, p.0);
  }

  lemma ServedWhenWhole(st: State, groupID: string)
    requires Law(st) && Settled(st) && NoOrphan(st) && NoneSplit(st)
    ensures GroupServed(st, groupID)
  {
    var active := ActiveOf(st, groupID);
    if p :| p in active {
      ActiveIsSubscribed(st, groupID, p);
      forall q | q in active ensures q == p {
        ActiveIsSubscribed(st, groupID, q);
      }
      assert active == {p};
    }
    if s: nat :| SubscribedOf(st, groupID, s) {
      SettledStream(st, s);
      ActiveMember(st, s);
    }
    assert HasSubscribers(st, groupID) ==> exists s: nat :: SubscribedOf(st, groupID, s);
  }

  lemma TwoActive(active: set<(nat, nat)>, p: (nat, nat), q: (nat, nat))
    requires p in active && q in active && p != q
    ensures |active| >= 2
  {
    assert |{p, q}| == 2;
    assert active == {p, q} + (active - {p, q});
  }

  lemma SplitIsNotServed(st: State, groupID: string, s: nat, t: nat)
    requires Law(st) && Settled(st) && SubscribedOf(st, groupID, s) && SubscribedOf(st, groupID, t) && s != t
    ensures !GroupServed(st, groupID)
  {
    SettledStream(st, s);
    SettledStream(st, t);
    ActiveMember(st, s);
    ActiveMember(st, t);
    TwoActive(ActiveOf(st, groupID), (s, st.streams[s].fields.sub.value), (t, st.streams[t].fields.sub.value));
  }

  lemma OrphanIsNotServed(st: State, s: nat)
    requires Law(st) && Settled(st) && s < |st.streams| && FanOut.Orphaned(st.streams[s])
    ensures !GroupServed(st, st.streams[s].groupID)
  {
    var g := st.streams[s].groupID;
    var active := ActiveOf(st, g);
    ActiveMember(st, s);
    assert active != {};
    if HasSubscribers(st, g) {
      var t: nat :| t < |st.streams| && SubscribedOf(st, g, t);
      SettledStream(st, t);
      ActiveMember(st, t);
      assert st.streams[t].groupID == g && s != t;
      TwoActive(active, (s, st.streams[s].fields.sub.value), (t, st.streams[t].fields.sub.value));
    }
  }

  /** Once every call has settled: each group has at most one active NATS subscription, and exactly one if and only if
      it has subscribers, exactly when no stream is orphaned and no two streams of one group have subscribers. */
  lemma ServedExactly(st: State)
    requires Law(st) && Settled(st)
    ensures (forall g :: GroupServed(st, g)) <==> NoOrphan(st) && NoneSplit(st)
  {
    if NoOrphan(st) && NoneSplit(st) {
      forall g ensures GroupServed(st, g) {
        ServedWhenWhole(st, g);
      }
    }
    if !NoOrphan(st) {
      var s: nat :| s < |st.streams| && FanOut.Orphaned(st.streams[s]);
      OrphanIsNotServed(st, s);
    }
    if !NoneSplit(st) {
      var g, s: nat, t: nat :| SubscribedOf(st, g, s) && SubscribedOf(st, g, t) && s != t;
      SplitIsNotServed(st, g, s, t);
    }
  }

  lemma SoundIsWhole(st: State)
    requires Law(st) && Sound(st)
    ensures NoOrphan(st) && NoneSplit(st)
  {
    forall g, s: nat, t: nat | SubscribedOf(st, g, s) && SubscribedOf(st, g, t) ensures s == t {
      SubscribedIsRegistered(st, s);
      SubscribedIsRegistered(st, t);
    }
  }

  /** In every run: what a settled state shows of all groups, exactly. */
  lemma SettledRunsServeExactly(states: seq<State>)
    requires Run(states) && Settled(states[|states| - 1])
    ensures var st := states[|states| - 1];
            (forall g :: |ActiveOf(st, g)| <= 1 && (|ActiveOf(st, g)| == 1 <==> HasSubscribers(st, g)))
            <==> NoOrphan(st) && NoneSplit(st)
  {
    var st := states[|states| - 1];
    RunKeepsLaw(states, |states| - 1);
    ServedExactly(st);
    assert forall g :: GroupServed(st, g) <==>
             |ActiveOf(st, g)| <= 1 && (|ActiveOf(st, g)| == 1 <==> HasSubscribers(st, g));
  }

  /** In every run without those two kinds of step: once every call has settled, each group has at most one active NATS
      subscription, and exactly one if and only if it has subscribers. */
  lemma OneSubscriptionPerGroup(states: seq<State>, groupID: string)
    requires Run(states) && Settled(states[|states| - 1])
    requires forall i :: 0 < i < |states| ==> !BreaksAt(states, i)
    ensures var st := states[|states| - 1];
            |ActiveOf(st, groupID)| <= 1 && (|ActiveOf(st, groupID)| == 1 <==> HasSubscribers(st, groupID))
  {
    RunKeepsLaw(states, |states| - 1);
    SoundExactly(states, |states| - 1);
    SoundIsWhole(states[|states| - 1]);
    ServedWhenWhole(states[|states| - 1], groupID);
  }

  /** No js.Subscribe has just failed. */
  ghost predicate FailureFree(st: State) {
    forall s :: 0 <= s < |st.streams| ==> FanOut.FailureFree(st.streams[s])
  }

  /** So in every run in which no add fails and no stream is dropped after it was found again. */
  lemma OneSubscriptionWithoutFailures(states: seq<State>, groupID: string)
    requires Run(states) && Settled(states[|states| - 1])
    requires forall i :: 0 <= i < |states| ==> FailureFree(states[i])
    requires forall i :: 0 < i < |states| ==> !Registry.DropsUsed(states[i - 1].registry, states[i].registry)
    ensures var st := states[|states| - 1];
            |ActiveOf(st, groupID)| <= 1 && (|ActiveOf(st, groupID)| == 1 <==> HasSubscribers(st, groupID))
  {
    forall i | 0 < i < |states| ensures !BreaksAt(states, i) {
      assert FailureFree(states[i - 1]);
    }
    OneSubscriptionPerGroup(states, groupID);
  }

  /** The registry is told of an emptied stream only when the call that emptied it has stopped the timer and
      unsubscribed, and so holds nothing. */
  lemma DropsOnlyWhenGone(st: State, c: nat)
    requires Law(st) && Enabled(st, Drop(c))
    ensures var s := st.registry.calls[c].stream;
            && s < |st.streams| && c in st.streams[s].calls
            && st.streams[s].calls[c].Gone? && FanOut.HeldBy(st.streams[s].calls[c]).None?
  {
  }

  // ---------- a subscriber comes and goes ----------

  lemma Extend(states: seq<State>, step: Step) returns (longer: seq<State>)
    requires Run(states) && Enabled(states[|states| - 1], step)
    ensures Run(longer) && longer[|longer| - 1] == Apply(states[|states| - 1], step)
  {
    longer := states + [Apply(states[|states| - 1], step)];
    forall i | 0 < i < |longer| ensures NextAt(longer, i) {
      if i < |states| {
        assert NextAt(states, i);
      }
    }
  }

  /** One stream with one call at `pc`; k is the call's key. */
  function OneCall(g: string, sub: Option<nat>, k: string, pc: FanOut.Pc, made: nat): FanOut.State {
    FanOut.State(g, GroupStreams.Fields(sub, map[k := 0], 1, 0, None), map[0 := pc],
                 if made == 0 then {} else {0}, made, {}, multiset{}, 0, [])
  }

  function OneStream(g: string, pc: Registry.Pc, stream: FanOut.State): State {
    State(Registry.State(map[g := 0], [g], map[0 := pc]), [stream])
  }

  lemma StreamMoves(states: seq<State>, g: string, pc: Registry.Pc, stream: FanOut.State, step: FanOut.Step)
      returns (longer: seq<State>)
    requires Run(states) && states[|states| - 1] == OneStream(g, pc, stream)
    requires FanOut.Enabled(stream, step) && !step.BeginAdd? && !step.ForgetEntry? && !step.BeginRemove?
    ensures Run(longer) && longer[|longer| - 1] == OneStream(g, pc, FanOut.Apply(stream, step))
  {
    longer := Extend(states, OnStream(0, step));
    assert [stream][0 := FanOut.Apply(stream, step)] == [FanOut.Apply(stream, step)];
  }

  lemma SubscriberEnters(g: string, k: string) returns (states: seq<State>)
    requires k == GroupStreams.SubscriberKey(g, 1)
    ensures Run(states)
    ensures states[|states| - 1] == OneStream(g, Registry.Entered(0), OneCall(g, None, k, FanOut.Registered(k), 0))
  {
    states := [INITIAL];
    states := Extend(states, Find(0, g));
    assert states[|states| - 1] == OneStream(g, Registry.Found(0), FanOut.Initial(g));
    states := Extend(states, OnStream(0, FanOut.BeginAdd(0)));
    var stream := states[|states| - 1].streams[0];
    assert stream == OneCall(g, None, k, FanOut.Registered(k), 0);
    assert states[|states| - 1].streams == [stream];
  }

  lemma SubscriberComes(g: string, k: string) returns (states: seq<State>)
    requires k == GroupStreams.SubscriberKey(g, 1)
    ensures Run(states)
    ensures states[|states| - 1] == OneStream(g, Registry.Entered(0), OneCall(g, Some(0), k, FanOut.Joined(k), 1))
  {
    states := SubscriberEnters(g, k);
    var stream := OneCall(g, None, k, FanOut.Registered(k), 0);
    states := StreamMoves(states, g, Registry.Entered(0), stream, FanOut.CheckSubscription(0));
    stream := FanOut.Apply(stream, FanOut.CheckSubscription(0));
    states := StreamMoves(states, g, Registry.Entered(0), stream, FanOut.SubscribeSucceeds(0));
    stream := FanOut.Apply(stream, FanOut.SubscribeSucceeds(0));
    states := StreamMoves(states, g, Registry.Entered(0), stream, FanOut.InstallCreated(0));
    assert FanOut.Apply(stream, FanOut.InstallCreated(0)) == OneCall(g, Some(0), k, FanOut.Joined(k), 1);
  }

  /** What is left of a stream its one subscriber has left. */
  function LeftBehind(g: string, pc: FanOut.Pc, active: set<nat>): FanOut.State {
    FanOut.State(g, GroupStreams.Fields(None, map[], 1, 0, None), map[0 := pc], active, 1, {}, multiset{}, 0, [])
  }

  lemma SubscriberLeaves(states: seq<State>, g: string, k: string) returns (longer: seq<State>)
    requires Run(states)
    requires states[|states| - 1] == OneStream(g, Registry.Entered(0), OneCall(g, Some(0), k, FanOut.Joined(k), 1))
    ensures Run(longer)
    ensures longer[|longer| - 1] ==
            OneStream(g, Registry.Emptied(0), LeftBehind(g, FanOut.Leaving(Some(0), None), {0}))
  {
    longer := Extend(states, OnStream(0, FanOut.BeginRemove(0)));
    var stream := longer[|longer| - 1].streams[0];
    assert stream.fields.subscribers.Keys == {};
    assert stream == LeftBehind(g, FanOut.Leaving(Some(0), None), {0});
    assert longer[|longer| - 1].streams == [stream];
  }

  lemma SubscriberGoes(states: seq<State>, g: string, k: string) returns (longer: seq<State>)
    requires Run(states)
    requires states[|states| - 1] == OneStream(g, Registry.Entered(0), OneCall(g, Some(0), k, FanOut.Joined(k), 1))
    ensures Run(longer)
    ensures longer[|longer| - 1] == State(Registry.State(map[], [g], map[0 := Registry.Ended]),
                                          [LeftBehind(g, FanOut.Gone, {})])
  {
    longer := SubscriberLeaves(states, g, k);
    var stream := LeftBehind(g, FanOut.Leaving(Some(0), None), {0});
    longer := StreamMoves(longer, g, Registry.Emptied(0), stream, FanOut.StopTimer(0));
    stream := FanOut.Apply(stream, FanOut.StopTimer(0));
    longer := StreamMoves(longer, g, Registry.Emptied(0), stream, FanOut.UnsubscribeOld(0));
    stream := FanOut.Apply(stream, FanOut.UnsubscribeOld(0));
    assert stream == LeftBehind(g, FanOut.Gone, {});
    longer := Extend(longer, Drop(0));
  }

  /** From nothing, a subscriber is served by the group's one subscription, and when it has gone nothing is left: no
      subscription and no registered stream. */
  lemma SubscriberComesAndGoes(g: string) returns (served: seq<State>, gone: seq<State>)
    ensures Run(served) && Run(gone)
    ensures var st := served[|served| - 1]; HasSubscribers(st, g) && ActiveOf(st, g) == {(0, 0)}
    ensures var st := gone[|gone| - 1];
            Settled(st) && st.registry.byGroup == map[] && !HasSubscribers(st, g) && ActiveOf(st, g) == {}
  {
    var k := GroupStreams.SubscriberKey(g, 1);
    served := SubscriberComes(g, k);
    assert k in served[|served| - 1].streams[0].fields.subscribers;
    assert SubscribedOf(served[|served| - 1], g, 0);
    gone := SubscriberGoes(served, g, k);
  }
}
