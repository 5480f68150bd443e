/** The registry of fan-out streams: finding a stream and emptying one are separate lock regions, so they overlap. */
module Registry {
  import opened Options
  import opened GroupStreams

  /** The registered streams after Subscribe's region; `made` is the stream it makes when the group has none. */
  function WithStream<S>(byGroup: map<string, S>, groupID: string, made: S): map<string, S> {
    if groupID in byGroup then byGroup else byGroup[groupID := made]
  }

  /** The registered streams after unsubscribe's region: only this very stream's entry goes. */
  function WithoutStream<S(==)>(byGroup: map<string, S>, groupID: string, stream: S): map<string, S> {
    if groupID in byGroup && byGroup[groupID] == stream then byGroup - {groupID} else byGroup
  }

  class GroupStreamRegistry<M> {
    var byGroup: map<string, GroupStream<M>>

    /** Every registered stream is its own group's. */
    ghost predicate Valid()
      reads this, byGroup.Values
    {
      forall g :: g in byGroup ==> byGroup[g].groupID == g && byGroup[g].Valid()
    }

    constructor ()
      ensures Valid() && byGroup == map[]
    {
      byGroup := map[];
    }

    /** Subscribe's region under the registry's mutex. */
    method FindStream(groupID: string) returns (stream: GroupStream<M>)
      requires Valid()
      modifies this
      ensures Valid() && groupID in byGroup && byGroup[groupID] == stream
      ensures byGroup == WithStream(old(byGroup), groupID, stream)
      ensures groupID in old(byGroup) ==> stream == old(byGroup)[groupID]
      ensures groupID !in old(byGroup) ==> fresh(stream) && stream.State() == Empty() && stream.groupID == groupID
      ensures forall g :: g != groupID ==> Lookup(byGroup, g) == Lookup(old(byGroup), g)
    {
      if groupID in byGroup {
        return byGroup[groupID];
      }
      stream := new GroupStream(groupID);
      byGroup := byGroup[groupID := stream];
    }

    /** unsubscribe's region under the registry's mutex. */
    method DropStream(stream: GroupStream<M>)
      requires Valid()
      modifies this
      ensures Valid()
      ensures byGroup == WithoutStream(old(byGroup), stream.groupID, stream)
      ensures stream !in byGroup.Values
      ensures forall g :: g in old(byGroup) && old(byGroup)[g] != stream ==>
              g in byGroup && byGroup[g] == old(byGroup)[g]
    {
      if stream.groupID in byGroup && byGroup[stream.groupID] == stream {
        byGroup := byGroup - {stream.groupID};
      }
    }

    /** unsubscribe with nothing in between: the stream is dropped exactly when its last subscriber goes. */
    method Unsubscribe(stream: GroupStream<M>, key: string) returns (oldSub: Option<nat>, oldTimer: Option<nat>)
      requires Valid() && stream.Valid()
      modifies this, stream
      ensures Valid() && stream.State() == Leave(old(stream.State()), key)
      ensures byGroup == if stream.subscribers == map[]
                         then WithoutStream(old(byGroup), stream.groupID, stream) else old(byGroup)
      ensures stream.subscribers == map[] ==> oldSub == old(stream.sub) && oldTimer == old(stream.refreshTimer)
    {
      var empty;
      empty, oldSub, oldTimer := stream.RemoveSubscriber(key);
      if empty {
        DropStream(stream);
      }
    }
  }

  // ---------- every interleaving of subscriptions ----------

  /** Where one Subscribe and its unsubscribe are; streams are numbered in the order they are made. */
  datatype Pc =
    | Found(stream: nat)     // the registry handed out the stream; no entry in it yet
    | Entered(stream: nat)   // an entry in the stream's subscribers
    | Emptied(stream: nat)   // removeSubscriber found the stream empty; the registry is still to be told
    | Ended

  datatype State = State(
    byGroup: map<string, nat>,
    groups: seq<string>,      // each stream's group
    calls: map<nat, Pc>)

  datatype Step =
    | Find(call: nat, groupID: string) | Enter(call: nat)
    | Fail(call: nat) | Remove(call: nat) | Drop(call: nat)

  const INITIAL := State(map[], [], map[])

  predicate Enabled(st: State, step: Step) {
    match step
    case Find(c, _) => c !in st.calls
    case Enter(c) => c in st.calls && st.calls[c].Found?
    case Fail(c) => c in st.calls && st.calls[c].Entered?
    case Remove(c) => c in st.calls && st.calls[c].Entered?
    case Drop(c) => c in st.calls && st.calls[c].Emptied? && st.calls[c].stream < |st.groups|
  }

  /** Some call but c has an entry in stream s. */
  ghost predicate OthersEntered(st: State, s: nat, c: nat) {
    exists d :: d in st.calls && d != c && st.calls[d] == Entered(s)
  }

  ghost function Apply(st: State, step: Step): State
    requires Enabled(st, step)
  {
    match step
    case Find(c, g) =>
      var byGroup := WithStream(st.byGroup, g, |st.groups|);
      State(byGroup, if g in st.byGroup then st.groups else st.groups + [g], st.calls[c := Found(byGroup[g])])
    case Enter(c) => st.(calls := st.calls[c := Entered(st.calls[c].stream)])
    case Fail(c) => st.(calls := st.calls[c := Ended])
    case Remove(c) =>
      var s := st.calls[c].stream;
      st.(calls := st.calls[c := if OthersEntered(st, s, c) then Ended else Emptied(s)])
    case Drop(c) =>
      var s := st.calls[c].stream;
      st.(calls := st.calls[c := Ended], byGroup := WithoutStream(st.byGroup, st.groups[s], s))
  }

  ghost predicate Next(st: State, st': State) {
    exists step :: Enabled(st, step) && st' == Apply(st, step)
  }

  ghost predicate NextAt(states: seq<State>, i: nat)
    requires 0 < i < |states|
  {
    Next(states[i - 1], states[i])
  }

  ghost predicate Run(states: seq<State>) {
    && states != []
    && states[0] == INITIAL
    && forall i :: 0 < i < |states| ==> NextAt(states, i)
  }

  predicate Uses(pc: Pc) {
    pc.Found? || pc.Entered?
  }

  predicate Registered(st: State, s: nat) {
    s < |st.groups| && st.groups[s] in st.byGroup && st.byGroup[st.groups[s]] == s
  }

  ghost predicate StreamsLaw(st: State) {
    && (forall g :: g in st.byGroup ==> st.byGroup[g] < |st.groups| && st.groups[st.byGroup[g]] == g)
    && (forall c :: c in st.calls && !st.calls[c].Ended? ==> st.calls[c].stream < |st.groups|)
  }

  lemma StreamsLawKept(st: State, step: Step)
    requires StreamsLaw(st) && Enabled(st, step)
    ensures StreamsLaw(Apply(st, step))
  {
  }

  lemma {:induction false} RunKeepsLaw(states: seq<State>, i: nat)
    requires Run(states) && i < |states|
    ensures StreamsLaw(states[i])
  {
    if i > 0 {
      RunKeepsLaw(states, i - 1);
      assert NextAt(states, i);
      var step :| Enabled(states[i - 1], step) && states[i] == Apply(states[i - 1], step);
      StreamsLawKept(states[i - 1], step);
    }
  }

  /** A new call can always come, and any other can take its next step. */
  lemma CallsCanStep(st: State, c: nat, g: string)
    requires StreamsLaw(st)
    ensures Enabled(st, Find(c, g)) <==> c !in st.calls
    ensures c !in st.calls ==>
              var st' := Apply(st, Find(c, g));
              c in st'.calls && st'.calls[c].Found? && g in st'.byGroup && st'.calls[c].stream == st'.byGroup[g]
              && (g in st.byGroup ==> st'.byGroup == st.byGroup)
    ensures c in st.calls && st.calls[c].Found? ==>
              Enabled(st, Enter(c)) && Apply(st, Enter(c)).calls[c] == Entered(st.calls[c].stream)
    ensures c in st.calls && st.calls[c].Entered? ==>
              Enabled(st, Fail(c)) && Enabled(st, Remove(c)) && Apply(st, Fail(c)).calls[c] == Ended
    ensures c in st.calls && st.calls[c].Emptied? ==>
              Enabled(st, Drop(c)) && !Registered(Apply(st, Drop(c)), st.calls[c].stream)
  {
  }

  // ---------- streams in use that the registry has lost ----------

  /** Call c uses a stream that is no longer registered. */
  predicate Astray(st: State, c: nat) {
    c in st.calls && Uses(st.calls[c]) && !Registered(st, st.calls[c].stream)
  }

  ghost predicate SomeAstray(st: State) {
    exists c :: Astray(st, c)
  }

  /** A stream's entry is dropped while some call has come to use the stream again. */
  ghost predicate DropsUsed(st: State, st': State) {
    exists c, d :: c in st.calls && st.calls[c].Emptied? && d in st.calls && Uses(st.calls[d])
      && st.calls[d].stream == st.calls[c].stream && Registered(st, st.calls[c].stream) && st' == Apply(st, Drop(c))
  }

  ghost predicate DropsUsedAt(states: seq<State>, i: nat)
    requires 0 < i < |states|
  {
    DropsUsed(states[i - 1], states[i])
  }

  lemma OnlyDropLosesStreams(st: State, step: Step)
    requires StreamsLaw(st) && Enabled(st, step) && !SomeAstray(st) && !step.Drop?
    ensures !SomeAstray(Apply(st, step))
  {
    var st' := Apply(st, step);
    forall c ensures !Astray(st', c) {
      assert !Astray(st, c);
    }
  }

  lemma DropLosesUsed(st: State, c: nat, d: nat)
    requires Enabled(st, Drop(c)) && !Astray(st, d) && Astray(Apply(st, Drop(c)), d)
    ensures DropsUsed(st, Apply(st, Drop(c)))
  {
    assert st.calls[d].stream == st.calls[c].stream;
  }

  lemma DropsUsedLoses(st: State, st': State)
    requires DropsUsed(st, st')
    ensures SomeAstray(st')
  {
    var c, d :| c in st.calls && st.calls[c].Emptied? && d in st.calls && Uses(st.calls[d])
      && st.calls[d].stream == st.calls[c].stream && Registered(st, st.calls[c].stream) && st' == Apply(st, Drop(c));
    assert Astray(st', d);
  }

  lemma LostStep(st: State, st': State)
    requires StreamsLaw(st) && Next(st, st') && !SomeAstray(st)
    ensures SomeAstray(st') <==> DropsUsed(st, st')
  {
    var step :| Enabled(st, step) && st' == Apply(st, step);
    if !step.Drop? {
      OnlyDropLosesStreams(st, step);
    } else if d :| Astray(st', d) {
      assert !Astray(st, d);
      DropLosesUsed(st, step.call, d);
    }
    if DropsUsed(st, st') {
      DropsUsedLoses(st, st');
    }
  }

  lemma LostAt(states: seq<State>, n: nat)
    requires Run(states) && 0 < n < |states| && !SomeAstray(states[n - 1])
    ensures SomeAstray(states[n]) <==> DropsUsedAt(states, n)
  {
    RunKeepsLaw(states, n - 1);
    assert NextAt(states, n);
    LostStep(states[n - 1], states[n]);
  }

  /** Every stream in use stays registered up to state n exactly when, up to there, no unsubscribe drops the entry of
      a stream that was found again after it had been emptied. */
  lemma {:induction false} LostExactlyByOverlap(states: seq<State>, n: nat)
    requires Run(states) && n < |states|
    ensures (forall i :: 0 <= i <= n ==> !SomeAstray(states[i])) <==>
            (forall i :: 0 < i <= n ==> !DropsUsedAt(states, i))
  {
    if n > 0 {
      LostExactlyByOverlap(states, n - 1);
      if !SomeAstray(states[n - 1]) {
        LostAt(states, n);
      }
    }
  }

  /** So without such an overlap all of a group's calls share one stream, the registered one. */
  lemma OneStreamPerGroup(states: seq<State>, n: nat, c: nat, d: nat)
    requires Run(states) && n < |states|
    requires forall i :: 0 < i <= n ==> !DropsUsedAt(states, i)
    requires c in states[n].calls && Uses(states[n].calls[c])
    requires d in states[n].calls && Uses(states[n].calls[d])
    ensures var st := states[n];
            var s, t := st.calls[c].stream, st.calls[d].stream;
            && s < |st.groups| && t < |st.groups|
            && st.groups[s] in st.byGroup && st.byGroup[st.groups[s]] == s
            && (st.groups[s] == st.groups[t] ==> s == t)
  {
    LostExactlyByOverlap(states, n);
    assert !SomeAstray(states[n]);
    assert !Astray(states[n], c) && !Astray(states[n], d);
  }

  // ---------- two streams of one group in use ----------

  predicate UsesStreamOf(st: State, c: nat, g: string) {
    && c in st.calls && Uses(st.calls[c])
    && st.calls[c].stream < |st.groups| && st.groups[st.calls[c].stream] == g
  }

  ghost predicate TwoInUse(st: State) {
    exists g, c, d :: UsesStreamOf(st, c, g) && UsesStreamOf(st, d, g) && st.calls[c].stream != st.calls[d].stream
  }

  /** Subscribe finds no registered stream of a group one of whose streams is in use. */
  ghost predicate OpensSecond(st: State, st': State) {
    exists c, g, d ::
      Enabled(st, Find(c, g)) && st' == Apply(st, Find(c, g)) && g !in st.byGroup && UsesStreamOf(st, d, g)
  }

  ghost predicate OpensSecondAt(states: seq<State>, i: nat)
    requires 0 < i < |states|
  {
    OpensSecond(states[i - 1], states[i])
  }

  /** A used stream that is not registered leaves its group without a registered stream. */
  ghost predicate LostAlone(st: State) {
    forall c, g :: Astray(st, c) && UsesStreamOf(st, c, g) ==> g !in st.byGroup
  }

  lemma OpensSecondIsTwo(st: State, st': State)
    requires OpensSecond(st, st')
    ensures TwoInUse(st')
  {
    var c, g, d :|
      Enabled(st, Find(c, g)) && st' == Apply(st, Find(c, g)) && g !in st.byGroup && UsesStreamOf(st, d, g);
    assert UsesStreamOf(st', c, g) && UsesStreamOf(st', d, g);
  }

  lemma FindStaysOne(st: State, c: nat, g: string)
    requires StreamsLaw(st) && LostAlone(st) && !TwoInUse(st) && Enabled(st, Find(c, g))
    requires g in st.byGroup || forall d :: !UsesStreamOf(st, d, g)
    ensures LostAlone(Apply(st, Find(c, g))) && !TwoInUse(Apply(st, Find(c, g)))
  {
    var st' := Apply(st, Find(c, g));
    forall d, h | UsesStreamOf(st', d, h) && d != c ensures UsesStreamOf(st, d, h) {
    }
    forall d, h | Astray(st', d) && UsesStreamOf(st', d, h) ensures h !in st'.byGroup {
      assert d != c;
      assert Astray(st, d);
    }
    forall h, d | UsesStreamOf(st', d, h) && UsesStreamOf(st', c, h)
      ensures st'.calls[d].stream == st'.calls[c].stream
    {
      if d != c {
        assert UsesStreamOf(st, d, g);
        assert !Astray(st, d);
      }
    }
  }

  lemma OthersStayOne(st: State, step: Step)
    requires StreamsLaw(st) && LostAlone(st) && !TwoInUse(st) && Enabled(st, step) && !step.Find?
    ensures LostAlone(Apply(st, step)) && !TwoInUse(Apply(st, step))
  {
    var st' := Apply(st, step);
    forall d, h | UsesStreamOf(st', d, h)
      ensures UsesStreamOf(st, d, h) && st.calls[d].stream == st'.calls[d].stream
    {
    }
    forall d, h | Astray(st', d) && UsesStreamOf(st', d, h) ensures h !in st'.byGroup {
      assert Astray(st, d) || step.Drop?;
    }
  }

  lemma StaysOne(st: State, st': State)
    requires StreamsLaw(st) && LostAlone(st) && !TwoInUse(st) && Next(st, st') && !OpensSecond(st, st')
    ensures LostAlone(st') && !TwoInUse(st')
  {
    var step :| Enabled(st, step) && st' == Apply(st, step);
    if step.Find? {
      FindStaysOne(st, step.call, step.groupID);
    } else {
      OthersStayOne(st, step);
    }
  }

  lemma {:induction false} RunStaysOne(states: seq<State>, n: nat)
    requires Run(states) && n < |states| && forall i :: 0 < i <= n ==> !OpensSecondAt(states, i)
    ensures LostAlone(states[n]) && !TwoInUse(states[n])
  {
    if n > 0 {
      RunStaysOne(states, n - 1);
      RunKeepsLaw(states, n - 1);
      assert NextAt(states, n) && !OpensSecondAt(states, n);
      StaysOne(states[n - 1], states[n]);
    }
  }

  /** No two streams of one group are in use up to state n exactly when, up to there, no Subscribe finds its group
      without a registered stream while one of the group's streams is in use. */
  lemma OneInUseExactly(states: seq<State>, n: nat)
    requires Run(states) && n < |states|
    ensures (forall i :: 0 <= i <= n ==> !TwoInUse(states[i])) <==>
            (forall i :: 0 < i <= n ==> !OpensSecondAt(states, i))
  {
    forall i | 0 < i <= n && OpensSecondAt(states, i) ensures TwoInUse(states[i]) {
      OpensSecondIsTwo(states[i - 1], states[i]);
    }
    if forall i :: 0 < i <= n ==> !OpensSecondAt(states, i) {
      forall i | 0 <= i <= n ensures !TwoInUse(states[i]) {
        RunStaysOne(states, i);
      }
    }
  }

  // ---------- registered streams nobody has ----------

  /** A registered stream that no call uses or is about to drop. */
  ghost predicate Idle(st: State, g: string) {
    g in st.byGroup && forall c :: c in st.calls && !st.calls[c].Ended? ==> st.calls[c].stream != st.byGroup[g]
  }

  ghost predicate SomeIdle(st: State) {
    exists g :: Idle(st, g)
  }

  /** A failed add ends the last call on a registered stream. */
  ghost predicate FailsLast(st: State, st': State) {
    exists c :: c in st.calls && st.calls[c].Entered? && st' == Apply(st, Fail(c)) && Registered(st, st.calls[c].stream)
      && forall d :: d in st.calls && d != c && !st.calls[d].Ended? ==> st.calls[d].stream != st.calls[c].stream
  }

  ghost predicate FailsLastAt(states: seq<State>, i: nat)
    requires 0 < i < |states|
  {
    FailsLast(states[i - 1], states[i])
  }

  /** After a removal somebody is still on the stream, or its entry is about to be dropped. */
  lemma RemoveLeavesSomebody(st: State, c: nat)
    requires Enabled(st, Remove(c))
    ensures var st' := Apply(st, Remove(c));
            exists d :: d in st'.calls && !st'.calls[d].Ended? && st'.calls[d].stream == st.calls[c].stream
  {
    var st' := Apply(st, Remove(c));
    if OthersEntered(st, st.calls[c].stream, c) {
      var d :| d in st.calls && d != c && st.calls[d] == Entered(st.calls[c].stream);
      assert st'.calls[d] == st.calls[d];
    } else {
      assert st'.calls[c].Emptied?;
    }
  }

  /** Only a step that ends a call can leave a stream idle, and only a call on that stream. */
  lemma IdleFrom(st: State, step: Step, g: string)
    requires StreamsLaw(st) && Enabled(st, step) && !SomeIdle(st) && Idle(Apply(st, step), g)
    ensures step.Fail? && g in st.byGroup && st.calls[step.call].stream == st.byGroup[g]
  {
    var st' := Apply(st, step);
    assert step.Find? ==> st'.calls[step.call].Found?;
    assert g in st.byGroup;
    assert !Idle(st, g);
    var c :| c in st.calls && !st.calls[c].Ended? && st.calls[c].stream == st.byGroup[g];
    assert c in st'.calls;
    if step.Remove? {
      RemoveLeavesSomebody(st, step.call);
    }
  }

  lemma IdleWasLast(st: State, step: Step, g: string)
    requires StreamsLaw(st) && Enabled(st, step) && !SomeIdle(st) && Idle(Apply(st, step), g)
    ensures FailsLast(st, Apply(st, step))
  {
    var st' := Apply(st, step);
    IdleFrom(st, step, g);
    var c := step.call;
    forall d | d in st.calls && d != c && !st.calls[d].Ended? ensures st.calls[d].stream != st.calls[c].stream {
      assert d in st'.calls;
    }
  }

  lemma LastFailsIdle(st: State, st': State)
    requires StreamsLaw(st) && FailsLast(st, st')
    ensures SomeIdle(st')
  {
    var c :| c in st.calls && st.calls[c].Entered? && st' == Apply(st, Fail(c)) && Registered(st, st.calls[c].stream)
      && forall d :: d in st.calls && d != c && !st.calls[d].Ended? ==> st.calls[d].stream != st.calls[c].stream;
    assert Idle(st', st.groups[st.calls[c].stream]);
  }

  lemma IdleStep(st: State, st': State)
    requires StreamsLaw(st) && Next(st, st') && !SomeIdle(st)
    ensures SomeIdle(st') <==> FailsLast(st, st')
  {
    if g :| Idle(st', g) {
      var step :| Enabled(st, step) && st' == Apply(st, step);
      IdleWasLast(st, step, g);
    }
    if FailsLast(st, st') {
      LastFailsIdle(st, st');
    }
  }

  lemma IdleAt(states: seq<State>, n: nat)
    requires Run(states) && 0 < n < |states| && !SomeIdle(states[n - 1])
    ensures SomeIdle(states[n]) <==> FailsLastAt(states, n)
  {
    RunKeepsLaw(states, n - 1);
    assert NextAt(states, n);
    IdleStep(states[n - 1], states[n]);
  }

  /** The registry holds no stream that nobody has exactly when no failed add was the last call on its stream; so
      without such a failure, once every call has ended the registry is empty. */
  lemma {:induction false} IdleExactlyByFailedAdd(states: seq<State>, n: nat)
    requires Run(states) && n < |states|
    ensures (forall i :: 0 <= i <= n ==> !SomeIdle(states[i])) <==>
            (forall i :: 0 < i <= n ==> !FailsLastAt(states, i))
    ensures (forall i :: 0 < i <= n ==> !FailsLastAt(states, i))
            && (forall c :: c in states[n].calls ==> states[n].calls[c].Ended?)
            ==> states[n].byGroup == map[]
  {
    if n > 0 {
      IdleExactlyByFailedAdd(states, n - 1);
      if !SomeIdle(states[n - 1]) {
        IdleAt(states, n);
      }
    }
    if !SomeIdle(states[n]) && forall c :: c in states[n].calls ==> states[n].calls[c].Ended? {
      if g :| g in states[n].byGroup {
        assert Idle(states[n], g);
        assert false;
      }
    }
  }

  // ---------- the overlap happens ----------

  lemma RunExtends(states: seq<State>, step: Step)
    requires Run(states) && Enabled(states[|states| - 1], step)
    ensures Run(states + [Apply(states[|states| - 1], step)])
  {
    var longer := states + [Apply(states[|states| - 1], step)];
    forall i | 0 < i < |longer| ensures NextAt(longer, i) {
      if i < |states| {
        assert NextAt(states, i);
      }
    }
  }

  lemma Extend(states: seq<State>, step: Step) returns (longer: seq<State>)
    requires Run(states) && Enabled(states[|states| - 1], step)
    ensures Run(longer) && longer[|longer| - 1] == Apply(states[|states| - 1], step)
  {
    RunExtends(states, step);
    longer := states + [Apply(states[|states| - 1], step)];
  }

  /** A failed add leaves its stream registered with nobody on it. */
  lemma FailedAddLeavesIdle(g: string) returns (states: seq<State>)
    ensures Run(states)
    ensures var st := states[|states| - 1];
            st.calls == map[0 := Ended] && st.byGroup == map[g := 0] && SomeIdle(st)
  {
    states := [INITIAL];
    states := Extend(states, Find(0, g));
    states := Extend(states, Enter(0));
    states := Extend(states, Fail(0));
    assert Idle(states[|states| - 1], g);
  }

  /** A second subscriber finds the stream between the first one's emptying and dropping it, and a third gets another
      stream: two streams of one group are in use at once. */
  lemma TwoStreamsOfOneGroup(g: string) returns (states: seq<State>)
    ensures Run(states)
    ensures var st := states[|states| - 1];
            st.calls == map[0 := Ended, 1 := Entered(0), 2 := Entered(1)] && st.groups == [g, g]
              && st.byGroup == map[g := 1] && TwoInUse(st)
  {
    states := [INITIAL];
    states := Extend(states, Find(0, g));
    states := Extend(states, Enter(0));
    assert states[|states| - 1] == State(map[g := 0], [g], map[0 := Entered(0)]);
    states := Extend(states, Remove(0));
    states := Extend(states, Find(1, g));
    assert states[|states| - 1] == State(map[g := 0], [g], map[0 := Emptied(0), 1 := Found(0)]);
    states := Extend(states, Enter(1));
    states := Extend(states, Drop(0));
    assert states[|states| - 1] == State(map[], [g], map[0 := Ended, 1 := Entered(0)]);
    states := Extend(states, Find(2, g));
    states := Extend(states, Enter(2));
    assert UsesStreamOf(states[|states| - 1], 1, g) && UsesStreamOf(states[|states| - 1], 2, g);
  }
}
