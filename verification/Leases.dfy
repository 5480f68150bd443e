/** One SSE stream per user: the lease registry, and every interleaving of /events handlers with disconnect requests. */
module Leases {
  import opened Options

  /** A lease: the stream id the handler made from the clock, and whose context its cancel function ends. */
  datatype Lease = Lease(id: string, handler: nat)

  function Replaced(byUser: map<string, Lease>, user: string, lease: Lease): map<string, Lease> {
    byUser[user := lease]
  }

  function Cancelled(byUser: map<string, Lease>, user: string): map<string, Lease> {
    byUser - {user}
  }

  function Released(byUser: map<string, Lease>, user: string, id: string): map<string, Lease> {
    if user in byUser && byUser[user].id == id then byUser - {user} else byUser
  }

  class UserStreamRegistry {
    var byUser: map<string, Lease>

    constructor ()
      ensures byUser == map[]
    {
      byUser := map[];
    }

    method Replace(user: string, lease: Lease) returns (previous: Option<Lease>)
      modifies this
      ensures byUser == Replaced(old(byUser), user, lease)
      ensures user in byUser && byUser[user] == lease
      ensures forall u :: u != user ==> Lookup(byUser, u) == Lookup(old(byUser), u)
      ensures previous == Lookup(old(byUser), user)
    {
      previous := None;
      if user in byUser {
        previous := Some(byUser[user]);
      }
      byUser := byUser[user := lease];
    }

    method Release(user: string, id: string)
      modifies this
      ensures byUser == Released(old(byUser), user, id)
      ensures !(user in byUser && byUser[user].id == id)
      ensures forall u :: u in old(byUser) && (u != user || old(byUser)[u].id != id) ==>
                u in byUser && byUser[u] == old(byUser)[u]
    {
      if user !in byUser {
        return;
      }
      if byUser[user].id != id {
        return;
      }
      byUser := byUser - {user};
    }

    /** The lease is taken out under the lock; its cancel function runs after. */
    method Cancel(user: string) returns (lease: Option<Lease>)
      modifies this
      ensures lease == Lookup(old(byUser), user)
      ensures byUser == Cancelled(old(byUser), user)
      ensures user !in byUser
      ensures forall u :: u != user ==> Lookup(byUser, u) == Lookup(old(byUser), u)
    {
      lease := None;
      if user in byUser {
        lease := Some(byUser[user]);
        byUser := byUser - {user};
      }
    }
  }

  // ---------- handlers ----------

  /** Where an /events handler is. Its deferred calls run in the order cancelStream, Release. */
  datatype Pc = Replacing(previous: Option<nat>) | Open | Closing | Closed

  datatype Handler = Handler(user: string, id: string, pc: Pc)

  datatype State = State(
    byUser: map<string, Lease>,
    handlers: map<nat, Handler>,
    cancelled: set<nat>,   // handlers whose stream context has ended
    pending: set<nat>)     // taken out by Cancel, their cancel function not yet called

  datatype Step =
    | OpenStream(h: nat, user: string, id: string)
    | CancelPrevious(h: nat)
    | ContextEnds(h: nat)      // the client goes away
    | CloseStream(h: nat)      // cancelStream, the first deferred call
    | ReleaseLease(h: nat)     // Release, the last deferred call
    | Disconnect(user: string) // Cancel's region
    | CancelPending(h: nat)    // Cancel's call of the taken lease's cancel function

  const INITIAL := State(map[], map[], {}, {})

  predicate Enabled(st: State, step: Step) {
    match step
    case OpenStream(h, _, _) => h !in st.handlers
    case CancelPrevious(h) => h in st.handlers && st.handlers[h].pc.Replacing?
    case ContextEnds(h) => h in st.handlers
    case CloseStream(h) => h in st.handlers && st.handlers[h].pc.Open?
    case ReleaseLease(h) => h in st.handlers && st.handlers[h].pc.Closing?
    case Disconnect(_) => true
    case CancelPending(h) => h in st.pending
  }

  function Apply(st: State, step: Step): State
    requires Enabled(st, step)
  {
    match step
    case OpenStream(h, user, id) =>
      var previous := Lookup(st.byUser, user);
      var pc := Replacing(if previous.Some? then Some(previous.value.handler) else None);
      st.(byUser := Replaced(st.byUser, user, Lease(id, h)), handlers := st.handlers[h := Handler(user, id, pc)])
    case CancelPrevious(h) =>
      var previous := st.handlers[h].pc.previous;
      st.(cancelled := if previous.Some? then st.cancelled + {previous.value} else st.cancelled,
          handlers := st.handlers[h := st.handlers[h].(pc := Open)])
    case ContextEnds(h) => st.(cancelled := st.cancelled + {h})
    case CloseStream(h) =>
      st.(cancelled := st.cancelled + {h}, handlers := st.handlers[h := st.handlers[h].(pc := Closing)])
    case ReleaseLease(h) =>
      st.(byUser := Released(st.byUser, st.handlers[h].user, st.handlers[h].id),
          handlers := st.handlers[h := st.handlers[h].(pc := Closed)])
    case Disconnect(user) =>
      var lease := Lookup(st.byUser, user);
      st.(byUser := Cancelled(st.byUser, user),
          pending := if lease.Some? then st.pending + {lease.value.handler} else st.pending)
    case CancelPending(h) => st.(cancelled := st.cancelled + {h}, pending := st.pending - {h})
  }

  ghost predicate Next(st: State, st': State) {
    exists step :: Enabled(st, step) && st' == Apply(st, step)
  }

  ghost predicate NextAt(states: seq<State>, i: nat)
    requires 0 < i < |states|
  {
    Next(states[i - 1], states[i])
  }

  ghost predicate Run(states: seq<State>) {
    && states != []
    && states[0] == INITIAL
    && forall i :: 0 < i < |states| ==> NextAt(states, i)
  }

  /** A handler's cancellation is on its way: a newer handler or a disconnect request is about to call it. */
  ghost predicate CancelPendingFor(st: State, h: nat) {
    || h in st.pending
    || exists g :: g in st.handlers && st.handlers[g].pc == Replacing(Some(h))
  }

  predicate Current(st: State, h: nat) {
    h in st.handlers && st.handlers[h].user in st.byUser && st.byUser[st.handlers[h].user].handler == h
  }

  // ---------- what every run keeps, distinct ids or not ----------

  /** Each lease names a handler of its user and id, and a handler that closes has cancelled its stream. */
  ghost predicate NamesLaw(st: State) {
    && (forall u :: u in st.byUser ==>
          var h := st.byUser[u].handler;
          h in st.handlers && st.handlers[h].user == u && st.handlers[h].id == st.byUser[u].id)
    && (forall h :: h in st.handlers && (st.handlers[h].pc.Closing? || st.handlers[h].pc.Closed?) ==> h in st.cancelled)
  }

  lemma NamesLawKept(st: State, step: Step)
    requires NamesLaw(st) && Enabled(st, step)
    ensures NamesLaw(Apply(st, step))
  {
  }

  lemma {:induction false} RunKeepsNames(states: seq<State>, i: nat)
    requires Run(states) && i < |states|
    ensures NamesLaw(states[i])
  {
    if i > 0 {
      RunKeepsNames(states, i - 1);
      assert NextAt(states, i);
      var step :| Enabled(states[i - 1], step) && states[i] == Apply(states[i - 1], step);
      NamesLawKept(states[i - 1], step);
    }
  }

  /** A handler's release removes a lease that is current exactly when the lease is of the same user and carries the
      same id. */
  lemma ReleaseRemovesExactlySameID(states: seq<State>, i: nat, h: nat, g: nat)
    requires Run(states) && i < |states|
    requires Enabled(states[i], ReleaseLease(h)) && Current(states[i], g)
    ensures !Current(Apply(states[i], ReleaseLease(h)), g) <==>
            var hs := states[i].handlers; hs[g].user == hs[h].user && hs[g].id == hs[h].id
  {
    RunKeepsNames(states, i);
  }

  /** Every lease is of a handler that has yet to release it. */
  ghost predicate LeasesOpen(st: State) {
    forall u :: u in st.byUser ==>
      var h := st.byUser[u].handler; h in st.handlers && !st.handlers[h].pc.Closed?
  }

  lemma LeasesOpenKept(st: State, step: Step)
    requires NamesLaw(st) && LeasesOpen(st) && Enabled(st, step)
    ensures LeasesOpen(Apply(st, step))
  {
  }

  /** In every run the registry keeps no lease of a handler that has ended; so once all have, it is empty. */
  lemma {:induction false} NoLeaseOutlivesItsHandler(states: seq<State>, i: nat)
    requires Run(states) && i < |states|
    ensures forall u :: u in states[i].byUser ==>
              var h := states[i].byUser[u].handler; h in states[i].handlers && !states[i].handlers[h].pc.Closed?
    ensures (forall h :: h in states[i].handlers ==> states[i].handlers[h].pc.Closed?) ==> states[i].byUser == map[]
  {
    if i > 0 {
      NoLeaseOutlivesItsHandler(states, i - 1);
      RunKeepsNames(states, i - 1);
      assert NextAt(states, i);
      var step :| Enabled(states[i - 1], step) && states[i] == Apply(states[i - 1], step);
      LeasesOpenKept(states[i - 1], step);
    }
  }

  /** A handler can always take its next step; a client can go and a disconnect request can come at any time. */
  lemma HandlersCanStep(st: State, h: nat, user: string, id: string)
    ensures Enabled(st, OpenStream(h, user, id)) <==> h !in st.handlers
    ensures h !in st.handlers ==>
              var st' := Apply(st, OpenStream(h, user, id));
              && h in st'.handlers && st'.handlers[h].user == user && st'.handlers[h].id == id
              && st'.byUser == st.byUser[user := Lease(id, h)]
    ensures Enabled(st, ContextEnds(h)) <==> h in st.handlers
    ensures h in st.handlers ==> Apply(st, ContextEnds(h)) == st.(cancelled := st.cancelled + {h})
    ensures h in st.handlers ==>
              && (st.handlers[h].pc.Replacing? ==>
                    Enabled(st, CancelPrevious(h)) && Apply(st, CancelPrevious(h)).handlers[h].pc.Open?)
              && (st.handlers[h].pc.Open? ==>
                    Enabled(st, CloseStream(h)) && Apply(st, CloseStream(h)).handlers[h].pc.Closing?)
              && (st.handlers[h].pc.Closing? ==>
                    Enabled(st, ReleaseLease(h)) && Apply(st, ReleaseLease(h)).handlers[h].pc.Closed?)
    ensures Enabled(st, Disconnect(user)) && user !in Apply(st, Disconnect(user)).byUser
    ensures user in st.byUser ==> st.byUser[user].handler in Apply(st, Disconnect(user)).pending
    ensures h in st.pending ==> Enabled(st, CancelPending(h)) && h in Apply(st, CancelPending(h)).cancelled
  {
  }

  /** An opened stream that nobody will cancel any more: not cancelled, not its user's lease, no cancellation on its
      way. */
  ghost predicate Stranded(st: State, h: nat) {
    h in st.handlers && h !in st.cancelled && !Current(st, h) && !CancelPendingFor(st, h)
  }

  ghost predicate SomeStranded(st: State) {
    exists h :: Stranded(st, h)
  }

  /** A handler's release takes another's live lease away, because both have one user and one id. */
  ghost predicate Steals(st: State, st': State) {
    exists h, g :: Enabled(st, ReleaseLease(h)) && st' == Apply(st, ReleaseLease(h)) && IsStolen(st, h, g)
  }

  ghost predicate IsStolen(st: State, h: nat, g: nat)
    requires h in st.handlers
  {
    && g != h && Current(st, g) && st.handlers[g].user == st.handlers[h].user && st.handlers[g].id == st.handlers[h].id
    && g !in st.cancelled && !CancelPendingFor(st, g)
  }

  ghost predicate StealsAt(states: seq<State>, i: nat)
    requires 0 < i < |states|
  {
    Steals(states[i - 1], states[i])
  }

  lemma StillPending(st: State, step: Step, h: nat)
    requires Enabled(st, step) && CancelPendingFor(st, h)
    ensures h in Apply(st, step).cancelled || CancelPendingFor(Apply(st, step), h)
  {
    var st' := Apply(st, step);
    if h !in st.pending {
      var g :| g in st.handlers && st.handlers[g].pc == Replacing(Some(h));
      assert g in st'.handlers;
      assert st'.handlers[g].pc == Replacing(Some(h)) || h in st'.cancelled;
    }
  }

  /** Every step but a release leaves a lease current, or its stream cancelled or about to be. */
  lemma OnlyReleaseStrands(st: State, step: Step, h: nat)
    requires NamesLaw(st) && Enabled(st, step) && Current(st, h) && !step.ReleaseLease?
    ensures !Stranded(Apply(st, step), h)
  {
    var st' := Apply(st, step);
    if step.OpenStream? && step.user == st.handlers[h].user {
      assert st'.handlers[step.h].pc == Replacing(Some(h));
      assert CancelPendingFor(st', h);
    }
  }

  lemma StrandedWasStolen(st: State, step: Step, h: nat)
    requires NamesLaw(st) && Enabled(st, step) && !SomeStranded(st) && Stranded(Apply(st, step), h)
    ensures Steals(st, Apply(st, step))
  {
    assert h in st.handlers && h !in st.cancelled;
    assert !Stranded(st, h);
    if CancelPendingFor(st, h) {
      StillPending(st, step, h);
      assert false;
    }
    if !step.ReleaseLease? {
      OnlyReleaseStrands(st, step, h);
      assert false;
    }
    assert Enabled(st, ReleaseLease(step.h)) && IsStolen(st, step.h, h);
  }

  lemma StealsStrands(st: State, st': State)
    requires NamesLaw(st) && Steals(st, st')
    ensures SomeStranded(st')
  {
    var h, g :| Enabled(st, ReleaseLease(h)) && st' == Apply(st, ReleaseLease(h)) && IsStolen(st, h, g);
    assert CancelPendingFor(st', g) ==> CancelPendingFor(st, g);
    assert Stranded(st', g);
  }

  lemma StrandedAt(states: seq<State>, n: nat)
    requires Run(states) && 0 < n < |states| && !SomeStranded(states[n - 1])
    ensures SomeStranded(states[n]) <==> StealsAt(states, n)
  {
    RunKeepsNames(states, n - 1);
    assert NextAt(states, n);
    if h :| Stranded(states[n], h) {
      var step :| Enabled(states[n - 1], step) && states[n] == Apply(states[n - 1], step);
      StrandedWasStolen(states[n - 1], step, h);
    }
    if StealsAt(states, n) {
      StealsStrands(states[n - 1], states[n]);
    }
  }

  /** Up to state n, every opened stream not cancelled is its user's lease or has a cancellation on its way, exactly
      when up to there no release takes another handler's live lease of the same user and id. */
  lemma {:induction false} StrandedExactlyBySameID(states: seq<State>, n: nat)
    requires Run(states) && n < |states|
    ensures (forall i :: 0 <= i <= n ==> !SomeStranded(states[i])) <==>
            (forall i :: 0 < i <= n ==> !StealsAt(states, i))
  {
    if n > 0 {
      StrandedExactlyBySameID(states, n - 1);
      if !SomeStranded(states[n - 1]) {
        StrandedAt(states, n);
      }
    }
  }

  // ---------- with distinct stream ids ----------

  /** Two handlers of one user never have the same stream id. */
  ghost predicate DistinctIDs(st: State) {
    forall g, h | g in st.handlers && h in st.handlers ::
      st.handlers[g].user == st.handlers[h].user && st.handlers[g].id == st.handlers[h].id ==> g == h
  }

  lemma {:induction false} HandlersKeepTheirNames(states: seq<State>, i: nat, j: nat, h: nat)
    requires Run(states) && i <= j < |states| && h in states[i].handlers
    ensures h in states[j].handlers
    ensures states[j].handlers[h].user == states[i].handlers[h].user
            && states[j].handlers[h].id == states[i].handlers[h].id
  {
    if i < j {
      HandlersKeepTheirNames(states, i, j - 1, h);
      assert NextAt(states, j);
    }
  }

  lemma NothingStolen(states: seq<State>, i: nat, n: nat)
    requires Run(states) && 0 < i <= n < |states| && DistinctIDs(states[n])
    ensures !StealsAt(states, i)
  {
    var st := states[i - 1];
    if StealsAt(states, i) {
      var h, g :| Enabled(st, ReleaseLease(h)) && states[i] == Apply(st, ReleaseLease(h)) && IsStolen(st, h, g);
      HandlersKeepTheirNames(states, i - 1, n, h);
      HandlersKeepTheirNames(states, i - 1, n, g);
      assert false;
    }
  }

  /** In every interleaving with distinct stream ids an opened stream that is not cancelled is its user's lease, or its
      cancel function is about to be called. */
  lemma UncancelledIsCurrentOrPending(states: seq<State>, i: nat, h: nat)
    requires Run(states) && i < |states| && DistinctIDs(states[i])
    requires h in states[i].handlers && h !in states[i].cancelled
    ensures Current(states[i], h) || CancelPendingFor(states[i], h)
  {
    forall j | 0 < j <= i ensures !StealsAt(states, j) {
      NothingStolen(states, j, i);
    }
    StrandedExactlyBySameID(states, i);
    assert !Stranded(states[i], h);
  }

  /** So when no cancellation is on its way a user has at most one uncancelled stream. */
  lemma OneStreamPerUser(states: seq<State>, i: nat, g: nat, h: nat)
    requires Run(states) && i < |states| && DistinctIDs(states[i])
    requires g in states[i].handlers && h in states[i].handlers
            && states[i].handlers[g].user == states[i].handlers[h].user
    requires g !in states[i].cancelled && h !in states[i].cancelled
    requires !CancelPendingFor(states[i], g) && !CancelPendingFor(states[i], h)
    ensures g == h
  {
    UncancelledIsCurrentOrPending(states, i, g);
    UncancelledIsCurrentOrPending(states, i, h);
  }

  /** A handler's release, however late, leaves every other handler's lease. */
  lemma StaleReleaseIsHarmless(states: seq<State>, i: nat, h: nat, g: nat)
    requires Run(states) && i < |states| && DistinctIDs(states[i])
    requires Enabled(states[i], ReleaseLease(h)) && Current(states[i], g) && g != h
    ensures Current(Apply(states[i], ReleaseLease(h)), g)
  {
    ReleaseRemovesExactlySameID(states, i, h, g);
  }

  // ---------- when a user has two streams ----------

  /** An opened stream that nobody has cancelled or is about to. */
  ghost predicate Live(st: State, h: nat) {
    h in st.handlers && h !in st.cancelled && !CancelPendingFor(st, h)
  }

  ghost predicate TwoLive(st: State) {
    exists g, h :: Live(st, g) && Live(st, h) && g != h && st.handlers[g].user == st.handlers[h].user
  }

  /** A stream opens for a user one of whose streams is stranded. */
  ghost predicate OpensBeside(st: State, st': State) {
    exists g, h, id ::
      Stranded(st, g) && Enabled(st, OpenStream(h, st.handlers[g].user, id))
      && st' == Apply(st, OpenStream(h, st.handlers[g].user, id))
  }

  ghost predicate OpensBesideAt(states: seq<State>, i: nat)
    requires 0 < i < |states|
  {
    OpensBeside(states[i - 1], states[i])
  }

  /** Only handlers that exist are cancelled or about to be. */
  ghost predicate KnownLaw(st: State) {
    && (forall h :: h in st.cancelled || h in st.pending ==> h in st.handlers)
    && (forall g :: g in st.handlers && st.handlers[g].pc.Replacing? && st.handlers[g].pc.previous.Some? ==>
          st.handlers[g].pc.previous.value in st.handlers)
  }

  lemma KnownLawKept(st: State, step: Step)
    requires NamesLaw(st) && KnownLaw(st) && Enabled(st, step)
    ensures KnownLaw(Apply(st, step))
  {
  }

  lemma {:induction false} RunKeepsKnown(states: seq<State>, i: nat)
    requires Run(states) && i < |states|
    ensures KnownLaw(states[i])
  {
    if i > 0 {
      RunKeepsKnown(states, i - 1);
      RunKeepsNames(states, i - 1);
      assert NextAt(states, i);
      var step :| Enabled(states[i - 1], step) && states[i] == Apply(states[i - 1], step);
      KnownLawKept(states[i - 1], step);
    }
  }

  lemma NewIsLive(st: State, h: nat, user: string, id: string)
    requires NamesLaw(st) && KnownLaw(st) && Enabled(st, OpenStream(h, user, id))
    ensures Live(Apply(st, OpenStream(h, user, id)), h)
  {
  }

  lemma StrandedStays(st: State, g: nat, h: nat, user: string, id: string)
    requires Stranded(st, g) && st.handlers[g].user == user && Enabled(st, OpenStream(h, user, id))
    ensures Live(Apply(st, OpenStream(h, user, id)), g)
  {
  }

  lemma OpensBesideIsTwo(st: State, st': State)
    requires NamesLaw(st) && KnownLaw(st) && OpensBeside(st, st')
    ensures TwoLive(st')
  {
    var g, h, id :| Stranded(st, g) && Enabled(st, OpenStream(h, st.handlers[g].user, id))
      && st' == Apply(st, OpenStream(h, st.handlers[g].user, id));
    NewIsLive(st, h, st.handlers[g].user, id);
    StrandedStays(st, g, h, st.handlers[g].user, id);
    assert Live(st', g) && Live(st', h);
  }

  /** A stream is live only if it has just been opened or was live before. */
  lemma LiveWas(st: State, step: Step, h: nat)
    requires Enabled(st, step) && Live(Apply(st, step), h)
    requires !(step.OpenStream? && step.h == h)
    ensures Live(st, h) && st.handlers[h].user == Apply(st, step).handlers[h].user
  {
    if CancelPendingFor(st, h) {
      StillPending(st, step, h);
      assert false;
    }
  }

  lemma CurrentIsReplaced(st: State, h: nat, user: string, id: string, g: nat)
    requires Current(st, g) && st.handlers[g].user == user && Enabled(st, OpenStream(h, user, id))
    ensures CancelPendingFor(Apply(st, OpenStream(h, user, id)), g)
  {
    assert Apply(st, OpenStream(h, user, id)).handlers[h].pc == Replacing(Some(g));
  }

  /** Opening a stream is about to cancel the user's lease, so what else is live of that user was stranded. */
  lemma OpenedBesideStranded(st: State, h: nat, user: string, id: string, g: nat)
    requires NamesLaw(st) && Enabled(st, OpenStream(h, user, id)) && g != h
    requires Live(Apply(st, OpenStream(h, user, id)), g) && Apply(st, OpenStream(h, user, id)).handlers[g].user == user
    ensures Stranded(st, g)
  {
    LiveWas(st, OpenStream(h, user, id), g);
    if Current(st, g) {
      CurrentIsReplaced(st, h, user, id, g);
      assert false;
    }
  }

  lemma TwoLiveWasOpened(st: State, step: Step)
    requires NamesLaw(st) && Enabled(st, step) && !TwoLive(st) && TwoLive(Apply(st, step))
    ensures OpensBeside(st, Apply(st, step))
  {
    var st' := Apply(st, step);
    var g, h :| Live(st', g) && Live(st', h) && g != h && st'.handlers[g].user == st'.handlers[h].user;
    if step.OpenStream? && step.h == h {
      OpenedBesideStranded(st, h, step.user, step.id, g);
    } else if step.OpenStream? && step.h == g {
      OpenedBesideStranded(st, g, step.user, step.id, h);
    } else {
      LiveWas(st, step, g);
      LiveWas(st, step, h);
      assert false;
    }
  }

  lemma TwoLiveStep(st: State, st': State)
    requires NamesLaw(st) && KnownLaw(st) && Next(st, st') && !TwoLive(st)
    ensures TwoLive(st') <==> OpensBeside(st, st')
  {
    if TwoLive(st') {
      var step :| Enabled(st, step) && st' == Apply(st, step);
      TwoLiveWasOpened(st, step);
    }
    if OpensBeside(st, st') {
      OpensBesideIsTwo(st, st');
    }
  }

  lemma TwoLiveAt(states: seq<State>, n: nat)
    requires Run(states) && 0 < n < |states| && !TwoLive(states[n - 1])
    ensures TwoLive(states[n]) <==> OpensBesideAt(states, n)
  {
    RunKeepsNames(states, n - 1);
    RunKeepsKnown(states, n - 1);
    assert NextAt(states, n);
    TwoLiveStep(states[n - 1], states[n]);
  }

  /** The one-stream rule, distinct ids or not: up to state n no user has two uncancelled streams without a cancellation
      on its way, exactly when up to there no stream opens for a user one of whose streams is stranded. */
  lemma {:induction false} OneStreamExactly(states: seq<State>, n: nat)
    requires Run(states) && n < |states|
    ensures (forall i :: 0 <= i <= n ==> !TwoLive(states[i])) <==>
            (forall i :: 0 < i <= n ==> !OpensBesideAt(states, i))
  {
    if n > 0 {
      OneStreamExactly(states, n - 1);
      if !TwoLive(states[n - 1]) {
        TwoLiveAt(states, n);
      }
    }
  }

  lemma RunExtends(states: seq<State>, step: Step)
    requires Run(states) && Enabled(states[|states| - 1], step)
    ensures Run(states + [Apply(states[|states| - 1], step)])
  {
    var longer := states + [Apply(states[|states| - 1], step)];
    forall i | 0 < i < |longer| ensures NextAt(longer, i) {
      if i < |states| {
        assert NextAt(states, i);
      }
    }
  }

  lemma Extend(states: seq<State>, step: Step) returns (longer: seq<State>)
    requires Run(states) && Enabled(states[|states| - 1], step)
    ensures Run(longer) && longer[|longer| - 1] == Apply(states[|states| - 1], step)
  {
    RunExtends(states, step);
    longer := states + [Apply(states[|states| - 1], step)];
  }

  /** With one id twice, a closing stream takes the newer lease away, and a third stream then opens beside the second:
      one user, two uncancelled streams, no cancellation on its way. */
  lemma SameIDBreaksTheLaw() returns (states: seq<State>)
    ensures Run(states)
    ensures var st := states[|states| - 1];
            && 1 in st.handlers && 2 in st.handlers && st.handlers[1].user == st.handlers[2].user
            && 1 !in st.cancelled && 2 !in st.cancelled
            && !CancelPendingFor(st, 1) && !CancelPendingFor(st, 2) && TwoLive(st)
  {
    states := [INITIAL];
    states := Extend(states, OpenStream(0, "u", "x"));
    states := Extend(states, CancelPrevious(0));
    states := Extend(states, OpenStream(1, "u", "x"));
    states := Extend(states, CancelPrevious(1));
    states := Extend(states, CloseStream(0));
    states := Extend(states, ReleaseLease(0));
    assert states[|states| - 1] ==
           State(map[], map[0 := Handler("u", "x", Closed), 1 := Handler("u", "x", Open)], {0}, {});
    states := Extend(states, OpenStream(2, "u", "y"));
    states := Extend(states, CancelPrevious(2));
    assert Live(states[|states| - 1], 1) && Live(states[|states| - 1], 2);
  }
}
