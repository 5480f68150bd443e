/** One SSE fan-out stream: the fields its mutex guards, and every region that runs under the mutex. */
module GroupStreams {
  import opened Options
  import opened Text
  import opened Channels

  /** The guarded fields. Subscriptions and timers are handles; `C` is what stands for a subscriber's channel. */
  datatype Fields<C> = Fields(
    sub: Option<nat>,
    subscribers: map<string, C>,
    nextID: nat,
    pendingSeq: nat,
    refreshTimer: Option<nat>)

  function Empty<C>(): Fields<C> {
    Fields(None, map[], 0, 0, None)
  }

  function SubscriberKey(groupID: string, n: nat): string {
    groupID + "-" + Decimal(n)
  }

  function Register<C>(f: Fields<C>, groupID: string, channel: C): Fields<C> {
    var id := f.nextID + 1;
    f.(nextID := id, subscribers := f.subscribers[SubscriberKey(groupID, id) := channel])
  }

  function Forget<C>(f: Fields<C>, key: string): Fields<C> {
    f.(subscribers := f.subscribers - {key})
  }

  function Install<C>(f: Fields<C>, sub: nat): Fields<C> {
    if f.sub.Some? then f else f.(sub := Some(sub))
  }

  predicate IsLast<C>(f: Fields<C>, key: string) {
    f.subscribers.Keys <= {key}
  }

  function Leave<C>(f: Fields<C>, key: string): Fields<C> {
    if IsLast(f, key)
    then f.(subscribers := f.subscribers - {key}, sub := None, refreshTimer := None, pendingSeq := 0)
    else Forget(f, key)
  }

  function Note<C>(f: Fields<C>, seqNo: nat, newTimer: nat): Fields<C> {
    f.(pendingSeq := if seqNo > f.pendingSeq then seqNo else f.pendingSeq,
       refreshTimer := if f.refreshTimer.None? then Some(newTimer) else f.refreshTimer)
  }

  function Take<C>(f: Fields<C>): Fields<C> {
    f.(pendingSeq := 0, refreshTimer := None)
  }

  /** Subscriber keys are the numbers handed out so far, so the next one is new. */
  ghost predicate Numbered<C>(f: Fields<C>, groupID: string) {
    forall k :: k in f.subscribers ==> exists n :: 1 <= n <= f.nextID && k == SubscriberKey(groupID, n)
  }

  lemma NextKeyIsNew<C>(f: Fields<C>, groupID: string)
    requires Numbered(f, groupID)
    ensures SubscriberKey(groupID, f.nextID + 1) !in f.subscribers
  {
    var key := SubscriberKey(groupID, f.nextID + 1);
    if key in f.subscribers {
      var n :| 1 <= n <= f.nextID && key == SubscriberKey(groupID, n);
      NumberedNamesDiffer(groupID + "-", n, f.nextID + 1);
      assert false;
    }
  }

  lemma LastLeaves<C>(subscribers: map<string, C>, key: string)
    ensures |subscribers - {key}| == 0 <==> subscribers.Keys <= {key}
    ensures |subscribers - {key}| == 0 <==> subscribers - {key} == map[]
  {
    var rest := subscribers - {key};
    assert rest.Keys == subscribers.Keys - {key};
    assert |rest| == |rest.Keys|;
  }

  class GroupStream<M> {
    const groupID: string
    var sub: Option<nat>
    var subscribers: map<string, Channel<M>>
    var nextID: nat
    var pendingSeq: nat
    var refreshTimer: Option<nat>

    ghost function State(): Fields<Channel<M>>
      reads this
    {
      Fields(sub, subscribers, nextID, pendingSeq, refreshTimer)
    }

    /** Subscriber keys are the numbers handed out so far, and no two subscribers share a channel. */
    ghost predicate Valid()
      reads this
    {
      && Numbered(State(), groupID)
      && forall j, k :: j in subscribers && k in subscribers && subscribers[j] == subscribers[k] ==> j == k
    }

    constructor (groupID: string)
      ensures Valid() && this.groupID == groupID && State() == Empty()
    {
      this.groupID := groupID;
      sub, subscribers, nextID, pendingSeq, refreshTimer := None, map[], 0, 0, None;
    }

    /** addSubscriber, first region: a new key and an empty channel. */
    method RegisterSubscriber() returns (key: string, channel: Channel<M>)
      requires Valid()
      modifies this
      ensures Valid() && fresh(channel) && channel.Past() == DoAll([])
      ensures State() == Register(old(State()), groupID, channel)
      ensures key !in old(subscribers) && key in subscribers && subscribers[key] == channel
      ensures forall k :: k in old(subscribers) ==> k in subscribers && subscribers[k] == old(subscribers)[k]
    {
      channel := new Channel();
      NextKeyIsNew(State(), groupID);
      nextID := nextID + 1;
      key := SubscriberKey(groupID, nextID);
      subscribers := subscribers[key := channel];
    }

    /** addSubscriber, error region: the caller's own entry goes, everything else stays. */
    method ForgetSubscriber(key: string)
      requires Valid()
      modifies this
      ensures Valid() && State() == Forget(old(State()), key)
    {
      subscribers := subscribers - {key};
    }

    /** ensureSubscription, second region: false when another call installed a subscription first. */
    method InstallSubscription(created: nat) returns (installed: bool)
      requires Valid()
      modifies this
      ensures Valid() && State() == Install(old(State()), created)
      ensures installed <==> old(sub).None?
      ensures sub.Some?
    {
      if sub.Some? {
        return false;
      }
      sub := Some(created);
      return true;
    }

    /** removeSubscriber's region: the last one out takes the subscription and the timer along. */
    method RemoveSubscriber(key: string) returns (shouldStop: bool, oldSub: Option<nat>, oldTimer: Option<nat>)
      requires Valid()
      modifies this
      ensures Valid() && State() == Leave(old(State()), key)
      ensures shouldStop <==> subscribers == map[]
      ensures oldSub == (if shouldStop then old(sub) else None)
      ensures oldTimer == (if shouldStop then old(refreshTimer) else None)
    {
      LastLeaves(subscribers, key);
      subscribers := subscribers - {key};
      shouldStop, oldSub, oldTimer := false, None, None;
      if |subscribers| == 0 {
        shouldStop, oldSub, oldTimer := true, sub, refreshTimer;
        sub, refreshTimer, pendingSeq := None, None, 0;
      }
    }

    /** scheduleSnapshot's region: `newTimer` is the handle of the timer AfterFunc makes when there is none. */
    method ScheduleSnapshot(seqNo: nat, newTimer: nat) returns (timer: nat)
      requires Valid()
      modifies this
      ensures Valid() && State() == Note(old(State()), seqNo, newTimer)
      ensures refreshTimer == Some(timer)
    {
      if seqNo > pendingSeq {
        pendingSeq := seqNo;
      }
      if refreshTimer.None? {
        refreshTimer := Some(newTimer);
      }
      timer := refreshTimer.value;
    }

    /** runSnapshotRefresh's region. */
    method TakeSnapshotTarget() returns (targetSeq: nat, hasSubscribers: bool)
      requires Valid()
      modifies this
      ensures Valid() && State() == Take(old(State()))
      ensures targetSeq == old(pendingSeq)
      ensures hasSubscribers <==> subscribers != map[]
    {
      targetSeq := pendingSeq;
      pendingSeq := 0;
      refreshTimer := None;
      hasSubscribers := |subscribers| > 0;
    }

    /** broadcast's region: the registered channels, each once, in whatever order the map is walked. */
    method SnapshotSubscribers() returns (channels: seq<Channel<M>>)
      requires Valid()
      ensures forall c :: c in channels <==> c in subscribers.Values
      ensures Distinct(channels)
    {
      channels := [];
      var todo := subscribers.Keys;
      while todo != {}
        invariant todo <= subscribers.Keys
        invariant forall c :: c in channels <==> exists k :: k in subscribers && k !in todo && subscribers[k] == c
        invariant Distinct(channels)
        decreases todo
      {
        var key :| key in todo;
        assert subscribers[key] !in channels;
        channels := channels + [subscribers[key]];
        todo := todo - {key};
      }
    }

    /** broadcast with nothing in between: every registered channel is offered the message exactly once. */
    method Broadcast(message: M)
      requires Valid()
      modifies subscribers.Values
      ensures Valid()
      ensures forall k :: k in subscribers ==> subscribers[k].Past() == Do(old(subscribers[k].Past()), Offer(message))
    {
      var channels := SnapshotSubscribers();
      SendAll(channels, message);
    }
  }

  ghost predicate Distinct<T>(s: seq<T>) {
    forall i, j :: 0 <= i < j < |s| ==> s[i] != s[j]
  }

  /** broadcast after its region: one send for each channel of the snapshot, in order. */
  method SendAll<M>(channels: seq<Channel<M>>, message: M)
    requires Distinct(channels)
    modifies set c | c in channels
    ensures forall c :: c in channels ==> c.Past() == Do(old(c.Past()), Offer(message))
  {
    var n := 0;
    while n < |channels|
      invariant 0 <= n <= |channels|
      invariant forall i :: 0 <= i < n ==> channels[i].Past() == Do(old(channels[i].Past()), Offer(message))
      invariant forall i :: n <= i < |channels| ==> channels[i].Past() == old(channels[i].Past())
    {
      channels[n].TrySend(message);
      n := n + 1;
    }
  }
}
