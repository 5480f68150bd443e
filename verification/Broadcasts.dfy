/** Every interleaving of broadcasts on one fan-out stream with joins, leaves and reads: broadcast takes its snapshot
    under the mutex and sends after releasing it, one channel at a time. */
module Broadcasts {
  import opened Options
  import opened Channels
  import opened GroupStreams

  /** A broadcast under way: the channels registered at its snapshot, and those still to be sent to. */
  datatype Sending = Sending(to: set<nat>, left: set<nat>)

  datatype Message = Message(broadcast: nat)

  /** A subscriber's channel is named by its call's number; `channels` keeps every channel ever made and what has
      happened on it. */
  datatype State = State(
    groupID: string,
    fields: Fields<nat>,
    channels: map<nat, seq<Op<Message>>>,
    sending: map<nat, Sending>)

  datatype Step =
    | Join(call: nat) | Unregister(key: string) | Depart(key: string)
    | Snapshot(broadcast: nat) | Send(broadcast: nat, call: nat) | Read(call: nat)

  function Initial(groupID: string): State {
    State(groupID, Empty(), map[], map[])
  }

  predicate Enabled(st: State, step: Step) {
    match step
    case Join(c) => c !in st.channels
    case Unregister(_) => true
    case Depart(_) => true
    case Snapshot(b) => b !in st.sending
    case Send(b, c) => b in st.sending && c in st.sending[b].left && c in st.channels
    case Read(c) => c in st.channels
  }

  function Apply(st: State, step: Step): State
    requires Enabled(st, step)
  {
    match step
    case Join(c) => st.(fields := Register(st.fields, st.groupID, c), channels := st.channels[c := []])
    case Unregister(key) => st.(fields := Forget(st.fields, key))
    case Depart(key) => st.(fields := Leave(st.fields, key))
    case Snapshot(b) =>
      var to := st.fields.subscribers.Values;
      st.(sending := st.sending[b := Sending(to, to)])
    case Send(b, c) =>
      st.(channels := st.channels[c := st.channels[c] + [Offer(Message(b))]],
          sending := st.sending[b := st.sending[b].(left := st.sending[b].left - {c})])
    case Read(c) => st.(channels := st.channels[c := st.channels[c] + [Receive]])
  }

  ghost predicate Next(st: State, st': State) {
    exists step :: Enabled(st, step) && st' == Apply(st, step)
  }

  ghost predicate NextAt(states: seq<State>, i: nat)
    requires 0 < i < |states|
  {
    Next(states[i - 1], states[i])
  }

  ghost predicate Run(states: seq<State>) {
    && states != []
    && states[0] == Initial(states[0].groupID)
    && forall i :: 0 < i < |states| ==> NextAt(states, i)
  }

  /** The broadcast has sent to this channel. */
  predicate SentTo(st: State, b: nat, c: nat) {
    b in st.sending && c in st.sending[b].to && c !in st.sending[b].left
  }

  /** How often a channel was offered a broadcast's message. */
  function Offered(st: State, b: nat, c: nat): nat
    requires c in st.channels
  {
    multiset(Offers(st.channels[c]))[Message(b)]
  }

  ghost predicate ChannelsLaw(st: State) {
    && (forall k :: k in st.fields.subscribers ==> st.fields.subscribers[k] in st.channels)
    && (forall b :: b in st.sending ==> st.sending[b].left <= st.sending[b].to <= st.channels.Keys)
  }

  ghost predicate OnceLaw(st: State) {
    forall b: nat, c :: c in st.channels ==> Offered(st, b, c) == if SentTo(st, b, c) then 1 else 0
  }

  lemma ChannelsLawKept(st: State, step: Step)
    requires ChannelsLaw(st) && Enabled(st, step)
    ensures ChannelsLaw(Apply(st, step))
  {
  }

  lemma OffersAppend(ops: seq<Op<Message>>, op: Op<Message>)
    ensures Offers(ops + [op]) == Offers(ops) + (match op case Offer(m) => [m] case Receive => [])
  {
    assert (ops + [op])[..|ops|] == ops;
  }

  lemma OfferCounts(ops: seq<Op<Message>>, op: Op<Message>, m: Message)
    ensures multiset(Offers(ops + [op]))[m] == multiset(Offers(ops))[m] + if op == Offer(m) then 1 else 0
  {
    OffersAppend(ops, op);
  }

  lemma OnceAfterRead(st: State, r: nat, b: nat, c: nat)
    requires OnceLaw(st) && Enabled(st, Read(r)) && c in st.channels
    ensures Offered(Apply(st, Read(r)), b, c) == if SentTo(Apply(st, Read(r)), b, c) then 1 else 0
  {
    assert Offered(st, b, c) == if SentTo(st, b, c) then 1 else 0;
    OfferCounts(st.channels[r], Receive, Message(b));
  }

  lemma OnceAfterSend(st: State, sender: nat, r: nat, b: nat, c: nat)
    requires ChannelsLaw(st) && OnceLaw(st) && Enabled(st, Send(sender, r)) && c in st.channels
    ensures Offered(Apply(st, Send(sender, r)), b, c) == if SentTo(Apply(st, Send(sender, r)), b, c) then 1 else 0
  {
    assert Offered(st, b, c) == if SentTo(st, b, c) then 1 else 0;
    OfferCounts(st.channels[r], Offer(Message(sender)), Message(b));
  }

  lemma OnceAfterOther(st: State, step: Step, b: nat, c: nat)
    requires ChannelsLaw(st) && OnceLaw(st) && Enabled(st, step) && !step.Read? && !step.Send?
    requires c in Apply(st, step).channels
    ensures Offered(Apply(st, step), b, c) == if SentTo(Apply(st, step), b, c) then 1 else 0
  {
    if c in st.channels {
      assert Offered(st, b, c) == if SentTo(st, b, c) then 1 else 0;
    }
  }

  lemma OnceKept(st: State, step: Step, b: nat, c: nat)
    requires ChannelsLaw(st) && OnceLaw(st) && Enabled(st, step) && c in Apply(st, step).channels
    ensures Offered(Apply(st, step), b, c) == if SentTo(Apply(st, step), b, c) then 1 else 0
  {
    match step
    case Read(r) => OnceAfterRead(st, r, b, c);
    case Send(sender, r) => OnceAfterSend(st, sender, r, b, c);
    case _ => OnceAfterOther(st, step, b, c);
  }

  lemma {:induction false} RunKeepsLaws(states: seq<State>, i: nat)
    requires Run(states) && i < |states|
    ensures ChannelsLaw(states[i]) && OnceLaw(states[i])
  {
    if i > 0 {
      RunKeepsLaws(states, i - 1);
      assert NextAt(states, i);
      var step :| Enabled(states[i - 1], step) && states[i] == Apply(states[i - 1], step);
      ChannelsLawKept(states[i - 1], step);
      forall b: nat, c | c in states[i].channels
        ensures Offered(states[i], b, c) == if SentTo(states[i], b, c) then 1 else 0
      {
        OnceKept(states[i - 1], step, b, c);
      }
    }
  }

  /** How often a message was received, waits or was dropped. */
  function Fates(h: History<Message>, m: Message): nat {
    multiset(h.received)[m] + multiset(h.buffered)[m] + multiset(h.dropped)[m]
  }

  lemma OfferedHasFate(ops: seq<Op<Message>>, m: Message)
    ensures multiset(DoAll(ops).offered)[m] == multiset(Offers(ops))[m] == Fates(DoAll(ops), m)
  {
    BroadcastConserves(ops);
    DropsExactlyWhenFull(ops);
  }

  // ---------- who is registered, and who a broadcast is for ----------

  lemma NumberedKept(st: State, step: Step)
    requires Numbered(st.fields, st.groupID) && Enabled(st, step)
    ensures Numbered(Apply(st, step).fields, st.groupID) && Apply(st, step).groupID == st.groupID
  {
    var f' := Apply(st, step).fields;
    forall k | k in f'.subscribers ensures exists n :: 1 <= n <= f'.nextID && k == SubscriberKey(st.groupID, n) {
      if k in st.fields.subscribers {
        var n :| 1 <= n <= st.fields.nextID && k == SubscriberKey(st.groupID, n);
      } else {
        assert k == SubscriberKey(st.groupID, f'.nextID);
      }
    }
  }

  lemma {:induction false} RunKeepsNumbers(states: seq<State>, i: nat)
    requires Run(states) && i < |states|
    ensures Numbered(states[i].fields, states[i].groupID)
  {
    if i > 0 {
      RunKeepsNumbers(states, i - 1);
      assert NextAt(states, i);
      var step :| Enabled(states[i - 1], step) && states[i] == Apply(states[i - 1], step);
      NumberedKept(states[i - 1], step);
    }
  }

  /** A join registers its channel under a new key, an unregister or a departure takes exactly its own key's away, and
      nothing else changes who is registered. */
  lemma RegisteredAfter(states: seq<State>, i: nat, step: Step)
    requires Run(states) && i < |states| && Enabled(states[i], step)
    ensures var before, after := states[i].fields.subscribers, Apply(states[i], step).fields.subscribers;
            match step
            case Join(c) => exists key :: key !in before && after == before[key := c]
            case Unregister(key) => after == before - {key}
            case Depart(key) => after == before - {key}
            case _ => after == before
  {
    RunKeepsNumbers(states, i);
    if step.Join? {
      NextKeyIsNew(states[i].fields, states[i].groupID);
    }
  }

  /** A channel can join once, a registered or waiting one can be sent to and read, and any new broadcast can begin. */
  lemma StepsCanBeTaken(states: seq<State>, i: nat, b: nat, c: nat, key: string)
    requires Run(states) && i < |states|
    ensures Enabled(states[i], Join(c)) <==> c !in states[i].channels
    ensures Enabled(states[i], Unregister(key)) && Enabled(states[i], Depart(key))
    ensures Enabled(states[i], Snapshot(b)) <==> b !in states[i].sending
    ensures Enabled(states[i], Send(b, c)) <==> b in states[i].sending && c in states[i].sending[b].left
    ensures Enabled(states[i], Read(c)) <==> c in states[i].channels
  {
    RunKeepsLaws(states, i);
  }

  /** The state before broadcast b took its snapshot. */
  ghost predicate SnapshotTaken(states: seq<State>, s: nat, b: nat) {
    0 < s < |states| && b !in states[s - 1].sending && b in states[s].sending
  }

  /** A snapshot holds exactly the channels registered when it is taken, all of them still to be sent to. */
  lemma SnapshotHoldsRegistered(states: seq<State>, s: nat, b: nat)
    requires Run(states) && SnapshotTaken(states, s, b)
    ensures var registered := states[s - 1].fields.subscribers.Values;
            states[s].sending[b].to == registered && states[s].sending[b].left == registered
  {
    assert NextAt(states, s);
  }

  lemma {:induction false} SnapshotStays(states: seq<State>, s: nat, i: nat, b: nat)
    requires Run(states) && s <= i < |states| && b in states[s].sending
    ensures b in states[i].sending && states[i].sending[b].to == states[s].sending[b].to
  {
    if s < i {
      SnapshotStays(states, s, i - 1, b);
      assert NextAt(states, i);
    }
  }

  /** In every interleaving a broadcast's message is offered at most once on a channel, and only to channels registered
      just before its snapshot; once it has nobody left to send to, to exactly these, whoever joined or left meanwhile.
      On each it was received, waits, or was dropped, once. */
  lemma OfferedExactlyOnce(states: seq<State>, s: nat, i: nat, b: nat, c: nat)
    requires Run(states) && SnapshotTaken(states, s, b) && s <= i < |states| && c in states[i].channels
    ensures b in states[i].sending
    ensures var registered := c in states[s - 1].fields.subscribers.Values;
            var h, left := DoAll(states[i].channels[c]), states[i].sending[b].left;
            && multiset(h.offered)[Message(b)] == (if registered && c !in left then 1 else 0)
            && (left == {} ==>
                  multiset(h.received)[Message(b)] + multiset(h.buffered)[Message(b)] + multiset(h.dropped)[Message(b)]
                  == if registered then 1 else 0)
  {
    SnapshotHoldsRegistered(states, s, b);
    SnapshotStays(states, s, i, b);
    RunKeepsLaws(states, i);
    OfferedHasFate(states[i].channels[c], Message(b));
    assert Offered(states[i], b, c) == if SentTo(states[i], b, c) then 1 else 0;
  }

  /** A broadcast that has not begun was offered to nobody. */
  lemma NotOfferedBefore(states: seq<State>, i: nat, b: nat, c: nat)
    requires Run(states) && i < |states| && b !in states[i].sending && c in states[i].channels
    ensures Message(b) !in DoAll(states[i].channels[c]).offered
  {
    RunKeepsLaws(states, i);
    OfferedHasFate(states[i].channels[c], Message(b));
    assert Offered(states[i], b, c) == 0;
    CountIsPresence(DoAll(states[i].channels[c]).offered, Message(b));
  }

  /** Each send takes exactly its channel off the list, so a broadcast ends after as many sends as were registered. */
  lemma SendShortens(st: State, b: nat, c: nat)
    requires ChannelsLaw(st) && Enabled(st, Send(b, c))
    ensures var st' := Apply(st, Send(b, c));
            && b in st'.sending && st'.sending[b].left == st.sending[b].left - {c}
            && |st'.sending[b].left| == |st.sending[b].left| - 1
            && Offers(st'.channels[c]) == Offers(st.channels[c]) + [Message(b)]
            && forall d :: d in st.channels && d != c ==> d in st'.channels && st'.channels[d] == st.channels[d]
  {
    OffersAppend(st.channels[c], Offer(Message(b)));
  }

  /** A read is a receive on its one channel, and changes neither who is registered nor any broadcast. */
  lemma ReadReceives(st: State, c: nat)
    requires Enabled(st, Read(c))
    ensures Apply(st, Read(c)) == st.(channels := st.channels[c := st.channels[c] + [Receive]])
    ensures DoAll(Apply(st, Read(c)).channels[c]) == Do(DoAll(st.channels[c]), Receive)
  {
    assert (st.channels[c] + [Receive])[..|st.channels[c]|] == st.channels[c];
  }

  lemma StepAppends(st: State, step: Step, c: nat)
    requires Enabled(st, step) && c in st.channels
    ensures c in Apply(st, step).channels && Offers(st.channels[c]) <= Offers(Apply(st, step).channels[c])
  {
    if step == Read(c) {
      OffersAppend(st.channels[c], Receive);
    } else if step.Send? && step.call == c {
      OffersAppend(st.channels[c], Offer(Message(step.broadcast)));
    }
  }

  lemma {:induction false} OffersOnlyGrow(states: seq<State>, i: nat, j: nat, c: nat)
    requires Run(states) && i <= j < |states| && c in states[i].channels
    ensures c in states[j].channels && Offers(states[i].channels[c]) <= Offers(states[j].channels[c])
  {
    if i < j {
      OffersOnlyGrow(states, i, j - 1, c);
      assert NextAt(states, j);
      var step :| Enabled(states[j - 1], step) && states[j] == Apply(states[j - 1], step);
      StepAppends(states[j - 1], step, c);
    }
  }

  lemma CountIsPresence(s: seq<Message>, m: Message)
    ensures multiset(s)[m] > 0 <==> m in s
  {
  }

  /** When one broadcast had finished before another took its snapshot, every channel is offered the first one's message
      before the second one's, whatever happens in between. */
  lemma FinishedFirstIsOfferedFirst(states: seq<State>, i: nat, j: nat, a: nat, b: nat, c: nat)
    requires Run(states) && i <= j < |states| && c in states[i].channels
    requires a in states[i].sending && states[i].sending[a].left == {} && b !in states[i].sending
    ensures c in states[j].channels
    ensures var before, all := Offers(states[i].channels[c]), Offers(states[j].channels[c]);
            && before <= all && Message(b) !in before
            && (c in states[i].sending[a].to ==> Message(a) in before)
  {
    RunKeepsLaws(states, i);
    OffersOnlyGrow(states, i, j, c);
    var before := Offers(states[i].channels[c]);
    assert Offered(states[i], a, c) == if SentTo(states[i], a, c) then 1 else 0;
    assert Offered(states[i], b, c) == 0;
    CountIsPresence(before, Message(a));
    CountIsPresence(before, Message(b));
  }
}
