/**
  The exact account of the websocket requests: over every interleaving, which result each call ends with, and which
  message a reply is.
  */
module SocketAccount {
  import opened Outcomes
  import opened Socket

  // ----- What was sent into a channel -----

  /** The messages put into the channel of a request, in order. */
  ghost function SentInto(actions: seq<Action>, id: RequestId): seq<Envelope>
    requires Possible(actions)
  {
    if actions == [] then []
    else
      var front, last := actions[..|actions| - 1], actions[|actions| - 1];
      SentInto(front, id)
      + (if last.Send? && Final(front).reader.channel == id then [Final(front).reader.envelope] else [])
  }

  /** The number of messages taken out of it. */
  ghost function Taken(actions: seq<Action>, id: RequestId): nat
    requires Possible(actions)
  {
    if actions == [] then 0
    else
      var front, last := actions[..|actions| - 1], actions[|actions| - 1];
      Taken(front, id)
      + (if last.Receive? && Final(front).calls[last.call] == Waiting(id) && Taken(front, id) < |SentInto(front, id)|
         then 1 else 0)
  }

  /** The channel holds what was sent and not yet taken; a request takes at most once, and then it leaves. */
  ghost predicate ChannelHolds(s: State, id: RequestId, sent: seq<Envelope>, taken: nat) {
    && taken <= |sent| && taken <= 1
    && (if id in s.channels then s.channels[id].buffer == sent[taken..] else sent == [])
    && (taken == 1 ==> forall call :: call in s.calls && IdOf(s.calls[call]) == Some(id) ==> s.calls[call].Leaving?)
  }

  lemma StepKeepsChannel(s: State, a: Action, id: RequestId, sent: seq<Envelope>, taken: nat)
    requires NumbersAreFresh(s) && Enabled(s, a) && ChannelHolds(s, id, sent, taken)
    ensures var sent' := sent + (if a.Send? && s.reader.channel == id then [s.reader.envelope] else []);
            var taken' := taken + (if a.Receive? && s.calls[a.call] == Waiting(id) && taken < |sent| then 1 else 0);
            ChannelHolds(Step(s, a), id, sent', taken')
  {
  }

  lemma {:induction false} ChannelsHoldWhatWasSent(actions: seq<Action>, id: RequestId)
    requires Possible(actions)
    ensures ChannelHolds(Final(actions), id, SentInto(actions, id), Taken(actions, id))
  {
    hide Enabled, Step, ChannelHolds, NumbersAreFresh;
    if actions == [] {
      StartHolds(id);
    } else {
      var front := actions[..|actions| - 1];
      ChannelsHoldWhatWasSent(front, id);
      RunsKeepInvariant(front);
      StepKeepsChannel(Final(front), actions[|actions| - 1], id, SentInto(front, id), Taken(front, id));
    }
  }

  lemma StartHolds(id: RequestId)
    ensures ChannelHolds(START, id, [], 0)
  {
  }

  // ----- Results -----

  /** The result a call is about to return with, or returned with. */
  function ResultOf(s: State, call: nat): Option<Outcome> {
    if call !in s.calls then None
    else match s.calls[call]
         case Leaving(_, result) => Some(result)
         case Returned(result) => Some(result)
         case _ => None
  }

  /** The last step gives the call this result, said by the step and by what came before it. */
  ghost predicate EndsWith(front: seq<Action>, a: Action, call: nat, result: Outcome)
    requires Possible(front)
  {
    var s := Final(front);
    match result
    case NotConnected => (a == Begin(call) || a == Register(call)) && s.closed
    case WriteFailed => a == Write(call, false)
    case Cancelled => a == Cancel(call)
    case Disconnected =>
      a == Receive(call) && exists id :: WaitsFor(s, call, id) && SentInto(front, id) == []
    case Replied(e) =>
      a == Receive(call)
      && exists id :: WaitsFor(s, call, id) && SentInto(front, id) != [] && SentInto(front, id)[0] == e
  }

  predicate WaitsFor(s: State, call: nat, id: RequestId) {
    call in s.calls && s.calls[call] == Waiting(id)
  }

  lemma ReceiveTakesTheFirst(front: seq<Action>, call: nat)
    requires Possible(front) && Enabled(Final(front), Receive(call))
    ensures var s := Final(front);
            var id := s.calls[call].id;
            && WaitsFor(s, call, id)
            && s.channels[id].buffer == SentInto(front, id)
            && (s.channels[id].buffer == [] ==> s.channels[id].closes > 0)
  {
    hide Step;
    ChannelsHoldWhatWasSent(front, Final(front).calls[call].id);
  }

  lemma StepGivesResult(front: seq<Action>, a: Action, call: nat, result: Outcome)
    requires Possible(front) && Enabled(Final(front), a)
    ensures ResultOf(Step(Final(front), a), call) == Some(result) <==>
            ResultOf(Final(front), call) == Some(result) || EndsWith(front, a, call, result)
  {
    hide SentInto, Final, Possible;
    if a == Receive(call) {
      ReceiveTakesTheFirst(front, call);
    }
  }

  /** At step i the call gets this result. */
  ghost predicate EndsAt(actions: seq<Action>, i: nat, call: nat, result: Outcome)
    requires Possible(actions)
  {
    PossiblePrefix(actions, if i < |actions| then i else 0);
    i < |actions| && EndsWith(actions[..i], actions[i], call, result)
  }

  /** Over every interleaving: a call has a result exactly if some step gave it that result. It was not connected if the
      socket was closed when it began or registered, failed to write if its write failed, was cancelled if it was
      cancelled, was disconnected if it received when nothing had been sent into its channel, and is otherwise the first
      message that was sent into it. */
  lemma {:induction false} ResultIff(actions: seq<Action>, call: nat, result: Outcome)
    requires Possible(actions)
    ensures ResultOf(Final(actions), call) == Some(result) <==> exists i :: EndsAt(actions, i, call, result)
  {
    hide Enabled, Step, EndsWith, ResultOf;
    if actions == [] {
      NoResults(call);
    } else {
      var front, last := actions[..|actions| - 1], actions[|actions| - 1];
      ResultIff(front, call, result);
      StepGivesResult(front, last, call, result);
      forall i: nat | i < |front|
        ensures EndsAt(actions, i, call, result) <==> EndsAt(front, i, call, result)
      {
        assert front[..i] == actions[..i];
      }
      if i: nat :| EndsAt(front, i, call, result) {
        assert EndsAt(actions, i, call, result);
      }
      if EndsWith(front, last, call, result) {
        assert EndsAt(actions, |front|, call, result);
      }
    }
  }

  lemma NoResults(call: nat)
    ensures ResultOf(START, call) == None
  {
  }

  // ----- Messages -----

  /** At step i a message for a pending request is read. */
  ghost predicate ReadsReply(actions: seq<Action>, i: nat, id: RequestId, e: Envelope)
    requires Possible(actions)
  {
    i < |actions| && actions[i] == Read(e) && e.requestID == Some(id) && id in StateAt(actions, i).pending
  }

  /** Step j is the first send after step i. */
  ghost predicate NextSend(actions: seq<Action>, i: nat, j: nat) {
    i < j < |actions| && actions[j].Send? && forall n :: i < n < j ==> !actions[n].Send?
  }

  lemma ReadHolds(s: State, e: Envelope, id: RequestId)
    requires Invariant(s) && Enabled(s, Read(e)) && e.requestID == Some(id) && id in s.pending
    ensures Step(s, Read(e)).reader == Holding(id, e)
  {
  }

  lemma HoldingLasts(s: State, a: Action)
    requires s.reader.Holding? && Enabled(s, a) && !a.Send?
    ensures Step(s, a).reader == s.reader || Step(s, a).reader.Panicked?
  {
  }

  lemma NothingAfterPanic(s: State, a: Action)
    requires Enabled(s, a)
    ensures !s.reader.Panicked?
  {
  }

  lemma StateAtNext(actions: seq<Action>, n: nat)
    requires Possible(actions) && n < |actions|
    ensures Enabled(StateAt(actions, n), actions[n])
    ensures StateAt(actions, n + 1) == Step(StateAt(actions, n), actions[n])
  {
    PossiblePrefix(actions, n + 1);
    PossiblePrefix(actions, n);
    assert actions[..n + 1][..n] == actions[..n];
  }

  lemma StateIsSound(actions: seq<Action>, n: nat)
    requires Possible(actions) && n <= |actions|
    ensures Invariant(StateAt(actions, n))
  {
    PossiblePrefix(actions, n);
    RunsKeepInvariant(actions[..n]);
  }

  /** A message read for a pending request stays in the reader's hand until the next send. */
  lemma {:induction false} HeldUntilSend(actions: seq<Action>, i: nat, n: nat, id: RequestId, e: Envelope)
    requires Possible(actions) && ReadsReply(actions, i, id, e) && i < n < |actions|
    requires forall m :: i < m < n ==> !actions[m].Send?
    ensures StateAt(actions, n).reader == Holding(id, e)
    decreases n
  {
    hide Enabled, Step, Invariant, StateAt;
    StateAtNext(actions, n - 1);
    StateAtNext(actions, n);
    StateIsSound(actions, n - 1);
    if n == i + 1 {
      ReadHolds(StateAt(actions, i), e, id);
    } else {
      HeldUntilSend(actions, i, n - 1, id, e);
      HoldingLasts(StateAt(actions, n - 1), actions[n - 1]);
      NothingAfterPanic(StateAt(actions, n), actions[n]);
    }
  }

  ghost function SentBefore(actions: seq<Action>, n: nat, id: RequestId): seq<Envelope>
    requires Possible(actions) && n <= |actions|
  {
    PossiblePrefix(actions, n);
    SentInto(actions[..n], id)
  }

  lemma SentNext(actions: seq<Action>, n: nat, id: RequestId)
    requires Possible(actions) && n < |actions|
    ensures var s := StateAt(actions, n);
            && (actions[n].Send? ==> s.reader.Holding?)
            && SentBefore(actions, n + 1, id)
               == SentBefore(actions, n, id)
                  + (if actions[n].Send? && s.reader.channel == id then [s.reader.envelope] else [])
  {
    hide Step;
    StateAtNext(actions, n);
    PossiblePrefix(actions, n + 1);
    PossiblePrefix(actions, n);
    assert actions[..n + 1][..n] == actions[..n];
  }

  /** What the reader reads for a pending request, the next send puts into the channel of that request, and no other. */
  lemma ReadIsSentNext(actions: seq<Action>, i: nat, j: nat, id: RequestId, e: Envelope)
    requires Possible(actions) && ReadsReply(actions, i, id, e) && NextSend(actions, i, j)
    ensures SentBefore(actions, j + 1, id) == SentBefore(actions, j, id) + [e]
    ensures forall other :: other != id ==> SentBefore(actions, j + 1, other) == SentBefore(actions, j, other)
  {
    hide StateAt, SentBefore, Enabled;
    HeldUntilSend(actions, i, j, id, e);
    forall other
      ensures SentBefore(actions, j + 1, other)
           == SentBefore(actions, j, other) + (if other == id then [e] else [])
    {
      SentNext(actions, j, other);
    }
  }

  /** And every send puts a message that was read for its pending request, just before. */
  lemma SentWasRead(actions: seq<Action>, j: nat) returns (i: nat, id: RequestId, e: Envelope)
    requires Possible(actions) && j < |actions| && actions[j].Send?
    ensures StateAt(actions, j).reader == Holding(id, e)
    ensures ReadsReply(actions, i, id, e) && NextSend(actions, i, j)
  {
    hide Step, Invariant;
    StateAtNext(actions, j);
    PossiblePrefix(actions, j);
    var before := actions[..j];
    i := ReaderIsTracked(before);
    forall n: nat | n <= j
      ensures StateAt(before, n) == StateAt(actions, n)
    {
      assert before[..n] == actions[..n];
    }
    id, e := StateAt(actions, j).reader.channel, StateAt(actions, j).reader.envelope;
    StateAtNext(actions, i);
    StateIsSound(actions, i);
    ReadGives(StateAt(actions, i), actions[i]);
    forall n | i < n < j
      ensures !actions[n].Send?
    {
      StateAtNext(actions, n);
      if actions[n].Send? {
        SendEmpties(StateAt(actions, n), actions[n]);
      }
    }
  }

  lemma ReadGives(s: State, a: Action)
    requires Invariant(s) && Enabled(s, a) && a.Read? && Step(s, a).reader.Holding?
    ensures var reader := Step(s, a).reader;
            && a == Read(reader.envelope)
            && reader.envelope.requestID == Some(reader.channel) && reader.channel in s.pending
  {
  }

  lemma SendEmpties(s: State, a: Action)
    requires Enabled(s, a) && a.Send?
    ensures Step(s, a).reader.Reading?
  {
  }

  // ----- Which message a reply is -----

  /** The message read at step i is the first that is sent into the channel of its request, at step j. */
  ghost predicate FirstReply(actions: seq<Action>, i: nat, j: nat, id: RequestId, e: Envelope)
    requires Possible(actions)
  {
    ReadsReply(actions, i, id, e) && NextSend(actions, i, j) && SentBefore(actions, j, id) == []
  }

  lemma {:induction false} FirstSent(actions: seq<Action>, n: nat, id: RequestId) returns (i: nat, j: nat)
    requires Possible(actions) && n <= |actions| && SentBefore(actions, n, id) != []
    ensures j < n && FirstReply(actions, i, j, id, SentBefore(actions, n, id)[0])
    decreases n
  {
    hide StateAt, ReadsReply, NextSend, SentBefore;
    NothingSentYet(actions, id);
    SentNext(actions, n - 1, id);
    if SentBefore(actions, n - 1, id) == [] {
      j := n - 1;
      var k, e;
      i, k, e := SentWasRead(actions, j);
    } else {
      i, j := FirstSent(actions, n - 1, id);
    }
  }

  lemma NothingSentYet(actions: seq<Action>, id: RequestId)
    requires Possible(actions)
    ensures SentBefore(actions, 0, id) == []
  {
    assert actions[..0] == [];
  }

  lemma {:induction false} FirstStays(actions: seq<Action>, j: nat, n: nat, id: RequestId)
    requires Possible(actions) && j <= n <= |actions| && SentBefore(actions, j, id) != []
    ensures SentBefore(actions, n, id) != [] && SentBefore(actions, n, id)[0] == SentBefore(actions, j, id)[0]
    decreases n
  {
    hide SentBefore, StateAt;
    if j < n {
      FirstStays(actions, j, n - 1, id);
      SentNext(actions, n - 1, id);
    }
  }

  /** A message was the first into the channel before step n exactly if it was read for the pending request, sent next,
      and nothing was sent into the channel before. */
  lemma FirstIff(actions: seq<Action>, n: nat, id: RequestId, e: Envelope)
    requires Possible(actions) && n <= |actions|
    ensures SentBefore(actions, n, id) != [] && SentBefore(actions, n, id)[0] == e <==>
            exists i: nat, j: nat :: j < n && FirstReply(actions, i, j, id, e)
  {
    hide SentBefore, ReadsReply, NextSend;
    if SentBefore(actions, n, id) != [] && SentBefore(actions, n, id)[0] == e {
      var i, j := FirstSent(actions, n, id);
    }
    if i: nat, j: nat :| j < n && FirstReply(actions, i, j, id, e) {
      ReadIsSentNext(actions, i, j, id, e);
      FirstStays(actions, j + 1, n, id);
    }
  }

  ghost predicate TakesAt(actions: seq<Action>, k: nat, call: nat, id: RequestId)
    requires Possible(actions)
  {
    k < |actions| && actions[k] == Receive(call) && WaitsFor(StateAt(actions, k), call, id)
  }

  /** A call is answered with a message exactly if that message was read while the request was pending, the next send
      put it into the channel of the request, nothing was sent there before, and the call received after that. */
  lemma RepliedIff(actions: seq<Action>, call: nat, e: Envelope)
    requires Possible(actions)
    ensures ResultOf(Final(actions), call) == Some(Replied(e)) <==>
            exists i: nat, j: nat, k: nat, id ::
              j < k && FirstReply(actions, i, j, id, e) && TakesAt(actions, k, call, id)
  {
    hide ResultOf, FirstReply, WaitsFor, Enabled, Step;
    ResultIff(actions, call, Replied(e));
    if k: nat :| EndsAt(actions, k, call, Replied(e)) {
      PossiblePrefix(actions, k);
      var id :| WaitsFor(Final(actions[..k]), call, id) && SentInto(actions[..k], id) != []
                && SentInto(actions[..k], id)[0] == e;
      FirstIff(actions, k, id, e);
      assert TakesAt(actions, k, call, id);
    }
    if i: nat, j: nat, k: nat, id :| j < k && FirstReply(actions, i, j, id, e) && TakesAt(actions, k, call, id) {
      FirstIff(actions, k, id, e);
      assert EndsAt(actions, k, call, Replied(e));
    }
  }

  // ----- Leaving -----

  /** A call has returned exactly if it was refused, or its request was unregistered after it had a result. */
  lemma {:induction false} ReturnedIff(actions: seq<Action>, call: nat)
    requires Possible(actions)
    ensures var s := Final(actions);
            call in s.calls && s.calls[call].Returned? <==>
            ResultOf(s, call) == Some(NotConnected) || exists i :: 0 <= i < |actions| && actions[i] == Unregister(call)
  {
    hide Enabled, Step, Invariant;
    if actions != [] {
      var front, last := actions[..|actions| - 1], actions[|actions| - 1];
      ReturnedIff(front, call);
      StepReturns(Final(front), last, call);
      RefusedReturns(front, call);
      assert actions == front + [last];
    }
  }

  lemma StepReturns(s: State, a: Action, call: nat)
    requires Enabled(s, a) && (ResultOf(s, call) == Some(NotConnected) ==> s.calls[call].Returned?)
    ensures var t := Step(s, a);
            && (call in t.calls && t.calls[call].Returned? <==>
                (call in s.calls && s.calls[call].Returned?) || a == Unregister(call)
                || ((a == Begin(call) || a == Register(call)) && s.closed))
            && (ResultOf(t, call) == Some(NotConnected) <==>
                ResultOf(s, call) == Some(NotConnected) || ((a == Begin(call) || a == Register(call)) && s.closed))
            && (ResultOf(t, call) == Some(NotConnected) ==> t.calls[call].Returned?)
  {
  }

  lemma {:induction false} RefusedReturns(actions: seq<Action>, call: nat)
    requires Possible(actions)
    ensures ResultOf(Final(actions), call) == Some(NotConnected) ==> Final(actions).calls[call].Returned?
  {
    hide Enabled, Step;
    if actions != [] {
      RefusedReturns(actions[..|actions| - 1], call);
      StepReturns(Final(actions[..|actions| - 1]), actions[|actions| - 1], call);
    }
  }

  /** A call waits for its reply exactly if its request was written and it has no result yet. */
  lemma {:induction false} WaitingIff(actions: seq<Action>, call: nat)
    requires Possible(actions)
    ensures var s := Final(actions);
            call in s.calls && s.calls[call].Waiting? <==>
            ResultOf(s, call) == None && exists i :: 0 <= i < |actions| && actions[i] == Write(call, true)
  {
    hide Enabled, Step;
    if actions != [] {
      var front, last := actions[..|actions| - 1], actions[|actions| - 1];
      WaitingIff(front, call);
      StepWaits(Final(front), last, call);
      assert actions == front + [last];
    }
  }

  lemma StepWaits(s: State, a: Action, call: nat)
    requires Enabled(s, a)
    ensures var t := Step(s, a);
            && (call in t.calls && t.calls[call].Waiting? <==>
                ResultOf(t, call) == None && ((call in s.calls && s.calls[call].Waiting?) || a == Write(call, true)))
            && (ResultOf(t, call) == None ==> ResultOf(s, call) == None)
  {
  }

  /** A result never changes, not when the call returns either. */
  lemma ResultStays(actions: seq<Action>, more: seq<Action>, call: nat)
    requires Possible(actions) && Possible(actions + more) && ResultOf(Final(actions), call).Some?
    ensures ResultOf(Final(actions + more), call) == ResultOf(Final(actions), call)
  {
    hide ResultOf, EndsWith;
    var result := ResultOf(Final(actions), call).value;
    ResultIff(actions, call, result);
    ResultIff(actions + more, call, result);
    var i: nat :| EndsAt(actions, i, call, result);
    assert (actions + more)[..i] == actions[..i];
    assert EndsAt(actions + more, i, call, result);
  }

  // ----- Registered requests -----

  /** Before the drain, exactly the registered requests are pending: every request is removed when its call leaves. */
  ghost predicate PendingIsRegistered(s: State) {
    !s.shutdown.Drained? ==>
      forall id :: id in s.pending <==> RegisteredFor(s, id)
  }

  ghost predicate RegisteredFor(s: State, id: RequestId) {
    exists call :: call in s.calls && InPending(s.calls[call]) && IdOf(s.calls[call]) == Some(id)
  }

  lemma {:induction false} PendingIff(actions: seq<Action>)
    requires Possible(actions)
    ensures PendingIsRegistered(Final(actions))
  {
    hide Enabled, Step, PendingIsRegistered;
    if actions == [] {
      NothingPending();
    } else {
      var front := actions[..|actions| - 1];
      PendingIff(front);
      RunsKeepInvariant(front);
      StepKeepsPending(Final(front), actions[|actions| - 1]);
    }
  }

  lemma NothingPending()
    ensures PendingIsRegistered(START)
  {
  }

  lemma UnregisterRemoves(s: State, call: nat)
    requires Invariant(s) && PendingIsRegistered(s) && Enabled(s, Unregister(call))
    ensures PendingIsRegistered(Step(s, Unregister(call)))
  {
    var t := Step(s, Unregister(call));
    forall id | id in t.pending && !s.shutdown.Drained?
      ensures RegisteredFor(t, id)
    {
      var c :| c in s.calls && InPending(s.calls[c]) && IdOf(s.calls[c]) == Some(id);
      assert InPending(t.calls[c]);
    }
  }

  lemma RegisterAdds(s: State, call: nat)
    requires Invariant(s) && PendingIsRegistered(s) && Enabled(s, Register(call))
    ensures PendingIsRegistered(Step(s, Register(call)))
  {
    var t := Step(s, Register(call));
    forall id | id in t.pending && !s.shutdown.Drained?
      ensures RegisteredFor(t, id)
    {
      if id in s.pending {
        var c :| c in s.calls && InPending(s.calls[c]) && IdOf(s.calls[c]) == Some(id);
        assert InPending(t.calls[c]);
      } else {
        assert InPending(t.calls[call]);
      }
    }
  }

  lemma OtherStepsKeepPending(s: State, a: Action)
    requires ClosedFlag(s) && PendingIsRegistered(s) && Enabled(s, a) && !a.Register? && !a.Unregister?
    ensures PendingIsRegistered(Step(s, a))
  {
    var t := Step(s, a);
    forall id | id in t.pending && !t.shutdown.Drained?
      ensures RegisteredFor(t, id)
    {
      var c :| c in s.calls && InPending(s.calls[c]) && IdOf(s.calls[c]) == Some(id);
      assert InPending(t.calls[c]) && IdOf(t.calls[c]) == Some(id);
    }
  }

  lemma StepKeepsPending(s: State, a: Action)
    requires Invariant(s) && PendingIsRegistered(s) && Enabled(s, a)
    ensures PendingIsRegistered(Step(s, a))
  {
    assert ClosedFlag(s);
    hide Step, Invariant, PendingIsRegistered;
    if a.Register? {
      RegisterAdds(s, a.call);
    } else if a.Unregister? {
      UnregisterRemoves(s, a.call);
    } else {
      OtherStepsKeepPending(s, a);
    }
  }
}
