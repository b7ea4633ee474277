/**
  The websocket request/reply protocol with shutdown (internal/core/vision/socket.go) as interleaved atomic steps:
  each step is one access to the shared fields, one critical section, or one channel operation.
  */
module Socket {
  import opened Outcomes

  type RequestId = nat

  /** An incoming message; its request id is none of ours when None. */
  datatype Envelope = Envelope(requestID: Option<RequestId>, body: string)

  /** A reply channel of capacity one, with the number of times it was closed. */
  datatype Channel = Channel(buffer: seq<Envelope>, closes: nat)

  datatype Outcome = NotConnected | WriteFailed | Cancelled | Disconnected | Replied(envelope: Envelope)

  /** Where one call of Request is. */
  datatype Phase =
    | Checked                                   // found the socket open, no number yet
    | Numbered(id: RequestId)                   // has a number and a fresh channel
    | Registered(id: RequestId)                 // its channel is in pending
    | Waiting(id: RequestId)                    // the request is written
    | Leaving(id: RequestId, result: Outcome)   // about to unregister
    | Returned(result: Outcome)

  /** Panicked: the reader sent on a closed channel, which ends the process. */
  datatype Reader = Reading | Holding(channel: RequestId, envelope: Envelope) | ReadFailed | Stopped | Panicked

  /** How far the one shutdown that won the flag is. */
  datatype Shutdown = NotStarted | Won | Drained

  datatype State = State(sequence: nat, closed: bool, pending: map<RequestId, RequestId>,
                         channels: map<RequestId, Channel>,
                         calls: map<nat, Phase>, reader: Reader, shutdown: Shutdown)

  const START := State(0, false, map[], map[], map[], Reading, NotStarted)

  datatype Action =
    | Begin(call: nat)
    | Number(call: nat)
    | Register(call: nat)
    | Write(call: nat, ok: bool)
    | Receive(call: nat)
    | Cancel(call: nat)
    | Unregister(call: nat)
    | Read(envelope: Envelope)
    | Send
    | SendOnClosed
    | ReadError
    | ReaderCloses
    | Close
    | Drain

  /** The action can be taken now. A send on an open channel waits while its buffer is full. */
  predicate Enabled(s: State, a: Action) {
    !s.reader.Panicked? &&
    match a
    case Begin(call) => call !in s.calls
    case Number(call) => call in s.calls && s.calls[call].Checked?
    case Register(call) => call in s.calls && s.calls[call].Numbered?
    case Write(call, _) => call in s.calls && s.calls[call].Registered?
    case Receive(call) =>
      call in s.calls && s.calls[call].Waiting? && s.calls[call].id in s.channels
      && (s.channels[s.calls[call].id].buffer != [] || s.channels[s.calls[call].id].closes > 0)
    case Cancel(call) => call in s.calls && s.calls[call].Waiting?
    case Unregister(call) => call in s.calls && s.calls[call].Leaving?
    case Read(_) => s.reader.Reading?
    case Send =>
      s.reader.Holding? && s.reader.channel in s.channels
      && s.channels[s.reader.channel].closes == 0 && s.channels[s.reader.channel].buffer == []
    case SendOnClosed =>
      s.reader.Holding? && s.reader.channel in s.channels && s.channels[s.reader.channel].closes > 0
    case ReadError => s.reader.Reading?
    case ReaderCloses => s.reader.ReadFailed?
    case Close => true
    case Drain => s.shutdown.Won?
  }

  function SetPhase(s: State, call: nat, p: Phase): State {
    s.(calls := s.calls[call := p])
  }

  /** CompareAndSwap on the closed flag: the first caller wins. */
  function TryShutdown(s: State): State {
    if s.closed then s else s.(closed := true, shutdown := Won)
  }

  function Step(s: State, a: Action): State
    requires Enabled(s, a)
  {
    match a
    case Begin(call) => SetPhase(s, call, if s.closed then Returned(NotConnected) else Checked)
    case Number(call) =>
      var id := s.sequence + 1;
      SetPhase(s.(sequence := id, channels := s.channels[id := Channel([], 0)]), call, Numbered(id))
    case Register(call) =>
      var id := s.calls[call].id;
      if s.closed then SetPhase(s, call, Returned(NotConnected))
      else SetPhase(s.(pending := s.pending[id := id]), call, Registered(id))
    case Write(call, ok) =>
      var id := s.calls[call].id;
      SetPhase(s, call, if ok then Waiting(id) else Leaving(id, WriteFailed))
    case Receive(call) =>
      var id := s.calls[call].id;
      var c := s.channels[id];
      if c.buffer != [] then
        SetPhase(s.(channels := s.channels[id := c.(buffer := c.buffer[1..])]), call, Leaving(id, Replied(c.buffer[0])))
      else SetPhase(s, call, Leaving(id, Disconnected))
    case Cancel(call) => SetPhase(s, call, Leaving(s.calls[call].id, Cancelled))
    case Unregister(call) =>
      SetPhase(s.(pending := s.pending - {s.calls[call].id}), call, Returned(s.calls[call].result))
    case Read(envelope) =>
      if envelope.requestID.Some? && envelope.requestID.value in s.pending
      then s.(reader := Holding(s.pending[envelope.requestID.value], envelope))
      else s
    case Send =>
      var c := s.channels[s.reader.channel];
      s.(channels := s.channels[s.reader.channel := c.(buffer := c.buffer + [s.reader.envelope])], reader := Reading)
    case SendOnClosed => s.(reader := Panicked)
    case ReadError => s.(reader := ReadFailed)
    case ReaderCloses => TryShutdown(s).(reader := Stopped)
    case Close => TryShutdown(s)
    case Drain =>
      s.(pending := map[], shutdown := Drained,
         channels := map k | k in s.channels ::
           if k in s.pending.Values then s.channels[k].(closes := s.channels[k].closes + 1) else s.channels[k])
  }

  /** A run: every action is enabled when it is taken. */
  ghost predicate Possible(actions: seq<Action>)
    decreases |actions|, 0
  {
    actions == [] ||
    (Possible(actions[..|actions| - 1]) && Enabled(Final(actions[..|actions| - 1]), actions[|actions| - 1]))
  }

  ghost function Final(actions: seq<Action>): State
    requires Possible(actions)
    decreases |actions|, 1
  {
    if actions == [] then START else Step(Final(actions[..|actions| - 1]), actions[|actions| - 1])
  }

  // ----- The invariant -----

  /** The request number a call works with, if it has one. */
  function IdOf(p: Phase): Option<RequestId> {
    match p
    case Numbered(id) => Some(id)
    case Registered(id) => Some(id)
    case Waiting(id) => Some(id)
    case Leaving(id, _) => Some(id)
    case _ => None
  }

  predicate InPending(p: Phase) {
    p.Registered? || p.Waiting? || p.Leaving?
  }

  ghost predicate NumbersAreFresh(s: State) {
    && (forall k :: k in s.channels ==> k <= s.sequence)
    && (forall k :: k in s.pending ==> k in s.channels && s.pending[k] == k)
    && (forall call :: call in s.calls && IdOf(s.calls[call]).Some? ==> IdOf(s.calls[call]).value in s.channels)
    && (forall c, d :: c in s.calls && d in s.calls && c != d && IdOf(s.calls[c]).Some? ==>
          IdOf(s.calls[c]) != IdOf(s.calls[d]))
  }

  /** A reply in a channel, in the reader's hand or in a result carries the number of its request. */
  ghost predicate RepliesMatch(s: State) {
    && (forall k, i :: k in s.channels && 0 <= i < |s.channels[k].buffer| ==>
                         s.channels[k].buffer[i].requestID == Some(k))
    && (s.reader.Holding? ==> s.reader.envelope.requestID == Some(s.reader.channel) && s.reader.channel in s.channels)
    && (forall call :: call in s.calls && s.calls[call].Leaving? && s.calls[call].result.Replied? ==>
          s.calls[call].result.envelope.requestID == Some(s.calls[call].id))
  }

  ghost predicate ClosedFlag(s: State) {
    (s.closed <==> !s.shutdown.NotStarted?)
  }

  /** Before the drain every registered request is in pending and no channel is closed; after it pending is empty and
      every request still registered has its channel closed, once. */
  ghost predicate DrainedOnce(s: State) {
    && (forall k :: k in s.channels ==> s.channels[k].closes <= 1)
    && (!s.shutdown.Drained? ==>
          && (forall k :: k in s.channels ==> s.channels[k].closes == 0)
          && (forall call :: call in s.calls && InPending(s.calls[call]) ==> IdOf(s.calls[call]).value in s.pending))
    && (s.shutdown.Drained? ==>
          && s.pending == map[]
          && (forall call :: call in s.calls && InPending(s.calls[call]) ==>
                IdOf(s.calls[call]).value in s.channels && s.channels[IdOf(s.calls[call]).value].closes == 1))
  }

  ghost predicate DisconnectedOnlyClosed(s: State) {
    forall call :: call in s.calls && s.calls[call].Leaving? && s.calls[call].result.Disconnected? ==> s.closed
  }

  ghost predicate Invariant(s: State) {
    NumbersAreFresh(s) && RepliesMatch(s) && ClosedFlag(s) && DrainedOnce(s) && DisconnectedOnlyClosed(s)
  }

  lemma NumberIsFresh(s: State, call: nat)
    requires NumbersAreFresh(s) && Enabled(s, Number(call))
    ensures NumbersAreFresh(Step(s, Number(call)))
  {
  }

  /** A step of the reader or of the shutdown, not of a call of Request. */
  predicate IsSocketStep(a: Action) {
    a.Read? || a.Send? || a.SendOnClosed? || a.ReadError? || a.ReaderCloses? || a.Close? || a.Drain?
  }

  lemma SocketStepKeepsNumbers(s: State, a: Action)
    requires NumbersAreFresh(s) && Enabled(s, a) && IsSocketStep(a)
    ensures NumbersAreFresh(Step(s, a))
  {
  }

  lemma CallStepKeepsNumbers(s: State, a: Action)
    requires NumbersAreFresh(s) && Enabled(s, a) && !IsSocketStep(a) && !a.Number?
    ensures NumbersAreFresh(Step(s, a))
  {
  }

  lemma StepKeepsNumbers(s: State, a: Action)
    requires NumbersAreFresh(s) && Enabled(s, a)
    ensures NumbersAreFresh(Step(s, a))
  {
    hide Step, NumbersAreFresh;
    if a.Number? {
      NumberIsFresh(s, a.call);
    } else if IsSocketStep(a) {
      SocketStepKeepsNumbers(s, a);
    } else {
      CallStepKeepsNumbers(s, a);
    }
  }

  lemma StepKeepsReplies(s: State, a: Action)
    requires NumbersAreFresh(s) && RepliesMatch(s) && Enabled(s, a)
    ensures RepliesMatch(Step(s, a))
  {
  }

  lemma StepKeepsFlag(s: State, a: Action)
    requires ClosedFlag(s) && Enabled(s, a)
    ensures ClosedFlag(Step(s, a))
  {
  }

  lemma DrainClosesOnce(s: State)
    requires NumbersAreFresh(s) && ClosedFlag(s) && DrainedOnce(s) && Enabled(s, Drain)
    ensures DrainedOnce(Step(s, Drain))
  {
    var t := Step(s, Drain);
    forall call | call in t.calls && InPending(t.calls[call])
      ensures IdOf(t.calls[call]).value in t.channels && t.channels[IdOf(t.calls[call]).value].closes == 1
    {
      var id := IdOf(s.calls[call]).value;
      assert s.pending[id] == id;
    }
  }

  lemma UnregisterKeepsDrain(s: State, call: nat)
    requires NumbersAreFresh(s) && ClosedFlag(s) && DrainedOnce(s) && Enabled(s, Unregister(call))
    ensures DrainedOnce(Step(s, Unregister(call)))
  {
  }

  lemma RegisterKeepsDrain(s: State, call: nat)
    requires NumbersAreFresh(s) && ClosedFlag(s) && DrainedOnce(s) && Enabled(s, Register(call))
    ensures DrainedOnce(Step(s, Register(call)))
  {
  }

  lemma SocketStepKeepsDrain(s: State, a: Action)
    requires NumbersAreFresh(s) && ClosedFlag(s) && DrainedOnce(s) && Enabled(s, a) && IsSocketStep(a) && !a.Drain?
    ensures DrainedOnce(Step(s, a))
  {
  }

  lemma CallStepKeepsDrain(s: State, a: Action)
    requires NumbersAreFresh(s) && ClosedFlag(s) && DrainedOnce(s) && Enabled(s, a)
    requires !IsSocketStep(a) && !a.Unregister? && !a.Register?
    ensures DrainedOnce(Step(s, a))
  {
  }

  lemma StepKeepsDrain(s: State, a: Action)
    requires NumbersAreFresh(s) && ClosedFlag(s) && DrainedOnce(s) && Enabled(s, a)
    ensures DrainedOnce(Step(s, a))
  {
    hide Step, DrainedOnce, NumbersAreFresh;
    if a.Drain? {
      DrainClosesOnce(s);
    } else if a.Unregister? {
      UnregisterKeepsDrain(s, a.call);
    } else if a.Register? {
      RegisterKeepsDrain(s, a.call);
    } else if IsSocketStep(a) {
      SocketStepKeepsDrain(s, a);
    } else {
      CallStepKeepsDrain(s, a);
    }
  }

  lemma StepKeepsDisconnects(s: State, a: Action)
    requires ClosedFlag(s) && DrainedOnce(s) && DisconnectedOnlyClosed(s) && Enabled(s, a)
    ensures DisconnectedOnlyClosed(Step(s, a))
  {
  }

  /** Every interleaving of requests, reader and shutdown keeps the invariant. */
  lemma {:induction false} RunsKeepInvariant(actions: seq<Action>)
    requires Possible(actions)
    ensures Invariant(Final(actions))
  {
    hide Enabled, Step;
    if actions != [] {
      var front, last := actions[..|actions| - 1], actions[|actions| - 1];
      RunsKeepInvariant(front);
      var s := Final(front);
      StepKeepsNumbers(s, last);
      StepKeepsReplies(s, last);
      StepKeepsFlag(s, last);
      StepKeepsDrain(s, last);
      StepKeepsDisconnects(s, last);
    }
  }

  // ----- What callers and the socket can rely on -----

  /** A reply that a call returns with, and every reply put into a request's channel, is a reply to that request. */
  lemma RepliesReachTheirRequest(actions: seq<Action>, call: nat)
    requires Possible(actions) && call in Final(actions).calls
    ensures var s := Final(actions);
            && (s.calls[call].Leaving? && s.calls[call].result.Replied? ==>
                  s.calls[call].result.envelope.requestID == Some(s.calls[call].id))
            && (forall k, i :: k in s.channels && 0 <= i < |s.channels[k].buffer| ==>
                  s.channels[k].buffer[i].requestID == Some(k))
  {
    RunsKeepInvariant(actions);
  }

  /** No channel is closed twice. */
  lemma ChannelsCloseAtMostOnce(actions: seq<Action>, k: RequestId)
    requires Possible(actions) && k in Final(actions).channels
    ensures Final(actions).channels[k].closes <= 1
  {
    RunsKeepInvariant(actions);
  }

  /** The drain is final: from then on pending is empty in every later state, no later step registers or drains
      again, and every call that still waits can proceed because its channel is closed. */
  lemma {:induction false} DrainIsFinal(actions: seq<Action>, more: seq<Action>)
    requires Possible(actions) && Final(actions).shutdown.Drained? && Possible(actions + more)
    ensures var s := Final(actions + more);
            && s.shutdown.Drained? && s.closed && s.pending == map[]
            && (forall call :: call in s.calls && s.calls[call].Waiting? ==>
                  IsClosedFor(s, call))
  {
    hide Step, Enabled, IsClosedFor;
    var all := actions + more;
    RunsKeepInvariant(all);
    if more == [] {
      assert all == actions;
    } else {
      var front := more[..|more| - 1];
      assert all[..|all| - 1] == actions + front;
      DrainIsFinal(actions, front);
      DrainedStays(Final(actions + front), all[|all| - 1]);
    }
    WaitersAreReleased(Final(all));
  }

  lemma DrainedStays(s: State, a: Action)
    requires s.shutdown.Drained? && ClosedFlag(s) && Enabled(s, a)
    ensures Step(s, a).shutdown.Drained?
  {
  }

  ghost predicate IsClosedFor(s: State, call: nat)
    requires call in s.calls && s.calls[call].Waiting?
  {
    var id := s.calls[call].id;
    id in s.channels && s.channels[id].closes == 1 && (!s.reader.Panicked? ==> Enabled(s, Receive(call)))
  }

  lemma WaitersAreReleased(s: State)
    requires Invariant(s) && s.shutdown.Drained?
    ensures s.closed && s.pending == map[]
    ensures forall call :: call in s.calls && s.calls[call].Waiting? ==>
              IsClosedFor(s, call)
  {
    forall call | call in s.calls && s.calls[call].Waiting?
      ensures IsClosedFor(s, call)
    {
      assert InPending(s.calls[call]);
    }
  }

  /** A call only returns "disconnected" after a shutdown began. */
  lemma DisconnectedMeansClosed(actions: seq<Action>, call: nat)
    requires Possible(actions) && call in Final(actions).calls && Final(actions).calls[call].Leaving?
    requires Final(actions).calls[call].result.Disconnected?
    ensures Final(actions).closed
  {
    RunsKeepInvariant(actions);
  }

  // ----- A send that meets a closed channel -----

  lemma {:induction false} PossiblePrefix(actions: seq<Action>, n: nat)
    requires Possible(actions) && n <= |actions|
    ensures Possible(actions[..n])
    decreases |actions|
  {
    if n < |actions| {
      var front := actions[..|actions| - 1];
      PossiblePrefix(front, n);
      assert front[..n] == actions[..n];
    } else {
      assert actions[..n] == actions;
    }
  }

  ghost function StateAt(actions: seq<Action>, n: nat): State
    requires Possible(actions) && n <= |actions|
  {
    PossiblePrefix(actions, n);
    Final(actions[..n])
  }

  /** The reader looked its channel up at step i and holds it since. */
  ghost predicate HeldSince(actions: seq<Action>, i: nat)
    requires Possible(actions)
  {
    && i < |actions| && actions[i].Read? && StateAt(actions, i).reader.Reading?
    && StateAt(actions, |actions|).reader.Holding?
    && forall n :: i < n <= |actions| ==> StateAt(actions, n).reader == StateAt(actions, |actions|).reader
  }

  /** The drain comes at step j and closes this channel. */
  ghost predicate DrainedAt(actions: seq<Action>, j: nat, channel: RequestId)
    requires Possible(actions)
  {
    j < |actions| && actions[j].Drain? && channel in StateAt(actions, j).pending
  }

  lemma StateInPrefix(actions: seq<Action>, n: nat)
    requires Possible(actions) && n < |actions|
    ensures var front := actions[..|actions| - 1];
            Possible(front) && StateAt(front, n) == StateAt(actions, n)
  {
    assert actions[..|actions| - 1][..n] == actions[..n];
  }

  lemma LastStep(actions: seq<Action>)
    requires Possible(actions) && actions != []
    ensures var front, last := actions[..|actions| - 1], actions[|actions| - 1];
            && Possible(front)
            && StateAt(actions, |front|) == Final(front) && StateAt(actions, |actions|) == Final(actions)
            && Enabled(Final(front), last) && Final(actions) == Step(Final(front), last)
  {
    assert actions[..|actions|] == actions;
  }

  lemma HoldingStarts(s: State, a: Action)
    requires Invariant(s) && Enabled(s, a) && a.Read? && Step(s, a).reader.Holding?
    ensures s.reader.Reading? && Step(s, a).channels == s.channels
    ensures Step(s, a).reader.channel in s.channels && s.channels[Step(s, a).reader.channel].closes == 0
  {
  }

  /** While the reader holds a channel, only a drain with the request still in pending closes it. */
  lemma HoldingGoesOn(s: State, a: Action)
    requires Invariant(s) && Enabled(s, a) && !a.Read? && Step(s, a).reader.Holding?
    ensures var t, c := Step(s, a), s.reader.channel;
            && s.reader.Holding? && t.reader == s.reader && c in s.channels && c in t.channels
            && (t.channels[c].closes > 0 <==> s.channels[c].closes > 0 || (a.Drain? && c in s.pending))
  {
  }

  ghost predicate ClosedWhileHeld(actions: seq<Action>, i: nat, channel: RequestId)
    requires Possible(actions)
  {
    exists j: nat :: i < j && DrainedAt(actions, j, channel)
  }

  lemma {:induction false} ReaderIsTracked(actions: seq<Action>) returns (i: nat)
    requires Possible(actions) && Final(actions).reader.Holding?
    ensures HeldSince(actions, i)
    ensures var s := Final(actions);
            && s.reader.channel in s.channels
            && (s.channels[s.reader.channel].closes > 0 <==> ClosedWhileHeld(actions, i, s.reader.channel))
  {
    hide Enabled, Step, Invariant, StateAt;
    var front, last := actions[..|actions| - 1], actions[|actions| - 1];
    LastStep(actions);
    RunsKeepInvariant(front);
    forall n: nat | n < |actions|
      ensures StateAt(front, n) == StateAt(actions, n)
    {
      StateInPrefix(actions, n);
    }
    if last.Read? {
      HoldingStarts(Final(front), last);
      i := |front|;
    } else {
      HoldingGoesOn(Final(front), last);
      i := ReaderIsTracked(front);
      var c := Final(front).reader.channel;
      DrainsInPrefix(actions, i, c);
    }
  }

  lemma DrainsInPrefix(actions: seq<Action>, i: nat, channel: RequestId)
    requires Possible(actions) && i < |actions| - 1
    ensures Possible(actions[..|actions| - 1])
    ensures ClosedWhileHeld(actions, i, channel) <==>
            ClosedWhileHeld(actions[..|actions| - 1], i, channel) || DrainedAt(actions, |actions| - 1, channel)
  {
    hide StateAt, Enabled;
    var front := actions[..|actions| - 1];
    forall j: nat | j < |front|
      ensures DrainedAt(front, j, channel) <==> DrainedAt(actions, j, channel)
    {
      StateInPrefix(actions, j);
    }
    if j: nat :| i < j && DrainedAt(front, j, channel) {
      assert DrainedAt(actions, j, channel);
    }
  }

  lemma HeldSinceOnce(actions: seq<Action>, i: nat, k: nat)
    requires Possible(actions) && HeldSince(actions, i) && HeldSince(actions, k)
    ensures i == k
  {
    hide StateAt;
  }

  /** The reader's send meets a closed channel, which ends the process, exactly when the drain came between the lookup
      and the send while the request was still registered. */
  lemma SendMeetsClosedChannelIff(actions: seq<Action>)
    requires Possible(actions)
    ensures Enabled(Final(actions), SendOnClosed) <==>
            Final(actions).reader.Holding?
            && exists i: nat :: HeldSince(actions, i) && ClosedWhileHeld(actions, i, Final(actions).reader.channel)
  {
    hide HeldSince, ClosedWhileHeld, Possible;
    if Final(actions).reader.Holding? {
      var i := ReaderIsTracked(actions);
      if k: nat :| HeldSince(actions, k) && ClosedWhileHeld(actions, k, Final(actions).reader.channel) {
        HeldSinceOnce(actions, i, k);
      }
    }
  }
}
