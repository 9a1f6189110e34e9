/** The event dispatcher of a backend: one physical stream, many subscribers. */
module Dispatcher {
  import opened Basics

  type RunId = nat
  type CallId = nat

  /** A physical dispatcher is set up, then runs, then is cleaned up; a setup that comes to
      nothing cleans up behind itself. */
  datatype Phase = Setup | Running | Cleanup | Ended

  /** One caller of Events with its channel. `sent` lists the drop count carried by each event
      put into the channel, `queued` how many of them are still unread; `seen` counts the
      active signals processed while the caller was subscribed. */
  datatype Subscriber = Subscriber(
    buffer: nat, queued: nat, sent: seq<nat>, dropped: nat, seen: nat, admitted: bool, closes: nat)

  /** What the events lock guards: the setup under way, the published run, whether events are
      retired, all physical dispatchers ever begun, all callers ever, and the subscribers. */
  datatype State = State(
    starting: Option<RunId>, run: Option<RunId>, retired: bool, runs: map<RunId, Phase>,
    calls: map<CallId, Subscriber>, subscribers: set<CallId>)

  const INITIAL := State(None, None, false, map[], map[], {})

  datatype Op =
    | NewCall(c: CallId, buffer: nat)
    | Refuse(c: CallId)
    | Reserve(c: CallId)
    | Withdraw(c: CallId)
    | Retire
    | BeginSetup(r: RunId)
    | PublishRun(connected: bool)
    | AbandonSetup
    | BeginCleanup(r: RunId)
    | FinishCleanup(r: RunId)
    | Deliver
    | Coalesce
    | Receive(c: CallId)

  /** The sum over delivered events of one plus the drops they report. */
  function Accounted(sent: seq<nat>): nat {
    if sent == [] then 0 else Accounted(sent[..|sent| - 1]) + 1 + sent[|sent| - 1]
  }

  /** Fan-out to one subscriber: enqueue if there is room, else count the drop. */
  function Offer(sub: Subscriber): Subscriber {
    var seen := sub.(seen := sub.seen + 1);
    if sub.queued < sub.buffer then seen.(queued := sub.queued + 1, sent := sub.sent + [sub.dropped], dropped := 0)
    else seen.(dropped := sub.dropped + 1)
  }

  /** A subscriber with room in its channel gets the event, with the drops since the last one on it; one
      without has one drop more and nothing new to read. */
  predicate Offered(sub: Subscriber, sub': Subscriber) {
    && sub'.seen == sub.seen + 1 && sub'.buffer == sub.buffer && sub'.closes == sub.closes
    && (sub.queued < sub.buffer ==>
          sub'.queued == sub.queued + 1 && sub'.sent == sub.sent + [sub.dropped] && sub'.dropped == 0)
    && (sub.queued >= sub.buffer ==>
          sub'.queued == sub.queued && sub'.sent == sub.sent && sub'.dropped == sub.dropped + 1)
  }

  function Drop(sub: Subscriber): Subscriber { sub.(seen := sub.seen + 1, dropped := sub.dropped + 1) }

  function CloseOut(sub: Subscriber): Subscriber { sub.(closes := sub.closes + 1) }

  function OfferAll(s: State, subs: set<CallId>): State {
    s.(calls := map c | c in s.calls :: if c in subs then Offer(s.calls[c]) else s.calls[c])
  }

  function DropAll(s: State, subs: set<CallId>): State {
    s.(calls := map c | c in s.calls :: if c in subs then Drop(s.calls[c]) else s.calls[c])
  }

  /** Closes the channels of several subscribers and forgets them. */
  function CloseAll(s: State, subs: set<CallId>): State {
    s.(calls := map c | c in s.calls :: if c in subs then CloseOut(s.calls[c]) else s.calls[c], subscribers := s.subscribers - subs)
  }

  /** May a new subscriber come in, or is an empty dispatcher still being torn down? */
  predicate Admits(s: State) { !s.retired && (s.subscribers != {} || (s.run.None? && s.starting.None?)) }

  predicate Active(s: State) { s.run.Some? && s.run.value in s.runs && s.runs[s.run.value] == Running }

  /** One section under the lock; an operation whose guard fails changes nothing. */
  function Step(s: State, op: Op): State {
    match op
    case NewCall(c, buffer) => if c in s.calls then s else s.(calls := s.calls[c := Subscriber(buffer, 0, [], 0, 0, false, 0)])
    case Refuse(c) =>
      if c !in s.calls || s.calls[c].admitted || s.calls[c].closes > 0 then s else s.(calls := s.calls[c := CloseOut(s.calls[c])])
    case Reserve(c) =>
      if c !in s.calls || s.calls[c].admitted || s.calls[c].closes > 0 || !Admits(s) then s
      else s.(calls := s.calls[c := s.calls[c].(admitted := true)], subscribers := s.subscribers + {c})
    case Withdraw(c) => if c in s.subscribers then CloseAll(s, {c}) else s
    case Retire => s.(retired := true)
    case BeginSetup(r) =>
      if r in s.runs || s.retired || s.run.Some? || s.starting.Some? then s else s.(starting := Some(r), runs := s.runs[r := Setup])
    case PublishRun(connected) =>
      if s.starting.None? || s.retired || !connected || s.subscribers == {} then s
      else s.(run := s.starting, starting := None, runs := s.runs[s.starting.value := Running])
    case AbandonSetup =>
      if s.starting.None? then s else s.(starting := None, runs := s.runs[s.starting.value := Ended])
    case BeginCleanup(r) =>
      if r !in s.runs || s.runs[r] != Running then s
      else
        var t := s.(runs := s.runs[r := Cleanup]);
        if s.run == Some(r) then CloseAll(t, s.subscribers) else t
    case FinishCleanup(r) =>
      if r !in s.runs || s.runs[r] != Cleanup then s
      else s.(run := if s.run == Some(r) then None else s.run, runs := s.runs[r := Ended])
    case Deliver => if Active(s) then OfferAll(s, s.subscribers) else s
    case Coalesce => if Active(s) then DropAll(s, s.subscribers) else s
    case Receive(c) =>
      if c !in s.calls || s.calls[c].queued == 0 then s else s.(calls := s.calls[c := s.calls[c].(queued := s.calls[c].queued - 1)])
  }

  /** One event reaches exactly the subscribers with room. */
  lemma DeliverOffers(s: State)
    requires Active(s)
    ensures forall c :: c in s.subscribers && c in s.calls ==>
      c in Step(s, Op.Deliver).calls && Offered(s.calls[c], Step(s, Op.Deliver).calls[c])
    ensures forall c :: c in s.calls && c !in s.subscribers ==> c in Step(s, Op.Deliver).calls && Step(s, Op.Deliver).calls[c] == s.calls[c]
  {}

  // ------------------------------------------------------------------ invariants

  /** The physical dispatchers at work are the one being set up and the published one. */
  predicate OneStream(s: State) {
    && (s.starting.None? || s.run.None?)
    && (s.starting.Some? ==> s.starting.value in s.runs) && (s.run.Some? ==> s.run.value in s.runs)
    && forall r :: r in s.runs ==> (s.runs[r] == Setup <==> s.starting == Some(r))
                                   && (s.runs[r] in {Running, Cleanup} <==> s.run == Some(r))
  }

  predicate FairAccount(sub: Subscriber) {
    sub.seen == Accounted(sub.sent) + sub.dropped && sub.queued <= sub.buffer && sub.queued <= |sub.sent|
  }

  /** An open channel belongs to a subscriber or to a caller not admitted yet. */
  predicate Channels(s: State) {
    && s.subscribers <= s.calls.Keys
    && forall c :: c in s.calls ==> FairAccount(s.calls[c]) && s.calls[c].closes <= 1
                                    && (c in s.subscribers <==> s.calls[c].admitted && s.calls[c].closes == 0)
  }

  predicate Inv(s: State) {
    && OneStream(s) && Channels(s)
    && (s.run.Some? && s.runs[s.run.value] == Cleanup ==> s.subscribers == {})
  }

  lemma OfferFair(sub: Subscriber)
    requires FairAccount(sub)
    ensures FairAccount(Offer(sub)) && FairAccount(Drop(sub))
  {
    var sent := sub.sent + [sub.dropped];
    assert sent[..|sent| - 1] == sub.sent;
  }

  lemma StepKeepsStream(s: State, op: Op)
    requires Inv(s)
    ensures OneStream(Step(s, op))
  {
    hide FairAccount, Channels;
  }

  lemma SignalKeepsChannels(s: State)
    requires Channels(s)
    ensures Channels(OfferAll(s, s.subscribers)) && Channels(DropAll(s, s.subscribers))
  {
    hide FairAccount;
    forall c | c in s.calls ensures FairAccount(Offer(s.calls[c])) && FairAccount(Drop(s.calls[c])) { OfferFair(s.calls[c]); }
  }

  lemma ClosingKeepsChannels(s: State, subs: set<CallId>)
    requires Channels(s) && subs <= s.subscribers
    ensures Channels(CloseAll(s, subs))
  {
    hide FairAccount;
    ClosingIsFair(s);
  }

  lemma CallsKeepChannels(s: State, op: Op)
    requires Channels(s) && (op.NewCall? || op.Refuse? || op.Reserve? || op.Receive?)
    ensures Channels(Step(s, op))
  {
    hide FairAccount;
    ClosingIsFair(s);
    AdmittingIsFair(s);
    match op {
      case NewCall(c, buffer) => EmptyIsFair(buffer);
      case Receive(c) => if c in s.calls && s.calls[c].queued > 0 { ReceiveIsFair(s.calls[c]); }
      case _ =>
    }
  }

  lemma StepKeepsChannels(s: State, op: Op)
    requires Channels(s)
    ensures Channels(Step(s, op))
  {
    hide FairAccount, OfferAll, DropAll, CloseAll;
    match op {
      case NewCall(_, _) => CallsKeepChannels(s, op);
      case Refuse(_) => CallsKeepChannels(s, op);
      case Reserve(_) => CallsKeepChannels(s, op);
      case Receive(_) => CallsKeepChannels(s, op);
      case Deliver => SignalKeepsChannels(s);
      case Coalesce => SignalKeepsChannels(s);
      case Withdraw(c) => if c in s.subscribers { ClosingKeepsChannels(s, {c}); }
      case BeginCleanup(r) => if r in s.runs { ClosingKeepsChannels(s.(runs := s.runs[r := Cleanup]), s.subscribers); }
      case _ =>
    }
  }

  lemma EmptyIsFair(buffer: nat)
    ensures FairAccount(Subscriber(buffer, 0, [], 0, 0, false, 0))
  {}

  lemma ReceiveIsFair(sub: Subscriber)
    requires FairAccount(sub) && sub.queued > 0
    ensures FairAccount(sub.(queued := sub.queued - 1))
  {}

  lemma ClosingIsFair(s: State)
    requires Channels(s)
    ensures forall c :: c in s.calls ==> FairAccount(CloseOut(s.calls[c]))
  {}

  lemma AdmittingIsFair(s: State)
    requires Channels(s)
    ensures forall c :: c in s.calls ==> FairAccount(s.calls[c].(admitted := true))
  {}

  lemma StepKeeps(s: State, op: Op)
    requires Inv(s)
    ensures Inv(Step(s, op))
  {
    StepKeepsStream(s, op);
    StepKeepsChannels(s, op);
    hide OneStream, Channels, Accounted;
    var s' := Step(s, op);
    if s'.run.Some? && s'.runs[s'.run.value] == Cleanup {
      NobodyInCleanup(s, op);
    }
  }

  lemma NobodyInCleanup(s: State, op: Op)
    requires Inv(s) && OneStream(Step(s, op))
    ensures var s' := Step(s, op); s'.run.Some? && s'.runs[s'.run.value] == Cleanup ==> s'.subscribers == {}
  {
    hide FairAccount, Accounted;
  }

  // -------------------------------------------------------------------- all runs

  function Run(s: State, ops: seq<Op>): State {
    if ops == [] then s else Step(Run(s, ops[..|ops| - 1]), ops[|ops| - 1])
  }

  lemma {:induction false} RunKeeps(ops: seq<Op>)
    ensures Inv(Run(INITIAL, ops))
  {
    if ops != [] {
      RunKeeps(ops[..|ops| - 1]);
      StepKeeps(Run(INITIAL, ops[..|ops| - 1]), ops[|ops| - 1]);
    }
  }

  /** At most one physical dispatcher is being set up, running or cleaning up. */
  lemma OneDispatcher(ops: seq<Op>, q: RunId, r: RunId)
    requires var s := Run(INITIAL, ops); q in s.runs && r in s.runs && s.runs[q] != Ended && s.runs[r] != Ended
    ensures q == r
  {
    RunKeeps(ops);
  }

  /** A dispatcher being cleaned up has no subscribers, and gets none. */
  lemma NobodyJoinsCleanup(ops: seq<Op>, c: CallId)
    requires var s := Run(INITIAL, ops); s.run.Some? && s.run.value in s.runs && s.runs[s.run.value] == Cleanup
    ensures var s := Run(INITIAL, ops); s.subscribers == {} && Step(s, Reserve(c)) == s
  {
    RunKeeps(ops);
  }

  /** For each subscriber the signals processed while it was subscribed are the events it was
      sent, each with the drops it reports, and the drops still pending. */
  lemma NothingUnaccounted(ops: seq<Op>, c: CallId)
    requires c in Run(INITIAL, ops).calls
    ensures var sub := Run(INITIAL, ops).calls[c]; sub.seen == Accounted(sub.sent) + sub.dropped
  {
    RunKeeps(ops);
  }

  /** `seen` counts exactly the active signals processed while subscribed. */
  lemma SeenCountsSignals(ops: seq<Op>, op: Op, c: CallId)
    requires c in Run(INITIAL, ops).calls
    ensures var s := Run(INITIAL, ops);
      c in Step(s, op).calls && Step(s, op).calls[c].seen == s.calls[c].seen
        + if op in {Deliver, Coalesce} && Active(s) && c in s.subscribers then 1 else 0
  {
    RunKeeps(ops);
    hide FairAccount, Accounted, OneStream, Admits;
    var s := Run(INITIAL, ops);
    if op.Deliver? && Active(s) {
      assert Step(s, op) == OfferAll(s, s.subscribers);
    } else if op.Coalesce? && Active(s) {
      assert Step(s, op) == DropAll(s, s.subscribers);
    }
  }

  /** A channel is closed at most once, exactly when its caller was refused or is no longer
      subscribed. */
  lemma ClosedOnce(ops: seq<Op>, c: CallId)
    requires c in Run(INITIAL, ops).calls
    ensures var s := Run(INITIAL, ops); var sub := s.calls[c];
      && sub.closes <= 1 && (c in s.subscribers ==> sub.closes == 0) && (sub.admitted && c !in s.subscribers ==> sub.closes == 1)
  {
    hide OneStream, FairAccount;
    RunKeeps(ops);
  }

  lemma StepLeavesClosed(s: State, op: Op, c: CallId)
    requires Channels(s) && c in s.calls && s.calls[c].closes == 1
    ensures c in Step(s, op).calls && Step(s, op).calls[c].closes == 1 && Step(s, op).calls[c].sent == s.calls[c].sent
  {
    hide FairAccount;
  }

  /** Once closed a channel is never closed again and nothing more is sent into it, whatever follows. */
  lemma {:induction false} ClosedForGood(s: State, more: seq<Op>, c: CallId)
    requires Channels(s) && c in s.calls && s.calls[c].closes == 1
    ensures var t := Run(s, more);
      Channels(t) && c in t.calls && t.calls[c].closes == 1 && t.calls[c].sent == s.calls[c].sent
  {
    hide Channels;
    if more != [] {
      ClosedForGood(s, more[..|more| - 1], c);
      var t := Run(s, more[..|more| - 1]);
      StepKeepsChannels(t, more[|more| - 1]);
      StepLeavesClosed(t, more[|more| - 1], c);
    }
  }

  // ------------------------------------------------------------------ the sections

  /** The fan-out's choice for one subscriber. */
  method OfferOne(sub0: Subscriber) returns (sub: Subscriber)
    ensures sub == Offer(sub0)
  {
    var event := sub0.dropped;
    sub := sub0.(seen := sub0.seen + 1);
    if sub.queued < sub.buffer {
      sub := sub.(sent := sub.sent + [event], queued := sub.queued + 1, dropped := 0);
    } else {
      sub := sub.(dropped := sub.dropped + 1);
    }
  }

  lemma CloseOne(s: State, c: CallId)
    requires c in s.subscribers && c in s.calls
    ensures CloseAll(s, {c}) == s.(subscribers := s.subscribers - {c}, calls := s.calls[c := CloseOut(s.calls[c])])
  {}

  lemma CloseEverybody(s: State)
    ensures CloseAll(s, s.subscribers).subscribers == {}
  {}

  lemma CloseNone(s: State)
    ensures CloseAll(s, {}) == s
  {
    assert s.subscribers - {} == s.subscribers;
  }

  lemma CloseNext(s: State, done: set<CallId>, c: CallId)
    requires c in s.calls && c !in done
    ensures c in CloseAll(s, done).calls && CloseAll(s, done).calls[c] == s.calls[c]
    ensures CloseAll(s, done + {c}) == CloseAll(s, done).(
      calls := CloseAll(s, done).calls[c := CloseOut(s.calls[c])], subscribers := CloseAll(s, done).subscribers - {c})
  {
    assert s.subscribers - (done + {c}) == s.subscribers - done - {c};
  }

  lemma OfferNone(s: State)
    ensures OfferAll(s, {}) == s
  {}

  lemma OfferNext(s: State, done: set<CallId>, c: CallId)
    requires c in s.calls && c !in done
    ensures OfferAll(s, done + {c}) == OfferAll(s, done).(calls := OfferAll(s, done).calls[c := Offer(s.calls[c])])
    ensures c in OfferAll(s, done).calls && OfferAll(s, done).calls[c] == s.calls[c]
  {}

  lemma DropNone(s: State)
    ensures DropAll(s, {}) == s
  {}

  lemma DropNext(s: State, done: set<CallId>, c: CallId)
    requires c in s.calls && c !in done
    ensures DropAll(s, done + {c}) == DropAll(s, done).(calls := DropAll(s, done).calls[c := Drop(s.calls[c])])
    ensures c in DropAll(s, done).calls && DropAll(s, done).calls[c] == s.calls[c]
  {}

  /** The dispatcher's locked sections. */
  class EventDispatcher {
    var s: State

    constructor ()
      ensures s == INITIAL
    {
      s := INITIAL;
    }

    /** `reserveEventSubscriber`: admitted, or told to wait for a run that is being torn down. */
    method Reserve(c: CallId) returns (admitted: bool, wait: Option<RunId>)
      requires Inv(s) && c in s.calls && !s.calls[c].admitted && s.calls[c].closes == 0
      modifies this
      ensures Inv(s) && s == Step(old(s), Op.Reserve(c))
      ensures admitted <==> c in s.subscribers
      ensures admitted <==> (!old(s).retired && (old(s).subscribers != {} || (old(s).run.None? && old(s).starting.None?)))
      ensures wait.Some? ==> !admitted && !s.retired && s.subscribers == {} && (s.run == wait || s.starting == wait)
      ensures !admitted && wait.None? ==> s.retired
    {
      StepKeeps(s, Op.Reserve(c));
      if s.retired { return false, None; }
      if s.subscribers == {} {
        if s.run.Some? { return false, s.run; }
        if s.starting.Some? { return false, s.starting; }
      }
      s := s.(calls := s.calls[c := s.calls[c].(admitted := true)], subscribers := s.subscribers + {c});
      return true, None;
    }

    /** The locked head of `startEvents`: begins a setup unless a stream is there or under way. */
    method BeginSetup(r: RunId) returns (begun: bool)
      requires Inv(s) && r !in s.runs
      modifies this
      ensures Inv(s) && s == Step(old(s), Op.BeginSetup(r)) && (begun <==> s.starting == Some(r))
      ensures begun <==> !old(s).retired && old(s).run.None? && old(s).starting.None?
    {
      StepKeeps(s, Op.BeginSetup(r));
      if s.retired || s.run.Some? || s.starting.Some? { return false; }
      s := s.(starting := Some(r), runs := s.runs[r := Setup]);
      return true;
    }

    /** The locked tail of `startEvents` after a successful setup. */
    method PublishRun(connected: bool) returns (live: bool)
      requires Inv(s) && s.starting.Some?
      modifies this
      ensures Inv(s) && s == Step(old(s), Op.PublishRun(connected)) && (live <==> s.run == old(s).starting)
      ensures live <==> connected && !old(s).retired && old(s).subscribers != {}
    {
      StepKeeps(s, Op.PublishRun(connected));
      live := !s.retired && connected && s.subscribers != {};
      if live {
        s := s.(run := s.starting, starting := None, runs := s.runs[s.starting.value := Running]);
      }
    }

    /** `finishEventStart`, after what the setup left behind has been cleaned up. */
    method FinishStart()
      requires Inv(s) && s.starting.Some?
      modifies this
      ensures Inv(s) && s == Step(old(s), AbandonSetup) && s.starting.None?
    {
      StepKeeps(s, AbandonSetup);
      s := s.(runs := s.runs[s.starting.value := Ended], starting := None);
    }

    /** Cancellation in `watchSubscriber`, and the failure path of `Events`: the last one out
        stops the run or the setup. */
    method Withdraw(c: CallId) returns (stop: Option<RunId>)
      requires Inv(s)
      modifies this
      ensures Inv(s) && s == Step(old(s), Op.Withdraw(c))
      ensures stop.Some? ==> c in old(s).subscribers && s.subscribers == {} && (s.run == stop || s.starting == stop)
      ensures stop.Some? <==> (old(s).subscribers == {c} && (old(s).run.Some? || old(s).starting.Some?))
    {
      StepKeeps(s, Op.Withdraw(c));
      stop := None;
      if c in s.subscribers {
        CloseOne(s, c);
        s := s.(subscribers := s.subscribers - {c}, calls := s.calls[c := CloseOut(s.calls[c])]);
        if s.subscribers == {} { stop := if s.run.Some? then s.run else s.starting; }
      }
    }

    /** Closes subscribers one by one. */
    method CloseSubscribers(subs: set<CallId>)
      requires subs <= s.calls.Keys
      modifies this
      ensures s == CloseAll(old(s), subs)
    {
      hide CloseAll, CloseOut;
      CloseNone(s);
      var todo := subs;
      assert subs - todo == {};
      while todo != {}
        invariant todo <= subs && s == CloseAll(old(s), subs - todo)
        decreases todo
      {
        var c :| c in todo;
        CloseNext(old(s), subs - todo, c);
        s := s.(calls := s.calls[c := CloseOut(s.calls[c])], subscribers := s.subscribers - {c});
        assert subs - (todo - {c}) == (subs - todo) + {c};
        todo := todo - {c};
      }
      assert subs - todo == subs;
    }

    /** `beginEventDispatcherCleanup`: admission closes before cleanup can block. */
    method BeginCleanup(r: RunId)
      requires Inv(s) && r in s.runs && s.runs[r] == Running
      modifies this
      ensures Inv(s) && s == Step(old(s), Op.BeginCleanup(r)) && s.subscribers == {}
    {
      hide FairAccount, CloseAll;
      StepKeeps(s, Op.BeginCleanup(r));
      s := s.(runs := s.runs[r := Cleanup]);
      CloseEverybody(s);
      CloseSubscribers(s.subscribers);
    }

    /** `finishEventDispatcher`. */
    method FinishCleanup(r: RunId)
      requires Inv(s) && r in s.runs && s.runs[r] == Cleanup
      modifies this
      ensures Inv(s) && s == Step(old(s), Op.FinishCleanup(r)) && s.run.None?
    {
      StepKeeps(s, Op.FinishCleanup(r));
      s := s.(run := None, runs := s.runs[r := Ended]);
    }

    /** Offers one event to subscribers one by one. */
    method OfferTo(subs: set<CallId>)
      requires subs <= s.calls.Keys
      modifies this
      ensures s == OfferAll(old(s), subs)
    {
      hide OfferAll, Offer;
      OfferNone(s);
      var todo := subs;
      assert subs - todo == {};
      while todo != {}
        invariant todo <= subs && s == OfferAll(old(s), subs - todo)
        decreases todo
      {
        var c :| c in todo;
        OfferNext(old(s), subs - todo, c);
        var sub := OfferOne(s.calls[c]);
        s := s.(calls := s.calls[c := sub]);
        assert subs - (todo - {c}) == (subs - todo) + {c};
        todo := todo - {c};
      }
      assert subs - todo == subs;
    }

    /** `deliverEvent`: a full channel costs its subscriber the event, and the next one says so. */
    method Deliver()
      requires Inv(s) && Active(s)
      modifies this
      ensures Inv(s) && s == Step(old(s), Op.Deliver)
      ensures forall c :: c in old(s).subscribers && c in old(s).calls ==> c in s.calls && Offered(old(s).calls[c], s.calls[c])
    {
      hide FairAccount, OfferAll, Offered;
      DeliverOffers(s);
      StepKeeps(s, Op.Deliver);
      OfferTo(s.subscribers);
    }

    /** A repeated event costs every subscriber one drop. */
    method Coalesce()
      requires Inv(s) && Active(s)
      modifies this
      ensures Inv(s) && s == Step(old(s), Op.Coalesce)
    {
      hide FairAccount, DropAll;
      StepKeeps(s, Op.Coalesce);
      DropNone(s);
      var subs, todo := s.subscribers, s.subscribers;
      assert subs - todo == {};
      while todo != {}
        invariant todo <= subs && s == DropAll(old(s), subs - todo)
        decreases todo
      {
        var c :| c in todo;
        DropNext(old(s), subs - todo, c);
        var sub := s.calls[c];
        s := s.(calls := s.calls[c := sub.(seen := sub.seen + 1, dropped := sub.dropped + 1)]);
        assert subs - (todo - {c}) == (subs - todo) + {c};
        todo := todo - {c};
      }
      assert subs - todo == subs;
    }

    /** One physical signal in the dispatcher's loop: after a dead backend's signal nothing is handed on,
        a repeated event is only counted, any other is delivered. */
    method HandleSignal(active: bool, repeated: bool)
      requires Inv(s) && Active(s)
      modifies this
      ensures Inv(s) && s == if !active then old(s) else Step(old(s), if repeated then Op.Coalesce else Op.Deliver)
    {
      if !active { return; }
      if repeated { Coalesce(); } else { Deliver(); }
    }
  }
}
