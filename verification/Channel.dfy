/** The workflow channel (pkg/sdk/workflow/channel.go). The lock makes each
    critical section one step; a send or receive that blocks leaves a waiter,
    and the step that completes it is recorded when it happens. */
module Channel {
  import opened Basics

  type Payload = string

  /** A parked sender, and a completed receive: no value means closed. */
  datatype Sender = Sender(id: nat, payload: Payload)
  datatype Answer = Answer(id: nat, value: Option<Payload>)

  datatype Chan = Chan(size: nat, buf: seq<Payload>, receivers: seq<nat>, senders: seq<Sender>, wakers: seq<nat>,
      closed: bool)

  /** What has happened so far: sends in order with the ids of those that
      returned, receives in order with their answers, wakers and those fired. */
  datatype Log = Log(sent: seq<Payload>, sentBy: seq<nat>, returned: seq<nat>,
                     asked: seq<nat>, answered: seq<Answer>, registered: seq<nat>, fired: seq<nat>)

  datatype State = State(c: Chan, log: Log)

  function Initial(size: nat): State
  {
    State(Chan(size, [], [], [], [], false), Log([], [], [], [], [], [], []))
  }

  predicate Readable(c: Chan) { c.buf != [] || (c.size == 0 && c.senders != []) || c.closed }

  // -------------------------------------------------------------- operations

  function Wake(st: State): State
  {
    State(st.c.(wakers := []), st.log.(fired := st.log.fired + st.c.wakers))
  }

  function Reply(log: Log, id: nat, v: Option<Payload>): Log
  {
    log.(answered := log.answered + [Answer(id, v)])
  }

  /** A send: to a waiting receiver, else into the buffer, else parked. On a
      closed channel it panics and changes nothing. */
  function Send(st: State, id: nat, p: Payload): State
  {
    var c, log := st.c, st.log.(sent := st.log.sent + [p], sentBy := st.log.sentBy + [id]);
    var done := log.(returned := log.returned + [id]);
    if c.closed then st
    else if c.receivers != [] then State(c.(receivers := c.receivers[1..]), Reply(done, c.receivers[0], Some(p)))
    else if c.size > 0 && |c.buf| < c.size then Wake(State(c.(buf := c.buf + [p]), done))
    else
      var parked := State(c.(senders := c.senders + [Sender(id, p)]), log);
      if c.size == 0 then Wake(parked) else parked
  }

  /** The first buffered value, with a parked sender moved into its slot. */
  function TakeBuffered(st: State, id: nat): State
    requires st.c.buf != []
  {
    var c, log := st.c, Reply(st.log.(asked := st.log.asked + [id]), id, Some(st.c.buf[0]));
    if c.senders == [] then State(c.(buf := c.buf[1..]), log)
    else State(c.(buf := c.buf[1..] + [c.senders[0].payload], senders := c.senders[1..]),
               log.(returned := log.returned + [c.senders[0].id]))
  }

  function TakeParked(st: State, id: nat): State
    requires st.c.senders != []
  {
    var s := st.c.senders[0];
    State(st.c.(senders := st.c.senders[1..]),
          Reply(st.log.(asked := st.log.asked + [id], returned := st.log.returned + [s.id]), id, Some(s.payload)))
  }

  function Receive(st: State, id: nat): State
  {
    var c, log := st.c, st.log.(asked := st.log.asked + [id]);
    if c.buf != [] then TakeBuffered(st, id)
    else if c.closed then State(c, Reply(log, id, None))
    else if c.size == 0 && c.senders != [] then TakeParked(st, id)
    else State(c.(receivers := c.receivers + [id]), log)
  }

  /** The non-blocking receive: nothing happens when it finds no value. */
  function ReceiveAsync(st: State, id: nat): State
  {
    if st.c.buf != [] then TakeBuffered(st, id)
    else if st.c.size == 0 && st.c.senders != [] then TakeParked(st, id)
    else st
  }

  function Nothing(ids: seq<nat>): (a: seq<Answer>)
    ensures |a| == |ids| && forall i :: 0 <= i < |ids| ==> a[i] == Answer(ids[i], None)
  {
    seq(|ids|, i requires 0 <= i < |ids| => Answer(ids[i], None))
  }

  function Close(st: State): State
  {
    if st.c.closed then st
    else Wake(State(st.c.(closed := true, receivers := []),
        st.log.(answered := st.log.answered + Nothing(st.c.receivers))))
  }

  function Register(st: State, w: nat): State
  {
    var log := st.log.(registered := st.log.registered + [w]);
    if Readable(st.c) then State(st.c, log.(fired := log.fired + [w]))
    else State(st.c.(wakers := st.c.wakers + [w]), log)
  }

  datatype Step = DoSend(id: nat, p: Payload) | DoReceive(id: nat) | DoReceiveAsync(id: nat) | DoClose
      | DoRegister(w: nat)

  function Apply(st: State, step: Step): State
  {
    match step
    case DoSend(id, p) => Send(st, id, p)
    case DoReceive(id) => Receive(st, id)
    case DoReceiveAsync(id) => ReceiveAsync(st, id)
    case DoClose => Close(st)
    case DoRegister(w) => Register(st, w)
  }

  ghost function After(st: State, steps: seq<Step>): State
  {
    if steps == [] then st else Apply(After(st, steps[..|steps| - 1]), steps[|steps| - 1])
  }

  // --------------------------------------------------------------- invariant

  function Values(a: seq<Answer>): seq<Payload>
  {
    if a == [] then []
    else Values(a[..|a| - 1]) + (if a[|a| - 1].value.Some? then [a[|a| - 1].value.value] else [])
  }

  function Answered(a: seq<Answer>): seq<nat> { seq(|a|, i requires 0 <= i < |a| => a[i].id) }

  function Payloads(s: seq<Sender>): seq<Payload> { seq(|s|, i requires 0 <= i < |s| => s[i].payload) }

  function Ids(s: seq<Sender>): seq<nat> { seq(|s|, i requires 0 <= i < |s| => s[i].id) }

  /** Who may wait: receivers only with nothing to take, senders on a buffered
      channel only with the buffer full, wakers only while it is unreadable. */
  ghost predicate Waits(c: Chan)
  {
    && (c.receivers != [] ==> c.buf == [] && c.senders == [] && !c.closed)
    && |c.buf| <= c.size
    && (c.size > 0 && c.senders != [] ==> |c.buf| == c.size)
    && (c.wakers != [] ==> !Readable(c))
  }

  /** First in, first out, nothing lost or doubled. */
  ghost predicate Conserved(st: State)
  {
    && Values(st.log.answered) + st.c.buf + Payloads(st.c.senders) == st.log.sent
    && st.log.returned + Ids(st.c.senders) == st.log.sentBy
    && Answered(st.log.answered) + st.c.receivers == st.log.asked
    && st.log.fired + st.c.wakers == st.log.registered
  }

  ghost predicate Inv(st: State) { Waits(st.c) && Conserved(st) }

  lemma {:induction false} AnswerSnoc(a: seq<Answer>, x: Answer)
    ensures Values(a + [x]) == Values(a) + (if x.value.Some? then [x.value.value] else [])
    ensures Answered(a + [x]) == Answered(a) + [x.id]
  {
    assert (a + [x])[..|a|] == a;
  }

  lemma SenderCons(s: seq<Sender>)
    requires s != []
    ensures Payloads(s) == [s[0].payload] + Payloads(s[1..]) && Ids(s) == [s[0].id] + Ids(s[1..])
  {
  }

  lemma SenderSnoc(s: seq<Sender>, x: Sender)
    ensures Payloads(s + [x]) == Payloads(s) + [x.payload] && Ids(s + [x]) == Ids(s) + [x.id]
  {
  }

  lemma NothingSnoc(a: seq<Answer>, ids: seq<nat>)
    requires ids != []
    ensures var n := |ids| - 1; a + Nothing(ids) == a + Nothing(ids[..n]) + [Answer(ids[n], None)]
  {
    assert Nothing(ids) == Nothing(ids[..|ids| - 1]) + [Answer(ids[|ids| - 1], None)];
  }

  lemma {:induction false} NothingValues(a: seq<Answer>, ids: seq<nat>)
    ensures Values(a + Nothing(ids)) == Values(a) && Answered(a + Nothing(ids)) == Answered(a) + ids
    decreases |ids|
  {
    if ids == [] {
      assert a + Nothing(ids) == a;
    } else {
      var n := |ids| - 1;
      NothingValues(a, ids[..n]);
      var b, x := a + Nothing(ids[..n]), Answer(ids[n], None);
      NothingSnoc(a, ids);
      AnswerSnoc(b, x);
      assert Answered(a) + ids[..n] + [ids[n]] == Answered(a) + ids;
    }
  }

  lemma WakeKeeps(st: State)
    requires Conserved(st) && Waits(st.c.(wakers := []))
    ensures Inv(Wake(st))
  {
  }

  lemma SendKeeps(st: State, id: nat, p: Payload)
    requires Inv(st)
    ensures Inv(Send(st, id, p))
  {
    var c, log := st.c, st.log;
    if c.closed {
    } else if c.receivers != [] {
      AnswerSnoc(log.answered, Answer(c.receivers[0], Some(p)));
      assert c.receivers == [c.receivers[0]] + c.receivers[1..];
    } else if c.size > 0 && |c.buf| < c.size {
      WakeKeeps(State(c.(buf := c.buf + [p]), log.(sent := log.sent + [p], sentBy := log.sentBy + [id],
          returned := log.returned + [id])));
    } else {
      SenderSnoc(c.senders, Sender(id, p));
      var parked := State(c.(senders := c.senders + [Sender(id, p)]),
          log.(sent := log.sent + [p], sentBy := log.sentBy + [id]));
      assert Conserved(parked);
      if c.size == 0 { WakeKeeps(parked); }
    }
  }

  lemma Moved(vs: seq<Payload>, buf: seq<Payload>, ps: seq<Payload>, rest: seq<Payload>)
    requires buf != []
    ensures vs + [buf[0]] + buf[1..] + ps == vs + buf + ps
    ensures ps != [] && rest == ps[1..] ==> vs + [buf[0]] + (buf[1..] + [ps[0]]) + rest == vs + buf + ps
  {
  }

  lemma TakeBufferedKeeps(st: State, id: nat)
    requires Inv(st) && st.c.buf != []
    ensures Inv(TakeBuffered(st, id))
  {
    var c, log := st.c, st.log;
    var st' := TakeBuffered(st, id);
    AnswerSnoc(log.answered, Answer(id, Some(c.buf[0])));
    if c.senders == [] {
      Moved(Values(log.answered), c.buf, Payloads(c.senders), []);
    } else {
      SenderCons(c.senders);
      Moved(Values(log.answered), c.buf, Payloads(c.senders), Payloads(c.senders[1..]));
      assert st'.log.returned + Ids(st'.c.senders) == log.returned + Ids(c.senders);
    }
    assert Answered(st'.log.answered) + st'.c.receivers == st'.log.asked;
  }

  lemma TakeParkedKeeps(st: State, id: nat)
    requires Inv(st) && st.c.buf == [] && st.c.size == 0 && st.c.senders != []
    ensures Inv(TakeParked(st, id))
  {
    AnswerSnoc(st.log.answered, Answer(id, Some(st.c.senders[0].payload)));
    SenderCons(st.c.senders);
  }

  lemma CloseKeeps(st: State)
    requires Inv(st)
    ensures Inv(Close(st))
  {
    NothingValues(st.log.answered, st.c.receivers);
  }

  lemma StepKeeps(st: State, step: Step)
    requires Inv(st)
    ensures Inv(Apply(st, step))
  {
    match step {
      case DoSend(id, p) => SendKeeps(st, id, p);
      case DoReceive(id) => ReceiveKeeps(st, id);
      case DoReceiveAsync(id) =>
        if st.c.buf != [] { TakeBufferedKeeps(st, id); }
        else if st.c.size == 0 && st.c.senders != [] { TakeParkedKeeps(st, id); }
      case DoClose => CloseKeeps(st);
      case DoRegister(w) =>
    }
  }

  lemma ReceiveKeeps(st: State, id: nat)
    requires Inv(st)
    ensures Inv(Receive(st, id))
  {
    if st.c.buf != [] {
      TakeBufferedKeeps(st, id);
    } else if st.c.closed {
      AnswerSnoc(st.log.answered, Answer(id, None));
    } else if st.c.size == 0 && st.c.senders != [] {
      TakeParkedKeeps(st, id);
    }
  }

  lemma {:induction false} RunKeeps(size: nat, steps: seq<Step>)
    ensures Inv(After(Initial(size), steps))
  {
    if steps == [] {
      assert Values([]) == [];
    } else {
      RunKeeps(size, steps[..|steps| - 1]);
      StepKeeps(After(Initial(size), steps[..|steps| - 1]), steps[|steps| - 1]);
    }
  }

  /** After any operations: the values received, then the buffer, then the parked
      senders are the values sent, in order; senders return and receivers are
      answered in the order they came; receivers wait only when there is nothing
      to take; every waker has fired unless the channel is unreadable. */
  lemma {:induction false} ChannelIsFifo(size: nat, steps: seq<Step>)
    ensures var st := After(Initial(size), steps);
            && Values(st.log.answered) + st.c.buf + Payloads(st.c.senders) == st.log.sent
            && st.log.returned + Ids(st.c.senders) == st.log.sentBy
            && Answered(st.log.answered) + st.c.receivers == st.log.asked
            && (st.c.receivers != [] ==> st.c.buf == [] && st.c.senders == [])
            && st.log.fired + st.c.wakers == st.log.registered
            && (Readable(st.c) ==> st.log.fired == st.log.registered)
  {
    RunKeeps(size, steps);
    var st := After(Initial(size), steps);
    assert st.log.fired + [] == st.log.fired;
  }

  /** A send on a closed channel changes nothing. On an open one it is recorded, and
      returns at once exactly when a receiver waits, who gets the value, or the
      buffer has room. */
  lemma SendLaw(st: State, id: nat, p: Payload)
    requires Inv(st)
    ensures var st' := Send(st, id, p);
            && st'.c.closed == st.c.closed && st'.c.size == st.c.size
            && (st.c.closed ==> st' == st)
            && (!st.c.closed ==>
                  && st'.log.sent == st.log.sent + [p] && st'.log.sentBy == st.log.sentBy + [id]
                  && st'.log.asked == st.log.asked
                  && (st'.log.returned == st.log.returned + [id] <==> st.c.receivers != [] || |st.c.buf| < st.c.size)
                  && (st'.log.returned == st.log.returned <==> st.c.receivers == [] && |st.c.buf| == st.c.size)
                  && st'.log.answered == st.log.answered +
                     (if st.c.receivers == [] then [] else [Answer(st.c.receivers[0], Some(p))]))
  {
  }

  /** A receive is recorded and answered with the first value sent and not received
      yet, with the end when the channel is closed and nothing is buffered, or not
      yet when it is open and there is no such value. */
  lemma ReceiveLaw(st: State, id: nat)
    requires Inv(st)
    ensures var st', n := Receive(st, id), |Values(st.log.answered)|;
            && st'.log.sent == st.log.sent && st'.log.asked == st.log.asked + [id] && st'.c.closed == st.c.closed
            && n <= |st.log.sent|
            && st'.log.answered == st.log.answered +
               (if st.c.closed && st.c.buf == [] then [Answer(id, None)]
                else if n < |st.log.sent| then [Answer(id, Some(st.log.sent[n]))] else [])
  {
    var n := |Values(st.log.answered)|;
    if st.c.buf != [] {
      assert st.log.sent[n] == st.c.buf[0];
    } else if st.c.senders != [] {
      assert Payloads(st.c.senders)[0] == st.c.senders[0].payload == st.log.sent[n];
    }
  }

  /** Closing answers every waiting receiver with the end, in order, and leaves what
      was sent where it is. */
  lemma CloseLaw(st: State)
    ensures var st' := Close(st);
            && st'.c.closed && st'.c.buf == st.c.buf && st'.c.senders == st.c.senders && st'.log.sent == st.log.sent
            && st'.log.returned == st.log.returned && st'.log.asked == st.log.asked
            && (st.c.closed ==> st' == st)
            && (!st.c.closed ==> st'.c.receivers == [] && st'.log.answered == st.log.answered + Nothing(st.c.receivers))
  {
  }

  /** Wakers fire only when the channel is readable, and one registered while it is
      not is kept. */
  lemma WakersLaw(st: State, step: Step)
    requires Inv(st)
    ensures var st' := Apply(st, step);
            && (st'.log.fired != st.log.fired ==> Readable(st'.c))
            && st'.log.registered == st.log.registered + (if step.DoRegister? then [step.w] else [])
  {
    var st' := Apply(st, step);
    if st.c.wakers == [] && !step.DoRegister? { assert st.log.fired + [] == st.log.fired; }
  }

  /** A receive is answered at once exactly when the channel reports a value. */
  lemma PromptIffReadable(st: State, id: nat)
    requires Inv(st)
    ensures Receive(st, id).c.receivers == st.c.receivers <==> Readable(st.c)
    ensures |Receive(st, id).log.answered| == |st.log.answered| + 1 <==> Readable(st.c)
  {
  }

  /** The two receives take the same value unless the channel was closed over
      parked senders of an unbuffered channel: there the blocking one reports the
      end and the non-blocking one still takes a value. */
  lemma ReceivesAgreeIff(st: State, id: nat)
    requires Inv(st) && Readable(st.c) && (st.c.buf != [] || st.c.senders != [])
    ensures Receive(st, id) == ReceiveAsync(st, id) <==> !(st.c.closed && st.c.buf == [])
  {
    if st.c.closed && st.c.buf == [] {
      var a, b := Receive(st, id), ReceiveAsync(st, id);
      assert |b.c.senders| < |a.c.senders|;
    }
  }

  /** The receives do differ on a run: a send parks on an unbuffered channel, which
      is then closed. The blocking receive reports the end, the other the value. */
  lemma ReceivesDiffer(a: nat, b: nat, p: Payload)
    ensures var st := After(Initial(0), [DoSend(a, p), DoClose]);
            && Readable(st.c) && st.c.senders == [Sender(a, p)]
            && Receive(st, b).log.answered == [Answer(b, None)] && Receive(st, b).c == st.c
            && ReceiveAsync(st, b).log.answered == [Answer(b, Some(p))]
  {
    var steps := [DoSend(a, p), DoClose];
    assert steps[..1] == [DoSend(a, p)] && [DoSend(a, p)][..0] == [];
    assert After(Initial(0), [DoSend(a, p)]) == Apply(After(Initial(0), []), DoSend(a, p));
  }

  /** A sender parked on an unbuffered channel when it is closed is passed over
      by every later blocking receive. */
  lemma {:induction false} ClosedKeepsParked(st: State, steps: seq<Step>)
    requires st.c.closed && st.c.size == 0 && st.c.buf == []
    requires forall i :: 0 <= i < |steps| ==> !steps[i].DoReceiveAsync?
    ensures After(st, steps).c.closed && After(st, steps).c.size == 0 && After(st, steps).c.buf == []
    ensures After(st, steps).c.senders == st.c.senders && After(st, steps).log.returned == st.log.returned
  {
    if steps != [] { ClosedKeepsParked(st, steps[..|steps| - 1]); }
  }
}
