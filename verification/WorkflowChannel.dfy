/** The channel as written: fields changed under a mutex, with the log of module
    Channel kept beside them (pkg/sdk/workflow/channel.go). */
module WorkflowChannel {
  import opened Basics
  import opened Channel

  class ChanImpl {
    const size: nat
    var buf: seq<Payload>
    var recvWaiters: seq<nat>
    var sendWaiters: seq<Sender>
    var wakers: seq<nat>
    var closed: bool
    ghost var log: Log

    ghost function Now(): State
      reads this
    {
      State(Chan(size, buf, recvWaiters, sendWaiters, wakers, closed), log)
    }

    constructor (size: int)
      ensures Now() == Initial(if size < 0 then 0 else size)
    {
      this.size := if size < 0 then 0 else size;
      buf, recvWaiters, sendWaiters, wakers, closed := [], [], [], [], false;
      log := Log([], [], [], [], [], [], []);
    }

    method HasValue() returns (b: bool)
      ensures b == Readable(Now().c)
    {
      if |buf| > 0 { return true; }
      if size == 0 && |sendWaiters| > 0 { return true; }
      b := closed;
    }

    method SignalWakers()
      modifies this
      ensures Now() == Wake(old(Now()))
    {
      ghost var fired := log.fired;
      for i := 0 to |wakers|
        invariant Now() == old(Now()).(log := old(log).(fired := fired + wakers[..i]))
      {
        log := log.(fired := log.fired + [wakers[i]]);
        assert wakers[..i + 1] == wakers[..i] + [wakers[i]];
        assert fired + wakers[..i] + [wakers[i]] == fired + wakers[..i + 1];
      }
      assert wakers[..|wakers|] == wakers;
      wakers := [];
    }

    method RegisterReadyWaker(w: nat) returns (fired: bool)
      modifies this
      ensures Now() == Register(old(Now()), w) && fired == Readable(old(Now()).c)
    {
      fired := |buf| > 0 || (size == 0 && |sendWaiters| > 0) || closed;
      log := log.(registered := log.registered + [w]);
      if fired {
        log := log.(fired := log.fired + [w]);
      } else {
        wakers := wakers + [w];
      }
    }

    /** Panics on a closed channel; otherwise says whether the send returned. */
    method Send(id: nat, p: Payload) returns (panics: bool, parked: bool)
      modifies this
      ensures Now() == Channel.Send(old(Now()), id, p) && panics == old(closed)
      ensures parked <==> Ids(sendWaiters) != Ids(old(sendWaiters))
    {
      if closed { return true, false; }
      log := log.(sent := log.sent + [p], sentBy := log.sentBy + [id]);
      if |recvWaiters| > 0 {
        log := log.(returned := log.returned + [id], answered := log.answered + [Answer(recvWaiters[0], Some(p))]);
        recvWaiters := recvWaiters[1..];
        return false, false;
      }
      if size > 0 && |buf| < size {
        buf := buf + [p];
        log := log.(returned := log.returned + [id]);
        SignalWakers();
        return false, false;
      }
      assert |Ids(sendWaiters + [Sender(id, p)])| != |Ids(sendWaiters)|;
      sendWaiters := sendWaiters + [Sender(id, p)];
      if size == 0 { SignalWakers(); }
      return false, true;
    }

    /** The first value and, when someone is parked to send, its slot refilled. */
    method PopBuffer(id: nat) returns (v: Payload)
      requires buf != []
      modifies this
      ensures Now() == TakeBuffered(old(Now()), id) && v == old(buf)[0]
    {
      v := buf[0];
      buf := buf[1..];
      log := log.(asked := log.asked + [id], answered := log.answered + [Answer(id, Some(v))]);
      if |sendWaiters| > 0 {
        buf := buf + [sendWaiters[0].payload];
        log := log.(returned := log.returned + [sendWaiters[0].id]);
        sendWaiters := sendWaiters[1..];
      }
    }

    method TakeSender(id: nat) returns (v: Payload)
      requires sendWaiters != []
      modifies this
      ensures Now() == TakeParked(old(Now()), id) && v == old(sendWaiters)[0].payload
    {
      v := sendWaiters[0].payload;
      log := log.(asked := log.asked + [id], returned := log.returned + [sendWaiters[0].id],
                  answered := log.answered + [Answer(id, Some(v))]);
      sendWaiters := sendWaiters[1..];
    }

    /** The answer, or nothing yet when the receiver is parked. */
    method Receive(id: nat) returns (r: Option<Answer>)
      modifies this
      ensures Now() == Channel.Receive(old(Now()), id)
      ensures if r.Some? then log.answered == old(log).answered + [r.value] else recvWaiters == old(recvWaiters) + [id]
    {
      if |buf| > 0 {
        var v := PopBuffer(id);
        return Some(Answer(id, Some(v)));
      }
      if closed {
        log := log.(asked := log.asked + [id], answered := log.answered + [Answer(id, None)]);
        return Some(Answer(id, None));
      }
      if size == 0 && |sendWaiters| > 0 {
        var v := TakeSender(id);
        return Some(Answer(id, Some(v)));
      }
      recvWaiters := recvWaiters + [id];
      log := log.(asked := log.asked + [id]);
      r := None;
    }

    method ReceiveAsync(id: nat) returns (v: Option<Payload>)
      modifies this
      ensures Now() == Channel.ReceiveAsync(old(Now()), id)
      ensures if v.Some? then log.answered == old(log).answered + [Answer(id, v)] else Now() == old(Now())
    {
      if |buf| > 0 {
        var p := PopBuffer(id);
        return Some(p);
      }
      if size == 0 && |sendWaiters| > 0 {
        var p := TakeSender(id);
        return Some(p);
      }
      v := None;
    }

    method Close()
      modifies this
      ensures Now() == Channel.Close(old(Now()))
    {
      if closed { return; }
      closed := true;
      ghost var before := log;
      for i := 0 to |recvWaiters|
        invariant Now() == old(Now()).(c := old(Now()).c.(closed := true),
                  log := before.(answered := before.answered + Nothing(recvWaiters[..i])))
      {
        assert Nothing(recvWaiters[..i + 1]) == Nothing(recvWaiters[..i]) + [Answer(recvWaiters[i], None)];
        assert before.answered + Nothing(recvWaiters[..i]) + [Answer(recvWaiters[i], None)]
            == before.answered + Nothing(recvWaiters[..i + 1]);
        log := log.(answered := log.answered + [Answer(recvWaiters[i], None)]);
      }
      assert recvWaiters[..|recvWaiters|] == recvWaiters;
      recvWaiters := [];
      SignalWakers();
    }
  }
}
