/** The statsd client and its timer as objects. `StatsClient` composes the sampling gate, the
    line encoder and the transport; `Timer` holds the mutable fields of one measurement. The
    transport is reduced to the record of lines it was handed, and the random source to an
    injected sequence of draws. */
module Client {
  import opened Wrappers
  import opened Protocol
  import opened TimerMachine

  class StatsClient {
    /** The namespace prefix, fixed for the client's lifetime. */
    const prefix: Option<string>
    /** The values `random.random()` returns, the n-th call returning `source(n)`. */
    const source: nat -> real
    /** How many values have been drawn from `source`. */
    var draws: nat
    /** Every line handed to the transport, oldest first. */
    var outbox: seq<string>

    constructor (prefix: Option<string>, source: nat -> real)
      ensures this.prefix == prefix && this.source == source
      ensures draws == 0 && outbox == []
    {
      this.prefix := prefix;
      this.source := source;
      draws := 0;
      outbox := [];
    }

    /** The effect on the client of `_send_stat(stat, value, rate)`: a draw is taken only below
        full rate, and the encoded line, if the gate admits it, is appended to the outbox. */
    twostate predicate SentStat(stat: string, value: string, rate: Rate)
      reads this
    {
      draws == old(draws) + DrawsFor(rate) &&
      outbox == old(outbox) + Outbound(EncodeLine(prefix, stat, value, rate, source(old(draws))))
    }

    /** `_send`: the datagram transport, which never fails as far as the caller can see. */
    method Send(data: string)
      modifies this`outbox
      ensures outbox == old(outbox) + [data]
    {
      outbox := outbox + [data];
    }

    /** `_prepare`: the sampling gate, then the rate annotation, the prefix and the stat name.
        Specified by the function `EncodeLine`. */
    method Prepare(stat: string, value: string, rate: Rate) returns (data: Option<string>)
      modifies this`draws
      ensures draws == old(draws) + DrawsFor(rate)
      ensures data == EncodeLine(prefix, stat, value, rate, source(old(draws)))
    {
      var v := value;
      if rate.value < 1.0 {
        var draw := source(draws);
        draws := draws + 1;
        if draw > rate.value {
          return None;
        }
        v := value + "|@" + rate.text;
      }
      var s := stat;
      if prefix.Some? && prefix.value != "" {
        s := prefix.value + "." + stat;
      }
      data := Some(s + ":" + v);
    }

    /** `_after`: forward the prepared line when there is one. */
    method After(data: Option<string>)
      modifies this`outbox
      ensures outbox == old(outbox) + Outbound(data)
    {
      if data.Some? && data.value != "" {
        Send(data.value);
      }
    }

    method SendStat(stat: string, value: string, rate: Rate)
      modifies this`draws, this`outbox
      ensures SentStat(stat, value, rate)
    {
      var data := Prepare(stat, value, rate);
      After(data);
    }

    /** `incr(stat, count, rate)`: a counter delta. */
    method Incr(stat: string, count: int, rate: Rate)
      modifies this`draws, this`outbox
      ensures SentStat(stat, CounterValue(count), rate)
    {
      SendStat(stat, CounterValue(count), rate);
    }

    /** `decr(stat, count, rate)`: exactly `incr(stat, -count, rate)`. */
    method Decr(stat: string, count: int, rate: Rate)
      modifies this`draws, this`outbox
      ensures SentStat(stat, CounterValue(-count), rate)
    {
      Incr(stat, -count, rate);
    }

    /** `set(stat, value, rate)`: a set member, given by its text. */
    method Set(stat: string, value: string, rate: Rate)
      modifies this`draws, this`outbox
      ensures SentStat(stat, SetValue(value), rate)
    {
      SendStat(stat, SetValue(value), rate);
    }

    /** `timing(stat, delta, rate)`: a duration in milliseconds. */
    method Timing(stat: string, delta: int, rate: Rate)
      modifies this`draws, this`outbox
      ensures SentStat(stat, TimingValue(delta), rate)
    {
      SendStat(stat, TimingValue(delta), rate);
    }

    /** `timer(stat, rate)`: a new idle timer reporting through this client. */
    method Timer(stat: string, rate: Rate) returns (t: Timer)
      ensures fresh(t) && t.client == this && t.stat == stat && t.rate == rate
      ensures t.State() == Idle
    {
      t := new Timer(this, stat, rate);
    }
  }

  class Timer {
    const client: StatsClient
    const stat: string
    const rate: Rate
    /** The last elapsed time, in milliseconds; `None` until `stop`. */
    var ms: Option<int>
    var sent: bool
    var startTime: Option<int>

    function State(): TimerState
      reads this
    {
      TimerState(ms, sent, startTime)
    }

    constructor (client: StatsClient, stat: string, rate: Rate)
      ensures this.client == client && this.stat == stat && this.rate == rate
      ensures State() == Idle
    {
      this.client := client;
      this.stat := stat;
      this.rate := rate;
      ms := None;
      sent := false;
      startTime := None;
    }

    /** `start()`, with `now` the clock reading it takes. Specified by `StartStep`. */
    method Start(now: int)
      modifies this
      ensures State() == StartStep(old(State()), now)
    {
      ms := None;
      sent := false;
      startTime := Some(now);
    }

    /** `send()`: raises unless a time is recorded and not yet sent; otherwise calls
        `client.timing(stat, ms, rate)` once. Specified by `SendStep`. */
    method Send() returns (r: Outcome<TimerError>)
      modifies this, client
      ensures var step := SendStep(old(State()));
        State() == step.state && r == step.outcome &&
        if step.emitted.Some? then client.SentStat(stat, TimingValue(step.emitted.value), rate)
        else unchanged(client)
    {
      if ms.None? {
        return Fail(NoData);
      }
      if sent {
        return Fail(AlreadySent);
      }
      sent := true;
      client.Timing(stat, ms.value, rate);
      r := Pass;
    }

    /** `stop(send)`, with `now` the clock reading it takes. Specified by `StopStep`. */
    method Stop(now: int, send: bool) returns (r: Outcome<TimerError>)
      modifies this, client
      ensures var step := StopStep(old(State()), now, send);
        State() == step.state && r == step.outcome &&
        if step.emitted.Some? then client.SentStat(stat, TimingValue(step.emitted.value), rate)
        else unchanged(client)
    {
      if startTime.None? {
        return Fail(NotStarted);
      }
      ms := Some(now - startTime.value);
      if send {
        r := Send();
      } else {
        r := Pass;
      }
    }

    /** `__enter__`: start the timer. */
    method Enter(now: int)
      modifies this
      ensures State() == StartStep(old(State()), now)
    {
      Start(now);
    }

    /** `__exit__`: stop the timer and send. */
    method Exit(now: int) returns (r: Outcome<TimerError>)
      modifies this, client
      ensures var step := StopStep(old(State()), now, true);
        State() == step.state && r == step.outcome &&
        if step.emitted.Some? then client.SentStat(stat, TimingValue(step.emitted.value), rate)
        else unchanged(client)
    {
      r := Stop(now, true);
    }

    /** `with timer: body`, for a body that leaves the timer alone and ends with `body`: the
        exit reports the elapsed time exactly once and the body's error, if any, propagates. */
    method Scope<E>(t0: int, t1: int, body: Outcome<E>) returns (r: Outcome<E>, exit: Outcome<TimerError>)
      modifies this, client
      ensures r == body && exit == Pass
      ensures State() == TimerState(Some(t1 - t0), true, Some(t0))
      ensures client.SentStat(stat, TimingValue(t1 - t0), rate)
    {
      Enter(t0);
      exit := Exit(t1);
      r := body;
    }

    /** The function `timer(f)` returns, applied to `x`: `f`'s result or error passes through
        unchanged, one timing of the call is reported either way, and the timer's own fields
        are not touched. `t0` and `t1` are the clock readings before and after the call. */
    method Call<X, Y, E>(f: X -> Result<Y, E>, x: X, t0: int, t1: int) returns (r: Result<Y, E>)
      modifies client
      ensures r == f(x)
      ensures client.SentStat(stat, TimingValue(t1 - t0), rate)
      ensures State() == old(State())
    {
      var began := t0;
      r := f(x);
      client.Timing(stat, t1 - began, rate);
    }
  }
}
