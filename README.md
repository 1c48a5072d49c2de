# statsd client — a Dafny model

This project models the core of the Python statsd client `statsd/client.py`. The client turns
a metric into one statsd line, `[prefix.]stat:value|type[|@rate]`, and hands it to a UDP
transport. It has four parts:

- the value formatters `incr`, `decr`, `set` and `timing`, with the type suffixes `c`, `s`, `ms`;
- the encoder `_prepare` with its sampling gate. Below rate 1 it draws from `random.random()`.
  A draw strictly greater than the rate suppresses the line. A draw that passes adds `|@rate`
  after the type;
- `_after`/`_send`, which forward a non-empty line to the transport;
- the `Timer` state machine over the fields `ms`, `_sent` and `_start_time`. It has
  `start`/`stop`/`send`, the context-manager pair `__enter__`/`__exit__` and the
  function-decorator mode `__call__`.

Files:

- `wrappers.dfy` holds `Option`, `Result` and `Outcome`.
- `decimal.dfy` renders integers the way Python's `'%s'` does, and the way `'%0.6f'` does for
  integers of magnitude at most 2^53. It also has a reader that turns the text back into the
  integer.
- `protocol.dfy` holds the formatters, the encoder (`EncodeLine`, a function of the draw) and
  the forwarding rule (`Outbound`). It also has a reader for lines (`ParseLine`) that serves as
  the encoder's inverse, and the exact lines the repository's tests expect.
- `timer_machine.dfy` models the timer's fields as a value. It has one function per operation
  and `Run` over a sequence of calls, plus lemmas about whole call sequences.
- `client.dfy` has the classes `StatsClient` and `Timer`. Their methods change fields, as the
  Python objects do. Each method's `ensures` ties the new state to the functions above.

External effects become parameters or state:

- The random source is a function `source: nat -> real`, fixed when the client is built. A
  counter `draws` records how many values were taken.
- The transport is the field `outbox`, the list of lines it was handed.
- Clock readings are parameters in whole milliseconds.

Behaviour of the code worth noting:

- The rate annotation is `|@rate`, written after the type (client.py:120).
- `send()` on a timer that was never started raises 'No data recorded.' (client.py:73-74).
- The client resolves the host as IPv4 only (client.py:137-139).
- `stop()` on a timer that has already sent re-records `ms` and then raises 'Already sent data.'
  (client.py:66-69, 75-76; `TimerMachine.StopAfterSent`).

## Model

| member | source | states |
|---|---|---|
| Decimal.NatToString | statsd/client.py:103 | the `%s` text of a non-negative integer is non-empty, all digits, and starts with '0' exactly when the number is 0 (no leading zeros) |
| Decimal.NatRoundTrip | statsd/client.py:103 | the digits of n denote n |
| Decimal.IntRoundTrip | statsd/client.py:103 | the `%s` text of an integer holds only digits and a leading '-' for negatives, and reading it back gives the integer |
| Decimal.IntToString | statsd/client.py:103 | `'%s' % i` is non-empty, starts with '-' exactly for negative i, is otherwise all digits, and has no leading zero |
| Decimal.FixedSix | statsd/client.py:99 | `'%0.6f' % i` for an integer, \|i\| at most 2^53: it ends in `.000000`, and before that there are only digits and a leading '-' |
| Decimal.FixedSixShape | statsd/client.py:99 | `%0.6f` of an integer (exact up to magnitude 2^53) ends in a point and exactly six zeros. That point is its only one, it has no exponent, and the part before the point reads back as the integer |
| Protocol.CounterValue | statsd/client.py:101-103 | `'%s\|c' % count` ends in `\|c`, and the part before reads back as the count |
| Protocol.SetValue | statsd/client.py:109-111 | `'%s\|s' % value` is the value's text unchanged, followed by `\|s` |
| Protocol.TimingValue | statsd/client.py:97-99 | `'%0.6f\|ms' % delta` ends in `.000000\|ms`, and the part before reads back as the delta |
| Protocol.Qualify | statsd/client.py:122-123 | the name ends with the stat. A present, non-empty prefix puts `prefix.` in front of it; a `None` or empty prefix leaves the stat alone |
| Protocol.Sampling | statsd/client.py:117 | the default rate 1 never samples |
| Protocol.Admitted | statsd/client.py:117-119 | at rate >= 1 every draw passes; below 1 a draw passes exactly when it is at most the rate, so the boundary draw passes |
| Protocol.DrawsFor | statsd/client.py:117-118 | one random draw is taken exactly when the rate is below 1, none otherwise |
| Protocol.EncodeLine | statsd/client.py:116-125 | `_prepare` returns a line exactly when the sampling gate admits the draw |
| Protocol.Outbound | statsd/client.py:127-129 | `_after` forwards at most one line: the data itself when it is present and non-empty |
| Protocol.FullRateLine | statsd/client.py:116-125 | at rate >= 1 the draw does not matter, and the line is `stat:value`. It is `prefix.stat:value` when the prefix is present and non-empty; a `None` or empty prefix adds nothing |
| Protocol.SuppressedLine | statsd/client.py:117-129 | below rate 1, a draw strictly above the rate gives no line, and nothing is forwarded |
| Protocol.SampledLine | statsd/client.py:117-125 | below rate 1, a draw at or below the rate gives `[prefix.]stat:value\|@rate`, and exactly that one line is forwarded |
| Protocol.SentIffAdmitted | statsd/client.py:113-129 | `_send_stat` forwards one line when the gate admits the draw and none otherwise |
| Protocol.IncrExamples | statsd/client.py:101-125 | `incr('foo')` gives `foo:1\|c`; `incr('foo', 10, rate=0.5)` with a passing draw gives `foo:10\|c\|@0.5` |
| Protocol.DecrExamples | statsd/client.py:105-107 | `decr('foo')` gives `foo:-1\|c`; `decr('foo', 10)` gives `foo:-10\|c` |
| Protocol.PrefixAndSuppressExamples | statsd/client.py:116-125 | prefix 'foo' with `incr('bar')` gives `foo.bar:1\|c`; rate 0.5 with draw 2 gives no line |
| Protocol.SetTimingExamples | statsd/client.py:97-111 | `set('foo', 'bar')` gives `foo:bar\|s`; `timing('foo', 100)` gives `foo:100.000000\|ms`, with `\|@0.5` appended at rate 0.5 |
| Protocol.BigDigits | statsd/client.py:103 | 1234568901234 is rendered digit for digit |
| Protocol.BigValues | statsd/client.py:97-103 | the counter and timing values of 1234568901234 are `1234568901234\|c` and `1234568901234.000000\|ms`, with no exponent |
| Protocol.BigCounterExample | statsd/client.py:101-103 | `incr('foo', 1234568901234)` gives `foo:1234568901234\|c` |
| Protocol.BigTimingExample | statsd/client.py:97-99 | `timing('foo', 1234568901234)` gives `foo:1234568901234.000000\|ms` |
| Protocol.ParseRender | statsd/client.py:116-125 | the line reader inverts the line layout `name:value\|type[\|@rate]` when the name has no ':' and the other parts have no '\|' |
| Protocol.EncodedDatagram | statsd/client.py:116-125 | an admitted line is the layout of the (prefixed) stat, the value, the type, and the rate text exactly when the rate is below 1 |
| Protocol.ParseEncoded | statsd/client.py:116-125 | reading an admitted line gives back the (prefixed) stat, the value, the type, and the rate exactly when sampling was active |
| Protocol.CounterRoundTrip | statsd/client.py:101-103 | a counter line reads back as type `c`, and its value reads back as the count |
| Protocol.SetRoundTrip | statsd/client.py:109-111 | a set line reads back as type `s` with the value's text unchanged |
| Protocol.TimingRoundTrip | statsd/client.py:97-99 | a timing line reads back as type `ms`, and its value is the delta followed by `.000000` (exact for \|delta\| at most 2^53) |
| Protocol.DecrNegatesCount | statsd/client.py:105-107 | for a positive count, `decr`'s value is `incr`'s with a leading '-', and it reads back as the negated count |
| TimerMachine.StartStep | statsd/client.py:57-61 | `start` clears `ms` and `_sent` and records the start time |
| TimerMachine.SendStep | statsd/client.py:72-78 | `send` raises 'No data recorded.' when `ms` is unset. It succeeds exactly when `ms` is set and nothing was sent yet. It then sets `_sent` and emits `ms` once. Otherwise the fields are unchanged, nothing is emitted, and 'Already sent data.' is raised exactly when `ms` is set and `_sent` is true |
| TimerMachine.StopStep | statsd/client.py:63-70 | `stop` before `start` raises and changes nothing. Otherwise it records `now - start`. Without `send` it emits nothing. With `send` on an unsent timer it emits `now - start` once and sets `_sent`; on a sent timer it raises 'Already sent data.' and emits nothing |
| TimerMachine.RunConsistent | statsd/client.py:57-78 | every call sequence keeps two facts: `ms` is only set after a start, and `_sent` only after `ms` is set |
| TimerMachine.OncePerCycle | statsd/client.py:57-78 | between two starts the timer reports at most once. `_sent` becomes true exactly when that report has gone out |
| TimerMachine.NeverStarted | statsd/client.py:63-78 | on a timer never started, every `stop`/`send` raises, and nothing is reported or changed |
| TimerMachine.StopThenSend | statsd/client.py:57-78 | `start; stop(send=False); send; send` reports `t1 - t0` once, then raises 'Already sent data.' |
| TimerMachine.SendBeforeStop | statsd/client.py:57-74 | `start; send` raises 'No data recorded.' and reports nothing |
| TimerMachine.StopAfterSent | statsd/client.py:63-76 | `stop()` on a timer that already sent re-records `ms`, then raises 'Already sent data.' without reporting |
| Client.StatsClient.constructor | statsd/client.py:135-143 | a new client has its prefix and random source, no draws taken and nothing sent |
| Client.StatsClient.Send | statsd/client.py:145-151 | `_send` appends the line to the transport's record and never fails |
| Client.StatsClient.Prepare | statsd/client.py:116-125 | takes one draw exactly below rate 1, and returns `EncodeLine` of that draw |
| Client.StatsClient.After | statsd/client.py:127-129 | appends `Outbound(data)` to the record, so at most one line |
| Client.StatsClient.SendStat | statsd/client.py:113-114 | composes `Prepare` and `After`: the draw count and the record grow as `SentStat` says |
| Client.StatsClient.Incr | statsd/client.py:101-103 | sends the counter value `count\|c` through the gate and encoder |
| Client.StatsClient.Decr | statsd/client.py:105-107 | has exactly the effect of `Incr` with the count negated |
| Client.StatsClient.Set | statsd/client.py:109-111 | sends `value\|s` through the gate and encoder |
| Client.StatsClient.Timing | statsd/client.py:97-99 | sends `delta.000000\|ms` through the gate and encoder |
| Client.StatsClient.Timer | statsd/client.py:94-95 | returns a fresh idle timer bound to this client, stat and rate |
| Client.Timer.constructor | statsd/client.py:30-36 | a new timer has `ms` unset, `_sent` false and no start time |
| Client.Timer.Start | statsd/client.py:57-61 | the fields become `StartStep` of the old fields |
| Client.Timer.Send | statsd/client.py:72-78 | the fields and the outcome follow `SendStep`. On success the client is sent exactly one timing of `ms`; otherwise it is unchanged |
| Client.Timer.Stop | statsd/client.py:63-70 | the fields and the outcome follow `StopStep`. The auto-send path reports exactly one timing; otherwise the client is unchanged |
| Client.Timer.Enter | statsd/client.py:51-52 | entering the scope is `start` |
| Client.Timer.Exit | statsd/client.py:54-55 | leaving the scope is `stop` with send |
| Client.Timer.Scope | statsd/client.py:51-55 | around a body that leaves the timer alone, the exit succeeds and reports `t1 - t0` exactly once. The body's outcome, error included, passes through unchanged |
| Client.Timer.Call | statsd/client.py:38-49 | the wrapped function's result or error passes through unchanged. One timing of the call is reported either way, and the timer's own fields are untouched |

## Left out

- Socket setup: address resolution and socket creation in `StatsClient.__init__`. This is operating-system I/O.
- The unused `maxudpsize` argument, the `deque` import, and the abstract-base-class machinery of `StatsClientBase`.
- `pipeline`: it only raises `NotImplementedError`.
- Client.StatsClient.Send: does not model the ASCII encoding of the datagram or the swallowing of socket errors, because both are OS I/O. The transport is a record that never fails. A line with a non-ASCII character would make `encode('ascii')` raise an error the `except` clause does not catch; the model records the line instead.
- Decimal.FixedSix: renders the exact integer. Python's `'%0.6f'` first converts it to a double, so for |delta| above 2^53 the source sends the rounded value (9007199254740993 is sent as `9007199254740992.000000`), and past the double range (about 1.8e308) it raises an `OverflowError` that nothing catches. Client.StatsClient.Timing, Client.Timer.Send/Stop and the timing lemmas inherit this, because double rounding is floating point.
- Default arguments: `count=1`, `rate=1` and `send=True` are not modelled as defaults. Every argument is passed explicitly, and `FullRate` stands for `rate=1`.
- Floating-point values:
  - counts such as `1.2`;
  - numeric set values, which are taken as their text;
  - the `%s` text of a rate, which is given with the rate;
  - `%0.6f` of non-integer times.
  Counts, timing deltas and `ms` are integers here.
- The clock: `perf_counter`/`time` readings are parameters in whole milliseconds, and the conversion `1000.0 * dt` from seconds is not modelled.
- The random module: it is global state in the source. Here it is the client's injected `source`, and draws are unconstrained reals, as the tests' patched values −1 and 2 are.
- `start`/`stop` return the timer itself for chaining. The model's methods return only the outcome.
- `safe_wraps`: it unwraps `functools.partial` and copies function metadata, which is Python plumbing.
- Client.Timer.Call: the wrapped callable takes one argument, not `*args, **kwargs`. It is a pure function returning a value or an error, and its own side effects are not modelled.
- Client.Timer.Scope: only covers a body that does not call the timer itself. A body that calls the timer is covered by `Enter`/`Exit` and the functions of `TimerMachine`.
- Concurrent use of one timer or client from several threads.
