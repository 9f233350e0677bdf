/** A muxer egress that survives a lost connection
    (crates/core/src/egress/muxer_egress.rs).

    The muxer belongs to FFmpeg; what matters of it here is the list of streams its context
    holds, in index order, each by the variant it was added for, and whether it is open.
    Times are milliseconds of a clock that does not go back. */
module Reconnect {
  import opened Wrappers

  const BACKOFF_MS := 5000

  type Variant = nat

  /** What happened to the connection; `layout` is the context that was written to. */
  datatype Event =
    | Wrote(at: int, variant: Variant, index: nat, layout: seq<Variant>, isOpen: bool, ok: bool)
    | Reconnected(at: int, ok: bool)

  /** How the calls into the muxer turn out during one attempt to reconnect: `added` streams can
      be added before one fails. */
  datatype Attempt = Attempt(initOk: bool, added: nat, openOk: bool)

  /** One packet: when, for which variant, and how the calls it may lead to turn out. */
  datatype Call = Call(now: int, variant: Variant, attempt: Attempt, writeOk: bool)

  /** The constructors offer critical recorders and reconnecting forwarders, not both in one. */
  datatype Config = Config(streams: seq<Variant>, reconnectable: bool, critical: bool) {
    predicate Valid() { !(reconnectable && critical) }
  }

  datatype Egress = Egress(layout: seq<Variant>, isOpen: bool, varMap: map<Variant, nat>,
                           lastFailure: Option<int>, log: seq<Event>)

  /** The index each variant has in a context; a later stream of the same variant wins. */
  function IndexOf(layout: seq<Variant>): map<Variant, nat> {
    if layout == [] then map[]
    else IndexOf(layout[..|layout| - 1])[layout[|layout| - 1] := |layout| - 1]
  }

  lemma IndexOfPush(layout: seq<Variant>, v: Variant)
    ensures IndexOf(layout + [v]) == IndexOf(layout)[v := |layout|]
  {
    assert (layout + [v])[..|layout|] == layout;
  }

  lemma IndexOfNothing()
    ensures IndexOf([]) == map[]
  {}

  function Fresh(c: Config): Egress { Egress(c.streams, true, IndexOf(c.streams), None, []) }

  /** Close, rebuild and open the context; a failure leaves whatever was rebuilt so far. */
  function Rebuilt(c: Config, e: Egress, a: Attempt): (Egress, bool) {
    if !a.initOk then (e.(isOpen := false), false)
    else if a.added < |c.streams| then (e.(layout := c.streams[..a.added], isOpen := false), false)
    else if !a.openOk then (e.(layout := c.streams, isOpen := false), false)
    else (e.(layout := c.streams, isOpen := true, varMap := IndexOf(c.streams)), true)
  }

  /** `process_pkt`; true means that the pipeline fails. */
  function Process(c: Config, e: Egress, call: Call): (Egress, bool) {
    if call.variant !in e.varMap then (e, false)
    else
      var index := e.varMap[call.variant];
      if e.lastFailure.Some? && call.now - e.lastFailure.value < BACKOFF_MS then (e, false)
      else if e.lastFailure.Some? then
        var (r, ok) := if c.reconnectable then Rebuilt(c, e, call.attempt) else (e, false);
        var tried := r.(log := r.log + [Reconnected(call.now, ok)]);
        if ok then Written(c, tried.(lastFailure := None), call, index)
        else (tried.(lastFailure := Some(call.now)), false)
      else Written(c, e, call, index)
  }

  function Written(c: Config, e: Egress, call: Call, index: nat): (Egress, bool) {
    var e' := e.(log := e.log + [Wrote(call.now, call.variant, index, e.layout, e.isOpen, call.writeOk)]);
    if call.writeOk then (e', false)
    else if c.critical then (e', true)
    else (if c.reconnectable then e'.(lastFailure := Some(call.now)) else e', false)
  }

  class MuxerEgress {
    const config: Config
    var layout: seq<Variant>
    var isOpen: bool
    var varMap: map<Variant, nat>
    var lastFailure: Option<int>
    var log: seq<Event>

    function State(): Egress
      reads this
    {
      Egress(layout, isOpen, varMap, lastFailure, log)
    }

    /** Adds the streams of the group one by one, then opens the muxer. */
    constructor (config: Config)
      ensures this.config == config && State() == Fresh(config)
    {
      this.config := config;
      var streams: seq<Variant> := [];
      var indices: map<Variant, nat> := map[];
      for i := 0 to |config.streams|
        invariant streams == config.streams[..i] && indices == IndexOf(streams)
      {
        assert config.streams[..i + 1] == streams + [config.streams[i]];
        IndexOfPush(streams, config.streams[i]);
        indices := indices[config.streams[i] := |streams|];
        streams := streams + [config.streams[i]];
      }
      assert config.streams[..|config.streams|] == config.streams;
      layout, isOpen, varMap, lastFailure, log := streams, true, indices, None, [];
    }

    method TryReconnect(a: Attempt) returns (ok: bool)
      modifies this
      ensures (State(), ok) == if config.reconnectable then Rebuilt(config, old(State()), a) else (old(State()), false)
    {
      hide IndexOf;
      if !config.reconnectable { return false; }
      isOpen := false;
      if !a.initOk { return false; }
      var newMap: map<Variant, nat> := map[];
      IndexOfNothing();
      layout := [];
      for i := 0 to |config.streams|
        invariant i <= a.added && layout == config.streams[..i] && newMap == IndexOf(layout)
        invariant !isOpen && varMap == old(varMap) && lastFailure == old(lastFailure) && log == old(log)
      {
        if i == a.added { return false; }
        assert config.streams[..i + 1] == layout + [config.streams[i]];
        IndexOfPush(layout, config.streams[i]);
        newMap := newMap[config.streams[i] := |layout|];
        layout := layout + [config.streams[i]];
      }
      assert config.streams[..|config.streams|] == config.streams;
      if !a.openOk { return false; }
      isOpen := true;
      varMap := newMap;
      ok := true;
    }

    method ProcessPkt(call: Call) returns (failed: bool)
      modifies this
      ensures (State(), failed) == Process(config, old(State()), call)
    {
      if call.variant !in varMap { return false; }
      var streamIndex := varMap[call.variant];
      if lastFailure.Some? {
        if call.now - lastFailure.value < BACKOFF_MS { return false; }
        var ok := TryReconnect(call.attempt);
        log := log + [Reconnected(call.now, ok)];
        if ok {
          lastFailure := None;
        } else {
          lastFailure := Some(call.now);
          return false;
        }
      }
      log := log + [Wrote(call.now, call.variant, streamIndex, layout, isOpen, call.writeOk)];
      if !call.writeOk {
        if config.critical { return true; }
        if config.reconnectable {
          lastFailure := Some(call.now);
        }
      }
      failed := false;
    }
  }

  // ----- Every sequence of packets ------------------------------------------------

  function Run(c: Config, calls: seq<Call>): Egress {
    if calls == [] then Fresh(c) else Process(c, Run(c, calls[..|calls| - 1]), calls[|calls| - 1]).0
  }

  predicate Ordered(calls: seq<Call>) {
    forall i, j | 0 <= i < j < |calls| :: calls[i].now <= calls[j].now
  }

  lemma {:induction false} IndexOfPoints(layout: seq<Variant>, v: Variant)
    requires v in IndexOf(layout)
    ensures IndexOf(layout)[v] < |layout| && layout[IndexOf(layout)[v]] == v
  {
    if layout != [] && v != layout[|layout| - 1] {
      IndexOfPoints(layout[..|layout| - 1], v);
    }
  }

  /** A write goes to the stream of its variant in a complete, open context. */
  predicate GoodWrite(c: Config, e: Event) {
    e.Wrote? ==> e.isOpen && e.layout == c.streams && e.index < |c.streams| && c.streams[e.index] == e.variant
  }

  /** After a failure nothing touches the connection for five seconds. */
  predicate Spaced(first: Event, second: Event) { !first.ok ==> second.at >= first.at + BACKOFF_MS }

  ghost predicate LogInv(c: Config, log: seq<Event>) {
    && (forall i | 0 <= i < |log| :: GoodWrite(c, log[i]))
    && (c.reconnectable ==> forall i, j | 0 <= i < j < |log| :: Spaced(log[i], log[j]))
  }

  /** Whenever no failure is pending, the context is the original one and open. */
  predicate StateInv(c: Config, e: Egress) {
    && e.varMap == IndexOf(c.streams)
    && (e.lastFailure.None? ==> e.layout == c.streams && e.isOpen)
    && (!c.reconnectable ==> e.lastFailure.None?)
  }

  predicate Rested(event: Event, now: int) { !event.ok ==> now >= event.at + BACKOFF_MS }

  /** Every logged failure is at least five seconds old, or no newer than the pending one. */
  ghost predicate ClockInv(c: Config, e: Egress, now: int) {
    && (e.lastFailure.Some? ==> e.lastFailure.value <= now)
    && (c.reconnectable ==> forall i | 0 <= i < |e.log| ::
          Rested(e.log[i], if e.lastFailure.Some? then e.lastFailure.value + BACKOFF_MS else now))
  }

  ghost predicate Inv(c: Config, e: Egress, now: int) {
    LogInv(c, e.log) && StateInv(c, e) && ClockInv(c, e, now)
  }

  lemma Logged(c: Config, log: seq<Event>, event: Event)
    requires LogInv(c, log) && GoodWrite(c, event)
    requires c.reconnectable ==> forall i | 0 <= i < |log| :: Rested(log[i], event.at)
    ensures LogInv(c, log + [event])
  {
    var log' := log + [event];
    forall i | 0 <= i < |log'| ensures GoodWrite(c, log'[i]) {
      if i < |log| { assert GoodWrite(c, log[i]); }
    }
    if c.reconnectable {
      forall i, j | 0 <= i < j < |log'| ensures Spaced(log'[i], log'[j]) {
        if j < |log| { assert Spaced(log[i], log[j]); } else { assert Rested(log[i], event.at); }
      }
    }
  }

  lemma WrittenInv(c: Config, e: Egress, call: Call, index: nat)
    requires c.Valid() && Inv(c, e, call.now) && e.lastFailure.None?
    requires index < |c.streams| && c.streams[index] == call.variant
    ensures Inv(c, Written(c, e, call, index).0, call.now)
  {
    Logged(c, e.log, Wrote(call.now, call.variant, index, e.layout, e.isOpen, call.writeOk));
  }

  lemma TriedInv(c: Config, e: Egress, r: Egress, ok: bool, now: int)
    requires Inv(c, e, now) && e.lastFailure.Some? && now - e.lastFailure.value >= BACKOFF_MS && c.reconnectable
    requires r.log == e.log && r.varMap == IndexOf(c.streams) && (ok ==> r.layout == c.streams && r.isOpen)
    ensures Inv(c, r.(log := r.log + [Reconnected(now, ok)], lastFailure := if ok then None else Some(now)), now)
  {
    forall i | 0 <= i < |e.log| ensures Rested(e.log[i], now) {
      assert Rested(e.log[i], e.lastFailure.value + BACKOFF_MS);
    }
    Logged(c, e.log, Reconnected(now, ok));
  }

  lemma LaterInv(c: Config, e: Egress, now: int, later: int)
    requires Inv(c, e, now) && now <= later
    ensures Inv(c, e, later)
  {
    forall i | 0 <= i < |e.log| && c.reconnectable
      ensures Rested(e.log[i], if e.lastFailure.Some? then e.lastFailure.value + BACKOFF_MS else later)
    {
      assert Rested(e.log[i], if e.lastFailure.Some? then e.lastFailure.value + BACKOFF_MS else now);
    }
  }

  lemma InvStep(c: Config, e: Egress, call: Call)
    requires c.Valid() && Inv(c, e, call.now)
    ensures Inv(c, Process(c, e, call).0, call.now)
  {
    hide LogInv, ClockInv;
    if call.variant in e.varMap {
      var index := e.varMap[call.variant];
      IndexOfPoints(c.streams, call.variant);
      if e.lastFailure.None? {
        WrittenInv(c, e, call, index);
      } else if call.now - e.lastFailure.value >= BACKOFF_MS {
        var (r, ok) := Rebuilt(c, e, call.attempt);
        TriedInv(c, e, r, ok, call.now);
        if ok {
          WrittenInv(c, r.(log := r.log + [Reconnected(call.now, ok)], lastFailure := None), call, index);
        }
      }
    }
  }

  lemma {:induction false} RunInv(c: Config, calls: seq<Call>, start: int)
    requires c.Valid() && Ordered(calls) && (calls != [] ==> start <= calls[0].now)
    ensures Inv(c, Run(c, calls), if calls == [] then start else calls[|calls| - 1].now)
    decreases |calls|
  {
    hide Process, Inv;
    if calls == [] {
      FreshInv(c, start);
    } else {
      var init, last := calls[..|calls| - 1], calls[|calls| - 1];
      RunInv(c, init, start);
      LaterInv(c, Run(c, init), if init == [] then start else init[|init| - 1].now, last.now);
      InvStep(c, Run(c, init), last);
    }
  }

  lemma FreshInv(c: Config, start: int)
    ensures Inv(c, Fresh(c), start)
  {}

  /** Whatever packets arrive and however the calls into the muxer turn out: every write reaches
      the stream of its variant in the complete context, a half-rebuilt one is never written to,
      and a reconnecting egress leaves a failed connection alone for five seconds. */
  lemma ReconnectIsSafe(c: Config, calls: seq<Call>)
    requires c.Valid() && Ordered(calls)
    ensures var e := Run(c, calls);
            && e.varMap == IndexOf(c.streams)
            && (e.lastFailure.None? ==> e.layout == c.streams && e.isOpen)
            && (forall i | 0 <= i < |e.log| :: GoodWrite(c, e.log[i]))
            && (c.reconnectable ==> forall i, j | 0 <= i < j < |e.log| :: Spaced(e.log[i], e.log[j]))
  {
    RunInv(c, calls, if calls == [] then 0 else calls[0].now);
  }

  /** The pipeline fails exactly on a failed write of a critical egress, and such an egress
      writes every packet of a variant it carries. */
  lemma OnlyCriticalFails(c: Config, calls: seq<Call>, call: Call)
    requires c.Valid() && Ordered(calls + [call])
    ensures Process(c, Run(c, calls), call).1 <==> c.critical && call.variant in c.streams && !call.writeOk
  {
    assert forall i, j | 0 <= i < j < |calls| :: calls[i] == (calls + [call])[i] && calls[j] == (calls + [call])[j];
    RunInv(c, calls, if calls == [] then 0 else calls[0].now);
    IndexOfKeys(c.streams);
  }

  lemma {:induction false} IndexOfKeys(layout: seq<Variant>)
    ensures forall v :: v in IndexOf(layout) <==> v in layout
  {
    if layout != [] {
      IndexOfKeys(layout[..|layout| - 1]);
      assert layout == layout[..|layout| - 1] + [layout[|layout| - 1]];
    }
  }

  // ----- What becomes of a packet ---------------------------------------------------

  /** When the connection failed, if the last thing that happened to it is a failure. */
  function Pending(c: Config, log: seq<Event>): Option<int> {
    if c.reconnectable && log != [] && !log[|log| - 1].ok then Some(log[|log| - 1].at) else None
  }

  lemma {:induction false} PendingIsLastFailure(c: Config, calls: seq<Call>)
    requires c.Valid() && Ordered(calls)
    ensures Run(c, calls).lastFailure == Pending(c, Run(c, calls).log)
    decreases |calls|
  {
    hide IndexOf;
    if calls != [] {
      var init, last := calls[..|calls| - 1], calls[|calls| - 1];
      PendingIsLastFailure(c, init);
      RunInv(c, init, if init == [] then 0 else init[0].now);
    }
  }

  /** Can the attempt bring the whole context back? */
  predicate Succeeds(c: Config, a: Attempt) { a.initOk && a.added >= |c.streams| && a.openOk }

  /** What happens to the connection for a packet of a carried variant, given when it failed. */
  function Served(c: Config, pending: Option<int>, call: Call, index: nat): seq<Event> {
    var write := Wrote(call.now, call.variant, index, c.streams, true, call.writeOk);
    if pending.None? then [write]
    else if call.now < pending.value + BACKOFF_MS then []
    else if Succeeds(c, call.attempt) then [Reconnected(call.now, true), write]
    else [Reconnected(call.now, false)]
  }

  /** After any run a packet of a carried variant is written if no failure is pending, or the pending
      one is five seconds old and the connection comes back; it is dropped otherwise, after an
      attempt that failed if the five seconds are over. Packets of other variants do nothing. */
  lemma PacketIsServed(c: Config, calls: seq<Call>, call: Call)
    requires c.Valid() && Ordered(calls + [call])
    ensures var log, log' := Run(c, calls).log, Run(c, calls + [call]).log;
            if call.variant in c.streams then
              exists index :: 0 <= index < |c.streams| && c.streams[index] == call.variant
                              && log' == log + Served(c, Pending(c, log), call, index)
            else log' == log
  {
    var e := Run(c, calls);
    assert forall i, j | 0 <= i < j < |calls| :: calls[i] == (calls + [call])[i] && calls[j] == (calls + [call])[j];
    assert (calls + [call])[..|calls|] == calls;
    RunInv(c, calls, if calls == [] then 0 else calls[0].now);
    PendingIsLastFailure(c, calls);
    IndexOfKeys(c.streams);
    if call.variant in c.streams {
      IndexOfPoints(c.streams, call.variant);
      var index := IndexOf(c.streams)[call.variant];
      ProcessServes(c, e, call);
      assert Process(c, e, call).0.log == e.log + Served(c, Pending(c, e.log), call, index);
    }
  }

  lemma ProcessServes(c: Config, e: Egress, call: Call)
    requires StateInv(c, e) && call.variant in IndexOf(c.streams)
    ensures Process(c, e, call).0.log
         == e.log + Served(c, e.lastFailure, call, IndexOf(c.streams)[call.variant])
  {
    hide IndexOf;
    var tried := Reconnected(call.now, Succeeds(c, call.attempt));
    var write := Wrote(call.now, call.variant, e.varMap[call.variant], c.streams, true, call.writeOk);
    assert (e.log + [tried]) + [write] == e.log + [tried, write];
  }

  /** A lost connection comes back: five seconds after the failure the first packet whose attempt
      succeeds is written, and the failure is forgotten unless that write fails. */
  lemma ComesBack(c: Config, calls: seq<Call>, call: Call)
    requires c.Valid() && Ordered(calls + [call]) && call.variant in c.streams
    requires var pending := Pending(c, Run(c, calls).log);
             pending.Some? && call.now >= pending.value + BACKOFF_MS && Succeeds(c, call.attempt)
    ensures var log' := Run(c, calls + [call]).log;
            && log'[|log'| - 1].Wrote? && log'[|log'| - 1].variant == call.variant
            && Pending(c, log') == if call.writeOk then None else Some(call.now)
  {
    hide Run;
    PacketIsServed(c, calls, call);
  }

  predicate AttemptFailed(log: seq<Event>) {
    log != [] && log[|log| - 1].Reconnected? && !log[|log| - 1].ok
  }

  /** Between a failed attempt and the next one the context stays closed. */
  lemma {:induction false} FailedAttemptCloses(c: Config, calls: seq<Call>)
    requires AttemptFailed(Run(c, calls).log) && c.reconnectable
    ensures !Run(c, calls).isOpen
    decreases |calls|
  {
    hide IndexOf;
    if calls != [] {
      var init := calls[..|calls| - 1];
      if AttemptFailed(Run(c, init).log) {
        FailedAttemptCloses(c, init);
      }
    }
  }
}
