/** Streams of the Cloudflare backend: webhooks connect and disconnect an input, and the tables
    `user_stream` and `user_stream_key` follow
    (crates/zap-stream-external/src/cloudflare/api.rs, crates/zap-stream-db/src/db.rs).

    Each handler is one atomic step. Its arguments carry what the outside decides: the clock,
    whether an ingest endpoint exists, whether publishing the event succeeds, new ids, and
    which row a query with ties returns. */
module Lifecycle {
  import opened Wrappers

  const RECONNECT_WINDOW_SECONDS := 120
  const INPUT_MAP_TTL := 120

  datatype StreamState = Planned | Live | Ended

  datatype Stream = Stream(
    user: nat, key: Option<nat>, state: StreamState, ends: Option<int>, input: Option<nat>, starts: int)

  datatype Key = Key(user: nat, stream: nat, expires: Option<int>)

  datatype Mapping = Mapping(stream: nat, created: int)

  /** The user, and the custom key unless it is the primary one, an input streams for. */
  datatype Owner = Owner(user: nat, key: Option<nat>)

  /** `primary` gives the user whose own input this is, `keyOf` the custom key of an input. */
  datatype Db = Db(streams: map<nat, Stream>, keys: map<nat, Key>, keyOf: map<nat, nat>,
                   primary: map<nat, nat>, inputs: map<nat, Mapping>)

  // ----- Queries ---------------------------------------------------------------

  /** `resolve_user_and_key`: an expired key does not resolve. */
  function Resolve(db: Db, input: nat, now: int): Option<Owner> {
    if input in db.primary then Some(Owner(db.primary[input], None))
    else if input in db.keyOf && db.keyOf[input] in db.keys then
      var k := db.keys[db.keyOf[input]];
      if k.expires.None? || k.expires.value > now then Some(Owner(k.user, Some(db.keyOf[input]))) else None
    else None
  }

  predicate LiveFor(db: Db, id: nat, owner: Owner) {
    && id in db.streams && db.streams[id].state.Live?
    && db.streams[id].user == owner.user && db.streams[id].key == owner.key
  }

  predicate NoneLive(db: Db, owner: Owner) { forall id | id in db.streams :: !LiveFor(db, id, owner) }

  predicate EndedPrimary(s: Stream, user: nat) {
    s.user == user && s.key.None? && s.state.Ended? && s.ends.Some?
  }

  /** `order by ends desc limit 1` over the ended primary streams of a user. */
  predicate LastEnded(db: Db, user: nat, id: nat) {
    && id in db.streams && EndedPrimary(db.streams[id], user)
    && forall j | j in db.streams && EndedPrimary(db.streams[j], user) ::
         db.streams[j].ends.value <= db.streams[id].ends.value
  }

  predicate NoneEnded(db: Db, user: nat) { forall j | j in db.streams :: !EndedPrimary(db.streams[j], user) }

  /** What the query for previous streams may answer. */
  predicate PreviousStream(db: Db, user: nat, prev: Option<nat>) {
    if prev.Some? then LastEnded(db, user, prev.value) else NoneEnded(db, user)
  }

  function Abs(x: int): nat { if x < 0 then -x else x }

  function Recent(db: Db, now: int): map<nat, Mapping> {
    map i | i in db.inputs && now - db.inputs[i].created <= INPUT_MAP_TTL :: db.inputs[i]
  }

  // ----- Handlers on values -------------------------------------------------------

  function WithStream(db: Db, id: nat, s: Stream): Db { db.(streams := db.streams[id := s]) }

  /** `get_mapped_stream`: expired and dangling entries are dropped on the way. */
  function Purged(db: Db, input: nat, now: int): Db {
    var recent := Recent(db, now);
    if input in recent && recent[input].stream !in db.streams then db.(inputs := recent - {input})
    else db.(inputs := recent)
  }

  predicate Duplicate(db: Db, input: nat, now: int) {
    var m := Purged(db, input, now).inputs;
    input in m && m[input].stream in db.streams && db.streams[m[input].stream].state.Live?
  }

  /** The row a connecting owner goes live on; None if it is turned away. */
  function Target(db: Db, owner: Owner, now: int, prev: Option<nat>, newId: nat): Option<nat> {
    if owner.key.Some? then
      if owner.key.value in db.keys && db.keys[owner.key.value].stream in db.streams
      then Some(db.keys[owner.key.value].stream) else None
    else if !NoneLive(db, owner) then None
    else if prev.Some? && prev.value in db.streams && db.streams[prev.value].ends.Some?
            && Abs(now - db.streams[prev.value].ends.value) < RECONNECT_WINDOW_SECONDS then prev
    else Some(newId)
  }

  function GoneLive(db: Db, owner: Owner, id: nat, input: nat, now: int): Db {
    var s := if id in db.streams then db.streams[id].(state := Live, ends := None, input := Some(input))
             else Stream(owner.user, None, Live, None, Some(input), now);
    WithStream(db, id, s).(inputs := db.inputs[input := Mapping(id, now)])
  }

  function RolledBack(db: Db, id: nat, input: nat, now: int): Db
    requires id in db.streams
  {
    WithStream(db, id, db.streams[id].(state := Ended, ends := Some(now))).(inputs := db.inputs - {input})
  }

  datatype Connection = Connection(input: nat, now: int, endpoint: bool, published: bool, prev: Option<nat>, newId: nat)

  function Connected(db: Db, c: Connection): Db {
    var purged := Purged(db, c.input, c.now);
    if Duplicate(db, c.input, c.now) then purged
    else
      var owner := Resolve(db, c.input, c.now);
      if owner.None? || !c.endpoint then purged
      else
        var id := Target(purged, owner.value, c.now, c.prev, c.newId);
        if id.None? then purged
        else
          var live := GoneLive(purged, owner.value, id.value, c.input, c.now);
          if c.published then live else RolledBack(live, id.value, c.input, c.now)
  }

  /** `victim` is the live stream the query for the owner returned first. */
  function Disconnected(db: Db, input: nat, now: int, published: bool, victim: Option<nat>): Db {
    if victim.None? || victim.value !in db.streams || !published then db
    else RolledBack(db, victim.value, input, now)
  }

  /** `stored`: did the database accept the key after the planned row was inserted? */
  datatype NewKey = NewKey(user: nat, stream: nat, key: nat, input: nat, expires: Option<int>, stored: bool, now: int)

  function KeyCreated(db: Db, k: NewKey): Db {
    if k.stored then
      db.(streams := db.streams[k.stream := Stream(k.user, Some(k.key), Planned, None, None, k.now)],
          keys := db.keys[k.key := Key(k.user, k.stream, k.expires)],
          keyOf := db.keyOf[k.input := k.key])
    else WithStream(db, k.stream, Stream(k.user, None, Planned, None, None, k.now))
  }

  // ----- Steps ---------------------------------------------------------------------

  datatype Step =
    | Connect(c: Connection)
    | Disconnect(input: nat, now: int, published: bool, victim: Option<nat>)
    | CreateKey(k: NewKey)

  /** What the answers of the outside have to satisfy. */
  predicate Possible(db: Db, step: Step) {
    match step
    case Connect(c) =>
      && c.newId !in db.streams
      && (Resolve(db, c.input, c.now).Some? ==> PreviousStream(db, Resolve(db, c.input, c.now).value.user, c.prev))
    case Disconnect(input, now, _, victim) =>
      var owner := Resolve(db, input, now);
      if owner.None? then victim.None?
      else if victim.Some? then LiveFor(db, victim.value, owner.value) else NoneLive(db, owner.value)
    case CreateKey(k) => k.stream !in db.streams && k.key !in db.keys && k.input !in db.keyOf && k.input !in db.primary
  }

  function Apply(db: Db, step: Step): Db {
    match step
    case Connect(c) => Connected(db, c)
    case Disconnect(input, now, published, victim) => Disconnected(db, input, now, published, victim)
    case CreateKey(k) => KeyCreated(db, k)
  }

  function Run(db: Db, steps: seq<Step>): Db {
    if steps == [] then db else Apply(Run(db, steps[..|steps| - 1]), steps[|steps| - 1])
  }

  ghost predicate PossibleRun(db: Db, steps: seq<Step>) {
    forall i | 0 <= i < |steps| :: Possible(Run(db, steps[..i]), steps[i])
  }

  // ----- The handlers, in place ------------------------------------------------------

  class CfApiWrapper {
    var streams: map<nat, Stream>
    var keys: map<nat, Key>
    var keyOf: map<nat, nat>
    const primary: map<nat, nat>
    var inputStreamMap: map<nat, Mapping>

    function State(): Db
      reads this
    {
      Db(streams, keys, keyOf, primary, inputStreamMap)
    }

    constructor (primary: map<nat, nat>)
      ensures State() == Db(map[], map[], map[], primary, map[])
    {
      this.primary := primary;
      streams, keys, keyOf, inputStreamMap := map[], map[], map[], map[];
    }

    method GetMappedStream(input: nat, now: int) returns (id: Option<nat>)
      modifies this`inputStreamMap
      ensures State() == Purged(old(State()), input, now)
      ensures id == if input in inputStreamMap then Some(inputStreamMap[input].stream) else None
      ensures id.Some? ==> id.value in streams
    {
      inputStreamMap := Recent(State(), now);
      if input !in inputStreamMap { return None; }
      id := Some(inputStreamMap[input].stream);
      if id.value !in streams {
        inputStreamMap := inputStreamMap - {input};
        id := None;
      }
    }

    method ResolveOrCreateStream(owner: Owner, input: nat, now: int, newId: nat)
        returns (id: Option<nat>, ghost prev: Option<nat>)
      requires newId !in streams
      modifies this`streams, this`inputStreamMap
      ensures PreviousStream(old(State()), owner.user, prev)
      ensures id == Target(old(State()), owner, now, prev, newId)
      ensures State() == if id.Some? then GoneLive(old(State()), owner, id.value, input, now) else old(State())
    {
      var last: Option<nat> := None;
      if j :| j in streams && LastEnded(State(), owner.user, j) {
        last := Some(j);
      } else {
        SomeLastEnded(State(), owner.user);
      }
      prev := last;
      if owner.key.Some? {
        if owner.key.value !in keys || keys[owner.key.value].stream !in streams { return None, prev; }
        var fixed := keys[owner.key.value].stream;
        streams := streams[fixed := streams[fixed].(state := Live, ends := None, input := Some(input))];
        id := Some(fixed);
      } else if j :| j in streams && LiveFor(State(), j, owner) {
        return None, prev;
      } else if last.Some? && Abs(now - streams[last.value].ends.value) < RECONNECT_WINDOW_SECONDS {
        streams := streams[last.value := streams[last.value].(state := Live, ends := None, input := Some(input))];
        id := last;
      } else {
        streams := streams[newId := Stream(owner.user, None, Live, None, Some(input), now)];
        id := Some(newId);
      }
      inputStreamMap := inputStreamMap[input := Mapping(id.value, now)];
    }

    method PublishStreamStart(input: nat, now: int, endpoint: bool, published: bool, newId: nat)
        returns (ghost step: Step)
      requires newId !in streams
      modifies this`streams, this`inputStreamMap
      ensures Possible(old(State()), step) && State() == Apply(old(State()), step)
      ensures step.Connect? && step.c == Connection(input, now, endpoint, published, step.c.prev, newId)
    {
      hide PreviousStream, Purged, Target, Resolve, Recent;
      ghost var db := State();
      PurgedKeeps(db, input, now);
      ghost var prev := APrevious(db, Resolve(db, input, now));
      var mapped := GetMappedStream(input, now);
      ghost var purged := State();
      if mapped.Some? && streams[mapped.value].state.Live? {
        return Connect(Connection(input, now, endpoint, published, prev, newId));
      }
      var owner := Resolve(State(), input, now);
      if owner.None? || !endpoint {
        return Connect(Connection(input, now, endpoint, published, prev, newId));
      }
      var id;
      id, prev := ResolveOrCreateStream(owner.value, input, now, newId);
      SamePrevious(purged, db, owner.value.user, prev);
      step := Connect(Connection(input, now, endpoint, published, prev, newId));
      if id.Some? && !published {
        streams := streams[id.value := streams[id.value].(state := Ended, ends := Some(now))];
        inputStreamMap := inputStreamMap - {input};
      }
    }

    method PublishStreamEnd(input: nat, now: int, published: bool) returns (ghost step: Step)
      modifies this`streams, this`inputStreamMap
      ensures Possible(old(State()), step) && State() == Apply(old(State()), step)
      ensures step.Disconnect? && step.input == input && step.now == now && step.published == published
    {
      var owner := Resolve(State(), input, now);
      if owner.None? { return Disconnect(input, now, published, None); }
      if id :| id in streams && LiveFor(State(), id, owner.value) {
        step := Disconnect(input, now, published, Some(id));
        if published {
          streams := streams[id := streams[id].(state := Ended, ends := Some(now))];
          inputStreamMap := inputStreamMap - {input};
        }
      } else {
        step := Disconnect(input, now, published, None);
      }
    }

    method CreateStreamKey(k: NewKey)
      requires k.stream !in streams && k.key !in keys && k.input !in keyOf && k.input !in primary
      modifies this`streams, this`keys, this`keyOf
      ensures State() == Apply(old(State()), CreateKey(k))
    {
      streams := streams[k.stream := Stream(k.user, None, Planned, None, None, k.now)];
      if k.stored {
        keys := keys[k.key := Key(k.user, k.stream, k.expires)];
        keyOf := keyOf[k.input := k.key];
        streams := streams[k.stream := streams[k.stream].(key := Some(k.key))];
      }
    }
  }

  lemma PurgedKeeps(db: Db, input: nat, now: int)
    ensures var p := Purged(db, input, now);
            && p == db.(inputs := p.inputs) && Resolve(p, input, now) == Resolve(db, input, now)
            && (forall i | i in p.inputs :: i in db.inputs && p.inputs[i] == db.inputs[i])
  {}

  lemma SamePrevious(a: Db, b: Db, user: nat, prev: Option<nat>)
    requires a.streams == b.streams && PreviousStream(a, user, prev)
    ensures PreviousStream(b, user, prev)
  {}

  ghost function APrevious(db: Db, owner: Option<Owner>): (prev: Option<nat>)
    ensures owner.Some? ==> PreviousStream(db, owner.value.user, prev)
  {
    if owner.Some? && exists j :: LastEnded(db, owner.value.user, j) then
      var j :| LastEnded(db, owner.value.user, j);
      Some(j)
    else
      if owner.Some? then SomeLastEnded(db, owner.value.user); None else None
  }

  /** Ended rows have a last one. */
  lemma SomeLastEnded(db: Db, user: nat)
    requires !exists id :: LastEnded(db, user, id)
    ensures NoneEnded(db, user)
  {
    if j :| j in db.streams && EndedPrimary(db.streams[j], user) {
      var ended := set i | i in db.streams && EndedPrimary(db.streams[i], user);
      var id := Latest(db, ended, j);
      assert LastEnded(db, user, id);
    }
  }

  lemma {:induction false} Latest(db: Db, ids: set<nat>, j: nat) returns (id: nat)
    requires j in ids && forall i | i in ids :: i in db.streams && db.streams[i].ends.Some?
    ensures id in ids && forall i | i in ids :: db.streams[i].ends.value <= db.streams[id].ends.value
    decreases |ids|
  {
    if ids == {j} {
      id := j;
    } else {
      var k :| k in ids && k != j;
      var best := Latest(db, ids - {j}, k);
      id := if db.streams[best].ends.value >= db.streams[j].ends.value then best else j;
    }
  }
}
