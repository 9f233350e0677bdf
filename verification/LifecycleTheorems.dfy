/** What holds in every run of connects, duplicate connects, failed publications, disconnects
    and key creations. */
module LifecycleTheorems {
  import opened Wrappers
  import opened Lifecycle

  /** Whom an input streams for, whether or not the key has expired. */
  function Belongs(db: Db, input: nat): Option<Owner> {
    if input in db.primary then Some(Owner(db.primary[input], None))
    else if input in db.keyOf && db.keyOf[input] in db.keys
    then Some(Owner(db.keys[db.keyOf[input]].user, Some(db.keyOf[input])))
    else None
  }

  function OwnerOf(s: Stream): Owner { Owner(s.user, s.key) }

  predicate RowInv(db: Db, id: nat)
    requires id in db.streams
  {
    var s := db.streams[id];
    && (s.state.Ended? <==> s.ends.Some?)
    && (s.key.Some? ==> s.key.value in db.keys && db.keys[s.key.value].stream == id)
    && (s.state.Live? ==> s.input.Some? && Belongs(db, s.input.value) == Some(OwnerOf(s)))
  }

  predicate KeyInv(db: Db, k: nat)
    requires k in db.keys
  {
    db.keys[k].stream in db.streams && OwnerOf(db.streams[db.keys[k].stream]) == Owner(db.keys[k].user, Some(k))
  }

  predicate InputInv(db: Db, i: nat)
    requires i in db.inputs
  {
    db.inputs[i].stream in db.streams && Belongs(db, i) == Some(OwnerOf(db.streams[db.inputs[i].stream]))
  }

  ghost predicate OneLive(db: Db) {
    forall owner, a, b | LiveFor(db, a, owner) && LiveFor(db, b, owner) :: a == b
  }

  ghost predicate TablesInv(db: Db) {
    && (forall id | id in db.streams :: RowInv(db, id))
    && (forall k | k in db.keys :: KeyInv(db, k))
    && (forall i | i in db.inputs :: InputInv(db, i))
    && (forall i | i in db.keyOf :: i !in db.primary && db.keyOf[i] in db.keys)
  }

  ghost predicate Inv(db: Db) { TablesInv(db) && OneLive(db) }

  // ----- One step ---------------------------------------------------------------

  /** Rows keep their owner and their start, and inputs stay with whom they belong to. */
  ghost predicate Extends(db: Db, db': Db) {
    && (forall id | id in db.streams :: id in db'.streams && OwnerOf(db'.streams[id]) == OwnerOf(db.streams[id])
                                        && db'.streams[id].starts == db.streams[id].starts)
    && (forall i | Belongs(db, i).Some? :: Belongs(db', i) == Belongs(db, i))
  }

  lemma ResolveBelongs(db: Db, input: nat, now: int)
    ensures Resolve(db, input, now).Some? ==> Resolve(db, input, now) == Belongs(db, input)
  {}

  lemma PurgedInv(db: Db, input: nat, now: int)
    requires TablesInv(db)
    ensures TablesInv(Purged(db, input, now))
  {
    hide RowInv, KeyInv, InputInv;
    PurgedKeeps(db, input, now);
    var p := Purged(db, input, now);
    FramedInv(db, p);
  }

  lemma FramedInv(db: Db, p: Db)
    requires TablesInv(db) && p == db.(inputs := p.inputs)
    requires forall i | i in p.inputs :: i in db.inputs && p.inputs[i] == db.inputs[i]
    ensures TablesInv(p)
  {
    forall id | id in p.streams ensures RowInv(p, id) { assert RowInv(db, id); }
    forall k | k in p.keys ensures KeyInv(p, k) { assert KeyInv(db, k); }
    forall i | i in p.inputs ensures InputInv(p, i) { assert InputInv(db, i); }
  }

  /** A row of the owner, or a new one, replaces whatever was there. */
  lemma RowWritten(db: Db, id: nat, s: Stream, inputs: map<nat, Mapping>)
    requires TablesInv(db)
    requires id in db.streams ==> OwnerOf(s) == OwnerOf(db.streams[id])
    requires id !in db.streams ==> s.key.None?
    requires RowInv(WithStream(db, id, s).(inputs := inputs), id)
    requires forall i | i in inputs ::
               || (i in db.inputs && inputs[i] == db.inputs[i])
               || (inputs[i].stream == id && Belongs(db, i) == Some(OwnerOf(s)))
    ensures TablesInv(WithStream(db, id, s).(inputs := inputs))
  {
    var db' := WithStream(db, id, s).(inputs := inputs);
    forall j | j in db'.streams ensures RowInv(db', j) {
      if j != id { assert RowInv(db, j); }
    }
    forall k | k in db'.keys ensures KeyInv(db', k) { assert KeyInv(db, k); }
    forall i | i in db'.inputs ensures InputInv(db', i) {
      if i in db.inputs && inputs[i] == db.inputs[i] { assert InputInv(db, i); }
    }
  }

  /** What the target of a connection is: a row of its owner with nobody else live, or new. */
  ghost predicate Admissible(db: Db, owner: Owner, id: nat) {
    && (id in db.streams ==> OwnerOf(db.streams[id]) == owner)
    && (id !in db.streams ==> owner.key.None?)
    && forall j | LiveFor(db, j, owner) :: j == id
  }

  lemma TargetIsAdmissible(db: Db, owner: Owner, now: int, prev: Option<nat>, newId: nat)
    requires TablesInv(db) && newId !in db.streams && PreviousStream(db, owner.user, prev)
    requires owner.key.Some? && owner.key.value in db.keys ==> db.keys[owner.key.value].user == owner.user
    requires Target(db, owner, now, prev, newId).Some?
    ensures Admissible(db, owner, Target(db, owner, now, prev, newId).value)
  {
    var id := Target(db, owner, now, prev, newId).value;
    if owner.key.Some? {
      assert KeyInv(db, owner.key.value);
      forall j | LiveFor(db, j, owner) ensures j == id { assert RowInv(db, j); }
    }
  }

  lemma GoneLiveInv(db: Db, owner: Owner, id: nat, input: nat, now: int)
    requires Inv(db) && Admissible(db, owner, id) && Belongs(db, input) == Some(owner)
    ensures Inv(GoneLive(db, owner, id, input, now))
    ensures LiveFor(GoneLive(db, owner, id, input, now), id, owner)
  {
    var db' := GoneLive(db, owner, id, input, now);
    if id in db.streams { assert RowInv(db, id); }
    RowWritten(db, id, db'.streams[id], db'.inputs);
    forall o, a, b | LiveFor(db', a, o) && LiveFor(db', b, o) ensures a == b {
      assert a != id ==> LiveFor(db, a, o);
      assert b != id ==> LiveFor(db, b, o);
    }
  }

  lemma RolledBackInv(db: Db, id: nat, input: nat, now: int)
    requires Inv(db) && id in db.streams
    ensures Inv(RolledBack(db, id, input, now))
  {
    var db' := RolledBack(db, id, input, now);
    assert RowInv(db, id);
    RowWritten(db, id, db'.streams[id], db'.inputs);
    forall o, a, b | LiveFor(db', a, o) && LiveFor(db', b, o) ensures a == b {
      assert LiveFor(db, a, o) && LiveFor(db, b, o);
    }
  }

  /** Did the connection go through to the tables, and on which row? */
  /** The input belongs to a custom key that has expired. */
  predicate Expired(db: Db, input: nat, now: int) {
    && input !in db.primary && input in db.keyOf && db.keyOf[input] in db.keys
    && db.keys[db.keyOf[input]].expires.Some? && db.keys[db.keyOf[input]].expires.value <= now
  }

  /** An input resolves until its key expires. */
  lemma ResolvesIff(db: Db, input: nat, now: int)
    ensures Resolve(db, input, now) == if Expired(db, input, now) then None else Belongs(db, input)
  {}

  function Landed(db: Db, c: Connection): Option<nat> {
    var owner := Resolve(db, c.input, c.now);
    if Duplicate(db, c.input, c.now) || owner.None? || !c.endpoint then None
    else Target(Purged(db, c.input, c.now), owner.value, c.now, c.prev, c.newId)
  }

  lemma PurgedOneLive(db: Db, p: Db)
    requires OneLive(db) && p.streams == db.streams
    ensures OneLive(p)
  {
    forall o, a, b | LiveFor(p, a, o) && LiveFor(p, b, o) ensures a == b {
      assert LiveFor(db, a, o) && LiveFor(db, b, o);
    }
  }

  lemma LandedIsAdmissible(db: Db, c: Connection)
    requires Inv(db) && Possible(db, Connect(c)) && Landed(db, c).Some?
    ensures var p := Purged(db, c.input, c.now);
            var owner := Resolve(db, c.input, c.now);
            Inv(p) && owner.Some? && Admissible(p, owner.value, Landed(db, c).value) && Belongs(p, c.input) == owner
  {
    hide Purged, PreviousStream, LiveFor, RowInv, KeyInv, InputInv, Target;
    var p := Purged(db, c.input, c.now);
    PurgedInv(db, c.input, c.now);
    PurgedKeeps(db, c.input, c.now);
    PurgedOneLive(db, p);
    ResolveBelongs(p, c.input, c.now);
    var owner := Resolve(db, c.input, c.now).value;
    SamePrevious(db, p, owner.user, c.prev);
    TargetIsAdmissible(p, owner, c.now, c.prev, c.newId);
  }

  lemma ConnectInv(db: Db, c: Connection)
    requires Inv(db) && Possible(db, Connect(c))
    ensures Inv(Connected(db, c))
  {
    hide Purged, PreviousStream, LiveFor, RowInv, KeyInv, InputInv, Target, Possible, GoneLive, RolledBack, TablesInv,
      OneLive;
    var p := Purged(db, c.input, c.now);
    PurgedInv(db, c.input, c.now);
    PurgedKeeps(db, c.input, c.now);
    PurgedOneLive(db, p);
    var id := Landed(db, c);
    if id.Some? {
      LandedIsAdmissible(db, c);
      var owner := Resolve(db, c.input, c.now).value;
      var live := GoneLive(p, owner, id.value, c.input, c.now);
      GoneLiveInv(p, owner, id.value, c.input, c.now);
      LiveIsThere(live, id.value, owner);
      RolledBackInv(live, id.value, c.input, c.now);
    }
  }

  lemma LiveIsThere(db: Db, id: nat, owner: Owner)
    requires LiveFor(db, id, owner)
    ensures id in db.streams
  {}

  lemma KeyCreatedInv(db: Db, k: NewKey)
    requires Inv(db) && Possible(db, CreateKey(k))
    ensures Inv(KeyCreated(db, k))
  {
    hide OneLive;
    KeyCreatedOneLive(db, k);
    if k.stored {
      KeyStoredRows(db, k);
      KeyStoredLinks(db, k);
    } else {
      var s := Stream(k.user, None, Planned, None, None, k.now);
      assert KeyCreated(db, k) == WithStream(db, k.stream, s).(inputs := db.inputs);
      RowWritten(db, k.stream, s, db.inputs);
    }
  }

  lemma KeyStoredRows(db: Db, k: NewKey)
    requires TablesInv(db) && Possible(db, CreateKey(k)) && k.stored
    ensures forall id | id in KeyCreated(db, k).streams :: RowInv(KeyCreated(db, k), id)
  {
    var db' := KeyCreated(db, k);
    forall id | id in db'.streams ensures RowInv(db', id) {
      if id != k.stream { assert RowInv(db, id); }
    }
  }

  lemma KeyStoredLinks(db: Db, k: NewKey)
    requires TablesInv(db) && Possible(db, CreateKey(k)) && k.stored
    ensures var db' := KeyCreated(db, k);
            && (forall j | j in db'.keys :: KeyInv(db', j)) && (forall i | i in db'.inputs :: InputInv(db', i))
            && (forall i | i in db'.keyOf :: i !in db'.primary && db'.keyOf[i] in db'.keys)
  {
    var db' := KeyCreated(db, k);
    forall j | j in db'.keys ensures KeyInv(db', j) {
      if j in db.keys { assert KeyInv(db, j); }
    }
    forall i | i in db'.inputs ensures InputInv(db', i) { assert InputInv(db, i); }
  }

  lemma KeyCreatedOneLive(db: Db, k: NewKey)
    requires OneLive(db) && k.stream !in db.streams
    ensures OneLive(KeyCreated(db, k))
  {
    var db' := KeyCreated(db, k);
    forall o, a, b | LiveFor(db', a, o) && LiveFor(db', b, o) ensures a == b {
      assert LiveFor(db, a, o) && LiveFor(db, b, o);
    }
  }

  lemma InvStep(db: Db, step: Step)
    requires Inv(db) && Possible(db, step)
    ensures Inv(Apply(db, step))
  {
    hide Inv;
    match step
    case Connect(c) => ConnectInv(db, c);
    case Disconnect(input, now, published, victim) =>
      if victim.Some? && victim.value in db.streams { RolledBackInv(db, victim.value, input, now); }
    case CreateKey(k) => KeyCreatedInv(db, k);
  }

  lemma ConnectExtends(db: Db, c: Connection)
    requires Inv(db) && Possible(db, Connect(c))
    ensures Extends(db, Connected(db, c))
  {
    hide Purged, Target, Resolve, Duplicate, PreviousStream, TablesInv, OneLive;
    PurgedKeeps(db, c.input, c.now);
  }

  lemma KeyCreatedExtends(db: Db, k: NewKey)
    requires Possible(db, CreateKey(k))
    ensures Extends(db, KeyCreated(db, k))
  {}

  lemma ExtendsStep(db: Db, step: Step)
    requires Inv(db) && Possible(db, step)
    ensures Extends(db, Apply(db, step))
  {
    hide Inv, Possible;
    match step
    case Connect(c) => ConnectExtends(db, c);
    case Disconnect(_, _, _, _) =>
    case CreateKey(k) => KeyCreatedExtends(db, k);
  }

  // ----- Every run ------------------------------------------------------------------

  lemma {:induction false} RunInv(db: Db, steps: seq<Step>)
    requires Inv(db) && PossibleRun(db, steps)
    ensures Inv(Run(db, steps)) && Extends(db, Run(db, steps))
    decreases |steps|
  {
    hide Inv, Possible, Apply, Extends;
    if steps == [] {
      ExtendsSelf(db);
    } else {
      var init := steps[..|steps| - 1];
      assert forall i | 0 <= i < |init| :: init[..i] == steps[..i] && init[i] == steps[i];
      RunInv(db, init);
      assert Possible(Run(db, steps[..|steps| - 1]), steps[|steps| - 1]);
      InvStep(Run(db, init), steps[|steps| - 1]);
      ExtendsStep(Run(db, init), steps[|steps| - 1]);
      ExtendsMore(db, Run(db, init), Run(db, steps));
    }
  }

  lemma ExtendsSelf(db: Db)
    ensures Extends(db, db)
  {}

  lemma ExtendsMore(a: Db, b: Db, c: Db)
    requires Extends(a, b) && Extends(b, c)
    ensures Extends(a, c)
  {}

  /** From empty tables, whatever the webhooks do: at most one stream is live for each user and
      key, a live stream has no end and an ended one has. */
  lemma AtMostOneLive(primary: map<nat, nat>, steps: seq<Step>)
    requires PossibleRun(Db(map[], map[], map[], primary, map[]), steps)
    ensures var db := Run(Db(map[], map[], map[], primary, map[]), steps);
            && (forall owner, a, b | LiveFor(db, a, owner) && LiveFor(db, b, owner) :: a == b)
            && (forall id | id in db.streams && db.streams[id].state.Live? :: db.streams[id].ends.None?)
            && (forall id | id in db.streams && db.streams[id].state.Ended? :: db.streams[id].ends.Some?)
  {
    hide Run, PossibleRun;
    var start := Db(map[], map[], map[], primary, map[]);
    RunInv(start, steps);
    var db := Run(start, steps);
    forall id | id in db.streams ensures RowInv(db, id) {}
  }

  // ----- Ends meet their starts --------------------------------------------------------

  /** A connection lands exactly if its input belongs to somebody, its key has not expired, there is an
      endpoint, it is not a duplicate, and, for a primary input, nothing of the user is live. */
  lemma ConnectLandsIff(db: Db, c: Connection)
    requires Inv(db) && Possible(db, Connect(c))
    ensures Landed(db, c).Some? <==>
              && Belongs(db, c.input).Some? && !Expired(db, c.input, c.now) && c.endpoint
              && !Duplicate(db, c.input, c.now)
              && (Belongs(db, c.input).value.key.None? ==> NoneLive(db, Belongs(db, c.input).value))
  {
    hide Duplicate, RowInv, InputInv, OneLive, PreviousStream;
    PurgedKeeps(db, c.input, c.now);
    ResolvesIff(db, c.input, c.now);
    var p := Purged(db, c.input, c.now);
    if Belongs(db, c.input).Some? {
      var owner := Belongs(db, c.input).value;
      assert NoneLive(p, owner) <==> NoneLive(db, owner) by {
        assert forall id :: LiveFor(p, id, owner) <==> LiveFor(db, id, owner);
      }
      if owner.key.Some? {
        assert KeyInv(db, owner.key.value);
      }
    }
  }

  /** A key works from its creation on until the time it was given, in every run. */
  lemma KeyExpires(db: Db, k: NewKey, steps: seq<Step>, now: int)
    requires Inv(db) && Possible(db, CreateKey(k)) && k.stored && PossibleRun(KeyCreated(db, k), steps)
    ensures var later := Run(KeyCreated(db, k), steps);
            Resolve(later, k.input, now)
            == if k.expires.Some? && now >= k.expires.value then None else Some(Owner(k.user, Some(k.key)))
  {
    hide Inv, Run, PossibleRun, Extends;
    InvStep(db, CreateKey(k));
    RunInv(KeyCreated(db, k), steps);
    RunKeepsKeys(KeyCreated(db, k), steps, k.key, k.input);
    ResolvesIff(Run(KeyCreated(db, k), steps), k.input, now);
  }

  /** What creating a key leaves: a planned row, which goes live when its input connects in time; or,
      if the key is refused, the planned row alone, on which no input can go live. */
  lemma CreatedKeyGoesLive(db: Db, k: NewKey, c: Connection)
    requires Inv(db) && Possible(db, CreateKey(k)) && Possible(KeyCreated(db, k), Connect(c))
    requires c.input == k.input && c.endpoint && c.published && (k.expires.None? || c.now < k.expires.value)
    ensures var created, live := KeyCreated(db, k), Connected(KeyCreated(db, k), c);
            && k.stream in created.streams && created.streams[k.stream].state.Planned?
            && OwnerOf(created.streams[k.stream]) == Owner(k.user, if k.stored then Some(k.key) else None)
            && (forall j | j != k.stream :: j in created.streams <==> j in db.streams)
            && (forall j | j in db.streams :: created.streams[j] == db.streams[j])
            && (if k.stored then LiveFor(live, k.stream, Owner(k.user, Some(k.key)))
                else live.streams == created.streams)
  {
    hide Inv, Target, PreviousStream, RowInv, InputInv, OneLive, Recent, Duplicate;
    var created := KeyCreated(db, k);
    InvStep(db, CreateKey(k));
    PurgedKeeps(created, c.input, c.now);
    ResolvesIff(created, c.input, c.now);
    if k.stored {
      FreshKeyIsNoDuplicate(db, k, c);
      ConnectLandsIff(created, c);
      LandedOnKey(created, c, k.key);
      ConnectGoesLive(created, c);
    } else {
      UnknownInput(db, k);
    }
  }

  lemma LandedOnKey(db: Db, c: Connection, key: nat)
    requires Inv(db) && Landed(db, c).Some? && Belongs(db, c.input).Some? && Belongs(db, c.input).value.key == Some(key)
    ensures key in db.keys && Landed(db, c) == Some(db.keys[key].stream)
  {
    hide RowInv, InputInv, OneLive, KeyInv, Recent, Duplicate;
    PurgedKeeps(db, c.input, c.now);
    ResolvesIff(db, c.input, c.now);
  }

  /** An input that is new belongs to nobody and is not mapped. */
  lemma UnknownInput(db: Db, k: NewKey)
    requires Inv(db) && Possible(db, CreateKey(k))
    ensures Belongs(db, k.input).None? && k.input !in db.inputs
    ensures !k.stored ==> Belongs(KeyCreated(db, k), k.input).None?
  {
    hide RowInv, KeyInv, OneLive;
    forall i | i in db.inputs ensures i != k.input {
      assert InputInv(db, i);
    }
  }

  lemma FreshKeyIsNoDuplicate(db: Db, k: NewKey, c: Connection)
    requires Inv(db) && Possible(db, CreateKey(k)) && c.input == k.input
    ensures !Duplicate(KeyCreated(db, k), c.input, c.now)
  {
    UnknownInput(db, k);
  }

  lemma {:induction false} RunKeepsKeys(db: Db, steps: seq<Step>, key: nat, input: nat)
    requires Inv(db) && PossibleRun(db, steps) && key in db.keys && input in db.keyOf
    ensures var later := Run(db, steps);
            && key in later.keys && later.keys[key] == db.keys[key]
            && input in later.keyOf && later.keyOf[input] == db.keyOf[input] && later.primary == db.primary
    decreases |steps|
  {
    hide Inv, Apply, Possible, PossibleRun;
    if steps != [] {
      var init, last := steps[..|steps| - 1], steps[|steps| - 1];
      PossibleInit(db, steps);
      RunKeepsKeys(db, init, key, input);
      StepKeepsKeys(Run(db, init), last, key, input);
    }
  }

  lemma PossibleInit(db: Db, steps: seq<Step>)
    requires steps != [] && PossibleRun(db, steps)
    ensures PossibleRun(db, steps[..|steps| - 1]) && Possible(Run(db, steps[..|steps| - 1]), steps[|steps| - 1])
  {
    hide Possible;
    var init := steps[..|steps| - 1];
    assert forall i | 0 <= i < |init| :: init[..i] == steps[..i] && init[i] == steps[i];
  }

  lemma StepKeepsKeys(db: Db, step: Step, key: nat, input: nat)
    requires Possible(db, step) && key in db.keys && input in db.keyOf
    ensures var db' := Apply(db, step);
            && key in db'.keys && db'.keys[key] == db.keys[key]
            && input in db'.keyOf && db'.keyOf[input] == db.keyOf[input] && db'.primary == db.primary
  {
    hide PreviousStream;
    if step.Connect? {
      PurgedKeeps(db, step.c.input, step.c.now);
    }
  }

  /** A connection that lands and is published puts exactly one row live, for its owner. */
  lemma ConnectGoesLive(db: Db, c: Connection)
    requires Inv(db) && Possible(db, Connect(c)) && Landed(db, c).Some? && c.published
    ensures var id, owner, db' := Landed(db, c).value, Resolve(db, c.input, c.now), Connected(db, c);
            && owner.Some? && LiveFor(db', id, owner.value) && db'.streams[id].input == Some(c.input)
            && (forall j | j != id :: j in db'.streams <==> j in db.streams)
            && (forall j | j != id && j in db.streams :: db'.streams[j] == db.streams[j])
  {
    hide Inv, Target, PreviousStream, Purged, RowInv, KeyInv, InputInv;
    LandedIsAdmissible(db, c);
    PurgedKeeps(db, c.input, c.now);
  }

  /** A disconnect of an input ends the stream that is live for its owner, and only that; it does
      so exactly if the input still resolves and the event is published. */
  lemma DisconnectEnds(db: Db, id: nat, input: nat, now: int, published: bool, victim: Option<nat>)
    requires Inv(db) && Possible(db, Disconnect(input, now, published, victim))
    requires id in db.streams && db.streams[id].state.Live? && Belongs(db, input) == Some(OwnerOf(db.streams[id]))
    ensures var db' := Disconnected(db, input, now, published, victim);
            && (db' != db <==> published && !Expired(db, input, now))
            && (db' != db ==> db'.streams == db.streams[id := db.streams[id].(state := Ended, ends := Some(now))]
                              && input !in db'.inputs)
  {
    var owner := OwnerOf(db.streams[id]);
    ResolveBelongs(db, input, now);
    assert LiveFor(db, id, owner);
    if victim.Some? {
      assert LiveFor(db, victim.value, owner) && victim.value == id;
    }
  }

  /** The stream that a connect made live is, as long as it is live, the one that a disconnect of
      the same input ends, whatever has happened in between. */
  lemma EndsItsOwn(db: Db, c: Connection, steps: seq<Step>, now: int, victim: Option<nat>)
    requires Inv(db) && Possible(db, Connect(c)) && Landed(db, c).Some? && c.published
    requires PossibleRun(Connected(db, c), steps)
    requires var later := Run(Connected(db, c), steps);
             && Possible(later, Disconnect(c.input, now, true, victim)) && Resolve(later, c.input, now).Some?
             && Landed(db, c).value in later.streams && later.streams[Landed(db, c).value].state.Live?
    ensures var id, later := Landed(db, c).value, Run(Connected(db, c), steps);
            victim == Some(id) && Disconnected(later, c.input, now, true, victim).streams
                                  == later.streams[id := later.streams[id].(state := Ended, ends := Some(now))]
  {
    hide Inv, Run, PossibleRun, Connected, Landed, Disconnected, RowInv, KeyInv, InputInv;
    var id, live := Landed(db, c).value, Connected(db, c);
    ConnectGoesLive(db, c);
    InvStep(db, Connect(c));
    LiveInputBelongs(live, id);
    RunInv(live, steps);
    var later := Run(live, steps);
    DisconnectEnds(later, id, c.input, now, true, victim);
    OnlyVictim(later, id, c.input, now, victim);
  }

  lemma LiveInputBelongs(db: Db, id: nat)
    requires Inv(db) && id in db.streams && db.streams[id].state.Live?
    ensures db.streams[id].input.Some? && Belongs(db, db.streams[id].input.value) == Some(OwnerOf(db.streams[id]))
  {
    assert RowInv(db, id);
  }

  lemma OnlyVictim(db: Db, id: nat, input: nat, now: int, victim: Option<nat>)
    requires Inv(db) && Possible(db, Disconnect(input, now, true, victim)) && Resolve(db, input, now).Some?
    requires id in db.streams && db.streams[id].state.Live? && Belongs(db, input) == Some(OwnerOf(db.streams[id]))
    ensures victim == Some(id)
  {
    ResolveBelongs(db, input, now);
    assert LiveFor(db, id, OwnerOf(db.streams[id]));
  }

  // ----- Repeated connects ---------------------------------------------------------------

  /** A repeated connect of an input whose stream is live leaves the tables alone, with one
      exception: the mapping of a custom key's input has expired and publishing fails. Then the
      rollback ends the live stream. */
  lemma RepeatedConnect(db: Db, c: Connection, id: nat)
    requires Inv(db) && Possible(db, Connect(c))
    requires id in db.streams && db.streams[id].state.Live? && db.streams[id].input == Some(c.input)
    ensures var ends := db.streams[id].key.Some? && !Duplicate(db, c.input, c.now)
                        && !Expired(db, c.input, c.now) && c.endpoint && !c.published;
            && (Connected(db, c).streams != db.streams <==> ends)
            && (ends ==> Connected(db, c).streams
                         == db.streams[id := db.streams[id].(state := Ended, ends := Some(c.now))])
  {
    hide Purged, PreviousStream, InputInv;
    PurgedKeeps(db, c.input, c.now);
    ResolveBelongs(db, c.input, c.now);
    assert RowInv(db, id);
    assert LiveFor(db, id, OwnerOf(db.streams[id]));
    assert Resolve(db, c.input, c.now).Some? ==> LiveFor(Purged(db, c.input, c.now), id, OwnerOf(db.streams[id]));
  }

  /** Within two minutes of a connect its repetition is recognised. */
  lemma RecognisedWhileMapped(db: Db, c: Connection, now: int)
    requires Inv(db) && Possible(db, Connect(c)) && Landed(db, c).Some? && c.published
    ensures Duplicate(Connected(db, c), c.input, now) <==> now - c.now <= INPUT_MAP_TTL
  {
    hide Inv, Target, PreviousStream, RowInv, KeyInv, InputInv;
    LandedIsAdmissible(db, c);
  }

  const SHOW := Stream(1, Some(3), Live, None, Some(5), 0)

  /** A run in which it does: a show is created, connects, and its input connects again after its
      mapping has expired and while publishing fails. */
  lemma RepeatedConnectEndsAShow()
    ensures var start := Db(map[], map[], map[], map[], map[]);
            var steps := [CreateKey(NewKey(1, 7, 3, 5, None, true, 0)),
                          Connect(Connection(5, 0, true, true, None, 8)),
                          Connect(Connection(5, 121, true, false, None, 9))];
            && Run(start, steps[..2]).streams == map[7 := SHOW]
            && Run(start, steps).streams == map[7 := SHOW.(state := Ended, ends := Some(121))]
            && Possible(start, steps[0]) && Possible(Run(start, steps[..1]), steps[1])
            && Possible(Run(start, steps[..2]), steps[2])
  {
    var start := Db(map[], map[], map[], map[], map[]);
    var create := CreateKey(NewKey(1, 7, 3, 5, None, true, 0));
    var first := Connect(Connection(5, 0, true, true, None, 8));
    var again := Connect(Connection(5, 121, true, false, None, 9));
    var steps := [create, first, again];
    assert steps[..0] == [] && steps[..1] == [create] && steps[..2] == [create, first] && steps[..3] == steps;
    assert [create][..0] == [] && [create, first][..1] == [create];
    var keys, keyOf := map[3 := Key(1, 7, None)], map[5 := 3];
    var planned := Db(map[7 := Stream(1, Some(3), Planned, None, None, 0)], keys, keyOf, map[], map[]);
    assert Apply(start, create) == planned;
    FirstConnect(planned, keys, keyOf);
    SecondConnect(Db(map[7 := SHOW], keys, keyOf, map[], map[5 := Mapping(7, 0)]), keys, keyOf);
    hide Apply, Possible;
    assert Run(start, []) == start;
    assert Run(start, [create]) == planned;
  }

  lemma FirstConnect(db: Db, keys: map<nat, Key>, keyOf: map<nat, nat>)
    requires keys == map[3 := Key(1, 7, None)] && keyOf == map[5 := 3]
    requires db == Db(map[7 := Stream(1, Some(3), Planned, None, None, 0)], keys, keyOf, map[], map[])
    ensures Apply(db, Connect(Connection(5, 0, true, true, None, 8)))
            == Db(map[7 := SHOW], keys, keyOf, map[], map[5 := Mapping(7, 0)])
    ensures Possible(db, Connect(Connection(5, 0, true, true, None, 8)))
  {
    assert Purged(db, 5, 0) == db;
    assert Target(db, Owner(1, Some(3)), 0, None, 8) == Some(7);
  }

  lemma SecondConnect(db: Db, keys: map<nat, Key>, keyOf: map<nat, nat>)
    requires keys == map[3 := Key(1, 7, None)] && keyOf == map[5 := 3]
    requires db == Db(map[7 := SHOW], keys, keyOf, map[], map[5 := Mapping(7, 0)])
    ensures Apply(db, Connect(Connection(5, 121, true, false, None, 9))).streams
         == map[7 := SHOW.(state := Ended, ends := Some(121))]
    ensures Possible(db, Connect(Connection(5, 121, true, false, None, 9)))
  {
    assert Recent(db, 121) == map[];
    assert Purged(db, 5, 121) == db.(inputs := map[]);
    assert Target(Purged(db, 5, 121), Owner(1, Some(3)), 121, None, 9) == Some(7);
  }

  // ----- Reconnects ------------------------------------------------------------------------

  /** A primary input that connects when a row of its user ended at `end`, the latest end there is,
      and nothing of it is live: a row that ended then is resumed exactly if that is less than two
      minutes ago; otherwise a new row is opened. Rows may share the latest end. */
  lemma LatestEndResumes(db: Db, id: nat, end: int, c: Connection)
    requires Inv(db) && c.input in db.primary && id in db.streams
    requires EndedPrimary(db.streams[id], db.primary[c.input]) && db.streams[id].ends == Some(end)
    requires forall j | j in db.streams && EndedPrimary(db.streams[j], db.primary[c.input]) ::
               db.streams[j].ends.value <= end
    requires NoneLive(db, Owner(db.primary[c.input], None))
    requires c.endpoint && Possible(db, Connect(c))
    ensures if -RECONNECT_WINDOW_SECONDS < c.now - end < RECONNECT_WINDOW_SECONDS then
              && Landed(db, c).Some? && Landed(db, c).value in db.streams
              && EndedPrimary(db.streams[Landed(db, c).value], db.primary[c.input])
              && db.streams[Landed(db, c).value].ends == Some(end)
            else Landed(db, c) == Some(c.newId)
  {
    hide RowInv, KeyInv;
    var owner := Owner(db.primary[c.input], None);
    PurgedKeeps(db, c.input, c.now);
    assert Resolve(db, c.input, c.now) == Some(owner);
    assert c.prev.Some? && LastEnded(db, owner.user, c.prev.value);
    var p := Purged(db, c.input, c.now);
    forall j | j in p.streams ensures !LiveFor(p, j, owner) {
      assert !LiveFor(db, j, owner);
    }
    if c.input in p.inputs {
      assert InputInv(db, c.input);
      assert !LiveFor(db, db.inputs[c.input].stream, owner);
    }
  }

  /** After a disconnect of a primary input, and after any steps of other keys and users that leave
      its row ended, the next connect resumes that row exactly if it comes within two minutes of
      the disconnect, provided no other row of the user ended then or later; otherwise it opens a
      new row. */
  lemma ReconnectResumes(db: Db, id: nat, end: int, steps: seq<Step>, c: Connection)
    requires Inv(db) && id in db.streams && LiveFor(db, id, Owner(db.streams[id].user, None))
             && db.streams[id].input == Some(c.input)
    requires PossibleRun(Disconnected(db, c.input, end, true, Some(id)), steps)
    requires var later := Run(Disconnected(db, c.input, end, true, Some(id)), steps);
             && Possible(later, Connect(c)) && c.endpoint && NoneLive(later, Owner(db.streams[id].user, None))
             && id in later.streams && EndedPrimary(later.streams[id], db.streams[id].user)
             && later.streams[id].ends == Some(end)
             && forall j | j in later.streams && j != id && EndedPrimary(later.streams[j], db.streams[id].user) ::
                  later.streams[j].ends.value < end
    ensures var later := Run(Disconnected(db, c.input, end, true, Some(id)), steps);
            Landed(later, c)
            == if -RECONNECT_WINDOW_SECONDS < c.now - end < RECONNECT_WINDOW_SECONDS then Some(id) else Some(c.newId)
  {
    hide Run, PossibleRun, Landed, Inv;
    var ended := Disconnected(db, c.input, end, true, Some(id));
    LiveInputBelongs(db, id);
    RolledBackInv(db, id, c.input, end);
    RunInv(ended, steps);
    RunKeepsPrimary(ended, steps);
    LatestEndResumes(Run(ended, steps), id, end, c);
  }

  lemma {:induction false} RunKeepsPrimary(db: Db, steps: seq<Step>)
    ensures Run(db, steps).primary == db.primary
    decreases |steps|
  {
    if steps != [] {
      RunKeepsPrimary(db, steps[..|steps| - 1]);
      var before, step := Run(db, steps[..|steps| - 1]), steps[|steps| - 1];
      if step.Connect? {
        PurgedKeeps(before, step.c.input, step.c.now);
      }
    }
  }
}
