/** Runs in which more time is charged than the row was live. */
module LiveBillingRuns {
  import opened Wrappers
  import opened Billing
  import opened Lifecycle
  import opened LifecycleTheorems
  import opened LiveBilling

  // ----- A show that waited ------------------------------------------------------------

  const START: Meter := Meter(Db(map[], map[], map[], map[], map[]), 0.0, 0.0, 0.0, 0, 0, 0)

  /** The tables once the show has been created. */
  const PLANNED: Db :=
    Db(map[7 := Stream(1, Some(3), Planned, None, None, 0)], map[3 := Key(1, 7, None)], map[5 := 3], map[], map[])

  /** A show is created at time 0, goes live at `w`, and is polled every 30 s. */
  function LateShow(w: nat, n: nat): seq<Moment> {
    [Webhook(CreateKey(NewKey(1, 7, 3, 5, None, true, 0))), Webhook(Connect(Connection(5, w, true, true, None, 8)))]
    + seq(n, i requires 0 <= i < n => PollAt(w + 30 * (i + 1), false))
  }

  lemma ShowIsCreated()
    ensures Watch(START, 7, [Webhook(CreateKey(NewKey(1, 7, 3, 5, None, true, 0)))])
         == Meter(PLANNED, 0.0, 0.0, 0.0, 0, 0, 0)
  {
    var created := Webhook(CreateKey(NewKey(1, 7, 3, 5, None, true, 0)));
    assert [created][..0] == [];
  }

  lemma ShowConnects(w: int)
    ensures var db' := Connected(PLANNED, Connection(5, w, true, true, None, 8));
            IsLive(db', 7) && db'.streams[7].starts == 0
  {
    assert Resolve(PLANNED, 5, w) == Some(Owner(1, Some(3)));
    PurgedKeeps(PLANNED, 5, w);
    assert Target(Purged(PLANNED, 5, w), Owner(1, Some(3)), w, None, 8) == Some(7);
  }

  lemma ShowGoesLive(w: nat)
    ensures var m := Watch(START, 7, LateShow(w, 0));
            && IsLive(m.db, 7) && m.db.streams[7].starts == 0 && m.charged == 0.0
            && m.duration == 0.0 && m.lived == 0 && m.unpolled == 0 && m.last == w
  {
    hide Connected;
    var created := Webhook(CreateKey(NewKey(1, 7, 3, 5, None, true, 0)));
    var connected := Webhook(Connect(Connection(5, w, true, true, None, 8)));
    assert LateShow(w, 0) == [created, connected];
    assert [created, connected][..1] == [created];
    ShowIsCreated();
    ShowConnects(w);
  }

  lemma {:induction false} ShowStaysLive(w: nat, n: nat)
    ensures var m := Watch(START, 7, LateShow(w, n));
            && IsLive(m.db, 7) && m.db.streams[7].starts == 0 && m.last == w + 30 * n
            && m.lived == 30 * n && m.unpolled == 0
    decreases n
  {
    hide Apply, BillableDuration;
    if n == 0 {
      ShowGoesLive(w);
    } else {
      ShowStaysLive(w, n - 1);
      assert LateShow(w, n)[..|LateShow(w, n)| - 1] == LateShow(w, n - 1);
    }
  }

  /** However long it waited, while it catches up it is billed two minutes for every half minute
      live. */
  lemma {:induction false} WaitingIsBilled(w: nat, n: nat)
    requires w >= 90 * n
    ensures var m := Watch(START, 7, LateShow(w, n)); m.lived == 30 * n && m.charged == m.duration == (120 * n) as real
    decreases n
  {
    hide Apply;
    ShowStaysLive(w, n);
    if n == 0 {
      ShowGoesLive(w);
    } else {
      WaitingIsBilled(w, n - 1);
      ShowStaysLive(w, n - 1);
      assert LateShow(w, n)[..|LateShow(w, n)| - 1] == LateShow(w, n - 1);
    }
  }

  lemma LateShowAt(w: nat, n: nat, i: nat)
    requires i <= n
    ensures LateShow(w, n)[..2 + i] == LateShow(w, i)
    ensures i < n ==> LateShow(w, n)[2 + i] == PollAt(w + 30 * (i + 1), false)
  {}

  /** Such a run can happen, is polled often enough, and finds at its first poll that the row was
      idle, if the show waited at all. */
  lemma LateShowIsPlausible(w: nat, n: nat)
    ensures Inv(START.db) && Unborn(START, 7) && Plausible(START, 7, LateShow(w, n))
    ensures PolledOften(START, 7, LateShow(w, n))
    ensures n > 0 && w > 0 ==> PolledAfterIdling(START, 7, LateShow(w, n), 2)
  {
    hide Watch, NextMoment, BillableDuration, IsLive, Idle, TimeOf;
    var moments := LateShow(w, n);
    forall i: nat | i < |moments|
      ensures NextMoment(Watch(START, 7, moments[..i]), moments[i]) && PollsInTime(START, 7, moments, i)
    {
      if i < 2 {
        OpeningIsPlausible(w, n, i);
      } else {
        LateShowAt(w, n, i - 2);
        ShowStaysLive(w, i - 2);
        PollIsPlausible(Watch(START, 7, moments[..i]), w, i - 2);
      }
    }
    if n > 0 && w > 0 {
      LateShowAt(w, n, 0);
      ShowStaysLive(w, 0);
      PollIsPlausible(Watch(START, 7, moments[..2]), w, 0);
    }
  }

  lemma PollIsPlausible(m: Meter, w: nat, i: nat)
    requires IsLive(m.db, 7) && m.db.streams[7].starts == 0 && m.last == w + 30 * i
    requires m.lived == 30 * i && m.unpolled == 0
    ensures var poll := PollAt(w + 30 * (i + 1), false);
            && NextMoment(m, poll) && Bills(m, 7, poll) && Waited(m, 7, TimeOf(poll)).unpolled == 30
            && Idle(Waited(m, 7, TimeOf(poll)), 7) == w
  {}

  lemma OpeningIsPlausible(w: nat, n: nat, i: nat)
    requires i < 2
    ensures var moments := LateShow(w, n);
            NextMoment(Watch(START, 7, moments[..i]), moments[i]) && PollsInTime(START, 7, moments, i)
  {
    if i == 0 {
      assert LateShow(w, n)[..0] == [];
    } else {
      assert LateShow(w, n)[..1] == [LateShow(w, n)[0]];
      ShowIsCreated();
      var db := Watch(START, 7, LateShow(w, n)[..1]).db;
      assert Resolve(db, 5, w) == Some(Owner(1, Some(3)));
      assert PreviousStream(db, 1, None);
    }
  }

  // ----- A stream that is never idle -----------------------------------------------------

  const PRIMARY: Meter := Meter(Db(map[], map[], map[], map[5 := 1], map[]), 0.0, 0.0, 0.0, 0, 0, 0)
  const ON_AIR: Moment := Webhook(Connect(Connection(5, 0, true, true, None, 8)))

  lemma GoesOnAir()
    ensures var m := Watch(PRIMARY, 8, [ON_AIR]);
            IsLive(m.db, 8) && m.db.streams[8].starts == 0 && m == Meter(m.db, 0.0, 0.0, 0.0, 0, 0, 0)
    ensures Inv(PRIMARY.db) && Unborn(PRIMARY, 8) && NextMoment(PRIMARY, ON_AIR)
  {
    var db, c := PRIMARY.db, Connection(5, 0, true, true, None, 8);
    assert Resolve(db, 5, 0) == Some(Owner(1, None));
    PurgedKeeps(db, 5, 0);
    assert Target(Purged(db, 5, 0), Owner(1, None), 0, None, 8) == Some(8);
    assert PreviousStream(db, 1, None);
    assert [ON_AIR][..0] == [];
  }

  /** A poll of the stream on air. */
  lemma OnAirPolled(m: Meter, at: int, wroteBack: bool)
    requires IsLive(m.db, 8) && m.db.streams[8].starts == 0 && m.lived == m.last <= at
    ensures var poll, bill := PollAt(at, wroteBack), BillableDuration(at as real, m.duration);
            && Bills(m, 8, poll) && NextMoment(m, poll) && Idle(Waited(m, 8, at), 8) == 0
            && Observe(m, 8, poll) == Meter(m.db, if wroteBack then m.duration else m.duration + bill, m.charged + bill,
                                            if wroteBack then m.forgotten + bill else m.forgotten, at, 0, at)
  {}

  lemma OneMoreMoment(m: Meter, id: nat, moments: seq<Moment>, next: Moment)
    ensures Watch(m, id, moments + [next]) == Observe(Watch(m, id, moments), id, next)
  {
    assert (moments + [next])[..|moments|] == moments;
  }

  /** On air from its creation, polled every 30 s, and written back at the first poll, as happens to
      every stream: 90 s are charged for 60 s. */
  lemma FirstBillIsForgotten()
    ensures var moments := [ON_AIR, PollAt(30, true), PollAt(60, false)];
            var m := Watch(PRIMARY, 8, moments);
            && Inv(PRIMARY.db) && Unborn(PRIMARY, 8) && Plausible(PRIMARY, 8, moments)
            && PolledOften(PRIMARY, 8, moments)
            && m.charged == 90.0 && m.duration == 60.0 && m.forgotten == 30.0 && m.lived == 60
            && (forall i: nat | i < 3 :: !PolledAfterIdling(PRIMARY, 8, moments, i))
            && PolledAfterForgetting(PRIMARY, 8, moments, 2)
  {
    hide Watch, Observe, NextMoment, IsLive;
    var moments := [ON_AIR, PollAt(30, true), PollAt(60, false)];
    GoesOnAir();
    var m1 := Watch(PRIMARY, 8, [ON_AIR]);
    OnAirPolled(m1, 30, true);
    OneMoreMoment(PRIMARY, 8, [ON_AIR], PollAt(30, true));
    assert [ON_AIR] + [PollAt(30, true)] == [ON_AIR, PollAt(30, true)];
    var m2 := Watch(PRIMARY, 8, [ON_AIR, PollAt(30, true)]);
    OnAirPolled(m2, 60, false);
    OneMoreMoment(PRIMARY, 8, [ON_AIR, PollAt(30, true)], PollAt(60, false));
    NothingWatched(PRIMARY, 8);
    assert moments[..0] == [] && moments[..1] == [ON_AIR] && moments[..2] == [ON_AIR, PollAt(30, true)];
    assert [ON_AIR, PollAt(30, true)] + [PollAt(60, false)] == moments;
  }

  lemma NothingWatched(m: Meter, id: nat)
    ensures Watch(m, id, []) == m
  {}

  /** On air for two minutes, then `n` polls that are written back, caught up at once. */
  function Rewritten(n: nat): seq<Moment> {
    if n == 0 then [ON_AIR] else Rewritten(n - 1) + [PollAt(120, true)]
  }

  lemma {:induction false} RewrittenRun(n: nat)
    ensures var m := Watch(PRIMARY, 8, Rewritten(n));
            && IsLive(m.db, 8) && m.db.streams[8].starts == 0 && m.lived == m.last == (if n == 0 then 0 else 120)
            && m.duration == 0.0 && m.charged == m.forgotten == (120 * n) as real
    ensures WriteBacks(PRIMARY, 8, Rewritten(n)) == n && Plausible(PRIMARY, 8, Rewritten(n))
    ensures forall i: nat | i < |Rewritten(n)| :: !PolledAfterIdling(PRIMARY, 8, Rewritten(n), i)
    decreases n
  {
    hide Watch, Observe, NextMoment, IsLive, Idle, BillableDuration, WriteBacks, Plausible, PolledAfterIdling;
    if n == 0 {
      GoesOnAir();
      OnAirStarts();
    } else {
      RewrittenRun(n - 1);
      var m := Watch(PRIMARY, 8, Rewritten(n - 1));
      OnAirPolled(m, 120, true);
      assert BillableDuration(120.0, 0.0) == 120.0 by { TwoMinutesAreBilled(); }
      OneMorePoll(PRIMARY, 8, Rewritten(n - 1), PollAt(120, true));
    }
  }

  lemma TwoMinutesAreBilled()
    ensures BillableDuration(120.0, 0.0) == 120.0
  {}

  lemma OnAirStarts()
    ensures WriteBacks(PRIMARY, 8, [ON_AIR]) == 0 && Plausible(PRIMARY, 8, [ON_AIR])
    ensures !PolledAfterIdling(PRIMARY, 8, [ON_AIR], 0)
  {
    GoesOnAir();
    assert [ON_AIR][..0] == [];
  }

  lemma OneMorePoll(m: Meter, id: nat, moments: seq<Moment>, poll: Moment)
    requires Bills(Watch(m, id, moments), id, poll) && NextMoment(Watch(m, id, moments), poll)
    requires Idle(Waited(Watch(m, id, moments), id, TimeOf(poll)), id) <= 0
    requires Plausible(m, id, moments) && forall i: nat | i < |moments| :: !PolledAfterIdling(m, id, moments, i)
    ensures var longer := moments + [poll];
            && Watch(m, id, longer) == Observe(Watch(m, id, moments), id, poll) && Plausible(m, id, longer)
            && WriteBacks(m, id, longer) == WriteBacks(m, id, moments) + (if poll.wroteBack then 1 else 0)
            && forall i: nat | i < |longer| :: !PolledAfterIdling(m, id, longer, i)
  {
    hide Observe, NextMoment, Idle, Bills, Waited;
    var longer := moments + [poll];
    assert longer[..|moments|] == moments;
    forall i: nat | i < |longer|
      ensures NextMoment(Watch(m, id, longer[..i]), longer[i]) && !PolledAfterIdling(m, id, longer, i)
    {
      if i < |moments| {
        assert longer[..i] == moments[..i] && !PolledAfterIdling(m, id, moments, i);
        assert NextMoment(Watch(m, id, moments[..i]), moments[i]);
      }
    }
  }

  /** The bound is attained for every number of write-backs. */
  lemma ExcessIsAttained(n: nat)
    ensures var moments := Rewritten(n) + [PollAt(120, false)];
            var m := Watch(PRIMARY, 8, moments);
            && Inv(PRIMARY.db) && Unborn(PRIMARY, 8) && Plausible(PRIMARY, 8, moments)
            && WriteBacks(PRIMARY, 8, moments) == n
            && (forall i: nat | i < |moments| :: !PolledAfterIdling(PRIMARY, 8, moments, i))
            && m.lived == 120 && m.charged == m.lived as real + MAX_BILLABLE_CATCHUP_SECS * n as real
  {
    hide Watch, Observe, NextMoment, IsLive, Idle, BillableDuration, WriteBacks, Plausible, PolledAfterIdling;
    GoesOnAir();
    RewrittenRun(n);
    OnAirPolled(Watch(PRIMARY, 8, Rewritten(n)), 120, false);
    TwoMinutesAreBilled();
    OneMorePoll(PRIMARY, 8, Rewritten(n), PollAt(120, false));
  }
}
