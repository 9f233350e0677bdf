/** Charged time against time live (crates/zap-stream-external/src/cloudflare/api.rs). A row is
    billed by the clock since its `starts`, which is set when the row is created and kept whenever
    the row goes live again. What was billed is remembered in the `duration` of the row, and
    forgotten when the poller writes back the row as it was before the bill. */
module LiveBilling {
  import opened Wrappers
  import opened Billing
  import opened Lifecycle
  import opened LifecycleTheorems

  /** A webhook or key creation, or a poll of the row that is being watched. */
  datatype Moment = Webhook(step: Step) | PollAt(at: int, wroteBack: bool)

  function TimeOf(m: Moment): int {
    match m
    case Webhook(Connect(c)) => c.now
    case Webhook(Disconnect(_, now, _, _)) => now
    case Webhook(CreateKey(k)) => k.now
    case PollAt(at, _) => at
  }

  /** The tables; the duration of the row, the time charged for it, and the part of that which the
      row has forgotten; how long it has been live, and how long of that since it was last billed;
      the time of the last moment. */
  datatype Meter = Meter(db: Db, duration: real, charged: real, forgotten: real, lived: int, unpolled: int, last: int)

  predicate IsLive(db: Db, id: nat) { id in db.streams && db.streams[id].state.Live? }

  /** Time passes. */
  function Waited(m: Meter, id: nat, now: int): Meter {
    var live := if IsLive(m.db, id) then now - m.last else 0;
    m.(lived := m.lived + live, unpolled := m.unpolled + live, last := now)
  }

  /** A live row is billed, and then perhaps written back as it was before. */
  function Metered(w: Meter, id: nat, wroteBack: bool): Meter
    requires id in w.db.streams
  {
    var bill := BillableDuration((w.last - w.db.streams[id].starts) as real, w.duration);
    var b := w.(charged := w.charged + bill, unpolled := 0);
    if wroteBack then b.(forgotten := w.forgotten + bill) else b.(duration := w.duration + bill)
  }

  /** The poller bills live rows only. */
  function Observe(m: Meter, id: nat, moment: Moment): Meter {
    var w := Waited(m, id, TimeOf(moment));
    match moment
    case Webhook(step) => w.(db := Apply(w.db, step))
    case PollAt(_, wroteBack) => if IsLive(w.db, id) then Metered(w, id, wroteBack) else w
  }

  function Watch(m: Meter, id: nat, moments: seq<Moment>): Meter {
    if moments == [] then m else Observe(Watch(m, id, moments[..|moments| - 1]), id, moments[|moments| - 1])
  }

  predicate NextMoment(m: Meter, moment: Moment) {
    m.last <= TimeOf(moment) && (moment.Webhook? ==> Possible(m.db, moment.step))
  }

  ghost predicate Plausible(m: Meter, id: nat, moments: seq<Moment>) {
    forall i: nat | i < |moments| :: NextMoment(Watch(m, id, moments[..i]), moments[i])
  }

  /** Time since `starts` in which the row was not live. */
  function Idle(m: Meter, id: nat): int
    requires id in m.db.streams
  {
    m.last - m.db.streams[id].starts - m.lived
  }

  predicate Bills(m: Meter, id: nat, moment: Moment) { moment.PollAt? && IsLive(m.db, id) }

  /** Was the row idle since its `starts`, or has it forgotten something it was billed for? */
  predicate Misread(m: Meter, id: nat)
    requires id in m.db.streams
  {
    Idle(m, id) > 0 || m.forgotten > 0.0
  }

  /** Did the poll at moment `i`, if it is one, find that the row had been idle? */
  predicate PolledAfterIdling(m: Meter, id: nat, moments: seq<Moment>, i: nat)
    requires i < |moments|
  {
    var w := Watch(m, id, moments[..i]);
    Bills(w, id, moments[i]) && Idle(Waited(w, id, TimeOf(moments[i])), id) > 0
  }

  /** Did it come after a write-back that forgot a positive bill? */
  predicate PolledAfterForgetting(m: Meter, id: nat, moments: seq<Moment>, i: nat)
    requires i < |moments|
  {
    var w := Watch(m, id, moments[..i]);
    Bills(w, id, moments[i]) && w.forgotten > 0.0
  }

  predicate PolledMisread(m: Meter, id: nat, moments: seq<Moment>, i: nat)
    requires i < |moments|
  {
    PolledAfterIdling(m, id, moments, i) || PolledAfterForgetting(m, id, moments, i)
  }

  /** The poller never lets two minutes of live time pass between two bills. */
  ghost predicate PolledOften(m: Meter, id: nat, moments: seq<Moment>) {
    forall i: nat | i < |moments| :: PollsInTime(m, id, moments, i)
  }

  predicate PollsInTime(m: Meter, id: nat, moments: seq<Moment>, i: nat)
    requires i < |moments|
  {
    var w := Watch(m, id, moments[..i]);
    Bills(w, id, moments[i]) ==> Waited(w, id, TimeOf(moments[i])).unpolled as real < MAX_BILLABLE_CATCHUP_SECS
  }

  // ----- Invariants -------------------------------------------------------------

  /** A row that is about to be created. */
  predicate Unborn(m: Meter, id: nat) {
    && id !in m.db.streams && m.duration == 0.0 && m.charged == 0.0 && m.forgotten == 0.0
    && m.lived == 0 && m.unpolled == 0
  }

  /** What was charged is in the row or forgotten, and the row was never billed beyond its clock. */
  predicate Sane(m: Meter, id: nat) {
    && 0 <= m.unpolled <= m.lived
    && m.charged == m.duration + m.forgotten && m.duration >= 0.0 && m.forgotten >= 0.0
    && if id in m.db.streams then Idle(m, id) >= 0 && m.duration <= (m.lived + Idle(m, id)) as real else Unborn(m, id)
  }

  /** Exactly the live time up to the last poll has been charged. */
  predicate Fair(m: Meter) { m.charged == (m.lived - m.unpolled) as real }

  lemma StartsPersist(db: Db, step: Step, id: nat)
    requires Inv(db) && Possible(db, step)
    ensures Inv(Apply(db, step))
    ensures id in db.streams ==>
              id in Apply(db, step).streams && Apply(db, step).streams[id].starts == db.streams[id].starts
  {
    hide Inv, Possible, Apply;
    InvStep(db, step);
    ExtendsStep(db, step);
  }

  /** A row that appears starts now. */
  lemma StartsWhenCreated(db: Db, step: Step, id: nat)
    requires Possible(db, step) && id !in db.streams && id in Apply(db, step).streams
    ensures Apply(db, step).streams[id].starts == TimeOf(Webhook(step))
  {
    if step.Connect? {
      PurgedKeeps(db, step.c.input, step.c.now);
    }
  }

  lemma SaneStep(m: Meter, id: nat, moment: Moment)
    requires Inv(m.db) && Sane(m, id) && NextMoment(m, moment)
    ensures Inv(Observe(m, id, moment).db) && Sane(Observe(m, id, moment), id)
  {
    hide Inv, Possible, Apply;
    if moment.Webhook? {
      StartsPersist(m.db, moment.step, id);
      if id !in m.db.streams && id in Apply(m.db, moment.step).streams {
        StartsWhenCreated(m.db, moment.step, id);
      }
    }
  }

  lemma {:induction false} WatchSane(m: Meter, id: nat, moments: seq<Moment>)
    requires Inv(m.db) && Sane(m, id) && Plausible(m, id, moments)
    ensures Inv(Watch(m, id, moments).db) && Sane(Watch(m, id, moments), id)
    decreases |moments|
  {
    hide Inv, Sane, Observe, NextMoment;
    if moments != [] {
      PlausiblePrefix(m, id, moments);
      WatchSane(m, id, moments[..|moments| - 1]);
      assert NextMoment(Watch(m, id, moments[..|moments| - 1]), moments[|moments| - 1]);
      SaneStep(Watch(m, id, moments[..|moments| - 1]), id, moments[|moments| - 1]);
    }
  }

  lemma PlausiblePrefix(m: Meter, id: nat, moments: seq<Moment>)
    requires moments != [] && Plausible(m, id, moments)
    ensures Plausible(m, id, moments[..|moments| - 1])
  {
    PlausibleTake(m, id, moments, |moments| - 1);
  }

  lemma PlausibleTake(m: Meter, id: nat, moments: seq<Moment>, n: nat)
    requires Plausible(m, id, moments) && n <= |moments|
    ensures Plausible(m, id, moments[..n])
  {
    hide NextMoment;
    forall i: nat | i < n ensures NextMoment(Watch(m, id, moments[..n][..i]), moments[..n][i]) {
      assert moments[..n][..i] == moments[..i] && NextMoment(Watch(m, id, moments[..i]), moments[i]);
    }
  }

  lemma NextAt(m: Meter, id: nat, moments: seq<Moment>, i: nat)
    requires Plausible(m, id, moments) && i < |moments|
    ensures Watch(m, id, moments[..i]).last <= TimeOf(moments[i])
    ensures Watch(m, id, moments[..i + 1]) == Observe(Watch(m, id, moments[..i]), id, moments[i])
  {
    assert NextMoment(Watch(m, id, moments[..i]), moments[i]);
    assert moments[..i + 1][..i] == moments[..i];
  }

  /** What a run that starts before its row looks like just before moment `i`. */
  lemma SaneAt(m: Meter, id: nat, moments: seq<Moment>, i: nat)
    requires Inv(m.db) && Unborn(m, id) && Plausible(m, id, moments) && i <= |moments|
    ensures Sane(Watch(m, id, moments[..i]), id)
  {
    hide Inv, Observe, NextMoment, Plausible, Idle, Watch;
    PlausibleTake(m, id, moments, i);
    WatchSane(m, id, moments[..i]);
  }

  // ----- Rows that are polled often -----------------------------------------------

  lemma FairStep(m: Meter, id: nat, moment: Moment)
    requires Sane(m, id) && Fair(m) && m.last <= TimeOf(moment)
    requires Bills(m, id, moment) ==>
               var w := Waited(m, id, TimeOf(moment));
               !Misread(w, id) && w.unpolled as real < MAX_BILLABLE_CATCHUP_SECS
    ensures Fair(Observe(m, id, moment))
  {
    hide Apply;
  }

  /** A poll of a misread row charges more than the row has lived, whatever is left to bill. */
  lemma MisreadStep(m: Meter, id: nat, moment: Moment)
    requires Sane(m, id) && Fair(m) && m.last <= TimeOf(moment) && Bills(m, id, moment)
    requires var w := Waited(m, id, TimeOf(moment)); Misread(w, id) && w.unpolled as real < MAX_BILLABLE_CATCHUP_SECS
    ensures Observe(m, id, moment).charged > Observe(m, id, moment).lived as real
  {}

  lemma MisreadNow(m: Meter, id: nat, moments: seq<Moment>, i: nat)
    requires i < |moments| && Bills(Watch(m, id, moments[..i]), id, moments[i])
    ensures PolledMisread(m, id, moments, i)
            <==> Misread(Waited(Watch(m, id, moments[..i]), id, TimeOf(moments[i])), id)
  {
    hide Watch;
  }

  lemma {:induction false} FairUntilMisread(m: Meter, id: nat, moments: seq<Moment>, n: nat)
    requires Inv(m.db) && Unborn(m, id) && Plausible(m, id, moments) && PolledOften(m, id, moments) && n <= |moments|
    requires forall i: nat | i < n :: !PolledMisread(m, id, moments, i)
    ensures Fair(Watch(m, id, moments[..n]))
    decreases n
  {
    hide Inv, Sane, Observe, NextMoment, Fair, Plausible, Idle, Misread, PolledMisread;
    if n == 0 {
      UnbornIsFair(m, id);
    } else {
      FairUntilMisread(m, id, moments, n - 1);
      SaneAt(m, id, moments, n - 1);
      assert PollsInTime(m, id, moments, n - 1) && !PolledMisread(m, id, moments, n - 1);
      NextAt(m, id, moments, n - 1);
      var w := Watch(m, id, moments[..n - 1]);
      if Bills(w, id, moments[n - 1]) {
        MisreadNow(m, id, moments, n - 1);
      }
      FairStep(w, id, moments[n - 1]);
    }
  }

  lemma UnbornIsFair(m: Meter, id: nat)
    requires Unborn(m, id)
    ensures Fair(m)
  {}

  lemma FairIsWithin(m: Meter, id: nat)
    requires Fair(m) && Sane(m, id)
    ensures m.charged <= m.lived as real
  {}

  /** If live rows are polled often enough, the charged time stays within the time live if and only
      if no poll finds that the row was idle since its `starts`, and none comes after a write-back
      that forgot a positive bill. */
  lemma BilledWithinLiveIff(m: Meter, id: nat, moments: seq<Moment>)
    requires Inv(m.db) && Unborn(m, id) && Plausible(m, id, moments) && PolledOften(m, id, moments)
    ensures (forall n: nat | n <= |moments| ::
               Watch(m, id, moments[..n]).charged <= Watch(m, id, moments[..n]).lived as real)
       <==> (forall i: nat | i < |moments| ::
               !PolledAfterIdling(m, id, moments, i) && !PolledAfterForgetting(m, id, moments, i))
  {
    hide Inv, Observe, NextMoment, Plausible, PolledAfterIdling, PolledAfterForgetting, PolledOften, Watch, Idle, Fair,
      Sane;
    if forall i: nat | i < |moments| ::
         !PolledAfterIdling(m, id, moments, i) && !PolledAfterForgetting(m, id, moments, i)
    {
      forall n: nat | n <= |moments|
        ensures Watch(m, id, moments[..n]).charged <= Watch(m, id, moments[..n]).lived as real
      {
        FairUntilMisread(m, id, moments, n);
        SaneAt(m, id, moments, n);
        FairIsWithin(Watch(m, id, moments[..n]), id);
      }
    } else {
      var i: nat :| i < |moments| && (PolledAfterIdling(m, id, moments, i) || PolledAfterForgetting(m, id, moments, i));
      FirstMisreadPoll(m, id, moments, i);
    }
  }

  lemma {:induction false} FirstMisreadPoll(m: Meter, id: nat, moments: seq<Moment>, i: nat)
    requires Inv(m.db) && Unborn(m, id) && Plausible(m, id, moments) && PolledOften(m, id, moments)
    requires i < |moments| && PolledMisread(m, id, moments, i)
    ensures exists n: nat ::
              n <= |moments| && Watch(m, id, moments[..n]).charged > Watch(m, id, moments[..n]).lived as real
    decreases i
  {
    hide Inv, Observe, NextMoment, Plausible, Idle, Sane, Fair, Watch, Misread;
    if j: nat :| j < i && PolledMisread(m, id, moments, j) {
      FirstMisreadPoll(m, id, moments, j);
    } else {
      FairUntilMisread(m, id, moments, i);
      SaneAt(m, id, moments, i);
      NextAt(m, id, moments, i);
      assert PollsInTime(m, id, moments, i);
      MisreadNow(m, id, moments, i);
      MisreadStep(Watch(m, id, moments[..i]), id, moments[i]);
    }
  }

  // ----- Rows that are polled at any time -------------------------------------------

  /** A bill: the clock of the row, and whether it was remembered. */
  datatype Visit = Visit(elapsed: real, kept: bool)

  function Visits(m: Meter, id: nat, moments: seq<Moment>): seq<Visit> {
    if moments == [] then []
    else
      var init, last := moments[..|moments| - 1], moments[|moments| - 1];
      var w := Watch(m, id, init);
      Visits(m, id, init) + if Bills(w, id, last) then [VisitNow(w, id, last)] else []
  }

  function VisitNow(m: Meter, id: nat, moment: Moment): Visit
    requires Bills(m, id, moment)
  {
    Visit((TimeOf(moment) - m.db.streams[id].starts) as real, !moment.wroteBack)
  }

  function KeptTimes(visits: seq<Visit>): seq<real> {
    if visits == [] then []
    else KeptTimes(visits[..|visits| - 1]) + if visits[|visits| - 1].kept then [visits[|visits| - 1].elapsed] else []
  }

  /** What the token bucket has paid out in the bills that were kept. */
  function Bucket(times: seq<real>): real { PollAll(Account(0, 0, 0.0), 1, times).duration }

  /** The bills that were not. */
  function Lost(visits: seq<Visit>): real {
    if visits == [] then 0.0
    else
      var init, v := visits[..|visits| - 1], visits[|visits| - 1];
      Lost(init) + if v.kept then 0.0 else BillableDuration(v.elapsed, Bucket(KeptTimes(init)))
  }

  /** Some line of the bucket, and what was lost, are within the time live after moment `i`. */
  ghost predicate Afforded(m: Meter, id: nat, moments: seq<Moment>, i: nat)
    requires i < |moments|
  {
    var visits := Visits(m, id, moments[..i + 1]);
    exists j | 0 <= j <= |KeptTimes(visits)| ::
      Line(KeptTimes(visits), j) + Lost(visits) <= Watch(m, id, moments[..i + 1]).lived as real
  }

  /** The meter shows the bucket and the bills it lost. */
  ghost predicate Told(m: Meter, visits: seq<Visit>, id: nat) {
    && m.duration == Bucket(KeptTimes(visits)) && m.forgotten == Lost(visits) && Monotone(KeptTimes(visits))
    && if id in m.db.streams
       then forall t | t in KeptTimes(visits) :: t <= (m.lived + Idle(m, id)) as real
       else visits == []
  }

  lemma VisitsAppend(visits: seq<Visit>, v: Visit)
    ensures KeptTimes(visits + [v]) == KeptTimes(visits) + if v.kept then [v.elapsed] else []
    ensures Lost(visits + [v])
         == Lost(visits) + if v.kept then 0.0 else BillableDuration(v.elapsed, Bucket(KeptTimes(visits)))
  {
    assert (visits + [v])[..|visits|] == visits;
  }

  lemma BucketAppend(times: seq<real>, t: real)
    ensures Bucket(times + [t]) == Bucket(times) + BillableDuration(t, Bucket(times))
  {
    assert (times + [t])[..|times|] == times;
  }

  lemma LaterIsMonotone(times: seq<real>, t: real)
    requires Monotone(times) && t >= 0.0 && forall x | x in times :: x <= t
    ensures Monotone(times + [t])
  {
    forall i, j | 0 <= i < j < |times| + 1 ensures (times + [t])[i] <= (times + [t])[j] {
      assert times[i] in times;
    }
  }

  /** A bill is told by its visit. */
  lemma ToldBill(m: Meter, visits: seq<Visit>, id: nat, moment: Moment)
    requires Told(m, visits, id) && Sane(m, id) && m.last <= TimeOf(moment) && Bills(m, id, moment)
    ensures Told(Observe(m, id, moment), visits + [VisitNow(m, id, moment)], id)
  {
    hide BillableDuration, KeptTimes, Lost, Bucket;
    var v := VisitNow(m, id, moment);
    VisitsAppend(visits, v);
    BucketAppend(KeptTimes(visits), v.elapsed);
    LaterIsMonotone(KeptTimes(visits), v.elapsed);
    assert KeptTimes(visits) + [] == KeptTimes(visits);
    assert v.elapsed == (Observe(m, id, moment).lived + Idle(Observe(m, id, moment), id)) as real;
  }

  lemma ToldOther(m: Meter, visits: seq<Visit>, id: nat, moment: Moment)
    requires Told(m, visits, id) && Sane(m, id) && Inv(m.db) && NextMoment(m, moment) && !Bills(m, id, moment)
    ensures Told(Observe(m, id, moment), visits, id)
  {
    hide BillableDuration, Lost, Bucket, Inv, Possible, Apply;
    if moment.Webhook? {
      StartsPersist(m.db, moment.step, id);
    }
  }

  lemma {:induction false} WatchTold(m: Meter, id: nat, moments: seq<Moment>)
    requires Inv(m.db) && Unborn(m, id) && Plausible(m, id, moments)
    ensures Told(Watch(m, id, moments), Visits(m, id, moments), id)
    decreases |moments|
  {
    hide Inv, Sane, Observe, NextMoment, Told, VisitNow, Bills;
    if moments == [] {
      NothingTold(m, id);
    } else {
      var init, last := moments[..|moments| - 1], moments[|moments| - 1];
      PlausiblePrefix(m, id, moments);
      WatchTold(m, id, init);
      UnbornIsSane(m, id);
      WatchSane(m, id, init);
      assert NextMoment(Watch(m, id, init), last);
      NextAt(m, id, moments, |init|);
      if Bills(Watch(m, id, init), id, last) {
        ToldBill(Watch(m, id, init), Visits(m, id, init), id, last);
      } else {
        ToldOther(Watch(m, id, init), Visits(m, id, init), id, last);
        assert Visits(m, id, init) + [] == Visits(m, id, init);
      }
    }
  }

  lemma UnbornIsSane(m: Meter, id: nat)
    requires Unborn(m, id)
    ensures Sane(m, id)
  {}

  lemma NothingTold(m: Meter, id: nat)
    requires Unborn(m, id)
    ensures Told(m, [], id)
  {}

  /** Right after a bill, charged time is within time live exactly if some line of the bucket is. */
  lemma AffordedIff(m: Meter, id: nat, moments: seq<Moment>, i: nat)
    requires Inv(m.db) && Unborn(m, id) && Plausible(m, id, moments) && i < |moments|
    ensures Afforded(m, id, moments, i)
       <==> Watch(m, id, moments[..i + 1]).charged <= Watch(m, id, moments[..i + 1]).lived as real
  {
    hide Inv, Observe, NextMoment, Plausible, Watch, Visits, KeptTimes, Line, Idle;
    PlausibleTake(m, id, moments, i + 1);
    WatchTold(m, id, moments[..i + 1]);
    SaneAt(m, id, moments, i + 1);
    TokenBucket(Account(0, 0, 0.0), 1, KeptTimes(Visits(m, id, moments[..i + 1])));
  }

  /** Whenever it is polled and written back: the charged time stays within the time live if and
      only if after every bill some line of the token bucket, over the clock at the bills that were
      kept, lies within the time live less what was lost. */
  lemma BilledWithinBucketIff(m: Meter, id: nat, moments: seq<Moment>)
    requires Inv(m.db) && Unborn(m, id) && Plausible(m, id, moments)
    ensures (forall n: nat | n <= |moments| ::
               Watch(m, id, moments[..n]).charged <= Watch(m, id, moments[..n]).lived as real)
       <==> (forall i: nat | i < |moments| && Bills(Watch(m, id, moments[..i]), id, moments[i]) ::
               Afforded(m, id, moments, i))
  {
    hide Inv, Observe, NextMoment, Plausible, Watch, Afforded, Bills;
    if forall n: nat | n <= |moments| ::
         Watch(m, id, moments[..n]).charged <= Watch(m, id, moments[..n]).lived as real
    {
      forall i: nat | i < |moments| ensures Afforded(m, id, moments, i) {
        AffordedIff(m, id, moments, i);
        assert Watch(m, id, moments[..i + 1]).charged <= Watch(m, id, moments[..i + 1]).lived as real;
      }
    }
    if forall i: nat | i < |moments| && Bills(Watch(m, id, moments[..i]), id, moments[i]) ::
         Afforded(m, id, moments, i)
    {
      forall n: nat | n <= |moments|
        ensures Watch(m, id, moments[..n]).charged <= Watch(m, id, moments[..n]).lived as real
      {
        AffordedStaysWithin(m, id, moments, n);
      }
    }
  }

  lemma {:induction false} AffordedStaysWithin(m: Meter, id: nat, moments: seq<Moment>, n: nat)
    requires Inv(m.db) && Unborn(m, id) && Plausible(m, id, moments) && n <= |moments|
    requires forall i: nat | i < n && Bills(Watch(m, id, moments[..i]), id, moments[i]) :: Afforded(m, id, moments, i)
    ensures Watch(m, id, moments[..n]).charged <= Watch(m, id, moments[..n]).lived as real
    decreases n
  {
    hide Inv, Observe, NextMoment, Plausible, Afforded, Bills;
    if n > 0 {
      AffordedStaysWithin(m, id, moments, n - 1);
      NextAt(m, id, moments, n - 1);
      if Bills(Watch(m, id, moments[..n - 1]), id, moments[n - 1]) {
        AffordedIff(m, id, moments, n - 1);
      } else {
        NothingCharged(Watch(m, id, moments[..n - 1]), id, moments[n - 1]);
      }
    }
  }

  lemma NothingCharged(m: Meter, id: nat, moment: Moment)
    requires !Bills(m, id, moment) && m.last <= TimeOf(moment)
    ensures Observe(m, id, moment).charged == m.charged && Observe(m, id, moment).lived >= m.lived
  {
    hide Apply;
  }

  // ----- By how much it can be exceeded ---------------------------------------------

  /** Live polls that wrote the row back. */
  function WriteBacks(m: Meter, id: nat, moments: seq<Moment>): nat {
    if moments == [] then 0
    else
      var init, last := moments[..|moments| - 1], moments[|moments| - 1];
      WriteBacks(m, id, init) + if Bills(Watch(m, id, init), id, last) && last.wroteBack then 1 else 0
  }

  lemma ForgetStep(m: Meter, id: nat, moment: Moment)
    ensures Observe(m, id, moment).forgotten - m.forgotten <=
              if Bills(m, id, moment) && moment.wroteBack then MAX_BILLABLE_CATCHUP_SECS else 0.0
  {
    hide Apply;
  }

  /** A write-back forgets at most two minutes. */
  lemma {:induction false} ForgottenIsBounded(m: Meter, id: nat, moments: seq<Moment>)
    requires m.forgotten == 0.0
    ensures Watch(m, id, moments).forgotten <= MAX_BILLABLE_CATCHUP_SECS * WriteBacks(m, id, moments) as real
    decreases |moments|
  {
    hide Observe, Bills;
    if moments != [] {
      ForgottenIsBounded(m, id, moments[..|moments| - 1]);
      ForgetStep(Watch(m, id, moments[..|moments| - 1]), id, moments[|moments| - 1]);
    }
  }

  /** If no poll finds the row idle, it is never billed beyond its time live for what it remembers. */
  lemma {:induction false} NeverIdleNeverAhead(m: Meter, id: nat, moments: seq<Moment>, n: nat)
    requires Inv(m.db) && Unborn(m, id) && Plausible(m, id, moments) && n <= |moments|
    requires forall i: nat | i < n :: !PolledAfterIdling(m, id, moments, i)
    ensures Watch(m, id, moments[..n]).duration <= Watch(m, id, moments[..n]).lived as real
    decreases n
  {
    hide Inv, Sane, Observe, NextMoment, Plausible, Idle;
    if n > 0 {
      NeverIdleNeverAhead(m, id, moments, n - 1);
      SaneAt(m, id, moments, n - 1);
      assert !PolledAfterIdling(m, id, moments, n - 1);
      NextAt(m, id, moments, n - 1);
      NotAheadStep(Watch(m, id, moments[..n - 1]), id, moments[n - 1]);
    }
  }

  lemma NotAheadStep(m: Meter, id: nat, moment: Moment)
    requires m.duration <= m.lived as real && m.last <= TimeOf(moment)
    requires Bills(m, id, moment) ==> Idle(Waited(m, id, TimeOf(moment)), id) <= 0
    ensures Observe(m, id, moment).duration <= Observe(m, id, moment).lived as real
  {
    hide Apply;
  }

  /** Charged time exceeds the time live by at most two minutes for each write-back, and by the time
      the row was idle if a poll finds that it was. */
  lemma ExcessIsBounded(m: Meter, id: nat, moments: seq<Moment>)
    requires Inv(m.db) && Unborn(m, id) && Plausible(m, id, moments)
    ensures var w, most := Watch(m, id, moments), MAX_BILLABLE_CATCHUP_SECS * WriteBacks(m, id, moments) as real;
            && (id in w.db.streams ==> w.charged <= (w.lived + Idle(w, id)) as real + most)
            && ((forall i: nat | i < |moments| :: !PolledAfterIdling(m, id, moments, i)) ==>
                  w.charged <= w.lived as real + most)
  {
    hide Inv, Observe, NextMoment, Plausible, Idle, Watch, PolledAfterIdling;
    ForgottenIsBounded(m, id, moments);
    SaneAt(m, id, moments, |moments|);
    assert moments[..|moments|] == moments;
    if forall i: nat | i < |moments| :: !PolledAfterIdling(m, id, moments, i) {
      NeverIdleNeverAhead(m, id, moments, |moments|);
    }
  }
}
