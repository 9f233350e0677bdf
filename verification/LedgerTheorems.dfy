/** Conservation and exactly-once crediting over unbounded runs of ledger steps. */
module LedgerTheorems {
  import opened Ledger
  import opened Sums
  import opened Wrappers

  function Run(db: Db, ops: seq<Op>): Db {
    if ops == [] then db else Apply(Run(db, ops[..|ops| - 1]), ops[|ops| - 1])
  }

  /** The sum of the shifts of a run, each taken in the state its step found. */
  function Drift(db: Db, ops: seq<Op>, u: nat): int {
    if ops == [] then 0
    else
      var init := ops[..|ops| - 1];
      Drift(db, init, u) + Shift(Run(db, init), ops[|ops| - 1], u)
  }

  /** The audit of every user moves by exactly the sum of the shifts, whatever happens. */
  lemma {:induction false} RunOffset(db: Db, ops: seq<Op>, u: nat)
    requires u in db.users
    ensures u in Run(db, ops).users && Offset(Run(db, ops), u) == Offset(db, u) + Drift(db, ops, u)
    decreases |ops|
  {
    hide Apply, Shift, Offset;
    if ops != [] {
      var init := ops[..|ops| - 1];
      RunOffset(db, init, u);
      OffsetStep(Run(db, init), ops[|ops| - 1], u);
    }
  }

  // ----- Conservation ---------------------------------------------------------

  /** Steps of normal operation: payments are created, completed (again and again) without a
      fee, credits are granted, and streams are charged to their owner. */
  predicate Conserving(db: Db, op: Op) {
    match op
    case CreatePayment(_, _, _, _, _) => true
    case CompletePayment(_, fee) => fee == 0
    case AdminCredit(_, _, _) => true
    case InsertStream(_, _) => true
    case TickStream(id, user, _, cost) => cost >= 0 && id in db.streams && db.streams[id].userId == user
    case _ => false
  }

  ghost predicate ConservingRun(db: Db, ops: seq<Op>) {
    forall i | 0 <= i < |ops| :: Conserving(Run(db, ops[..i]), ops[i])
  }

  lemma ConservingShift(db: Db, op: Op, u: nat)
    requires Conserving(db, op)
    ensures Shift(db, op, u) == 0
  {}

  /** Money is neither made nor lost: the audit of every user is constant over any run of
      payments, duplicated completions, credits and charges. */
  lemma {:induction false} Conservation(db: Db, ops: seq<Op>, u: nat)
    requires u in db.users && ConservingRun(db, ops)
    ensures u in Run(db, ops).users && Offset(Run(db, ops), u) == Offset(db, u)
    decreases |ops|
  {
    hide Apply, Shift, Offset, Conserving;
    if ops != [] {
      var init, last := ops[..|ops| - 1], ops[|ops| - 1];
      assert forall i | 0 <= i < |init| :: init[..i] == ops[..i] && init[i] == ops[i];
      Conservation(db, init, u);
      assert ops[..|ops| - 1] == init && Conserving(Run(db, ops[..|ops| - 1]), ops[|ops| - 1]);
      ConservingShift(Run(db, init), last, u);
      OffsetStep(Run(db, init), last, u);
    }
  }

  /** The three steps of a withdrawal that succeeds: the balance pays `paid`, the payment is
      recorded with `recorded`, the network took `fee`. */
  function WithdrawFlow(h: nat, user: nat, paid: nat, recorded: int, fee: nat): seq<Op> {
    [UpdateBalance(user, -(paid as int)), CreatePayment(h, user, recorded, Withdrawal, 0), CompleteWithdrawal(h, fee)]
  }

  /** A withdrawal leaves the audit alone exactly if it is recorded as a negative amount. */
  lemma WithdrawalAudit(db: Db, h: nat, user: nat, paid: nat, recorded: int, fee: nat)
    requires user in db.users && h !in db.payments
    ensures user in Run(db, WithdrawFlow(h, user, paid, recorded, fee)).users
    ensures Offset(Run(db, WithdrawFlow(h, user, paid, recorded, fee)), user) == Offset(db, user)
            <==> recorded == -(paid as int)
  {
    hide Offset;
    var ops := WithdrawFlow(h, user, paid, recorded, fee);
    assert ops[..2] == [ops[0], ops[1]] && ops[..2][..1] == [ops[0]] && [ops[0]][..0] == [];
    var d1 := Apply(db, ops[0]);
    var d2 := Apply(d1, ops[1]);
    OffsetStep(db, ops[0], user);
    OffsetStep(d1, ops[1], user);
    OffsetStep(d2, ops[2], user);
    assert Run(db, [ops[0]]) == d1 && Run(db, ops[..2]) == d2 && Run(db, ops) == Apply(d2, ops[2]);
    assert Unpaid(d2, h) && d2.payments[h].amount == recorded;
  }

  // ----- Exactly once -----------------------------------------------------------

  predicate IsPaid(db: Db, h: nat) {
    h in db.payments && db.payments[h].isPaid
  }

  /** Did the step turn payment `h` from unpaid into paid? */
  predicate Pays(db: Db, op: Op, h: nat) {
    !IsPaid(db, h) && IsPaid(Apply(db, op), h)
  }

  function PaidCount(db: Db, ops: seq<Op>, h: nat): nat {
    if ops == [] then 0
    else
      var init := ops[..|ops| - 1];
      PaidCount(db, init, h) + if Pays(Run(db, init), ops[|ops| - 1], h) then 1 else 0
  }

  lemma StaysPaid(db: Db, op: Op, h: nat)
    requires IsPaid(db, h)
    ensures IsPaid(Apply(db, op), h) && Apply(db, op).payments[h].amount == db.payments[h].amount
  {}

  /** Only a completion that reports success moves a balance because of payment `h`, and it
      moves it by the full amount. */
  lemma CompletionCredits(db: Db, h: nat, fee: nat)
    ensures Pays(db, CompletePayment(h, fee), h) <==> Unpaid(db, h)
    ensures var db' := Apply(db, CompletePayment(h, fee));
            if Unpaid(db, h) then
              var p := db.payments[h];
              db'.users == db.users[p.userId := db.users[p.userId] + p.amount]
            else db' == db
  {}

  /** However often and in whatever order completions arrive, a payment is credited once if it
      is paid in the end and was not before, and never otherwise. */
  lemma {:induction false} CreditedAtMostOnce(db: Db, ops: seq<Op>, h: nat)
    ensures PaidCount(db, ops, h) == (if IsPaid(Run(db, ops), h) then 1 else 0) - (if IsPaid(db, h) then 1 else 0)
    ensures PaidCount(db, ops, h) <= 1
    decreases |ops|
  {
    hide Apply, IsPaid;
    if ops != [] {
      var init := ops[..|ops| - 1];
      CreditedAtMostOnce(db, init, h);
      if IsPaid(Run(db, init), h) {
        StaysPaid(Run(db, init), ops[|ops| - 1], h);
      }
    }
  }

  // ----- Stale write-backs ------------------------------------------------------

  /** The tables with a record of everything ever debited for a stream and of every cost its
      row ever showed. */
  datatype Audited = Audited(db: Db, debited: map<nat, nat>, seen: map<nat, set<nat>>)

  function AuditApply(a: Audited, op: Op): Audited {
    var db' := Apply(a.db, op);
    var a' := a.(db := db');
    match op
    case InsertStream(id, _) =>
      if id in db'.streams && id !in a.db.streams
      then a'.(debited := a.debited[id := 0], seen := a.seen[id := {0}]) else a'
    case TickStream(id, _, _, cost) =>
      if id in db'.streams && id in a.debited && id in a.seen && db' != a.db && cost >= 0
      then a'.(debited := a.debited[id := a.debited[id] + cost],
               seen := a.seen[id := a.seen[id] + {db'.streams[id].cost}])
      else a'
    case _ => a'
  }

  /** A write-back stores a snapshot the row showed at some earlier time. */
  predicate Admissible(a: Audited, op: Op) {
    || Conserving(a.db, op)
    || (op.UpdateStream? && op.id in a.db.streams && op.id in a.seen && op.newCost in a.seen[op.id])
  }

  function AuditRun(a: Audited, ops: seq<Op>): Audited {
    if ops == [] then a else AuditApply(AuditRun(a, ops[..|ops| - 1]), ops[|ops| - 1])
  }

  ghost predicate AdmissibleRun(a: Audited, ops: seq<Op>) {
    forall i | 0 <= i < |ops| :: Admissible(AuditRun(a, ops[..i]), ops[i])
  }

  /** No row ever shows more than was debited for it. */
  ghost predicate AuditInv(a: Audited) {
    && a.debited.Keys == a.seen.Keys == a.db.streams.Keys
    && forall id | id in a.db.streams :: RowInv(a, id)
  }

  ghost predicate RowInv(a: Audited, id: nat)
    requires id in a.db.streams && id in a.seen && id in a.debited
  {
    a.db.streams[id].cost in a.seen[id] && forall c | c in a.seen[id] :: c <= a.debited[id]
  }

  /** What was debited for the streams of a user but is missing from their rows. */
  function Missing(a: Audited, u: nat): map<nat, int> {
    map id | id in a.db.streams && id in a.debited ::
      if a.db.streams[id].userId == u then a.debited[id] - a.db.streams[id].cost else 0
  }

  lemma AuditInvStep(a: Audited, op: Op)
    requires AuditInv(a) && Admissible(a, op)
    ensures AuditInv(AuditApply(a, op))
  {
    if op.TickStream? {
      AuditInvTick(a, op);
    } else if op.InsertStream? || op.UpdateStream? {
      AuditInvRow(a, op);
    } else {
      AuditInvOther(a, op);
    }
  }

  lemma AuditInvTick(a: Audited, op: Op)
    requires AuditInv(a) && Admissible(a, op) && op.TickStream?
    ensures AuditInv(AuditApply(a, op))
  {
    var a' := AuditApply(a, op);
    forall id | id in a'.db.streams ensures id in a'.seen && id in a'.debited && RowInv(a', id) {
      assert RowInv(a, id);
    }
  }

  lemma AuditInvRow(a: Audited, op: Op)
    requires AuditInv(a) && Admissible(a, op) && (op.InsertStream? || op.UpdateStream?)
    ensures AuditInv(AuditApply(a, op))
  {
    var a' := AuditApply(a, op);
    forall id | id in a'.db.streams ensures id in a'.seen && id in a'.debited && RowInv(a', id) {
      if id in a.db.streams {
        assert RowInv(a, id);
      }
    }
  }

  /** Steps on payments and balances leave the rows alone. */
  lemma AuditInvOther(a: Audited, op: Op)
    requires AuditInv(a) && !op.TickStream? && !op.InsertStream? && !op.UpdateStream?
    ensures AuditInv(AuditApply(a, op))
  {
    var a' := AuditApply(a, op);
    assert a'.db.streams == a.db.streams && a'.seen == a.seen && a'.debited == a.debited;
    forall id | id in a'.db.streams ensures RowInv(a', id) {
      assert RowInv(a, id);
    }
  }

  /** The audit plus what stale write-backs hid is conserved. */
  lemma AuditConservesStep(a: Audited, op: Op, u: nat)
    requires AuditInv(a) && Admissible(a, op) && u in a.db.users
    ensures u in AuditApply(a, op).db.users
    ensures Offset(AuditApply(a, op).db, u) + Total(Missing(AuditApply(a, op), u))
            == Offset(a.db, u) + Total(Missing(a, u))
  {
    hide Total, Offset;
    OffsetStep(a.db, op, u);
    var a' := AuditApply(a, op);
    if op.UpdateStream? {
      MissingUpdate(a, a', op.id, u);
    } else if op.InsertStream? && a'.db != a.db {
      ConservingShift(a.db, op, u);
      MissingUpdate(a, a', op.id, u);
    } else if op.TickStream? {
      ConservingShift(a.db, op, u);
      TickMissing(a, op, u);
    } else {
      ConservingShift(a.db, op, u);
      assert Missing(a', u) == Missing(a, u);
    }
  }

  lemma MissingUpdate(a: Audited, a': Audited, id: nat, u: nat)
    requires id in a'.db.streams && id in a'.debited
    requires a'.db.streams == a.db.streams[id := a'.db.streams[id]] && a'.debited == a.debited[id := a'.debited[id]]
    requires a.debited.Keys == a.db.streams.Keys
    ensures Total(Missing(a', u)) == Total(Missing(a, u)) + Missing(a', u)[id]
                                     - (if id in a.db.streams then Missing(a, u)[id] else 0)
  {
    TotalUpdate(Missing(a, u), id, Missing(a', u)[id]);
    assert Missing(a', u) == Missing(a, u)[id := Missing(a', u)[id]];
  }

  lemma TickMissing(a: Audited, op: Op, u: nat)
    requires AuditInv(a) && op.TickStream? && Conserving(a.db, op)
    ensures Total(Missing(AuditApply(a, op), u)) == Total(Missing(a, u))
  {
    hide Total;
    var a' := AuditApply(a, op);
    if a'.db == a.db {
      assert a' == a;
    } else {
      assert a'.db.streams == a.db.streams[op.id := a'.db.streams[op.id]];
      MissingUpdate(a, a', op.id, u);
    }
  }

  lemma {:induction false} AuditRunConserves(a: Audited, ops: seq<Op>, u: nat)
    requires AuditInv(a) && AdmissibleRun(a, ops) && u in a.db.users
    ensures AuditInv(AuditRun(a, ops)) && u in AuditRun(a, ops).db.users
    ensures Offset(AuditRun(a, ops).db, u) + Total(Missing(AuditRun(a, ops), u))
            == Offset(a.db, u) + Total(Missing(a, u))
    decreases |ops|
  {
    hide AuditApply, AuditInv, Offset, Missing, Admissible;
    if ops != [] {
      var init, last := ops[..|ops| - 1], ops[|ops| - 1];
      assert forall i | 0 <= i < |init| :: init[..i] == ops[..i] && init[i] == ops[i];
      assert Admissible(AuditRun(a, ops[..|init|]), ops[|init|]);
      AuditRunConserves(a, init, u);
      AuditInvStep(AuditRun(a, init), last);
      AuditConservesStep(AuditRun(a, init), last, u);
    }
  }

  /** Even if stale snapshots of stream rows are written back at any time, a user never appears
      to have more than the books allow: an audit that starts clean stays at or below zero. */
  lemma StaleWritesOnlyHide(a: Audited, ops: seq<Op>, u: nat)
    requires AuditInv(a) && AdmissibleRun(a, ops) && u in a.db.users
    requires Total(Missing(a, u)) == 0
    ensures u in AuditRun(a, ops).db.users && Offset(AuditRun(a, ops).db, u) <= Offset(a.db, u)
  {
    AuditRunConserves(a, ops, u);
    var b := AuditRun(a, ops);
    hide AuditRun, Offset, AdmissibleRun;
    forall id | id in Missing(b, u) ensures Missing(b, u)[id] >= 0 {
      assert RowInv(b, id);
    }
    TotalNonNegative(Missing(b, u));
  }

  // ----- The life of a stream --------------------------------------------------------

  /** What is charged for some time. */
  datatype Charge = Charge(duration: real, cost: nat)

  function Ticks(id: nat, user: nat, charges: seq<Charge>): seq<Op> {
    if charges == [] then [InsertStream(id, user)]
    else
      var last := charges[|charges| - 1];
      Ticks(id, user, charges[..|charges| - 1]) + [TickStream(id, user, last.duration, last.cost)]
  }

  function TotalCost(charges: seq<Charge>): nat {
    if charges == [] then 0 else TotalCost(charges[..|charges| - 1]) + charges[|charges| - 1].cost
  }

  function TotalTime(charges: seq<Charge>): real {
    if charges == [] then 0.0 else TotalTime(charges[..|charges| - 1]) + charges[|charges| - 1].duration
  }

  /** A new stream that is charged for some times shows their sums, and its owner has paid them. */
  lemma {:induction false} ChargesAddUp(db: Db, id: nat, user: nat, charges: seq<Charge>)
    requires id !in db.streams && user in db.users
    requires forall i | 0 <= i < |charges| :: charges[i].duration > 0.0
    ensures var db' := Run(db, Ticks(id, user, charges));
            && db'.streams == db.streams[id := StreamRow(user, TotalCost(charges), TotalTime(charges))]
            && db'.users == db.users[user := db.users[user] - TotalCost(charges)] && db'.payments == db.payments
    decreases |charges|
  {
    var ops := Ticks(id, user, charges);
    if charges == [] {
      assert ops[..0] == [];
      assert db.users == db.users[user := db.users[user] - 0];
    } else {
      var init := charges[..|charges| - 1];
      ChargesAddUp(db, id, user, init);
      assert ops[..|ops| - 1] == Ticks(id, user, init);
    }
  }
}
