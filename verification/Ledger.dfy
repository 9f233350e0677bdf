/** Balances, payments and stream costs (crates/zap-stream-db/src/db.rs).

    Each statement is one atomic step on the tables `user`, `payment` and `user_stream`.
    A statement that fails (missing user, duplicate payment hash, negative unsigned column)
    leaves the tables alone. */
module Ledger {
  import opened Sums
  import opened Wrappers

  datatype PaymentType = TopUp | Zap | Credit | Withdrawal | AdmissionFee

  datatype Payment = Payment(userId: nat, amount: int, kind: PaymentType, isPaid: bool, fee: nat)

  datatype StreamRow = StreamRow(userId: nat, cost: nat, duration: real)

  datatype Db = Db(users: map<nat, int>, payments: map<nat, Payment>, streams: map<nat, StreamRow>)

  datatype Op =
    | CreatePayment(hash: nat, user: nat, amount: int, kind: PaymentType, fee: nat)
    | CompletePayment(hash: nat, fee: nat)
    | CompleteWithdrawal(hash: nat, fee: nat)
    | UpdateBalance(user: nat, diff: int)
    | AdminCredit(hash: nat, user: nat, amount: int)
    | InsertStream(id: nat, user: nat)
    | UpdateStream(id: nat, newCost: nat, newDuration: real)
    | TickStream(id: nat, user: nat, duration: real, cost: int)

  // ----- Steps --------------------------------------------------------------

  function Created(db: Db, hash: nat, p: Payment): Db {
    if hash in db.payments || p.userId !in db.users then db
    else db.(payments := db.payments[hash := p])
  }

  predicate Unpaid(db: Db, hash: nat) {
    hash in db.payments && !db.payments[hash].isPaid && db.payments[hash].userId in db.users
  }

  /** Mark a payment as paid and move the balance of its user by `delta`. */
  function Completed(db: Db, hash: nat, fee: nat, delta: int): Db
    requires Unpaid(db, hash)
  {
    var p := db.payments[hash];
    db.(payments := db.payments[hash := p.(isPaid := true, fee := fee)],
        users := db.users[p.userId := db.users[p.userId] + delta])
  }

  function Paid(db: Db, hash: nat, fee: nat): Db {
    if Unpaid(db, hash) then Completed(db, hash, fee, db.payments[hash].amount) else db
  }

  function Withdrawn(db: Db, hash: nat, fee: nat): Db {
    if Unpaid(db, hash) then Completed(db, hash, fee, -(fee as int)) else db
  }

  function Ticked(db: Db, id: nat, user: nat, duration: real, cost: int): Db {
    if user !in db.users then db
    else if (cost > 0 || duration > 0.0) && id in db.streams && db.streams[id].cost + cost < 0 then db
    else
      var streams :=
        if (cost > 0 || duration > 0.0) && id in db.streams then
          var s := db.streams[id];
          db.streams[id := s.(duration := s.duration + duration, cost := s.cost + cost)]
        else db.streams;
      var users := if cost > 0 then db.users[user := db.users[user] - cost] else db.users;
      db.(streams := streams, users := users)
  }

  function Apply(db: Db, op: Op): Db {
    match op
    case CreatePayment(hash, user, amount, kind, fee) => Created(db, hash, Payment(user, amount, kind, false, fee))
    case CompletePayment(hash, fee) => Paid(db, hash, fee)
    case CompleteWithdrawal(hash, fee) => Withdrawn(db, hash, fee)
    case UpdateBalance(user, diff) =>
      if user in db.users then db.(users := db.users[user := db.users[user] + diff]) else db
    case AdminCredit(hash, user, amount) =>
      if hash in db.payments || user !in db.users then db
      else Paid(Created(db, hash, Payment(user, amount, Credit, false, 0)), hash, 0)
    case InsertStream(id, user) =>
      if id in db.streams || user !in db.users then db
      else db.(streams := db.streams[id := StreamRow(user, 0, 0.0)])
    case UpdateStream(id, cost, duration) =>
      if id in db.streams
      then db.(streams := db.streams[id := db.streams[id].(cost := cost, duration := duration)]) else db
    case TickStream(id, user, duration, cost) => Ticked(db, id, user, duration, cost)
  }

  /** The tables, changed in place. */
  class ZapStreamDb {
    var users: map<nat, int>
    var payments: map<nat, Payment>
    var streams: map<nat, StreamRow>

    function State(): Db
      reads this
    {
      Db(users, payments, streams)
    }

    constructor (users: map<nat, int>)
      ensures State() == Db(users, map[], map[])
    {
      this.users, payments, streams := users, map[], map[];
    }

    method DoCreatePayment(hash: nat, user: nat, amount: int, kind: PaymentType, fee: nat) returns (ok: bool)
      modifies this
      ensures State() == Apply(old(State()), CreatePayment(hash, user, amount, kind, fee))
      ensures ok <==> hash !in old(payments) && user in users
    {
      ok := hash !in payments && user in users;
      if ok {
        payments := payments[hash := Payment(user, amount, kind, false, fee)];
      }
    }

    /** True exactly for the one call that credits the payment. */
    method DoCompletePayment(hash: nat, fee: nat) returns (ok: bool)
      modifies this
      ensures State() == Apply(old(State()), CompletePayment(hash, fee))
      ensures ok <==> Unpaid(old(State()), hash)
    {
      ok := hash in payments && !payments[hash].isPaid && payments[hash].userId in users;
      if ok {
        var p := payments[hash];
        payments := payments[hash := p.(fee := fee, isPaid := true)];
        users := users[p.userId := users[p.userId] + p.amount];
      }
    }

    method DoCompleteWithdrawal(hash: nat, fee: nat) returns (ok: bool)
      modifies this
      ensures State() == Apply(old(State()), CompleteWithdrawal(hash, fee))
      ensures ok <==> Unpaid(old(State()), hash)
    {
      ok := hash in payments && !payments[hash].isPaid && payments[hash].userId in users;
      if ok {
        var p := payments[hash];
        payments := payments[hash := p.(fee := fee, isPaid := true)];
        users := users[p.userId := users[p.userId] - fee];
      }
    }

    method DoUpdateBalance(user: nat, diff: int)
      modifies this`users
      ensures State() == Apply(old(State()), UpdateBalance(user, diff))
    {
      if user in users {
        users := users[user := users[user] + diff];
      }
    }

    method DoAdminCredit(hash: nat, user: nat, amount: int) returns (ok: bool)
      modifies this
      ensures State() == Apply(old(State()), AdminCredit(hash, user, amount))
      ensures ok <==> hash !in old(payments) && user in old(users)
      ensures ok ==> users == old(users)[user := old(users)[user] + amount]
                     && payments == old(payments)[hash := Payment(user, amount, Credit, true, 0)]
      ensures !ok ==> State() == old(State())
    {
      ok := DoCreatePayment(hash, user, amount, Credit, 0);
      if ok {
        ok := DoCompletePayment(hash, 0);
      }
    }

    method DoUpdateStream(id: nat, row: StreamRow)
      modifies this`streams
      ensures State() == Apply(old(State()), UpdateStream(id, row.cost, row.duration))
    {
      if id in streams {
        streams := streams[id := row.(userId := streams[id].userId)];
      }
    }

    /** A transaction: on an error nothing is committed. */
    method DoTickStream(id: nat, user: nat, duration: real, cost: int) returns (balance: Option<int>)
      modifies this
      ensures State() == Apply(old(State()), TickStream(id, user, duration, cost))
      ensures balance.Some? ==> user in users && balance.value == users[user]
      ensures balance.None? ==> State() == old(State())
      ensures balance.None? <==>
              || user !in old(users)
              || ((cost > 0 || duration > 0.0) && id in old(streams) && old(streams)[id].cost + cost < 0)
    {
      var users', streams' := users, streams;
      if cost > 0 || duration > 0.0 {
        if id in streams {
          var s := streams[id];
          if s.cost + cost < 0 { return None; }
          streams' := streams[id := s.(duration := s.duration + duration, cost := s.cost + cost)];
        }
      }
      if cost > 0 && user in users {
        users' := users'[user := users'[user] - cost];
      }
      if user !in users' { return None; }
      users, streams := users', streams';
      balance := Some(users[user]);
    }
  }

  // ----- The audit query --------------------------------------------------------

  /** What a payment contributes to the expected balance of a user. */
  function Contribution(p: Payment, u: nat): int {
    if p.userId == u && p.isPaid then p.amount - (if p.kind.Withdrawal? then p.fee else 0) else 0
  }

  function CostFor(s: StreamRow, u: nat): int {
    if s.userId == u then s.cost else 0
  }

  function Contributions(db: Db, u: nat): map<nat, int> {
    map h | h in db.payments :: Contribution(db.payments[h], u)
  }

  function Costs(db: Db, u: nat): map<nat, int> {
    map s | s in db.streams :: CostFor(db.streams[s], u)
  }

  /** `get_balance_offsets`: current balance minus (payments minus withdrawal fees minus costs). */
  ghost function Offset(db: Db, u: nat): int
    requires u in db.users
  {
    db.users[u] - (Total(Contributions(db, u)) - Total(Costs(db, u)))
  }

  lemma PaymentUpdate(db: Db, db': Db, h: nat, p: Payment, u: nat)
    requires db'.payments == db.payments[h := p]
    ensures Total(Contributions(db', u)) == Total(Contributions(db, u)) + Contribution(p, u)
                                            - (if h in db.payments then Contribution(db.payments[h], u) else 0)
  {
    TotalUpdate(Contributions(db, u), h, Contribution(p, u));
    assert Contributions(db', u) == Contributions(db, u)[h := Contribution(p, u)];
  }

  lemma StreamUpdate(db: Db, db': Db, id: nat, s: StreamRow, u: nat)
    requires db'.streams == db.streams[id := s]
    ensures Total(Costs(db', u)) == Total(Costs(db, u)) + CostFor(s, u)
                                    - (if id in db.streams then CostFor(db.streams[id], u) else 0)
  {
    TotalUpdate(Costs(db, u), id, CostFor(s, u));
    assert Costs(db', u) == Costs(db, u)[id := CostFor(s, u)];
  }

  // ----- What each step does to the audit ---------------------------------------

  /** By how much a step moves the offset of user `u`. */
  function Shift(db: Db, op: Op, u: nat): int {
    match op
    case CreatePayment(_, _, _, _, _) => 0
    case CompletePayment(hash, fee) =>
      if Unpaid(db, hash) && db.payments[hash].userId == u && db.payments[hash].kind.Withdrawal? then fee else 0
    case CompleteWithdrawal(hash, fee) =>
      if Unpaid(db, hash) && db.payments[hash].userId == u
      then -db.payments[hash].amount - (if db.payments[hash].kind.Withdrawal? then 0 else fee) else 0
    case UpdateBalance(user, diff) => if user == u then diff else 0
    case AdminCredit(_, _, _) => 0
    case InsertStream(_, _) => 0
    case UpdateStream(id, cost, _) =>
      if id in db.streams && db.streams[id].userId == u then cost - db.streams[id].cost else 0
    case TickStream(id, user, duration, cost) =>
      if Ticked(db, id, user, duration, cost) == db then 0
      else (if user == u && cost > 0 then -cost else 0)
           + (if id in db.streams && db.streams[id].userId == u then cost else 0)
  }

  lemma UsersPersist(db: Db, op: Op)
    ensures Apply(db, op).users.Keys == db.users.Keys
  {}

  /** The offset of every user moves by exactly `Shift`. */
  lemma OffsetStep(db: Db, op: Op, u: nat)
    requires u in db.users
    ensures u in Apply(db, op).users && Offset(Apply(db, op), u) == Offset(db, u) + Shift(db, op, u)
  {
    hide Total;
    UsersPersist(db, op);
    var db' := Apply(db, op);
    match op
    case CreatePayment(hash, user, amount, kind, fee) =>
      PaymentStep(db, op, u);
    case CompletePayment(hash, fee) =>
      PaymentStep(db, op, u);
    case CompleteWithdrawal(hash, fee) =>
      PaymentStep(db, op, u);
    case UpdateBalance(user, diff) =>
    case AdminCredit(hash, user, amount) =>
      if db' != db {
        var created := Created(db, hash, Payment(user, amount, Credit, false, 0));
        PaymentStep(db, CreatePayment(hash, user, amount, Credit, 0), u);
        PaymentStep(created, CompletePayment(hash, 0), u);
      }
    case InsertStream(id, user) =>
      if db' != db {
        StreamUpdate(db, db', id, db'.streams[id], u);
      }
    case UpdateStream(id, cost, duration) =>
      if id in db.streams {
        StreamUpdate(db, db', id, db'.streams[id], u);
      }
    case TickStream(id, user, duration, cost) =>
      TickStep(db, id, user, duration, cost, u);
  }

  lemma PaymentStep(db: Db, op: Op, u: nat)
    requires u in db.users && (op.CreatePayment? || op.CompletePayment? || op.CompleteWithdrawal?)
    ensures u in Apply(db, op).users && Offset(Apply(db, op), u) == Offset(db, u) + Shift(db, op, u)
  {
    hide Total;
    var db' := Apply(db, op);
    if db' != db {
      PaymentUpdate(db, db', op.hash, db'.payments[op.hash], u);
    }
  }

  lemma TickStep(db: Db, id: nat, user: nat, duration: real, cost: int, u: nat)
    requires u in db.users
    ensures var op := TickStream(id, user, duration, cost);
            u in Apply(db, op).users && Offset(Apply(db, op), u) == Offset(db, u) + Shift(db, op, u)
  {
    hide Total;
    var db' := Ticked(db, id, user, duration, cost);
    if db' != db && id in db.streams {
      StreamUpdate(db, db', id, db'.streams[id], u);
      assert db.streams[id := db.streams[id]] == db.streams;
    }
  }
}
