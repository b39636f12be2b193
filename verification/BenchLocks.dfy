/** Bench locks: direct commands, idle probes and the workflow lock adapter over one lock table.

    The table has one row per bench, and an operation identifier occurs in at most one row.  Every
    table access is one transaction; clients interleave between transactions. */
module BenchLocks {
  import opened Wrappers

  type Bench = nat
  type Op = nat

  type Rows = map<Bench, Op>

  /** The INSERT goes through: neither the bench nor the operation has a row. */
  predicate CanInsert(rows: Rows, b: Bench, op: Op) {
    b !in rows && op !in rows.Values
  }

  /** DELETE ... WHERE bench_id = b AND operation_id = op. */
  function Delete(rows: Rows, b: Bench, op: Op): Rows {
    if Owns(rows, b, op) then rows - {b} else rows
  }

  predicate Owns(rows: Rows, b: Bench, op: Op) {
    b in rows && rows[b] == op
  }

  // ---- clients ----

  datatype Kind = Direct | Probe | Workflow

  datatype Spec = Spec(kind: Kind, bench: Bench, op: Op)

  datatype Pc =
    | Idle
    | Conflict       // the INSERT failed; the row is about to be read
    | Logging        // workflow: the row is ours, its event is being written
    | Undoing        // workflow: the event could not be written; about to delete the row
    | Owning         // acquired, between backend calls
    | Calling        // inside a backend call
    | Releasing      // in `finally`, about to delete the row
    | Done
    | Raised         // the acquisition raised
    | Abandoned      // stopped by a cancellation while logging, or by a DELETE that failed

  datatype Client = Client(spec: Spec, pc: Pc, logged: bool)

  datatype State = State(rows: Rows, clients: seq<Client>)

  datatype Label =
    | TryInsert(i: nat)
    | Refuse(i: nat)        // the reservation check inside the transaction says no
    | Resolve(i: nat)
    | Log(i: nat)
    | LogFails(i: nat)
    | CancelLogging(i: nat)
    | Undo(i: nat)
    | Enter(i: nat)
    | Leave(i: nat)         // the call returns, raises or is cancelled
    | Finish(i: nat)
    | Release(i: nat)
    | DeleteFails(i: nat)

  function Acquired(c: Client): Client {
    c.(pc := if c.spec.kind == Workflow then Logging else Owning)
  }

  datatype Next = Moved(rows: Rows, client: Client) | Stuck

  function ClientStep(rows: Rows, c: Client, l: Label): Next {
    var b, op := c.spec.bench, c.spec.op;
    match l
    case TryInsert(_) =>
      if c.pc != Idle then Stuck
      else if CanInsert(rows, b, op) then Moved(rows[b := op], Acquired(c))
      else Moved(rows, c.(pc := Conflict))
    case Refuse(_) => if c.pc == Idle then Moved(rows, c.(pc := Raised)) else Stuck
    case Resolve(_) =>
      if c.pc != Conflict then Stuck
      else if Owns(rows, b, op) then Moved(rows, Acquired(c))   // the row is taken for our own
      else Moved(rows, c.(pc := Raised))
    case Log(_) => if c.pc == Logging then Moved(rows, c.(pc := Owning, logged := true)) else Stuck
    case LogFails(_) => if c.pc == Logging then Moved(rows, c.(pc := Undoing)) else Stuck
    case CancelLogging(_) => if c.pc == Logging then Moved(rows, c.(pc := Abandoned)) else Stuck
    case Undo(_) => if c.pc == Undoing then Moved(Delete(rows, b, op), c.(pc := Raised)) else Stuck
    case Enter(_) => if c.pc == Owning then Moved(rows, c.(pc := Calling)) else Stuck
    case Leave(_) => if c.pc == Calling then Moved(rows, c.(pc := Owning)) else Stuck
    case Finish(_) => if c.pc == Owning then Moved(rows, c.(pc := Releasing)) else Stuck
    case Release(_) => if c.pc == Releasing then Moved(Delete(rows, b, op), c.(pc := Done)) else Stuck
    case DeleteFails(_) => if c.pc in {Undoing, Releasing} then Moved(rows, c.(pc := Abandoned)) else Stuck
  }

  function Step(s: State, l: Label): Outcome<State> {
    if l.i >= |s.clients| then Failed
    else
      match ClientStep(s.rows, s.clients[l.i], l)
      case Stuck => Failed
      case Moved(rows, c) => Ok(State(rows, s.clients[l.i := c]))
  }

  function Start(specs: seq<Spec>): State {
    State(map[], seq(|specs|, i requires 0 <= i < |specs| => Client(specs[i], Idle, false)))
  }

  function Run(specs: seq<Spec>, ls: seq<Label>): Outcome<State> {
    if ls == [] then Ok(Start(specs))
    else
      match Run(specs, ls[..|ls| - 1])
      case Failed => Failed
      case Ok(m) => Step(m, ls[|ls| - 1])
  }

  // ---- what every step keeps ----

  /** The client is answerable for a row. */
  predicate Holding(c: Client) {
    c.pc in {Logging, Undoing, Owning, Calling, Releasing, Abandoned}
  }

  /** No two clients present the same operation on the same bench. */
  predicate DistinctClaims(specs: seq<Spec>) {
    forall i, j :: 0 <= i < j < |specs| ==> specs[i].bench != specs[j].bench || specs[i].op != specs[j].op
  }

  predicate SameSpecs(specs: seq<Spec>, s: State) {
    |s.clients| == |specs| && forall i :: 0 <= i < |specs| ==> s.clients[i].spec == specs[i]
  }

  /** A row is there exactly for the clients that hold one. */
  ghost predicate RowsExact(s: State) {
    && (forall i :: 0 <= i < |s.clients| ==>
          (Holding(s.clients[i]) <==> Owns(s.rows, s.clients[i].spec.bench, s.clients[i].spec.op)))
    && (forall b :: b in s.rows ==> exists i :: Owner(s, i, b))
  }

  predicate Owner(s: State, i: int, b: Bench) {
    && 0 <= i < |s.clients| && Holding(s.clients[i])
    && s.clients[i].spec.bench == b && b in s.rows && s.rows[b] == s.clients[i].spec.op
  }

  predicate LoggedOk(c: Client) {
    c.spec.kind == Workflow && c.pc in {Owning, Calling, Releasing, Done} ==> c.logged
  }

  predicate AllLogged(s: State) {
    forall i :: 0 <= i < |s.clients| ==> LoggedOk(s.clients[i])
  }

  /** A step touches no row but its own client's: nobody deletes or overwrites another's row. */
  lemma {:induction false} ClientStepFrame(rows: Rows, c: Client, l: Label)
    ensures var n := ClientStep(rows, c, l);
      n.Moved? ==>
        && n.client.spec == c.spec
        && (forall b: Bench :: b != c.spec.bench ==> (b in n.rows <==> b in rows) && (b in rows ==> n.rows[b] == rows[b]))
        && (c.spec.bench in rows && rows[c.spec.bench] != c.spec.op ==> n.rows == rows)
  {
  }

  lemma {:induction false} ClientStepHolds(rows: Rows, c: Client, l: Label)
    requires Holding(c) <==> Owns(rows, c.spec.bench, c.spec.op)
    requires LoggedOk(c)
    ensures var n := ClientStep(rows, c, l);
      n.Moved? ==> LoggedOk(n.client) && (Holding(n.client) <==> Owns(n.rows, c.spec.bench, c.spec.op))
  {
  }

  lemma {:induction false} StepHolds(specs: seq<Spec>, s: State, l: Label, t: State)
    requires DistinctClaims(specs) && SameSpecs(specs, s) && RowsExact(s) && AllLogged(s) && Step(s, l) == Ok(t)
    ensures SameSpecs(specs, t) && AllLogged(t)
    ensures forall j :: 0 <= j < |t.clients| ==>
      (Holding(t.clients[j]) <==> Owns(t.rows, t.clients[j].spec.bench, t.clients[j].spec.op))
  {
    var i, c := l.i, s.clients[l.i];
    ClientStepFrame(s.rows, c, l);
    ClientStepHolds(s.rows, c, l);
    forall j | 0 <= j < |s.clients|
      ensures Holding(t.clients[j]) <==> Owns(t.rows, t.clients[j].spec.bench, t.clients[j].spec.op)
    {
      assert s.clients[j].spec == specs[j] && c.spec == specs[i];
      if j != i {
        assert t.clients[j] == s.clients[j];
      }
    }
  }

  lemma {:induction false} StepKeeps(specs: seq<Spec>, s: State, l: Label, t: State)
    requires DistinctClaims(specs) && SameSpecs(specs, s) && RowsExact(s) && AllLogged(s) && Step(s, l) == Ok(t)
    ensures SameSpecs(specs, t) && RowsExact(t) && AllLogged(t)
  {
    var i, c := l.i, s.clients[l.i];
    StepHolds(specs, s, l, t);
    ClientStepFrame(s.rows, c, l);
    forall b | b in t.rows ensures exists j :: Owner(t, j, b) {
      if b == c.spec.bench && t.rows[b] == c.spec.op {
        assert Owner(t, i, b);
      } else {
        assert b in s.rows && t.rows[b] == s.rows[b];
        var j :| Owner(s, j, b);
        assert j != i;
        assert Owner(t, j, b);
      }
    }
  }

  lemma {:induction false} RunKeeps(specs: seq<Spec>, ls: seq<Label>, t: State)
    requires DistinctClaims(specs) && Run(specs, ls) == Ok(t)
    ensures SameSpecs(specs, t) && RowsExact(t) && AllLogged(t)
  {
    if ls != [] {
      var init := ls[..|ls| - 1];
      RunKeeps(specs, init, Run(specs, init).value);
      StepKeeps(specs, Run(specs, init).value, ls[|ls| - 1], t);
    }
  }

  // ---- results ----

  /** No two clients are inside backend calls on one bench. */
  predicate Exclusive(s: State) {
    forall i, j :: 0 <= i < j < |s.clients| && s.clients[i].pc == Calling && s.clients[j].pc == Calling
      ==> s.clients[i].spec.bench != s.clients[j].spec.bench
  }

  ghost predicate AlwaysExclusive(specs: seq<Spec>) {
    forall ls :: Run(specs, ls).Ok? ==> Exclusive(Run(specs, ls).value)
  }

  lemma {:induction false} Extend(specs: seq<Spec>, ls: seq<Label>, m: State, l: Label, t: State)
    requires Run(specs, ls) == Ok(m) && Step(m, l) == Ok(t)
    ensures Run(specs, ls + [l]) == Ok(t)
  {
    assert (ls + [l])[..|ls + [l]| - 1] == ls;
  }

  /** Whoever has just acquired can get into a backend call. */
  lemma {:induction false} GoCalling(specs: seq<Spec>, ls: seq<Label>, m: State, i: nat, c: Client) returns (ls': seq<Label>, t: State)
    requires Run(specs, ls) == Ok(m) && i < |m.clients| && m.clients[i] == Acquired(c) && c.pc in {Idle, Conflict}
    ensures Run(specs, ls') == Ok(t) && t.rows == m.rows && |t.clients| == |m.clients|
    ensures t.clients[i].pc == Calling && t.clients[i].spec == c.spec
    ensures forall k :: 0 <= k < |m.clients| && k != i ==> t.clients[k] == m.clients[k]
  {
    ls', t := ls, m;
    if c.spec.kind == Workflow {
      var n := State(t.rows, t.clients[i := t.clients[i].(pc := Owning, logged := true)]);
      Extend(specs, ls', t, Log(i), n);
      ls', t := ls' + [Log(i)], n;
    }
    var n := State(t.rows, t.clients[i := t.clients[i].(pc := Calling)]);
    Extend(specs, ls', t, Enter(i), n);
    ls', t := ls' + [Enter(i)], n;
  }

  /** An acquisition that finds its own operation in the row takes it for its own, so two clients with
      the same claim get into the backend together. */
  lemma {:induction false} SameClaimOverlaps(specs: seq<Spec>, i: nat, j: nat)
    requires i < j < |specs| && specs[i].bench == specs[j].bench && specs[i].op == specs[j].op
    ensures !AlwaysExclusive(specs)
  {
    var b, op := specs[i].bench, specs[i].op;
    var s := Start(specs);
    var ci, cj := s.clients[i], s.clients[j];
    var m := State(map[b := op], s.clients[i := Acquired(ci)]);
    assert Run(specs, []) == Ok(s);
    assert map[][b := op] == map[b := op];
    Extend(specs, [], s, TryInsert(i), m);
    var ls, t := GoCalling(specs, [] + [TryInsert(i)], m, i, ci);
    var n := State(t.rows, t.clients[j := cj.(pc := Conflict)]);
    Extend(specs, ls, t, TryInsert(j), n);
    var p := State(n.rows, n.clients[j := Acquired(cj.(pc := Conflict))]);
    Extend(specs, ls + [TryInsert(j)], n, Resolve(j), p);
    var ls', u := GoCalling(specs, ls + [TryInsert(j)] + [Resolve(j)], p, j, cj.(pc := Conflict));
    assert u.clients[i].pc == Calling && u.clients[j].pc == Calling;
    assert !Exclusive(u);
  }

  /** Backend calls on a bench never overlap, in any interleaving, exactly when no two clients present
      the same operation on the same bench. */
  lemma {:induction false} ExclusionIff(specs: seq<Spec>)
    ensures AlwaysExclusive(specs) <==> DistinctClaims(specs)
  {
    if DistinctClaims(specs) {
      forall ls | Run(specs, ls).Ok? ensures Exclusive(Run(specs, ls).value) {
        RunKeeps(specs, ls, Run(specs, ls).value);
      }
    } else {
      var i, j :| 0 <= i < j < |specs| && specs[i].bench == specs[j].bench && specs[i].op == specs[j].op;
      SameClaimOverlaps(specs, i, j);
    }
  }

  /** Exit paths: a client that is done or whose acquisition raised has no row, one that was abandoned
      still has it, and a workflow that acquired has both its row and its event. */
  lemma {:induction false} ExitsRelease(specs: seq<Spec>, ls: seq<Label>, t: State, i: nat)
    requires DistinctClaims(specs) && Run(specs, ls) == Ok(t) && i < |t.clients|
    ensures var c := t.clients[i];
      && (c.pc in {Idle, Conflict, Raised, Done} ==> !Owns(t.rows, c.spec.bench, c.spec.op))
      && (c.pc in {Owning, Calling, Releasing, Abandoned} ==> Owns(t.rows, c.spec.bench, c.spec.op))
      && (c.pc in {Owning, Calling, Releasing} && c.spec.kind == Workflow ==> c.logged)
  {
    RunKeeps(specs, ls, t);
    assert LoggedOk(t.clients[i]);
  }

  predicate Ended(c: Client) {
    c.pc in {Done, Raised, Abandoned}
  }

  /** When all have ended the table is empty exactly when nobody was abandoned. */
  lemma {:induction false} TableEmptyAtEnd(specs: seq<Spec>, ls: seq<Label>, t: State)
    requires DistinctClaims(specs) && Run(specs, ls) == Ok(t)
    requires forall i :: 0 <= i < |t.clients| ==> Ended(t.clients[i])
    ensures t.rows == map[] <==> forall i :: 0 <= i < |t.clients| ==> t.clients[i].pc != Abandoned
  {
    RunKeeps(specs, ls, t);
    if t.rows != map[] {
      var b :| b in t.rows;
      var i :| Owner(t, i, b);
      assert t.clients[i].pc == Abandoned;
    } else {
      assert forall i :: 0 <= i < |t.clients| ==> !Holding(t.clients[i]);
    }
  }

  // ---- the table by itself, and the way to the end ----

  /** An insertion goes through exactly if the bench is free and the operation has no row anywhere. */
  lemma {:induction false} InsertExact(s: State, i: nat, t: State)
    requires Step(s, TryInsert(i)) == Ok(t)
    ensures i < |s.clients| == |t.clients| && s.clients[i].pc == Idle
    ensures var spec := s.clients[i].spec;
      if spec.bench !in s.rows && forall x :: x in s.rows ==> s.rows[x] != spec.op then
        t.rows == s.rows[spec.bench := spec.op] && Holding(t.clients[i])
      else t.rows == s.rows && t.clients[i].pc == Conflict
  {
  }

  /** A holder may call as often as it likes, and the reservation check may refuse whoever has not acquired. */
  lemma {:induction false} CallsRepeat(rows: Rows, c: Client, i: nat)
    ensures c.pc == Idle ==> ClientStep(rows, c, Refuse(i)) == Moved(rows, c.(pc := Raised))
    ensures c.pc == Owning ==> ClientStep(rows, c, Enter(i)) == Moved(rows, c.(pc := Calling))
    ensures c.pc == Calling ==> ClientStep(rows, c, Leave(i)) == Moved(rows, c.(pc := Owning))
  {
  }

  /** The faults: the event write may fail or be cancelled, and any DELETE may fail.  None touches a row. */
  lemma {:induction false} FaultsHappen(rows: Rows, c: Client, i: nat)
    ensures c.pc == Logging ==>
              && ClientStep(rows, c, LogFails(i)) == Moved(rows, c.(pc := Undoing))
              && ClientStep(rows, c, CancelLogging(i)) == Moved(rows, c.(pc := Abandoned))
    ensures c.pc in {Undoing, Releasing} ==> ClientStep(rows, c, DeleteFails(i)) == Moved(rows, c.(pc := Abandoned))
  {
  }

  ghost predicate OneRowEach(rows: Rows) {
    forall x, y :: x in rows && y in rows && rows[x] == rows[y] ==> x == y
  }

  /** In every run, whatever the claims, no operation has two rows. */
  lemma {:induction false} RowsDistinct(specs: seq<Spec>, ls: seq<Label>, t: State)
    requires Run(specs, ls) == Ok(t)
    ensures OneRowEach(t.rows)
  {
    if ls != [] {
      RowsDistinct(specs, ls[..|ls| - 1], Run(specs, ls[..|ls| - 1]).value);
    }
  }

  function ToGo(pc: Pc): nat {
    match pc
    case Idle => 5
    case Conflict => 4
    case Logging => 3
    case Calling => 3
    case Owning => 2
    case Undoing => 1
    case Releasing => 1
    case _ => 0
  }

  function NextLabel(pc: Pc, i: nat): Label {
    match pc
    case Idle => TryInsert(i)
    case Conflict => Resolve(i)
    case Logging => Log(i)
    case Undoing => Undo(i)
    case Calling => Leave(i)
    case Owning => Finish(i)
    case _ => Release(i)
  }

  lemma {:induction false} OneCloser(s: State, i: nat)
    requires i < |s.clients| && !Ended(s.clients[i])
    ensures var n := Step(s, NextLabel(s.clients[i].pc, i));
      && n.Ok? && |n.value.clients| == |s.clients|
      && ToGo(n.value.clients[i].pc) < ToGo(s.clients[i].pc) && n.value.clients[i].pc != Abandoned
  {
  }

  /** From any point of any run a client can go on alone to its end, without a row. */
  lemma {:induction false} CanFinish(specs: seq<Spec>, ls: seq<Label>, m: State, i: nat) returns (ls': seq<Label>, t: State)
    requires DistinctClaims(specs) && Run(specs, ls) == Ok(m) && i < |m.clients| && m.clients[i].pc != Abandoned
    ensures Run(specs, ls') == Ok(t) && |t.clients| == |m.clients|
    ensures t.clients[i].pc in {Done, Raised} && !Owns(t.rows, t.clients[i].spec.bench, t.clients[i].spec.op)
    decreases ToGo(m.clients[i].pc)
  {
    if Ended(m.clients[i]) {
      ls', t := ls, m;
      ExitsRelease(specs, ls, m, i);
    } else {
      OneCloser(m, i);
      var l := NextLabel(m.clients[i].pc, i);
      var n := Step(m, l).value;
      Extend(specs, ls, m, l, n);
      ls', t := CanFinish(specs, ls + [l], n, i);
    }
  }

  // ---- the repository and the workflow adapter as objects ----

  class OperationLocks {
    var rows: Rows

    constructor ()
      ensures rows == map[]
    {
      rows := map[];
    }

    /** True when the lock is held on return: inserted now, or found to be this operation's already. */
    method Acquire(b: Bench, op: Op) returns (ok: bool)
      modifies this
      ensures ok <==> (b !in old(rows) && forall x :: x in old(rows) ==> old(rows)[x] != op)
                      || (b in old(rows) && old(rows)[b] == op)
      ensures ok <==> CanInsert(old(rows), b, op) || Owns(old(rows), b, op)
      ensures ok ==> rows == old(rows)[b := op] && Owns(rows, b, op)
      ensures !ok ==> rows == old(rows)
    {
      if CanInsert(rows, b, op) {
        rows := rows[b := op];
        return true;
      }
      ok := b in rows && rows[b] == op;
      assert ok ==> rows[b := op] == rows;
    }

    method Release(b: Bench, op: Op) returns (released: bool)
      modifies this
      ensures rows == Delete(old(rows), b, op) && released == Owns(old(rows), b, op)
      ensures !Owns(rows, b, op)
    {
      released := b in rows && rows[b] == op;
      if released {
        rows := rows - {b};
      }
    }
  }

  /** How the event repository's write ends. */
  datatype EventWrite = Written | Failing | Cancelled

  class WorkflowLockAdapter {
    const locks: OperationLocks
    var logged: seq<Op>

    constructor (locks: OperationLocks)
      ensures this.locks == locks && logged == []
    {
      this.locks, logged := locks, [];
    }

    /** Returns holding the lock with its event written, or raises.  It raises without the lock, except
        when it is cancelled while the event is being written or its own DELETE fails: then the row stays.
        `permitted` is the reservation check inside the transaction. */
    method Acquire(b: Bench, op: Op, permitted: bool, write: EventWrite, deleteFails: bool) returns (ok: bool)
      modifies this, locks
      ensures var acquired := permitted && (CanInsert(old(locks.rows), b, op) || Owns(old(locks.rows), b, op));
        && (ok <==> acquired && write == Written)
        && locks.rows ==
           (if !acquired then old(locks.rows)
            else if write == Failing && !deleteFails then old(locks.rows) - {b}
            else old(locks.rows)[b := op])
      ensures ok ==> Owns(locks.rows, b, op) && logged == old(logged) + [op]
      ensures !ok ==> logged == old(logged)
      ensures !ok && Owns(locks.rows, b, op) && !Owns(old(locks.rows), b, op) ==>
                write == Cancelled || (write == Failing && deleteFails)
    {
      ok := false;
      if permitted {
        ok := locks.Acquire(b, op);
      }
      if !ok {
        return;
      }
      match write
      case Written =>
        logged := logged + [op];
      case Cancelled =>
        ok := false;
      case Failing =>
        if !deleteFails {
          var _ := locks.Release(b, op);
        }
        ok := false;
    }
  }
}
