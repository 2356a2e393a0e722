/** Transactions over any store: `RunInTransaction` joins an open transaction, otherwise begins one and commits or
    rolls back. Faults of the database come from an oracle, one answer per request, so that every failure of
    Begin, of a statement, of Commit or of Rollback is covered. */
module Transactions {
  import opened Basics

  /** The private store of an open transaction. After a failed statement the server refuses every further
      one and turns the commit into a rollback. */
  datatype Tx<S> = Tx(work: S, aborted: bool)

  datatype Connection<S> = Connection(committed: S, tx: Option<Tx<S>>, faults: seq<bool>) {
    /** The store the next statement sees. */
    function View(): S { if tx.Some? then tx.value.work else committed }

    predicate Ready() { tx.Some? ==> !tx.value.aborted }

    predicate Faultless() { true !in faults }
  }

  /** What the schema checks after each statement and what it leaves to the commit. */
  datatype Rules<!S> = Rules(statement: S -> bool, commit: S -> bool)

  /** An error can be joined with that of the rollback it caused; a caller looking for an error finds it either way. */
  datatype Outcome = Returned(err: Option<Error>) | JoinedWithRollback(error: Error) | Panicking {
    predicate Failed() { Returned? ==> err.Some? }

    /** The error a caller of a finished transaction finds. */
    function Found(): Option<Error> {
      match this
      case Returned(e) => e
      case JoinedWithRollback(e) => Some(e)
      case Panicking => Some(Panicked)
    }
  }

  // ---- single requests ----

  function NextFault<S>(c: Connection<S>): (bool, Connection<S>) {
    if c.faults == [] then (false, c) else (c.faults[0], c.(faults := c.faults[1..]))
  }

  /** A statement: inside a transaction it changes the private store, outside it commits by itself. */
  function StatementStep<S>(r: Rules<S>, c: Connection<S>, effect: S -> Option<S>): (Option<Error>, Connection<S>) {
    var (fault, d) := NextFault(c);
    var after := effect(d.View());
    if d.tx.Some? then
      if fault || d.tx.value.aborted then (Some(Infrastructure), d.(tx := Some(d.tx.value.(aborted := true))))
      else if after.None? || !r.statement(after.value) then
        (Some(Constraint), d.(tx := Some(d.tx.value.(aborted := true))))
      else (None, d.(tx := Some(Tx(after.value, false))))
    else if fault then (Some(Infrastructure), d)
    else if after.None? || !r.statement(after.value) || !r.commit(after.value) then (Some(Constraint), d)
    else (None, d.(committed := after.value))
  }

  /** A query reads the store the connection sees; it can only fail. */
  function QueryStep<S>(c: Connection<S>): (Option<Error>, Connection<S>) {
    var (fault, d) := NextFault(c);
    if d.tx.Some? && (fault || d.tx.value.aborted) then
      (Some(Infrastructure), d.(tx := Some(d.tx.value.(aborted := true))))
    else if fault then (Some(Infrastructure), d)
    else (None, d)
  }

  /** Inside a transaction a failed statement aborts it and changes nothing, and an aborted one accepts no other; a
      successful one does exactly what it says. None of them commits. */
  lemma StatementInside<S>(r: Rules<S>, c: Connection<S>, effect: S -> Option<S>)
    requires c.tx.Some?
    ensures var (err, d) := StatementStep(r, c, effect);
            && d.committed == c.committed && d.tx.Some?
            && (c.tx.value.aborted ==> err.Some?)
            && (err.Some? ==> d.tx.value.aborted && d.tx.value.work == c.tx.value.work)
            && (err.None? ==> !d.tx.value.aborted && effect(c.tx.value.work) == Some(d.tx.value.work)
                              && r.statement(d.tx.value.work))
            && (err == Some(Constraint) ==>
                  effect(c.tx.value.work) == None || !r.statement(effect(c.tx.value.work).value))
            && (true !in c.faults && !c.tx.value.aborted && err.Some? ==> err == Some(Constraint))
            && (c.faults != [] && c.faults[0] ==> err == Some(Infrastructure))
  {
  }

  /** Outside one a statement commits by itself, whole and checked, or changes nothing. */
  lemma StatementOutside<S>(r: Rules<S>, c: Connection<S>, effect: S -> Option<S>)
    requires c.tx.None?
    ensures var (err, d) := StatementStep(r, c, effect);
            && d.tx.None?
            && (err.Some? ==> d.committed == c.committed)
            && (err.None? ==> effect(c.committed) == Some(d.committed) && r.statement(d.committed)
                              && r.commit(d.committed))
            && (true !in c.faults && err.Some? ==>
                  effect(c.committed) == None || !r.statement(effect(c.committed).value)
                  || !r.commit(effect(c.committed).value))
            && (c.faults != [] && c.faults[0] ==> err == Some(Infrastructure))
  {
  }

  /** A query changes no data; a failed one aborts the open transaction, and an aborted one answers none. */
  lemma QueryAnswers<S>(c: Connection<S>)
    ensures var (err, d) := QueryStep(c);
            && d.committed == c.committed && (d.tx.Some? <==> c.tx.Some?)
            && (c.tx.Some? ==> d.tx.value.work == c.tx.value.work
                               && (d.tx.value.aborted <==> c.tx.value.aborted || err.Some?)
                               && (c.tx.value.aborted ==> err.Some?))
            && (true !in c.faults && (c.tx.Some? ==> !c.tx.value.aborted) ==> err.None?)
            && (c.faults != [] && c.faults[0] ==> err == Some(Infrastructure))
  {
  }

  function BeginStep<S>(c: Connection<S>): (Option<Error>, Connection<S>)
    requires c.tx.None?
  {
    var (fault, d) := NextFault(c);
    if fault then (Some(Infrastructure), d) else (None, d.(tx := Some(Tx(d.committed, false))))
  }

  /** A transaction begins on the committed store, and fails to exactly when the database does. */
  lemma Beginning<S>(c: Connection<S>)
    requires c.tx.None?
    ensures var (err, d) := BeginStep(c);
            && (err.Some? <==> c.faults != [] && c.faults[0]) && d.committed == c.committed
            && d.tx == if err.Some? then None else Some(Tx(c.committed, false))
  {
  }

  /** The deferred rollback for a body that ended in `o` with the error `e`. */
  function RollbackStep<S>(c: Connection<S>, o: Outcome, e: Error): (Outcome, Connection<S>)
    requires c.tx.Some?
  {
    var (fault, d) := NextFault(c);
    (if fault then JoinedWithRollback(e) else o, d.(tx := None))
  }

  /** The deferred block and the commit of `runInTx`. A failed commit leaves nothing behind, and the rollback after it
      finds the transaction closed. */
  function EndStep<S>(r: Rules<S>, c: Connection<S>, o: Outcome): (Outcome, Connection<S>)
    requires c.tx.Some?
  {
    match o
    case Panicking => RollbackStep(c, Returned(Some(Panicked)), Panicked)
    case Returned(Some(e)) => RollbackStep(c, o, e)
    case JoinedWithRollback(e) => RollbackStep(c, o, e)
    case Returned(None) =>
      var (fault, d) := NextFault(c);
      if fault || d.tx.value.aborted then (Returned(Some(Infrastructure)), d.(tx := None))
      else if !r.commit(d.tx.value.work) then (Returned(Some(Constraint)), d.(tx := None))
      else (o, d.(committed := d.tx.value.work, tx := None))
  }

  /** How the transaction of a body that ended in `o` ends: which errors the caller finds, and what is stored. */
  lemma Ending<S>(r: Rules<S>, c: Connection<S>, e: Error)
    requires c.tx.Some?
    ensures var fault := c.faults != [] && c.faults[0];
            && EndStep(r, c, Panicking).0 == (if fault then JoinedWithRollback(Panicked) else Returned(Some(Panicked)))
            && EndStep(r, c, Returned(Some(e))).0 == (if fault then JoinedWithRollback(e) else Returned(Some(e)))
            && EndStep(r, c, Returned(None)).0 ==
               if fault || c.tx.value.aborted then Returned(Some(Infrastructure))
               else if !r.commit(c.tx.value.work) then Returned(Some(Constraint)) else Returned(None)
    ensures forall o :: EndStep(r, c, o).1.tx == None &&
              EndStep(r, c, o).1.committed ==
              if EndStep(r, c, o).0 == Returned(None) then c.tx.value.work else c.committed
  {
  }

  // ---- programs ----

  /** What a use case can do: statements, returning nil or an error, panicking, going on after success
      (`Then`) or after an error (`OrElse`), and `RunInTransaction`, nested to any depth. */
  datatype Program<!S> =
    | Done
    | Fail(error: Error)
    | Panic
    | Statement(effect: S -> Option<S>)
    | Then(first: Program<S>, next: Program<S>)
    | OrElse(first: Program<S>, other: Program<S>)
    | Transaction(body: Program<S>)

  function Eval<S>(r: Rules<S>, p: Program<S>, c: Connection<S>): (Outcome, Connection<S>)
    decreases p
  {
    match p
    case Done => (Returned(None), c)
    case Fail(e) => (Returned(Some(e)), c)
    case Panic => (Panicking, c)
    case Statement(effect) => var (err, d) := StatementStep(r, c, effect); (Returned(err), d)
    case Then(first, next) =>
      var (o, d) := Eval(r, first, c);
      if o == Returned(None) then Eval(r, next, d) else (o, d)
    case OrElse(first, other) =>
      var (o, d) := Eval(r, first, c);
      if o.Failed() && !o.Panicking? then Eval(r, other, d) else (o, d)
    case Transaction(body) =>
      if c.tx.Some? then Eval(r, body, c)
      else
        var (err, d) := BeginStep(c);
        if err.Some? then (Returned(err), d)
        else
          var (o, e) := Eval(r, body, d);
          if e.tx.Some? then EndStep(r, e, o) else (o, e)
  }

  /** What sequencing means: the second program runs exactly after the outcome it waits for, and a panic stops both. */
  lemma Sequencing<S>(r: Rules<S>, p: Program<S>, e: Error, c: Connection<S>)
    ensures Eval(r, Then(Done, p), c) == Eval(r, p, c) == Eval(r, OrElse(Fail(e), p), c)
    ensures Eval(r, Then(Fail(e), p), c) == (Returned(Some(e)), c) && Eval(r, OrElse(Done, p), c) == (Returned(None), c)
    ensures Eval(r, Then(Panic, p), c) == Eval(r, OrElse(Panic, p), c) == (Panicking, c)
  {
  }

  /** The program with every `RunInTransaction` replaced by its body. */
  function Inline<S>(p: Program<S>): Program<S> {
    match p
    case Then(first, next) => Then(Inline(first), Inline(next))
    case OrElse(first, other) => OrElse(Inline(first), Inline(other))
    case Transaction(body) => Inline(body)
    case _ => p
  }

  /** No `RunInTransaction` anywhere. */
  predicate NoTransaction<S>(p: Program<S>) {
    match p
    case Then(first, next) => NoTransaction(first) && NoTransaction(next)
    case OrElse(first, other) => NoTransaction(first) && NoTransaction(other)
    case Transaction(_) => false
    case _ => true
  }

  lemma {:induction false} InlineHasNoTransaction<S>(p: Program<S>)
    ensures NoTransaction(Inline(p))
  {
    match p
    case Then(first, next) => InlineHasNoTransaction(first); InlineHasNoTransaction(next);
    case OrElse(first, other) => InlineHasNoTransaction(first); InlineHasNoTransaction(other);
    case Transaction(body) => InlineHasNoTransaction(body);
    case _ =>
  }

  /** Inside a transaction nothing is committed or rolled back and the transaction stays open; once a statement has
      failed it stays aborted. */
  lemma {:induction false} InsideNothingCommits<S>(r: Rules<S>, p: Program<S>, c: Connection<S>)
    requires c.tx.Some?
    ensures var (o, d) := Eval(r, p, c);
            && d.committed == c.committed && d.tx.Some? && (c.tx.value.aborted ==> d.tx.value.aborted)
            && !o.JoinedWithRollback?
    decreases p
  {
    match p
    case Then(first, next) =>
      InsideNothingCommits(r, first, c);
      InsideNothingCommits(r, next, Eval(r, first, c).1);
    case OrElse(first, other) =>
      InsideNothingCommits(r, first, c);
      InsideNothingCommits(r, other, Eval(r, first, c).1);
    case Transaction(body) => InsideNothingCommits(r, body, c);
    case _ =>
  }

  /** A body that ended as `inner` on `e` is committed whole, or not at all with an error for the caller. */
  ghost predicate EndsWhole<S>(r: Rules<S>, inner: Outcome, e: Connection<S>, o: Outcome, d: Connection<S>)
    requires e.tx.Some?
  {
    && (!o.Failed() <==> inner == Returned(None) && !e.tx.value.aborted && !(e.faults != [] && e.faults[0])
                         && r.commit(e.tx.value.work))
    && d.committed == (if o.Failed() then e.committed else e.tx.value.work)
    && (inner.Failed() ==> o.Found() == inner.Found() && (o.JoinedWithRollback? <==> e.faults != [] && e.faults[0]))
    && (!inner.Failed() ==> o.Returned?)
    && (inner.Panicking? ==> o in {Returned(Some(Panicked)), JoinedWithRollback(Panicked)})
    && (inner.Returned? && inner.err.Some? ==> o in {inner, JoinedWithRollback(inner.err.value)})
  }

  lemma EndIsWhole<S>(r: Rules<S>, inner: Outcome, e: Connection<S>)
    requires e.tx.Some? && !inner.JoinedWithRollback?
    ensures var (o, d) := EndStep(r, e, inner);
            EndsWhole(r, inner, e, o, d) && d.tx.None? && !o.Panicking?
  {
  }

  /** An outermost `RunInTransaction` is all or nothing: the committed store becomes the body's final store
      exactly when the body returned nil, no statement had failed and the commit went through, and the
      caller then sees nil; in every other case, panics included, it is as before and the caller
      sees the error, joined with that of the rollback if that failed too. */
  lemma OutermostIsAllOrNothing<S>(r: Rules<S>, body: Program<S>, c: Connection<S>)
    requires c.tx.None?
    ensures var (o, d) := Eval(r, Transaction(body), c);
            var (begin, started) := BeginStep(c);
            && d.tx.None? && !o.Panicking?
            && if begin.Some? then o == Returned(begin) && d.committed == c.committed
               else
                 var (inner, e) := Eval(r, body, started);
                 e.tx.Some? && e.committed == c.committed && EndsWhole(r, inner, e, o, d)
  {
    var (begin, started) := BeginStep(c);
    if begin.None? {
      InsideNothingCommits(r, body, started);
      var (inner, e) := Eval(r, body, started);
      EndIsWhole(r, inner, e);
    }
  }

  /** A nested call means the same as its body: inside an open transaction nothing marks its boundary, so
      an inner failure that the outer body goes on from takes back none of the inner writes. */
  lemma {:induction false} NestedIsInlined<S>(r: Rules<S>, p: Program<S>, c: Connection<S>)
    requires c.tx.Some?
    ensures Eval(r, p, c) == Eval(r, Inline(p), c)
    decreases p
  {
    match p
    case Then(first, next) =>
      NestedIsInlined(r, first, c);
      InsideNothingCommits(r, first, c);
      NestedIsInlined(r, next, Eval(r, first, c).1);
    case OrElse(first, other) =>
      NestedIsInlined(r, first, c);
      InsideNothingCommits(r, first, c);
      NestedIsInlined(r, other, Eval(r, first, c).1);
    case Transaction(body) => NestedIsInlined(r, body, c);
    case _ =>
  }

  /** The same program with no transaction inside another: only the outermost calls are left. */
  function Flattened<S>(p: Program<S>): Program<S> {
    match p
    case Then(first, next) => Then(Flattened(first), Flattened(next))
    case OrElse(first, other) => OrElse(Flattened(first), Flattened(other))
    case Transaction(body) => Transaction(Inline(body))
    case _ => p
  }

  /** No `RunInTransaction` inside another. */
  predicate OutermostOnly<S>(p: Program<S>) {
    match p
    case Then(first, next) => OutermostOnly(first) && OutermostOnly(next)
    case OrElse(first, other) => OutermostOnly(first) && OutermostOnly(other)
    case Transaction(body) => NoTransaction(body)
    case _ => true
  }

  lemma {:induction false} FlattenedIsOutermostOnly<S>(p: Program<S>)
    ensures OutermostOnly(Flattened(p))
  {
    match p
    case Then(first, next) => FlattenedIsOutermostOnly(first); FlattenedIsOutermostOnly(next);
    case OrElse(first, other) => FlattenedIsOutermostOnly(first); FlattenedIsOutermostOnly(other);
    case Transaction(body) => InlineHasNoTransaction(body);
    case _ =>
  }

  /** Of every program, on every connection, only the outermost transactions matter. */
  lemma {:induction false} OnlyOutermostMatter<S>(r: Rules<S>, p: Program<S>, c: Connection<S>)
    ensures Eval(r, p, c) == Eval(r, Flattened(p), c)
    decreases p
  {
    match p
    case Then(first, next) =>
      OnlyOutermostMatter(r, first, c);
      OnlyOutermostMatter(r, next, Eval(r, first, c).1);
    case OrElse(first, other) =>
      OnlyOutermostMatter(r, first, c);
      OnlyOutermostMatter(r, other, Eval(r, first, c).1);
    case Transaction(body) =>
      if c.tx.Some? {
        NestedIsInlined(r, body, c);
      } else if BeginStep(c).0.None? {
        NestedIsInlined(r, body, BeginStep(c).1);
      }
    case _ =>
  }

  /** A body that swallows the error of a failed statement still commits nothing, and its caller hears of it. */
  lemma SwallowedFailureCommitsNothing<S>(r: Rules<S>, failing: Program<S>, rest: Program<S>, c: Connection<S>)
    requires c.tx.None? && BeginStep(c).0.None?
    requires var d := Eval(r, failing, BeginStep(c).1).1; d.tx.Some? && d.tx.value.aborted
    ensures var (o, d) := Eval(r, Transaction(OrElse(failing, rest)), c);
            d.committed == c.committed && o != Returned(None)
  {
    var started := BeginStep(c).1;
    InsideNothingCommits(r, failing, started);
    InsideNothingCommits(r, rest, Eval(r, failing, started).1);
    OutermostIsAllOrNothing(r, OrElse(failing, rest), c);
  }

  // ---- the storage object ----

  /** The database handle with the transaction the context carries, if any. */
  class Storage<S> {
    const rules: Rules<S>
    var committed: S
    var tx: Option<Tx<S>>
    var faults: seq<bool>

    constructor (rules: Rules<S>, initial: S, faults: seq<bool>)
      ensures this.rules == rules && Conn() == Connection(initial, None, faults)
    {
      this.rules, this.committed, this.tx, this.faults := rules, initial, None, faults;
    }

    function Conn(): Connection<S>
      reads this
    {
      Connection(committed, tx, faults)
    }

    method Fault() returns (fault: bool)
      modifies this`faults
      ensures (fault, Conn()) == NextFault(old(Conn()))
    {
      if faults == [] {
        return false;
      }
      fault, faults := faults[0], faults[1..];
    }

    method Exec(effect: S -> Option<S>) returns (err: Option<Error>)
      modifies this
      ensures (err, Conn()) == StatementStep(rules, old(Conn()), effect)
    {
      var fault := Fault();
      if tx.Some? {
        var after := effect(tx.value.work);
        if fault || tx.value.aborted {
          tx := Some(tx.value.(aborted := true));
          return Some(Infrastructure);
        }
        if after.None? || !rules.statement(after.value) {
          tx := Some(tx.value.(aborted := true));
          return Some(Constraint);
        }
        tx := Some(Tx(after.value, false));
      } else {
        if fault {
          return Some(Infrastructure);
        }
        var after := effect(committed);
        if after.None? || !rules.statement(after.value) || !rules.commit(after.value) {
          return Some(Constraint);
        }
        committed := after.value;
      }
      return None;
    }

    method Query() returns (err: Option<Error>)
      modifies this
      ensures (err, Conn()) == QueryStep(old(Conn()))
    {
      var fault := Fault();
      if tx.Some? && (fault || tx.value.aborted) {
        tx := Some(tx.value.(aborted := true));
        return Some(Infrastructure);
      }
      return if fault then Some(Infrastructure) else None;
    }

    /** The first half of `RunInTransaction`: joins an open transaction or begins one. */
    method Enter() returns (began: bool, err: Option<Error>)
      modifies this
      ensures began <==> old(tx).None? && err.None?
      ensures if old(tx).Some? then err.None? && Conn() == old(Conn()) else (err, Conn()) == BeginStep(old(Conn()))
    {
      if tx.Some? {
        return false, None;
      }
      var fault := Fault();
      if fault {
        return false, Some(Infrastructure);
      }
      tx := Some(Tx(committed, false));
      return true, None;
    }

    /** The second half: only the call that began the transaction commits or rolls back. */
    method Leave(began: bool, o: Outcome) returns (result: Outcome)
      requires began ==> tx.Some?
      modifies this
      ensures if began then (result, Conn()) == EndStep(rules, old(Conn()), o) else result == o && Conn() == old(Conn())
    {
      if !began {
        return o;
      }
      var fault := Fault();
      var closing := tx.value;
      tx := None;
      match o {
        case Panicking => return if fault then JoinedWithRollback(Panicked) else Returned(Some(Panicked));
        case Returned(Some(e)) => return if fault then JoinedWithRollback(e) else o;
        case JoinedWithRollback(e) => return o;
        case Returned(None) =>
      }
      if fault || closing.aborted {
        return Returned(Some(Infrastructure));
      }
      if !rules.commit(closing.work) {
        return Returned(Some(Constraint));
      }
      committed := closing.work;
      return o;
    }

    /** Runs a program on this storage; it does what `Eval` says. */
    method Run(p: Program<S>) returns (o: Outcome)
      modifies this
      ensures (o, Conn()) == Eval(rules, p, old(Conn()))
      decreases p
    {
      match p
      case Done => o := Returned(None);
      case Fail(e) => o := Returned(Some(e));
      case Panic => o := Panicking;
      case Statement(effect) =>
        var err := Exec(effect);
        o := Returned(err);
      case Then(first, next) =>
        o := Run(first);
        if o == Returned(None) {
          o := Run(next);
        }
      case OrElse(first, other) =>
        o := Run(first);
        if o.Failed() && !o.Panicking? {
          o := Run(other);
        }
      case Transaction(body) =>
        var began, err := Enter();
        if err.Some? {
          return Returned(err);
        }
        ghost var started := Conn();
        o := Run(body);
        InsideNothingCommits(rules, body, started);
        o := Leave(began, o);
    }
  }
}
