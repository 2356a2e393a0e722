/** Groups of tasks whose errors are collected: tasks finish in any order, finally functions run once. */
module ErrGroup {
  import opened ErrKit

  /** How a task ends. A panic carries an error or some other value, and becomes an error of its own. */
  datatype Outcome = Returns(err: ErrorValue) | PanicsWith(message: nat, err: ErrorValue) | Panics(code: nat)

  function ErrorOf(o: Outcome): ErrorValue {
    match o
    case Returns(err) => err
    case PanicsWith(message, err) => Wrapped(message, err)
    case Panics(code) => Leaf(code)
  }

  /** The members that errors still to be added will bring. */
  ghost function Due(errs: seq<ErrorValue>): multiset<ErrorValue> {
    if errs == [] then multiset{} else Due(errs[..|errs| - 1]) + multiset(Contribution(errs[|errs| - 1]))
  }

  predicate AnyError(errs: seq<ErrorValue>) { exists e :: e in errs && e != Nil }

  lemma DueOfLast(errs: seq<ErrorValue>, e: ErrorValue)
    ensures Due(errs + [e]) == Due(errs) + multiset(Contribution(e))
  {
    assert (errs + [e])[..|errs|] == errs;
  }

  lemma LastMoves<T>(a: multiset<T>, b: multiset<T>, c: multiset<T>)
    ensures (a + b) + c == (a + c) + b
  {
  }

  lemma WithoutOne<T>(s: seq<T>, k: nat)
    requires k < |s|
    ensures var front, last := s[..|s| - 1], s[|s| - 1];
            s[..k] + s[k + 1..] == if k == |front| then front else (front[..k] + front[k + 1..]) + [last]
  {
  }

  lemma Regroup<T>(a: multiset<T>, b: multiset<T>, c: multiset<T>)
    ensures a + (b + c) == (a + b) + c
  {
  }

  lemma {:induction false} DueWithout(errs: seq<ErrorValue>, k: nat)
    requires k < |errs|
    ensures Due(errs) == Due(errs[..k] + errs[k + 1..]) + multiset(Contribution(errs[k]))
  {
    var front, last := errs[..|errs| - 1], errs[|errs| - 1];
    WithoutOne(errs, k);
    if k < |front| {
      var without := front[..k] + front[k + 1..];
      DueWithout(front, k);
      DueOfLast(without, last);
      LastMoves(Due(without), multiset(Contribution(errs[k])), multiset(Contribution(last)));
    }
  }

  predicate AllKnown(errs: seq<ErrorValue>, accs: set<Accumulator>) { forall e :: e in errs ==> Known(e, accs) }

  lemma AnyOfLast(errs: seq<ErrorValue>, e: ErrorValue)
    ensures AnyError(errs + [e]) <==> AnyError(errs) || e != Nil
  {
    if AnyError(errs) {
      var x :| x in errs && x != Nil;
      assert x in errs + [e];
    }
    assert e in errs + [e];
  }

  lemma AnyWithout(errs: seq<ErrorValue>, k: nat)
    requires k < |errs|
    ensures AnyError(errs) <==> AnyError(errs[..k] + errs[k + 1..]) || errs[k] != Nil
  {
    var without := errs[..k] + errs[k + 1..];
    assert errs[k] in errs;
    forall e ensures e in errs <==> e in without || e == errs[k] {
      if e in errs && e != errs[k] {
        var i :| 0 <= i < |errs| && errs[i] == e;
        assert without[if i < k then i else i - 1] == e;
      }
    }
  }

  // ---- the books ----

  /** Nothing submitted is lost or doubled: it is a member already or will become one. */
  ghost predicate Balanced(members: seq<ErrorValue>, running: seq<ErrorValue>, finals: seq<ErrorValue>,
                           submitted: multiset<ErrorValue>)
  {
    submitted == multiset(members) + Due(running) + Due(finals)
  }

  lemma AddBalances(members: seq<ErrorValue>, running: seq<ErrorValue>, finals: seq<ErrorValue>,
                    submitted: multiset<ErrorValue>, more: seq<ErrorValue>)
    requires Balanced(members, running, finals, submitted)
    ensures Balanced(members + more, running, finals, submitted + multiset(more))
  {
    var m, r, f, x := multiset(members), Due(running), Due(finals), multiset(more);
    assert multiset(members + more) == m + x;
    LastMoves(m + r, f, x);
    LastMoves(m, r, x);
  }

  lemma GoBalances(members: seq<ErrorValue>, running: seq<ErrorValue>, finals: seq<ErrorValue>,
                   submitted: multiset<ErrorValue>, e: ErrorValue)
    requires Balanced(members, running, finals, submitted)
    ensures Balanced(members, running + [e], finals, submitted + multiset(Contribution(e)))
    ensures Balanced(members, running, finals + [e], submitted + multiset(Contribution(e)))
  {
    var m, r, f, x := multiset(members), Due(running), Due(finals), multiset(Contribution(e));
    DueOfLast(running, e);
    DueOfLast(finals, e);
    LastMoves(m + r, f, x);
    Regroup(m, r, x);
    Regroup(m + r, f, x);
  }

  lemma CompleteBalances(members: seq<ErrorValue>, running: seq<ErrorValue>, finals: seq<ErrorValue>,
                         submitted: multiset<ErrorValue>, k: nat)
    requires Balanced(members, running, finals, submitted) && k < |running|
    ensures Balanced(members + Contribution(running[k]), running[..k] + running[k + 1..], finals, submitted)
  {
    var m, r, f, x :=
      multiset(members), Due(running[..k] + running[k + 1..]), Due(finals), multiset(Contribution(running[k]));
    DueWithout(running, k);
    assert multiset(members + Contribution(running[k])) == m + x;
    Regroup(m, r, x);
    LastMoves(m, r, x);
  }

  lemma FinalBalances(members: seq<ErrorValue>, finals: seq<ErrorValue>, submitted: multiset<ErrorValue>)
    requires Balanced(members, [], finals, submitted) && finals != []
    ensures Balanced(members + Contribution(finals[0]), [], finals[1..], submitted)
  {
    var m, f, x := multiset(members), Due(finals[1..]), multiset(Contribution(finals[0]));
    DueWithout(finals, 0);
    assert finals[..0] + finals[1..] == finals[1..];
    assert multiset(members + Contribution(finals[0])) == m + x;
    Regroup(m, f, x);
    LastMoves(m, f, x);
  }

  /** `members` collected so far, `some` whether there is an accumulator yet, what is `running` and which `finals`
      are registered, the accumulators known, every member ever `submitted`, and whether any error was. */
  datatype Books = Books(
    members: seq<ErrorValue>, some: bool, running: seq<ErrorValue>, finals: seq<ErrorValue>,
    accs: set<Accumulator>, submitted: multiset<ErrorValue>, failed: bool)

  ghost predicate InOrder(b: Books) {
    && AllKnown(b.running, b.accs) && AllKnown(b.finals, b.accs)
    && Balanced(b.members, b.running, b.finals, b.submitted)
    && (b.failed <==> b.some || AnyError(b.running) || AnyError(b.finals))
  }

  /** An error is submitted: it is due now, or once a task or a finally function has ended. */
  ghost function Submitting(b: Books, e: ErrorValue, more: set<Accumulator>): Books {
    b.(accs := b.accs + more, submitted := b.submitted + multiset(Contribution(e)), failed := b.failed || e != Nil)
  }

  /** An error that was due becomes members. */
  ghost function Collecting(b: Books, e: ErrorValue, more: set<Accumulator>): Books {
    b.(accs := b.accs + more, members := b.members + Contribution(e), some := b.some || e != Nil)
  }

  ghost function Adding(b: Books, e: ErrorValue, more: set<Accumulator>): Books {
    Submitting(b, e, more).(members := b.members + Contribution(e), some := b.some || e != Nil)
  }

  lemma AddInOrder(b: Books, e: ErrorValue, more: set<Accumulator>)
    requires InOrder(b)
    ensures InOrder(Adding(b, e, more))
  {
    AddBalances(b.members, b.running, b.finals, b.submitted, Contribution(e));
  }

  lemma KnownGrows(errs: seq<ErrorValue>, e: ErrorValue, accs: set<Accumulator>, more: set<Accumulator>)
    requires AllKnown(errs, accs)
    ensures AllKnown(errs, accs + more) && (Known(e, more) ==> AllKnown(errs + [e], accs + more))
  {
    forall x | x in errs ensures Known(x, accs + more) { assert Known(x, accs); }
  }

  lemma GoInOrder(b: Books, e: ErrorValue, more: set<Accumulator>)
    requires InOrder(b) && Known(e, more)
    ensures InOrder(Submitting(b, e, more).(running := b.running + [e]))
  {
    assert Balanced(b.members, b.running + [e], b.finals, b.submitted + multiset(Contribution(e))) by {
      GoBalances(b.members, b.running, b.finals, b.submitted, e);
    }
    AnyOfLast(b.running, e);
    KnownGrows(b.running, e, b.accs, more);
    KnownGrows(b.finals, e, b.accs, more);
  }

  lemma FinallyInOrder(b: Books, f: ErrorValue, more: set<Accumulator>)
    requires InOrder(b) && Known(f, more)
    ensures InOrder(Submitting(b, f, more).(finals := b.finals + [f]))
  {
    assert Balanced(b.members, b.running, b.finals + [f], b.submitted + multiset(Contribution(f))) by {
      GoBalances(b.members, b.running, b.finals, b.submitted, f);
    }
    AnyOfLast(b.finals, f);
    KnownGrows(b.running, f, b.accs, more);
    KnownGrows(b.finals, f, b.accs, more);
  }

  lemma KnownWithout(errs: seq<ErrorValue>, k: nat, accs: set<Accumulator>, more: set<Accumulator>)
    requires AllKnown(errs, accs) && k < |errs|
    ensures AllKnown(errs[..k] + errs[k + 1..], accs + more)
  {
    forall e | e in errs[..k] + errs[k + 1..] ensures Known(e, accs + more) { assert e in errs && Known(e, accs); }
  }

  lemma CompleteInOrder(b: Books, k: nat, more: set<Accumulator>)
    requires InOrder(b) && k < |b.running|
    ensures InOrder(Collecting(b, b.running[k], more).(running := b.running[..k] + b.running[k + 1..]))
  {
    var rest := b.running[..k] + b.running[k + 1..];
    assert Balanced(b.members + Contribution(b.running[k]), rest, b.finals, b.submitted) by {
      CompleteBalances(b.members, b.running, b.finals, b.submitted, k);
    }
    KnownGrows(b.finals, b.running[k], b.accs, more);
    AnyWithout(b.running, k);
    KnownWithout(b.running, k, b.accs, more);
  }

  lemma FirstGone(errs: seq<ErrorValue>, accs: set<Accumulator>, more: set<Accumulator>)
    requires AllKnown(errs, accs) && errs != []
    ensures AllKnown(errs[1..], accs + more) && (AnyError(errs) <==> AnyError(errs[1..]) || errs[0] != Nil)
  {
    assert errs[..0] + errs[1..] == errs[1..];
    AnyWithout(errs, 0);
    KnownWithout(errs, 0, accs, more);
  }

  lemma FinalInOrder(b: Books, more: set<Accumulator>)
    requires InOrder(b) && b.running == [] && b.finals != []
    ensures InOrder(Collecting(b, b.finals[0], more).(finals := b.finals[1..]))
  {
    assert Balanced(b.members + Contribution(b.finals[0]), [], b.finals[1..], b.submitted) by {
      FinalBalances(b.members, b.finals, b.submitted);
    }
    FirstGone(b.finals, b.accs, more);
  }

  lemma AllCollected(b: Books)
    requires InOrder(b) && b.running == [] && b.finals == []
    ensures multiset(b.members) == b.submitted && b.some == b.failed
  {
  }

  /** `running` are the started tasks not yet finished, by the error each will end with (nil for none); `finals` what
      the registered finally functions will return. The books are what the caller reasons with. */
  class Group {
    var err: Accumulator?
    var running: seq<ErrorValue>
    var finals: seq<ErrorValue>
    ghost var books: Books

    constructor ()
      ensures Valid() && books == Books([], false, [], [], {}, multiset{}, false)
    {
      err, running, finals := null, [], [];
      books := Books([], false, [], [], {}, multiset{}, false);
    }

    /** Every accumulator is intact and the books are in order and true of the fields. */
    ghost predicate Valid()
      reads this, set a | a in books.accs :: a.errors.backing
    {
      Consistent() && books.running == running && books.finals == finals
    }

    ghost predicate Consistent()
      reads this, set a | a in books.accs :: a.errors.backing
    {
      && AllValid(books.accs) && (err != null ==> err in books.accs)
      && books.members == MembersOf(err) && books.some == (err != null)
      && InOrder(books)
    }

    /** The assignment of `Add`: nil is ignored, anything else appended. */
    method Collect(e: ErrorValue) returns (ghost more: set<Accumulator>)
      requires AllValid(books.accs) && (err != null ==> err in books.accs) && Known(e, books.accs)
      modifies this`err
      ensures AllValid(books.accs + more) && (err != null ==> err in books.accs + more)
      ensures MembersOf(err) == MembersOf(old(err)) + Contribution(e)
      ensures (err != null) == (old(err) != null || e != Nil)
      ensures e == Nil ==> err == old(err)
    {
      more := {};
      if e == Nil {
        return;
      }
      ContributionsOfOne(e);
      var merged := Append(Acc(err), [e], books.accs);
      more := {merged};
      assert AllValid(books.accs + more);
      err := merged;
    }

    /** The books become `b`, which is in order and true of the fields. */
    ghost method Record(b: Books)
      requires InOrder(b) && b.running == running && b.finals == finals
      requires AllValid(b.accs) && (err != null ==> err in b.accs)
      requires b.members == MembersOf(err) && b.some == (err != null)
      modifies this`books
      ensures Valid() && books == b
    {
      books := b;
    }

    /** `Add`. */
    method Add(e: ErrorValue) returns (ghost more: set<Accumulator>)
      requires Valid() && Known(e, books.accs)
      modifies this`err, this`books
      ensures Valid()
      ensures books == Adding(old(books), e, more)
      ensures e == Nil ==> err == old(err)
    {
      more := Collect(e);
      ghost var after := Adding(books, e, more);
      assert InOrder(after) by { AddInOrder(books, e, more); }
      Record(after);
    }

    /** `Go`: the function runs from now on; what it will end with is not known yet. */
    method Go(task: Outcome, ghost known: set<Accumulator>)
      requires Valid() && AllValid(known) && Known(ErrorOf(task), known)
      modifies this`running, this`books
      ensures Valid()
      ensures books == Submitting(old(books), ErrorOf(task), known).(running := old(books.running) + [ErrorOf(task)])
      ensures old(books.submitted) <= books.submitted && books.failed == (old(books.failed) || task != Returns(Nil))
      ensures task.Panics? ==> books.submitted == old(books.submitted) + multiset{Leaf(task.code)}
      ensures task.PanicsWith? && AsType(task.err).None? ==>
                books.submitted == old(books.submitted) + multiset{Wrapped(task.message, task.err)}
      ensures task.PanicsWith? && AsType(task.err).Some? ==>
                var acc := AsType(task.err).value;
                books.submitted == old(books.submitted) + if acc == null then multiset{} else multiset(acc.members)
      ensures task.Returns? && task.err != Nil && AsType(task.err).None? ==>
                books.submitted == old(books.submitted) + multiset{task.err}
      ensures task == Returns(Nil) ==> books.submitted == old(books.submitted)
    {
      ContributionByKind(ErrorOf(task));
      AsTypeByKind(ErrorOf(task));
      var e := ErrorOf(task);
      running := running + [e];
      ghost var after := Submitting(books, e, known).(running := books.running + [e]);
      assert InOrder(after) by { GoInOrder(books, e, known); }
      Record(after);
    }

    /** `Finally`. */
    method Finally(f: ErrorValue, ghost known: set<Accumulator>)
      requires Valid() && AllValid(known) && Known(f, known)
      modifies this`finals, this`books
      ensures Valid()
      ensures books == Submitting(old(books), f, known).(finals := old(books.finals) + [f])
    {
      finals := finals + [f];
      ghost var after := Submitting(books, f, known).(finals := books.finals + [f]);
      assert InOrder(after) by { FinallyInOrder(books, f, known); }
      Record(after);
    }

    /** Some running task ends, any of them: its error, if it is one, is added under the mutex. */
    method Complete(k: nat) returns (ghost more: set<Accumulator>)
      requires Valid() && k < |running|
      modifies this`err, this`running, this`books
      ensures Valid()
      ensures books == Collecting(old(books), old(running[k]), more).(running := old(running[..k] + running[k + 1..]))
    {
      var e := running[k];
      assert Known(e, books.accs);
      running := running[..k] + running[k + 1..];
      more := Collect(e);
      ghost var after := Collecting(books, e, more).(running := running);
      assert InOrder(after) by { CompleteInOrder(books, k, more); }
      Record(after);
    }

    /** `Wait`: the tasks still running end in an order nobody chooses, then the finally functions run, each once. The
        result holds exactly what was submitted, and is nil exactly if no error value ever was. Waiting again changes
        nothing. */
    method Wait() returns (r: Accumulator?)
      requires Valid()
      modifies this`err, this`running, this`finals, this`books
      ensures Valid() && running == [] && finals == []
      ensures books.submitted == old(books.submitted) && books.failed == old(books.failed)
      ensures r == err && (r != null <==> books.failed)
      ensures books.submitted == if r == null then multiset{} else multiset(r.members)
      ensures old(running) == [] && old(finals) == [] ==> r == old(err)
    {
      while running != []
        modifies this`err, this`running, this`books
        invariant Valid() && books.submitted == old(books.submitted) && books.failed == old(books.failed)
        invariant finals == old(finals)
        invariant old(running) == [] ==> running == [] && err == old(err)
        decreases |running|
      {
        var k: nat :| k < |running|;
        ghost var _ := Complete(k);
      }
      RunFinals();
      AllCollected(books);
      r := err;
    }

    method RunFinal(f: ErrorValue)
      requires Consistent() && books.running == [] && books.finals != [] && books.finals[0] == f
      modifies this`err, this`books
      ensures Consistent() && books.running == [] && books.finals == old(books.finals[1..])
      ensures books.submitted == old(books.submitted) && books.failed == old(books.failed)
    {
      assert Known(f, books.accs);
      ghost var more := Collect(f);
      FinalInOrder(books, more);
      books := Collecting(books, f, more).(finals := books.finals[1..]);
    }

    method RunFinals()
      requires Valid() && running == []
      modifies this`err, this`finals, this`books
      ensures Valid() && finals == []
      ensures books.submitted == old(books.submitted) && books.failed == old(books.failed)
      ensures old(finals) == [] ==> err == old(err)
    {
      var funcs := finals;
      finals := [];
      for i := 0 to |funcs|
        modifies this`err, this`books
        invariant Consistent() && books.running == [] && books.finals == funcs[i..]
        invariant books.submitted == old(books.submitted) && books.failed == old(books.failed)
        invariant i == 0 ==> err == old(err)
      {
        assert funcs[i..][1..] == funcs[i + 1..];
        RunFinal(funcs[i]);
      }
    }
  }

  /** What the tasks panicked with is among the members submitted, as often as they did. */
  predicate PanicsSubmitted(tasks: multiset<Outcome>, submitted: multiset<ErrorValue>) {
    forall t :: t in tasks ==>
      && (t.Panics? ==> tasks[t] <= submitted[Leaf(t.code)])
      && (t.PanicsWith? && AsType(t.err).None? ==> tasks[t] <= submitted[Wrapped(t.message, t.err)])
  }

  lemma OneMoreSubmitted(tasks: multiset<Outcome>, t: Outcome, before: multiset<ErrorValue>,
                         after: multiset<ErrorValue>)
    requires PanicsSubmitted(tasks, before) && before <= after
    requires t.Panics? ==> after == before + multiset{Leaf(t.code)}
    requires t.PanicsWith? && AsType(t.err).None? ==> after == before + multiset{Wrapped(t.message, t.err)}
    ensures PanicsSubmitted(tasks + multiset{t}, after)
  {
    assert forall e :: e in before ==> before[e] <= after[e];
  }

  predicate AllNil(tasks: seq<Outcome>) { forall t :: t in tasks ==> t == Returns(Nil) }

  lemma AllNilOneMore(tasks: seq<Outcome>, i: nat)
    requires i < |tasks|
    ensures AllNil(tasks[..i + 1]) <==> AllNil(tasks[..i]) && tasks[i] == Returns(Nil)
    ensures multiset(tasks[..i + 1]) == multiset(tasks[..i]) + multiset{tasks[i]}
  {
    assert tasks[..i + 1] == tasks[..i] + [tasks[i]];
    assert forall t :: t in tasks[..i] ==> t in tasks[..i + 1];
    assert tasks[i] in tasks[..i + 1];
  }

  method StartOne(g: Group, task: Outcome, ghost started: multiset<Outcome>, ghost known: set<Accumulator>)
    requires g.Valid() && PanicsSubmitted(started, g.books.submitted) && AllValid(known) && Known(ErrorOf(task), known)
    modifies g`running, g`books
    ensures g.Valid() && PanicsSubmitted(started + multiset{task}, g.books.submitted)
    ensures g.books.failed == (old(g.books.failed) || task != Returns(Nil))
  {
    ghost var before := g.books.submitted;
    g.Go(task, known);
    OneMoreSubmitted(started, task, before, g.books.submitted);
  }

  method StartAll(g: Group, tasks: seq<Outcome>, ghost known: set<Accumulator>)
    requires g.Valid() && g.books.submitted == multiset{} && !g.books.failed
    requires AllValid(known) && forall t :: t in tasks ==> Known(ErrorOf(t), known)
    modifies g`running, g`books
    ensures g.Valid() && PanicsSubmitted(multiset(tasks), g.books.submitted)
    ensures !g.books.failed <==> AllNil(tasks)
  {
    for i := 0 to |tasks|
      invariant g.Valid() && PanicsSubmitted(multiset(tasks[..i]), g.books.submitted)
      invariant !g.books.failed <==> AllNil(tasks[..i])
    {
      AllNilOneMore(tasks, i);
      StartOne(g, tasks[i], multiset(tasks[..i]), known);
    }
    assert tasks[..|tasks|] == tasks;
  }

  /** Running tasks as one group: if any of them panicked, or returned an error, the result is not nil, and what each of
      them panicked with is among its members, once for every such task. */
  method RunAll(tasks: seq<Outcome>, ghost known: set<Accumulator>) returns (r: Accumulator?)
    requires AllValid(known) && forall t :: t in tasks ==> Known(ErrorOf(t), known)
    ensures r == null <==> forall t :: t in tasks ==> t == Returns(Nil)
    ensures forall t :: t in tasks && t.Panics? ==>
              r != null && multiset(tasks)[t] <= multiset(r.members)[Leaf(t.code)]
    ensures forall t :: t in tasks && t.PanicsWith? && AsType(t.err).None? ==>
              r != null && multiset(tasks)[t] <= multiset(r.members)[Wrapped(t.message, t.err)]
  {
    var g := new Group();
    StartAll(g, tasks, known);
    r := g.Wait();
    assert forall t :: t in tasks ==> t in multiset(tasks);
  }

  /** A task that returns a nil accumulator fails its group without any member to show for it. */
  method NilAccumulatorFailsGroup() returns (r: Accumulator?)
    ensures r != null && r.members == []
  {
    var g := new Group();
    g.Go(Returns(Acc(null)), {});
    assert g.books.submitted == multiset{};
    r := g.Wait();
    assert |multiset(r.members)| == 0;
  }
}
