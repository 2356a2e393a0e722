/** The error accumulator: appending copies, flattens accumulators and drops nils. */
module ErrKit {
  import opened Basics

  /** Go's `error` values: `Wrapped` has one inner error (and a message of its own), `Joined` several; `Acc` is a
      pointer to an accumulator, which may be nil. */
  datatype ErrorValue =
    | Nil
    | Leaf(code: nat)
    | Wrapped(message: nat, inner: ErrorValue)
    | Joined(errors: seq<ErrorValue>)
    | Acc(ref: Accumulator?)

  // ---- slices ----

  /** A Go slice that starts at the beginning of its backing array; the capacity is the array's length. */
  datatype Slice = Slice(backing: array<ErrorValue>, len: nat) {
    ghost predicate Valid() { len <= backing.Length }

    ghost function Contents(): seq<ErrorValue>
      requires Valid()
      reads backing
    {
      backing[..len]
    }
  }

  method MakeSlice(len: nat, cap: nat) returns (s: Slice)
    requires len <= cap
    ensures s.Valid() && s.len == len && s.backing.Length == cap && fresh(s.backing)
  {
    var backing := new ErrorValue[cap];
    s := Slice(backing, len);
  }

  /** Go's `append`: in place while the capacity lasts, in a larger array otherwise. */
  method AppendSlice(s: Slice, xs: seq<ErrorValue>) returns (t: Slice)
    requires s.Valid()
    modifies s.backing
    ensures t.Valid() && t.Contents() == old(s.Contents()) + xs
    ensures t.backing == s.backing || fresh(t.backing)
  {
    var n := s.len + |xs|;
    var backing := s.backing;
    if n > s.backing.Length {
      backing := new ErrorValue[2 * n];
      forall i | 0 <= i < s.len { backing[i] := s.backing[i]; }
    }
    forall i | 0 <= i < |xs| { backing[s.len + i] := xs[i]; }
    t := Slice(backing, n);
    assert t.Contents()[..s.len] == old(s.Contents());
  }

  // ---- accumulators ----

  /** `members` is what the slice held when the accumulator was handed out; `Valid` says that it still does. */
  class Accumulator {
    const errors: Slice
    const format: Option<nat>
    ghost const members: seq<ErrorValue>

    constructor (errors: Slice, format: Option<nat>)
      requires errors.Valid()
      ensures Valid() && this.errors == errors && this.format == format && members == errors.Contents()
    {
      this.errors, this.format := errors, format;
      members := errors.Contents();
    }

    ghost predicate Valid()
      reads errors.backing
    {
      errors.Valid() && errors.Contents() == members
    }
  }

  /** `errors.AsType[*Error]`: the first accumulator met in a depth-first walk of the wrapped errors. */
  function AsType(e: ErrorValue): (r: Option<Accumulator?>)
    decreases e, if e.Joined? then |e.errors| + 2 else 0
  {
    match e
    case Nil => None
    case Leaf(_) => None
    case Wrapped(_, inner) => AsType(inner)
    case Joined(errors) => AsTypeFrom(e, 0)
    case Acc(ref) => Some(ref)
  }

  function AsTypeFrom(e: ErrorValue, i: nat): Option<Accumulator?>
    requires e.Joined? && i <= |e.errors|
    decreases e, 1 + |e.errors| - i
  {
    if i == |e.errors| then None
    else if AsType(e.errors[i]).Some? then AsType(e.errors[i])
    else AsTypeFrom(e, i + 1)
  }

  /** A nil accumulator has no members. */
  ghost function MembersOf(acc: Accumulator?): seq<ErrorValue> { if acc == null then [] else acc.members }

  /** What an operand adds to the result. */
  ghost function Contribution(e: ErrorValue): seq<ErrorValue> {
    match AsType(e)
    case Some(target) => MembersOf(target)
    case None => if e.Nil? then [] else [e]
  }

  /** What the single kinds of errors add. */
  lemma ContributionByKind(e: ErrorValue)
    ensures e == Nil ==> Contribution(e) == []
    ensures e.Leaf? ==> Contribution(e) == [e]
    ensures e.Acc? ==> Contribution(e) == if e.ref == null then [] else e.ref.members
    ensures e.Wrapped? ==>
              match AsType(e.inner)
              case None => Contribution(e) == [e]
              case Some(acc) => Contribution(e) == if acc == null then [] else acc.members
    ensures e.Joined? && (forall i :: 0 <= i < |e.errors| ==> AsType(e.errors[i]).None?) ==> Contribution(e) == [e]
  {
    if e.Joined? { AsTypeFromFirst(e, 0); }
  }

  lemma {:induction false} AsTypeFromFirst(e: ErrorValue, i: nat)
    requires e.Joined? && i <= |e.errors|
    ensures AsTypeFrom(e, i).None? <==> forall k :: i <= k < |e.errors| ==> AsType(e.errors[k]).None?
    ensures forall k ::
              i <= k < |e.errors| && AsType(e.errors[k]).Some? &&
              (forall j :: i <= j < k ==> AsType(e.errors[j]).None?) ==>
                AsTypeFrom(e, i) == AsType(e.errors[k])
    decreases |e.errors| - i
  {
    if i < |e.errors| { AsTypeFromFirst(e, i + 1); }
  }

  /** Wrapping hides no accumulator, and of joined errors the first that has one decides. */
  lemma AsTypeByKind(e: ErrorValue)
    ensures e == Nil || e.Leaf? ==> AsType(e) == None
    ensures e.Acc? ==> AsType(e) == Some(e.ref)
    ensures e.Wrapped? ==> AsType(e) == AsType(e.inner)
    ensures e.Joined? ==>
              && (AsType(e).None? <==> forall k :: 0 <= k < |e.errors| ==> AsType(e.errors[k]).None?)
              && forall k ::
                   0 <= k < |e.errors| && AsType(e.errors[k]).Some? &&
                   (forall j :: 0 <= j < k ==> AsType(e.errors[j]).None?) ==>
                     AsType(e) == AsType(e.errors[k])
  {
    if e.Joined? { AsTypeFromFirst(e, 0); }
  }

  ghost function Contributions(errs: seq<ErrorValue>): seq<ErrorValue> {
    if errs == [] then [] else Contributions(errs[..|errs| - 1]) + Contribution(errs[|errs| - 1])
  }

  /** The accumulator an operand stands for, if it has one, is among those handed out before. */
  predicate Known(e: ErrorValue, accs: set<Accumulator>) {
    AsType(e).Some? && AsType(e).value != null ==> AsType(e).value in accs
  }

  ghost predicate AllValid(accs: set<Accumulator>)
    reads set a | a in accs :: a.errors.backing
  {
    forall a :: a in accs ==> a.Valid()
  }

  /** The format of the result: that of the first operand's accumulator. */
  function FormatOf(e: ErrorValue): Option<nat> {
    if AsType(e).Some? && AsType(e).value != null then AsType(e).value.format else None
  }

  /** The result is formatted as the accumulator the operand is or has leftmost; without one by default. */
  lemma FormatByOperand(e: ErrorValue)
    ensures AsType(e) == None || AsType(e) == Some(null) ==> FormatOf(e) == None
    ensures AsType(e).Some? && AsType(e).value != null ==> FormatOf(e) == AsType(e).value.format
  {
  }

  lemma ContributionsOfLast(errs: seq<ErrorValue>, e: ErrorValue)
    ensures Contributions(errs + [e]) == Contributions(errs) + Contribution(e)
  {
    assert (errs + [e])[..|errs|] == errs;
  }

  lemma Flatten<T>(a: seq<T>, b: seq<T>, c: seq<T>)
    ensures (a + b) + c == a + (b + c)
  {
  }

  lemma {:induction false} ContributionsOfFirst(e: ErrorValue, errs: seq<ErrorValue>)
    ensures Contributions([e] + errs) == Contribution(e) + Contributions(errs)
  {
    if errs == [] {
      ContributionsOfLast([], e);
      assert [] + [e] == [e] + errs;
    } else {
      var front, last := errs[..|errs| - 1], errs[|errs| - 1];
      assert ([e] + front) + [last] == [e] + errs by { assert front + [last] == errs; }
      assert Contributions([e] + errs) == Contributions([e] + front) + Contribution(last) by {
        ContributionsOfLast([e] + front, last);
      }
      ContributionsOfFirst(e, front);
      Flatten(Contribution(e), Contributions(front), Contribution(last));
    }
  }

  /** No member is nil, is an accumulator or wraps one. */
  predicate FlatList(errs: seq<ErrorValue>) { forall e :: e in errs ==> e != Nil && AsType(e).None? }

  ghost predicate AllFlat(accs: set<Accumulator>) { forall a :: a in accs ==> FlatList(a.members) }

  /** What flat accumulators and other errors are merged into is flat again. */
  lemma {:induction false} ContributionsStayFlat(errs: seq<ErrorValue>, accs: set<Accumulator>)
    requires AllFlat(accs) && forall e :: e in errs ==> Known(e, accs)
    ensures FlatList(Contributions(errs))
  {
    if errs != [] {
      ContributionsStayFlat(errs[..|errs| - 1], accs);
      assert Known(errs[|errs| - 1], accs);
    }
  }

  lemma MergeStaysFlat(err: ErrorValue, errs: seq<ErrorValue>, accs: set<Accumulator>)
    requires Known(err, accs) && forall e :: e in errs ==> Known(e, accs)
    ensures AllFlat(accs) ==> FlatList(Contribution(err) + Contributions(errs))
  {
    if AllFlat(accs) { ContributionsStayFlat(errs, accs); }
  }

  /** `make` and `copy`: a slice of its own with the same contents. */
  method CopySlice(s: Slice) returns (t: Slice)
    requires s.Valid()
    ensures t.Valid() && fresh(t.backing) && t.Contents() == s.Contents()
  {
    t := MakeSlice(s.len, s.len);
    forall i | 0 <= i < s.len { t.backing[i] := s.backing[i]; }
  }

  /** One operand after the first: the members of its accumulator, or itself unless it is nil. */
  method AppendOperand(errors: Slice, e: ErrorValue, ghost accs: set<Accumulator>) returns (longer: Slice)
    requires errors.Valid() && AllValid(accs) && Known(e, accs)
    modifies errors.backing
    ensures longer.Valid() && (longer.backing == errors.backing || fresh(longer.backing))
    ensures longer.Contents() == old(errors.Contents()) + Contribution(e)
  {
    longer := errors;
    var eTarget := AsType(e);
    if eTarget.Some? {
      if eTarget.value != null {
        var slice := eTarget.value.errors;
        longer := AppendSlice(errors, slice.backing[..slice.len]);
      }
    } else if e != Nil {
      longer := AppendSlice(errors, [e]);
    }
  }

  /** `Append`. It modifies nothing that existed before: operands that share their slices with others stay as they
      are. */
  method Append(err: ErrorValue, errs: seq<ErrorValue>, ghost accs: set<Accumulator>) returns (r: Accumulator)
    requires AllValid(accs) && Known(err, accs) && forall e :: e in errs ==> Known(e, accs)
    ensures fresh(r) && fresh(r.errors.backing) && r.Valid()
    ensures AllValid(accs)
    ensures r.members == Contribution(err) + Contributions(errs)
    ensures r.format == FormatOf(err)
    ensures AllFlat(accs) ==> FlatList(r.members)
    decreases if AsType(err).Some? then 0 else 1
  {
    var target := AsType(err);
    if target.Some? {
      var errors := MakeSlice(0, 0);
      var format := None;
      if target.value != null {
        format := target.value.format;
        errors := CopySlice(target.value.errors);
      }
      assert errors.Contents() == Contribution(err);
      errors := AppendOperands(errors, errs, accs);
      r := new Accumulator(errors, format);
      MergeStaysFlat(err, errs, accs);
      return;
    }
    var newErrs := [];
    if err != Nil {
      newErrs := newErrs + [err];
    }
    newErrs := newErrs + errs;
    assert newErrs == if err == Nil then errs else [err] + errs;
    ContributionsOfFirst(err, errs);
    var empty := MakeSlice(0, 0);
    var base := new Accumulator(empty, None);
    assert Contribution(Acc(base)) == [];
    r := Append(Acc(base), newErrs, accs + {base});
  }

  lemma ContributionsUpTo(errs: seq<ErrorValue>, i: nat)
    requires i < |errs|
    ensures Contributions(errs[..i + 1]) == Contributions(errs[..i]) + Contribution(errs[i])
  {
    assert errs[..i + 1][..i] == errs[..i];
  }

  /** The loop of `Append` over its further operands. */
  method AppendOperands(start: Slice, errs: seq<ErrorValue>, ghost accs: set<Accumulator>) returns (errors: Slice)
    requires start.Valid() && AllValid(accs) && forall e :: e in errs ==> Known(e, accs)
    requires forall a :: a in accs ==> a.errors.backing != start.backing
    modifies start.backing
    ensures errors.Valid() && (errors.backing == start.backing || fresh(errors.backing))
    ensures errors.Contents() == old(start.Contents()) + Contributions(errs)
  {
    errors := start;
    for i := 0 to |errs|
      invariant errors.Valid() && (errors.backing == start.backing || fresh(errors.backing))
      invariant errors.Contents() == old(start.Contents()) + Contributions(errs[..i])
      invariant AllValid(accs) && forall a :: a in accs ==> a.errors.backing != errors.backing
    {
      ContributionsUpTo(errs, i);
      Flatten(old(start.Contents()), Contributions(errs[..i]), Contribution(errs[i]));
      assert errs[i] in errs;
      errors := AppendOperand(errors, errs[i], accs);
    }
    assert errs[..|errs|] == errs;
  }

  // ---- what appending guarantees ----

  lemma ContributionsOfOne(e: ErrorValue)
    ensures Contributions([e]) == Contribution(e)
  {
    assert [e][..0] == [];
  }

  /** Two ways to merge three operands: the members come out the same. */
  method AppendAssociates(a: ErrorValue, b: ErrorValue, c: ErrorValue, ghost accs: set<Accumulator>)
    returns (left: Accumulator, right: Accumulator)
    requires AllValid(accs) && Known(a, accs) && Known(b, accs) && Known(c, accs)
    ensures left.members == right.members == Contribution(a) + Contribution(b) + Contribution(c)
    ensures AllValid(accs)
  {
    ContributionsOfOne(b);
    ContributionsOfOne(c);
    var ab := Append(a, [b], accs);
    left := Append(Acc(ab), [c], accs + {ab});
    assert left.members == (Contribution(a) + Contribution(b)) + Contribution(c);
    var bc := Append(b, [c], accs);
    ContributionsOfOne(Acc(bc));
    right := Append(a, [Acc(bc)], accs + {bc});
    assert right.members == Contribution(a) + (Contribution(b) + Contribution(c));
    Flatten(Contribution(a), Contribution(b), Contribution(c));
  }

  /** The errors of a tree that wrap nothing further, from left to right; accumulators are not looked into. */
  function Parts(e: ErrorValue): seq<ErrorValue>
    decreases e, if e.Joined? then |e.errors| + 2 else 0
  {
    match e
    case Nil => []
    case Leaf(_) => [e]
    case Wrapped(_, inner) => Parts(inner)
    case Joined(errors) => PartsFrom(e, 0)
    case Acc(_) => [e]
  }

  function PartsFrom(e: ErrorValue, i: nat): seq<ErrorValue>
    requires e.Joined? && i <= |e.errors|
    decreases e, 1 + |e.errors| - i
  {
    if i == |e.errors| then [] else Parts(e.errors[i]) + PartsFrom(e, i + 1)
  }

  function FirstAccumulator(parts: seq<ErrorValue>): Option<Accumulator?> {
    if parts == [] then None
    else if parts[0].Acc? then Some(parts[0].ref)
    else FirstAccumulator(parts[1..])
  }

  lemma {:induction false} FirstOfBoth(a: seq<ErrorValue>, b: seq<ErrorValue>)
    ensures FirstAccumulator(a + b) == if FirstAccumulator(a).Some? then FirstAccumulator(a) else FirstAccumulator(b)
  {
    if a == [] {
      assert a + b == b;
    } else {
      assert (a + b)[1..] == a[1..] + b;
      FirstOfBoth(a[1..], b);
    }
  }

  /** The walk finds the leftmost accumulator of the tree. */
  lemma {:induction false} AsTypeIsLeftmost(e: ErrorValue)
    ensures AsType(e) == FirstAccumulator(Parts(e))
    decreases e, if e.Joined? then |e.errors| + 2 else 0
  {
    match e
    case Wrapped(_, inner) => AsTypeIsLeftmost(inner);
    case Joined(errors) => AsTypeFromIsLeftmost(e, 0);
    case _ =>
  }

  lemma {:induction false} AsTypeFromIsLeftmost(e: ErrorValue, i: nat)
    requires e.Joined? && i <= |e.errors|
    ensures AsTypeFrom(e, i) == FirstAccumulator(PartsFrom(e, i))
    decreases e, 1 + |e.errors| - i
  {
    if i < |e.errors| {
      AsTypeIsLeftmost(e.errors[i]);
      AsTypeFromIsLeftmost(e, i + 1);
      FirstOfBoth(Parts(e.errors[i]), PartsFrom(e, i + 1));
    }
  }

  /** An operand is kept when it becomes a member itself, or is an accumulator whose members do, in order. */
  ghost predicate Kept(e: ErrorValue) {
    e == Nil || e in Contribution(e) || (e.Acc? && Contribution(e) == MembersOf(e.ref))
  }

  /** Exactly the operands that contain an accumulator without being one are not kept: of those only the members of
      the leftmost accumulator arrive. */
  lemma KeptExactly(e: ErrorValue, accs: set<Accumulator>)
    requires AllFlat(accs) && Known(e, accs)
    ensures Kept(e) <==> e.Acc? || FirstAccumulator(Parts(e)).None?
    ensures FirstAccumulator(Parts(e)).Some? && FirstAccumulator(Parts(e)).value != null ==>
              Contribution(e) == FirstAccumulator(Parts(e)).value.members
  {
    AsTypeIsLeftmost(e);
  }

  /** Joined to an accumulator, an error is lost. */
  lemma JoinedErrorLost(a: Accumulator)
    requires a.members == [Leaf(1)]
    ensures var e := Joined([Acc(a), Leaf(2)]);
            Leaf(2) in Parts(e) && Contribution(e) == [Leaf(1)] && !Kept(e)
  {
    var e := Joined([Acc(a), Leaf(2)]);
    assert PartsFrom(e, 1) == [Leaf(2)] + PartsFrom(e, 2);
    assert PartsFrom(e, 0) == [Acc(a)] + PartsFrom(e, 1);
    assert AsTypeFrom(e, 0) == Some(a);
  }
}
