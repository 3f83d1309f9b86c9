/**
 The tagged union with a valueless state: how the target alternative of a construction or an
 assignment is found, and the lifetime of the object in the union when constructors and assignments
 may throw.
 */
module Enum {
  import opened Options

  /** What matters about an alternative type. */
  datatype Alternative = Alternative(isNone: bool, nontrivial: bool, defaultConstructible: bool)

  // ---------------------------------------------------------------------------------------------
  // Selection

  /** `check_constructible` and `check_assignable`, from alternative `index` on: `fits[i]` says that
      alternative i can be constructed, or assigned, from the argument. */
  function FirstFit(alts: seq<Alternative>, fits: seq<bool>, index: nat): (bool, nat)
    requires index < |alts| == |fits|
    decreases |alts| - index
  {
    if fits[index] then (true, index)
    else if index + 1 < |alts| && !alts[index + 1].isNone then FirstFit(alts, fits, index + 1)
    else (false, |alts|)
  }

  /** No None alternative stops a search from `index` on the way to `i`. */
  predicate Reachable(alts: seq<Alternative>, index: nat, i: nat)
    requires i < |alts|
  {
    forall j :: index < j <= i ==> !alts[j].isNone
  }

  /** The search returns the least fitting alternative among the reachable ones, and fails only if
      there is none. */
  lemma {:induction false} FirstFitIsLeast(alts: seq<Alternative>, fits: seq<bool>, index: nat)
    requires index < |alts| == |fits|
    ensures var (found, i) := FirstFit(alts, fits, index);
            if found then
              && index <= i < |alts| && fits[i] && Reachable(alts, index, i)
              && (forall j :: index <= j < i ==> !fits[j])
            else
              i == |alts| && forall j :: index <= j < |alts| && Reachable(alts, index, j) ==> !fits[j]
    decreases |alts| - index
  {
    if !fits[index] && index + 1 < |alts| && !alts[index + 1].isNone {
      FirstFitIsLeast(alts, fits, index + 1);
      forall j | index < j < |alts| && Reachable(alts, index, j) ensures Reachable(alts, index + 1, j) {}
    }
  }

  /** Copying an `Enum` whose alternative `active` is live searches with the constructors that take
      the active type. It keeps the alternative exactly when no None comes before it and no earlier
      alternative can be constructed from its type. */
  lemma {:induction false} CopyKeepsAlternativeIff(alts: seq<Alternative>, fromActive: seq<bool>, active: nat)
    requires active < |alts| == |fromActive| && fromActive[active]
    ensures FirstFit(alts, fromActive, 0) == (true, active)
       <==> Reachable(alts, 0, active) && forall j :: 0 <= j < active ==> !fromActive[j]
  {
    FirstFitIsLeast(alts, fromActive, 0);
  }

  // ---------------------------------------------------------------------------------------------
  // Lifetime

  /** An object in the union: the alternative it was constructed as, and its number. */
  datatype Object = Object(alt: nat, id: nat)

  datatype Outcome = Returned | Threw

  /** A call: `emplace<n>`, or assignment of a value whose search ended at `target`. */
  datatype Op =
    | Emplace(n: nat, constructorThrows: bool)
    | Assign(target: nat, constructible: bool, constructorThrows: bool, assignmentThrows: bool)

  ghost predicate NoDuplicates(s: seq<nat>) {
    forall i, j :: 0 <= i < j < |s| ==> s[i] != s[j]
  }

  /** The target of an assignment can be brought to life: constructible from the value, or by default. */
  predicate CanBeBorn(alts: seq<Alternative>, op: Op) {
    match op
    case Emplace(n, _) => n < |alts|
    case Assign(t, constructible, _, _) => t < |alts| && (constructible || alts[t].defaultConstructible)
  }

  /** Whether an assignment from a state with the given index gets as far as assigning to the member. */
  predicate Assigns(alts: seq<Alternative>, index: nat, op: Op)
    requires op.Assign? && op.target < |alts|
  {
    index == op.target || (!op.constructible && !(alts[op.target].defaultConstructible && op.constructorThrows))
  }

  predicate Throws(alts: seq<Alternative>, index: nat, op: Op) {
    match op
    case Emplace(_, throws) => throws
    case Assign(t, _, constructorThrows, assignmentThrows) =>
      || (index != t && CanBeBorn(alts, op) && constructorThrows)
      || (t < |alts| && assignmentThrows && Assigns(alts, index, op))
  }

  /** What a call changes: the index, the object in storage, and the history of objects made and of
      objects whose destructor was called. */
  datatype Snapshot = Snapshot(index: nat, storage: Option<Object>, created: seq<nat>, destroyed: seq<nat>)

  /** The object a call that changes the alternative destroys first, if it has a destructor to call. */
  function Retired(alts: seq<Alternative>, s: Snapshot): seq<nat> {
    if s.index < |alts| && alts[s.index].nontrivial && s.storage.Some? then [s.storage.value.id] else []
  }

  /** Whether a call makes a new object. */
  predicate Makes(alts: seq<Alternative>, index: nat, op: Op) {
    CanBeBorn(alts, op) && !op.constructorThrows && (op.Emplace? || op.target != index)
  }

  function TargetOf(op: Op): nat {
    if op.Emplace? then op.n else op.target
  }

  /** The state after a call. An assignment to the active alternative keeps the object; any other call
      retires the active one and makes at most one new object. A throwing call leaves the Enum
      valueless; a valueless Enum retires nothing, so what a throwing assignment left stays. */
  function After(alts: seq<Alternative>, s: Snapshot, op: Op): Snapshot {
    var index := if Throws(alts, s.index, op) then |alts| else TargetOf(op);
    if op.Assign? && op.target == s.index then s.(index := index)
    else if Makes(alts, s.index, op) then
      Snapshot(index, Some(Object(TargetOf(op), |s.created|)), s.created + [TargetOf(op)],
               s.destroyed + Retired(alts, s))
    else
      Snapshot(index, if CanBeBorn(alts, op) || s.index < |alts| then None else s.storage, s.created,
               s.destroyed + Retired(alts, s))
  }

  function AfterAll(alts: seq<Alternative>, s: Snapshot, ops: seq<Op>): Snapshot
    decreases |ops|
  {
    if ops == [] then s else AfterAll(alts, After(alts, s, ops[0]), ops[1..])
  }

  /** A call that finds or makes a live member to act on: its target can be brought to life, or it
      assigns to the alternative of the object in storage. */
  predicate Grounded(alts: seq<Alternative>, storage: Option<Object>, op: Op) {
    CanBeBorn(alts, op) || (op.Assign? && op.target < |alts| && storage.Some? && storage.value.alt == op.target)
  }

  predicate GroundedAll(alts: seq<Alternative>, s: Snapshot, ops: seq<Op>)
    decreases |ops|
  {
    ops == [] || (Grounded(alts, s.storage, ops[0]) && GroundedAll(alts, After(alts, s, ops[0]), ops[1..]))
  }

  predicate ThrowsInAssignment(op: Op) {
    op.Assign? && op.assignmentThrows
  }

  class Enum {
    const alts: seq<Alternative>
    var index: nat
    var storage: Option<Object>
    // History: the alternative of every object ever constructed, by number; the objects whose
    // destructor was called, in order; and the destructor calls and assignments on a member that was
    // not alive.
    var created: seq<nat>
    var destroyed: seq<nat>
    var faults: nat

    /** An index below the number of alternatives names a live member, no object was destroyed
        twice, and no call touched a member that was not alive. */
    ghost predicate Valid()
      reads this
    {
      && faults == 0 && index <= |alts|
      && (index < |alts| ==> storage.Some? && storage.value.alt == index)
      && (storage.Some? ==> storage.value.id < |created| && created[storage.value.id] == storage.value.alt)
      && (storage.Some? ==> storage.value.id !in destroyed)
      && (forall id :: id in destroyed ==> id < |created|)
      && (forall a :: a in created ==> a < |alts|)
      && NoDuplicates(destroyed)
    }

    /** Every object with a destructor to call has had it called, or is the live member the index names. */
    ghost predicate Tidy()
      reads this
    {
      && (index >= |alts| ==> storage.None?)
      && forall id :: 0 <= id < |created| && created[id] < |alts| && alts[created[id]].nontrivial
                      && id !in destroyed ==>
           storage.Some? && storage.value.id == id
    }

    ghost function State(): Snapshot
      reads this
    {
      Snapshot(index, storage, created, destroyed)
    }

    /** A fresh, valueless union. */
    constructor (alts: seq<Alternative>)
      ensures this.alts == alts && Valid() && Tidy() && created == [] && index == |alts|
    {
      this.alts := alts;
      index := |alts|;
      storage := None;
      created, destroyed, faults := [], [], 0;
    }

    /** The copy constructor, for constructors that do not throw. `fromActive[i]` says that alternative
        i is constructible from the type of the source's live member; the search must succeed, or the
        program does not compile. */
    constructor Copy(source: Enum, fromActive: seq<bool>)
      requires source.Valid()
      requires source.index < |source.alts| ==> |fromActive| == |source.alts| && fromActive[source.index]
      requires source.index < |source.alts| ==> FirstFit(source.alts, fromActive, 0).0
      ensures alts == source.alts && Valid() && Tidy()
      ensures source.index == |source.alts| ==> index == |alts|
      ensures source.index == |source.alts| ==> created == []
      ensures source.index < |source.alts| ==>
                && index < |alts| && fromActive[index] && Reachable(alts, 0, index)
                && (forall j :: 0 <= j < index ==> !fromActive[j])
                && created == [index] && storage == Some(Object(index, 0))
      ensures destroyed == []
      ensures source.index < |source.alts| ==>
                (index == source.index <==>
                 Reachable(alts, 0, source.index) && forall j :: 0 <= j < source.index ==> !fromActive[j])
    {
      alts := source.alts;
      index := |source.alts|;
      storage := None;
      created, destroyed, faults := [], [], 0;
      new;
      if source.index != |source.alts| {
        FirstFitIsLeast(alts, fromActive, 0);
        CopyKeepsAlternativeIff(alts, fromActive, source.index);
        var _ := Construct(FirstFit(alts, fromActive, 0).1, false);
      }
    }

    /** The destructor call on member `alt`, alive or not. */
    method CallDestructor(alt: nat)
      modifies this`destroyed, this`faults
      ensures storage.Some? && storage.value.alt == alt ==>
                destroyed == old(destroyed) + [storage.value.id] && faults == old(faults)
      ensures !(storage.Some? && storage.value.alt == alt) ==> destroyed == old(destroyed) && faults == old(faults) + 1
    {
      if storage.Some? && storage.value.alt == alt {
        destroyed := destroyed + [storage.value.id];
      } else {
        faults := faults + 1;
      }
    }

    /** `destruct`: calls the destructor of the named member if its type has one worth calling. */
    method Destruct()
      requires Valid()
      modifies this`index, this`storage, this`destroyed, this`faults
      ensures Valid() && index == |alts|
      ensures old(index) < |alts| ==> storage.None?
      ensures old(index) == |alts| ==> storage == old(storage)
      ensures destroyed == old(destroyed)
              + if old(index) < |alts| && alts[old(index)].nontrivial then [old(storage).value.id] else []
      ensures old(Tidy()) ==> Tidy()
    {
      if index != |alts| {
        if alts[index].nontrivial {
          CallDestructor(index);
        }
        storage := None;
        index := |alts|;
      }
    }

    /** `construct_at`: reuses the storage, whatever was there; a throwing constructor leaves no object. */
    method ConstructAt(alt: nat, throws: bool) returns (outcome: Outcome)
      requires alt < |alts|
      modifies this`storage, this`created
      ensures outcome == if throws then Threw else Returned
      ensures throws ==> storage.None? && created == old(created)
      ensures !throws ==> storage == Some(Object(alt, |old(created)|)) && created == old(created) + [alt]
    {
      if throws {
        storage := None;
        return Threw;
      }
      storage := Some(Object(alt, |created|));
      created := created + [alt];
      return Returned;
    }

    /** `construct<n, true>` */
    method Construct(n: nat, throws: bool) returns (outcome: Outcome)
      requires Valid() && n < |alts|
      modifies this
      ensures Valid() && (old(Tidy()) ==> Tidy())
      ensures outcome == if throws then Threw else Returned
      ensures throws ==> index == |alts| && storage.None? && created == old(created)
      ensures !throws ==> index == n && created == old(created) + [n] && storage == Some(Object(n, |old(created)|))
      ensures destroyed == old(destroyed)
              + if old(index) < |alts| && alts[old(index)].nontrivial then [old(storage).value.id] else []
    {
      if index != |alts| {
        Destruct();
      }
      outcome := ConstructAt(n, throws);
      if outcome.Threw? {
        index := |alts|;
        return;
      }
      index := n;
    }

    /** `emplace<n>`: a throwing constructor leaves the Enum valueless. */
    method Emplace(n: nat, throws: bool) returns (outcome: Outcome)
      requires Valid() && n < |alts|
      modifies this
      ensures Valid() && (old(Tidy()) ==> Tidy())
      ensures outcome == if throws then Threw else Returned
      ensures index == if throws then |alts| else n
      ensures storage == if throws then None else Some(Object(n, |old(created)|))
      ensures created == if throws then old(created) else old(created) + [n]
      ensures destroyed == old(destroyed)
              + if old(index) < |alts| && alts[old(index)].nontrivial then [old(storage).value.id] else []
    {
      if index != |alts| {
        Destruct();
      }
      outcome := Construct(n, throws);
    }

    /** The statement `member = value` on alternative `target`, and the handling of what it throws. */
    method AssignMember(target: nat, throws: bool) returns (outcome: Outcome)
      requires target < |alts|
      modifies this`index, this`faults
      ensures outcome == if throws then Threw else Returned
      ensures index == if throws then |alts| else target
      ensures faults == if storage.Some? && storage.value.alt == target then old(faults) else old(faults) + 1
    {
      if !(storage.Some? && storage.value.alt == target) {
        faults := faults + 1;
      }
      if throws {
        index := |alts|;
        return Threw;
      }
      index := target;
      return Returned;
    }

    /** `assign<target, true>`. An alternative that is neither constructible from the value nor by
        default is assigned to without having been brought to life. */
    method AssignValue(op: Op) returns (outcome: Outcome)
      requires Valid() && op.Assign? && op.target < |alts|
      modifies this
      ensures Valid() <==> Grounded(alts, old(storage), op)
      ensures outcome.Threw? <==> Throws(alts, old(index), op)
      ensures index == if outcome.Threw? then |alts| else op.target
      ensures old(index) == op.target ==>
                storage == old(storage) && created == old(created) && destroyed == old(destroyed)
      ensures old(index) != op.target ==>
                && destroyed == old(destroyed)
                   + (if old(index) < |alts| && alts[old(index)].nontrivial then [old(storage).value.id] else [])
                && created == old(created)
                   + (if (op.constructible || alts[op.target].defaultConstructible) && !op.constructorThrows
                      then [op.target] else [])
      ensures State() == After(alts, old(State()), op)
      ensures old(Tidy()) && Valid() ==> (Tidy() <==> !(op.assignmentThrows && Assigns(alts, old(index), op)))
    {
      hide NoDuplicates;
      if index != op.target {
        Destruct();
        if op.constructible {
          outcome := ConstructAt(op.target, op.constructorThrows);
          index := if outcome.Threw? then |alts| else op.target;
          return;
        } else if alts[op.target].defaultConstructible {
          outcome := ConstructAt(op.target, op.constructorThrows);
          if outcome.Threw? {
            index := |alts|;
            return;
          }
        }
      }
      outcome := AssignMember(op.target, op.assignmentThrows);
    }

    /** A history of calls, each of which may throw, each grounded in the state it finds. */
    method Perform(ops: seq<Op>)
      requires Valid() && GroundedAll(alts, State(), ops)
      modifies this
      ensures Valid() && State() == AfterAll(alts, old(State()), ops)
      ensures old(Tidy()) && (forall i :: 0 <= i < |ops| ==> !ThrowsInAssignment(ops[i])) ==> Tidy()
      decreases |ops|
    {
      hide Valid, Tidy, After, Grounded;
      if ops != [] {
        PerformOne(ops[0]);
        assert ops[1..] == [] || forall i :: 0 <= i < |ops| - 1 ==> ops[1..][i] == ops[i + 1];
        Perform(ops[1..]);
      }
    }

    method PerformOne(op: Op)
      requires Valid() && Grounded(alts, storage, op)
      modifies this
      ensures Valid() && State() == After(alts, old(State()), op)
      ensures old(Tidy()) && !ThrowsInAssignment(op) ==> Tidy()
    {
      hide NoDuplicates;
      match op
      case Emplace(n, throws) => var _ := Emplace(n, throws);
      case Assign(_, _, _, _) => var _ := AssignValue(op);
    }

    /** The destructor. From a tidy state, every object whose type has a destructor worth calling has
        had it called, and by `NoDuplicates` exactly once. */
    method Finish()
      requires Valid()
      modifies this
      ensures Valid() && NoDuplicates(destroyed) && created == old(created)
      ensures old(Tidy()) ==>
                forall id :: 0 <= id < |created| && created[id] < |alts| && alts[created[id]].nontrivial ==>
                  id in destroyed
    {
      Destruct();
    }
  }
}
