/**
 The set of contracts a previous-day request still waits for, shared by one coroutine per
 requested contract, and the MultiEnd pushed when it becomes empty.

 A coroutine ends either in the handler of a failed contract load, which only erases its id, or
 at the end of its last load, where it erases the id and, if it was there, tests whether the set
 is empty now. The erase and the test lock the set separately.
 */
module PendingContracts {

  type ContractId = nat

  /** Coroutine `i` works for `ids[i]`; `ended` have been at the set, and of these `testing` are
      between the erase and the test. */
  datatype State = State(
    pending: set<ContractId>,
    ended: set<nat>,
    testing: set<nat>,
    ends: nat)

  datatype Event = FailLoad(i: nat) | EraseId(i: nat) | TestEmpty(i: nat)

  function IdSet(ids: seq<ContractId>): set<ContractId> {
    set id | id in ids
  }

  function Start(ids: seq<ContractId>): State {
    State(IdSet(ids), {}, {}, 0)
  }

  predicate Running(ids: seq<ContractId>, st: State, i: nat) {
    i < |ids| && i !in st.ended
  }

  function Step(ids: seq<ContractId>, st: State, e: Event): State {
    match e
    case FailLoad(i) =>
      if !Running(ids, st, i) then st
      else st.(pending := st.pending - {ids[i]}, ended := st.ended + {i})
    case EraseId(i) =>
      if !Running(ids, st, i) then st
      else if ids[i] !in st.pending then st.(ended := st.ended + {i})
      else st.(pending := st.pending - {ids[i]}, ended := st.ended + {i}, testing := st.testing + {i})
    case TestEmpty(i) =>
      if i !in st.testing then st
      else st.(testing := st.testing - {i}, ends := st.ends + if st.pending == {} then 1 else 0)
  }

  function Run(ids: seq<ContractId>, st: State, run: seq<Event>): State {
    if run == [] then st else Step(ids, Run(ids, st, run[..|run| - 1]), run[|run| - 1])
  }

  // ----- How often MultiEnd is pushed -----

  ghost predicate Sound(ids: seq<ContractId>, st: State) {
    && st.testing <= st.ended
    && (st.pending != {} ==> st.ends == 0)
    && forall id | id in st.pending :: exists i: nat :: Running(ids, st, i) && ids[i] == id
  }

  lemma StartIsSound(ids: seq<ContractId>)
    ensures Sound(ids, Start(ids))
  {
    forall id | id in IdSet(ids) ensures exists i: nat :: Running(ids, Start(ids), i) && ids[i] == id {
      var i :| 0 <= i < |ids| && ids[i] == id;
      assert Running(ids, Start(ids), i);
    }
  }

  lemma StepKeepsSound(ids: seq<ContractId>, st: State, e: Event)
    requires Sound(ids, st)
    ensures Sound(ids, Step(ids, st, e))
  {
    var st' := Step(ids, st, e);
    forall id | id in st'.pending ensures exists i: nat :: Running(ids, st', i) && ids[i] == id {
      var i: nat :| Running(ids, st, i) && ids[i] == id;
      assert Running(ids, st', i);
    }
  }

  /** No MultiEnd while an id is pending, and every id pending still has a coroutine to come. */
  lemma {:induction false} NoEndWhilePending(ids: seq<ContractId>, run: seq<Event>)
    ensures Sound(ids, Run(ids, Start(ids), run))
  {
    if run == [] {
      StartIsSound(ids);
    } else {
      NoEndWhilePending(ids, run[..|run| - 1]);
      StepKeepsSound(ids, Run(ids, Start(ids), run[..|run| - 1]), run[|run| - 1]);
    }
  }

  lemma {:induction false} TestsAfterEmpty(ids: seq<ContractId>, st: State, run: seq<Event>)
    requires st.pending == {}
    ensures var st' := Run(ids, st, run);
      st'.pending == {} && st'.ends + |st'.testing| == st.ends + |st.testing|
  {
    if run != [] {
      TestsAfterEmpty(ids, st, run[..|run| - 1]);
    }
  }

  /** Once everybody has finished, MultiEnd has been pushed exactly as often as there were
      coroutines between their erase and their test when the set became empty. */
  lemma MultiEndsAreTheOpenTests(ids: seq<ContractId>, before: seq<Event>, last: Event, after: seq<Event>)
    requires Run(ids, Start(ids), before).pending != {}
    requires Step(ids, Run(ids, Start(ids), before), last).pending == {}
    requires Run(ids, Step(ids, Run(ids, Start(ids), before), last), after).testing == {}
    ensures Run(ids, Step(ids, Run(ids, Start(ids), before), last), after).ends
            == |Step(ids, Run(ids, Start(ids), before), last).testing|
  {
    NoEndWhilePending(ids, before);
    TestsAfterEmpty(ids, Step(ids, Run(ids, Start(ids), before), last), after);
  }

  /** The erase and the test are not one step: two coroutines that both erase before either tests
      push MultiEnd twice. */
  lemma TwoEndsWhenTestsOverlap()
    ensures var ids := [13, 17];
      var st := Step(ids, Step(ids, Start(ids), EraseId(0)), EraseId(1));
      Step(ids, Step(ids, st, TestEmpty(0)), TestEmpty(1)).ends == 2
  {
    var ids := [13, 17];
    assert ids[0] == 13 && ids[1] == 17;
    var st := Step(ids, Step(ids, Start(ids), EraseId(0)), EraseId(1));
    assert 13 in IdSet(ids) && 17 in IdSet(ids);
    assert st.pending == {};
  }

  // ----- With the erase and the test as one step -----

  /** How a coroutine ends: by a failed contract load, or by finishing its last load. */
  datatype Outcome = Failed(i: nat) | Finished(i: nat)

  function Expand(o: Outcome): seq<Event> {
    match o
    case Failed(i) => [FailLoad(i)]
    case Finished(i) => [EraseId(i), TestEmpty(i)]
  }

  function Settle(ids: seq<ContractId>, os: seq<Outcome>): State {
    if os == [] then Start(ids) else Run(ids, Settle(ids, os[..|os| - 1]), Expand(os[|os| - 1]))
  }

  predicate EndedFor(ids: seq<ContractId>, os: seq<Outcome>, id: ContractId) {
    exists k :: 0 <= k < |os| && os[k].i < |ids| && ids[os[k].i] == id
  }

  /** The ids no coroutine has ended for yet. */
  function Remaining(ids: seq<ContractId>, os: seq<Outcome>): set<ContractId> {
    set id | id in ids && !EndedFor(ids, os, id)
  }

  lemma RemainingAfter(ids: seq<ContractId>, os: seq<Outcome>)
    requires os != [] && os[|os| - 1].i < |ids|
    ensures Remaining(ids, os) == Remaining(ids, os[..|os| - 1]) - {ids[os[|os| - 1].i]}
  {
    var before := os[..|os| - 1];
    forall id ensures EndedFor(ids, os, id) <==> EndedFor(ids, before, id) || id == ids[os[|os| - 1].i] {
      if EndedFor(ids, before, id) {
        var k :| 0 <= k < |before| && before[k].i < |ids| && ids[before[k].i] == id;
        assert os[k] == before[k];
      }
    }
  }

  /** Outcome `k` is the one that leaves no id. */
  predicate Empties(ids: seq<ContractId>, os: seq<Outcome>, k: nat) {
    k < |os| && Remaining(ids, os[..k]) != {} && Remaining(ids, os[..k + 1]) == {}
  }

  predicate EachEndsOnce(ids: seq<ContractId>, os: seq<Outcome>) {
    && (forall k | 0 <= k < |os| :: os[k].i < |ids|)
    && forall k, l | 0 <= k < l < |os| :: os[k].i != os[l].i
  }

  lemma ExpandOne(ids: seq<ContractId>, st: State, o: Outcome)
    ensures Run(ids, st, Expand(o)) ==
      if o.Failed? then Step(ids, st, FailLoad(o.i)) else Step(ids, Step(ids, st, EraseId(o.i)), TestEmpty(o.i))
  {
    if o.Failed? {
      assert Expand(o)[..0] == [];
    } else {
      assert Expand(o)[..1] == [EraseId(o.i)] && Expand(o)[..1][..0] == [];
      assert Run(ids, st, Expand(o)[..1]) == Step(ids, st, EraseId(o.i));
    }
  }

  lemma {:induction false} SettledSet(ids: seq<ContractId>, os: seq<Outcome>)
    requires EachEndsOnce(ids, os)
    ensures var st := Settle(ids, os);
      && st.pending == Remaining(ids, os) && st.testing == {}
      && forall i: nat :: i in st.ended <==> exists k :: 0 <= k < |os| && os[k].i == i
  {
    if os != [] {
      var before, o := os[..|os| - 1], os[|os| - 1];
      SettledSet(ids, before);
      RemainingAfter(ids, os);
      ExpandOne(ids, Settle(ids, before), o);
      assert Running(ids, Settle(ids, before), o.i);
    }
  }

  lemma EndsOfOne(ids: seq<ContractId>, st: State, o: Outcome)
    requires Running(ids, st, o.i) && st.testing == {}
    ensures Run(ids, st, Expand(o)).ends == st.ends + if o.Finished? && st.pending == {ids[o.i]} then 1 else 0
  {
    ExpandOne(ids, st, o);
    assert ids[o.i] in st.pending ==> st.pending == (st.pending - {ids[o.i]}) + {ids[o.i]};
  }

  lemma EmptiesPrefix(ids: seq<ContractId>, os: seq<Outcome>, k: nat)
    requires k + 1 < |os|
    ensures Empties(ids, os, k) <==> Empties(ids, os[..|os| - 1], k)
  {
    assert os[..k] == os[..|os| - 1][..k] && os[..k + 1] == os[..|os| - 1][..k + 1];
  }

  lemma EmptyStaysEmpty(ids: seq<ContractId>, os: seq<Outcome>, k: nat)
    requires k <= |os| && Remaining(ids, os[..k]) == {}
    ensures Remaining(ids, os) == {}
  {
    forall id | id in ids ensures EndedFor(ids, os, id) {
      assert id !in Remaining(ids, os[..k]);
      var l :| 0 <= l < k && os[..k][l].i < |ids| && ids[os[..k][l].i] == id;
      assert os[l] == os[..k][l];
    }
  }

  /** A coroutine that finished its load emptied the set. */
  ghost predicate EmptiedByAFinish(ids: seq<ContractId>, os: seq<Outcome>) {
    exists k: nat :: FinishEmpties(ids, os, k)
  }

  predicate FinishEmpties(ids: seq<ContractId>, os: seq<Outcome>, k: nat) {
    Empties(ids, os, k) && os[k].Finished?
  }

  lemma LastEmpties(ids: seq<ContractId>, os: seq<Outcome>)
    requires os != [] && os[|os| - 1].i < |ids|
    ensures FinishEmpties(ids, os, |os| - 1) <==>
      os[|os| - 1].Finished? && Remaining(ids, os[..|os| - 1]) == {ids[os[|os| - 1].i]}
  {
    assert os[..|os| - 1 + 1] == os;
    RemainingAfter(ids, os);
  }

  lemma PrefixEmpties(ids: seq<ContractId>, os: seq<Outcome>, k: nat)
    requires k + 1 < |os|
    ensures FinishEmpties(ids, os, k) <==> FinishEmpties(ids, os[..|os| - 1], k)
  {
    EmptiesPrefix(ids, os, k);
  }

  lemma EmptiedByTheLast(ids: seq<ContractId>, os: seq<Outcome>)
    requires os != [] && os[|os| - 1].i < |ids|
    ensures var before, o := os[..|os| - 1], os[|os| - 1];
      EmptiedByAFinish(ids, os) <==>
        EmptiedByAFinish(ids, before) || (o.Finished? && Remaining(ids, before) == {ids[o.i]})
  {
    var n := |os| - 1;
    LastEmpties(ids, os);
    if k: nat :| FinishEmpties(ids, os[..n], k) {
      PrefixEmpties(ids, os, k);
    }
    if k: nat :| FinishEmpties(ids, os, k) && k < n {
      PrefixEmpties(ids, os, k);
    }
  }

  lemma EmptiedMeansNoneLeft(ids: seq<ContractId>, os: seq<Outcome>)
    requires EmptiedByAFinish(ids, os)
    ensures Remaining(ids, os) == {}
  {
    var k: nat :| FinishEmpties(ids, os, k);
    EmptyStaysEmpty(ids, os, k + 1);
  }

  lemma {:induction false} EndsOfSettled(ids: seq<ContractId>, os: seq<Outcome>)
    requires EachEndsOnce(ids, os)
    ensures Settle(ids, os).ends == if EmptiedByAFinish(ids, os) then 1 else 0
  {
    if os != [] {
      var before, o := os[..|os| - 1], os[|os| - 1];
      EndsOfSettled(ids, before);
      SettledSet(ids, before);
      EndsOfOne(ids, Settle(ids, before), o);
      EmptiedByTheLast(ids, os);
      if EmptiedByAFinish(ids, before) {
        EmptiedMeansNoneLeft(ids, before);
      }
    }
  }

  /** In any order of completion, with ids repeated and loads failing: MultiEnd is pushed at most
      once, only when every requested id has left the set, and exactly if the coroutine whose erase
      emptied the set was not one whose contract failed to load. */
  lemma MultiEndIffTheLastEraseFinished(ids: seq<ContractId>, os: seq<Outcome>)
    requires EachEndsOnce(ids, os)
    ensures Settle(ids, os).ends <= 1
    ensures Settle(ids, os).ends == 1 <==> EmptiedByAFinish(ids, os)
    ensures Settle(ids, os).ends == 1 ==> Settle(ids, os).pending == {}
  {
    EndsOfSettled(ids, os);
    SettledSet(ids, os);
    if EmptiedByAFinish(ids, os) {
      EmptiedMeansNoneLeft(ids, os);
    }
  }

  // ----- The operations -----

  /** The shared set; the ghost fields say which coroutines have been at it. */
  class PendingSet {
    const ids: seq<ContractId>
    var contractIds: set<ContractId>
    var ends: nat
    ghost var ended: set<nat>
    ghost var testing: set<nat>

    ghost function Value(): State
      reads this
    {
      State(contractIds, ended, testing, ends)
    }

    /** PreviousDayValues collects the ids, dropping repetitions. */
    constructor (ids: seq<ContractId>)
      ensures this.ids == ids && Value() == Start(ids)
    {
      var all: set<ContractId> := {};
      for i := 0 to |ids|
        invariant all == IdSet(ids[..i])
      {
        assert ids[..i + 1] == ids[..i] + [ids[i]];
        all := all + {ids[i]};
      }
      assert ids[..|ids|] == ids;
      this.ids, contractIds, ends := ids, all, 0;
      ended, testing := {}, {};
    }

    /** The handler of a failed contract load. */
    method ContractFailed(i: nat)
      requires Running(ids, Value(), i)
      modifies this
      ensures Value() == Step(ids, old(Value()), FailLoad(i))
      ensures contractIds == old(contractIds) - {ids[i]} && ends == old(ends)
    {
      contractIds := contractIds - {ids[i]};
      ended := ended + {i};
    }

    /** The first half of a coroutine's end. */
    method EraseContract(i: nat) returns (erased: bool)
      requires Running(ids, Value(), i)
      modifies this
      ensures Value() == Step(ids, old(Value()), EraseId(i)) && erased == (ids[i] in old(contractIds))
      ensures contractIds == old(contractIds) - {ids[i]} && ends == old(ends)
    {
      erased := ids[i] in contractIds;
      contractIds := contractIds - {ids[i]};
      ended := ended + {i};
      if erased {
        testing := testing + {i};
      } else {
        assert contractIds == old(contractIds);
      }
    }

    /** The second half, after an erase that found the id. */
    method TestAndPush(i: nat)
      requires i in testing
      modifies this
      ensures Value() == Step(ids, old(Value()), TestEmpty(i))
      ensures contractIds == old(contractIds) && ends == old(ends) + if contractIds == {} then 1 else 0
    {
      if contractIds == {} {
        ends := ends + 1;
      }
      testing := testing - {i};
    }

    /** The end of a coroutine, with nobody else touching the set between the two halves. */
    method ContractDone(i: nat)
      requires Running(ids, Value(), i) && i !in testing
      modifies this
      ensures Value() == Run(ids, old(Value()), Expand(Finished(i)))
      ensures ends == old(ends) + if old(contractIds) == {ids[i]} then 1 else 0
    {
      ExpandOne(ids, Value(), Finished(i));
      ghost var before := contractIds;
      var erased := EraseContract(i);
      if erased {
        TestAndPush(i);
        assert before == (before - {ids[i]}) + {ids[i]};
      }
    }
  }
}
