/**
 The scheduler's batching loop. Each round selects, oldest deadline first, one batch of expirable
 bookings after a constant offset, and expires it; bookings that were stored drop out of the next
 selection.

 Here the loop runs on the list of expirable bookings alone, with the offset as a parameter and any
 pattern of task outcomes. `BookingScheduler` carries it out on the tables.
 */
module ExpiryLoop {
  import opened Lists
  import opened Rental
  import opened ExpiryTask

  /** How the task for a booking ends, in each round in which it is tried. */
  type Outcomes = (nat, BookingId) -> TaskOutcome

  datatype LoopState = LoopState(
    pending: seq<BookingId>,
    page: nat,
    processed: nat,
    succeeded: seq<BookingId>,
    failed: seq<BookingId>,
    hasMore: bool)

  function Init(pending: seq<BookingId>): LoopState {
    LoopState(pending, 0, 0, [], [], true)
  }

  /** The bookings of a list whose tasks end in one of the given ways, in order. */
  function Ending(s: seq<BookingId>, outcome: Outcomes, page: nat, ways: set<TaskOutcome>): seq<BookingId> {
    if s == [] then []
    else (if outcome(page, s[0]) in ways then [s[0]] else []) + Ending(s[1..], outcome, page, ways)
  }

  function Iterate(ls: LoopState, offset: nat, size: nat, outcome: Outcomes): LoopState {
    var batch := Window(ls.pending, offset, size);
    if batch == [] then ls.(hasMore := false)
    else
      LoopState(
        ls.pending[..offset] + Ending(batch, outcome, ls.page, {Unsaved}) + ls.pending[offset + |batch|..],
        if |batch| < size then ls.page else ls.page + 1,
        ls.processed + |batch|,
        ls.succeeded + Ending(batch, outcome, ls.page, {Succeeded}),
        ls.failed + Ending(batch, outcome, ls.page, {StoredOnly, Unsaved}),
        |batch| == size)
  }

  /** At most `rounds` rounds of the loop. The source sets no bound; see `FinishesExactlyWhen`. */
  function LoopRun(ls: LoopState, offset: nat, size: nat, outcome: Outcomes, rounds: nat): LoopState
    decreases rounds
  {
    if rounds == 0 || !ls.hasMore then ls
    else LoopRun(Iterate(ls, offset, size, outcome), offset, size, outcome, rounds - 1)
  }

  /** More rounds than bookings: enough for the loop to end if every full batch stores one of its own. */
  function RunToEnd(pending: seq<BookingId>, offset: nat, size: nat, outcome: Outcomes): LoopState {
    LoopRun(Init(pending), offset, size, outcome, |pending| + 1)
  }

  lemma LoopRunUnfolds(ls: LoopState, offset: nat, size: nat, outcome: Outcomes, rounds: nat)
    ensures rounds == 0 || !ls.hasMore ==> LoopRun(ls, offset, size, outcome, rounds) == ls
    ensures rounds > 0 && ls.hasMore ==>
              LoopRun(ls, offset, size, outcome, rounds)
              == LoopRun(Iterate(ls, offset, size, outcome), offset, size, outcome, rounds - 1)
  {
  }

  /** One more round at the end instead of at the start. */
  lemma {:induction false} LoopRunExtends(ls: LoopState, offset: nat, size: nat, outcome: Outcomes, rounds: nat)
    ensures var last := LoopRun(ls, offset, size, outcome, rounds);
            LoopRun(ls, offset, size, outcome, rounds + 1)
            == if last.hasMore then Iterate(last, offset, size, outcome) else last
    decreases rounds
  {
    LoopRunUnfolds(ls, offset, size, outcome, rounds);
    LoopRunUnfolds(ls, offset, size, outcome, rounds + 1);
    if ls.hasMore {
      var next := Iterate(ls, offset, size, outcome);
      if rounds > 0 {
        LoopRunExtends(next, offset, size, outcome, rounds - 1);
      } else {
        LoopRunUnfolds(next, offset, size, outcome, 0);
      }
    }
  }

  /** A finished loop stays as it is. */
  lemma {:induction false} LoopRunStays(ls: LoopState, offset: nat, size: nat, outcome: Outcomes,
                                        rounds: nat, more: nat)
    requires !LoopRun(ls, offset, size, outcome, rounds).hasMore && rounds <= more
    ensures LoopRun(ls, offset, size, outcome, more) == LoopRun(ls, offset, size, outcome, rounds)
    decreases more
  {
    if rounds < more {
      LoopRunStays(ls, offset, size, outcome, rounds, more - 1);
      LoopRunExtends(ls, offset, size, outcome, more - 1);
    }
  }

  lemma EmptyBatchEnds(ls: LoopState, offset: nat, size: nat, outcome: Outcomes)
    requires Window(ls.pending, offset, size) == []
    ensures Iterate(ls, offset, size, outcome)
         == LoopState(ls.pending, ls.page, ls.processed + 0, ls.succeeded + [], ls.failed + [], false)
  {
  }

  /** A selected batch lies between the skipped part and the rest. */
  lemma WindowParts(pending: seq<BookingId>, offset: nat, size: nat)
    requires Window(pending, offset, size) != []
    ensures var batch := Window(pending, offset, size);
            && offset + |batch| <= |pending| && |batch| <= size
            && pending == pending[..offset] + batch + pending[offset + |batch|..]
  {
  }

  // ---------- Selecting by outcome ----------

  lemma {:induction false} EndingConcat(a: seq<BookingId>, b: seq<BookingId>, outcome: Outcomes, page: nat,
                                        ways: set<TaskOutcome>)
    ensures Ending(a + b, outcome, page, ways) == Ending(a, outcome, page, ways) + Ending(b, outcome, page, ways)
  {
    if a == [] {
      assert a + b == b;
    } else {
      EndingConcat(a[1..], b, outcome, page, ways);
      assert (a + b)[0] == a[0] && (a + b)[1..] == a[1..] + b;
      Associate(if outcome(page, a[0]) in ways then [a[0]] else [], Ending(a[1..], outcome, page, ways),
                Ending(b, outcome, page, ways));
    }
  }

  lemma {:induction false} EndingMember(s: seq<BookingId>, outcome: Outcomes, page: nat, ways: set<TaskOutcome>,
                                        id: BookingId)
    ensures id in Ending(s, outcome, page, ways) <==> id in s && outcome(page, id) in ways
  {
    if s != [] {
      EndingMember(s[1..], outcome, page, ways, id);
    }
  }

  lemma {:induction false} EndingAll(s: seq<BookingId>, outcome: Outcomes, page: nat, ways: set<TaskOutcome>)
    requires forall id | id in s :: outcome(page, id) in ways
    ensures Ending(s, outcome, page, ways) == s
  {
    if s != [] {
      EndingAll(s[1..], outcome, page, ways);
    }
  }

  lemma {:induction false} EndingNone(s: seq<BookingId>, outcome: Outcomes, page: nat, ways: set<TaskOutcome>)
    requires forall id | id in s :: outcome(page, id) !in ways
    ensures Ending(s, outcome, page, ways) == []
  {
    if s != [] {
      EndingNone(s[1..], outcome, page, ways);
    }
  }

  lemma {:induction false} EndingLength(s: seq<BookingId>, outcome: Outcomes, page: nat, ways: set<TaskOutcome>)
    ensures |Ending(s, outcome, page, ways)| <= |s|
    ensures |Ending(s, outcome, page, ways)| == |s| ==> Ending(s, outcome, page, ways) == s
  {
    if s != [] {
      EndingLength(s[1..], outcome, page, ways);
    }
  }

  /** What is selected again is selected whole or not at all. */
  lemma EndingTwice(s: seq<BookingId>, outcome: Outcomes, page: nat, way: TaskOutcome, again: TaskOutcome)
    ensures Ending(Ending(s, outcome, page, {way}), outcome, page, {again})
         == if again == way then Ending(s, outcome, page, {way}) else []
  {
    var once := Ending(s, outcome, page, {way});
    forall id | id in once
      ensures outcome(page, id) == way
    {
      EndingMember(s, outcome, page, {way}, id);
    }
    if again == way {
      EndingAll(once, outcome, page, {again});
    } else {
      EndingNone(once, outcome, page, {again});
    }
  }

  // ---------- Accounting, for any pattern of failures ----------

  ghost predicate Accounted(ls: LoopState) {
    && ls.processed == |ls.succeeded| + |ls.failed|
    && Distinct(ls.pending) && Distinct(ls.succeeded)
    && (forall id | id in ls.succeeded :: id !in ls.pending)
  }

  lemma {:induction false} EndingSplits(s: seq<BookingId>, outcome: Outcomes, page: nat)
    ensures |Ending(s, outcome, page, {Succeeded})| + |Ending(s, outcome, page, {StoredOnly, Unsaved})| == |s|
  {
    if s != [] {
      EndingSplits(s[1..], outcome, page);
      match outcome(page, s[0])
      case Succeeded =>
      case StoredOnly =>
      case Unsaved =>
    }
  }

  lemma DistinctConcat(a: seq<BookingId>, b: seq<BookingId>)
    requires Distinct(a) && Distinct(b) && forall id | id in a :: id !in b
    ensures Distinct(a + b)
  {
    forall i, j | 0 <= i < |a + b| && 0 <= j < |a + b| && i != j
      ensures (a + b)[i] != (a + b)[j]
    {
      assert i < |a| ==> (a + b)[i] in a;
      assert j < |a| ==> (a + b)[j] in a;
      assert i >= |a| ==> (a + b)[i] == b[i - |a|] && (a + b)[i] in b;
      assert j >= |a| ==> (a + b)[j] == b[j - |a|] && (a + b)[j] in b;
    }
  }

  lemma SliceDistinct(s: seq<BookingId>, lo: nat, hi: nat)
    requires Distinct(s) && lo <= hi <= |s|
    ensures Distinct(s[lo..hi])
  {
  }

  lemma {:induction false} EndingDistinct(s: seq<BookingId>, outcome: Outcomes, page: nat, ways: set<TaskOutcome>)
    requires Distinct(s)
    ensures Distinct(Ending(s, outcome, page, ways))
  {
    if s != [] {
      EndingDistinct(s[1..], outcome, page, ways);
      EndingMember(s[1..], outcome, page, ways, s[0]);
      DistinctConcat(if outcome(page, s[0]) in ways then [s[0]] else [], Ending(s[1..], outcome, page, ways));
    }
  }

  /** Replacing the middle of a list by some of its elements keeps the elements distinct. */
  lemma ShrinkMiddle(before: seq<BookingId>, middle: seq<BookingId>, behind: seq<BookingId>, fewer: seq<BookingId>)
    requires Distinct(before + middle + behind) && Distinct(fewer) && forall id | id in fewer :: id in middle
    ensures Distinct(before + fewer + behind)
  {
    var whole := before + middle + behind;
    forall i | 0 <= i < |before| ensures before[i] == whole[i] {}
    forall i | 0 <= i < |middle| ensures middle[i] == whole[|before| + i] {}
    forall i | 0 <= i < |behind| ensures behind[i] == whole[|before| + |middle| + i] {}
    DistinctConcat(before, fewer);
    DistinctConcat(before + fewer, behind);
  }

  lemma MiddleIsApart(before: seq<BookingId>, middle: seq<BookingId>, behind: seq<BookingId>, id: BookingId)
    requires Distinct(before + middle + behind) && id in middle
    ensures id !in before && id !in behind
  {
    var whole := before + middle + behind;
    var k :| 0 <= k < |middle| && middle[k] == id;
    assert whole[|before| + k] == id;
    forall i | 0 <= i < |before| ensures before[i] == whole[i] {}
    forall i | 0 <= i < |behind| ensures behind[i] == whole[|before| + |middle| + i] {}
  }

  /** The list stays distinct, and what is reported as expired leaves it. */
  lemma ReportedLeave(ls: LoopState, offset: nat, size: nat, outcome: Outcomes)
    requires Distinct(ls.pending)
    ensures Distinct(Iterate(ls, offset, size, outcome).pending)
    ensures forall id | id in Iterate(ls, offset, size, outcome).pending :: id in ls.pending
    ensures forall id | id in Ending(Window(ls.pending, offset, size), outcome, ls.page, {Succeeded}) ::
              id in ls.pending && id !in Iterate(ls, offset, size, outcome).pending
  {
    var batch := Window(ls.pending, offset, size);
    if batch != [] {
      var before, behind := ls.pending[..offset], ls.pending[offset + |batch|..];
      var left := Ending(batch, outcome, ls.page, {Unsaved});
      assert ls.pending == before + batch + behind;
      SliceDistinct(ls.pending, offset, offset + |batch|);
      EndingDistinct(batch, outcome, ls.page, {Unsaved});
      forall id
        ensures id in left <==> id in batch && outcome(ls.page, id) == Unsaved
        ensures id in Ending(batch, outcome, ls.page, {Succeeded}) <==> id in batch && outcome(ls.page, id) == Succeeded
      {
        EndingMember(batch, outcome, ls.page, {Unsaved}, id);
        EndingMember(batch, outcome, ls.page, {Succeeded}, id);
      }
      ShrinkMiddle(before, batch, behind, left);
      forall id | id in batch
        ensures id !in before && id !in behind
      {
        MiddleIsApart(before, batch, behind, id);
      }
    }
  }

  lemma IterateKeepsAccounts(ls: LoopState, offset: nat, size: nat, outcome: Outcomes)
    requires Accounted(ls)
    ensures Accounted(Iterate(ls, offset, size, outcome))
  {
    var batch := Window(ls.pending, offset, size);
    ReportedLeave(ls, offset, size, outcome);
    if batch != [] {
      EndingSplits(batch, outcome, ls.page);
      SliceDistinct(ls.pending, offset, offset + |batch|);
      EndingDistinct(batch, outcome, ls.page, {Succeeded});
      DistinctConcat(ls.succeeded, Ending(batch, outcome, ls.page, {Succeeded}));
    }
  }

  /** Processed is succeeded plus failed, and no booking is reported as expired twice. */
  lemma {:induction false} RunIsAccounted(ls: LoopState, offset: nat, size: nat, outcome: Outcomes, rounds: nat)
    requires Accounted(ls)
    ensures Accounted(LoopRun(ls, offset, size, outcome, rounds))
    decreases rounds
  {
    if rounds != 0 && ls.hasMore {
      IterateKeepsAccounts(ls, offset, size, outcome);
      RunIsAccounted(Iterate(ls, offset, size, outcome), offset, size, outcome, rounds - 1);
    }
  }

  // ---------- What is reported and left, for any pattern of failures ----------

  /** Round `k` of the run selects the booking, and its task ends in one of the given ways. */
  predicate Tried(pending: seq<BookingId>, offset: nat, size: nat, outcome: Outcomes, k: nat, id: BookingId,
                  ways: set<TaskOutcome>)
  {
    var ls := LoopRun(Init(pending), offset, size, outcome, k);
    ls.hasMore && id in Window(ls.pending, offset, size) && outcome(ls.page, id) in ways
  }

  lemma OnceInThreeParts(before: seq<BookingId>, batch: seq<BookingId>, behind: seq<BookingId>, id: BookingId)
    requires Distinct(before + batch + behind)
    ensures id in before + batch + behind <==> id in before || id in batch || id in behind
    ensures id in batch ==> id !in before && id !in behind
  {
    if id in batch {
      MiddleIsApart(before, batch, behind, id);
    }
  }

  /** What one round makes of one booking. */
  lemma IterateMember(ls: LoopState, offset: nat, size: nat, outcome: Outcomes, id: BookingId)
    requires Distinct(ls.pending)
    ensures var ls', tried := Iterate(ls, offset, size, outcome), id in Window(ls.pending, offset, size);
            && (id in ls'.pending <==> id in ls.pending && !(tried && outcome(ls.page, id) != Unsaved))
            && (id in ls'.succeeded <==> id in ls.succeeded || (tried && outcome(ls.page, id) == Succeeded))
            && (id in ls'.failed <==> id in ls.failed || (tried && outcome(ls.page, id) != Succeeded))
  {
    var batch := Window(ls.pending, offset, size);
    if batch != [] {
      var before, behind := ls.pending[..offset], ls.pending[offset + |batch|..];
      WindowParts(ls.pending, offset, size);
      OnceInThreeParts(before, batch, behind, id);
      EndingMember(batch, outcome, ls.page, {Unsaved}, id);
      EndingMember(batch, outcome, ls.page, {Succeeded}, id);
      EndingMember(batch, outcome, ls.page, {StoredOnly, Unsaved}, id);
    }
  }

  /** Some of the first rounds does so. */
  ghost predicate TriedBefore(pending: seq<BookingId>, offset: nat, size: nat, outcome: Outcomes, rounds: nat,
                              id: BookingId, ways: set<TaskOutcome>)
  {
    exists k | 0 <= k < rounds :: Tried(pending, offset, size, outcome, k, id, ways)
  }

  lemma TriedOneMore(pending: seq<BookingId>, offset: nat, size: nat, outcome: Outcomes, rounds: nat, id: BookingId,
                     ways: set<TaskOutcome>)
    ensures TriedBefore(pending, offset, size, outcome, rounds + 1, id, ways) <==>
            TriedBefore(pending, offset, size, outcome, rounds, id, ways) ||
            Tried(pending, offset, size, outcome, rounds, id, ways)
  {
  }

  /** What the totals and the list say about a booking after some rounds, in terms of these rounds. */
  ghost predicate Reported(pending: seq<BookingId>, offset: nat, size: nat, outcome: Outcomes, rounds: nat,
                           id: BookingId)
  {
    var ls := LoopRun(Init(pending), offset, size, outcome, rounds);
    && (id in ls.pending <==>
          id in pending && !TriedBefore(pending, offset, size, outcome, rounds, id, {Succeeded, StoredOnly}))
    && (id in ls.succeeded <==> TriedBefore(pending, offset, size, outcome, rounds, id, {Succeeded}))
    && (id in ls.failed <==> TriedBefore(pending, offset, size, outcome, rounds, id, {StoredOnly, Unsaved}))
  }

  lemma NothingReportedYet(pending: seq<BookingId>, offset: nat, size: nat, outcome: Outcomes, id: BookingId)
    ensures Reported(pending, offset, size, outcome, 0, id)
  {
    LoopRunUnfolds(Init(pending), offset, size, outcome, 0);
  }

  lemma StaysDistinct(pending: seq<BookingId>, offset: nat, size: nat, outcome: Outcomes, rounds: nat)
    requires Distinct(pending)
    ensures Distinct(LoopRun(Init(pending), offset, size, outcome, rounds).pending)
  {
    RunIsAccounted(Init(pending), offset, size, outcome, rounds);
  }

  lemma RoundAdds(pending: seq<BookingId>, offset: nat, size: nat, outcome: Outcomes, k: nat, id: BookingId)
    requires Distinct(LoopRun(Init(pending), offset, size, outcome, k).pending)
    ensures var ls := LoopRun(Init(pending), offset, size, outcome, k);
            var ls' := LoopRun(Init(pending), offset, size, outcome, k + 1);
            && (id in ls'.pending <==>
                  id in ls.pending && !Tried(pending, offset, size, outcome, k, id, {Succeeded, StoredOnly}))
            && (id in ls'.succeeded <==>
                  id in ls.succeeded || Tried(pending, offset, size, outcome, k, id, {Succeeded}))
            && (id in ls'.failed <==>
                  id in ls.failed || Tried(pending, offset, size, outcome, k, id, {StoredOnly, Unsaved}))
  {
    LoopRunExtends(Init(pending), offset, size, outcome, k);
    IterateMember(LoopRun(Init(pending), offset, size, outcome, k), offset, size, outcome, id);
  }

  lemma RoundReports(pending: seq<BookingId>, offset: nat, size: nat, outcome: Outcomes, rounds: nat, id: BookingId)
    requires Distinct(pending) && Reported(pending, offset, size, outcome, rounds, id)
    ensures Reported(pending, offset, size, outcome, rounds + 1, id)
  {
    StaysDistinct(pending, offset, size, outcome, rounds);
    RoundAdds(pending, offset, size, outcome, rounds, id);
    TriedOneMore(pending, offset, size, outcome, rounds, id, {Succeeded, StoredOnly});
    TriedOneMore(pending, offset, size, outcome, rounds, id, {Succeeded});
    TriedOneMore(pending, offset, size, outcome, rounds, id, {StoredOnly, Unsaved});
  }

  /**
   However tasks end, in whatever round: a booking is still to expire exactly when no round has stored it,
   reported as expired exactly when its task succeeded in some round, and as failed when it failed in some.
   */
  lemma {:induction false} ReportsExactly(pending: seq<BookingId>, offset: nat, size: nat, outcome: Outcomes,
                                          rounds: nat, id: BookingId)
    requires Distinct(pending)
    ensures Reported(pending, offset, size, outcome, rounds, id)
  {
    NothingReportedYet(pending, offset, size, outcome, id);
    for k := 0 to rounds
      invariant Reported(pending, offset, size, outcome, k, id)
    {
      RoundReports(pending, offset, size, outcome, k, id);
    }
  }

  /** The bookings that the offset skips, and those that it does not. */
  function Skipped(pending: seq<BookingId>, offset: nat): seq<BookingId> {
    pending[..Min(offset, |pending|)]
  }

  function Rest(pending: seq<BookingId>, offset: nat): seq<BookingId> {
    pending[Min(offset, |pending|)..]
  }

  lemma IterateSkips(ls: LoopState, offset: nat, size: nat, outcome: Outcomes)
    ensures var ls' := Iterate(ls, offset, size, outcome);
            && Skipped(ls'.pending, offset) == Skipped(ls.pending, offset)
            && (size > 0 && !ls'.hasMore ==>
                  Rest(ls'.pending, offset) == Ending(Rest(ls.pending, offset), outcome, ls.page, {Unsaved}))
  {
    var batch, rest := Window(ls.pending, offset, size), Rest(ls.pending, offset);
    if batch == [] {
      assert size > 0 ==> rest == [];
    } else {
      WindowParts(ls.pending, offset, size);
      if |batch| < size {
        assert batch == rest && ls.pending[offset + |batch|..] == [];
      }
    }
  }

  lemma {:induction false} RunSkips(pending: seq<BookingId>, offset: nat, size: nat, outcome: Outcomes, rounds: nat)
    ensures Skipped(LoopRun(Init(pending), offset, size, outcome, rounds).pending, offset) == Skipped(pending, offset)
    decreases rounds
  {
    if rounds == 0 {
      LoopRunUnfolds(Init(pending), offset, size, outcome, 0);
    } else {
      RunSkips(pending, offset, size, outcome, rounds - 1);
      LoopRunExtends(Init(pending), offset, size, outcome, rounds - 1);
      IterateSkips(LoopRun(Init(pending), offset, size, outcome, rounds - 1), offset, size, outcome);
    }
  }

  /** The round `k` was the last one, and left what the offset skips and what it could not store itself. */
  ghost predicate EndedBy(pending: seq<BookingId>, offset: nat, size: nat, outcome: Outcomes, k: nat, ls: LoopState) {
    var last := LoopRun(Init(pending), offset, size, outcome, k);
    && last.hasMore
    && ls.pending ==
         Skipped(pending, offset) + Ending(Rest(last.pending, offset), outcome, last.page, {Unsaved})
  }

  lemma LastRound(pending: seq<BookingId>, offset: nat, size: nat, outcome: Outcomes, k: nat)
    requires size > 0 && LoopRun(Init(pending), offset, size, outcome, k).hasMore
    requires !LoopRun(Init(pending), offset, size, outcome, k + 1).hasMore
    ensures EndedBy(pending, offset, size, outcome, k, LoopRun(Init(pending), offset, size, outcome, k + 1))
  {
    var last := LoopRun(Init(pending), offset, size, outcome, k);
    var pending' := Iterate(last, offset, size, outcome).pending;
    LoopRunExtends(Init(pending), offset, size, outcome, k);
    RunSkips(pending, offset, size, outcome, k);
    IterateSkips(last, offset, size, outcome);
    assert pending' == Skipped(pending', offset) + Rest(pending', offset);
  }

  /** However tasks end, in whatever round: a run that ends leaves what it skips and what its last round failed on. */
  lemma {:induction false} LastRoundLeaves(pending: seq<BookingId>, offset: nat, size: nat, outcome: Outcomes,
                                           rounds: nat)
    requires size > 0 && !LoopRun(Init(pending), offset, size, outcome, rounds).hasMore
    ensures exists k | 0 <= k < rounds ::
              EndedBy(pending, offset, size, outcome, k, LoopRun(Init(pending), offset, size, outcome, rounds))
    decreases rounds
  {
    if rounds > 0 {
      if LoopRun(Init(pending), offset, size, outcome, rounds - 1).hasMore {
        LastRound(pending, offset, size, outcome, rounds - 1);
      } else {
        LastRoundLeaves(pending, offset, size, outcome, rounds - 1);
        LoopRunStays(Init(pending), offset, size, outcome, rounds - 1, rounds);
      }
    }
  }

  // ---------- What is left, when each booking ends the same way in every round ----------

  ghost predicate Steady(outcome: Outcomes) {
    forall page, id :: outcome(page, id) == outcome(0, id)
  }

  function Stuck(s: seq<BookingId>, outcome: Outcomes): seq<BookingId> {
    Ending(s, outcome, 0, {Unsaved})
  }

  function Good(s: seq<BookingId>, outcome: Outcomes): seq<BookingId> {
    Ending(s, outcome, 0, {Succeeded})
  }

  lemma {:induction false} SteadyEnding(s: seq<BookingId>, outcome: Outcomes, page: nat, ways: set<TaskOutcome>)
    requires Steady(outcome)
    ensures Ending(s, outcome, page, ways) == Ending(s, outcome, 0, ways)
  {
    if s != [] {
      SteadyEnding(s[1..], outcome, page, ways);
    }
  }

  /** One round moves a front part of the rest: its good bookings are reported, its stuck ones stay. */
  lemma IterateOnRest(ls: LoopState, offset: nat, size: nat, outcome: Outcomes)
    requires Steady(outcome)
    ensures var ls', rest := Iterate(ls, offset, size, outcome), Rest(ls.pending, offset);
            var n := Min(size, |rest|);
            && Skipped(ls'.pending, offset) == Skipped(ls.pending, offset)
            && Rest(ls'.pending, offset) == Stuck(rest[..n], outcome) + rest[n..]
            && ls'.succeeded == ls.succeeded + Good(rest[..n], outcome)
            && ls'.hasMore == (0 < n == size)
  {
    var batch := Window(ls.pending, offset, size);
    var rest := Rest(ls.pending, offset);
    var n := Min(size, |rest|);
    assert batch == rest[..n];
    SteadyEnding(batch, outcome, ls.page, {Unsaved});
    SteadyEnding(batch, outcome, ls.page, {Succeeded});
    if batch != [] {
      assert ls.pending[offset + |batch|..] == rest[n..];
      var before := ls.pending[..offset];
      assert Iterate(ls, offset, size, outcome).pending == before + (Stuck(batch, outcome) + rest[n..]);
    } else {
      assert rest[..n] == [] && rest[n..] == rest;
    }
  }

  /** What rounds conserve: the skipped bookings, the stuck ones, and the good ones reported or still to come. */
  ghost predicate SameBalance(ls: LoopState, ls': LoopState, offset: nat, outcome: Outcomes) {
    && Skipped(ls'.pending, offset) == Skipped(ls.pending, offset)
    && Stuck(Rest(ls'.pending, offset), outcome) == Stuck(Rest(ls.pending, offset), outcome)
    && ls'.succeeded + Good(Rest(ls'.pending, offset), outcome) ==
         ls.succeeded + Good(Rest(ls.pending, offset), outcome)
  }

  lemma FrontMoves(front: seq<BookingId>, back: seq<BookingId>, outcome: Outcomes)
    ensures Stuck(Stuck(front, outcome) + back, outcome) == Stuck(front + back, outcome)
    ensures Good(front, outcome) + Good(Stuck(front, outcome) + back, outcome) == Good(front + back, outcome)
  {
    EndingConcat(front, back, outcome, 0, {Unsaved});
    EndingConcat(Stuck(front, outcome), back, outcome, 0, {Unsaved});
    EndingTwice(front, outcome, 0, Unsaved, Unsaved);
    EndingConcat(front, back, outcome, 0, {Succeeded});
    EndingConcat(Stuck(front, outcome), back, outcome, 0, {Succeeded});
    EndingTwice(front, outcome, 0, Unsaved, Succeeded);
    assert [] + Good(back, outcome) == Good(back, outcome);
  }

  lemma IterateConserves(ls: LoopState, offset: nat, size: nat, outcome: Outcomes)
    requires Steady(outcome)
    ensures SameBalance(ls, Iterate(ls, offset, size, outcome), offset, outcome)
  {
    var rest, ls' := Rest(ls.pending, offset), Iterate(ls, offset, size, outcome);
    var n := Min(size, |rest|);
    IterateOnRest(ls, offset, size, outcome);
    FrontMoves(rest[..n], rest[n..], outcome);
    assert rest == rest[..n] + rest[n..];
    Associate(ls.succeeded, Good(rest[..n], outcome), Good(Rest(ls'.pending, offset), outcome));
  }

  lemma Associate(a: seq<BookingId>, b: seq<BookingId>, c: seq<BookingId>)
    ensures a + (b + c) == (a + b) + c
  {
  }

  lemma {:induction false} RunConserves(ls: LoopState, offset: nat, size: nat, outcome: Outcomes, rounds: nat)
    requires Steady(outcome)
    ensures SameBalance(ls, LoopRun(ls, offset, size, outcome, rounds), offset, outcome)
    decreases rounds
  {
    if rounds != 0 && ls.hasMore {
      IterateConserves(ls, offset, size, outcome);
      RunConserves(Iterate(ls, offset, size, outcome), offset, size, outcome, rounds - 1);
    }
  }

  /** When the loop ends, nothing but stuck bookings is left past the offset. */
  lemma {:induction false} EndsWithStuckOnly(ls: LoopState, offset: nat, size: nat, outcome: Outcomes, rounds: nat)
    requires Steady(outcome) && size > 0
    requires ls.hasMore && !LoopRun(ls, offset, size, outcome, rounds).hasMore
    ensures var rest := Rest(LoopRun(ls, offset, size, outcome, rounds).pending, offset);
            Stuck(rest, outcome) == rest && Good(rest, outcome) == []
    decreases rounds
  {
    var next := Iterate(ls, offset, size, outcome);
    if next.hasMore {
      EndsWithStuckOnly(next, offset, size, outcome, rounds - 1);
    } else {
      var rest := Rest(ls.pending, offset);
      IterateOnRest(ls, offset, size, outcome);
      assert rest[..|rest|] == rest && rest[|rest|..] == [];
      assert Rest(next.pending, offset) == Stuck(rest, outcome);
      EndingTwice(rest, outcome, 0, Unsaved, Unsaved);
      EndingTwice(rest, outcome, 0, Unsaved, Succeeded);
      assert LoopRun(next, offset, size, outcome, rounds - 1) == next;
    }
  }

  /**
   A finished run leaves exactly the skipped bookings and, past the offset, those that cannot be
   stored; and it reports exactly the good bookings past the offset, each once, oldest first.
   */
  lemma FinishedRun(pending: seq<BookingId>, offset: nat, size: nat, outcome: Outcomes, rounds: nat)
    requires Steady(outcome) && size > 0
    requires !LoopRun(Init(pending), offset, size, outcome, rounds).hasMore
    ensures var ls := LoopRun(Init(pending), offset, size, outcome, rounds);
            && ls.pending == Skipped(pending, offset) + Stuck(Rest(pending, offset), outcome)
            && ls.succeeded == Good(Rest(pending, offset), outcome)
  {
    var ls := LoopRun(Init(pending), offset, size, outcome, rounds);
    RunConserves(Init(pending), offset, size, outcome, rounds);
    EndsWithStuckOnly(Init(pending), offset, size, outcome, rounds);
    Settled(Init(pending), ls, offset, outcome);
  }

  lemma Settled(first: LoopState, ls: LoopState, offset: nat, outcome: Outcomes)
    requires SameBalance(first, ls, offset, outcome) && first.succeeded == []
    requires Stuck(Rest(ls.pending, offset), outcome) == Rest(ls.pending, offset)
    requires Good(Rest(ls.pending, offset), outcome) == []
    ensures ls.pending == Skipped(first.pending, offset) + Stuck(Rest(first.pending, offset), outcome)
    ensures ls.succeeded == Good(Rest(first.pending, offset), outcome)
  {
    assert ls.pending == Skipped(ls.pending, offset) + Rest(ls.pending, offset);
    var all := Good(Rest(first.pending, offset), outcome);
    assert ls.succeeded + [] == ls.succeeded && [] + all == all;
  }

  // ---------- When the loop ends ----------

  lemma StuckRound(ls: LoopState, offset: nat, size: nat, outcome: Outcomes)
    requires Steady(outcome) && size > 0 && |Stuck(Rest(ls.pending, offset), outcome)| >= size
    ensures var ls' := Iterate(ls, offset, size, outcome);
            ls'.hasMore && |Stuck(Rest(ls'.pending, offset), outcome)| >= size
  {
    EndingLength(Rest(ls.pending, offset), outcome, 0, {Unsaved});
    IterateOnRest(ls, offset, size, outcome);
    IterateConserves(ls, offset, size, outcome);
  }

  lemma {:induction false} StuckForever(ls: LoopState, offset: nat, size: nat, outcome: Outcomes, rounds: nat)
    requires Steady(outcome)
    requires ls.hasMore && size > 0 && |Stuck(Rest(ls.pending, offset), outcome)| >= size
    ensures LoopRun(ls, offset, size, outcome, rounds).hasMore
    decreases rounds
  {
    if rounds != 0 {
      StuckRound(ls, offset, size, outcome);
      StuckForever(Iterate(ls, offset, size, outcome), offset, size, outcome, rounds - 1);
    }
  }

  lemma EachRoundShrinks(ls: LoopState, offset: nat, size: nat, outcome: Outcomes)
    requires Steady(outcome)
    requires size > 0 && |Stuck(Rest(ls.pending, offset), outcome)| < size
    ensures var ls' := Iterate(ls, offset, size, outcome);
            !ls'.hasMore || |Rest(ls'.pending, offset)| < |Rest(ls.pending, offset)|
  {
    var rest := Rest(ls.pending, offset);
    IterateOnRest(ls, offset, size, outcome);
    FrontStuck(rest, Min(size, |rest|), outcome);
  }

  lemma FrontStuck(rest: seq<BookingId>, n: nat, outcome: Outcomes)
    requires n <= |rest|
    ensures |Stuck(rest[..n], outcome)| <= n && |Stuck(rest[..n], outcome)| <= |Stuck(rest, outcome)|
  {
    EndingLength(rest[..n], outcome, 0, {Unsaved});
    EndingConcat(rest[..n], rest[n..], outcome, 0, {Unsaved});
    assert rest == rest[..n] + rest[n..];
  }

  lemma {:induction false} EndsInTime(ls: LoopState, offset: nat, size: nat, outcome: Outcomes, rounds: nat)
    requires Steady(outcome)
    requires size > 0 && |Stuck(Rest(ls.pending, offset), outcome)| < size
    requires rounds > |Rest(ls.pending, offset)|
    ensures !LoopRun(ls, offset, size, outcome, rounds).hasMore
    decreases rounds
  {
    if ls.hasMore {
      EachRoundShrinks(ls, offset, size, outcome);
      IterateConserves(ls, offset, size, outcome);
      LoopRunUnfolds(ls, offset, size, outcome, rounds);
      var next := Iterate(ls, offset, size, outcome);
      if next.hasMore {
        EndsInTime(next, offset, size, outcome, rounds - 1);
      } else {
        LoopRunUnfolds(next, offset, size, outcome, rounds - 1);
      }
    }
  }

  /**
   The loop ends if and only if, past the offset, fewer bookings than one batch can never be stored;
   it then ends within one round more than there are bookings past the offset.
   */
  lemma FinishesExactlyWhen(pending: seq<BookingId>, offset: nat, size: nat, outcome: Outcomes)
    requires Steady(outcome) && size > 0
    ensures (exists rounds: nat :: !LoopRun(Init(pending), offset, size, outcome, rounds).hasMore) <==>
            |Stuck(Rest(pending, offset), outcome)| < size
    ensures |Stuck(Rest(pending, offset), outcome)| < size ==>
            !LoopRun(Init(pending), offset, size, outcome, |Rest(pending, offset)| + 1).hasMore
  {
    if |Stuck(Rest(pending, offset), outcome)| < size {
      EndsInTime(Init(pending), offset, size, outcome, |Rest(pending, offset)| + 1);
    } else {
      forall rounds: nat
        ensures LoopRun(Init(pending), offset, size, outcome, rounds).hasMore
      {
        StuckForever(Init(pending), offset, size, outcome, rounds);
      }
    }
  }

  /** The general termination measure: a round whose full batch stores at least one booking shrinks the list. */
  lemma StoringShrinks(ls: LoopState, offset: nat, size: nat, outcome: Outcomes, id: BookingId)
    requires id in Window(ls.pending, offset, size) && outcome(ls.page, id) != Unsaved
    ensures |Iterate(ls, offset, size, outcome).pending| < |ls.pending|
  {
    var batch := Window(ls.pending, offset, size);
    EndingLength(batch, outcome, ls.page, {Unsaved});
    EndingMember(batch, outcome, ls.page, {Unsaved}, id);
  }

  /** The next batch is full and none of its bookings gets stored. */
  ghost predicate FullBatchStuck(ls: LoopState, offset: nat, size: nat, outcome: Outcomes) {
    var batch := Window(ls.pending, offset, size);
    ls.hasMore && |batch| == size && forall id | id in batch :: outcome(ls.page, id) == Unsaved
  }

  /** Every full batch that the run selects stores at least one of its bookings. */
  ghost predicate FullBatchesStore(pending: seq<BookingId>, offset: nat, size: nat, outcome: Outcomes) {
    forall rounds: nat :: !FullBatchStuck(LoopRun(Init(pending), offset, size, outcome, rounds), offset, size, outcome)
  }

  /** A round that asks for another one leaves fewer to expire, unless its batch was stuck. */
  lemma FullRoundShrinks(ls: LoopState, offset: nat, size: nat, outcome: Outcomes)
    requires ls.hasMore && size > 0 && !FullBatchStuck(ls, offset, size, outcome)
    ensures var ls' := Iterate(ls, offset, size, outcome);
            ls'.hasMore ==> |ls'.pending| < |ls.pending|
  {
    var batch := Window(ls.pending, offset, size);
    if |batch| == size {
      var id :| id in batch && outcome(ls.page, id) != Unsaved;
      StoringShrinks(ls, offset, size, outcome, id);
    }
  }

  lemma RoundShrinks(pending: seq<BookingId>, offset: nat, size: nat, outcome: Outcomes, rounds: nat)
    ensures var ls := LoopRun(Init(pending), offset, size, outcome, rounds);
            var ls' := LoopRun(Init(pending), offset, size, outcome, rounds + 1);
            size > 0 && FullBatchesStore(pending, offset, size, outcome) && ls.hasMore && ls'.hasMore ==>
              |ls'.pending| < |ls.pending|
  {
    var ls := LoopRun(Init(pending), offset, size, outcome, rounds);
    LoopRunExtends(Init(pending), offset, size, outcome, rounds);
    if size > 0 && FullBatchesStore(pending, offset, size, outcome) && ls.hasMore {
      FullRoundShrinks(ls, offset, size, outcome);
    }
  }

  lemma {:induction false} StoringRunShrinks(pending: seq<BookingId>, offset: nat, size: nat, outcome: Outcomes,
                                             rounds: nat)
    requires size > 0 && FullBatchesStore(pending, offset, size, outcome)
    ensures var ls := LoopRun(Init(pending), offset, size, outcome, rounds);
            ls.hasMore ==> |ls.pending| + rounds <= |pending|
    decreases rounds
  {
    if rounds > 0 {
      StoringRunShrinks(pending, offset, size, outcome, rounds - 1);
      if LoopRun(Init(pending), offset, size, outcome, rounds - 1).hasMore {
        RoundShrinks(pending, offset, size, outcome, rounds - 1);
      } else {
        LoopRunStays(Init(pending), offset, size, outcome, rounds - 1, rounds);
      }
    }
  }

  /** The number of expirable bookings is a measure: if every full batch selected stores some, the loop ends. */
  lemma StoringRunEnds(pending: seq<BookingId>, offset: nat, size: nat, outcome: Outcomes)
    requires size > 0 && FullBatchesStore(pending, offset, size, outcome)
    ensures !RunToEnd(pending, offset, size, outcome).hasMore
  {
    StoringRunShrinks(pending, offset, size, outcome, |pending| + 1);
  }

  /** Then a run that has stopped, after however many rounds, has run to the end. */
  lemma StoppedIsTheEnd(pending: seq<BookingId>, offset: nat, size: nat, outcome: Outcomes, done: nat)
    requires size > 0 && FullBatchesStore(pending, offset, size, outcome)
    requires !LoopRun(Init(pending), offset, size, outcome, done).hasMore
    ensures RunToEnd(pending, offset, size, outcome) == LoopRun(Init(pending), offset, size, outcome, done)
  {
    StoringRunEnds(pending, offset, size, outcome);
    if done <= |pending| + 1 {
      LoopRunStays(Init(pending), offset, size, outcome, done, |pending| + 1);
    } else {
      LoopRunStays(Init(pending), offset, size, outcome, |pending| + 1, done);
    }
  }

  lemma {:induction false} FewStuckAreNoBatch(pending: seq<BookingId>, offset: nat, size: nat, outcome: Outcomes,
                                              rounds: nat)
    requires Steady(outcome) && |Stuck(Rest(pending, offset), outcome)| < size
    ensures !FullBatchStuck(LoopRun(Init(pending), offset, size, outcome, rounds), offset, size, outcome)
  {
    var ls := LoopRun(Init(pending), offset, size, outcome, rounds);
    RunConserves(Init(pending), offset, size, outcome, rounds);
    if FullBatchStuck(ls, offset, size, outcome) {
      var rest := Rest(ls.pending, offset);
      assert Window(ls.pending, offset, size) == rest[..size] && rest == rest[..size] + rest[size..];
      EndingConcat(rest[..size], rest[size..], outcome, 0, {Unsaved});
      EndingAll(rest[..size], outcome, 0, {Unsaved});
    }
  }

  /**
   When each booking ends the same way in every round, the batches store some exactly when, past the
   offset, fewer bookings than one batch can never be stored: tasks may well end unsaved.
   */
  lemma FullBatchesStoreExactly(pending: seq<BookingId>, offset: nat, size: nat, outcome: Outcomes)
    requires Steady(outcome) && size > 0
    ensures FullBatchesStore(pending, offset, size, outcome) <==> |Stuck(Rest(pending, offset), outcome)| < size
  {
    if |Stuck(Rest(pending, offset), outcome)| < size {
      forall rounds: nat
        ensures !FullBatchStuck(LoopRun(Init(pending), offset, size, outcome, rounds), offset, size, outcome)
      {
        FewStuckAreNoBatch(pending, offset, size, outcome, rounds);
      }
    } else if FullBatchesStore(pending, offset, size, outcome) {
      StoringRunEnds(pending, offset, size, outcome);
      StuckForever(Init(pending), offset, size, outcome, |pending| + 1);
    }
  }

  /** Booking 2 can never be stored. */
  function OnlyTwoFails(): Outcomes {
    (page: nat, id: BookingId) => if id == 2 then Unsaved else Succeeded
  }

  /** A run in which tasks end unsaved, in a full batch and again in a later round, and which nevertheless ends. */
  lemma UnsavedTasksAreAllowed()
    ensures FullBatchesStore([1, 2, 3], 0, 2, OnlyTwoFails())
    ensures var ls := RunToEnd([1, 2, 3], 0, 2, OnlyTwoFails());
            !ls.hasMore && ls.pending == [2] && ls.succeeded == [1, 3]
  {
    var outcome, pending: seq<BookingId> := OnlyTwoFails(), [1, 2, 3];
    assert pending[1..] == [2, 3] && pending[1..][1..] == [3] && pending[1..][1..][1..] == [];
    assert Stuck(pending, outcome) == [2] && Good(pending, outcome) == [1, 3];
    assert Rest(pending, 0) == pending && Skipped(pending, 0) == [];
    FullBatchesStoreExactly(pending, 0, 2, outcome);
    StoringRunEnds(pending, 0, 2, outcome);
    FinishedRun(pending, 0, 2, outcome, 4);
  }

  // ---------- The documented promise ----------

  /**
   Without failures the loop ends, has expired every booking past the offset exactly once, and leaves
   the oldest min(n, offset). So all expirable bookings are expired if and only if there is no offset
   or nothing to expire.
   */
  lemma FailureFreeRun(pending: seq<BookingId>, offset: nat, size: nat, outcome: Outcomes, rounds: nat)
    requires forall page, id :: outcome(page, id) == Succeeded
    requires size > 0 && rounds > |pending|
    ensures var ls := LoopRun(Init(pending), offset, size, outcome, rounds);
            && !ls.hasMore
            && ls.pending == pending[..Min(offset, |pending|)]
            && ls.succeeded == pending[Min(offset, |pending|)..]
            && (ls.pending == [] <==> offset == 0 || pending == [])
  {
    var rest := Rest(pending, offset);
    EndingNone(rest, outcome, 0, {Unsaved});
    EndingAll(rest, outcome, 0, {Succeeded});
    EndsInTime(Init(pending), offset, size, outcome, rounds);
    FinishedRun(pending, offset, size, outcome, rounds);
  }

  /** The code skips one batch: whatever there is to expire, the oldest batch of it stays unexpired. */
  lemma TheCodeLeavesTheOldestBatch(pending: seq<BookingId>, size: nat, outcome: Outcomes, rounds: nat)
    requires forall page, id :: outcome(page, id) == Succeeded
    requires size > 0 && rounds > |pending|
    ensures LoopRun(Init(pending), size, size, outcome, rounds).pending == pending[..Min(size, |pending|)]
    ensures LoopRun(Init(pending), size, size, outcome, rounds).pending == [] <==> pending == []
  {
    FailureFreeRun(pending, size, size, outcome, rounds);
  }

  /** As long as no more than one batch is expirable, the code expires nothing, however the tasks would end. */
  lemma OneBatchIsNeverExpired(pending: seq<BookingId>, size: nat, outcome: Outcomes, rounds: nat)
    requires |pending| <= size
    ensures var ls := LoopRun(Init(pending), size, size, outcome, rounds);
            ls.pending == pending && ls.processed == 0 && ls.succeeded == [] && ls.failed == []
  {
  }
}
