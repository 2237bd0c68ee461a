/** Authority epochs over logical time (oat/authority/current_state.py). */
module CurrentState {
  import opened Wrappers

  datatype GrantStatus = Revoked | Superseded | Active | UnknownGrant

  datatype AuthorityState = AuthorityState(
    epoch: int,
    effectiveFrom: int,
    activeGrants: seq<string>,
    revokedGrants: seq<string>,
    supersededGrants: seq<string>)
  {
    /** The grant is listed as active, and neither as revoked nor as superseded. */
    predicate Holds(grantId: string) {
      grantId in activeGrants && grantId !in revokedGrants && grantId !in supersededGrants
    }

    /** Revocation comes first, and a grant is active only when no other list has it. */
    function StatusOf(grantId: string): (r: GrantStatus)
      ensures r.Revoked? <==> grantId in revokedGrants
      ensures r.Superseded? <==> grantId in supersededGrants && grantId !in revokedGrants
      ensures r.Active? <==> Holds(grantId)
    {
      if grantId in revokedGrants then Revoked
      else if grantId in supersededGrants then Superseded
      else if grantId in activeGrants then Active
      else UnknownGrant
    }
  }

  ghost predicate Sorted(epochs: seq<AuthorityState>) {
    forall i, j :: 0 <= i < j < |epochs| ==> epochs[i].effectiveFrom <= epochs[j].effectiveFrom
  }

  // ----- stable sort by effectiveFrom -----

  /** Insert after every epoch that is not later: the step of a stable sort. */
  function InsertStable(epochs: seq<AuthorityState>, e: AuthorityState): seq<AuthorityState> {
    if epochs == [] || epochs[|epochs| - 1].effectiveFrom <= e.effectiveFrom then epochs + [e]
    else InsertStable(epochs[..|epochs| - 1], e) + [epochs[|epochs| - 1]]
  }

  function StableSort(epochs: seq<AuthorityState>): seq<AuthorityState> {
    if epochs == [] then []
    else InsertStable(StableSort(epochs[..|epochs| - 1]), epochs[|epochs| - 1])
  }

  lemma {:induction false} InsertStableSorts(epochs: seq<AuthorityState>, e: AuthorityState)
    requires Sorted(epochs)
    ensures var r := InsertStable(epochs, e);
      && |r| == |epochs| + 1
      && Sorted(r)
      && (r[|epochs|] == e || (epochs != [] && r[|epochs|] == epochs[|epochs| - 1]))
  {
    if epochs == [] || epochs[|epochs| - 1].effectiveFrom <= e.effectiveFrom {
    } else {
      InsertStableSorts(epochs[..|epochs| - 1], e);
    }
  }

  lemma {:induction false} StableSortSorts(epochs: seq<AuthorityState>)
    ensures Sorted(StableSort(epochs)) && |StableSort(epochs)| == |epochs|
  {
    if epochs == [] {
    } else {
      StableSortSorts(epochs[..|epochs| - 1]);
      InsertStableSorts(StableSort(epochs[..|epochs| - 1]), epochs[|epochs| - 1]);
    }
  }

  lemma {:induction false} SortingSortedChangesNothing(epochs: seq<AuthorityState>)
    requires Sorted(epochs)
    ensures StableSort(epochs) == epochs
  {
    if epochs == [] {
    } else {
      var front, last := epochs[..|epochs| - 1], epochs[|epochs| - 1];
      SortingSortedChangesNothing(front);
      assert epochs == front + [last];
    }
  }

  // ----- lookup -----

  /** How many leading epochs the scan passes before it breaks. */
  function Covered(epochs: seq<AuthorityState>, tick: int): (n: nat)
    ensures n <= |epochs|
    ensures forall i :: 0 <= i < n ==> epochs[i].effectiveFrom <= tick
    ensures n < |epochs| ==> tick < epochs[n].effectiveFrom
  {
    if epochs == [] || tick < epochs[0].effectiveFrom then 0 else 1 + Covered(epochs[1..], tick)
  }

  /** The epoch in force at `tick` as the early-breaking scan finds it. */
  function At(epochs: seq<AuthorityState>, tick: int): Option<AuthorityState> {
    var n := Covered(epochs, tick);
    if n == 0 then None else Some(epochs[n - 1])
  }

  /** A plain search of the history in the order the epochs were added, no sorting and no early exit. */
  function Newest(history: seq<AuthorityState>, tick: int): Option<AuthorityState> {
    if history == [] then None
    else
      var last := history[|history| - 1];
      var best := Newest(history[..|history| - 1], tick);
      if last.effectiveFrom <= tick && (best.None? || best.value.effectiveFrom <= last.effectiveFrom)
      then Some(last) else best
  }

  /** `history[i]` covers `tick`, and nothing covering it is later, or equally late and added after. */
  ghost predicate InForce(history: seq<AuthorityState>, tick: int, i: nat)
    requires i < |history|
  {
    && history[i].effectiveFrom <= tick
    && forall j :: 0 <= j < |history| && history[j].effectiveFrom <= tick ==>
         || history[j].effectiveFrom < history[i].effectiveFrom
         || (history[j].effectiveFrom == history[i].effectiveFrom && j <= i)
  }

  lemma {:induction false} NewestIsInForce(history: seq<AuthorityState>, tick: int) returns (i: nat)
    ensures Newest(history, tick).Some? ==>
      i < |history| && Newest(history, tick) == Some(history[i]) && InForce(history, tick, i)
    ensures Newest(history, tick).None? ==> forall j :: 0 <= j < |history| ==> tick < history[j].effectiveFrom
  {
    i := 0;
    if history == [] {
    } else {
      var n := |history| - 1;
      var front := history[..n];
      i := NewestIsInForce(front, tick);
      assert forall j :: 0 <= j < n ==> front[j] == history[j];
      if Newest(history, tick) == Some(history[n]) && Newest(front, tick) != Some(history[n]) {
        i := n;
      } else if history[n].effectiveFrom <= tick {
        i := if Newest(front, tick).None? || Newest(front, tick).value.effectiveFrom <= history[n].effectiveFrom
        then n else i;
      }
    }
  }

  /** On a sorted list the forward scan agrees with looking at the last epoch first. */
  lemma AtFromEnd(epochs: seq<AuthorityState>, tick: int)
    requires Sorted(epochs) && epochs != []
    ensures At(epochs, tick) ==
      if epochs[|epochs| - 1].effectiveFrom <= tick then Some(epochs[|epochs| - 1])
      else At(epochs[..|epochs| - 1], tick)
  {
    var n := |epochs| - 1;
    var front := epochs[..n];
    var a, b := Covered(epochs, tick), Covered(front, tick);
    if epochs[n].effectiveFrom <= tick {
      assert a == |epochs|;
    } else {
      assert a <= n;
      assert !(a < b) && !(b < a) by {
        assert a < n ==> front[a] == epochs[a];
        assert b < n ==> front[b] == epochs[b];
      }
    }
  }

  lemma {:induction false} AtInsert(epochs: seq<AuthorityState>, e: AuthorityState, tick: int)
    requires Sorted(epochs)
    ensures At(InsertStable(epochs, e), tick) ==
      var was := At(epochs, tick);
      if e.effectiveFrom <= tick && (was.None? || was.value.effectiveFrom <= e.effectiveFrom) then Some(e) else was
  {
    InsertStableSorts(epochs, e);
    var inserted := InsertStable(epochs, e);
    AtFromEnd(inserted, tick);
    if epochs == [] {
      assert inserted[..0] == [];
    } else {
      AtFromEnd(epochs, tick);
      var n := |epochs| - 1;
      if epochs[n].effectiveFrom <= e.effectiveFrom {
        assert inserted[..|epochs|] == epochs;
      } else {
        AtInsert(epochs[..n], e, tick);
        assert inserted[..|inserted| - 1] == InsertStable(epochs[..n], e);
      }
    }
  }

  /** The sorted store and the plain search of the unsorted history give the same answer at every tick. */
  lemma {:induction false} LookupMatchesHistory(history: seq<AuthorityState>, tick: int)
    ensures At(StableSort(history), tick) == Newest(history, tick)
  {
    if history == [] {
    } else {
      var front := history[..|history| - 1];
      LookupMatchesHistory(front, tick);
      StableSortSorts(front);
      AtInsert(StableSort(front), history[|history| - 1], tick);
    }
  }

  /** An epoch that takes effect after `tick` changes no answer at `tick`. */
  lemma LaterEpochChangesNothing(epochs: seq<AuthorityState>, e: AuthorityState, tick: int)
    requires Sorted(epochs) && tick < e.effectiveFrom
    ensures At(StableSort(epochs + [e]), tick) == At(epochs, tick)
  {
    SortingSortedChangesNothing(epochs);
    assert (epochs + [e])[..|epochs|] == epochs;
    AtInsert(epochs, e, tick);
  }

  /** Sorting after each addition gives the same list as sorting the whole history once. */
  lemma SortOnceMore(history: seq<AuthorityState>, e: AuthorityState)
    ensures StableSort(StableSort(history) + [e]) == StableSort(history + [e])
  {
    StableSortSorts(history);
    SortingSortedChangesNothing(StableSort(history));
    assert (StableSort(history) + [e])[..|history|] == StableSort(history);
    assert (history + [e])[..|history|] == history;
  }

  class AuthorityStore {
    var epochs: seq<AuthorityState>
    ghost var history: seq<AuthorityState>

    ghost predicate Valid()
      reads this
    {
      epochs == StableSort(history)
    }

    constructor ()
      ensures Valid() && epochs == [] && history == []
    {
      epochs, history := [], [];
    }

    method Add(state: AuthorityState)
      requires Valid()
      modifies this
      ensures Valid() && history == old(history) + [state]
      ensures epochs == StableSort(old(epochs) + [state])
      ensures forall tick :: At(epochs, tick) == Newest(history, tick)
      ensures forall tick :: tick < state.effectiveFrom ==> At(epochs, tick) == At(old(epochs), tick)
    {
      SortOnceMore(history, state);
      ghost var before := epochs;
      epochs := StableSort(epochs + [state]);
      history := history + [state];
      forall tick ensures At(epochs, tick) == Newest(history, tick) {
        LookupMatchesHistory(history, tick);
      }
      StableSortSorts(old(history));
      forall tick | tick < state.effectiveFrom ensures At(epochs, tick) == At(before, tick) {
        LaterEpochChangesNothing(before, state, tick);
      }
    }

    method Lookup(tick: int) returns (candidate: Option<AuthorityState>)
      ensures candidate == At(epochs, tick)
      ensures Valid() ==> candidate == Newest(history, tick)
    {
      candidate := None;
      var i := 0;
      while i < |epochs|
        invariant 0 <= i <= Covered(epochs, tick)
        invariant candidate == if i == 0 then None else Some(epochs[i - 1])
      {
        if epochs[i].effectiveFrom <= tick {
          candidate := Some(epochs[i]);
          i := i + 1;
        } else {
          break;
        }
      }
      LookupMatchesHistory(history, tick);
    }
  }
}
