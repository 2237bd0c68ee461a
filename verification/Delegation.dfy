/** Delegation chains and the non-amplification rule (oat/authority/delegation.py). */
module Delegation {
  datatype Link = Link(delegator: string, delegate: string, scope: seq<string>) {
    ghost predicate Holds(s: string) { s in scope }
  }

  datatype Chain = Chain(root: string, links: seq<Link>) {
    function Terminal(): string {
      if links == [] then root else links[|links| - 1].delegate
    }

    /** Who has to be the delegator of link `i`. */
    function ExpectedDelegator(i: nat): string
      requires i < |links|
    {
      if i == 0 then root else links[i - 1].delegate
    }
  }

  datatype Outcome =
    | NoDelegation
    | DelegationValid
    | RootIsNotActing
    | BrokenAtLink(index: nat)
    | AmplifiedAtLink(index: nat)
    | TerminalIsNotActing
    | ScopeInsufficient
  {
    predicate Ok() { NoDelegation? || DelegationValid? }
  }

  function ScopeSet(scope: seq<string>): set<string> {
    set s | s in scope
  }

  predicate Within(inner: seq<string>, outer: seq<string>) {
    forall s :: s in inner ==> s in outer
  }

  lemma WithinIsSubset(inner: seq<string>, outer: seq<string>)
    ensures Within(inner, outer) <==> ScopeSet(inner) <= ScopeSet(outer)
  {
    forall s ensures s in inner <==> s in ScopeSet(inner) {}
    forall s ensures s in outer <==> s in ScopeSet(outer) {}
  }

  predicate Broken(chain: Chain, i: nat)
    requires i < |chain.links|
  {
    chain.links[i].delegator != chain.ExpectedDelegator(i)
  }

  predicate Amplified(chain: Chain, i: nat)
    requires i < |chain.links|
  {
    i > 0 && !Within(chain.links[i].scope, chain.links[i - 1].scope)
  }

  /** Link `i` is sound: connected to its predecessor and no wider. */
  predicate SoundLink(chain: Chain, i: nat)
    requires i < |chain.links|
  {
    !Broken(chain, i) && !Amplified(chain, i)
  }

  predicate SoundUpTo(chain: Chain, n: nat)
    requires n <= |chain.links|
  {
    forall i :: 0 <= i < n ==> SoundLink(chain, i)
  }

  /** The first unsound link, or the number of links. */
  function FirstFault(chain: Chain, from: nat): (n: nat)
    requires from <= |chain.links|
    decreases |chain.links| - from
    ensures from <= n <= |chain.links|
    ensures forall i :: from <= i < n ==> SoundLink(chain, i)
    ensures n < |chain.links| ==> !SoundLink(chain, n)
  {
    if from == |chain.links| || !SoundLink(chain, from) then from else FirstFault(chain, from + 1)
  }

  function Judge(chain: Chain, acting: string, required: string): Outcome {
    if chain.links == [] then
      if chain.root == acting then NoDelegation else RootIsNotActing
    else
      var n := FirstFault(chain, 0);
      if n < |chain.links| then
        if Broken(chain, n) then BrokenAtLink(n) else AmplifiedAtLink(n)
      else if chain.Terminal() != acting then TerminalIsNotActing
      else if required !in chain.links[|chain.links| - 1].scope then ScopeInsufficient
      else DelegationValid
  }

  lemma SoundMeansConnectedAndNested(chain: Chain)
    ensures SoundUpTo(chain, |chain.links|) <==>
      && (forall i :: 0 <= i < |chain.links| ==> chain.links[i].delegator == chain.ExpectedDelegator(i))
      && (forall i :: 0 < i < |chain.links| ==> Within(chain.links[i].scope, chain.links[i - 1].scope))
  {
    if SoundUpTo(chain, |chain.links|) {
      forall i | 0 <= i < |chain.links|
        ensures chain.links[i].delegator == chain.ExpectedDelegator(i)
        ensures i > 0 ==> Within(chain.links[i].scope, chain.links[i - 1].scope)
      {
        assert SoundLink(chain, i);
      }
    }
  }

  /** The links are connected from the root and their scopes nested. */
  ghost predicate ConnectedAndNested(chain: Chain) {
    && (forall i :: 0 <= i < |chain.links| ==> chain.links[i].delegator == chain.ExpectedDelegator(i))
    && (forall i :: 0 < i < |chain.links| ==> Within(chain.links[i].scope, chain.links[i - 1].scope))
  }

  /** What is accepted at all, on the chain's own fields. */
  ghost predicate Acceptable(chain: Chain, acting: string, required: string) {
    if chain.links == [] then chain.root == acting
    else
      var last := chain.links[|chain.links| - 1];
      ConnectedAndNested(chain) && last.delegate == acting && required in last.scope
  }

  /** The judgement in full, the empty chain included: acceptance, and which error is reported when. */
  lemma EveryJudgement(chain: Chain, acting: string, required: string)
    ensures var outcome := Judge(chain, acting, required);
      && (outcome.Ok() <==> Acceptable(chain, acting, required))
      && (outcome.NoDelegation? <==> chain.links == [] && chain.root == acting)
      && (outcome.RootIsNotActing? <==> chain.links == [] && chain.root != acting)
      && (outcome.TerminalIsNotActing? <==>
            chain.links != [] && ConnectedAndNested(chain) && chain.links[|chain.links| - 1].delegate != acting)
      && (outcome.ScopeInsufficient? <==>
            && chain.links != [] && ConnectedAndNested(chain) && chain.links[|chain.links| - 1].delegate == acting
            && required !in chain.links[|chain.links| - 1].scope)
  {
    SoundMeansConnectedAndNested(chain);
    if chain.links != [] {
      JudgementMeans(chain, acting, required);
    }
  }

  /** Link `k` is the first at fault: all links up to it are connected, but it holds a scope that the one before it does
      not. */
  ghost predicate AmplifiesFirst(chain: Chain, k: nat) {
    && 0 < k < |chain.links|
    && (forall i :: 0 <= i <= k ==> chain.links[i].delegator == chain.ExpectedDelegator(i))
    && (forall i :: 0 < i < k ==> Within(chain.links[i].scope, chain.links[i - 1].scope))
    && !Within(chain.links[k].scope, chain.links[k - 1].scope)
  }

  ghost predicate FirstAmplified(chain: Chain) {
    exists k: nat :: AmplifiesFirst(chain, k)
  }

  lemma AmplifiedMeans(chain: Chain, acting: string, required: string)
    ensures Judge(chain, acting, required).AmplifiedAtLink? <==> FirstAmplified(chain)
  {
    if k: nat :| AmplifiesFirst(chain, k) {
      AmplifiesFirstMeans(chain, k);
      JudgementMeans(chain, acting, required);
    }
    if Judge(chain, acting, required).AmplifiedAtLink? {
      AmplifiesFirstMeans(chain, Judge(chain, acting, required).index);
      JudgementMeans(chain, acting, required);
    }
  }

  lemma AmplifiesFirstMeans(chain: Chain, k: nat)
    ensures AmplifiesFirst(chain, k) <==>
      k < |chain.links| && SoundUpTo(chain, k) && !Broken(chain, k) && Amplified(chain, k)
  {
    if k < |chain.links| && SoundUpTo(chain, k) {
      forall i | 0 <= i < k
        ensures chain.links[i].delegator == chain.ExpectedDelegator(i)
        ensures i > 0 ==> Within(chain.links[i].scope, chain.links[i - 1].scope)
      {
        assert SoundLink(chain, i);
      }
    }
  }

  /** The judgement of a non-empty chain: when it is valid, and which link an error names. */
  lemma JudgementMeans(chain: Chain, acting: string, required: string)
    requires chain.links != []
    ensures var outcome := Judge(chain, acting, required);
      && (outcome.DelegationValid? <==>
            && (forall i :: 0 <= i < |chain.links| ==> chain.links[i].delegator == chain.ExpectedDelegator(i))
            && (forall i :: 0 < i < |chain.links| ==> Within(chain.links[i].scope, chain.links[i - 1].scope))
            && chain.Terminal() == acting
            && required in chain.links[|chain.links| - 1].scope)
      && (forall k: nat :: outcome == BrokenAtLink(k) <==>
            k < |chain.links| && SoundUpTo(chain, k) && Broken(chain, k))
      && (forall k: nat :: outcome == AmplifiedAtLink(k) <==>
            k < |chain.links| && SoundUpTo(chain, k) && !Broken(chain, k) && Amplified(chain, k))
  {
    SoundMeansConnectedAndNested(chain);
    var n := FirstFault(chain, 0);
    assert n == |chain.links| <==> SoundUpTo(chain, |chain.links|);
    forall k: nat | k < |chain.links| && SoundUpTo(chain, k) && !SoundLink(chain, k) ensures k == n {}
  }

  method ValidateDelegation(chain: Chain, acting: string, required: string) returns (outcome: Outcome)
    ensures outcome == Judge(chain, acting, required)
  {
    if chain.links == [] {
      return if chain.root != acting then RootIsNotActing else NoDelegation;
    }
    var expectedDelegator := chain.root;
    var held: set<string> := {};
    var index := 0;
    while index < |chain.links|
      invariant 0 <= index <= |chain.links|
      invariant FirstFault(chain, 0) == FirstFault(chain, index)
      invariant index < |chain.links| ==> expectedDelegator == chain.ExpectedDelegator(index)
      invariant index > 0 ==> held == ScopeSet(chain.links[index - 1].scope)
    {
      var link := chain.links[index];
      if link.delegator != expectedDelegator {
        return BrokenAtLink(index);
      }
      var scope := ScopeSet(link.scope);
      if index > 0 {
        WithinIsSubset(link.scope, chain.links[index - 1].scope);
      }
      if index > 0 && !(scope <= held) {
        return AmplifiedAtLink(index);
      }
      held := scope;
      expectedDelegator := link.delegate;
      index := index + 1;
    }
    if chain.Terminal() != acting {
      return TerminalIsNotActing;
    }
    if required !in held {
      return ScopeInsufficient;
    }
    return DelegationValid;
  }

  ghost predicate Accepts(chain: Chain, acting: string, required: string) {
    Judge(chain, acting, required).DelegationValid?
  }

  /** Scopes only narrow along a sound chain. */
  lemma {:induction false} ScopesNarrow(chain: Chain, i: nat, j: nat)
    requires i <= j < |chain.links| && SoundUpTo(chain, |chain.links|)
    ensures Within(chain.links[j].scope, chain.links[i].scope)
  {
    if i == j {
    } else {
      ScopesNarrow(chain, i, j - 1);
      assert SoundLink(chain, j);
    }
  }

  /** Non-amplification end to end: in an accepted chain every link holds the required scope. */
  lemma EveryLinkHoldsTheScope(chain: Chain, acting: string, required: string)
    requires Accepts(chain, acting, required)
    ensures forall i :: 0 <= i < |chain.links| ==> chain.links[i].Holds(required)
  {
    forall i | 0 <= i < |chain.links| ensures chain.links[i].Holds(required) {
      ScopesNarrow(chain, i, |chain.links| - 1);
    }
  }

  function Prefix(chain: Chain, n: nat): Chain
    requires n <= |chain.links|
  {
    Chain(chain.root, chain.links[..n])
  }

  /** Every non-empty prefix stands on its own, for its own terminal and any scope its last link holds. */
  lemma PrefixesAreAccepted(chain: Chain, acting: string, required: string, n: nat, s: string)
    requires Accepts(chain, acting, required) && 0 < n <= |chain.links|
    ensures Accepts(Prefix(chain, n), chain.links[n - 1].delegate, s) <==> chain.links[n - 1].Holds(s)
  {
    var prefix := Prefix(chain, n);
    forall i | 0 <= i < n ensures SoundLink(prefix, i) {
      assert SoundLink(chain, i);
    }
  }

  function Join(first: Chain, second: Chain): Chain {
    Chain(first.root, first.links + second.links)
  }

  /** Two accepted chains concatenate exactly when the second starts where the first ended and does not widen it. */
  lemma JoinIsAcceptedIff(first: Chain, second: Chain, a1: string, r1: string, a2: string, r2: string)
    requires Accepts(first, a1, r1) && Accepts(second, a2, r2)
    ensures Accepts(Join(first, second), a2, r2) <==>
      && second.root == first.Terminal()
      && Within(second.links[0].scope, first.links[|first.links| - 1].scope)
  {
    var joined, m := Join(first, second), |first.links|;
    forall i | 0 <= i < |joined.links|
      ensures i < m ==> SoundLink(joined, i) == SoundLink(first, i)
      ensures m < i ==> SoundLink(joined, i) == SoundLink(second, i - m)
    {
      if m < i { assert joined.links[i - 1] == second.links[i - m - 1]; }
    }
    assert joined.links[|joined.links| - 1] == second.links[|second.links| - 1];
    assert joined.links[m] == second.links[0] && joined.links[m - 1] == first.links[m - 1];
    assert SoundLink(second, 0);
    forall i | 0 <= i < m ensures SoundLink(joined, i) {
      assert SoundLink(first, i);
    }
    forall i | m < i < |joined.links| ensures SoundLink(joined, i) {
      assert SoundLink(second, i - m);
    }
    var fault := FirstFault(joined, 0);
    if fault < |joined.links| {
      assert fault == m;
      assert !SoundLink(joined, m);
    } else {
      assert SoundLink(joined, m);
    }
  }
}
