/** Coverage of binding dimensions by a candidate's probes (oat/qualification/probes.py:83-111). Action values are
    kept as the text `str` makes of them. */
module Probes {
  import Sse

  datatype Probe = Probe(path: string, action: map<string, string>)

  /** `str(action.get(d))`: a missing field reads as the text None. */
  function FieldText(action: map<string, string>, d: string): string {
    if d in action then action[d] else "None"
  }

  predicate IsBlank(x: string) {
    forall c :: c in x ==> Sse.IsTextBlank(c)
  }

  predicate DiffersOnlyIn(a: map<string, string>, b: map<string, string>, dim: string, exposed: seq<string>) {
    && FieldText(a, dim) != FieldText(b, dim)
    && (exists d :: d in exposed && d != dim && FieldText(a, d) == FieldText(b, d) && !IsBlank(FieldText(a, d)))
    && (forall d :: d in exposed && d != dim ==> FieldText(a, d) == FieldText(b, d))
  }

  /** A pair counts for one dimension at most, and two equal actions for none. */
  lemma PairCountsOnce(a: map<string, string>, b: map<string, string>, d: string, e: string, exposed: seq<string>)
    requires d in exposed && e in exposed && DiffersOnlyIn(a, b, d, exposed) && DiffersOnlyIn(a, b, e, exposed)
    ensures d == e && a != b
  {
  }

  /** The counted pairs: the texts differ in the dimension, agree in every other exposed field, and one of these has a
      character that is no blank. A missing field has the text None. */
  lemma CountedPairWrittenOut(a: map<string, string>, b: map<string, string>, dim: string, exposed: seq<string>)
    ensures DiffersOnlyIn(a, b, dim, exposed) <==>
      && FieldText(a, dim) != FieldText(b, dim)
      && (forall i :: 0 <= i < |exposed| && exposed[i] != dim ==> FieldText(a, exposed[i]) == FieldText(b, exposed[i]))
      && exists i, j :: 0 <= i < |exposed| && exposed[i] != dim && 0 <= j < |FieldText(a, exposed[i])|
                        && !Sse.IsTextBlank(FieldText(a, exposed[i])[j])
    ensures FieldText(a, dim) == if dim !in a then "None" else a[dim]
  {
    if DiffersOnlyIn(a, b, dim, exposed) {
      var d :| d in exposed && d != dim && !IsBlank(FieldText(a, d));
      var i :| 0 <= i < |exposed| && exposed[i] == d;
      var c :| c in FieldText(a, d) && !Sse.IsTextBlank(c);
      var j :| 0 <= j < |FieldText(a, d)| && FieldText(a, d)[j] == c;
    }
  }

  lemma DifferenceIsSymmetric(a: map<string, string>, b: map<string, string>, dim: string, exposed: seq<string>)
    ensures DiffersOnlyIn(a, b, dim, exposed) == DiffersOnlyIn(b, a, dim, exposed)
  {
  }

  /** Two probes on one path differ in `d` alone, the rest stable and not all blank. */
  ghost predicate MateriallyVaried(probes: seq<Probe>, exposed: seq<string>, d: string) {
    && d in exposed
    && (exists p, q :: p in probes && q in probes && p.path == q.path && DiffersOnlyIn(p.action, q.action, d, exposed))
  }

  // ----- the nested loops -----

  function PairDims(a: Probe, b: Probe, exposed: seq<string>): set<string> {
    set d | d in exposed && DiffersOnlyIn(a.action, b.action, d, exposed)
  }

  function DimsAgainst(a: Probe, rest: seq<Probe>, exposed: seq<string>): set<string> {
    if rest == [] then {} else PairDims(a, rest[0], exposed) + DimsAgainst(a, rest[1..], exposed)
  }

  function GroupDims(group: seq<Probe>, exposed: seq<string>): set<string> {
    if group == [] then {} else DimsAgainst(group[0], group[1..], exposed) + GroupDims(group[1..], exposed)
  }

  lemma {:induction false} DimsAgainstMeans(a: Probe, rest: seq<Probe>, exposed: seq<string>, d: string)
    ensures d in DimsAgainst(a, rest, exposed) <==>
      d in exposed && exists q :: q in rest && DiffersOnlyIn(a.action, q.action, d, exposed)
  {
    if rest == [] {
    } else {
      DimsAgainstMeans(a, rest[1..], exposed, d);
      assert forall q :: q in rest <==> q == rest[0] || q in rest[1..];
    }
  }

  lemma {:induction false} GroupDimsMeans(group: seq<Probe>, exposed: seq<string>, d: string)
    ensures d in GroupDims(group, exposed) <==>
      d in exposed && exists p, q :: p in group && q in group && DiffersOnlyIn(p.action, q.action, d, exposed)
  {
    if group == [] {
    } else {
      var head, tail := group[0], group[1..];
      GroupDimsMeans(tail, exposed, d);
      DimsAgainstMeans(head, tail, exposed, d);
      assert forall q :: q in group <==> q == head || q in tail;
      forall p, q ensures DiffersOnlyIn(p, q, d, exposed) == DiffersOnlyIn(q, p, d, exposed) {
        DifferenceIsSymmetric(p, q, d, exposed);
      }
    }
  }

  /** One pair, skipping dimensions that are already found. */
  method ScanPair(a: Probe, b: Probe, exposed: seq<string>, before: set<string>) returns (varied: set<string>)
    ensures varied == before + PairDims(a, b, exposed)
  {
    varied := before;
    for k := 0 to |exposed|
      invariant forall d :: d in varied <==>
        d in before || (d in exposed[..k] && DiffersOnlyIn(a.action, b.action, d, exposed))
    {
      var dim := exposed[k];
      if dim !in varied && DiffersOnlyIn(a.action, b.action, dim, exposed) {
        varied := varied + {dim};
      }
      assert exposed[..k + 1] == exposed[..k] + [dim];
    }
    assert exposed[..|exposed|] == exposed;
  }

  /** One probe against all later ones of its group. */
  method ScanRest(a: Probe, rest: seq<Probe>, exposed: seq<string>, before: set<string>) returns (varied: set<string>)
    ensures varied == before + DimsAgainst(a, rest, exposed)
  {
    varied := before;
    for j := 0 to |rest|
      invariant varied + DimsAgainst(a, rest[j..], exposed) == before + DimsAgainst(a, rest, exposed)
    {
      assert rest[j..][0] == rest[j] && rest[j..][1..] == rest[j + 1..];
      varied := ScanPair(a, rest[j], exposed, varied);
    }
  }

  /** All pairs of one group. */
  method ScanGroup(group: seq<Probe>, exposed: seq<string>, before: set<string>) returns (varied: set<string>)
    ensures varied == before + GroupDims(group, exposed)
  {
    varied := before;
    for i := 0 to |group|
      invariant varied + GroupDims(group[i..], exposed) == before + GroupDims(group, exposed)
    {
      assert group[i..][0] == group[i] && group[i..][1..] == group[i + 1..];
      varied := ScanRest(group[i], group[i + 1..], exposed, varied);
    }
  }

  /** The probes on one path, in order. */
  function OnPath(probes: seq<Probe>, path: string): seq<Probe> {
    if probes == [] then []
    else
      var last := probes[|probes| - 1];
      OnPath(probes[..|probes| - 1], path) + if last.path == path then [last] else []
  }

  lemma {:induction false} OnPathMeans(probes: seq<Probe>, path: string)
    ensures forall p :: p in OnPath(probes, path) <==> p in probes && p.path == path
  {
    if probes == [] {
    } else {
      var front, last := probes[..|probes| - 1], probes[|probes| - 1];
      OnPathMeans(front, path);
      assert forall p :: p in probes <==> p in front || p == last;
    }
  }

  /** The order of the probes is kept. */
  lemma {:induction false} OnPathJoins(a: seq<Probe>, b: seq<Probe>, path: string)
    ensures OnPath(a + b, path) == OnPath(a, path) + OnPath(b, path)
  {
    if b == [] {
      assert a + b == a;
    } else {
      assert (a + b)[..|a + b| - 1] == a + b[..|b| - 1];
      OnPathJoins(a, b[..|b| - 1], path);
    }
  }

  method GroupByPath(probes: seq<Probe>) returns (groups: map<string, seq<Probe>>)
    ensures Grouped(probes, groups)
  {
    groups := map[];
    for n := 0 to |probes|
      invariant Grouped(probes[..n], groups)
    {
      var probe := probes[n];
      GroupsGrow(probes[..n], groups, probe);
      groups := groups[probe.path := (if probe.path in groups then groups[probe.path] else []) + [probe]];
      assert probes[..n + 1] == probes[..n] + [probe];
    }
    assert probes[..|probes|] == probes;
  }

  ghost predicate Grouped(probes: seq<Probe>, groups: map<string, seq<Probe>>) {
    && (forall path :: path in groups <==> exists p :: p in probes && p.path == path)
    && (forall path :: path in groups ==> groups[path] == OnPath(probes, path))
  }

  lemma GroupsGrow(probes: seq<Probe>, groups: map<string, seq<Probe>>, probe: Probe)
    requires Grouped(probes, groups)
    ensures Grouped(probes + [probe],
                    groups[probe.path := (if probe.path in groups then groups[probe.path] else []) + [probe]])
  {
    var longer := probes + [probe];
    assert longer[..|probes|] == probes;
    EmptyOnPath(probes, probe.path);
    forall path
      ensures (exists p :: p in longer && p.path == path) <==> path == probe.path || path in groups
    {
      if path == probe.path {
        assert probe in longer;
      } else if path in groups {
        var p :| p in probes && p.path == path;
        assert p in longer;
      }
    }
    forall path | path != probe.path
      ensures OnPath(longer, path) == OnPath(probes, path)
    {
      assert OnPath(probes, path) + [] == OnPath(probes, path);
    }
  }

  lemma EmptyOnPath(probes: seq<Probe>, path: string)
    ensures (forall p :: p in probes ==> p.path != path) ==> OnPath(probes, path) == []
  {
    OnPathMeans(probes, path);
    if OnPath(probes, path) != [] {
      assert OnPath(probes, path)[0] in OnPath(probes, path);
    }
  }

  /** Exactly the exposed dimensions that some pair of probes on one path varies materially. */
  method MateriallyVariedDimensions(probes: seq<Probe>, exposed: seq<string>) returns (varied: set<string>)
    ensures forall d :: d in varied <==> MateriallyVaried(probes, exposed, d)
  {
    varied := {};
    var groups := GroupByPath(probes);
    var left := groups.Keys;
    while left != {}
      invariant left <= groups.Keys
      invariant forall d :: d in varied <==>
        exists path :: path in groups.Keys - left && d in GroupDims(groups[path], exposed)
    {
      var path :| path in left;
      ghost var before := varied;
      varied := ScanGroup(groups[path], exposed, varied);
      left := left - {path};
      assert forall x :: x in groups.Keys - left <==> x in groups.Keys - (left + {path}) || x == path;
    }
    forall d ensures d in varied <==> MateriallyVaried(probes, exposed, d) {
      GroupsCoverProbes(probes, groups, exposed, d);
    }
  }

  lemma GroupsCoverProbes(probes: seq<Probe>, groups: map<string, seq<Probe>>, exposed: seq<string>, d: string)
    requires Grouped(probes, groups)
    ensures (exists path :: path in groups && d in GroupDims(groups[path], exposed)) <==>
      MateriallyVaried(probes, exposed, d)
  {
    forall path | path in groups
      ensures d in GroupDims(groups[path], exposed) <==>
        && d in exposed
        && (exists p, q :: p in probes && q in probes && p.path == path == q.path
                           && DiffersOnlyIn(p.action, q.action, d, exposed))
    {
      GroupDimsMeans(groups[path], exposed, d);
      OnPathMeans(probes, path);
    }
    if MateriallyVaried(probes, exposed, d) {
      var p, q :| p in probes && q in probes && p.path == q.path && DiffersOnlyIn(p.action, q.action, d, exposed);
      assert p.path in groups;
    }
  }

  /** The order of the probes does not matter, and further probes never take a dimension back. */
  lemma CoverageOnlyGrows(probes: seq<Probe>, more: seq<Probe>, exposed: seq<string>, d: string)
    requires forall p :: p in probes ==> p in more
    requires MateriallyVaried(probes, exposed, d)
    ensures MateriallyVaried(more, exposed, d)
  {
    var p, q :| p in probes && q in probes && p.path == q.path && DiffersOnlyIn(p.action, q.action, d, exposed);
    assert p in more && q in more;
  }

  // ----- context that is present -----

  /** Another exposed field is there on both sides, equal and not blank: what the documentation calls stable context. */
  ghost predicate PresentContext(a: map<string, string>, b: map<string, string>, dim: string, exposed: seq<string>) {
    exists d :: d in exposed && d != dim && d in a && d in b && a[d] == b[d] && !IsBlank(a[d])
  }

  /** Another exposed field is there on both sides and not blank. */
  ghost predicate SharedField(a: map<string, string>, b: map<string, string>, dim: string, exposed: seq<string>) {
    exists d :: d in exposed && d != dim && d in a && d in b && !IsBlank(a[d])
  }

  /** Another exposed field is missing on a side and reads as None on both. */
  ghost predicate MissingField(a: map<string, string>, b: map<string, string>, dim: string, exposed: seq<string>) {
    exists d :: d in exposed && d != dim && (d !in a || d !in b) && FieldText(a, d) == FieldText(b, d) == "None"
  }

  /** Of a counted pair: it has present context exactly when some other exposed field is there on both sides and not
      blank, and when it has none, then only because a missing field reads as None. */
  lemma CountedPairHasContextIff(a: map<string, string>, b: map<string, string>, dim: string, exposed: seq<string>)
    requires DiffersOnlyIn(a, b, dim, exposed)
    ensures PresentContext(a, b, dim, exposed) <==> SharedField(a, b, dim, exposed)
    ensures PresentContext(a, b, dim, exposed) || MissingField(a, b, dim, exposed)
  {
    if d :| d in exposed && d != dim && d in a && d in b && !IsBlank(a[d]) {
      assert FieldText(a, d) == FieldText(b, d);
      assert PresentContext(a, b, dim, exposed);
    } else {
      var d :| d in exposed && d != dim && FieldText(a, d) == FieldText(b, d) && !IsBlank(FieldText(a, d));
      assert d !in a || d !in b;
      assert MissingField(a, b, dim, exposed);
    }
  }

  /** What the documentation promises of a counted dimension. */
  ghost predicate VariedInContext(probes: seq<Probe>, exposed: seq<string>, d: string) {
    && d in exposed
    && exists p, q :: p in probes && q in probes && p.path == q.path && DiffersOnlyIn(p.action, q.action, d, exposed)
                      && PresentContext(p.action, q.action, d, exposed)
  }

  /** A counted dimension keeps that promise exactly when some pair that counts it shares another exposed field. */
  lemma VariedInContextIff(probes: seq<Probe>, exposed: seq<string>, d: string)
    ensures VariedInContext(probes, exposed, d) <==>
      && d in exposed
      && exists p, q :: p in probes && q in probes && p.path == q.path
                        && DiffersOnlyIn(p.action, q.action, d, exposed) && SharedField(p.action, q.action, d, exposed)
  {
    forall p, q | p in probes && q in probes && DiffersOnlyIn(p.action, q.action, d, exposed)
      ensures PresentContext(p.action, q.action, d, exposed) <==> SharedField(p.action, q.action, d, exposed)
    {
      CountedPairHasContextIff(p.action, q.action, d, exposed);
    }
  }

  /** The promise is kept by all probes that fill in every exposed field. */
  lemma FullProbesKeepContext(probes: seq<Probe>, exposed: seq<string>, d: string)
    requires forall p, e :: p in probes && e in exposed ==> e in p.action
    ensures MateriallyVaried(probes, exposed, d) <==> VariedInContext(probes, exposed, d)
  {
    if MateriallyVaried(probes, exposed, d) {
      var p, q :| p in probes && q in probes && p.path == q.path && DiffersOnlyIn(p.action, q.action, d, exposed);
      CountedPairHasContextIff(p.action, q.action, d, exposed);
    }
  }

  /** A field missing on both sides counts as stable context, because its text is not blank. */
  lemma MissingFieldsAreContext(d: string, e: string, x: string, y: string)
    requires d != e && x != y
    ensures var probes := [Probe("/p", map[d := x]), Probe("/p", map[d := y])];
      MateriallyVaried(probes, [d, e], d) && !VariedInContext(probes, [d, e], d)
  {
    var p, q := Probe("/p", map[d := x]), Probe("/p", map[d := y]);
    assert "None"[0] == 'N' && 'N' in "None";
    assert !IsBlank("None");
    assert e in [d, e] && FieldText(p.action, e) == "None" == FieldText(q.action, e);
    assert DiffersOnlyIn(p.action, q.action, d, [d, e]);
    assert p in [p, q] && q in [p, q];
  }
}
