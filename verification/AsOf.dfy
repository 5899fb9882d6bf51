/** Which contract revisions are active at a date: the latest dated one of ordinary lineages, the
    end of the supersession chain where a successor was backdated. */
module AsOf {
  import opened Evidence

  datatype TemporalStatus = CurrentRevision | SupersededRevision | AmbiguousRevision

  /** Dates are day numbers. */
  datatype Revision = Revision(
    id: string, lineage: string, effective: Option<nat>, status: TemporalStatus, supersedes: Option<string>)

  predicate UniqueRevisions(revs: seq<Revision>) {
    forall i, j :: 0 <= i < j < |revs| ==> revs[i].id != revs[j].id
  }

  predicate Undated(r: Revision) { r.status == AmbiguousRevision && r.effective.None? }

  predicate Eligible(r: Revision, asOf: nat) { r.effective.Some? && r.effective.value <= asOf }

  /** `later` names `earlier` of its own lineage as predecessor but has the earlier date. */
  predicate Backdates(later: Revision, earlier: Revision) {
    && later.supersedes == Some(earlier.id) && later.lineage == earlier.lineage
    && later.effective.Some? && earlier.effective.Some? && earlier.effective.value > later.effective.value
  }

  predicate NonMonotonic(revs: seq<Revision>, lineage: string) {
    exists i, j :: 0 <= i < |revs| && 0 <= j < |revs| && revs[i].lineage == lineage && Backdates(revs[i], revs[j])
  }

  /** Named as predecessor by an eligible revision of a non-monotonic lineage. */
  predicate Superseded(revs: seq<Revision>, asOf: nat, id: string) {
    exists i :: 0 <= i < |revs| && Eligible(revs[i], asOf) && revs[i].supersedes == Some(id)
                && NonMonotonic(revs, revs[i].lineage)
  }

  /** The date of `r` is the latest eligible one of its lineage. */
  predicate Latest(revs: seq<Revision>, asOf: nat, r: Revision) {
    && r.effective.Some?
    && forall i :: 0 <= i < |revs| && revs[i].lineage == r.lineage && Eligible(revs[i], asOf) ==>
         revs[i].effective.value <= r.effective.value
  }

  /** The rule for one dated revision. */
  predicate Active(revs: seq<Revision>, asOf: nat, r: Revision) {
    && Eligible(r, asOf)
    && (if NonMonotonic(revs, r.lineage) then !Superseded(revs, asOf, r.id) else Latest(revs, asOf, r))
  }

  predicate Picked(revs: seq<Revision>, asOf: nat, r: Revision) { Undated(r) || Active(revs, asOf, r) }

  // ---- selection ---------------------------------------------------------------------------------------------------

  /** The dates of `latest_by_lineage` after the first `n` revisions. */
  ghost predicate LatestUpTo(revs: seq<Revision>, asOf: nat, n: nat, latest: map<string, nat>)
    requires n <= |revs|
  {
    && (forall i :: 0 <= i < n && Eligible(revs[i], asOf) ==>
        revs[i].lineage in latest && revs[i].effective.value <= latest[revs[i].lineage])
    && (forall l :: l in latest ==>
        exists i :: 0 <= i < n && revs[i].lineage == l && Eligible(revs[i], asOf) && revs[i].effective.value == latest[l])
  }

  method LatestByLineage(revs: seq<Revision>, asOf: nat) returns (latest: map<string, nat>)
    ensures LatestUpTo(revs, asOf, |revs|, latest)
  {
    latest := map[];
    for n := 0 to |revs|
      invariant LatestUpTo(revs, asOf, n, latest)
    {
      var r := revs[n];
      if Eligible(r, asOf) {
        var date := r.effective.value;
        if r.lineage !in latest || latest[r.lineage] < date {
          LatestStep(revs, asOf, n, latest);
          latest := latest[r.lineage := date];
        } else {
          LatestSame(revs, asOf, n, latest);
        }
      } else {
        LatestSame(revs, asOf, n, latest);
      }
    }
  }

  lemma LatestStep(revs: seq<Revision>, asOf: nat, n: nat, latest: map<string, nat>)
    requires n < |revs| && LatestUpTo(revs, asOf, n, latest) && Eligible(revs[n], asOf)
    requires revs[n].lineage in latest ==> latest[revs[n].lineage] < revs[n].effective.value
    ensures LatestUpTo(revs, asOf, n + 1, latest[revs[n].lineage := revs[n].effective.value])
  {
    var more := latest[revs[n].lineage := revs[n].effective.value];
    forall l | l in more
      ensures exists i :: 0 <= i < n + 1 && revs[i].lineage == l && Eligible(revs[i], asOf) && revs[i].effective.value == more[l]
    {
      if l != revs[n].lineage {
        var i :| 0 <= i < n && revs[i].lineage == l && Eligible(revs[i], asOf) && revs[i].effective.value == latest[l];
      }
    }
  }

  lemma LatestSame(revs: seq<Revision>, asOf: nat, n: nat, latest: map<string, nat>)
    requires n < |revs| && LatestUpTo(revs, asOf, n, latest)
    requires Eligible(revs[n], asOf) ==> revs[n].lineage in latest && revs[n].effective.value <= latest[revs[n].lineage]
    ensures LatestUpTo(revs, asOf, n + 1, latest)
  {
    forall l | l in latest
      ensures exists i :: 0 <= i < n + 1 && revs[i].lineage == l && Eligible(revs[i], asOf) && revs[i].effective.value == latest[l]
    {
      var i :| 0 <= i < n && revs[i].lineage == l && Eligible(revs[i], asOf) && revs[i].effective.value == latest[l];
    }
  }

  lemma LatestAgrees(revs: seq<Revision>, asOf: nat, latest: map<string, nat>, k: nat)
    requires LatestUpTo(revs, asOf, |revs|, latest) && k < |revs| && Eligible(revs[k], asOf)
    ensures revs[k].lineage in latest
    ensures revs[k].effective.value == latest[revs[k].lineage] <==> Latest(revs, asOf, revs[k])
  {
    var l := revs[k].lineage;
    var i :| 0 <= i < |revs| && revs[i].lineage == l && Eligible(revs[i], asOf) && revs[i].effective.value == latest[l];
  }

  /** How often a lineage occurs. */
  function Occurrences(selected: seq<Revision>, lineage: string): nat {
    if selected == [] then 0
    else Occurrences(selected[..|selected| - 1], lineage) + if selected[|selected| - 1].lineage == lineage then 1 else 0
  }

  function Undateds(revs: seq<Revision>): seq<Revision> {
    if revs == [] then []
    else
      var front, r := Undateds(revs[..|revs| - 1]), revs[|revs| - 1];
      if Undated(r) then front + [r] else front
  }

  /** The active ones among the first `n` revisions. */
  function Actives(revs: seq<Revision>, asOf: nat, n: nat): seq<Revision>
    requires n <= |revs|
  {
    if n == 0 then []
    else
      var front, r := Actives(revs, asOf, n - 1), revs[n - 1];
      if Active(revs, asOf, r) then front + [r] else front
  }

  function Selected(revs: seq<Revision>, asOf: nat): seq<Revision> {
    Undateds(revs) + Actives(revs, asOf, |revs|)
  }

  predicate OneEach(selected: seq<Revision>) {
    forall i :: 0 <= i < |selected| ==> Occurrences(selected, selected[i].lineage) == 1
  }

  // ---- who is selected ---------------------------------------------------------------------------------------------

  lemma {:induction false} UndatedsMembers(revs: seq<Revision>, r: Revision)
    ensures r in Undateds(revs) <==> r in revs && Undated(r)
  {
    if revs != [] {
      UndatedsMembers(revs[..|revs| - 1], r);
      assert revs == revs[..|revs| - 1] + [revs[|revs| - 1]];
    }
  }

  lemma {:induction false} ActivesMembers(revs: seq<Revision>, asOf: nat, n: nat, r: Revision)
    requires n <= |revs|
    ensures r in Actives(revs, asOf, n) <==> r in revs[..n] && Active(revs, asOf, r)
  {
    if n > 0 {
      ActivesMembers(revs, asOf, n - 1, r);
      assert revs[..n] == revs[..n - 1] + [revs[n - 1]];
    }
  }

  /** Selected are exactly the undated ambiguous and the active revisions. */
  lemma SelectedMembers(revs: seq<Revision>, asOf: nat, r: Revision)
    ensures r in Selected(revs, asOf) <==> r in revs && Picked(revs, asOf, r)
  {
    UndatedsMembers(revs, r);
    ActivesMembers(revs, asOf, |revs|, r);
    assert revs[..|revs|] == revs;
  }

  lemma {:induction false} OccursAt(selected: seq<Revision>, i: nat, j: nat)
    requires i < |selected| && j < |selected| && i != j && selected[i].lineage == selected[j].lineage
    ensures Occurrences(selected, selected[i].lineage) >= 2
  {
    var n := |selected| - 1;
    var front := selected[..n];
    if i < n && j < n {
      OccursAt(front, i, j);
    } else if i < n {
      OccursOnce(front, i);
    } else {
      OccursOnce(front, j);
    }
  }

  lemma {:induction false} OccursOnce(selected: seq<Revision>, i: nat)
    requires i < |selected|
    ensures Occurrences(selected, selected[i].lineage) >= 1
  {
    if i < |selected| - 1 {
      OccursOnce(selected[..|selected| - 1], i);
    }
  }

  ghost predicate InLineage(revs: seq<Revision>, lineage: string, r: Revision) {
    r in revs && r.lineage == lineage
  }

  ghost predicate HasEligible(revs: seq<Revision>, asOf: nat, lineage: string) {
    exists i :: 0 <= i < |revs| && revs[i].lineage == lineage && Eligible(revs[i], asOf)
  }

  ghost predicate HasSelected(revs: seq<Revision>, asOf: nat, lineage: string) {
    exists r :: InLineage(Selected(revs, asOf), lineage, r)
  }

  /** A returned selection holds at most one revision of a lineage. */
  lemma AtMostOne(revs: seq<Revision>, asOf: nat, i: nat, j: nat)
    requires OneEach(Selected(revs, asOf)) && i < |Selected(revs, asOf)| && j < |Selected(revs, asOf)|
    requires Selected(revs, asOf)[i].lineage == Selected(revs, asOf)[j].lineage
    ensures i == j
  {
    if i != j {
      OccursAt(Selected(revs, asOf), i, j);
    }
  }

  // ---- when the selection is ambiguous -----------------------------------------------------------------------------

  /** Both would be selected: an undated one beside any selected one, two unsuperseded ones of a
      non-monotonic lineage, or two that share the latest date of an ordinary one. */
  predicate Clash(revs: seq<Revision>, asOf: nat, a: Revision, b: Revision) {
    || (Undated(a) && Picked(revs, asOf, b))
    || (Picked(revs, asOf, a) && Undated(b))
    || (Eligible(a, asOf) && Eligible(b, asOf)
        && if NonMonotonic(revs, a.lineage) then !Superseded(revs, asOf, a.id) && !Superseded(revs, asOf, b.id)
           else a.effective == b.effective && Latest(revs, asOf, a))
  }

  predicate Ambiguous(revs: seq<Revision>, asOf: nat) {
    exists i, j :: 0 <= i < j < |revs| && revs[i].lineage == revs[j].lineage && Clash(revs, asOf, revs[i], revs[j])
  }

  lemma ClashMeans(revs: seq<Revision>, asOf: nat, a: Revision, b: Revision)
    requires a in revs && b in revs && a.lineage == b.lineage
    ensures Clash(revs, asOf, a, b) <==> Picked(revs, asOf, a) && Picked(revs, asOf, b)
  {
  }

  ghost predicate NoRepeat(s: seq<Revision>) {
    forall i, j :: 0 <= i < j < |s| ==> s[i] != s[j]
  }

  lemma {:induction false} UndatedsOnce(revs: seq<Revision>)
    requires NoRepeat(revs)
    ensures NoRepeat(Undateds(revs))
  {
    if revs != [] {
      UndatedsOnce(revs[..|revs| - 1]);
      UndatedsMembers(revs[..|revs| - 1], revs[|revs| - 1]);
    }
  }

  lemma {:induction false} ActivesOnce(revs: seq<Revision>, asOf: nat, n: nat)
    requires NoRepeat(revs) && n <= |revs|
    ensures NoRepeat(Actives(revs, asOf, n))
  {
    if n > 0 {
      ActivesOnce(revs, asOf, n - 1);
      ActivesMembers(revs, asOf, n - 1, revs[n - 1]);
    }
  }

  lemma SelectedOnce(revs: seq<Revision>, asOf: nat)
    requires UniqueRevisions(revs)
    ensures NoRepeat(Selected(revs, asOf))
  {
    var u, a := Undateds(revs), Actives(revs, asOf, |revs|);
    UndatedsOnce(revs);
    ActivesOnce(revs, asOf, |revs|);
    forall i, j | 0 <= i < |u| && 0 <= j < |a| ensures u[i] != a[j] {
      UndatedsMembers(revs, u[i]);
      ActivesMembers(revs, asOf, |revs|, a[j]);
    }
  }

  lemma {:induction false} OccursTwice(s: seq<Revision>, lineage: string) returns (i: nat, j: nat)
    requires Occurrences(s, lineage) >= 2
    ensures i < j < |s| && s[i].lineage == lineage && s[j].lineage == lineage
  {
    var n := |s| - 1;
    if s[n].lineage == lineage {
      i := OccursSome(s[..n], lineage);
      j := n;
    } else {
      i, j := OccursTwice(s[..n], lineage);
    }
  }

  lemma {:induction false} OccursSome(s: seq<Revision>, lineage: string) returns (i: nat)
    requires Occurrences(s, lineage) >= 1
    ensures i < |s| && s[i].lineage == lineage
  {
    var n := |s| - 1;
    if s[n].lineage == lineage {
      i := n;
    } else {
      i := OccursSome(s[..n], lineage);
    }
  }

  lemma TwiceIsAmbiguous(revs: seq<Revision>, asOf: nat, a: Revision, b: Revision)
    requires a in Selected(revs, asOf) && b in Selected(revs, asOf) && a != b && a.lineage == b.lineage
    ensures Ambiguous(revs, asOf)
  {
    SelectedMembers(revs, asOf, a);
    SelectedMembers(revs, asOf, b);
    var i :| 0 <= i < |revs| && revs[i] == a;
    var j :| 0 <= j < |revs| && revs[j] == b;
    ClashMeans(revs, asOf, a, b);
    ClashMeans(revs, asOf, b, a);
  }

  lemma AmbiguousIsTwice(revs: seq<Revision>, asOf: nat, i: nat, j: nat)
    requires UniqueRevisions(revs) && i < j < |revs| && revs[i].lineage == revs[j].lineage
    requires Clash(revs, asOf, revs[i], revs[j])
    ensures !OneEach(Selected(revs, asOf))
  {
    var s := Selected(revs, asOf);
    ClashMeans(revs, asOf, revs[i], revs[j]);
    SelectedMembers(revs, asOf, revs[i]);
    SelectedMembers(revs, asOf, revs[j]);
    var m :| 0 <= m < |s| && s[m] == revs[i];
    var n :| 0 <= n < |s| && s[n] == revs[j];
    OccursAt(s, m, n);
  }

  /** A lineage occurs twice in the selection exactly when two of its revisions clash. */
  lemma AmbiguousMeans(revs: seq<Revision>, asOf: nat)
    requires UniqueRevisions(revs)
    ensures OneEach(Selected(revs, asOf)) <==> !Ambiguous(revs, asOf)
  {
    var s := Selected(revs, asOf);
    if !OneEach(s) {
      var k :| 0 <= k < |s| && Occurrences(s, s[k].lineage) != 1;
      OccursOnce(s, k);
      var i, j := OccursTwice(s, s[k].lineage);
      SelectedOnce(revs, asOf);
      TwiceIsAmbiguous(revs, asOf, s[i], s[j]);
    }
    if Ambiguous(revs, asOf) {
      var i, j :| 0 <= i < j < |revs| && revs[i].lineage == revs[j].lineage && Clash(revs, asOf, revs[i], revs[j]);
      AmbiguousIsTwice(revs, asOf, i, j);
    }
  }

  /** The `as_of` branch of `_active_revisions`; `None` is the ambiguity error, raised exactly when two
      revisions of one lineage clash. */
  method SelectAsOf(revs: seq<Revision>, asOf: nat) returns (r: Option<seq<Revision>>)
    ensures r == if OneEach(Selected(revs, asOf)) then Some(Selected(revs, asOf)) else None
    ensures UniqueRevisions(revs) ==> (r.None? <==> Ambiguous(revs, asOf))
  {
    var latest := LatestByLineage(revs, asOf);
    var active: seq<Revision> := [];
    for n := 0 to |revs|
      invariant active == Actives(revs, asOf, n)
    {
      var item := revs[n];
      if Eligible(item, asOf) {
        LatestAgrees(revs, asOf, latest, n);
        if (NonMonotonic(revs, item.lineage) && !Superseded(revs, asOf, item.id))
           || (!NonMonotonic(revs, item.lineage) && item.effective.value == latest[item.lineage])
        {
          active := active + [item];
        }
      }
    }
    var selected := Undateds(revs) + active;
    if UniqueRevisions(revs) {
      AmbiguousMeans(revs, asOf);
    }
    r := if OneEach(selected) then Some(selected) else None;
  }

  // ---- when a lineage is missing -----------------------------------------------------------------------------------

  /** Every eligible revision of the lineage is superseded. */
  ghost predicate AllSuperseded(revs: seq<Revision>, asOf: nat, lineage: string) {
    forall i {:trigger Superseded(revs, asOf, revs[i].id)} ::
      0 <= i < |revs| && revs[i].lineage == lineage && Eligible(revs[i], asOf) ==> Superseded(revs, asOf, revs[i].id)
  }

  ghost predicate HasUndated(revs: seq<Revision>, lineage: string) {
    exists i :: 0 <= i < |revs| && revs[i].lineage == lineage && Undated(revs[i])
  }

  lemma {:induction false} LatestExists(revs: seq<Revision>, asOf: nat, lineage: string, n: nat) returns (k: nat)
    requires n <= |revs| && exists i :: 0 <= i < n && revs[i].lineage == lineage && Eligible(revs[i], asOf)
    ensures k < n && revs[k].lineage == lineage && Eligible(revs[k], asOf)
    ensures forall i :: 0 <= i < n && revs[i].lineage == lineage && Eligible(revs[i], asOf) ==>
      revs[i].effective.value <= revs[k].effective.value
  {
    var here := revs[n - 1].lineage == lineage && Eligible(revs[n - 1], asOf);
    if exists i :: 0 <= i < n - 1 && revs[i].lineage == lineage && Eligible(revs[i], asOf) {
      k := LatestExists(revs, asOf, lineage, n - 1);
      if here && revs[n - 1].effective.value > revs[k].effective.value {
        k := n - 1;
      }
    } else {
      k := n - 1;
    }
  }

  lemma PickedSelected(revs: seq<Revision>, asOf: nat, i: nat)
    requires i < |revs| && Picked(revs, asOf, revs[i])
    ensures HasSelected(revs, asOf, revs[i].lineage)
  {
    SelectedMembers(revs, asOf, revs[i]);
    assert InLineage(Selected(revs, asOf), revs[i].lineage, revs[i]);
  }

  /** A lineage with an eligible revision is missing exactly when it is non-monotonic, all its
      eligible revisions are superseded and it has no undated ambiguous revision. */
  lemma MissingLineage(revs: seq<Revision>, asOf: nat, lineage: string)
    requires HasEligible(revs, asOf, lineage)
    ensures !HasSelected(revs, asOf, lineage) <==>
      NonMonotonic(revs, lineage) && AllSuperseded(revs, asOf, lineage) && !HasUndated(revs, lineage)
  {
    if HasUndated(revs, lineage) {
      var i :| 0 <= i < |revs| && revs[i].lineage == lineage && Undated(revs[i]);
      PickedSelected(revs, asOf, i);
    }
    if !NonMonotonic(revs, lineage) {
      var k := LatestExists(revs, asOf, lineage, |revs|);
      PickedSelected(revs, asOf, k);
    } else if !AllSuperseded(revs, asOf, lineage) {
      var i :| 0 <= i < |revs| && revs[i].lineage == lineage && Eligible(revs[i], asOf) && !Superseded(revs, asOf, revs[i].id);
      PickedSelected(revs, asOf, i);
    }
    if HasSelected(revs, asOf, lineage) {
      var r :| InLineage(Selected(revs, asOf), lineage, r);
      SelectedMembers(revs, asOf, r);
      var i :| 0 <= i < |revs| && revs[i] == r;
    }
  }
}
