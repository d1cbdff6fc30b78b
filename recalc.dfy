/**
 * The project-list recompute (numeric coercion, balance, renumbering) and the
 * list commands that add or remove the last project or team member.
 */
module Recalc {
  import opened Wrappers
  import opened Records
  import NumText

  /** A numeric column cell read as a number: text that is not a number, and empty cells, read as 0. */
  function Coerce(c: Cell): (v: real)
    ensures c.Num? ==> v == c.value
    ensures c.Missing? ==> v == 0.0
    ensures c.Text? && NumText.ParseNumber(c.text).Some? ==> v == NumText.ParseNumber(c.text).value
    ensures c.Text? && NumText.ParseNumber(c.text).None? ==> v == 0.0
  {
    match c
    case Num(x) => x
    case Text(s) => (match NumText.ParseNumber(s) case Some(x) => x case None => 0.0)
    case Missing => 0.0
  }

  /** The derived fields of the row at position i agree with its disbursed percentage and its position. */
  predicate DerivedOk(p: Project, i: int)
  {
    && Numeric(p)
    && p.balance.value == 100.0 - p.disbursed.value
    && p.sNo == Some(i + 1)
  }

  /** Every row's derived fields are consistent: the state after every recompute. */
  predicate WellFormed(ps: seq<Project>)
  {
    forall i :: 0 <= i < |ps| ==> DerivedOk(ps[i], i)
  }

  /** q differs from p at most in the four columns the recompute writes. */
  predicate SameEntries(p: Project, q: Project)
  {
    q == p.(sNo := q.sNo, disbursed := q.disbursed, balance := q.balance, completion := q.completion)
  }

  /** The row at position i after the recompute. */
  function RecalcRow(p: Project, i: nat): Project
  {
    var d := Coerce(p.disbursed);
    p.(disbursed := Num(d), completion := Num(Coerce(p.completion)), balance := Num(100.0 - d), sNo := Some(i + 1))
  }

  /** The project list after the recompute. */
  function Recalculated(ps: seq<Project>): (r: seq<Project>)
    ensures |r| == |ps| && WellFormed(r)
    ensures forall i :: 0 <= i < |ps| ==> SameEntries(ps[i], r[i])
    ensures forall i :: 0 <= i < |ps| ==>
      r[i].disbursed == Num(Coerce(ps[i].disbursed)) && r[i].completion == Num(Coerce(ps[i].completion))
  {
    seq(|ps|, i requires 0 <= i < |ps| => RecalcRow(ps[i], i))
  }

  /**
   * The recompute, overwriting four columns of the table in place, one column
   * after the other as the table library does.
   */
  method RecalcProjects(df: array<Project>)
    modifies df
    ensures df[..] == Recalculated(old(df[..]))
  {
    ghost var before := df[..];
    CoerceDisbursed(df);
    CoerceCompletion(df);
    SetBalance(df);
    Renumber(df);
    forall k | 0 <= k < df.Length ensures df[..][k] == Recalculated(before)[k] {
      assert df[k] == RecalcRow(before[k], k);
    }
  }

  /** The first pass: the disbursed column read as numbers. */
  method CoerceDisbursed(df: array<Project>)
    modifies df
    ensures forall k :: 0 <= k < df.Length ==> df[k] == old(df[k]).(disbursed := Num(Coerce(old(df[k]).disbursed)))
  {
    var i := 0;
    while i < df.Length
      invariant 0 <= i <= df.Length
      invariant forall k :: 0 <= k < i ==> df[k] == old(df[k]).(disbursed := Num(Coerce(old(df[k]).disbursed)))
      invariant forall k :: i <= k < df.Length ==> df[k] == old(df[k])
    {
      df[i] := df[i].(disbursed := Num(Coerce(df[i].disbursed)));
      i := i + 1;
    }
  }

  /** The second pass: the completion column read as numbers. */
  method CoerceCompletion(df: array<Project>)
    modifies df
    ensures forall k :: 0 <= k < df.Length ==> df[k] == old(df[k]).(completion := Num(Coerce(old(df[k]).completion)))
  {
    var i := 0;
    while i < df.Length
      invariant 0 <= i <= df.Length
      invariant forall k :: 0 <= k < i ==> df[k] == old(df[k]).(completion := Num(Coerce(old(df[k]).completion)))
      invariant forall k :: i <= k < df.Length ==> df[k] == old(df[k])
    {
      df[i] := df[i].(completion := Num(Coerce(df[i].completion)));
      i := i + 1;
    }
  }

  /** The third pass: the balance as 100 less the (already numeric) disbursed percentage. */
  method SetBalance(df: array<Project>)
    requires forall k :: 0 <= k < df.Length ==> df[k].disbursed.Num?
    modifies df
    ensures forall k :: 0 <= k < df.Length ==> df[k] == old(df[k]).(balance := Num(100.0 - old(df[k]).disbursed.value))
  {
    var i := 0;
    while i < df.Length
      invariant 0 <= i <= df.Length
      invariant forall k :: 0 <= k < i ==> df[k] == old(df[k]).(balance := Num(100.0 - old(df[k]).disbursed.value))
      invariant forall k :: i <= k < df.Length ==> df[k] == old(df[k])
    {
      df[i] := df[i].(balance := Num(100.0 - df[i].disbursed.value));
      i := i + 1;
    }
  }

  /** The last pass: the rows numbered from 1 in order. */
  method Renumber(df: array<Project>)
    modifies df
    ensures forall k :: 0 <= k < df.Length ==> df[k] == old(df[k]).(sNo := Some(k + 1))
  {
    var i := 0;
    while i < df.Length
      invariant 0 <= i <= df.Length
      invariant forall k :: 0 <= k < i ==> df[k] == old(df[k]).(sNo := Some(k + 1))
      invariant forall k :: i <= k < df.Length ==> df[k] == old(df[k])
    {
      df[i] := df[i].(sNo := Some(i + 1));
      i := i + 1;
    }
  }

  /** A list is left unchanged by the recompute exactly when its derived fields are already consistent. */
  lemma RecalcFixpoint(ps: seq<Project>)
    ensures Recalculated(ps) == ps <==> WellFormed(ps)
  {
    if WellFormed(ps) {
      var r := Recalculated(ps);
      forall i | 0 <= i < |ps| ensures r[i] == ps[i] {
        assert DerivedOk(ps[i], i);
      }
    }
  }

  /** Recomputing twice gives what recomputing once gives. */
  lemma RecalcIdempotent(ps: seq<Project>)
    ensures Recalculated(Recalculated(ps)) == Recalculated(ps)
  {
    RecalcFixpoint(Recalculated(ps));
  }

  /** Nothing bounds the disbursed percentage: above 100 the balance goes negative. */
  lemma NoClamping()
    ensures Recalculated([DefaultProject.(disbursed := Num(150.0))])[0].balance == Num(-50.0)
  {
  }

  // ---------------------------------------------------------------------
  // List commands

  /** The project the "Add Project" command appends to a list of n projects. */
  function NewProject(n: nat): (p: Project)
    ensures DerivedOk(p, n)
  {
    DefaultProject.(sNo := Some(n + 1))
  }

  /** The team member the "Add Team Member" command appends. */
  const NewMember: TeamMember := TeamMember("", "")

  /** Drops the final element; an empty list stays empty. */
  function DropLast<T>(s: seq<T>): (r: seq<T>)
    ensures |r| == if s == [] then 0 else |s| - 1
    ensures r <= s
  {
    if s == [] then s else s[..|s| - 1]
  }

  /** Adding a project and then removing the last one restores the list. */
  lemma AddThenRemove(ps: seq<Project>)
    ensures DropLast(ps + [NewProject(|ps|)]) == ps
  {
    assert (ps + [NewProject(|ps|)])[..|ps|] == ps;
  }

  /** Both commands keep the derived fields of a consistent list consistent. */
  lemma CommandsKeepWellFormed(ps: seq<Project>)
    requires WellFormed(ps)
    ensures WellFormed(ps + [NewProject(|ps|)])
    ensures WellFormed(DropLast(ps))
  {
    var qs := ps + [NewProject(|ps|)];
    forall i | 0 <= i < |qs| ensures DerivedOk(qs[i], i) {
      if i < |ps| {
        assert qs[i] == ps[i];
      }
    }
  }

  /** Recomputing after an addition gives the recomputed list plus the new project unchanged. */
  lemma RecalcAfterAdd(ps: seq<Project>)
    ensures Recalculated(ps + [NewProject(|ps|)]) == Recalculated(ps) + [NewProject(|ps|)]
  {
    var a, b := Recalculated(ps + [NewProject(|ps|)]), Recalculated(ps) + [NewProject(|ps|)];
    forall i | 0 <= i < |a| ensures a[i] == b[i] {
      if i < |ps| {
        assert (ps + [NewProject(|ps|)])[i] == ps[i];
      }
    }
  }
}
