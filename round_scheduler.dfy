/**
 * The round scheduler's selection rule: four priority tiers, concatenated and
 * cut at the round capacity, and the stamping of first appearances.
 * Terms are named by their index in the session's term list.
 */
module RoundScheduler {
  import opened Common
  import opened LearnModel

  datatype Tier = MissedTier | CooledTier | UnstudiedTier | FamiliarTier

  /**
   * Membership of a tier in round `round`. A familiar term is cooled down once
   * two rounds have passed since it first appeared.
   */
  predicate InTier(t: StudiableTerm, tier: Tier, round: int)
  {
    match tier
    case MissedTier => t.correctness == -1
    case CooledTier => t.correctness == 1 && t.appearedInRound.Some? && round - t.appearedInRound.value >= 2
    case UnstudiedTier => t.correctness == 0
    case FamiliarTier => t.correctness == 1
  }

  /** Indices below `n` of the terms in `tier`, in list order. */
  function TierUpTo(ts: seq<StudiableTerm>, tier: Tier, round: int, n: nat): (r: seq<nat>)
    requires n <= |ts|
    ensures forall k :: 0 <= k < |r| ==> r[k] < n && InTier(ts[r[k]], tier, round)
    ensures forall i :: 0 <= i < n && InTier(ts[i], tier, round) ==> i in r
    ensures forall k, l :: 0 <= k < l < |r| ==> r[k] < r[l]
  {
    if n == 0 then []
    else
      var prev := TierUpTo(ts, tier, round, n - 1);
      if InTier(ts[n - 1], tier, round) then prev + [n - 1] else prev
  }

  function TierOf(ts: seq<StudiableTerm>, tier: Tier, round: int): seq<nat>
  {
    TierUpTo(ts, tier, round, |ts|)
  }

  /** Missed, then cooled-down familiar, then unstudied, then every familiar term. */
  function Candidates(ts: seq<StudiableTerm>, round: int): (r: seq<nat>)
    ensures forall k :: 0 <= k < |r| ==> r[k] < |ts| && ts[r[k]].correctness in {-1, 0, 1}
    ensures forall i :: 0 <= i < |ts| && ts[i].correctness in {-1, 0, 1} ==> i in r
  {
    TierOf(ts, MissedTier, round) + TierOf(ts, CooledTier, round)
    + TierOf(ts, UnstudiedTier, round) + TierOf(ts, FamiliarTier, round)
  }

  /** The terms of round `round`: the first `capacity` candidates. */
  function Selection(ts: seq<StudiableTerm>, round: int, capacity: nat): (r: seq<nat>)
    ensures |r| <= capacity
    ensures forall k :: 0 <= k < |r| ==> r[k] < |ts| && ts[r[k]].correctness in {-1, 0, 1}
  {
    var c := Candidates(ts, round);
    c[..Min(capacity, |c|)]
  }

  /** The round cannot be built: some familiar term has no first-appearance round. */
  predicate LacksRoundInfo(ts: seq<StudiableTerm>)
  {
    exists i :: 0 <= i < |ts| && ts[i].correctness == 1 && ts[i].appearedInRound.None?
  }

  /** The term list after stamping: selected unstudied terms first appear in `round`. */
  function Stamped(ts: seq<StudiableTerm>, sel: seq<nat>, round: int): (r: seq<StudiableTerm>)
    ensures |r| == |ts|
    ensures forall i :: 0 <= i < |ts| ==>
      r[i].term == ts[i].term && r[i].correctness == ts[i].correctness && r[i].incorrectCount == ts[i].incorrectCount
  {
    seq(|ts|, i requires 0 <= i < |ts| =>
      if i in sel && ts[i].correctness == 0 then ts[i].(appearedInRound := Some(round)) else ts[i])
  }

  // ---------------------------------------------------------------------------
  // Properties of the selection.

  lemma CandidateFacts(ts: seq<StudiableTerm>, round: int)
    ensures forall k :: 0 <= k < |Candidates(ts, round)| ==> Candidates(ts, round)[k] < |ts|
    ensures forall k :: 0 <= k < |Candidates(ts, round)| ==>
      ts[Candidates(ts, round)[k]].correctness in {-1, 0, 1}
  {
  }

  /**
   * Only a familiar term can be a candidate twice: every tier lists a term at
   * most once, and the missed and unstudied tiers share no term with another.
   */
  lemma {:induction false} RepeatIsFamiliar(ts: seq<StudiableTerm>, round: int, a: nat, b: nat)
    requires a < b < |Candidates(ts, round)|
    requires Candidates(ts, round)[a] == Candidates(ts, round)[b]
    ensures ts[Candidates(ts, round)[a]].correctness == Familiar
  {
    var m, o, u, f := TierOf(ts, MissedTier, round), TierOf(ts, CooledTier, round),
                      TierOf(ts, UnstudiedTier, round), TierOf(ts, FamiliarTier, round);
    var c := m + o + u + f;
    assert Candidates(ts, round) == c;
    var h := |m| + |o|;
    if b < |m| {
      // both in the missed tier, which lists each term once
      assert false;
    } else if a < |m| {
      assert c[a] == m[a];
      CandidateAt(ts, round, b);
    } else if b < h {
      assert false;
    } else if a < h {
      assert c[a] == o[a - |m|];
    } else {
      // both in the unstudied or the familiar tier, or one in each
      assert false;
    }
  }

  /**
   * The selection never exceeds the capacity, names real terms, and never
   * repeats a missed or unstudied term.
   */
  lemma {:induction false} SelectionBounds(ts: seq<StudiableTerm>, round: int, capacity: nat)
    ensures |Selection(ts, round, capacity)| <= capacity
    ensures |Selection(ts, round, capacity)| == Min(capacity, |Candidates(ts, round)|)
    ensures forall k :: 0 <= k < |Selection(ts, round, capacity)| ==>
      Selection(ts, round, capacity)[k] < |ts| &&
      ts[Selection(ts, round, capacity)[k]].correctness in {-1, 0, 1}
    ensures forall a, b ::
      (0 <= a < b < |Selection(ts, round, capacity)| &&
       Selection(ts, round, capacity)[a] == Selection(ts, round, capacity)[b]) ==>
      ts[Selection(ts, round, capacity)[a]].correctness == Familiar
  {
    CandidateFacts(ts, round);
    var sel, c := Selection(ts, round, capacity), Candidates(ts, round);
    forall a, b | 0 <= a < b < |sel| && sel[a] == sel[b]
      ensures ts[sel[a]].correctness == Familiar
    {
      assert sel[a] == c[a] && sel[b] == c[b];
      RepeatIsFamiliar(ts, round, a, b);
    }
  }

  function HeadLength(ts: seq<StudiableTerm>, round: int): nat
  {
    |TierOf(ts, MissedTier, round)| + |TierOf(ts, CooledTier, round)| + |TierOf(ts, UnstudiedTier, round)|
  }

  /** What a candidate position tells about its term. */
  lemma {:induction false} CandidateAt(ts: seq<StudiableTerm>, round: int, k: nat)
    requires k < |Candidates(ts, round)|
    ensures k < |TierOf(ts, MissedTier, round)| ==> Candidates(ts, round)[k] == TierOf(ts, MissedTier, round)[k]
    ensures k >= |TierOf(ts, MissedTier, round)| ==> ts[Candidates(ts, round)[k]].correctness != -1
    ensures k < HeadLength(ts, round) ==>
      var t := ts[Candidates(ts, round)[k]];
      InTier(t, MissedTier, round) || InTier(t, CooledTier, round) || InTier(t, UnstudiedTier, round)
  {
    var c := Candidates(ts, round);
    var m, o, u, f := TierOf(ts, MissedTier, round), TierOf(ts, CooledTier, round),
                      TierOf(ts, UnstudiedTier, round), TierOf(ts, FamiliarTier, round);
    assert c == m + o + u + f;
    if k < |m| {
      assert c[k] == m[k];
    } else if k < |m| + |o| {
      assert c[k] == o[k - |m|];
    } else if k < |m| + |o| + |u| {
      assert c[k] == u[k - |m| - |o|];
    } else {
      assert c[k] == f[k - |m| - |o| - |u|];
    }
  }

  /** A term of a tier has a position in that tier's list. */
  lemma TierPosition(ts: seq<StudiableTerm>, tier: Tier, round: int, i: nat) returns (p: nat)
    requires i < |ts| && InTier(ts[i], tier, round)
    ensures p < |TierOf(ts, tier, round)| && TierOf(ts, tier, round)[p] == i
  {
    var r := TierOf(ts, tier, round);
    assert i in r;
    p :| 0 <= p < |r| && r[p] == i;
  }

  /** A missed, cooled-down or unstudied term has a candidate position before the filler tier. */
  lemma {:induction false} HeadPosition(ts: seq<StudiableTerm>, round: int, i: nat) returns (a: nat)
    requires i < |ts|
    requires InTier(ts[i], MissedTier, round) || InTier(ts[i], CooledTier, round) || InTier(ts[i], UnstudiedTier, round)
    ensures a < HeadLength(ts, round) && a < |Candidates(ts, round)| && Candidates(ts, round)[a] == i
  {
    var m, o, u, f := TierOf(ts, MissedTier, round), TierOf(ts, CooledTier, round),
                      TierOf(ts, UnstudiedTier, round), TierOf(ts, FamiliarTier, round);
    var c := m + o + u + f;
    assert Candidates(ts, round) == c;
    assert HeadLength(ts, round) == |m| + |o| + |u|;
    if InTier(ts[i], MissedTier, round) {
      var p := TierPosition(ts, MissedTier, round, i);
      a := p;
      assert c[a] == m[p];
    } else if InTier(ts[i], CooledTier, round) {
      var p := TierPosition(ts, CooledTier, round, i);
      a := |m| + p;
      assert c[a] == o[p];
    } else {
      var p := TierPosition(ts, UnstudiedTier, round, i);
      a := |m| + |o| + p;
      assert c[a] == u[p];
    }
  }

  /** Every missed term of the selection comes before every term that is not missed. */
  lemma {:induction false} MissedFirst(ts: seq<StudiableTerm>, round: int, capacity: nat, a: nat, b: nat)
    requires a < b < |Selection(ts, round, capacity)|
    requires ts[Selection(ts, round, capacity)[b]].correctness == -1
    ensures ts[Selection(ts, round, capacity)[a]].correctness == -1
  {
    var sel, c := Selection(ts, round, capacity), Candidates(ts, round);
    assert sel[b] == c[b] && sel[a] == c[a];
    CandidateAt(ts, round, b);
    CandidateAt(ts, round, a);
  }

  lemma InPrefix(c: seq<nat>, n: nat, p: nat)
    requires p < |c|
    ensures p < n ==> c[p] in c[..Min(n, |c|)]
  {
    if p < n {
      assert c[..Min(n, |c|)][p] == c[p];
    }
  }

  /** A missed term is left out only when the whole round is made of missed terms. */
  lemma {:induction false} MissedHavePriority(ts: seq<StudiableTerm>, round: int, capacity: nat, i: nat)
    requires i < |ts| && ts[i].correctness == -1
    requires i !in Selection(ts, round, capacity)
    ensures |Selection(ts, round, capacity)| == capacity
    ensures forall k :: 0 <= k < capacity ==> ts[Selection(ts, round, capacity)[k]].correctness == -1
  {
    var sel, c := Selection(ts, round, capacity), Candidates(ts, round);
    var m := TierOf(ts, MissedTier, round);
    assert InTier(ts[i], MissedTier, round);
    var p :| 0 <= p < |m| && m[p] == i;
    CandidateAt(ts, round, p);
    InPrefix(c, capacity, p);
    forall k | 0 <= k < capacity
      ensures ts[sel[k]].correctness == -1
    {
      CandidateAt(ts, round, k);
    }
  }

  /**
   * A familiar term that has not cooled down is chosen only as filler: every
   * missed, cooled-down and unstudied term is then in the round, ahead of it.
   */
  lemma {:induction false} FillerComesLast(ts: seq<StudiableTerm>, round: int, capacity: nat, b: nat, i: nat)
    requires b < |Selection(ts, round, capacity)|
    requires !InTier(ts[Selection(ts, round, capacity)[b]], MissedTier, round)
    requires !InTier(ts[Selection(ts, round, capacity)[b]], CooledTier, round)
    requires !InTier(ts[Selection(ts, round, capacity)[b]], UnstudiedTier, round)
    requires i < |ts|
    requires InTier(ts[i], MissedTier, round) || InTier(ts[i], CooledTier, round) || InTier(ts[i], UnstudiedTier, round)
    ensures exists a :: 0 <= a < b && Selection(ts, round, capacity)[a] == i
  {
    var sel, c := Selection(ts, round, capacity), Candidates(ts, round);
    assert sel[b] == c[b];
    CandidateAt(ts, round, b);
    var a := HeadPosition(ts, round, i);
    assert a < b;
    assert sel[a] == i;
  }

  /**
   * The round is empty exactly when the capacity is zero or no term is missed,
   * unstudied or familiar; with a positive capacity and well-formed
   * correctness values that means every term is mastered.
   */
  lemma {:induction false} EmptyRound(ts: seq<StudiableTerm>, round: int, capacity: nat)
    ensures Selection(ts, round, capacity) == [] <==>
      (capacity == 0 || forall i :: 0 <= i < |ts| ==> ts[i].correctness !in {-1, 0, 1})
  {
    var c, sel := Candidates(ts, round), Selection(ts, round, capacity);
    assert |sel| == Min(capacity, |c|);
    if sel == [] && capacity > 0 {
      forall i | 0 <= i < |ts| ensures ts[i].correctness !in {-1, 0, 1} {
        if ts[i].correctness in {-1, 0, 1} {
          // i would be a candidate, so the round would not be empty
          assert false;
        }
      }
    }
    if capacity > 0 && |c| > 0 {
      assert sel[0] == c[0];
    }
  }

  /** Why the selection may hold one term twice: a cooled-down familiar term sits in two tiers. */
  lemma CooledTermTwice()
    ensures var ts := [StudiableTerm(Term("a", "w", "d", []), 1, 0, Some(0))];
      Selection(ts, 2, 2) == [0, 0]
  {
    var ts := [StudiableTerm(Term("a", "w", "d", []), 1, 0, Some(0))];
    assert TierOf(ts, MissedTier, 2) == [];
    assert TierOf(ts, CooledTier, 2) == [0];
    assert TierOf(ts, UnstudiedTier, 2) == [];
    assert TierOf(ts, FamiliarTier, 2) == [0];
  }

  // ---------------------------------------------------------------------------
  // Properties of stamping.

  /**
   * Stamping changes nothing but `appearedInRound`, and changes it exactly for
   * the selected unstudied terms.
   */
  lemma StampedEffect(ts: seq<StudiableTerm>, sel: seq<nat>, round: int, i: nat)
    requires i < |ts|
    ensures |Stamped(ts, sel, round)| == |ts|
    ensures Stamped(ts, sel, round)[i].term == ts[i].term
    ensures Stamped(ts, sel, round)[i].correctness == ts[i].correctness
    ensures Stamped(ts, sel, round)[i].incorrectCount == ts[i].incorrectCount
    ensures Stamped(ts, sel, round)[i].appearedInRound ==
      (if i in sel && ts[i].correctness == 0 then Some(round) else ts[i].appearedInRound)
  {
  }

  /** After a round is built, every term it shows knows its first-appearance round. */
  lemma {:induction false} StampedKeepsRoundInfo(ts: seq<StudiableTerm>, round: int, capacity: nat)
    requires RoundInfoConsistent(ts)
    ensures RoundInfoConsistent(Stamped(ts, Selection(ts, round, capacity), round))
    ensures forall k :: 0 <= k < |Selection(ts, round, capacity)| ==>
      Stamped(ts, Selection(ts, round, capacity), round)[Selection(ts, round, capacity)[k]].appearedInRound.Some?
  {
    var sel := Selection(ts, round, capacity);
    SelectionBounds(ts, round, capacity);
    forall k | 0 <= k < |sel|
      ensures Stamped(ts, sel, round)[sel[k]].appearedInRound.Some?
    {
      StampedEffect(ts, sel, round, sel[k]);
    }
  }

  /** With consistent round information the round can always be built. */
  lemma ConsistentNeverLacks(ts: seq<StudiableTerm>)
    requires RoundInfoConsistent(ts)
    ensures !LacksRoundInfo(ts)
  {
  }

  /** Stamping nothing changes nothing. */
  lemma {:induction false} StampedNone(ts: seq<StudiableTerm>, round: int)
    ensures Stamped(ts, [], round) == ts
  {
  }

  /** Stamping one more selected index stamps that term if it is unstudied, and nothing else. */
  lemma {:induction false} StampedStep(ts: seq<StudiableTerm>, sel: seq<nat>, k: nat, round: int)
    requires k < |sel| && sel[k] < |ts|
    ensures var cur := Stamped(ts, sel[..k], round);
      var i := sel[k];
      Stamped(ts, sel[..k + 1], round) ==
        (if cur[i].correctness == 0 then cur[i := cur[i].(appearedInRound := Some(round))] else cur)
  {
    var cur := Stamped(ts, sel[..k], round);
    var i := sel[k];
    var next := Stamped(ts, sel[..k + 1], round);
    assert sel[..k + 1] == sel[..k] + [i];
    var expected := if cur[i].correctness == 0 then cur[i := cur[i].(appearedInRound := Some(round))] else cur;
    assert |next| == |expected|;
    forall j | 0 <= j < |next| ensures next[j] == expected[j] {
      assert j in sel[..k + 1] <==> j in sel[..k] || j == i;
    }
  }

  /** The indices 0 .. n-1 in order. */
  function Indices(n: nat): (r: seq<nat>)
    ensures |r| == n && forall k :: 0 <= k < n ==> r[k] == k
  {
    seq(n, k requires 0 <= k < n => k)
  }

  lemma IndicesSnoc(n: nat)
    requires n > 0
    ensures Indices(n - 1) + [n - 1] == Indices(n)
  {
  }

  /** A tier that every term below `n` belongs to lists them all, in order. */
  lemma {:induction false} TierAll(ts: seq<StudiableTerm>, tier: Tier, round: int, n: nat)
    requires n <= |ts|
    requires forall i :: 0 <= i < n ==> InTier(ts[i], tier, round)
    ensures TierUpTo(ts, tier, round, n) == Indices(n)
  {
    if n > 0 {
      TierAll(ts, tier, round, n - 1);
      assert InTier(ts[n - 1], tier, round);
      assert TierUpTo(ts, tier, round, n) == Indices(n - 1) + [n - 1];
      IndicesSnoc(n);
    }
  }

  /** A tier that no term belongs to is empty. */
  lemma {:induction false} TierNone(ts: seq<StudiableTerm>, tier: Tier, round: int, n: nat)
    requires n <= |ts|
    requires forall i :: 0 <= i < n ==> !InTier(ts[i], tier, round)
    ensures TierUpTo(ts, tier, round, n) == []
  {
    if n > 0 {
      TierNone(ts, tier, round, n - 1);
    }
  }

  /** When every term is unstudied the round is the first `capacity` terms, in list order. */
  lemma {:induction false} AllUnstudiedSelection(ts: seq<StudiableTerm>, round: int, capacity: nat)
    requires forall i :: 0 <= i < |ts| ==> ts[i].correctness == Unstudied
    ensures Selection(ts, round, capacity) == Indices(Min(capacity, |ts|))
  {
    TierNone(ts, MissedTier, round, |ts|);
    TierNone(ts, CooledTier, round, |ts|);
    TierAll(ts, UnstudiedTier, round, |ts|);
    TierNone(ts, FamiliarTier, round, |ts|);
    assert Candidates(ts, round) == Indices(|ts|);
  }

  /**
   * When every term is familiar and none has cooled down, only the filler tier
   * is left, and the round is again the first `capacity` terms in list order.
   */
  lemma {:induction false} UncooledFamiliarSelection(ts: seq<StudiableTerm>, round: int, capacity: nat)
    requires forall i :: 0 <= i < |ts| ==>
      ts[i].correctness == Familiar && ts[i].appearedInRound.Some? && round - ts[i].appearedInRound.value < 2
    ensures Selection(ts, round, capacity) == Indices(Min(capacity, |ts|))
  {
    TierNone(ts, MissedTier, round, |ts|);
    TierNone(ts, CooledTier, round, |ts|);
    TierNone(ts, UnstudiedTier, round, |ts|);
    TierAll(ts, FamiliarTier, round, |ts|);
    assert Candidates(ts, round) == Indices(|ts|);
  }

  /** Once every familiar term has cooled down it is listed twice, and a large round repeats every term. */
  lemma {:induction false} CooledFamiliarSelection(ts: seq<StudiableTerm>, round: int, capacity: nat)
    requires forall i :: 0 <= i < |ts| ==>
      ts[i].correctness == Familiar && ts[i].appearedInRound.Some? && round - ts[i].appearedInRound.value >= 2
    requires capacity >= 2 * |ts|
    ensures Selection(ts, round, capacity) == Indices(|ts|) + Indices(|ts|)
  {
    var all := Indices(|ts|);
    assert TierOf(ts, MissedTier, round) == [] by { TierNone(ts, MissedTier, round, |ts|); }
    assert TierOf(ts, CooledTier, round) == all by { TierAll(ts, CooledTier, round, |ts|); }
    assert TierOf(ts, UnstudiedTier, round) == [] by { TierNone(ts, UnstudiedTier, round, |ts|); }
    assert TierOf(ts, FamiliarTier, round) == all by { TierAll(ts, FamiliarTier, round, |ts|); }
    assert Candidates(ts, round) == all + all;
    WholeSelection(ts, round, capacity);
  }

  /** A round large enough for every candidate takes them all. */
  lemma WholeSelection(ts: seq<StudiableTerm>, round: int, capacity: nat)
    requires capacity >= |Candidates(ts, round)|
    ensures Selection(ts, round, capacity) == Candidates(ts, round)
  {
  }
}
