/**
 * The choice builder: the wrong answers offered with a term, padded from the
 * whole term list when too few are recorded, and the multiple-choice list
 * drawn from a shuffle of the term and its distractors.
 */
module ChoiceBuilder {
  import opened Common
  import opened LearnModel

  /** The answer mode a question may use under the session's configured mode. */
  predicate ResolvesTo(configured: AnswerMode, resolved: AnswerMode)
  {
    if configured != Both then resolved == configured else resolved == Word || resolved == Definition
  }

  /** Ids of the terms recorded as distractors for `mode`, in record order. */
  function DistractorIds(ds: seq<Distractor>, mode: AnswerMode): (r: seq<TermId>)
    ensures |r| <= |ds|
    ensures forall id :: id in r <==> exists k :: 0 <= k < |ds| && ds[k].kind == mode && ds[k].distractingId == id
  {
    if ds == [] then []
    else
      var rest := DistractorIds(ds[..|ds| - 1], mode);
      var d := ds[|ds| - 1];
      assert forall k :: 0 <= k < |ds| - 1 ==> ds[..|ds| - 1][k] == ds[k];
      if d.kind == mode then rest + [d.distractingId] else rest
  }

  /** The entries of `all` whose id is recorded, in the order of `all`. */
  function Recorded(all: seq<Term>, ids: seq<TermId>): seq<Term>
  {
    Filter(all, (x: Term) => x.id in ids)
  }

  /** The entries of `all` that may pad the list: neither the target nor already recorded. */
  function PaddingPool(all: seq<Term>, targetId: TermId, ids: seq<TermId>): seq<Term>
  {
    Filter(all, (x: Term) => x.id != targetId && x.id !in ids)
  }

  /** The distractors of term `t` for answer mode `mode`. */
  function Distractors(t: Term, mode: AnswerMode, all: seq<Term>): (r: seq<Term>)
    ensures var ids := DistractorIds(t.distractors, mode);
      var rec := Recorded(all, ids);
      if |rec| >= 3 then r == rec
      else
        && |r| == Min(3, |rec| + |PaddingPool(all, t.id, ids)|)
        && r[..|rec|] == rec
        && r[|rec|..] == Take(PaddingPool(all, t.id, ids), 3 - |rec|)
        && forall k :: |rec| <= k < |r| ==> r[k] in all && r[k].id != t.id && r[k].id !in ids
    ensures forall k :: 0 <= k < |r| ==> r[k] in all
  {
    var ids := DistractorIds(t.distractors, mode);
    var rec := Recorded(all, ids);
    if |rec| < 3 then
      var pool := PaddingPool(all, t.id, ids);
      var pad := Take(pool, 3 - |rec|);
      Padded(rec, pool, all, t.id, ids);
      rec + pad
    else rec
  }

  /** The recorded distractors followed by the padding taken from `pool`. */
  lemma Padded(rec: seq<Term>, pool: seq<Term>, all: seq<Term>, targetId: TermId, ids: seq<TermId>)
    requires |rec| < 3
    requires forall k :: 0 <= k < |pool| ==> pool[k] in all && pool[k].id != targetId && pool[k].id !in ids
    ensures var r := rec + Take(pool, 3 - |rec|);
      && |r| == Min(3, |rec| + |pool|)
      && r[..|rec|] == rec
      && r[|rec|..] == Take(pool, 3 - |rec|)
      && forall k :: |rec| <= k < |r| ==> r[k] in all && r[k].id != targetId && r[k].id !in ids
  {
    var pad := Take(pool, 3 - |rec|);
    assert (rec + pad)[..|rec|] == rec && (rec + pad)[|rec|..] == pad;
  }

  /** How many choices a question offers: the term and its distractors, at most four. */
  function NumberOfChoices(distractors: seq<Term>): nat
  {
    Min(4, |distractors| + 1)
  }

  /**
   * `choices` is the first `NumberOfChoices` entries of some shuffle of the
   * term followed by its distractors.
   */
  predicate IsChoiceList(choices: seq<Term>, t: Term, distractors: seq<Term>)
  {
    |choices| == NumberOfChoices(distractors) && multiset(choices) <= multiset([t] + distractors)
  }

  /** The entries of `all` other than term `id`, in the order of `all`. */
  function OtherTerms(all: seq<Term>, id: TermId): seq<Term>
  {
    Filter(all, (x: Term) => x.id != id)
  }

  /** The padding `initialize` gives a term that arrives with no distractor at all. */
  function WithDefaultDistractors(st: StudiableTerm, all: seq<Term>, mode: AnswerMode): (r: StudiableTerm)
    ensures |st.term.distractors| > 0 ==> r == st
    ensures r.term.id == st.term.id && r.term.word == st.term.word && r.term.definition == st.term.definition
    ensures r.correctness == st.correctness && r.incorrectCount == st.incorrectCount
    ensures r.appearedInRound == st.appearedInRound
    ensures |st.term.distractors| == 0 ==>
      && |r.term.distractors| == Min(3, |OtherTerms(all, st.term.id)|)
      && (forall k :: 0 <= k < |r.term.distractors| ==>
            r.term.distractors[k].distractingId == OtherTerms(all, st.term.id)[k].id)
      && forall k :: 0 <= k < |r.term.distractors| ==>
           var d := r.term.distractors[k];
           d.termId == st.term.id && d.kind == mode && d.distractingId != st.term.id &&
           exists x :: x in all && x.id == d.distractingId
  {
    if |st.term.distractors| == 0 then
      var others := Take(OtherTerms(all, st.term.id), 3);
      st.(term := st.term.(distractors := seq(|others|, k requires 0 <= k < |others| =>
        Distractor(others[k].id, st.term.id, mode))))
    else st
  }

  // ---------------------------------------------------------------------------
  // Properties.

  /** Every question offers between one and four choices. */
  lemma ChoiceCount(choices: seq<Term>, t: Term, distractors: seq<Term>)
    requires IsChoiceList(choices, t, distractors)
    ensures 1 <= |choices| <= 4
    ensures |choices| <= |distractors| + 1
  {
  }

  /** With at most three distractors nothing is cut off, so the term itself is always a choice. */
  lemma {:induction false} TargetSurvives(choices: seq<Term>, t: Term, distractors: seq<Term>)
    requires IsChoiceList(choices, t, distractors)
    requires |distractors| <= 3
    ensures t in choices
    ensures multiset(choices) == multiset([t] + distractors)
  {
    var a, b := multiset(choices), multiset([t] + distractors);
    assert |a| == |b|;
    assert |b - a| == |b| - |a|;
    assert b - a == multiset{};
    assert t in b;
  }

  /** With four or more distractors the shuffle may leave the term out of its own choices. */
  lemma TargetMayBeCut()
    ensures var t := Term("t", "w", "d", [Distractor("a", "t", Word), Distractor("b", "t", Word),
                                          Distractor("c", "t", Word), Distractor("e", "t", Word)]);
      var all := [Term("a", "", "", []), Term("b", "", "", []), Term("c", "", "", []), Term("e", "", "", [])];
      && Distractors(t, Word, all) == all
      && IsChoiceList(all, t, Distractors(t, Word, all))
      && t !in all
  {
    var t := Term("t", "w", "d", [Distractor("a", "t", Word), Distractor("b", "t", Word),
                                  Distractor("c", "t", Word), Distractor("e", "t", Word)]);
    var all := [Term("a", "", "", []), Term("b", "", "", []), Term("c", "", "", []), Term("e", "", "", [])];
    AllRecorded(t, Word, all);
    assert multiset(all) <= multiset([t] + all);
  }

  /** When every entry of `all` is a recorded distractor and there are at least three, they are the distractors. */
  lemma {:induction false} AllRecorded(t: Term, mode: AnswerMode, all: seq<Term>)
    requires |all| >= 3
    requires |t.distractors| == |all|
    requires forall k :: 0 <= k < |all| ==> t.distractors[k].kind == mode && t.distractors[k].distractingId == all[k].id
    ensures Distractors(t, mode, all) == all
  {
    var ids := DistractorIds(t.distractors, mode);
    forall k | 0 <= k < |all| ensures all[k].id in ids {
      assert t.distractors[k].distractingId == all[k].id;
    }
    FilterKeepsAll(all, (x: Term) => x.id in ids);
  }

  /** A filter whose predicate holds of every element returns its input. */
  lemma {:induction false} FilterKeepsAll<T>(s: seq<T>, p: T -> bool)
    requires forall k :: 0 <= k < |s| ==> p(s[k])
    ensures Filter(s, p) == s
  {
    if s != [] {
      FilterKeepsAll(s[1..], p);
    }
  }

  /** No two entries share an id. */
  predicate DistinctIds(s: seq<Term>)
  {
    forall i, j :: 0 <= i < j < |s| ==> s[i].id != s[j].id
  }

  /** A subsequence of a list with distinct ids has distinct ids. */
  lemma {:induction false} SubsequenceDistinctIds(a: seq<Term>, b: seq<Term>)
    requires IsSubsequence(a, b) && DistinctIds(b)
    ensures DistinctIds(a)
    ensures forall x :: x in a ==> x in b
    decreases |b|
  {
    if a != [] {
      if a[0] == b[0] {
        SubsequenceDistinctIds(a[1..], b[1..]);
        forall j | 0 < j < |a| ensures a[0].id != a[j].id {
          assert a[j] in a[1..];
          var q :| 0 <= q < |b[1..]| && b[1..][q] == a[j];
          assert b[q + 1] == a[j];
        }
        forall i, j | 0 <= i < j < |a| ensures a[i].id != a[j].id {
          if i > 0 { assert a[i] == a[1..][i - 1] && a[j] == a[1..][j - 1]; }
        }
        forall x | x in a ensures x in b {
          if x != a[0] { assert x in a[1..]; }
        }
      } else {
        SubsequenceDistinctIds(a, b[1..]);
      }
    }
  }

  /** The distractors drawn from a list with distinct ids have distinct ids. */
  lemma {:induction false} DistractorsDistinct(t: Term, mode: AnswerMode, all: seq<Term>)
    requires DistinctIds(all)
    ensures DistinctIds(Distractors(t, mode, all))
  {
    var ids := DistractorIds(t.distractors, mode);
    var rec := Recorded(all, ids);
    var pool := PaddingPool(all, t.id, ids);
    var d := Distractors(t, mode, all);
    SubsequenceDistinctIds(rec, all);
    if |rec| < 3 {
      SubsequenceDistinctIds(pool, all);
      assert d == rec + Take(pool, 3 - |rec|);
      forall i, j | 0 <= i < j < |d| ensures d[i].id != d[j].id {
        if j >= |rec| && i < |rec| {
          assert d[i] in rec;
          assert d[j] == pool[j - |rec|];
          assert d[j] in pool;
        } else if i >= |rec| {
          assert d[i] == pool[i - |rec|] && d[j] == pool[j - |rec|];
        }
      }
    }
  }

  /** A term not recorded as its own distractor is never among its distractors. */
  lemma {:induction false} DistractorsAvoidTarget(t: Term, mode: AnswerMode, all: seq<Term>)
    requires t.id !in DistractorIds(t.distractors, mode)
    ensures forall k :: 0 <= k < |Distractors(t, mode, all)| ==> Distractors(t, mode, all)[k].id != t.id
  {
    var ids := DistractorIds(t.distractors, mode);
    var rec := Recorded(all, ids);
    var d := Distractors(t, mode, all);
    forall k | 0 <= k < |d| ensures d[k].id != t.id {
      if |rec| >= 3 || k < |rec| {
        assert d[k] == rec[k];
      }
    }
  }

  /** Putting a term with a fresh id in front keeps the ids distinct. */
  lemma {:induction false} ConsDistinctIds(t: Term, d: seq<Term>)
    requires DistinctIds(d)
    requires forall k :: 0 <= k < |d| ==> d[k].id != t.id
    ensures DistinctIds([t] + d)
  {
    var cands := [t] + d;
    forall i, j | 0 <= i < j < |cands| ensures cands[i].id != cands[j].id {
      assert cands[j] == d[j - 1];
      if i > 0 { assert cands[i] == d[i - 1]; }
    }
  }

  /**
   * When the term list has distinct ids and a term is not recorded as its own
   * distractor, no two choices share an id.
   */
  lemma {:induction false} ChoicesDistinct(choices: seq<Term>, t: Term, mode: AnswerMode, all: seq<Term>)
    requires DistinctIds(all)
    requires t.id !in DistractorIds(t.distractors, mode)
    requires IsChoiceList(choices, t, Distractors(t, mode, all))
    ensures DistinctIds(choices)
  {
    var d := Distractors(t, mode, all);
    DistractorsDistinct(t, mode, all);
    DistractorsAvoidTarget(t, mode, all);
    ConsDistinctIds(t, d);
    SubMultisetDistinctIds(choices, [t] + d);
  }

  /** Elements drawn, without repetition beyond the source, from a list with distinct ids have distinct ids. */
  lemma SubMultisetDistinctIds(a: seq<Term>, b: seq<Term>)
    requires multiset(a) <= multiset(b) && DistinctIds(b)
    ensures DistinctIds(a)
  {
    forall x | x in multiset(b) ensures multiset(b)[x] == 1 {
      DistinctOnce(b, x);
    }
    forall i, j | 0 <= i < j < |a| ensures a[i].id != a[j].id {
      assert a[i] in multiset(b) && a[j] in multiset(b);
      if a[i] == a[j] {
        TwiceInMultiset(a, i, j);
      } else {
        var p :| 0 <= p < |b| && b[p] == a[i];
        var q :| 0 <= q < |b| && b[q] == a[j];
      }
    }
  }

  lemma {:induction false} DistinctOnce(b: seq<Term>, x: Term)
    requires DistinctIds(b) && x in b
    ensures multiset(b)[x] == 1
  {
    if b[|b| - 1] == x {
      var init := b[..|b| - 1];
      assert b == init + [x];
      assert x !in init by {
        forall k | 0 <= k < |init| ensures init[k] != x {
          assert init[k] == b[k];
        }
      }
    } else {
      var init := b[..|b| - 1];
      assert b == init + [b[|b| - 1]];
      assert x in init;
      assert DistinctIds(init) by {
        forall i, j | 0 <= i < j < |init| ensures init[i].id != init[j].id {
          assert init[i] == b[i] && init[j] == b[j];
        }
      }
      DistinctOnce(init, x);
    }
  }

  lemma TwiceInMultiset(a: seq<Term>, i: nat, j: nat)
    requires i < j < |a| && a[i] == a[j]
    ensures multiset(a)[a[i]] >= 2
  {
    var x := a[i];
    assert a == a[..i] + [x] + a[i + 1..j] + [x] + a[j + 1..];
    assert multiset(a) == multiset(a[..i]) + multiset{x} + multiset(a[i + 1..j]) + multiset{x} + multiset(a[j + 1..]);
  }

  /** Records for other modes contribute no id. */
  lemma {:induction false} NoRecordNoIds(ds: seq<Distractor>, mode: AnswerMode)
    requires forall k :: 0 <= k < |ds| ==> ds[k].kind != mode
    ensures DistractorIds(ds, mode) == []
  {
    if ds != [] {
      NoRecordNoIds(ds[..|ds| - 1], mode);
    }
  }

  /**
   * Padding given by `initialize` under the configured mode `Both` never
   * matches the mode a question resolves to, so such a term's choices come
   * from the whole term list.
   */
  lemma {:induction false} BothPaddingNeverMatches(st: StudiableTerm, all: seq<Term>, resolved: AnswerMode)
    requires |st.term.distractors| == 0
    requires resolved == Word || resolved == Definition
    ensures DistractorIds(WithDefaultDistractors(st, all, Both).term.distractors, resolved) == []
  {
    NoRecordNoIds(WithDefaultDistractors(st, all, Both).term.distractors, resolved);
  }

  /** The first `NumberOfChoices` entries of any shuffle of the term and its distractors form a choice list. */
  lemma {:induction false} ShufflePrefixIsChoiceList(shuffled: seq<Term>, t: Term, distractors: seq<Term>)
    requires IsPermutation(shuffled, [t] + distractors)
    ensures NumberOfChoices(distractors) <= |shuffled|
    ensures IsChoiceList(shuffled[..NumberOfChoices(distractors)], t, distractors)
  {
    var n := NumberOfChoices(distractors);
    assert |shuffled| == |multiset(shuffled)| == |[t] + distractors|;
    assert shuffled == shuffled[..n] + shuffled[n..];
    assert multiset(shuffled) == multiset(shuffled[..n]) + multiset(shuffled[n..]);
  }
}
