/**
 * Entities of a Learn-mode study session: terms, their distractor records,
 * the per-term correctness tracker, and the questions of a round.
 */
module LearnModel {
  import opened Common

  type TermId = string

  /** Which side of a term is asked for; `Both` lets each question pick one. */
  datatype AnswerMode = Word | Definition | Both

  datatype LearnMode = Learn | Review

  /** A competing term (`distractingId`) offered as a wrong answer to `termId`, for one answer mode. */
  datatype Distractor = Distractor(distractingId: TermId, termId: TermId, kind: AnswerMode)

  /** A term's static content, as every entry of `allTerms` carries it. */
  datatype Term = Term(id: TermId, word: string, definition: string, distractors: seq<Distractor>)

  /** Correctness values: 0 unstudied, 1 familiar, 2 mastered, -1 missed. */
  const Unstudied := 0
  const Familiar := 1
  const Mastered := 2
  const Missed := -1

  /** A term being studied; the last three fields are the tracker's per-session state. */
  datatype StudiableTerm = StudiableTerm(
    term: Term,
    correctness: int,
    incorrectCount: int,
    appearedInRound: Option<int>)

  datatype QuestionKind = Choice | Write

  /** One question of a round; `term` is the index of its term in the session's term list. */
  datatype Question = Question(answerMode: AnswerMode, choices: seq<Term>, term: nat, kind: QuestionKind)

  datatype Status = Correct | Incorrect | UnknownPartial

  datatype RoundSummary = RoundSummary(round: int, termsThisRound: seq<nat>, progress: nat, totalTerms: int)

  // ---------------------------------------------------------------------------
  // Correctness tracker: each grading writes one term and leaves the others.

  /** A correct answer: a choice question makes the term familiar, any other kind masters it. */
  function GradeCorrect(ts: seq<StudiableTerm>, i: nat, kind: QuestionKind): (r: seq<StudiableTerm>)
    requires i < |ts|
    ensures |r| == |ts|
    ensures r[i].correctness == (if kind == Choice then Familiar else Mastered)
    ensures r[i].incorrectCount == ts[i].incorrectCount
    ensures r[i].term == ts[i].term && r[i].appearedInRound == ts[i].appearedInRound
    ensures forall j :: 0 <= j < |ts| && j != i ==> r[j] == ts[j]
  {
    ts[i := ts[i].(correctness := if kind == Choice then 1 else 2)]
  }

  /** An acknowledged miss: the term becomes missed and its miss count goes up by exactly one. */
  function GradeIncorrect(ts: seq<StudiableTerm>, i: nat): (r: seq<StudiableTerm>)
    requires i < |ts|
    ensures |r| == |ts|
    ensures r[i].correctness == Missed
    ensures r[i].incorrectCount == ts[i].incorrectCount + 1
    ensures r[i].term == ts[i].term && r[i].appearedInRound == ts[i].appearedInRound
    ensures forall j :: 0 <= j < |ts| && j != i ==> r[j] == ts[j]
  {
    ts[i := ts[i].(correctness := -1, incorrectCount := ts[i].incorrectCount + 1)]
  }

  /** A contested miss: the term is mastered at once, whatever the question kind. */
  function GradeOverride(ts: seq<StudiableTerm>, i: nat): (r: seq<StudiableTerm>)
    requires i < |ts|
    ensures |r| == |ts|
    ensures r[i].correctness == Mastered
    ensures r[i].incorrectCount == ts[i].incorrectCount
    ensures r[i].term == ts[i].term && r[i].appearedInRound == ts[i].appearedInRound
    ensures forall j :: 0 <= j < |ts| && j != i ==> r[j] == ts[j]
  {
    ts[i := ts[i].(correctness := 2)]
  }

  // ---------------------------------------------------------------------------
  // Counting over the term list.

  /** Number of mastered terms. */
  function MasteredCount(ts: seq<StudiableTerm>): (n: nat)
    ensures n <= |ts|
    ensures n == |ts| <==> forall i :: 0 <= i < |ts| ==> ts[i].correctness == Mastered
  {
    if ts == [] then 0
    else MasteredCount(ts[..|ts| - 1]) + (if ts[|ts| - 1].correctness == 2 then 1 else 0)
  }

  /** Positions of the terms that have left the unstudied state. */
  ghost function StudiedSet(ts: seq<StudiableTerm>): set<nat>
  {
    set i: nat | i < |ts| && ts[i].correctness != Unstudied
  }

  /** Number of terms that have left the unstudied state. */
  function StudiedCount(ts: seq<StudiableTerm>): (n: nat)
    ensures n == |StudiedSet(ts)|
    ensures n <= |ts|
    ensures n == |ts| <==> forall i :: 0 <= i < |ts| ==> ts[i].correctness != Unstudied
    ensures n == 0 <==> forall i :: 0 <= i < |ts| ==> ts[i].correctness == Unstudied
  {
    if ts == [] then 0
    else
      StudiedSetSnoc(ts);
      StudiedCount(ts[..|ts| - 1]) + (if ts[|ts| - 1].correctness != 0 then 1 else 0)
  }

  /** The studied positions of a list are those of its prefix, plus the last one if it is studied. */
  lemma StudiedSetSnoc(ts: seq<StudiableTerm>)
    requires ts != []
    ensures StudiedSet(ts) == StudiedSet(ts[..|ts| - 1]) + (if ts[|ts| - 1].correctness != 0 then {|ts| - 1} else {})
    ensures |ts| - 1 !in StudiedSet(ts[..|ts| - 1])
  {
  }

  /** Some term was missed at least once in this session. */
  predicate HasMissed(ts: seq<StudiableTerm>)
  {
    exists i :: 0 <= i < |ts| && ts[i].incorrectCount > 0
  }

  /** Every term that has left the unstudied state knows the round it first appeared in. */
  predicate RoundInfoConsistent(ts: seq<StudiableTerm>)
  {
    forall i :: 0 <= i < |ts| && ts[i].correctness != Unstudied ==> ts[i].appearedInRound.Some?
  }

  /** Writing a term that is not mastered never raises the mastered count. */
  lemma {:induction false} MasteredCountUpdate(ts: seq<StudiableTerm>, i: nat, t: StudiableTerm)
    requires i < |ts| && t.correctness != Mastered
    ensures MasteredCount(ts[i := t]) <= MasteredCount(ts)
  {
    var us := ts[i := t];
    if i < |ts| - 1 {
      assert us[..|us| - 1] == ts[..|ts| - 1][i := t];
      MasteredCountUpdate(ts[..|ts| - 1], i, t);
    } else {
      assert us[..|us| - 1] == ts[..|ts| - 1];
    }
  }
}
