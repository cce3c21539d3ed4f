/**
 * The Learn session as a value: a snapshot of every store field, and one
 * function per transition giving the snapshot after it. The store class in
 * module LearnStore is proved to follow these functions.
 */
module LearnSession {
  import opened Common
  import opened LearnModel
  import opened RoundScheduler
  import opened ChoiceBuilder

  datatype Session = Session(
    mode: LearnMode,
    answerMode: AnswerMode,
    studiableTerms: seq<StudiableTerm>,
    allTerms: seq<Term>,
    numTerms: int,
    termsThisRound: int,
    currentRound: int,
    roundProgress: int,
    roundCounter: int,
    roundTimeline: seq<Question>,
    answered: Option<TermId>,
    status: Option<Status>,
    roundSummary: Option<RoundSummary>,
    completed: bool,
    hasMissedTerms: Option<bool>,
    prevTermWasIncorrect: Option<bool>)

  /** The session a new store starts with, before `initialize`. */
  function DefaultSession(): Session
  {
    Session(Learn, Definition, [], [], 0, 0, 0, 0, 0, [], None, None, None, false, None, None)
  }

  /** The term count is the list's length and every question names a term of the list. */
  predicate WellFormed(s: Session)
  {
    && s.numTerms == |s.studiableTerms|
    && forall k :: 0 <= k < |s.roundTimeline| ==> s.roundTimeline[k].term < |s.studiableTerms|
  }

  /** A question sits at the cursor. */
  predicate HasActive(s: Session)
  {
    0 <= s.roundCounter < |s.roundTimeline|
  }

  /** The store's own test for the last question of a round: it compares progress, not the cursor. */
  predicate OnLastQuestion(s: Session)
  {
    s.roundProgress == s.termsThisRound - 1
  }

  predicate AllMastered(ts: seq<StudiableTerm>)
  {
    forall i :: 0 <= i < |ts| ==> ts[i].correctness == Mastered
  }

  // ---------------------------------------------------------------------------
  // Round summary.

  /** The distinct elements of `xs`, each kept at its first occurrence (a JavaScript `Set`). */
  function Dedup(xs: seq<nat>): (r: seq<nat>)
    ensures Distinct(r)
    ensures forall x :: x in r <==> x in xs
    ensures |r| <= |xs|
  {
    if xs == [] then []
    else
      var init := xs[..|xs| - 1];
      var d := Dedup(init);
      var x := xs[|xs| - 1];
      assert xs == init + [x];
      if x in d then d else d + [x]
  }

  function TimelineTerms(tl: seq<Question>): (r: seq<nat>)
    ensures |r| == |tl| && forall k :: 0 <= k < |tl| ==> r[k] == tl[k].term
  {
    seq(|tl|, k requires 0 <= k < |tl| => tl[k].term)
  }

  function Summary(s: Session): RoundSummary
  {
    RoundSummary(s.currentRound, Dedup(TimelineTerms(s.roundTimeline)), StudiedCount(s.studiableTerms), s.numTerms)
  }

  // ---------------------------------------------------------------------------
  // Transitions.

  /**
   * The end of a question: completion when every term is mastered, else the
   * round summary on the last question, else the cursor moves on and progress
   * counts a correct answer.
   */
  function EndQuestion(s: Session, correct: bool): (r: Session)
    requires WellFormed(s)
    ensures WellFormed(r)
    ensures AllMastered(s.studiableTerms) ==>
      r == s.(completed := true, hasMissedTerms := Some(HasMissed(s.studiableTerms)))
    ensures !AllMastered(s.studiableTerms) && OnLastQuestion(s) ==>
      r.roundSummary.Some? && r == s.(roundSummary := r.roundSummary, status := None)
      && r.roundSummary.value.round == s.currentRound
      && Distinct(r.roundSummary.value.termsThisRound)
      && (forall i :: i in r.roundSummary.value.termsThisRound <==>
            exists k :: 0 <= k < |s.roundTimeline| && s.roundTimeline[k].term == i)
      && r.roundSummary.value.progress == |StudiedSet(s.studiableTerms)|
      && r.roundSummary.value.progress <= r.roundSummary.value.totalTerms == s.numTerms
      && (r.roundSummary.value.progress == 0 <==> forall i :: 0 <= i < |s.studiableTerms| ==>
            s.studiableTerms[i].correctness == Unstudied)
    ensures !AllMastered(s.studiableTerms) && !OnLastQuestion(s) ==>
      r == s.(roundCounter := s.roundCounter + 1,
              roundProgress := s.roundProgress + (if correct then 1 else 0),
              answered := None, status := None)
  {
    if MasteredCount(s.studiableTerms) == s.numTerms then
      s.(completed := true, hasMissedTerms := Some(HasMissed(s.studiableTerms)))
    else if s.roundProgress == s.termsThisRound - 1 then
      var tl := TimelineTerms(s.roundTimeline);
      assert forall i :: i in tl <==> exists k :: 0 <= k < |s.roundTimeline| && s.roundTimeline[k].term == i by {
        forall i | i in tl ensures exists k :: 0 <= k < |s.roundTimeline| && s.roundTimeline[k].term == i {
          var k :| 0 <= k < |tl| && tl[k] == i;
        }
        forall i | exists k :: 0 <= k < |s.roundTimeline| && s.roundTimeline[k].term == i ensures i in tl {
          var k :| 0 <= k < |s.roundTimeline| && s.roundTimeline[k].term == i;
          assert tl[k] == i;
        }
      }
      s.(roundSummary := Some(Summary(s)), status := None)
    else
      s.(roundCounter := s.roundCounter + 1, roundProgress := s.roundProgress + (if correct then 1 else 0),
         answered := None, status := None)
  }

  function ActiveTerm(s: Session): nat
    requires HasActive(s)
  {
    s.roundTimeline[s.roundCounter].term
  }

  /** The immediate part of a correct answer: the terms, the timeline and the cursor are left alone. */
  function AnswerCorrectly(s: Session, termId: TermId): (r: Session)
    ensures WellFormed(r) <==> WellFormed(s)
    ensures HasActive(r) <==> HasActive(s)
    ensures r.studiableTerms == s.studiableTerms && r.roundTimeline == s.roundTimeline
    ensures r.status == Some(Correct) && r.prevTermWasIncorrect == Some(false)
  {
    s.(answered := Some(termId), status := Some(Correct), prevTermWasIncorrect := Some(false))
  }

  /** The deferred part of a correct answer: grade the active term, then end the question. */
  function FinishCorrectAnswer(s: Session): (r: Session)
    requires WellFormed(s) && HasActive(s)
    ensures WellFormed(r)
    ensures r.roundTimeline == s.roundTimeline
    ensures |r.studiableTerms| == |s.studiableTerms|
    ensures r.studiableTerms[ActiveTerm(s)].correctness ==
      (if s.roundTimeline[s.roundCounter].kind == Choice then Familiar else Mastered)
    ensures forall j :: 0 <= j < |s.studiableTerms| && j != ActiveTerm(s) ==> r.studiableTerms[j] == s.studiableTerms[j]
  {
    var q := s.roundTimeline[s.roundCounter];
    EndQuestion(s.(studiableTerms := GradeCorrect(s.studiableTerms, q.term, q.kind)), true)
  }

  /** A wrong answer re-queues the active question unless the round is on its last question. */
  function AnswerIncorrectly(s: Session, termId: TermId): (r: Session)
    requires WellFormed(s) && (HasActive(s) || OnLastQuestion(s))
    ensures WellFormed(r)
    ensures !OnLastQuestion(s) ==> r.roundTimeline == s.roundTimeline + [s.roundTimeline[s.roundCounter]]
    ensures OnLastQuestion(s) ==> r.roundTimeline == s.roundTimeline
    ensures r.studiableTerms == s.studiableTerms
  {
    var tl := if s.roundProgress != s.termsThisRound - 1
      then s.roundTimeline + [s.roundTimeline[s.roundCounter]] else s.roundTimeline;
    s.(answered := Some(termId), status := Some(Incorrect), roundTimeline := tl, prevTermWasIncorrect := Some(true))
  }

  /** The learner accepts the miss: the active term is missed once more, then the question ends. */
  function AcknowledgeIncorrect(s: Session): (r: Session)
    requires WellFormed(s) && HasActive(s)
    ensures WellFormed(r)
    ensures r.roundTimeline == s.roundTimeline
    ensures !r.completed || s.completed
    ensures |r.studiableTerms| == |s.studiableTerms|
    ensures r.studiableTerms[ActiveTerm(s)].correctness == Missed
    ensures r.studiableTerms[ActiveTerm(s)].incorrectCount == s.studiableTerms[ActiveTerm(s)].incorrectCount + 1
    ensures forall j :: 0 <= j < |s.studiableTerms| && j != ActiveTerm(s) ==> r.studiableTerms[j] == s.studiableTerms[j]
  {
    GradedIncorrectNotAllMastered(s.studiableTerms, ActiveTerm(s));
    EndQuestion(s.(studiableTerms := GradeIncorrect(s.studiableTerms, ActiveTerm(s))), false)
  }

  function AnswerUnknownPartial(s: Session): Session
  {
    s.(status := Some(UnknownPartial))
  }

  /**
   * The learner contests a miss: the active term is mastered, the question
   * re-queued by the miss is taken off again, and the question ends as correct.
   */
  function OverrideCorrect(s: Session): (r: Session)
    requires WellFormed(s) && HasActive(s)
    ensures WellFormed(r)
    ensures !OnLastQuestion(s) ==> r.roundTimeline == s.roundTimeline[..|s.roundTimeline| - 1]
    ensures OnLastQuestion(s) ==> r.roundTimeline == s.roundTimeline
    ensures r.prevTermWasIncorrect == Some(false)
    ensures |r.studiableTerms| == |s.studiableTerms|
    ensures r.studiableTerms[ActiveTerm(s)].correctness == Mastered
    ensures r.studiableTerms[ActiveTerm(s)].incorrectCount == s.studiableTerms[ActiveTerm(s)].incorrectCount
    ensures forall j :: 0 <= j < |s.studiableTerms| && j != ActiveTerm(s) ==> r.studiableTerms[j] == s.studiableTerms[j]
  {
    var graded := GradeOverride(s.studiableTerms, ActiveTerm(s));
    var tl := if s.roundProgress != s.termsThisRound - 1 then s.roundTimeline[..|s.roundTimeline| - 1] else s.roundTimeline;
    var s1 := s.(studiableTerms := graded, roundTimeline := tl);
    assert WellFormed(s1);
    EndQuestion(s1, true).(roundTimeline := tl, prevTermWasIncorrect := Some(false))
  }

  /** The learner, shown the answer, marks themself right. */
  function CorrectFromUnknown(s: Session, termId: TermId): (r: Session)
    requires WellFormed(s) && HasActive(s)
    ensures WellFormed(r)
    ensures r.roundTimeline == s.roundTimeline
    ensures r.prevTermWasIncorrect == Some(false)
    ensures |r.studiableTerms| == |s.studiableTerms|
    ensures r.studiableTerms[ActiveTerm(s)].correctness ==
      (if s.roundTimeline[s.roundCounter].kind == Choice then Familiar else Mastered)
    ensures forall j :: 0 <= j < |s.studiableTerms| && j != ActiveTerm(s) ==> r.studiableTerms[j] == s.studiableTerms[j]
  {
    var s1 := s.(answered := Some(termId), prevTermWasIncorrect := Some(false));
    var q := s1.roundTimeline[s1.roundCounter];
    EndQuestion(s1.(studiableTerms := GradeCorrect(s1.studiableTerms, q.term, q.kind)), true)
  }

  /** The learner, shown the answer, marks themself wrong: a re-queue and a miss together. */
  function IncorrectFromUnknown(s: Session, termId: TermId): (r: Session)
    requires WellFormed(s) && HasActive(s)
    ensures WellFormed(r)
    ensures !OnLastQuestion(s) ==> r.roundTimeline == s.roundTimeline + [s.roundTimeline[s.roundCounter]]
    ensures OnLastQuestion(s) ==> r.roundTimeline == s.roundTimeline
    ensures r.prevTermWasIncorrect == Some(true)
    ensures !r.completed || s.completed
    ensures |r.studiableTerms| == |s.studiableTerms|
    ensures r.studiableTerms[ActiveTerm(s)].correctness == Missed
    ensures r.studiableTerms[ActiveTerm(s)].incorrectCount == s.studiableTerms[ActiveTerm(s)].incorrectCount + 1
    ensures forall j :: 0 <= j < |s.studiableTerms| && j != ActiveTerm(s) ==> r.studiableTerms[j] == s.studiableTerms[j]
  {
    var tl := if s.roundProgress != s.termsThisRound - 1
      then s.roundTimeline + [s.roundTimeline[s.roundCounter]] else s.roundTimeline;
    var s1 := s.(answered := Some(termId), roundTimeline := tl, prevTermWasIncorrect := Some(true));
    assert s1.roundTimeline[s1.roundCounter] == s.roundTimeline[s.roundCounter];
    GradedIncorrectNotAllMastered(s1.studiableTerms, ActiveTerm(s));
    EndQuestion(s1.(studiableTerms := GradeIncorrect(s1.studiableTerms, s1.roundTimeline[s1.roundCounter].term)), false)
  }

  // ---------------------------------------------------------------------------
  // Building a round.

  function RoundNumber(s: Session, start: bool): int
  {
    s.currentRound + (if start then 0 else 1)
  }

  /** `q` asks term `i`, whose content is `t`, as a choice question legal for the configured mode. */
  predicate IsQuestionFor(q: Question, i: nat, t: Term, configured: AnswerMode, all: seq<Term>)
  {
    && q.term == i
    && q.kind == Choice
    && ResolvesTo(configured, q.answerMode)
    && IsChoiceList(q.choices, t, Distractors(t, q.answerMode, all))
  }

  /** `tl` asks each selected term once, in selection order, as a question legal for the configured mode. */
  predicate QuestionsFor(tl: seq<Question>, sel: seq<nat>, ts: seq<StudiableTerm>, configured: AnswerMode, all: seq<Term>)
  {
    && |tl| == |sel|
    && forall k :: 0 <= k < |sel| ==> sel[k] < |ts| && IsQuestionFor(tl[k], sel[k], ts[sel[k]].term, configured, all)
  }

  /**
   * `r` is a possible session after `nextRound(start)` on `s` with round
   * capacity `capacity`; the shuffles and the per-question answer modes are
   * the only freedom left.
   */
  predicate IsNextRound(s: Session, start: bool, capacity: nat, r: Session)
  {
    var round := RoundNumber(s, start);
    var sel := Selection(s.studiableTerms, round, capacity);
    var ts := Stamped(s.studiableTerms, sel, round);
    && QuestionsFor(r.roundTimeline, sel, ts, s.answerMode, s.allTerms)
    && r == s.(studiableTerms := ts, roundTimeline := r.roundTimeline, roundSummary := None,
               termsThisRound := |sel|, roundCounter := 0, roundProgress := 0, answered := None,
               status := None, completed := |sel| == 0,
               hasMissedTerms := Some(HasMissed(s.studiableTerms)), currentRound := round)
  }

  /** Building the questions for the selected terms, and resetting the round fields, is a next round. */
  lemma {:induction false} NextRoundIntro(s: Session, start: bool, capacity: nat, round: int, sel: seq<nat>,
                                          ts: seq<StudiableTerm>, tl: seq<Question>)
    requires round == RoundNumber(s, start)
    requires sel == Selection(s.studiableTerms, round, capacity)
    requires ts == Stamped(s.studiableTerms, sel, round)
    requires QuestionsFor(tl, sel, ts, s.answerMode, s.allTerms)
    ensures IsNextRound(s, start, capacity,
      s.(studiableTerms := ts, roundTimeline := tl, roundSummary := None,
         termsThisRound := |sel|, roundCounter := 0, roundProgress := 0, answered := None,
         status := None, completed := |sel| == 0,
         hasMissedTerms := Some(HasMissed(s.studiableTerms)), currentRound := round))
  {
  }

  /** The session `initialize` hands to its first `nextRound`. */
  function Prepared(s: Session, mode: LearnMode, answerMode: AnswerMode, terms: seq<StudiableTerm>,
                    allTerms: seq<Term>, round: int): (r: Session)
    ensures |r.studiableTerms| == |terms| == r.numTerms
    ensures r.roundTimeline == s.roundTimeline
    ensures forall i :: 0 <= i < |terms| ==>
      r.studiableTerms[i] == WithDefaultDistractors(terms[i], allTerms, answerMode)
  {
    var prepared := seq(|terms|, i requires 0 <= i < |terms| => WithDefaultDistractors(terms[i], allTerms, answerMode));
    s.(mode := mode, answerMode := answerMode, studiableTerms := prepared, allTerms := allTerms,
       numTerms := |terms|, currentRound := round)
  }

  // ---------------------------------------------------------------------------
  // Invariants of a session.

  /**
   * Inside a round: the timeline entries not yet answered are exactly the
   * correct answers still owed, and at least one is owed.
   */
  predicate Balanced(s: Session)
  {
    && WellFormed(s)
    && 0 <= s.roundCounter
    && 0 <= s.roundProgress < s.termsThisRound
    && |s.roundTimeline| - s.roundCounter == s.termsThisRound - s.roundProgress
  }

  /** Round information is present for every term that left the unstudied state and for every question's term. */
  predicate Consistent(s: Session)
  {
    && WellFormed(s)
    && RoundInfoConsistent(s.studiableTerms)
    && forall k :: 0 <= k < |s.roundTimeline| ==> s.studiableTerms[s.roundTimeline[k].term].appearedInRound.Some?
  }

  // ---------------------------------------------------------------------------
  // Properties of a session.

  /**
   * Inside a balanced round a question is always at the cursor, and the
   * store's progress-based test for the last question holds exactly when the
   * cursor is on the last timeline entry.
   */
  lemma BalancedCursor(s: Session)
    requires Balanced(s)
    ensures HasActive(s)
    ensures OnLastQuestion(s) <==> s.roundCounter == |s.roundTimeline| - 1
  {
  }

  /** What one answered question does to the round counters and the timeline. */
  predicate AnswerEffect(s: Session, r: Session, correct: bool)
  {
    && |r.roundTimeline| == |s.roundTimeline| + (if !correct && !OnLastQuestion(s) then 1 else 0)
    && r.termsThisRound == s.termsThisRound
    && if AllMastered(r.studiableTerms) then
         r.completed && r.roundCounter == s.roundCounter && r.roundProgress == s.roundProgress
       else if OnLastQuestion(s) then
         r.roundSummary.Some? && r.roundCounter == s.roundCounter && r.roundProgress == s.roundProgress
       else
         r.roundCounter == s.roundCounter + 1 && r.roundProgress == s.roundProgress + (if correct then 1 else 0)
  }

  lemma {:induction false} GradedIncorrectNotAllMastered(ts: seq<StudiableTerm>, i: nat)
    requires i < |ts|
    ensures !AllMastered(GradeIncorrect(ts, i))
  {
    assert GradeIncorrect(ts, i)[i].correctness == -1;
  }

  /** A correct answer followed by its deferred step keeps the round balanced. */
  lemma {:induction false} CorrectAnswerKeepsBalance(s: Session, termId: TermId)
    requires Balanced(s)
    ensures WellFormed(AnswerCorrectly(s, termId)) && HasActive(AnswerCorrectly(s, termId))
    ensures var r := FinishCorrectAnswer(AnswerCorrectly(s, termId));
      Balanced(r) && AnswerEffect(s, r, true)
  {
  }

  /** A wrong answer that the learner acknowledges keeps the round balanced. */
  lemma {:induction false} WrongAnswerKeepsBalance(s: Session, termId: TermId)
    requires Balanced(s)
    ensures HasActive(AnswerIncorrectly(s, termId))
    ensures var r := AcknowledgeIncorrect(AnswerIncorrectly(s, termId));
      Balanced(r) && AnswerEffect(s, r, false)
  {
    var s1 := AnswerIncorrectly(s, termId);
    GradedIncorrectNotAllMastered(s1.studiableTerms, ActiveTerm(s1));
  }

  /** A wrong answer that the learner contests counts as correct and leaves the timeline as it was. */
  lemma {:induction false} ContestedAnswerKeepsBalance(s: Session, termId: TermId)
    requires Balanced(s)
    ensures HasActive(AnswerIncorrectly(s, termId))
    ensures var r := OverrideCorrect(AnswerIncorrectly(s, termId));
      Balanced(r) && AnswerEffect(s, r, true) && r.roundTimeline == s.roundTimeline
  {
    var s1 := AnswerIncorrectly(s, termId);
    if !OnLastQuestion(s) {
      assert s1.roundTimeline[..|s1.roundTimeline| - 1] == s.roundTimeline;
    }
  }

  /** "Don't know", then marked right, keeps the round balanced. */
  lemma {:induction false} UnknownThenCorrectKeepsBalance(s: Session, termId: TermId)
    requires Balanced(s)
    ensures var r := CorrectFromUnknown(AnswerUnknownPartial(s), termId);
      Balanced(r) && AnswerEffect(s, r, true)
  {
  }

  /** "Don't know", then marked wrong, keeps the round balanced. */
  lemma {:induction false} UnknownThenWrongKeepsBalance(s: Session, termId: TermId)
    requires Balanced(s)
    ensures var r := IncorrectFromUnknown(AnswerUnknownPartial(s), termId);
      Balanced(r) && AnswerEffect(s, r, false)
  {
    var s0 := AnswerUnknownPartial(s);
    var tl := if s0.roundProgress != s0.termsThisRound - 1
      then s0.roundTimeline + [s0.roundTimeline[s0.roundCounter]] else s0.roundTimeline;
    var s1 := s0.(answered := Some(termId), roundTimeline := tl, prevTermWasIncorrect := Some(true));
    assert s1.roundTimeline[s1.roundCounter] == s.roundTimeline[s.roundCounter];
    GradedIncorrectNotAllMastered(s1.studiableTerms, s1.roundTimeline[s1.roundCounter].term);
  }

  /**
   * A new round: the capacity bounds it, its round number moves by one unless
   * it is the first, it is empty (and the session completed) exactly when no
   * term is missed, unstudied or familiar, and a non-empty round starts
   * balanced with every question well built.
   */
  lemma {:induction false} NextRoundFacts(s: Session, start: bool, capacity: nat, r: Session)
    requires s.numTerms == |s.studiableTerms|
    requires IsNextRound(s, start, capacity, r)
    ensures WellFormed(r)
    ensures r.currentRound == s.currentRound + (if start then 0 else 1)
    ensures r.termsThisRound == |r.roundTimeline| <= capacity
    ensures r.completed <==>
      (capacity == 0 || forall i :: 0 <= i < |s.studiableTerms| ==> s.studiableTerms[i].correctness !in {-1, 0, 1})
    ensures !r.completed ==> Balanced(r)
    ensures RoundInfoConsistent(s.studiableTerms) ==> Consistent(r)
    ensures forall k :: 0 <= k < |r.roundTimeline| ==>
      r.roundTimeline[k].kind == Choice && 1 <= |r.roundTimeline[k].choices| <= 4
  {
    NextRoundShape(s, start, capacity, r);
    NextRoundQuestions(s, start, capacity, r);
    if RoundInfoConsistent(s.studiableTerms) {
      NextRoundConsistent(s, start, capacity, r);
    }
  }

  /** The counters, the size and the completion flag of a new round. */
  lemma {:induction false} NextRoundShape(s: Session, start: bool, capacity: nat, r: Session)
    requires s.numTerms == |s.studiableTerms|
    requires IsNextRound(s, start, capacity, r)
    ensures WellFormed(r)
    ensures r.currentRound == s.currentRound + (if start then 0 else 1)
    ensures r.termsThisRound == |r.roundTimeline| <= capacity
    ensures r.completed <==>
      (capacity == 0 || forall i :: 0 <= i < |s.studiableTerms| ==> s.studiableTerms[i].correctness !in {-1, 0, 1})
    ensures !r.completed ==> Balanced(r)
  {
    var round := RoundNumber(s, start);
    EmptyRound(s.studiableTerms, round, capacity);
  }

  /** Every question of a new round is a choice question with one to four choices. */
  lemma {:induction false} NextRoundQuestions(s: Session, start: bool, capacity: nat, r: Session)
    requires IsNextRound(s, start, capacity, r)
    ensures forall k :: 0 <= k < |r.roundTimeline| ==>
      r.roundTimeline[k].kind == Choice && 1 <= |r.roundTimeline[k].choices| <= 4
  {
  }

  /** A new round keeps round information consistent, and every question's term knows its round. */
  lemma {:induction false} NextRoundConsistent(s: Session, start: bool, capacity: nat, r: Session)
    requires s.numTerms == |s.studiableTerms|
    requires IsNextRound(s, start, capacity, r)
    requires RoundInfoConsistent(s.studiableTerms)
    ensures Consistent(r)
  {
    var round := RoundNumber(s, start);
    StampedKeepsRoundInfo(s.studiableTerms, round, capacity);
  }

  /** Regrading a term that already knows its round keeps round information consistent. */
  lemma {:induction false} RegradeKeepsConsistent(s: Session, ts: seq<StudiableTerm>, a: nat)
    requires Consistent(s) && a < |s.studiableTerms| && s.studiableTerms[a].appearedInRound.Some?
    requires |ts| == |s.studiableTerms| && ts[a].appearedInRound == s.studiableTerms[a].appearedInRound
    requires forall j :: 0 <= j < |ts| && j != a ==> ts[j] == s.studiableTerms[j]
    ensures Consistent(s.(studiableTerms := ts))
  {
    var r := s.(studiableTerms := ts);
    forall k | 0 <= k < |r.roundTimeline| ensures ts[r.roundTimeline[k].term].appearedInRound.Some? {
      var i := r.roundTimeline[k].term;
      assert s.studiableTerms[i].appearedInRound.Some?;
    }
  }

  /** A graded correct answer keeps round information consistent. */
  lemma {:induction false} CorrectKeepsConsistent(s: Session)
    requires Consistent(s) && HasActive(s)
    ensures Consistent(FinishCorrectAnswer(s))
  {
    var q := s.roundTimeline[s.roundCounter];
    RegradeKeepsConsistent(s, GradeCorrect(s.studiableTerms, q.term, q.kind), q.term);
  }

  /** A wrong answer, acknowledged, keeps round information consistent. */
  lemma {:induction false} IncorrectKeepsConsistent(s: Session, termId: TermId)
    requires Consistent(s) && HasActive(s)
    ensures Consistent(AnswerIncorrectly(s, termId))
    ensures HasActive(AnswerIncorrectly(s, termId)) && Consistent(AcknowledgeIncorrect(AnswerIncorrectly(s, termId)))
  {
    var s1 := AnswerIncorrectly(s, termId);
    assert Consistent(s1) by {
      forall k | 0 <= k < |s1.roundTimeline|
        ensures s1.studiableTerms[s1.roundTimeline[k].term].appearedInRound.Some?
      {
        if k >= |s.roundTimeline| {
          assert s1.roundTimeline[k] == s.roundTimeline[s.roundCounter];
        } else {
          assert s1.roundTimeline[k] == s.roundTimeline[k];
        }
      }
    }
    var a := ActiveTerm(s1);
    assert a == ActiveTerm(s);
    RegradeKeepsConsistent(s1, GradeIncorrect(s1.studiableTerms, a), a);
  }

  /** A contested miss keeps round information consistent. */
  lemma {:induction false} OverrideKeepsConsistent(s: Session)
    requires Consistent(s) && HasActive(s)
    ensures Consistent(OverrideCorrect(s))
  {
    var a := ActiveTerm(s);
    var graded := GradeOverride(s.studiableTerms, a);
    RegradeKeepsConsistent(s, graded, a);
    var tl := if s.roundProgress != s.termsThisRound - 1 then s.roundTimeline[..|s.roundTimeline| - 1] else s.roundTimeline;
    var s1 := s.(studiableTerms := graded, roundTimeline := tl);
    assert Consistent(s1) by {
      forall k | 0 <= k < |tl| ensures graded[tl[k].term].appearedInRound.Some? {
        assert tl[k] == s.roundTimeline[k];
      }
    }
  }

  /** Either self-grading after "don't know" keeps round information consistent. */
  lemma {:induction false} UnknownKeepsConsistent(s: Session, termId: TermId)
    requires Consistent(s) && HasActive(s)
    ensures Consistent(CorrectFromUnknown(s, termId))
    ensures Consistent(IncorrectFromUnknown(s, termId))
  {
    var s1 := s.(answered := Some(termId), prevTermWasIncorrect := Some(false));
    var q := s1.roundTimeline[s1.roundCounter];
    RegradeKeepsConsistent(s1, GradeCorrect(s1.studiableTerms, q.term, q.kind), q.term);
    var s2 := AnswerIncorrectly(s, termId);
    IncorrectKeepsConsistent(s, termId);
    var a := ActiveTerm(s2);
    var s3 := s2.(status := s.status);
    assert Consistent(s3);
    RegradeKeepsConsistent(s3, GradeIncorrect(s3.studiableTerms, a), a);
  }

  /**
   * A session whose terms all arrive unstudied never hits the missing-round
   * error: its first round, and every round after it, can be built.
   */
  lemma {:induction false} FreshSessionHasRoundInfo(s: Session, mode: LearnMode, answerMode: AnswerMode,
                                                    terms: seq<StudiableTerm>, allTerms: seq<Term>, round: int)
    requires forall i :: 0 <= i < |terms| ==> terms[i].correctness == Unstudied
    ensures RoundInfoConsistent(Prepared(s, mode, answerMode, terms, allTerms, round).studiableTerms)
    ensures !LacksRoundInfo(Prepared(s, mode, answerMode, terms, allTerms, round).studiableTerms)
  {
    var p := Prepared(s, mode, answerMode, terms, allTerms, round);
    ConsistentNeverLacks(p.studiableTerms);
  }

  /**
   * A correct answer to a choice question never masters a term: the term
   * becomes familiar, even when it was familiar already, so the mastered count
   * cannot grow. Only a contested miss masters a term.
   */
  lemma {:induction false} ChoiceCorrectNeverMasters(s: Session, termId: TermId)
    requires WellFormed(s) && HasActive(s) && s.roundTimeline[s.roundCounter].kind == Choice
    ensures MasteredCount(FinishCorrectAnswer(AnswerCorrectly(s, termId)).studiableTerms) <= MasteredCount(s.studiableTerms)
    ensures MasteredCount(CorrectFromUnknown(s, termId).studiableTerms) <= MasteredCount(s.studiableTerms)
    ensures FinishCorrectAnswer(AnswerCorrectly(s, termId)).studiableTerms[ActiveTerm(s)].correctness == Familiar
  {
    var a := ActiveTerm(s);
    var ts := s.studiableTerms;
    assert GradeCorrect(ts, a, Choice) == ts[a := ts[a].(correctness := 1)];
    MasteredCountUpdate(ts, a, ts[a].(correctness := 1));
  }
}
