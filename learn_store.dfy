/**
 * The Learn store: one mutable field per store property, and one method per
 * action. Each method is proved to move the store from its snapshot to the
 * snapshot the matching function of module LearnSession gives.
 */
module LearnStore {
  import opened Common
  import opened LearnModel
  import opened RoundScheduler
  import opened ChoiceBuilder
  import opened LearnSession

  /** Why an action was refused. */
  datatype LearnError =
    | NoActiveQuestion     // the cursor is past the end of the timeline
    | NoRoundInformation   // a familiar term does not know the round it first appeared in

  class Store {
    /** How many terms a round holds at most. */
    const capacity: nat

    var mode: LearnMode
    var answerMode: AnswerMode
    var studiableTerms: seq<StudiableTerm>
    var allTerms: seq<Term>
    var numTerms: int
    var termsThisRound: int
    var currentRound: int
    var roundProgress: int
    var roundCounter: int
    var roundTimeline: seq<Question>
    var answered: Option<TermId>
    var status: Option<Status>
    var roundSummary: Option<RoundSummary>
    var completed: bool
    var hasMissedTerms: Option<bool>
    var prevTermWasIncorrect: Option<bool>

    /** The store's state as a value. */
    function Snapshot(): Session
      reads this
    {
      Session(mode, answerMode, studiableTerms, allTerms, numTerms, termsThisRound, currentRound,
              roundProgress, roundCounter, roundTimeline, answered, status, roundSummary, completed,
              hasMissedTerms, prevTermWasIncorrect)
    }

    ghost predicate Valid()
      reads this
    {
      WellFormed(Snapshot())
    }

    constructor (capacity: nat)
      ensures this.capacity == capacity
      ensures Snapshot() == DefaultSession() && Valid()
    {
      this.capacity := capacity;
      mode := Learn;
      answerMode := Definition;
      studiableTerms := [];
      allTerms := [];
      numTerms := 0;
      termsThisRound := 0;
      currentRound := 0;
      roundProgress := 0;
      roundCounter := 0;
      roundTimeline := [];
      answered := None;
      status := None;
      roundSummary := None;
      completed := false;
      hasMissedTerms := None;
      prevTermWasIncorrect := None;
    }

    /**
     * Loads a study session and builds its first round. When that round
     * cannot be built the loaded terms stay in place, with the old timeline.
     */
    method Initialize(mode: LearnMode, answerMode: AnswerMode, terms: seq<StudiableTerm>,
                      allTerms: seq<Term>, round: int) returns (r: Outcome<LearnError>)
      modifies this
      ensures var p := Prepared(old(Snapshot()), mode, answerMode, terms, allTerms, round);
        && (r.Pass? <==> !LacksRoundInfo(p.studiableTerms))
        && (r.Pass? ==> IsNextRound(p, true, capacity, Snapshot()) && Valid())
        && (r.Fail? ==> Snapshot() == p)
    {
      ghost var p := Prepared(Snapshot(), mode, answerMode, terms, allTerms, round);
      var prepared := seq(|terms|, i requires 0 <= i < |terms| => WithDefaultDistractors(terms[i], allTerms, answerMode));
      Load(mode, answerMode, prepared, allTerms, round);
      assert Snapshot() == p;
      r := NextRound(true);
    }

    /** `initialize`'s first update: the configuration, the padded terms and their count, and the round. */
    method Load(mode: LearnMode, answerMode: AnswerMode, terms: seq<StudiableTerm>, allTerms: seq<Term>, round: int)
      modifies this
      ensures Snapshot() == old(Snapshot()).(mode := mode, answerMode := answerMode, studiableTerms := terms,
        allTerms := allTerms, numTerms := |terms|, currentRound := round)
    {
      this.mode, this.answerMode, studiableTerms, this.allTerms, numTerms, currentRound :=
        mode, answerMode, terms, allTerms, |terms|, round;
    }

    /**
     * Builds the next round (the first one when `start`): selects its terms,
     * stamps the unstudied ones with the round, and asks each once as a
     * multiple-choice question. Refused, with nothing changed, when a familiar
     * term lacks its round information.
     */
    method NextRound(start: bool) returns (r: Outcome<LearnError>)
      modifies this
      ensures r.Pass? <==> !LacksRoundInfo(old(studiableTerms))
      ensures r.Pass? ==> IsNextRound(old(Snapshot()), start, capacity, Snapshot())
      ensures r.Pass? && old(numTerms) == |old(studiableTerms)| ==> Valid()
      ensures r.Fail? ==> r.error == NoRoundInformation && Snapshot() == old(Snapshot())
    {
      var round := currentRound + (if start then 0 else 1);
      if LacksRoundInfo(studiableTerms) {
        return Fail(NoRoundInformation);
      }
      ghost var s0 := Snapshot();
      assert s0 == old(Snapshot());
      var ts0 := studiableTerms;
      var sel := Selection(ts0, round, capacity);
      SelectionBounds(ts0, round, capacity);
      StampSelected(sel, round);
      ghost var stamped := Stamped(ts0, sel, round);
      ghost var s1 := Snapshot();
      assert s1 == s0.(studiableTerms := stamped);
      var timeline := BuildTimeline(sel);
      var hasMissed := HasMissed(ts0);
      NextRoundIntro(s0, start, capacity, round, sel, stamped, timeline);
      StartRound(timeline, |sel|, hasMissed, round);
      if s0.numTerms == |s0.studiableTerms| {
        NextRoundFacts(s0, start, capacity, Snapshot());
      }
      r := Pass;
    }

    /** Installs a new round's timeline and resets the round's counters and answer state. */
    method StartRound(timeline: seq<Question>, size: nat, hasMissed: bool, round: int)
      modifies this
      ensures Snapshot() == old(Snapshot()).(roundTimeline := timeline, roundSummary := None,
        termsThisRound := size, roundCounter := 0, roundProgress := 0, answered := None, status := None,
        completed := size == 0, hasMissedTerms := Some(hasMissed), currentRound := round)
    {
      SetTimeline(timeline, size, round);
      ClearAnswers(size == 0, hasMissed);
    }

    /** The new round's questions, its size and its number; the cursor and progress start at 0. */
    method SetTimeline(timeline: seq<Question>, size: nat, round: int)
      modifies this
      ensures Snapshot() == old(Snapshot()).(roundTimeline := timeline, termsThisRound := size,
        roundCounter := 0, roundProgress := 0, currentRound := round)
    {
      roundTimeline, termsThisRound, roundCounter, roundProgress, currentRound := timeline, size, 0, 0, round;
    }

    /** No summary, answer or status is left from the previous round. */
    method ClearAnswers(completed: bool, hasMissed: bool)
      modifies this
      ensures Snapshot() == old(Snapshot()).(roundSummary := None, answered := None, status := None,
        completed := completed, hasMissedTerms := Some(hasMissed))
    {
      roundSummary, answered, status, this.completed, hasMissedTerms := None, None, None, completed, Some(hasMissed);
    }

    /** Stamps every selected unstudied term with `round`, in selection order. */
    method StampSelected(sel: seq<nat>, round: int)
      modifies this
      requires forall k :: 0 <= k < |sel| ==> sel[k] < |studiableTerms|
      ensures studiableTerms == Stamped(old(studiableTerms), sel, round)
      ensures Snapshot() == old(Snapshot()).(studiableTerms := studiableTerms)
    {
      ghost var ts0 := studiableTerms;
      StampedNone(ts0, round);
      var k := 0;
      while k < |sel|
        invariant 0 <= k <= |sel|
        invariant studiableTerms == Stamped(ts0, sel[..k], round)
        invariant Snapshot() == old(Snapshot()).(studiableTerms := studiableTerms)
      {
        StampedStep(ts0, sel, k, round);
        var i := sel[k];
        if studiableTerms[i].correctness == 0 {
          studiableTerms := studiableTerms[i := studiableTerms[i].(appearedInRound := Some(round))];
        }
        k := k + 1;
      }
      assert sel[..|sel|] == sel;
    }

    /** One multiple-choice question per selected term, its choices a prefix of a shuffle. */
    method BuildTimeline(sel: seq<nat>) returns (timeline: seq<Question>)
      requires forall k :: 0 <= k < |sel| ==> sel[k] < |studiableTerms|
      ensures QuestionsFor(timeline, sel, studiableTerms, answerMode, allTerms)
    {
      timeline := [];
      for j := 0 to |sel|
        invariant |timeline| == j
        invariant forall m :: 0 <= m < j ==>
          IsQuestionFor(timeline[m], sel[m], studiableTerms[sel[m]].term, answerMode, allTerms)
      {
        var q := BuildQuestion(sel[j], studiableTerms[sel[j]].term);
        timeline := timeline + [q];
      }
    }

    /** The question for term `i`: its answer mode resolved, its choices a prefix of a shuffle. */
    method BuildQuestion(i: nat, t: Term) returns (q: Question)
      ensures IsQuestionFor(q, i, t, answerMode, allTerms)
    {
      var questionMode: AnswerMode;
      if answerMode != Both {
        questionMode := answerMode;
      } else {
        questionMode :| questionMode == Definition || questionMode == Word;
      }
      var distractors := Distractors(t, questionMode, allTerms);
      var n := NumberOfChoices(distractors);
      var pool := [t] + distractors;
      assert IsPermutation(pool, pool);
      var shuffled: seq<Term> :| IsPermutation(shuffled, pool);
      ShufflePrefixIsChoiceList(shuffled, t, distractors);
      q := Question(questionMode, shuffled[..n], i, Choice);
    }

    /** The immediate part of a correct answer. */
    method AnswerCorrectly(termId: TermId)
      modifies this
      requires Valid()
      ensures Valid()
      ensures Snapshot() == LearnSession.AnswerCorrectly(old(Snapshot()), termId)
    {
      answered, status, prevTermWasIncorrect := Some(termId), Some(Correct), Some(false);
    }

    /** The deferred part of a correct answer: grades the active term and ends the question. */
    method FinishCorrectAnswer() returns (r: Outcome<LearnError>)
      modifies this
      requires Valid()
      ensures Valid()
      ensures r.Pass? <==> HasActive(old(Snapshot()))
      ensures r.Pass? ==> Snapshot() == LearnSession.FinishCorrectAnswer(old(Snapshot()))
      ensures r.Fail? ==> r.error == NoActiveQuestion && Snapshot() == old(Snapshot())
    {
      if !(0 <= roundCounter < |roundTimeline|) {
        return Fail(NoActiveQuestion);
      }
      var active := roundTimeline[roundCounter];
      studiableTerms := GradeCorrect(studiableTerms, active.term, active.kind);
      EndQuestion(true);
      r := Pass;
    }

    /** A wrong answer: re-queues the active question unless this is the round's last. */
    method AnswerIncorrectly(termId: TermId) returns (r: Outcome<LearnError>)
      modifies this
      requires Valid()
      ensures Valid()
      ensures r.Pass? <==> HasActive(old(Snapshot())) || OnLastQuestion(old(Snapshot()))
      ensures r.Pass? ==> Snapshot() == LearnSession.AnswerIncorrectly(old(Snapshot()), termId)
      ensures r.Fail? ==> r.error == NoActiveQuestion && Snapshot() == old(Snapshot())
    {
      if !(0 <= roundCounter < |roundTimeline|) && roundProgress != termsThisRound - 1 {
        return Fail(NoActiveQuestion);
      }
      var timeline := if roundProgress != termsThisRound - 1
        then roundTimeline + [roundTimeline[roundCounter]] else roundTimeline;
      answered, status, roundTimeline, prevTermWasIncorrect := Some(termId), Some(Incorrect), timeline, Some(true);
      r := Pass;
    }

    /** The learner accepts the miss. */
    method AcknowledgeIncorrect() returns (r: Outcome<LearnError>)
      modifies this
      requires Valid()
      ensures Valid()
      ensures r.Pass? <==> HasActive(old(Snapshot()))
      ensures r.Pass? ==> Snapshot() == LearnSession.AcknowledgeIncorrect(old(Snapshot()))
      ensures r.Fail? ==> r.error == NoActiveQuestion && Snapshot() == old(Snapshot())
    {
      if !(0 <= roundCounter < |roundTimeline|) {
        return Fail(NoActiveQuestion);
      }
      var active := roundTimeline[roundCounter];
      studiableTerms := GradeIncorrect(studiableTerms, active.term);
      EndQuestion(false);
      r := Pass;
    }

    method AnswerUnknownPartial()
      modifies this
      requires Valid()
      ensures Valid()
      ensures Snapshot() == LearnSession.AnswerUnknownPartial(old(Snapshot()))
    {
      status := Some(UnknownPartial);
    }

    /** The learner contests the miss: the term is mastered and the re-queued question withdrawn. */
    method OverrideCorrect() returns (r: Outcome<LearnError>)
      modifies this
      requires Valid()
      ensures Valid()
      ensures r.Pass? <==> HasActive(old(Snapshot()))
      ensures r.Pass? ==> Snapshot() == LearnSession.OverrideCorrect(old(Snapshot()))
      ensures r.Fail? ==> r.error == NoActiveQuestion && Snapshot() == old(Snapshot())
    {
      if !(0 <= roundCounter < |roundTimeline|) {
        return Fail(NoActiveQuestion);
      }
      ghost var s := Snapshot();
      var active := roundTimeline[roundCounter];
      var timeline := if roundProgress != termsThisRound - 1
        then roundTimeline[..|roundTimeline| - 1] else roundTimeline;
      studiableTerms, roundTimeline := GradeOverride(studiableTerms, active.term), timeline;
      ghost var s1 := Snapshot();
      assert s1 == s.(studiableTerms := GradeOverride(s.studiableTerms, ActiveTerm(s)), roundTimeline := timeline);
      EndQuestion(true);
      ghost var s2 := Snapshot();
      KeepTimeline(timeline);
      assert Snapshot() == s2.(roundTimeline := timeline, prevTermWasIncorrect := Some(false));
      r := Pass;
    }

    /** The state `overrideCorrect` returns after ending the question: its timeline, and no miss pending. */
    method KeepTimeline(timeline: seq<Question>)
      modifies this
      ensures Snapshot() == old(Snapshot()).(roundTimeline := timeline, prevTermWasIncorrect := Some(false))
    {
      roundTimeline, prevTermWasIncorrect := timeline, Some(false);
    }

    /**
     * The end of a question: completion when every term is mastered, the
     * round summary on the round's last question, else on to the next one.
     */
    method EndQuestion(correct: bool)
      modifies this
      requires Valid()
      ensures Valid()
      ensures Snapshot() == LearnSession.EndQuestion(old(Snapshot()), correct)
    {
      if MasteredCount(studiableTerms) == numTerms {
        Complete(HasMissed(studiableTerms));
      } else if roundProgress == termsThisRound - 1 {
        ShowSummary(Summary(Snapshot()));
      } else {
        Advance(correct);
      }
    }

    /** Every term is mastered: the session is complete. */
    method Complete(hasMissed: bool)
      modifies this
      ensures Snapshot() == old(Snapshot()).(completed := true, hasMissedTerms := Some(hasMissed))
    {
      completed, hasMissedTerms := true, Some(hasMissed);
    }

    /** The round is over: its summary is shown and the status cleared. */
    method ShowSummary(summary: RoundSummary)
      modifies this
      ensures Snapshot() == old(Snapshot()).(roundSummary := Some(summary), status := None)
    {
      roundSummary, status := Some(summary), None;
    }

    /** On to the next question; a correct answer counts towards the round's progress. */
    method Advance(correct: bool)
      modifies this
      ensures Snapshot() == old(Snapshot()).(roundCounter := old(roundCounter) + 1,
        roundProgress := old(roundProgress) + (if correct then 1 else 0), answered := None, status := None)
    {
      roundCounter, roundProgress, answered, status :=
        roundCounter + 1, roundProgress + (if correct then 1 else 0), None, None;
    }

    /** After "don't know", the learner marks themself right. */
    method CorrectFromUnknown(termId: TermId) returns (r: Outcome<LearnError>)
      modifies this
      requires Valid()
      ensures Valid()
      ensures r.Pass? <==> HasActive(old(Snapshot()))
      ensures r.Pass? ==> Snapshot() == LearnSession.CorrectFromUnknown(old(Snapshot()), termId)
      ensures r.Fail? ==>
        r.error == NoActiveQuestion &&
        Snapshot() == old(Snapshot()).(answered := Some(termId), prevTermWasIncorrect := Some(false))
    {
      answered, prevTermWasIncorrect := Some(termId), Some(false);
      if !(0 <= roundCounter < |roundTimeline|) {
        return Fail(NoActiveQuestion);
      }
      var active := roundTimeline[roundCounter];
      studiableTerms := GradeCorrect(studiableTerms, active.term, active.kind);
      EndQuestion(true);
      r := Pass;
    }

    /** After "don't know", the learner marks themself wrong. */
    method IncorrectFromUnknown(termId: TermId) returns (r: Outcome<LearnError>)
      modifies this
      requires Valid()
      ensures Valid()
      ensures r.Pass? <==> HasActive(old(Snapshot()))
      ensures r.Pass? ==> Snapshot() == LearnSession.IncorrectFromUnknown(old(Snapshot()), termId)
      ensures r.Fail? ==> r.error == NoActiveQuestion && Snapshot() == old(Snapshot())
    {
      if !(0 <= roundCounter < |roundTimeline|) {
        return Fail(NoActiveQuestion);
      }
      var timeline := if roundProgress != termsThisRound - 1
        then roundTimeline + [roundTimeline[roundCounter]] else roundTimeline;
      answered, roundTimeline, prevTermWasIncorrect := Some(termId), timeline, Some(true);
      var active := roundTimeline[roundCounter];
      studiableTerms := GradeIncorrect(studiableTerms, active.term);
      EndQuestion(false);
      r := Pass;
    }
  }
}
