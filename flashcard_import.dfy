/**
 * The bulk flashcard import endpoint: request checks, splitting the sets
 * into batches of 50, the password and size guards, the card-to-term
 * mapping, and sequential import that stops at the first failure.
 */
module FlashcardImport {
  import opened Common

  const BatchSize := 50

  datatype Flashcard = Flashcard(term: string, definition: string, image: Option<string>, sourceImage: Option<string>)

  datatype FlashcardSet = FlashcardSet(title: string, cards: seq<Flashcard>)

  /** A validated request body. */
  datatype Body = Body(flashcardSets: seq<FlashcardSet>, password: string)

  /** A term row to create; `assetUrl` None is the database null. */
  datatype NewTerm = NewTerm(word: string, definition: string, assetUrl: Option<string>, rank: nat)

  /** A study set row as written, with the term rows written for it. */
  datatype CreatedSet = CreatedSet(title: string, terms: seq<NewTerm>)

  /** What the database does with one set: both writes succeed, the set row fails, or the term rows fail after it. */
  datatype WriteOutcome = Written | SetRejected | TermsRejected

  /** A JSON `message` is a string, except on a validation error, where it is the boolean `error instanceof Error`. */
  datatype Message = Text(text: string) | Flag(flag: bool)

  datatype Response =
    | Json(status: nat, success: bool, message: Message)
    | NotAllowed(allow: seq<string>, text: string)   // 405 with an `Allow` header and a plain body

  datatype ImportResult = ImportResult(success: bool, message: string)

  /** Written as two literals so that the verifier can read its characters. */
  const TooManyMessage := "Cannot import more than 50 " + "flashcard sets at a time."

  function InvalidPasswordMessage(password: string): string
  {
    "Invalid import password: " + password
  }

  /** The message for a set whose writes failed; the thrown value is always an `Error`, hence `true`. */
  function FailedMessage(title: string): string
  {
    "Failed to import study set \"" + title + "\": true"
  }

  // ---------------------------------------------------------------------------
  // Cards to terms.

  /** `sourceImage || null`: an absent or empty source image is null. */
  function AssetUrl(card: Flashcard): (r: Option<string>)
    ensures r.None? <==> card.sourceImage.None? || card.sourceImage == Some("")
    ensures r.Some? ==> r == card.sourceImage
  {
    match card.sourceImage
    case None => None
    case Some(url) => if url == "" then None else Some(url)
  }

  /** The terms created for a set's cards; `definition || ""` leaves a string definition as it is. */
  function TermsToCreate(cards: seq<Flashcard>): (r: seq<NewTerm>)
    ensures |r| == |cards|
    ensures forall i :: 0 <= i < |r| ==>
      r[i].word == cards[i].term && r[i].definition == cards[i].definition &&
      r[i].assetUrl == AssetUrl(cards[i]) && r[i].rank == i
  {
    seq(|cards|, i requires 0 <= i < |cards| => NewTerm(cards[i].term, cards[i].definition, AssetUrl(cards[i]), i))
  }

  /** The `image` field plays no part in the created terms. */
  lemma {:induction false} ImageIgnored(cards: seq<Flashcard>, images: seq<Option<string>>)
    requires |images| == |cards|
    ensures TermsToCreate(seq(|cards|, i requires 0 <= i < |cards| => cards[i].(image := images[i]))) == TermsToCreate(cards)
  {
    var other := seq(|cards|, i requires 0 <= i < |cards| => cards[i].(image := images[i]));
    assert forall i :: 0 <= i < |cards| ==> AssetUrl(other[i]) == AssetUrl(cards[i]);
  }

  // ---------------------------------------------------------------------------
  // Batches.

  /** Splits the sets into consecutive slices of 50, the last one possibly shorter. */
  method Batches(sets: seq<FlashcardSet>) returns (batches: seq<seq<FlashcardSet>>)
    ensures Concat(batches) == sets
    ensures forall b :: 0 <= b < |batches| ==> 0 < |batches[b]| <= BatchSize
    ensures forall b :: 0 <= b < |batches| - 1 ==> |batches[b]| == BatchSize
    ensures sets == [] <==> batches == []
  {
    batches := [];
    var i := 0;
    while i < |sets|
      invariant 0 <= i <= |sets| + BatchSize - 1
      invariant i <= |sets| ==> Concat(batches) == sets[..i]
      invariant i > |sets| ==> Concat(batches) == sets
      invariant i == BatchSize * |batches|
      invariant forall b :: 0 <= b < |batches| ==> 0 < |batches[b]| <= BatchSize
      invariant forall b :: 0 <= b < |batches| - 1 ==> |batches[b]| == BatchSize
      invariant i <= |sets| ==> forall b :: 0 <= b < |batches| ==> |batches[b]| == BatchSize
      invariant i > |sets| ==> i >= BatchSize
      decreases |sets| - i
    {
      var slice := sets[i..Min(i + BatchSize, |sets|)];
      ConcatAppend(batches, slice);
      assert sets[..i] + slice == sets[..Min(i + BatchSize, |sets|)];
      batches := batches + [slice];
      i := i + BatchSize;
    }
    if i == |sets| {
      assert sets[..i] == sets;
    }
  }

  // ---------------------------------------------------------------------------
  // Importing sets, one after the other.

  /** The state of a run of imports: the sets written so far and, once one fails, its title. */
  datatype Run = Run(failed: Option<string>, created: seq<CreatedSet>)

  /** One more set: skipped once a set has failed, else written as `write` decides. */
  function ImportStep(run: Run, fs: FlashcardSet, write: FlashcardSet -> WriteOutcome): (r: Run)
    ensures run.failed.Some? ==> r == run
    ensures |run.created| <= |r.created| <= |run.created| + 1 && r.created[..|run.created|] == run.created
    ensures r.failed.Some? ==> r.failed == run.failed || r.failed == Some(fs.title)
    ensures run.failed.None? && r.failed.None? ==>
      r.created == run.created + [CreatedSet(fs.title, TermsToCreate(fs.cards))]
  {
    if run.failed.Some? then run
    else
      match write(fs)
      case Written => run.(created := run.created + [CreatedSet(fs.title, TermsToCreate(fs.cards))])
      case SetRejected => run.(failed := Some(fs.title))
      case TermsRejected => Run(Some(fs.title), run.created + [CreatedSet(fs.title, [])])
  }

  /** Importing `sets` in order, from a fresh run. */
  function RunAll(sets: seq<FlashcardSet>, write: FlashcardSet -> WriteOutcome): (r: Run)
    ensures |r.created| <= |sets|
  {
    if sets == [] then Run(None, [])
    else ImportStep(RunAll(sets[..|sets| - 1], write), sets[|sets| - 1], write)
  }

  /** Continuing a run with more sets. */
  function Continue(run: Run, sets: seq<FlashcardSet>, write: FlashcardSet -> WriteOutcome): Run
  {
    if sets == [] then run
    else ImportStep(Continue(run, sets[..|sets| - 1], write), sets[|sets| - 1], write)
  }

  lemma {:induction false} ContinueFailed(run: Run, sets: seq<FlashcardSet>, write: FlashcardSet -> WriteOutcome)
    requires run.failed.Some?
    ensures Continue(run, sets, write) == run
  {
    if sets != [] {
      ContinueFailed(run, sets[..|sets| - 1], write);
    }
  }

  /** A clean run continued with `b` adds exactly what `b` alone would add. */
  lemma {:induction false} ContinueClean(run: Run, b: seq<FlashcardSet>, write: FlashcardSet -> WriteOutcome)
    requires run.failed.None?
    ensures Continue(run, b, write) == Run(RunAll(b, write).failed, run.created + RunAll(b, write).created)
  {
    if b != [] {
      var init, x := b[..|b| - 1], b[|b| - 1];
      var prev := RunAll(init, write);
      ContinueClean(run, init, write);
      var cont := Run(prev.failed, run.created + prev.created);
      assert Continue(run, b, write) == ImportStep(cont, x, write);
      assert RunAll(b, write) == ImportStep(prev, x, write);
      if prev.failed.None? {
        var added := match write(x)
          case Written => [CreatedSet(x.title, TermsToCreate(x.cards))]
          case SetRejected => []
          case TermsRejected => [CreatedSet(x.title, [])];
        assert ImportStep(prev, x, write).created == prev.created + added;
        assert ImportStep(cont, x, write).created == run.created + prev.created + added;
        assert run.created + prev.created + added == run.created + (prev.created + added);
      }
    }
  }

  lemma {:induction false} RunAllIsContinue(sets: seq<FlashcardSet>, write: FlashcardSet -> WriteOutcome)
    ensures RunAll(sets, write) == Continue(Run(None, []), sets, write)
  {
    if sets != [] {
      RunAllIsContinue(sets[..|sets| - 1], write);
    }
  }

  lemma {:induction false} ContinueAppend(run: Run, a: seq<FlashcardSet>, b: seq<FlashcardSet>, write: FlashcardSet -> WriteOutcome)
    ensures Continue(run, a + b, write) == Continue(Continue(run, a, write), b, write)
    decreases |b|
  {
    if b == [] {
      assert a + b == a;
    } else {
      assert (a + b)[..|a + b| - 1] == a + b[..|b| - 1];
      ContinueAppend(run, a, b[..|b| - 1], write);
    }
  }

  /**
   * Importing `a` then `b` as two separate runs, stopping after the first if
   * it failed, is importing `a + b` as one run.
   */
  lemma {:induction false} RunAllAppend(a: seq<FlashcardSet>, b: seq<FlashcardSet>, write: FlashcardSet -> WriteOutcome)
    ensures RunAll(a, write).failed.Some? ==> RunAll(a + b, write) == RunAll(a, write)
    ensures RunAll(a, write).failed.None? ==>
      RunAll(a + b, write) == Run(RunAll(b, write).failed, RunAll(a, write).created + RunAll(b, write).created)
  {
    RunAllIsContinue(a + b, write);
    RunAllIsContinue(a, write);
    ContinueAppend(Run(None, []), a, b, write);
    if RunAll(a, write).failed.Some? {
      ContinueFailed(RunAll(a, write), b, write);
    } else {
      ContinueClean(RunAll(a, write), b, write);
    }
  }

  /** The run stops at the first failing set: everything before it is written, nothing after it. */
  lemma {:induction false} RunStopsAtFirstFailure(sets: seq<FlashcardSet>, k: nat, write: FlashcardSet -> WriteOutcome)
    requires k < |sets| && write(sets[k]) != Written
    requires forall j :: 0 <= j < k ==> write(sets[j]) == Written
    ensures RunAll(sets, write).failed == Some(sets[k].title)
    ensures RunAll(sets, write) == RunAll(sets[..k + 1], write)
  {
    AllWritten(sets[..k], write);
    assert sets[..k + 1] == sets[..k] + [sets[k]];
    assert sets[..k + 1][..k] == sets[..k];
    assert sets == sets[..k + 1] + sets[k + 1..];
    RunAllAppend(sets[..k + 1], sets[k + 1..], write);
  }

  /** When every set is written, the run succeeds and records each set's terms in order. */
  lemma {:induction false} AllWritten(sets: seq<FlashcardSet>, write: FlashcardSet -> WriteOutcome)
    requires forall j :: 0 <= j < |sets| ==> write(sets[j]) == Written
    ensures RunAll(sets, write).failed.None?
    ensures |RunAll(sets, write).created| == |sets|
    ensures forall j :: 0 <= j < |sets| ==>
      RunAll(sets, write).created[j] == CreatedSet(sets[j].title, TermsToCreate(sets[j].cards))
  {
    if sets != [] {
      AllWritten(sets[..|sets| - 1], write);
    }
  }

  /**
   * `importFlashcards`: the password is checked first, then the size, then
   * the sets are written in order until one fails.
   */
  method ImportFlashcards(sets: seq<FlashcardSet>, password: string, expected: Option<string>,
                          write: FlashcardSet -> WriteOutcome)
    returns (r: Result<(), string>, created: seq<CreatedSet>)
    ensures expected != Some(password) ==> r == Err(InvalidPasswordMessage(password)) && created == []
    ensures expected == Some(password) && |sets| > BatchSize ==> r == Err(TooManyMessage) && created == []
    ensures expected == Some(password) && |sets| <= BatchSize ==>
      created == RunAll(sets, write).created &&
      r == (if RunAll(sets, write).failed.Some? then Err(FailedMessage(RunAll(sets, write).failed.value)) else Ok(()))
  {
    created := [];
    if expected != Some(password) {
      return Err(InvalidPasswordMessage(password)), created;
    }
    if |sets| > BatchSize {
      return Err(TooManyMessage), created;
    }
    for i := 0 to |sets|
      invariant RunAll(sets[..i], write) == Run(None, created)
    {
      assert sets[..i + 1][..i] == sets[..i];
      match write(sets[i]) {
        case Written =>
          created := created + [CreatedSet(sets[i].title, TermsToCreate(sets[i].cards))];
        case SetRejected =>
          FailureIsFinal(sets, i + 1, write);
          return Err(FailedMessage(sets[i].title)), created;
        case TermsRejected =>
          created := created + [CreatedSet(sets[i].title, [])];
          FailureIsFinal(sets, i + 1, write);
          return Err(FailedMessage(sets[i].title)), created;
      }
    }
    assert sets[..|sets|] == sets;
    r := Ok(());
  }

  /** A prefix that failed decides the whole run. */
  lemma {:induction false} FailureIsFinal(sets: seq<FlashcardSet>, n: nat, write: FlashcardSet -> WriteOutcome)
    requires n <= |sets| && RunAll(sets[..n], write).failed.Some?
    ensures RunAll(sets, write) == RunAll(sets[..n], write)
  {
    assert sets == sets[..n] + sets[n..];
    RunAllAppend(sets[..n], sets[n..], write);
  }

  /** `handleImport`: a thrown error becomes `success: false` with its message. */
  method HandleImport(sets: seq<FlashcardSet>, password: string, expected: Option<string>,
                      write: FlashcardSet -> WriteOutcome)
    returns (r: ImportResult, created: seq<CreatedSet>)
    ensures r == ImportResult(ImportOutcome(sets, password, expected, write).Ok?,
                              if ImportOutcome(sets, password, expected, write).Ok? then "Import successful."
                              else ImportOutcome(sets, password, expected, write).error)
    ensures created == (if expected == Some(password) && |sets| <= BatchSize then RunAll(sets, write).created else [])
  {
    var outcome;
    outcome, created := ImportFlashcards(sets, password, expected, write);
    if outcome.Ok? {
      r := ImportResult(true, "Import successful.");
    } else {
      r := ImportResult(false, outcome.error);
    }
  }

  /** What `importFlashcards` returns or throws, as a value. */
  function ImportOutcome(sets: seq<FlashcardSet>, password: string, expected: Option<string>,
                         write: FlashcardSet -> WriteOutcome): Result<(), string>
  {
    if expected != Some(password) then Err(InvalidPasswordMessage(password))
    else if |sets| > BatchSize then Err(TooManyMessage)
    else if RunAll(sets, write).failed.Some? then Err(FailedMessage(RunAll(sets, write).failed.value))
    else Ok(())
  }

  /**
   * The response of the endpoint, as a value: refusals of the request, then
   * the whole list imported in order with the password applied to each batch.
   */
  function ExpectedResponse(httpMethod: string, body: Option<Body>, expected: Option<string>,
                            write: FlashcardSet -> WriteOutcome): (r: Response)
    ensures r.NotAllowed? <==> httpMethod != "POST"
    ensures r.Json? ==> (r.success <==> r.status == 200)
    ensures r.Json? && r.status == 200 <==>
      httpMethod == "POST" && body.Some? &&
      (body.value.flashcardSets == [] ||
       (expected == Some(body.value.password) && RunAll(body.value.flashcardSets, write).failed.None?))
  {
    if httpMethod != "POST" then NotAllowed(["POST"], "Method " + httpMethod + " Not Allowed")
    else if body.None? then Json(400, false, Flag(true))
    else if body.value.flashcardSets == [] then Json(200, true, Text("All imports successful."))
    else if expected != Some(body.value.password) then
      Json(500, false, Text(InvalidPasswordMessage(body.value.password)))
    else if RunAll(body.value.flashcardSets, write).failed.Some? then
      Json(500, false, Text(FailedMessage(RunAll(body.value.flashcardSets, write).failed.value)))
    else Json(200, true, Text("All imports successful."))
  }

  /**
   * The endpoint: only POST is served, the body must validate, and the
   * batches are imported in order until one fails. `body` is None when
   * validation rejects the request body.
   */
  method Handler(httpMethod: string, body: Option<Body>, expected: Option<string>, write: FlashcardSet -> WriteOutcome)
    returns (response: Response, created: seq<CreatedSet>)
    ensures response == ExpectedResponse(httpMethod, body, expected, write)
    ensures created ==
      (if httpMethod == "POST" && body.Some? && expected == Some(body.value.password)
       then RunAll(body.value.flashcardSets, write).created else [])
  {
    created := [];
    if httpMethod != "POST" {
      return NotAllowed(["POST"], "Method " + httpMethod + " Not Allowed"), created;
    }
    if body.None? {
      return Json(400, false, Flag(true)), created;
    }
    var sets := body.value.flashcardSets;
    var password := body.value.password;
    var batches := Batches(sets);
    var failure;
    failure, created := ImportBatches(batches, password, expected, write);
    if failure.Some? {
      return Json(500, false, Text(failure.value)), created;
    }
    response := Json(200, true, Text("All imports successful."));
  }

  /**
   * The batches imported in order, each with the password; the message of the
   * first failing batch, if any. No batch after a failing one runs.
   */
  method ImportBatches(batches: seq<seq<FlashcardSet>>, password: string, expected: Option<string>,
                       write: FlashcardSet -> WriteOutcome)
    returns (failure: Option<string>, created: seq<CreatedSet>)
    requires forall b :: 0 <= b < |batches| ==> 0 < |batches[b]| <= BatchSize
    ensures batches == [] ==> failure == None && created == []
    ensures batches != [] && expected != Some(password) ==>
      failure == Some(InvalidPasswordMessage(password)) && created == []
    ensures expected == Some(password) ==>
      && created == RunAll(Concat(batches), write).created
      && failure == (if RunAll(Concat(batches), write).failed.Some?
                     then Some(FailedMessage(RunAll(Concat(batches), write).failed.value)) else None)
  {
    created := [];
    for b := 0 to |batches|
      invariant RunAll(Concat(batches[..b]), write) == Run(None, created)
      invariant b > 0 ==> expected == Some(password)
    {
      var result, written := HandleImport(batches[b], password, expected, write);
      BatchStep(batches, b, created, write);
      created := created + written;
      if !result.success {
        return Some(result.message), created;
      }
    }
    assert batches[..|batches|] == batches;
    failure := None;
  }

  /** One more batch continues the run; a failing one decides it. */
  lemma {:induction false} BatchStep(batches: seq<seq<FlashcardSet>>, b: nat, created: seq<CreatedSet>,
                                     write: FlashcardSet -> WriteOutcome)
    requires b < |batches| && RunAll(Concat(batches[..b]), write) == Run(None, created)
    ensures RunAll(Concat(batches[..b + 1]), write) ==
      Run(RunAll(batches[b], write).failed, created + RunAll(batches[b], write).created)
    ensures RunAll(batches[b], write).failed.Some? ==>
      RunAll(Concat(batches), write) == RunAll(Concat(batches[..b + 1]), write)
  {
    assert batches[..b + 1] == batches[..b] + [batches[b]];
    ConcatAppend(batches[..b], batches[b]);
    RunAllAppend(Concat(batches[..b]), batches[b], write);
    if RunAll(batches[b], write).failed.Some? {
      BatchFailureIsFinal(batches, b + 1, write);
    }
  }

  /** A failing batch decides the whole run. */
  lemma {:induction false} BatchFailureIsFinal(batches: seq<seq<FlashcardSet>>, n: nat, write: FlashcardSet -> WriteOutcome)
    requires n <= |batches| && RunAll(Concat(batches[..n]), write).failed.Some?
    ensures RunAll(Concat(batches), write) == RunAll(Concat(batches[..n]), write)
  {
    SplitConcat(batches, n);
    RunAllAppend(Concat(batches[..n]), Concat(batches[n..]), write);
  }

  lemma {:induction false} SplitConcat<T>(ss: seq<seq<T>>, n: nat)
    requires n <= |ss|
    ensures Concat(ss) == Concat(ss[..n]) + Concat(ss[n..])
    decreases |ss|
  {
    if n == |ss| {
      assert ss[..n] == ss;
      assert ss[n..] == [];
    } else {
      var init := ss[..|ss| - 1];
      assert init[..n] == ss[..n];
      assert ss[n..] == init[n..] + [ss[|ss| - 1]];
      SplitConcat(init, n);
      ConcatAppend(init[n..], ss[|ss| - 1]);
      assert ss == init + [ss[|ss| - 1]];
      ConcatAppend(init, ss[|ss| - 1]);
    }
  }

  // ---------------------------------------------------------------------------
  // Properties of the endpoint.

  lemma {:induction false} FirstCharDiffers(a: string, b: string)
    requires a != [] && b != [] && a[0] != b[0]
    ensures a != b
  {
  }

  /** The size guard never fires through the endpoint, since no batch exceeds 50 sets. */
  lemma {:induction false} TooManyNeverReported(httpMethod: string, body: Option<Body>, expected: Option<string>,
                                                write: FlashcardSet -> WriteOutcome)
    ensures ExpectedResponse(httpMethod, body, expected, write) != Json(500, false, Text(TooManyMessage))
  {
    var tooMany := TooManyMessage;
    assert tooMany[0] == 'C';
    if httpMethod == "POST" && body.Some? && body.value.flashcardSets != [] {
      var sets := body.value.flashcardSets;
      var password := body.value.password;
      if expected != Some(password) {
        var t := InvalidPasswordMessage(password);
        assert t[0] == 'I';
        FirstCharDiffers(t, tooMany);
      } else if RunAll(sets, write).failed.Some? {
        var t := FailedMessage(RunAll(sets, write).failed.value);
        assert t[0] == 'F';
        FirstCharDiffers(t, tooMany);
      }
    }
  }

  /** An empty list succeeds whatever password is sent, because no batch is ever checked. */
  lemma EmptyImportIgnoresPassword(password: string, expected: Option<string>, write: FlashcardSet -> WriteOutcome)
    ensures ExpectedResponse("POST", Some(Body([], password)), expected, write) ==
      Json(200, true, Text("All imports successful."))
  {
  }

  /** A wrong password with at least one set is refused before anything is written. */
  lemma WrongPasswordRefused(sets: seq<FlashcardSet>, password: string, expected: Option<string>,
                             write: FlashcardSet -> WriteOutcome)
    requires sets != [] && expected != Some(password)
    ensures ExpectedResponse("POST", Some(Body(sets, password)), expected, write) ==
      Json(500, false, Text(InvalidPasswordMessage(password)))
  {
  }
}
