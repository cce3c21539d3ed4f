/**
 * Importing a study set from a Quizlet URL: the set id from the URL path,
 * the paged download of its items, and parsing the items into terms.
 */
module QuizletImport {
  import opened Common

  const PerPage := 100

  datatype Media = Media(plainText: string)

  /** One side of a card; `sideLabel` is the source's `label` ("word" or "definition"). */
  datatype CardSide = CardSide(sideLabel: string, media: seq<Media>)

  /** One downloaded item; `cardSides` is absent for items that are not cards. */
  datatype StudiableItem = StudiableItem(rank: int, cardSides: Option<seq<CardSide>>)

  /** The first entry of a response: its items and the token for the next page. */
  datatype Page = Page(items: seq<StudiableItem>, token: string)

  /** A decoded response; missing `responses` is the empty list, `errorCode` the optional error. */
  datatype ApiResponse = ApiResponse(responses: seq<Page>, errorCode: Option<int>)

  /** A download request: the set id, the page number and the paging token it carried. */
  datatype Request = Request(setId: string, page: nat, token: Option<string>)

  datatype ParsedTerm = ParsedTerm(word: string, definition: string)

  /** A term as saved to the auto-save draft. */
  datatype SavedTerm = SavedTerm(word: string, definition: string, rank: nat)

  datatype ImportError =
    | MalformedUrl
    | BadRequest(message: string)
    | MissingCardSides   // an item without card sides reaches the parse loop

  const SomethingWentWrong := "Something went wrong while importing."
  const NotAccessible := "This set either doesn't exist or is private. Check the URL and your permissions and try again."

  // ---------------------------------------------------------------------------
  // The set id from the URL path.

  /** The pieces of `s` between separators, as JavaScript's `split` returns them. */
  function Split(s: string, sep: char): (r: seq<string>)
    ensures |r| >= 1
    ensures forall k :: 0 <= k < |r| ==> sep !in r[k]
    ensures Join(r, sep) == s
  {
    if s == [] then [""]
    else
      var rest := Split(s[1..], sep);
      assert s == [s[0]] + s[1..];
      if s[0] == sep then [""] + rest
      else
        assert Join([[s[0]] + rest[0]] + rest[1..], sep) == [s[0]] + Join(rest, sep) by {
          JoinHead(rest, sep, s[0]);
        }
        [[s[0]] + rest[0]] + rest[1..]
  }

  /** The pieces put back together with the separator between them. */
  function Join(parts: seq<string>, sep: char): string
  {
    if |parts| == 0 then ""
    else if |parts| == 1 then parts[0]
    else parts[0] + [sep] + Join(parts[1..], sep)
  }

  lemma {:induction false} JoinHead(parts: seq<string>, sep: char, c: char)
    requires |parts| >= 1
    ensures Join([[c] + parts[0]] + parts[1..], sep) == [c] + Join(parts, sep)
  {
    var moved := [[c] + parts[0]] + parts[1..];
    assert moved[1..] == parts[1..];
  }

  /** The set id is the first path segment; an empty one is refused. */
  function SetIdFromPath(pathname: string): (r: Result<string, ImportError>)
    ensures r.Ok? ==> r.value != [] && '/' !in r.value
    ensures r.Err? ==> r.error == MalformedUrl
  {
    var parts := Split(pathname, '/');
    if |parts| < 2 || parts[1] == "" then Err(MalformedUrl) else Ok(parts[1])
  }

  lemma {:induction false} SplitSeparatorFirst(rest: string, sep: char)
    ensures Split([sep] + rest, sep) == [""] + Split(rest, sep)
  {
    assert ([sep] + rest)[1..] == rest;
  }

  lemma {:induction false} SplitNoSeparator(piece: string, rest: string, sep: char)
    requires sep !in piece
    ensures Split(piece + [sep] + rest, sep) == [piece] + Split(rest, sep)
  {
    if piece == [] {
      SplitSeparatorFirst(rest, sep);
      assert piece + [sep] + rest == [sep] + rest;
    } else {
      var s := piece + [sep] + rest;
      assert s[1..] == piece[1..] + [sep] + rest;
      SplitNoSeparator(piece[1..], rest, sep);
      var rec := Split(s[1..], sep);
      assert s[0] == piece[0] && s[0] != sep;
      assert [s[0]] + rec[0] == piece;
      assert rec[1..] == Split(rest, sep);
    }
  }

  lemma {:induction false} SplitWithout(piece: string, sep: char)
    requires sep !in piece
    ensures Split(piece, sep) == [piece]
  {
    if piece != [] {
      SplitWithout(piece[1..], sep);
    }
  }

  /** A path `/<id>` or `/<id>/<anything>` yields the id back. */
  lemma {:induction false} SetIdRoundTrip(id: string, rest: string)
    requires id != [] && '/' !in id
    requires rest == [] || rest[0] == '/'
    ensures SetIdFromPath("/" + id + rest) == Ok(id)
  {
    var path := "/" + id + rest;
    assert path == [('/')] + (id + rest);
    SplitSeparatorFirst(id + rest, '/');
    if rest == [] {
      assert id + rest == id;
      SplitWithout(id, '/');
    } else {
      assert id + rest == id + ['/'] + rest[1..];
      SplitNoSeparator(id, rest[1..], '/');
    }
  }

  /** The root path and a path starting with two slashes are refused. */
  lemma {:induction false} EmptyFirstSegmentRefused(rest: string)
    ensures SetIdFromPath("/") == Err(MalformedUrl)
    ensures SetIdFromPath("//" + rest) == Err(MalformedUrl)
  {
    SplitSeparatorFirst("", '/');
    assert "/" == ['/'] + "";
    assert "//" + rest == ['/'] + (['/'] + rest);
    SplitSeparatorFirst(['/'] + rest, '/');
    SplitSeparatorFirst(rest, '/');
  }

  // ---------------------------------------------------------------------------
  // Paged download.

  /** A page-2-or-later response ends the download, by an error 410 or by carrying no page. */
  predicate EndsDownload(res: ApiResponse)
  {
    res.errorCode == Some(410) || res.responses == []
  }

  /**
   * The items and requests that follow a page of `currentLength` items, when
   * the server answers the successive requests with `later`.
   */
  function MorePages(setId: string, currentLength: nat, token: string, page: nat, later: seq<ApiResponse>)
    : (r: (seq<StudiableItem>, seq<Request>))
    ensures |r.1| <= |later|
    ensures |r.1| > 0 ==> currentLength >= PerPage && r.1[0] == Request(setId, page, Some(token))
    decreases |later|
  {
    if currentLength < PerPage || later == [] then ([], [])
    else
      var request := Request(setId, page, Some(token));
      if EndsDownload(later[0]) then ([], [request])
      else
        var p := later[0].responses[0];
        var rest := MorePages(setId, |p.items|, p.token, page + 1, later[1..]);
        (p.items + rest.0, [request] + rest.1)
  }

  /** Request `k` asks for page `page + k`. */
  lemma {:induction false} PagesCount(setId: string, currentLength: nat, token: string, page: nat,
                                      later: seq<ApiResponse>, k: nat)
    requires k < |MorePages(setId, currentLength, token, page, later).1|
    ensures MorePages(setId, currentLength, token, page, later).1[k].page == page + k
    decreases |later|
  {
    if k > 0 {
      var p := later[0].responses[0];
      PagesCount(setId, |p.items|, p.token, page + 1, later[1..], k - 1);
    }
  }

  /**
   * A request after the first is made only after a full page, and carries
   * that page's token.
   */
  lemma {:induction false} NextRequestFollowsFullPage(setId: string, currentLength: nat, token: string, page: nat,
                                                      later: seq<ApiResponse>, k: nat)
    requires 0 < k < |MorePages(setId, currentLength, token, page, later).1|
    ensures !EndsDownload(later[k - 1])
    ensures |later[k - 1].responses[0].items| >= PerPage
    ensures MorePages(setId, currentLength, token, page, later).1[k].token == Some(later[k - 1].responses[0].token)
    decreases |later|
  {
    var p := later[0].responses[0];
    if k > 1 {
      NextRequestFollowsFullPage(setId, |p.items|, p.token, page + 1, later[1..], k - 1);
    }
  }

  /**
   * Downloads all items: page 1 is `first`, and each later request is
   * answered by the next element of `later`. Returns the request log too.
   */
  method FetchAll(setId: string, first: ApiResponse, later: seq<ApiResponse>)
    returns (r: Result<seq<StudiableItem>, ImportError>, requests: seq<Request>)
    ensures first.responses == [] ==>
      r == Err(BadRequest(SomethingWentWrong)) && requests == [Request(setId, 1, None)]
    ensures first.responses != [] ==>
      var p := first.responses[0];
      var more := MorePages(setId, |p.items|, p.token, 2, later);
      r == Ok(p.items + more.0) && requests == [Request(setId, 1, None)] + more.1
  {
    requests := [Request(setId, 1, None)];
    if first.responses == [] {
      return Err(BadRequest(SomethingWentWrong)), requests;
    }
    var terms := first.responses[0].items;
    var currentLength: nat := |first.responses[0].items|;
    var token := first.responses[0].token;
    var page := 2;
    var i := 0;
    ghost var total := MorePages(setId, currentLength, token, page, later);
    while currentLength >= PerPage && i < |later|
      invariant 0 <= i <= |later|
      invariant var rest := MorePages(setId, currentLength, token, page, later[i..]);
        first.responses[0].items + total.0 == terms + rest.0 &&
        [Request(setId, 1, None)] + total.1 == requests + rest.1
      decreases |later| - i
    {
      var res := later[i];
      assert later[i..][0] == res && later[i..][1..] == later[i + 1..];
      var request := Request(setId, page, Some(token));
      requests := requests + [request];
      page := page + 1;
      if res.errorCode.Some? && res.errorCode.value == 410 {
        assert MorePages(setId, currentLength, token, page - 1, later[i..]) == ([], [request]);
        assert first.responses[0].items + total.0 == terms;
        break;
      }
      if res.responses == [] {
        assert MorePages(setId, currentLength, token, page - 1, later[i..]) == ([], [request]);
        assert first.responses[0].items + total.0 == terms;
        break;
      }
      terms := terms + res.responses[0].items;
      currentLength := |res.responses[0].items|;
      token := res.responses[0].token;
      i := i + 1;
    }
    if i == |later| {
      assert later[i..] == [];
    }
    assert first.responses[0].items + total.0 == terms;
    r := Ok(terms);
  }

  // ---------------------------------------------------------------------------
  // Parsing items into terms.

  /** The position of the first side carrying `sideLabel`, or `|sides|` when none does. */
  function FirstIndex(sides: seq<CardSide>, sideLabel: string): (k: nat)
    ensures k <= |sides|
    ensures forall j :: 0 <= j < k ==> sides[j].sideLabel != sideLabel
    ensures k < |sides| ==> sides[k].sideLabel == sideLabel
  {
    if sides == [] then 0
    else if sides[0].sideLabel == sideLabel then 0
    else 1 + FirstIndex(sides[1..], sideLabel)
  }

  /** JavaScript's `find`: the first side carrying `sideLabel`. */
  function FindSide(sides: seq<CardSide>, sideLabel: string): Option<CardSide>
  {
    var k := FirstIndex(sides, sideLabel);
    if k < |sides| then Some(sides[k]) else None
  }

  /** What one item contributes: a term, a skipped rank, or a type error. */
  datatype ItemOutcome = Term(term: ParsedTerm) | Skip(rank: int) | Broken

  function ParseItem(item: StudiableItem): (r: ItemOutcome)
    ensures r.Broken? <==> item.cardSides.None?
    ensures r.Skip? ==> r.rank == item.rank
    ensures r.Term? ==> && FindSide(item.cardSides.value, "word").Some?
                        && FindSide(item.cardSides.value, "definition").Some?
                        && FindSide(item.cardSides.value, "word").value.media != []
                        && FindSide(item.cardSides.value, "definition").value.media != []
                        && r.term.word == FindSide(item.cardSides.value, "word").value.media[0].plainText
                        && r.term.definition == FindSide(item.cardSides.value, "definition").value.media[0].plainText
  {
    if item.cardSides.None? then Broken
    else
      var word := FindSide(item.cardSides.value, "word");
      var definition := FindSide(item.cardSides.value, "definition");
      if word.None? || word.value.media == [] || definition.None? || definition.value.media == [] then Skip(item.rank)
      else Term(ParsedTerm(word.value.media[0].plainText, definition.value.media[0].plainText))
  }

  datatype Parsed = Parsed(terms: seq<ParsedTerm>, skippedRanks: seq<int>)

  /** The parse loop over `items` in order, failing at the first item without card sides. */
  function ParseItems(items: seq<StudiableItem>): (r: Result<Parsed, ImportError>)
    ensures r.Err? <==> exists k :: 0 <= k < |items| && items[k].cardSides.None?
    ensures r.Err? ==> r.error == MissingCardSides
    ensures r.Ok? ==> |r.value.terms| + |r.value.skippedRanks| == |items|
  {
    if items == [] then Ok(Parsed([], []))
    else
      var init := ParseItems(items[..|items| - 1]);
      var last := items[|items| - 1];
      assert forall k :: 0 <= k < |items| - 1 ==> items[..|items| - 1][k] == items[k];
      if init.Err? then init
      else
        match ParseItem(last)
        case Broken => Err(MissingCardSides)
        case Skip(rank) => Ok(init.value.(skippedRanks := init.value.skippedRanks + [rank]))
        case Term(t) => Ok(init.value.(terms := init.value.terms + [t]))
  }

  /** The parse loop, with `continue` on a skipped item. */
  method ParseAll(items: seq<StudiableItem>) returns (r: Result<Parsed, ImportError>)
    ensures r == ParseItems(items)
  {
    var parsed: seq<ParsedTerm> := [];
    var skippedRanks: seq<int> := [];
    for i := 0 to |items|
      invariant ParseItems(items[..i]) == Ok(Parsed(parsed, skippedRanks))
    {
      assert items[..i + 1][..i] == items[..i];
      var item := items[i];
      if item.cardSides.None? {
        ParseErrorPersists(items, i + 1);
        return Err(MissingCardSides);
      }
      var word := FindSide(item.cardSides.value, "word");
      var definition := FindSide(item.cardSides.value, "definition");
      if word.None? || word.value.media == [] || definition.None? || definition.value.media == [] {
        skippedRanks := skippedRanks + [item.rank];
        continue;
      }
      parsed := parsed + [ParsedTerm(word.value.media[0].plainText, definition.value.media[0].plainText)];
    }
    assert items[..|items|] == items;
    r := Ok(Parsed(parsed, skippedRanks));
  }

  /** Once a prefix fails, the whole list fails the same way. */
  lemma {:induction false} ParseErrorPersists(items: seq<StudiableItem>, n: nat)
    requires n <= |items| && ParseItems(items[..n]).Err?
    ensures ParseItems(items) == Err(MissingCardSides)
  {
    assert exists k :: 0 <= k < n && items[..n][k].cardSides.None?;
    var k :| 0 <= k < n && items[..n][k].cardSides.None?;
    assert items[k].cardSides.None?;
  }

  /** A parsed term is taken from the first media of the first word side and of the first definition side. */
  lemma {:induction false} ParsedTermsInOrder(items: seq<StudiableItem>)
    requires ParseItems(items).Ok?
    ensures var p := ParseItems(items).value;
      |p.terms| == |TermsOf(items)| && (forall k :: 0 <= k < |p.terms| ==> p.terms[k] == TermsOf(items)[k])
    ensures var p := ParseItems(items).value;
      p.skippedRanks == SkippedOf(items)
  {
    if items != [] {
      ParsedTermsInOrder(items[..|items| - 1]);
    }
  }

  /** Every item is accounted for: its term is among the parsed terms, or its rank among the skipped ones. */
  lemma {:induction false} EveryItemAccounted(items: seq<StudiableItem>)
    requires ParseItems(items).Ok?
    ensures forall k :: 0 <= k < |items| && ParseItem(items[k]).Term? ==>
      ParseItem(items[k]).term in ParseItems(items).value.terms
    ensures forall k :: 0 <= k < |items| && ParseItem(items[k]).Skip? ==>
      items[k].rank in ParseItems(items).value.skippedRanks
  {
    if items != [] {
      var init := items[..|items| - 1];
      EveryItemAccounted(init);
      assert forall k :: 0 <= k < |init| ==> init[k] == items[k];
    }
  }

  /** The terms the items yield, in item order. */
  function TermsOf(items: seq<StudiableItem>): seq<ParsedTerm>
  {
    if items == [] then []
    else
      var rest := TermsOf(items[..|items| - 1]);
      match ParseItem(items[|items| - 1])
      case Term(t) => rest + [t]
      case _ => rest
  }

  /** The ranks of the items that are skipped, in item order. */
  function SkippedOf(items: seq<StudiableItem>): seq<int>
  {
    if items == [] then []
    else
      var rest := SkippedOf(items[..|items| - 1]);
      match ParseItem(items[|items| - 1])
      case Skip(rank) => rest + [rank]
      case _ => rest
  }

  /** An item is skipped exactly when a word side or a definition side, or its first media, is missing. */
  lemma ItemSkipRule(item: StudiableItem)
    requires item.cardSides.Some?
    ensures ParseItem(item).Skip? <==>
      (forall k :: 0 <= k < |item.cardSides.value| ==> item.cardSides.value[k].sideLabel != "word") ||
      (forall k :: 0 <= k < |item.cardSides.value| ==> item.cardSides.value[k].sideLabel != "definition") ||
      FindSide(item.cardSides.value, "word").value.media == [] ||
      FindSide(item.cardSides.value, "definition").value.media == []
    ensures ParseItem(item).Skip? ==> ParseItem(item).rank == item.rank
  {
  }

  // ---------------------------------------------------------------------------
  // The whole import.

  /** Saved terms are numbered by their position among the parsed terms. */
  function Ranked(parsed: seq<ParsedTerm>): (r: seq<SavedTerm>)
    ensures |r| == |parsed|
    ensures forall i :: 0 <= i < |r| ==>
      r[i].rank == i && r[i].word == parsed[i].word && r[i].definition == parsed[i].definition
  {
    seq(|parsed|, i requires 0 <= i < |parsed| => SavedTerm(parsed[i].word, parsed[i].definition, i))
  }

  /** Some item has card sides. */
  predicate AnyCardSides(items: seq<StudiableItem>)
  {
    exists k :: 0 <= k < |items| && items[k].cardSides.Some?
  }

  /**
   * The `fromUrl` mutation for the URL path `pathname`: the set id, the
   * download, the presence check, the parse, and the terms written to the
   * auto-save draft.
   */
  method ImportFromUrl(pathname: string, first: ApiResponse, later: seq<ApiResponse>)
    returns (r: Result<seq<SavedTerm>, ImportError>, requests: seq<Request>)
    ensures SetIdFromPath(pathname).Err? ==> r == Err(MalformedUrl) && requests == []
    ensures SetIdFromPath(pathname).Ok? && first.responses == [] ==>
      r == Err(BadRequest(SomethingWentWrong)) && requests == [Request(SetIdFromPath(pathname).value, 1, None)]
    ensures SetIdFromPath(pathname).Ok? && first.responses != [] ==>
      var p := first.responses[0];
      var more := MorePages(SetIdFromPath(pathname).value, |p.items|, p.token, 2, later);
      var items := p.items + more.0;
      && requests == [Request(SetIdFromPath(pathname).value, 1, None)] + more.1
      && (!AnyCardSides(items) ==> r == Err(BadRequest(NotAccessible)))
      && (AnyCardSides(items) && ParseItems(items).Err? ==> r == Err(MissingCardSides))
      && (AnyCardSides(items) && ParseItems(items).Ok? ==> r == Ok(Ranked(ParseItems(items).value.terms)))
  {
    var id := SetIdFromPath(pathname);
    if id.Err? {
      return Err(MalformedUrl), [];
    }
    var fetched;
    fetched, requests := FetchAll(id.value, first, later);
    if fetched.Err? {
      return Err(fetched.error), requests;
    }
    var items := fetched.value;
    if !AnyCardSides(items) {
      return Err(BadRequest(NotAccessible)), requests;
    }
    var parsed := ParseAll(items);
    if parsed.Err? {
      return Err(parsed.error), requests;
    }
    r := Ok(Ranked(parsed.value.terms));
  }
}
