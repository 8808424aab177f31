/** `searchFqeMember`: the form it posts to the member search and the
    search results it extracts from the HTML that comes back. The POST and
    the reading of its body are an abstract server. */
module Search {
  import opened Wrappers
  import opened Text
  import opened AnchorScan

  /** One field written with `mime/multipart`'s `WriteField`. */
  datatype FormField = FormField(name: string, value: string)

  datatype PlayerSearchResult = PlayerSearchResult(name: string, id: int)

  /** What the POST ends in: it fails, reading its body fails, or the body. */
  datatype PostOutcome = PostFailed | ReadFailed | Body(html: string)

  const MaxInt32: nat := 0x7fff_ffff

  const RequestFailedMessage := "Request failed"
  const ReadFailedMessage := "Error parsing response body"
  const InvalidIdMessage := "Invalid FQE ID"

  /** The position of a field name in the order the form writes fields. */
  function FieldRank(name: string): nat {
    if name == "FName" then 0 else if name == "Name" then 1 else 2
  }

  /** The fields of the search form: the first name, the last name and the
      member number, each only when it is non-empty or non-zero. */
  function FormFields(firstname: string, lastname: string, id: int): (r: seq<FormField>)
    ensures forall f :: f in r <==>
      (f == FormField("FName", firstname) && firstname != "") ||
      (f == FormField("Name", lastname) && lastname != "") ||
      (f == FormField("Matricule", DecimalString(id)) && id != 0)
    ensures forall i, j :: 0 <= i < j < |r| ==> FieldRank(r[i].name) < FieldRank(r[j].name)
  {
    (if firstname != "" then [FormField("FName", firstname)] else []) +
    (if lastname != "" then [FormField("Name", lastname)] else []) +
    (if id != 0 then [FormField("Matricule", DecimalString(id))] else [])
  }

  /** `strconv.ParseInt(digits, 10, 32)` on a non-empty digit string: the
      value, or a range error when it does not fit in 32 bits. */
  function ParseInt32(digits: string): (r: Option<int>)
    requires |digits| > 0 && AllDigits(digits)
    ensures r.Some? ==> r.value == DigitsValue(digits) && 0 <= r.value <= MaxInt32
    ensures r.None? <==> DigitsValue(digits) > MaxInt32
  {
    var v := DigitsValue(digits);
    if v <= MaxInt32 then Some(v) else None
  }

  /** Parsing the `%d` rendering of an ID in the 32-bit range gives back
      that ID. */
  lemma ParseInt32Digits(n: nat)
    requires n <= MaxInt32
    ensures ParseInt32(Digits(n)) == Some(n)
  {
    DigitsRoundTrip(n);
  }

  /** Group 1 of the match, read in decimal, fits in 32 bits. */
  predicate IdInRange(m: Anchor) {
    DigitsValue(m.digits) <= MaxInt32
  }

  /** The result a match converts to: its name and its decimal ID. */
  function ResultOf(m: Anchor): PlayerSearchResult {
    PlayerSearchResult(m.name, DigitsValue(m.digits))
  }

  /** The results a list of matches converts to: one per match, in order,
      or a failure when any of them has an ID out of the 32-bit range. */
  function ResultsFromMatches(matches: seq<Anchor>): Result<seq<PlayerSearchResult>, string> {
    if exists i :: 0 <= i < |matches| && DigitsValue(matches[i].digits) > MaxInt32 then
      Failure(InvalidIdMessage)
    else
      Success(seq(|matches|, i requires 0 <= i < |matches| =>
        PlayerSearchResult(matches[i].name, DigitsValue(matches[i].digits))))
  }

  /** What the search returns for a given outcome of its POST. */
  function SearchOutcome(outcome: PostOutcome): Result<seq<PlayerSearchResult>, string> {
    match outcome
    case PostFailed => Failure(RequestFailedMessage)
    case ReadFailed => Failure(ReadFailedMessage)
    case Body(html) => ResultsFromMatches(FindAll(html, 0))
  }

  /** `searchFqeMember`: posts the form and converts every match of the
      member-list anchor pattern into a result. */
  method SearchFqeMember(firstname: string, lastname: string, id: int, server: seq<FormField> -> PostOutcome)
    returns (result: Result<seq<PlayerSearchResult>, string>, form: seq<FormField>)
    ensures form == FormFields(firstname, lastname, id)
    ensures result == SearchOutcome(server(form))
  {
    form := FormFields(firstname, lastname, id);
    var outcome := server(form);
    if outcome.PostFailed? {
      return Failure(RequestFailedMessage), form;
    }
    if outcome.ReadFailed? {
      return Failure(ReadFailedMessage), form;
    }
    var matches := FindAll(outcome.html, 0);
    FindAllDigits(outcome.html, 0);
    var res: seq<PlayerSearchResult> := [];
    for i := 0 to |matches|
      invariant |res| == i
      invariant forall j :: 0 <= j < i ==> IdInRange(matches[j])
      invariant forall j :: 0 <= j < i ==> res[j] == ResultOf(matches[j])
    {
      assert DigitGroup(matches[i]);
      var parsed := ParseInt32(matches[i].digits);
      if parsed.None? {
        return Failure(InvalidIdMessage), form;
      }
      assert IdInRange(matches[i]) && parsed.value == ResultOf(matches[i]).id;
      res := res + [PlayerSearchResult(matches[i].name, parsed.value)];
    }
    assert res == ResultsFromMatches(matches).value;
    result := Success(res);
  }

  /** The results correspond one to one, in order, to the matches in the
      body: the name is group 2 and the ID is group 1 read in decimal, and
      an ID beyond 2^31 - 1 anywhere fails the whole search. */
  lemma SearchResultsFromBody(html: string)
    ensures SearchOutcome(Body(html)).Failure? <==>
      exists i :: 0 <= i < |FindAll(html, 0)| && DigitsValue(FindAll(html, 0)[i].digits) > MaxInt32
    ensures SearchOutcome(Body(html)).Failure? ==> SearchOutcome(Body(html)).error == InvalidIdMessage
    ensures SearchOutcome(Body(html)).Success? ==>
      var results, matches := SearchOutcome(Body(html)).value, FindAll(html, 0);
      |results| == |matches| &&
      forall i :: 0 <= i < |results| ==>
        results[i].name == matches[i].name &&
        results[i].id == DigitsValue(matches[i].digits) &&
        0 <= results[i].id <= MaxInt32
  {
  }

  /** The body a list of results would be scraped from. */
  function ResultsHtml(results: seq<PlayerSearchResult>): string
    requires forall i :: 0 <= i < |results| ==> results[i].id >= 0
  {
    RenderedAnchors(seq(|results|, i requires 0 <= i < |results| => (Digits(results[i].id), results[i].name)))
  }

  /** Searching a body made of the anchors of some results finds exactly
      those results. */
  lemma SearchRoundTrip(results: seq<PlayerSearchResult>)
    requires forall i :: 0 <= i < |results| ==> 0 <= results[i].id <= MaxInt32
    requires forall i :: 0 <= i < |results| ==> LazyName(results[i].name)
    ensures SearchOutcome(Body(ResultsHtml(results))) == Success(results)
  {
    var entries := seq(|results|, i requires 0 <= i < |results| => (Digits(results[i].id), results[i].name));
    var html := ResultsHtml(results);
    assert "" + html == html;
    ScanRendered("", entries);
    var matches := FindAll(html, 0);
    GroupsPointwise(matches, entries);
    forall i | 0 <= i < |matches|
      ensures matches[i].name == results[i].name && DigitsValue(matches[i].digits) == results[i].id
    {
      DigitsRoundTrip(results[i].id);
    }
    ResultsOfValidMatches(matches, results);
  }

  /** Matches whose ids all fit in 32 bits become exactly the results they
      name. */
  lemma ResultsOfValidMatches(matches: seq<Anchor>, results: seq<PlayerSearchResult>)
    requires |matches| == |results|
    requires forall i :: 0 <= i < |matches| ==>
      matches[i].name == results[i].name && DigitsValue(matches[i].digits) == results[i].id <= MaxInt32
    ensures ResultsFromMatches(matches) == Success(results)
  {
    assert !exists i :: 0 <= i < |matches| && DigitsValue(matches[i].digits) > MaxInt32;
    var r := ResultsFromMatches(matches).value;
    forall i | 0 <= i < |r| ensures r[i] == results[i] {
      assert r[i] == PlayerSearchResult(matches[i].name, DigitsValue(matches[i].digits));
    }
    assert r == results;
  }

  lemma {:induction false} GroupsPointwise(anchors: seq<Anchor>, entries: seq<(string, string)>)
    requires Groups(anchors) == entries
    ensures |anchors| == |entries|
    ensures forall i :: 0 <= i < |anchors| ==>
      anchors[i].digits == entries[i].0 && anchors[i].name == entries[i].1
    decreases |anchors|
  {
    if anchors != [] {
      GroupsPointwise(anchors[1..], entries[1..]);
    }
  }

  lemma JaneDoeLazy()
    ensures LazyName("Jane Doe")
  {
    forall k | 0 <= k < 8 ensures !At("Jane Doe" + Close, k, Close) {
      assert ("Jane Doe" + Close)[k] != '<';
    }
  }

  lemma JaneDoeHtml()
    ensures ResultsHtml([PlayerSearchResult("Jane Doe", 42)]) == "<a href=\"index.php?Id=42\">Jane Doe</a>"
  {
    var results := [PlayerSearchResult("Jane Doe", 42)];
    assert Digits(42) == "42" by {
      assert Digits(4) == "4";
    }
    var entries := seq(1, i requires 0 <= i < 1 => (Digits(results[i].id), results[i].name));
    assert entries == [("42", "Jane Doe")];
    assert RenderedAnchors(entries[1..]) == "";
  }

  /** The search result the member list shows for one anchor. */
  lemma JaneDoeExample()
    ensures SearchOutcome(Body("<a href=\"index.php?Id=42\">Jane Doe</a>")) ==
      Success([PlayerSearchResult("Jane Doe", 42)])
  {
    JaneDoeLazy();
    JaneDoeHtml();
    SearchRoundTrip([PlayerSearchResult("Jane Doe", 42)]);
  }
}
