/** The rating side of main.go: `Player`/`Elo`, the three-request rating
    fetch (`getFqePlayerRating`) with HTTP and JSON replaced by an abstract
    server, and the text rendering of a player (`stringifyPlayer`). */
module Rating {
  import opened Wrappers
  import opened Text

  /** One rating snapshot as decoded from `{"Quand": date, "Cote": value}`. */
  datatype Elo = Elo(date: string, value: int)

  /** `Player`: the rating histories keyed by time-control label. */
  datatype Player = Player(firstName: string, lastName: string, id: int, elos: map<string, seq<Elo>>)

  /** The time controls, in the order they are requested; the i-th one is
      requested with code i + 1. */
  const TimeControls: seq<string> := ["Lente", "Semi-rapide", "Rapide"]

  const NoElosMessage := "Player is either invalid or has no ELOs"
  const RequestFailedMessage := "Request for FQE player ELO failed! Error with request."
  const ReadFailedMessage := "Request for FQE player ELO failed! Error reading response."

  /** What one GET of a rating URL ends in: the request fails, reading the
      body fails, the body is not a JSON list of `Elo`, or it decodes. */
  datatype FetchOutcome = RequestFailed | ReadFailed | Undecodable | Decoded(history: seq<Elo>)
  {
    predicate IsTransportFailure() {
      RequestFailed? || ReadFailed?
    }
  }

  /** One GET of `json-cote.php?id=<id>&c=<code>`: the query parameters
      are the whole of what distinguishes the rating URLs. */
  datatype RatingRequest = RatingRequest(id: int, code: int)

  /** The outcome of requesting time control `j` (0-based) of player `id`. */
  function OutcomeAt(id: int, server: RatingRequest -> FetchOutcome, j: nat): FetchOutcome {
    server(RatingRequest(id, j + 1))
  }

  /** The index of the first time control, from `from` on, whose request
      fails in transport; 3 when none does. */
  function AbortIndex(id: int, server: RatingRequest -> FetchOutcome, from: nat): (k: nat)
    requires from <= 3
    ensures from <= k <= 3
    ensures forall j :: from <= j < k ==> !OutcomeAt(id, server, j).IsTransportFailure()
    ensures k < 3 ==> OutcomeAt(id, server, k).IsTransportFailure()
    decreases 3 - from
  {
    if from == 3 || OutcomeAt(id, server, from).IsTransportFailure() then from
    else AbortIndex(id, server, from + 1)
  }

  /** The histories decoded among the first `n` time controls, each stored
      under its label. */
  function DecodedRatings(id: int, server: RatingRequest -> FetchOutcome, n: nat): map<string, seq<Elo>>
    requires n <= 3
  {
    if n == 0 then map[]
    else
      var before := DecodedRatings(id, server, n - 1);
      var outcome := OutcomeAt(id, server, n - 1);
      if outcome.Decoded? then before[TimeControls[n - 1] := outcome.history] else before
  }

  /** What the rating fetch returns, as a function of the server. */
  function FetchedRating(id: int, server: RatingRequest -> FetchOutcome): Result<Player, string> {
    var k := AbortIndex(id, server, 0);
    if k < 3 then
      Failure(if OutcomeAt(id, server, k).RequestFailed? then RequestFailedMessage else ReadFailedMessage)
    else
      Success(Player("", "", id, DecodedRatings(id, server, 3)))
  }

  /** The requests the rating fetch makes, in order: up to and including the
      first one that fails in transport. */
  function RatingRequests(id: int, server: RatingRequest -> FetchOutcome): seq<RatingRequest> {
    var k := AbortIndex(id, server, 0);
    seq(if k < 3 then k + 1 else 3, j => RatingRequest(id, j + 1))
  }

  lemma {:induction false} AbortIndexIs(id: int, server: RatingRequest -> FetchOutcome, from: nat, k: nat)
    requires from <= k <= 3
    requires forall j :: from <= j < k ==> !OutcomeAt(id, server, j).IsTransportFailure()
    requires k < 3 ==> OutcomeAt(id, server, k).IsTransportFailure()
    ensures AbortIndex(id, server, from) == k
    decreases k - from
  {
    if from < k {
      AbortIndexIs(id, server, from + 1, k);
    }
  }

  lemma {:induction false} DecodedRatingsContents(id: int, server: RatingRequest -> FetchOutcome, n: nat)
    requires n <= 3
    ensures forall tc :: tc in DecodedRatings(id, server, n) ==> tc in TimeControls[..n]
    ensures forall j :: 0 <= j < n ==>
      (TimeControls[j] in DecodedRatings(id, server, n) <==> OutcomeAt(id, server, j).Decoded?)
    ensures forall j :: 0 <= j < n && OutcomeAt(id, server, j).Decoded? ==>
      DecodedRatings(id, server, n)[TimeControls[j]] == OutcomeAt(id, server, j).history
  {
    if n > 0 {
      DecodedRatingsContents(id, server, n - 1);
      assert TimeControls[..n] == TimeControls[..n - 1] + [TimeControls[n - 1]];
      assert forall j :: 0 <= j < n - 1 ==> TimeControls[j] != TimeControls[n - 1];
    }
  }

  /** `getFqePlayerRating`: requests the three time controls in order, stops
      at the first transport failure, skips undecodable bodies and stores
      every decoded history under its time control. */
  method GetFqePlayerRating(id: int, server: RatingRequest -> FetchOutcome)
    returns (result: Result<Player, string>, requests: seq<RatingRequest>)
    ensures result == FetchedRating(id, server)
    ensures requests == RatingRequests(id, server)
  {
    var elos: map<string, seq<Elo>> := map[];
    requests := [];
    for i := 0 to |TimeControls|
      invariant |requests| == i
      invariant forall j :: 0 <= j < i ==> requests[j] == RatingRequest(id, j + 1)
      invariant forall j :: 0 <= j < i ==> !OutcomeAt(id, server, j).IsTransportFailure()
      invariant elos == DecodedRatings(id, server, i)
    {
      var tc := TimeControls[i];
      var request := RatingRequest(id, i + 1);
      requests := requests + [request];
      var outcome := server(request);
      if outcome.RequestFailed? {
        AbortIndexIs(id, server, 0, i);
        return Failure(RequestFailedMessage), requests;
      }
      if outcome.ReadFailed? {
        AbortIndexIs(id, server, 0, i);
        return Failure(ReadFailedMessage), requests;
      }
      if outcome.Decoded? {
        elos := elos[tc := outcome.history];
      }
    }
    AbortIndexIs(id, server, 0, 3);
    result := Success(Player("", "", id, elos));
  }

  /** A transport failure on any of the three requests, and nothing else,
      makes the whole fetch fail. */
  lemma FetchFailsIffTransportFailure(id: int, server: RatingRequest -> FetchOutcome)
    ensures FetchedRating(id, server).Failure? <==>
      exists j :: 0 <= j < 3 && OutcomeAt(id, server, j).IsTransportFailure()
  {
  }

  /** A successful fetch describes player `id`, and a time control is present
      exactly when its body decoded, holding exactly the decoded history. */
  lemma FetchedPlayerContents(id: int, server: RatingRequest -> FetchOutcome)
    requires FetchedRating(id, server).Success?
    ensures FetchedRating(id, server).value.id == id
    ensures forall tc :: tc in FetchedRating(id, server).value.elos ==> tc in TimeControls
    ensures forall j :: 0 <= j < 3 ==>
      (TimeControls[j] in FetchedRating(id, server).value.elos <==> OutcomeAt(id, server, j).Decoded?)
    ensures forall j :: 0 <= j < 3 && OutcomeAt(id, server, j).Decoded? ==>
      FetchedRating(id, server).value.elos[TimeControls[j]] == OutcomeAt(id, server, j).history
  {
    DecodedRatingsContents(id, server, 3);
    assert TimeControls[..3] == TimeControls;
  }

  /** The i-th request asks for time control i with code i + 1, all for the
      same player; every request but the last succeeds in transport, so a
      failed fetch stops at the first request that failed, and a successful
      one makes exactly three requests. */
  lemma RatingRequestsShape(id: int, server: RatingRequest -> FetchOutcome)
    ensures 1 <= |RatingRequests(id, server)| <= 3
    ensures forall j :: 0 <= j < |RatingRequests(id, server)| ==>
      RatingRequests(id, server)[j] == RatingRequest(id, j + 1)
    ensures FetchedRating(id, server).Success? <==>
      (|RatingRequests(id, server)| == 3 && !server(RatingRequests(id, server)[2]).IsTransportFailure())
    ensures FetchedRating(id, server).Failure? ==>
      server(RatingRequests(id, server)[|RatingRequests(id, server)| - 1]).IsTransportFailure()
    ensures forall j :: 0 <= j < |RatingRequests(id, server)| - 1 ==>
      !server(RatingRequests(id, server)[j]).IsTransportFailure()
  {
  }

  // ----- rendering -----

  /** The line for one time control: the last snapshot, or `?` when the
      history is empty. */
  function EloLine(tc: string, history: seq<Elo>): string {
    if |history| == 0 then tc + ": ?"
    else tc + ": " + DecimalString(history[|history| - 1].value) + " (" + history[|history| - 1].date + ")"
  }

  /** `order` lists every key of the map exactly once: one possible Go
      iteration order. */
  predicate IsEnumeration(order: seq<string>, keys: set<string>) {
    (forall i :: 0 <= i < |order| ==> order[i] in keys) &&
    multiset(order) == multiset(keys)
  }

  lemma EnumerationMembers(order: seq<string>, keys: set<string>)
    requires IsEnumeration(order, keys)
    ensures |order| == |keys|
  {
    assert |multiset(order)| == |multiset(keys)|;
  }

  /** The lines for the time controls in `order`, one per entry. */
  function Lines(elos: map<string, seq<Elo>>, order: seq<string>): seq<string>
    requires forall i :: 0 <= i < |order| ==> order[i] in elos
  {
    seq(|order|, i requires 0 <= i < |order| => EloLine(order[i], elos[order[i]]))
  }

  /** The text of a player: the fixed message when it has no time control,
      otherwise one line per time control, in `order`, joined by newlines. */
  function RenderedPlayer(player: Player, order: seq<string>): string
    requires IsEnumeration(order, player.elos.Keys)
  {
    if |player.elos| == 0 then NoElosMessage else Join(Lines(player.elos, order), "\n")
  }

  /** `stringifyPlayer`, visiting the time controls in `order`. */
  method StringifyPlayer(player: Player, order: seq<string>) returns (text: string)
    requires IsEnumeration(order, player.elos.Keys)
    ensures |player.elos| == 0 ==> text == NoElosMessage
    ensures |player.elos| > 0 ==> text == Join(Lines(player.elos, order), "\n")
    ensures text == RenderedPlayer(player, order)
  {
    EnumerationMembers(order, player.elos.Keys);
    if |player.elos| == 0 {
      return NoElosMessage;
    }
    var eloStrings: seq<string> := [];
    for i := 0 to |order|
      invariant |eloStrings| == i
      invariant forall j :: 0 <= j < i ==> eloStrings[j] == EloLine(order[j], player.elos[order[j]])
    {
      var tc := order[i];
      var history := player.elos[tc];
      var eloString: string;
      if |history| == 0 {
        eloString := tc + ": ?";
      } else {
        var lastElo := history[|history| - 1];
        eloString := tc + ": " + DecimalString(lastElo.value) + " (" + lastElo.date + ")";
      }
      assert eloString == EloLine(tc, history);
      eloStrings := eloStrings + [eloString];
    }
    assert eloStrings == Lines(player.elos, order);
    text := Join(eloStrings, "\n");
  }

  /** For a player with ratings, the rendered text has exactly one line per
      time control, and each line is that time control's `EloLine`. */
  lemma RenderedOneLinePerKey(elos: map<string, seq<Elo>>, order: seq<string>)
    requires IsEnumeration(order, elos.Keys) && |elos| > 0
    requires forall tc :: tc in elos ==> NewlineFree(tc)
    requires forall tc :: tc in elos && |elos[tc]| > 0 ==> NewlineFree(elos[tc][|elos[tc]| - 1].date)
    ensures |Split(Join(Lines(elos, order), "\n"))| == |order| == |elos|
    ensures forall i :: 0 <= i < |order| ==>
      Split(Join(Lines(elos, order), "\n"))[i] == EloLine(order[i], elos[order[i]])
  {
    EnumerationMembers(order, elos.Keys);
    var lines := Lines(elos, order);
    forall i | 0 <= i < |lines| ensures NewlineFree(lines[i]) {
      if |elos[order[i]]| > 0 {
        DigitsNewlineFree(elos[order[i]]);
      }
    }
    SplitJoin(lines);
  }

  lemma DigitsNewlineFree(history: seq<Elo>)
    requires |history| > 0
    ensures NewlineFree(DecimalString(history[|history| - 1].value))
  {
    var n := history[|history| - 1].value;
    var d := Digits(if n < 0 then -n else n);
    assert forall i :: 0 <= i < |d| ==> IsDigit(d[i]);
  }

  lemma MultisetRemoveAt<T>(s: seq<T>, j: nat)
    requires j < |s|
    ensures multiset(s[..j] + s[j + 1..]) == multiset(s) - multiset{s[j]}
  {
    assert s == s[..j] + [s[j]] + s[j + 1..];
  }

  /** Taking the j-th time control out of an order takes its line out of
      the rendered lines. */
  lemma LinesRemoveAt(elos: map<string, seq<Elo>>, o: seq<string>, j: nat)
    requires forall i :: 0 <= i < |o| ==> o[i] in elos
    requires j < |o|
    ensures multiset(o[..j] + o[j + 1..]) == multiset(o) - multiset{o[j]}
    ensures multiset(Lines(elos, o)) ==
      multiset(Lines(elos, o[..j] + o[j + 1..])) + multiset{EloLine(o[j], elos[o[j]])}
  {
    var rest := o[..j] + o[j + 1..];
    MultisetRemoveAt(o, j);
    var lines := Lines(elos, o);
    forall i | 0 <= i < |rest| ensures rest[i] == (if i < j then o[i] else o[i + 1]) {
    }
    assert Lines(elos, rest) == lines[..j] + lines[j + 1..];
    MultisetRemoveAt(lines, j);
    assert lines[j] in multiset(lines);
  }

  lemma SameMembers(o1: seq<string>, o2: seq<string>, keys: set<string>)
    requires forall i :: 0 <= i < |o1| ==> o1[i] in keys
    requires multiset(o1) == multiset(o2)
    ensures forall i :: 0 <= i < |o2| ==> o2[i] in keys
  {
    forall i | 0 <= i < |o2| ensures o2[i] in keys {
      assert o2[i] in multiset(o2);
      assert o2[i] in o1;
    }
  }

  /** One step of the permutation argument: the first time control of `o1`
      sits at `j` in `o2`; taking it out of both leaves orders with the
      same members and takes the same line out of both renderings. */
  lemma RemoveMatched(elos: map<string, seq<Elo>>, o1: seq<string>, o2: seq<string>, j: nat)
    requires forall i :: 0 <= i < |o1| ==> o1[i] in elos
    requires forall i :: 0 <= i < |o2| ==> o2[i] in elos
    requires multiset(o1) == multiset(o2)
    requires 0 < |o1| && j < |o2| && o2[j] == o1[0]
    ensures forall i :: 0 <= i < |o1[1..]| ==> o1[1..][i] in elos
    ensures multiset(o1[1..]) == multiset(o2[..j] + o2[j + 1..])
    ensures multiset(Lines(elos, o1)) ==
      multiset(Lines(elos, o1[1..])) + multiset{EloLine(o1[0], elos[o1[0]])}
    ensures multiset(Lines(elos, o2)) ==
      multiset(Lines(elos, o2[..j] + o2[j + 1..])) + multiset{EloLine(o1[0], elos[o1[0]])}
  {
    var rest1, rest2 := o1[1..], o2[..j] + o2[j + 1..];
    assert o1[..0] + o1[1..] == rest1;
    LinesRemoveAt(elos, o1, 0);
    LinesRemoveAt(elos, o2, j);
    assert multiset(rest1) == multiset(o1) - multiset{o1[0]};
    assert multiset(rest2) == multiset(o2) - multiset{o2[j]};
  }

  /** Two iteration orders of the same time controls render the same lines,
      only permuted. */
  lemma {:induction false} LinesUpToPermutation(elos: map<string, seq<Elo>>, o1: seq<string>, o2: seq<string>)
    requires forall i :: 0 <= i < |o1| ==> o1[i] in elos
    requires multiset(o1) == multiset(o2)
    ensures forall i :: 0 <= i < |o2| ==> o2[i] in elos
    ensures multiset(Lines(elos, o1)) == multiset(Lines(elos, o2))
    decreases |o1|
  {
    SameMembers(o1, o2, elos.Keys);
    if o1 != [] {
      assert o1[0] in multiset(o2);
      var j :| 0 <= j < |o2| && o2[j] == o1[0];
      RemoveMatched(elos, o1, o2, j);
      LinesUpToPermutation(elos, o1[1..], o2[..j] + o2[j + 1..]);
    }
  }

  lemma Decimal1550()
    ensures DecimalString(1550) == "1550"
  {
    assert Digits(1) == "1";
    assert Digits(15) == "15";
    assert Digits(155) == "155";
  }

  /** A Lente history of two snapshots, the later one 1550 on 2021-01-01. */
  const LenteHistory: seq<Elo> := [Elo("2020-01-01", 1500), Elo("2021-01-01", 1550)]

  lemma ExampleLenteLine()
    ensures EloLine("Lente", LenteHistory) == "Lente: 1550 (2021-01-01)"
  {
    assert LenteHistory[|LenteHistory| - 1] == Elo("2021-01-01", 1550);
    Decimal1550();
    assert EloLine("Lente", LenteHistory) == "Lente" + ": " + "1550" + " (" + "2021-01-01" + ")";
  }

  lemma JoinThree(a: string, b: string, c: string)
    ensures Join([a, b, c], "\n") == a + "\n" + b + "\n" + c
  {
    assert [a, b, c][1..] == [b, c];
    assert [b, c][1..] == [c];
    assert Join([c], "\n") == c;
    assert Join([b, c], "\n") == b + "\n" + c;
    assert Join([a, b, c], "\n") == a + "\n" + (b + "\n" + c);
  }

  /** An example player's ratings: the Lente history above and empty
      Semi-rapide and Rapide histories. */
  const ExampleElos: map<string, seq<Elo>> :=
    map["Lente" := LenteHistory, "Semi-rapide" := [], "Rapide" := []]

  lemma ExampleLines()
    ensures Lines(ExampleElos, TimeControls) == ["Lente: 1550 (2021-01-01)", "Semi-rapide: ?", "Rapide: ?"]
  {
    ExampleLenteLine();
    var lines := Lines(ExampleElos, TimeControls);
    assert |lines| == 3;
    assert ExampleElos["Lente"] == LenteHistory;
    assert lines[0] == EloLine("Lente", ExampleElos["Lente"]);
    assert lines[1] == EloLine("Semi-rapide", []) == "Semi-rapide: ?";
    assert lines[2] == EloLine("Rapide", []) == "Rapide: ?";
  }

  /** The declared order of the time controls is one iteration order of
      the example map. */
  lemma ExampleEnumeration()
    ensures IsEnumeration(TimeControls, ExampleElos.Keys)
  {
    assert ExampleElos.Keys == {"Lente", "Semi-rapide", "Rapide"};
    assert multiset(TimeControls) == multiset{"Lente", "Semi-rapide", "Rapide"};
  }

  /** The rendering of the example player, in the declared order of the
      time controls: the latest Lente rating with its date, and `?` for the
      two empty histories. */
  lemma ExamplePlayerRendering()
    ensures IsEnumeration(TimeControls, ExampleElos.Keys)
    ensures RenderedPlayer(Player("", "", 0, ExampleElos), TimeControls) ==
      "Lente: 1550 (2021-01-01)" + "\n" + "Semi-rapide: ?" + "\n" + "Rapide: ?"
  {
    ExampleEnumeration();
    ExampleLines();
    JoinThree("Lente: 1550 (2021-01-01)", "Semi-rapide: ?", "Rapide: ?");
  }
}
