/** `eloCommandHandler`: reads the `firstname`, `lastname` and `id` options
    of the `elo` command, searches the member list and chooses the reply
    from how many players were found. The chat session, the search POST
    and the rating GETs are parameters. */
module EloCommand {
  import opened Wrappers
  import opened Text
  import Rating
  import Search

  /** The value of an option, as the chat platform types it. */
  datatype OptionValue = StringOption(text: string) | IntegerOption(number: int)

  datatype CommandOption = CommandOption(name: string, value: OptionValue)

  const AtLeastOneOptionMessage := "At least one option is required!"
  const NoPlayersMessage := "No players found! :("

  /** The value of the last option called `name`, which is the one a Go map
      filled in option order keeps. */
  function LastValue(options: seq<CommandOption>, name: string): Option<OptionValue> {
    if options == [] then None
    else if options[|options| - 1].name == name then Some(options[|options| - 1].value)
    else LastValue(options[..|options| - 1], name)
  }

  /** Option `i` is `name` with value `v`, and no later option is called `name`. */
  predicate IsLastOccurrence(options: seq<CommandOption>, name: string, v: OptionValue, i: int) {
    0 <= i < |options| && options[i] == CommandOption(name, v) &&
    forall j :: i < j < |options| ==> options[j].name != name
  }

  lemma {:induction false} LastValueSome(options: seq<CommandOption>, name: string, v: OptionValue)
    ensures LastValue(options, name) == Some(v) <==> exists i :: IsLastOccurrence(options, name, v, i)
    decreases |options|
  {
    if options != [] {
      var n := |options| - 1;
      var init := options[..n];
      if options[n].name == name {
        if LastValue(options, name) == Some(v) {
          assert IsLastOccurrence(options, name, v, n);
        }
        forall i | IsLastOccurrence(options, name, v, i) ensures i == n {
        }
      } else {
        LastValueSome(init, name, v);
        forall i | 0 <= i < n
          ensures IsLastOccurrence(options, name, v, i) <==> IsLastOccurrence(init, name, v, i)
        {
          assert options[i] == init[i];
          assert forall j :: i < j < n ==> options[j] == init[j];
        }
        assert !IsLastOccurrence(options, name, v, n);
      }
    }
  }

  lemma {:induction false} LastValueNone(options: seq<CommandOption>, name: string)
    ensures LastValue(options, name).None? <==> forall i :: 0 <= i < |options| ==> options[i].name != name
    decreases |options|
  {
    if options != [] {
      var n := |options| - 1;
      var init := options[..n];
      LastValueNone(init, name);
      assert forall i :: 0 <= i < n ==> options[i] == init[i];
    }
  }

  /** `LastValue` finds the last occurrence of the name, and only when there
      is one. */
  lemma LastValueIsLastOccurrence(options: seq<CommandOption>, name: string, v: OptionValue)
    ensures LastValue(options, name) == Some(v) <==>
      exists i :: 0 <= i < |options| && options[i] == CommandOption(name, v) &&
        forall j :: i < j < |options| ==> options[j].name != name
    ensures LastValue(options, name).None? <==> forall i :: 0 <= i < |options| ==> options[i].name != name
  {
    LastValueSome(options, name, v);
    LastValueNone(options, name);
  }

  /** Builds the handler's option map from the options in the order the
      user gave them; a later option of the same name replaces an earlier one. */
  method BuildOptionMap(options: seq<CommandOption>) returns (optionMap: map<string, OptionValue>)
    ensures forall name :: name in optionMap <==> LastValue(options, name).Some?
    ensures forall name :: name in optionMap ==> optionMap[name] == LastValue(options, name).value
  {
    optionMap := map[];
    for i := 0 to |options|
      invariant forall name :: name in optionMap <==> LastValue(options[..i], name).Some?
      invariant forall name :: name in optionMap ==> optionMap[name] == LastValue(options[..i], name).value
    {
      assert options[..i + 1][..i] == options[..i];
      optionMap := optionMap[options[i].name := options[i].value];
    }
    assert options[..|options|] == options;
  }

  /** The platform gives `firstname` and `lastname` as strings and `id` as an
      integer; reading them with the other accessor panics. */
  predicate WellTyped(options: seq<CommandOption>) {
    (LastValue(options, "firstname").Some? ==> LastValue(options, "firstname").value.StringOption?) &&
    (LastValue(options, "lastname").Some? ==> LastValue(options, "lastname").value.StringOption?) &&
    (LastValue(options, "id").Some? ==> LastValue(options, "id").value.IntegerOption?)
  }

  /** At least one of the three options was given. */
  predicate AnySupplied(options: seq<CommandOption>) {
    LastValue(options, "firstname").Some? || LastValue(options, "lastname").Some? || LastValue(options, "id").Some?
  }

  function TextOption(options: seq<CommandOption>, name: string): string {
    match LastValue(options, name)
    case Some(StringOption(t)) => t
    case _ => ""
  }

  function IntegerOptionOf(options: seq<CommandOption>, name: string): int {
    match LastValue(options, name)
    case Some(IntegerOption(n)) => n
    case _ => 0
  }

  /** The search form the options lead to. */
  function QueryForm(options: seq<CommandOption>): seq<Search.FormField> {
    Search.FormFields(TextOption(options, "firstname"), TextOption(options, "lastname"), IntegerOptionOf(options, "id"))
  }

  /** The reply listing several players, one "Name, ID" line each. */
  function FoundPlayersText(results: seq<Search.PlayerSearchResult>): string {
    "Found players:\n" +
    Join(seq(|results|, i requires 0 <= i < |results| => results[i].name + ", " + DecimalString(results[i].id)), "\n")
  }

  /** The time controls of `keys`, in the order they have in `order`. */
  function Restrict(order: seq<string>, keys: set<string>): (r: seq<string>)
    ensures forall i :: 0 <= i < |r| ==> r[i] in keys
  {
    if order == [] then []
    else if order[0] in keys then [order[0]] + Restrict(order[1..], keys)
    else Restrict(order[1..], keys)
  }

  lemma {:induction false} RestrictCounts(order: seq<string>, keys: set<string>, x: string)
    ensures multiset(Restrict(order, keys))[x] == if x in keys then multiset(order)[x] else 0
    decreases |order|
  {
    if order != [] {
      RestrictCounts(order[1..], keys, x);
      assert order == [order[0]] + order[1..];
    }
  }

  /** Restricting an iteration order of all three time controls to the keys
      a player has gives an iteration order of those keys. */
  lemma RestrictEnumerates(order: seq<string>, keys: set<string>)
    requires Rating.IsEnumeration(order, set tc | tc in Rating.TimeControls)
    requires forall k :: k in keys ==> k in Rating.TimeControls
    ensures Rating.IsEnumeration(Restrict(order, keys), keys)
  {
    var all := set tc | tc in Rating.TimeControls;
    forall x ensures multiset(Restrict(order, keys))[x] == multiset(keys)[x] {
      RestrictCounts(order, keys, x);
      if x in keys {
        assert x in all;
      }
    }
    assert multiset(Restrict(order, keys)) == multiset(keys);
  }

  lemma {:induction false} RestrictAppend(a: seq<string>, b: seq<string>, keys: set<string>)
    ensures Restrict(a + b, keys) == Restrict(a, keys) + Restrict(b, keys)
    decreases |a|
  {
    if a == [] {
      assert a + b == b;
    } else {
      assert (a + b)[0] == a[0] && (a + b)[1..] == a[1..] + b;
      RestrictAppend(a[1..], b, keys);
      if a[0] in keys {
        assert Restrict(a, keys) + Restrict(b, keys) == [a[0]] + (Restrict(a[1..], keys) + Restrict(b, keys));
      }
    }
  }

  lemma {:induction false} RestrictKeeps(order: seq<string>, keys: set<string>)
    requires forall i :: 0 <= i < |order| ==> order[i] in keys
    ensures Restrict(order, keys) == order
    decreases |order|
  {
    if order != [] {
      RestrictKeeps(order[1..], keys);
    }
  }

  lemma {:induction false} RestrictDrops(order: seq<string>, keys: set<string>)
    requires forall i :: 0 <= i < |order| ==> order[i] !in keys
    ensures Restrict(order, keys) == []
    decreases |order|
  {
    if order != [] {
      RestrictDrops(order[1..], keys);
    }
  }

  /** The converse of `RestrictEnumerates`: every iteration order of the
      player's keys is the restriction of some iteration order of the three
      time controls, so the handler's contract covers every order Go may
      choose. */
  lemma RestrictionsAreAllEnumerations(o: seq<string>, keys: set<string>)
    requires Rating.IsEnumeration(o, keys)
    requires forall k :: k in keys ==> k in Rating.TimeControls
    ensures exists rest ::
      Rating.IsEnumeration(o + rest, set tc | tc in Rating.TimeControls) && Restrict(o + rest, keys) == o
  {
    var all := set tc | tc in Rating.TimeControls;
    var rest := Restrict(Rating.TimeControls, all - keys);
    assert all == {"Lente", "Semi-rapide", "Rapide"};
    assert multiset(Rating.TimeControls) == multiset{"Lente", "Semi-rapide", "Rapide"};
    forall x ensures multiset(o + rest)[x] == multiset(all)[x] {
      RestrictCounts(Rating.TimeControls, all - keys, x);
      assert multiset(o + rest) == multiset(o) + multiset(rest);
    }
    assert multiset(o + rest) == multiset(all);
    assert forall i :: 0 <= i < |o + rest| ==> (o + rest)[i] in all by {
      forall i | 0 <= i < |o + rest| ensures (o + rest)[i] in all {
        if i >= |o| {
          assert (o + rest)[i] == rest[i - |o|];
        }
      }
    }
    RestrictAppend(o, rest, keys);
    RestrictKeeps(o, keys);
    RestrictDrops(rest, keys);
    assert Restrict(o + rest, keys) == o + [];
  }

  /** The rating block of the single-player reply. */
  function RatingBlock(id: int, ratingServer: Rating.RatingRequest -> Rating.FetchOutcome, order: seq<string>): string
    requires Rating.IsEnumeration(order, set tc | tc in Rating.TimeControls)
  {
    match Rating.FetchedRating(id, ratingServer)
    case Failure(e) => "Error getting player ELO info: " + e + "\n"
    case Success(player) =>
      Rating.FetchedPlayerContents(id, ratingServer);
      RestrictEnumerates(order, player.elos.Keys);
      Rating.RenderedPlayer(player, Restrict(order, player.elos.Keys))
  }

  /** The reply for exactly one player found. */
  function SinglePlayerText(result: Search.PlayerSearchResult, block: string): string {
    "\nName: " + result.name + "\nID: " + DecimalString(result.id) + "\n\nFQE rating:\n" + block
  }

  /** The option-reading part of the handler: the option map, the three
      query values (empty or zero when absent) and `margs`, the values of
      the options that were given. */
  method ReadOptions(options: seq<CommandOption>)
    returns (firstname: string, lastname: string, id: int, margs: seq<OptionValue>)
    requires WellTyped(options)
    ensures firstname == TextOption(options, "firstname")
    ensures lastname == TextOption(options, "lastname")
    ensures id == IntegerOptionOf(options, "id")
    ensures |margs| == 0 <==> !AnySupplied(options)
  {
    var optionMap := BuildOptionMap(options);
    id, firstname, lastname := 0, "", "";
    margs := [];
    if "firstname" in optionMap {
      firstname := optionMap["firstname"].text;
      margs := margs + [StringOption(firstname)];
    }
    if "lastname" in optionMap {
      lastname := optionMap["lastname"].text;
      margs := margs + [StringOption(lastname)];
    }
    if "id" in optionMap {
      id := optionMap["id"].number;
      margs := margs + [IntegerOption(id)];
    }
  }

  /** The reply listing several players. */
  method ListPlayers(found: seq<Search.PlayerSearchResult>) returns (response: string)
    ensures response == FoundPlayersText(found)
  {
    var playerStrings: seq<string> := [];
    for i := 0 to |found|
      invariant |playerStrings| == i
      invariant forall j :: 0 <= j < i ==> playerStrings[j] == found[j].name + ", " + DecimalString(found[j].id)
    {
      var player := found[i];
      playerStrings := playerStrings + [player.name + ", " + DecimalString(player.id)];
    }
    assert playerStrings ==
      seq(|found|, i requires 0 <= i < |found| => found[i].name + ", " + DecimalString(found[i].id));
    response := "Found players:\n" + Join(playerStrings, "\n");
  }

  /** The reply for the one player found: its name, its ID and its ratings. */
  method DescribePlayer(
    details: Search.PlayerSearchResult,
    ratingServer: Rating.RatingRequest -> Rating.FetchOutcome,
    order: seq<string>)
    returns (response: string, ratingRequests: seq<Rating.RatingRequest>)
    requires Rating.IsEnumeration(order, set tc | tc in Rating.TimeControls)
    ensures ratingRequests == Rating.RatingRequests(details.id, ratingServer)
    ensures response == SinglePlayerText(details, RatingBlock(details.id, ratingServer, order))
  {
    var fetched, requests := Rating.GetFqePlayerRating(details.id, ratingServer);
    ratingRequests := requests;
    var playerEloString: string;
    if fetched.Failure? {
      playerEloString := "Error getting player ELO info: " + fetched.error + "\n";
    } else {
      var player := fetched.value;
      Rating.FetchedPlayerContents(details.id, ratingServer);
      RestrictEnumerates(order, player.elos.Keys);
      playerEloString := Rating.StringifyPlayer(player, Restrict(order, player.elos.Keys));
    }
    response := "" + "\nName: " + details.name + "\nID: " + DecimalString(details.id) + "\n\nFQE rating:\n" + playerEloString;
  }

  /** `eloCommandHandler`. `order` is the order in which Go's map iteration
      would visit the three time controls; the player's own time controls
      are visited in that order. Besides the reply it returns the search
      form it posted, if any, and the rating requests it made. */
  method EloCommandHandler(
    options: seq<CommandOption>,
    searchServer: seq<Search.FormField> -> Search.PostOutcome,
    ratingServer: Rating.RatingRequest -> Rating.FetchOutcome,
    order: seq<string>)
    returns (response: string, searched: Option<seq<Search.FormField>>, ratingRequests: seq<Rating.RatingRequest>)
    requires WellTyped(options)
    requires Rating.IsEnumeration(order, set tc | tc in Rating.TimeControls)
    ensures !AnySupplied(options) ==>
      response == AtLeastOneOptionMessage && searched == None && ratingRequests == []
    ensures AnySupplied(options) ==> searched == Some(QueryForm(options))
    ensures AnySupplied(options) && Search.SearchOutcome(searchServer(QueryForm(options))).Failure? ==>
      response == "Failed to search for player " + Search.SearchOutcome(searchServer(QueryForm(options))).error + "\n" &&
      ratingRequests == []
    ensures AnySupplied(options) && Search.SearchOutcome(searchServer(QueryForm(options))).Success? ==>
      var found := Search.SearchOutcome(searchServer(QueryForm(options))).value;
      (|found| == 0 ==> response == NoPlayersMessage && ratingRequests == []) &&
      (|found| > 1 ==> response == FoundPlayersText(found) && ratingRequests == []) &&
      (|found| == 1 ==>
        ratingRequests == Rating.RatingRequests(found[0].id, ratingServer) &&
        response == SinglePlayerText(found[0], RatingBlock(found[0].id, ratingServer, order)))
  {
    var playerFirstName, playerLastName, playerId, margs := ReadOptions(options);
    searched := None;
    ratingRequests := [];
    if |margs| == 0 {
      response := AtLeastOneOptionMessage;
    } else {
      var found, form := Search.SearchFqeMember(playerFirstName, playerLastName, playerId, searchServer);
      searched := Some(form);
      if found.Failure? {
        response := "Failed to search for player " + found.error + "\n";
      } else if |found.value| == 0 {
        response := NoPlayersMessage;
      } else if |found.value| == 1 {
        response, ratingRequests := DescribePlayer(found.value[0], ratingServer, order);
      } else {
        response := ListPlayers(found.value);
      }
    }
  }

  /** A rating server whose Lente body decodes to `Rating.LenteHistory`
      and whose Semi-rapide and Rapide bodies do not decode. */
  function LenteOnlyServer(request: Rating.RatingRequest): Rating.FetchOutcome {
    if request.code == 1 then Rating.Decoded(Rating.LenteHistory) else Rating.Undecodable
  }

  lemma LenteOnlyFetch(id: int)
    ensures Rating.FetchedRating(id, LenteOnlyServer) ==
      Success(Rating.Player("", "", id, map["Lente" := Rating.LenteHistory]))
  {
    Rating.AbortIndexIs(id, LenteOnlyServer, 0, 3);
    assert Rating.OutcomeAt(id, LenteOnlyServer, 0) == Rating.Decoded(Rating.LenteHistory);
    assert Rating.OutcomeAt(id, LenteOnlyServer, 1) == Rating.Undecodable;
    assert Rating.OutcomeAt(id, LenteOnlyServer, 2) == Rating.Undecodable;
    var m1 := Rating.DecodedRatings(id, LenteOnlyServer, 1);
    assert Rating.DecodedRatings(id, LenteOnlyServer, 0) == map[];
    assert m1 == map["Lente" := Rating.LenteHistory];
    assert Rating.DecodedRatings(id, LenteOnlyServer, 2) == m1;
    assert Rating.DecodedRatings(id, LenteOnlyServer, 3) == m1;
  }

  /** Time controls whose bodies do not decode get no line: with only the
      Lente body decoding, the rating block is the single Lente line. */
  lemma LenteOnlyRatingBlock(id: int)
    ensures Rating.IsEnumeration(Rating.TimeControls, set tc | tc in Rating.TimeControls)
    ensures RatingBlock(id, LenteOnlyServer, Rating.TimeControls) == "Lente: 1550 (2021-01-01)"
  {
    var all := set tc | tc in Rating.TimeControls;
    assert all == {"Lente", "Semi-rapide", "Rapide"};
    assert multiset(Rating.TimeControls) == multiset{"Lente", "Semi-rapide", "Rapide"};
    LenteOnlyFetch(id);
    var elos := map["Lente" := Rating.LenteHistory];
    assert elos.Keys == {"Lente"};
    assert Rating.TimeControls[1..] == ["Semi-rapide", "Rapide"];
    assert ["Semi-rapide", "Rapide"][1..] == ["Rapide"];
    assert Restrict(["Rapide"], elos.Keys) == [];
    assert Restrict(Rating.TimeControls, elos.Keys) == ["Lente"];
    Rating.ExampleLenteLine();
    assert Rating.Lines(elos, ["Lente"]) == ["Lente: 1550 (2021-01-01)"];
  }
}
