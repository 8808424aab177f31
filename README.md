# caissa: the `/elo` command, modelled in Dafny

caissa is a Discord bot for the Fédération québécoise des échecs (FQE).
Its `/elo` command searches the FQE member list by first name, last name or
member number. It then either lists the players it found or shows the one
player's latest rating in each time control (Lente, Semi-rapide, Rapide).

This project models the deterministic part of that command as it is written
in `main.go`:

- the two membership helpers;
- the rating fetch, with the three rating GETs replaced by an abstract server;
- the rendering of a player's ratings;
- the member search: the form it posts, and the scan of the HTML for
  member anchors with the pattern `<a href="index\.php\?Id=(\d+)">(.*?)<\/a>`;
- the handler's choice of reply.

The project has one module per concern:

| module | file | what it holds |
|---|---|---|
| `Wrappers` | `wrappers.dfy` | `Option` and `Result` |
| `Text` | `text.dfy` | decimal rendering (`%d`), `strings.Join`, and splitting on newlines, which serves only to state that a joined text has one line per part |
| `Membership` | `membership.dfy` | `StringInSlice`, `AnyKeyInMap` |
| `Rating` | `rating.dfy` | `Player`, `Elo`, `getFqePlayerRating`, `stringifyPlayer` |
| `AnchorScan` | `anchor_scan.dfy` | a dedicated scanner for the member-list pattern, with the semantics of `FindAllStringSubmatch(body, -1)` |
| `Search` | `search.dfy` | `searchFqeMember` |
| `EloCommand` | `elo_command.dfy` | `eloCommandHandler` |

The source works step by step in four places, and the model keeps those as
methods with loops. Each method is proved equal to a specification function,
and the properties are proved about those functions:

- the rating fetch fills a map across a loop with early returns;
- the renderer appends one line per time control;
- the search appends one result per match;
- the handler builds its option map in a loop.

Some things outside the program become parameters:

- **Rating server.** The outcome of each rating GET is a function
  `RatingRequest -> FetchOutcome`. A GET can fail in the request, fail in
  reading the body, give a body that does not decode, or give a decoded
  history.
- **Search server.** The outcome of the search POST is a function of the
  posted fields: the POST fails, reading the body fails, or the body comes
  back.
- **Map iteration order.** Go visits the map of a player's ratings in an
  unspecified order. That order is a parameter `order`, which must list
  every key exactly once (`Rating.IsEnumeration`).
- **Call records.** The methods also return the requests they made, so the
  contracts can say which GETs and which POST happen.

The code differs from a plain reading of the command's behaviour in four
places, and the model follows the code:

- The member search is POSTed even when only the member number is given. The
  rating fetch then uses the ID found by the search, not the one that was
  typed.
- A time control whose body does not decode has no line at all in the
  rendered text. `?` appears only for a time control whose decoded history
  is empty.
- The handler checks whether an option was given, not whether it is
  non-empty (main.go:131-148). A `firstname` option given as the empty
  string therefore counts as an option, and the search POSTs an empty form
  (`Search.FormFields("", "", 0)` is empty).
- The error texts are those of the code, for example "Request failed",
  "Error parsing response body", "Invalid FQE ID", and "Request for FQE
  player ELO failed! Error with request.".

## Model

| member | source | states |
|---|---|---|
| Membership.StringInSlice | main.go:23-30 | the result is true exactly when some element of the list equals `s`, and false for an empty list |
| Membership.AnyKeyInMap | main.go:32-39 | the result is true exactly when some key of the map is in `keys`, and false for an empty map |
| Text.DigitsRoundTrip | main.go:344 | reading back the decimal digits that `%d` prints for a natural number gives that number |
| Text.DecimalString | main.go:325 | `fmt.Sprint` / `%d` of an int is non-empty and starts with '-' exactly when the number is negative; the rest is decimal digits, without a leading zero unless it is the single digit 0, that read back as the number's magnitude, which fixes the text exactly (also used at main.go:168, 173 and 300) |
| Text.Join | main.go:304 | reference definition of `strings.Join`: the parts in order with the separator between them; its property is `Text.SplitJoin` (also used at main.go:176) |
| Text.SplitJoin | main.go:304 | splitting on newlines the `strings.Join(lines, "\n")` of a non-empty list of newline-free lines gives back exactly those lines (an empty list joins to "", which splits to one empty line) |
| Rating.AbortIndex | main.go:263-273 | the index where the loop stops lies between where the search starts and 3; no request before it fails in transport, and if it is below 3 that request does, so it is the first transport failure |
| Rating.FetchedRating | main.go:259-284 | reference definition of what the fetch returns: the first transport failure's message, or the player with the decoded histories; `Rating.GetFqePlayerRating` is proved equal to it, and `Rating.FetchFailsIffTransportFailure` and `Rating.FetchedPlayerContents` state its properties |
| Rating.RatingRequests | main.go:263-273 | reference definition of the GETs the fetch makes; `Rating.RatingRequestsShape` states their ids, codes and number |
| Rating.GetFqePlayerRating | main.go:259-284 | the result and the requests made are those of the fetch specification: the requests go up to and including the first transport failure, and the map holds the decoded histories |
| Rating.FetchFailsIffTransportFailure | main.go:265-273 | the fetch fails if and only if one of the three requests fails in the request or in reading the body |
| Rating.DecodedRatings | main.go:275-282 | reference definition of the map the fetch fills: each decoded history stored under its time control; the loop of `Rating.GetFqePlayerRating` keeps its map equal to it, and `Rating.DecodedRatingsContents` states its contents |
| Rating.DecodedRatingsContents | main.go:275-282 | after n requests the keys come from the first n time controls; a time control is present exactly when its body decoded, and it maps to exactly the decoded history |
| Rating.FetchedPlayerContents | main.go:259-283 | a successful fetch describes player `id`; its keys are among Lente, Semi-rapide and Rapide; each is present exactly when its body decoded, with that history |
| Rating.RatingRequestsShape | main.go:263-273 | request i asks for time control i with code i + 1 for the same id; every request but the last succeeds in transport, so a failed fetch stops at the first request that failed; a successful one makes exactly three requests |
| Rating.EloLine | main.go:295-301 | reference definition of one time control's line ("tc: ?" or "tc: value (date)" from the last snapshot); `Rating.RenderedOneLinePerKey` and `Rating.StringifyPlayer` state what the rendering does with it |
| Rating.RenderedPlayer | main.go:286-305 | reference definition of the text of `stringifyPlayer`; `Rating.StringifyPlayer` is proved equal to it, and `Rating.RenderedOneLinePerKey`, `Rating.LinesUpToPermutation` and `Rating.ExamplePlayerRendering` state its properties |
| Rating.StringifyPlayer | main.go:286-305 | an empty map gives "Player is either invalid or has no ELOs"; otherwise the text is the lines of the time controls, in iteration order, joined by "\n" |
| Rating.RenderedOneLinePerKey | main.go:293-304 | when the time-control labels and the last dates contain no newline, a player with ratings renders to exactly one line per time control, with no trailing newline; each line is "tc: ?" for an empty history, or "tc: value (date)" from the last snapshot |
| Rating.LinesUpToPermutation | main.go:293 | two iteration orders of the same time controls give the same lines, only permuted |
| Rating.ExamplePlayerRendering | main.go:286-305 | the declared order of the time controls is an iteration order of the example map, and a player with a Lente history ending at 1550 on 2021-01-01 and empty Semi-rapide and Rapide histories renders in that order as "Lente: 1550 (2021-01-01)\nSemi-rapide: ?\nRapide: ?" |
| AnchorScan.DigitRun | main.go:109 | the `\d+` run starting at i covers only digits and stops at a non-digit or at the end of the body |
| AnchorScan.CloseAfter | main.go:109 | the lazy `(.*?)<\/a>` stops at the first `</a>`, with no newline and no earlier `</a>` before it |
| AnchorScan.MatchAt | main.go:109 | reference definition of one match attempt of the pattern at a position; `AnchorScan.MatchAtSound` and `AnchorScan.MatchAtComplete` state that it finds exactly the instances of the pattern |
| AnchorScan.MatchAtSound | main.go:109 | every match the scanner reports is an instance of the pattern: Open, a non-empty digit group, Mid, a newline-free lazy name, Close |
| AnchorScan.MatchAtComplete | main.go:109 | every instance of the pattern is exactly the match the scanner reports at its start |
| AnchorScan.FindAll | main.go:342 | reference definition of `FindAllStringSubmatch(body, -1)` for the pattern: leftmost, non-overlapping matches; `AnchorScan.FindAllSound`, `AnchorScan.FindAllLeftmost` and `AnchorScan.FindAllDigits` state its properties |
| AnchorScan.FindAllSound | main.go:342 | the reported matches are instances of the pattern, in order and without overlap |
| AnchorScan.FindAllLeftmost | main.go:342 | no instance of the pattern is skipped: each lies inside a reported match (it is reported itself, or an earlier match overlaps it) |
| AnchorScan.FindAllDigits | main.go:342-344 | group 1 of every match is a non-empty string of decimal digits, so `ParseInt32` only ever fails on range |
| AnchorScan.ScanRendered | main.go:109 | scanning consecutive anchors whose digit groups are non-empty strings of decimal digits and whose names are lazily capturable (no newline, and no `</a>` starting within the name) gives back exactly their digit and name groups, in order |
| Search.FormFields | main.go:318-326 | the form holds FName exactly when the first name is non-empty, Name exactly when the last name is non-empty, and Matricule (the decimal id) exactly when the id is non-zero, in that order |
| Search.ParseInt32 | main.go:344 | on a non-empty digit string (leading zeros allowed), the result is the value the digits denote, which lies between 0 and 2^31 - 1, and a range error exactly when the digits denote more than 2^31 - 1 |
| Search.ParseInt32Digits | main.go:344 | parsing the `%d` rendering of an ID between 0 and 2^31 - 1 gives back that ID |
| Search.ResultsFromMatches | main.go:343-349 | reference definition of the conversion of the matches; `Search.SearchResultsFromBody` and `Search.SearchRoundTrip` state its properties, and `Search.SearchFqeMember` is proved equal to it |
| Search.SearchOutcome | main.go:330-349 | reference definition of what `searchFqeMember` returns for each outcome of its POST; `Search.SearchFqeMember` is proved equal to it, `Search.SearchResultsFromBody`, `Search.SearchRoundTrip` and `Search.JaneDoeExample` state its properties, and `EloCommand.EloCommandHandler` is stated through it |
| Search.SearchFqeMember | main.go:312-352 | the form posted is `FormFields`; a failed POST gives "Request failed"; a failed read gives "Error parsing response body"; otherwise the result is the conversion of the matches in the body |
| Search.SearchResultsFromBody | main.go:342-349 | the search fails with "Invalid FQE ID" exactly when some match's ID exceeds 2^31 - 1; otherwise result i has the name and decimal ID of match i, and there are as many results as matches |
| Search.SearchRoundTrip | main.go:342-349 | a body made of the anchors of results with IDs between 0 and 2^31 - 1 and lazily capturable names (no newline, and no `</a>` starting within the name) is read back as exactly those results |
| Search.JaneDoeExample | main.go:109 | the anchor `<a href="index.php?Id=42">Jane Doe</a>` gives the single result Jane Doe, 42 |
| EloCommand.LastValue | main.go:120-123 | reference definition of the option a name keeps in the option map; `EloCommand.LastValueIsLastOccurrence` states that it is the last occurrence |
| EloCommand.LastValueIsLastOccurrence | main.go:120-123 | an option name maps to the value of its last occurrence among the options, and is absent exactly when it never occurs |
| EloCommand.BuildOptionMap | main.go:120-123 | the option map holds exactly the names that occur, each with the value of its last occurrence |
| EloCommand.ReadOptions | main.go:129-144 | first name, last name and id are the given options, or empty or zero when absent; `margs` is empty exactly when none of the three was given |
| EloCommand.RestrictEnumerates | main.go:293 | when the player's keys are among the three time controls, an iteration order of the three time controls, restricted to those keys, is an iteration order of those keys |
| EloCommand.RestrictionsAreAllEnumerations | main.go:293 | conversely, every iteration order of keys among the three time controls is the restriction of some iteration order of all three, so the handler's contract covers every order Go may choose |
| EloCommand.FoundPlayersText | main.go:171-176 | reference definition of the reply for several players; `EloCommand.ListPlayers` is proved equal to it |
| EloCommand.ListPlayers | main.go:170-176 | with several players, the reply is "Found players:\n" followed by the "Name, ID" lines in result order, joined by "\n" |
| EloCommand.RatingBlock | main.go:160-166 | reference definition of the rating part of the single-player reply: the fetch error line, or the rendering of the fetched player; `EloCommand.DescribePlayer` is proved equal to it |
| EloCommand.SinglePlayerText | main.go:168-169 | reference definition of the single-player reply around the rating block; the replies of `EloCommand.DescribePlayer` and `EloCommand.EloCommandHandler` are proved equal to it |
| EloCommand.LenteOnlyFetch | main.go:259-284 | when only the Lente body decodes and no request fails in transport, the fetch succeeds with a player whose map holds the Lente history alone |
| EloCommand.LenteOnlyRatingBlock | main.go:160-166 | when only the Lente body decodes, to a history ending at 1550 on 2021-01-01, the rating block is the single line "Lente: 1550 (2021-01-01)": the undecodable time controls get no line |
| EloCommand.DescribePlayer | main.go:157-169 | with one player, the reply names the player and its ID, then shows its rendered ratings or the fetch error; the rating requests are those of the fetch |
| EloCommand.EloCommandHandler | main.go:146-178 | no option gives "At least one option is required!" with no search and no rating request; a failed search gives "Failed to search for player <error>\n"; no player gives "No players found! :("; several players give the list and no rating request; one player gives the fetch for its ID and the single-player reply |

## Left out

- The Discord session, command registration, handler dispatch and the `Pong!` reply (main.go:48-58, 98-108, 180-193) are calls into the Discord library. The reply text is the handler's result instead of being sent.
- `main`, flag parsing and the wait for an interrupt signal (main.go:41-50, 195-241) are process lifecycle and OS signals.
- HTTP GET and POST, `io.ReadAll` and the JSON decoding of `Elo` (main.go:265-277, 330-340) are abstract outcomes given by the server parameters.
- Rating.RatingRequest: the rating URL `json-cote.php?id=<id>&c=<code>` (main.go:264) is modelled by its two parameters, not as the URL string.
- Search.FormFields: the multipart wire encoding and its random boundary (main.go:315-328) are not modelled, only which fields are written and in what order.
- AnchorScan: general regular-expression semantics are not modelled. Only the one fixed pattern is, as a dedicated scanner.
- EloCommand.ReadOptions: `int(opt.IntValue())` goes from the platform's float through int64 to int (main.go:142). The id is modelled as an unbounded integer.
- EloCommand.EloCommandHandler: reading a string option with `IntValue` or an integer option with `StringValue` panics in the library. The handler requires well-typed options (`EloCommand.WellTyped`) rather than modelling that panic.
- Rating.GetFqePlayerRating: on a transport failure Go also returns the partly filled player, and the caller discards it (main.go:160-163). The model returns only the error. The same holds for the partial result list of `searchFqeMember` (main.go:333-346).
- Strings, including the search body that `string(respBody)` makes from the response bytes (main.go:342), are modelled as sequences of Unicode characters rather than Go's byte strings. The scan gives the same groups on valid UTF-8, because every delimiter of the pattern is ASCII. A body with invalid UTF-8 bytes cannot be represented.
- Response bodies are never closed in the source. Resource handling is not modelled.
- `NewPlayer` (main.go:255-257) only makes an empty map. The first and last name of the fetched player stay empty, as in the source.
