# Autolynx vehicle search: a Dafny model

This project models the server side of Autolynx's vehicle search.

- **VehicleSearchService** (`Autolynx.Core`):
  - The constructor reads the chat model's deployment name from configuration.
  - `BuildSearchPrompt` turns a `VehicleSearchCriteria` into a prompt.
  - `ParseVehicleResults` cuts the JSON array of listings out of the model's free-text reply and deserialises it.
  - `SearchVehiclesAsync` chains the two around the chat client call.
- **VehiclesController.SearchVehicles** (`Autolynx.Api`) runs a search through the mediator and reports to the SignalR hub, in this order:
  - a progress message;
  - every listing;
  - a completion message with the count.
  - It then answers 200 with the listings. Any exception turns into a 500.
- **LoginCommandHandler.Handle** checks that a user name and a password are present and chooses the roles: `"admin"` gets `Admin`, anyone else gets `User`. It then issues a token.

The files:

- `wrappers.dfy`: `Option` (a C# `null`able value) and `Result` (a value or the exception thrown).
- `models.dfy`: the criteria record, the listing record, and the exceptions that matter (`Fault`).
- `dotnet_text.dfy`: the .NET string operations the code relies on, stated over `seq<char>`:
  - `IsNullOrWhiteSpace`, `IsNullOrEmpty`;
  - `IndexOf`, `LastIndexOf`;
  - `Substring`, including its `ArgumentOutOfRangeException`;
  - integer formatting;
  - a `StringBuilder` class whose `AppendLine` grows a line log.
- `search_prompt.dfy`: `BuildSearchPrompt` and its specification.
  - The method appends to a `StringBuilder` exactly as the source does.
  - It is proved equal to the rendering of `PromptLines`: the preamble, then the criterion lines, then the trailer.
  - Lemmas establish which criterion lines appear, in which order, with which defaults, and that each line decodes back to its criterion.
- `result_parsing.dfy`: `ExtractJsonArray` and `ParseVehicleResults`, with the commentary-stripping, idempotence and round-trip lemmas.
- `vehicle_search_service.dfy`: the constructor's configuration check and `SearchVehiclesAsync`.
- `vehicles_controller.dfy`: the hub as a `HubClients` class with an append-only event log, and the controller as a class whose `SearchVehicles` method is proved against the specification function `SearchRun`.
- `authentication.dfy`: `LoginCommandHandler.Handle`.

The collaborators that are not part of the model are parameters. Each is an arbitrary function, so every result holds for all of them:

- the JSON deserialiser (`Deserializer`);
- the chat client (`ChatClient`);
- the mediator (`Mediator`);
- the JWT generator (`TokenGenerator`);
- whether a given hub send throws (`HubClients.faulty`);
- the current year and the culture's `:N2` money format (`RenderContext`).

## Model

| member | source | states |
|---|---|---|
| DotNetText.IsNullOrEmpty | src/Autolynx.Core/Features/Authentication/LoginCommandHandler.cs:27 | whatever is null or empty is also null-or-white-space |
| DotNetText.IntToString | src/Autolynx.Core/Services/VehicleSearchService.cs:66 | a non-empty text that starts with '-' exactly for a negative number, all decimal digits after that |
| DotNetText.IndexOf | src/Autolynx.Core/Services/VehicleSearchService.cs:114 | -1 exactly when the character is absent; otherwise its first position |
| DotNetText.LastIndexOf | src/Autolynx.Core/Services/VehicleSearchService.cs:115 | -1 exactly when the character is absent; otherwise its last position |
| DotNetText.Substring | src/Autolynx.Core/Services/VehicleSearchService.cs:123 | fails with ArgumentOutOfRange exactly when start or length is negative or the range runs past the end; otherwise exactly the `length` characters that start at `start` |
| DotNetText.DecimalDigitsRoundTrip | src/Autolynx.Core/Services/VehicleSearchService.cs:66 | the decimal digits of a non-negative number read back as the same number |
| DotNetText.IntToStringInjective | src/Autolynx.Core/Services/VehicleSearchService.cs:72 | different integers render as different text |
| DotNetText.RenderAppend | src/Autolynx.Core/Services/VehicleSearchService.cs:106 | the builder's text for two batches of lines is the text of the first followed by the text of the second |
| DotNetText.StringBuilder.AppendLine | src/Autolynx.Core/Services/VehicleSearchService.cs:55 | adds one line to the log, and the text grows by that line and a newline |
| SearchPrompt.Rank | src/Autolynx.Core/Services/VehicleSearchService.cs:59-90 | every criterion has a position in the fixed order Make, Model, Year Range, Price Range, Max Mileage, Country, Province/State, City, Postal Code, Transmission, Fuel Type |
| SearchPrompt.Present | src/Autolynx.Core/Services/VehicleSearchService.cs:59-90 | a text criterion is present only when its value is non-null and non-empty |
| SearchPrompt.Line | src/Autolynx.Core/Services/VehicleSearchService.cs:59-90 | a text criterion's line ends with the given value, verbatim |
| SearchPrompt.LineLabelled | src/Autolynx.Core/Services/VehicleSearchService.cs:59-90 | every criterion line starts with its label followed by ':' |
| SearchPrompt.MileageLineInjective | src/Autolynx.Core/Services/VehicleSearchService.cs:71-72 | two criteria give the same mileage line if and only if their maximum mileages agree |
| SearchPrompt.YearLineInjective | src/Autolynx.Core/Services/VehicleSearchService.cs:65-66 | two criteria give the same year line if and only if both bounds agree once 1900 and the current year fill the missing ones |
| SearchPrompt.FilterSpec | src/Autolynx.Core/Services/VehicleSearchService.cs:59-90 | the guarded criteria keep exactly those that pass their guard, at most once each, in strictly increasing position |
| SearchPrompt.SectionLines | src/Autolynx.Core/Services/VehicleSearchService.cs:59-90 | the criterion lines are the lines of the present criteria, taken in order |
| SearchPrompt.LabelDecodes | src/Autolynx.Core/Services/VehicleSearchService.cs:59-90 | no label contains ':', and every label reads back as its own criterion |
| SearchPrompt.LineDecodes | src/Autolynx.Core/Services/VehicleSearchService.cs:59-90 | the text before the first ':' of a criterion line names the criterion that wrote it |
| SearchPrompt.LineInjective | src/Autolynx.Core/Services/VehicleSearchService.cs:59-90 | two criteria write the same line if and only if they are the same criterion |
| SearchPrompt.SectionEntries | src/Autolynx.Core/Services/VehicleSearchService.cs:59-90 | the i-th criterion line is the line of the i-th present criterion, and decodes to it |
| SearchPrompt.SectionMembership | src/Autolynx.Core/Services/VehicleSearchService.cs:59-90 | a criterion's line is among the appended criterion lines if and only if the criterion is present: text that is not null or blank, a range with either bound set, or a mileage that is set |
| SearchPrompt.PresentInSection | src/Autolynx.Core/Services/VehicleSearchService.cs:59-90 | a present criterion's line is written |
| SearchPrompt.OnlyPresentInSection | src/Autolynx.Core/Services/VehicleSearchService.cs:59-90 | a criterion whose line is written is present |
| SearchPrompt.SectionOrdered | src/Autolynx.Core/Services/VehicleSearchService.cs:59-90 | every criterion line names a present criterion; the lines follow the fixed order; there are at most eleven |
| SearchPrompt.SectionDistinct | src/Autolynx.Core/Services/VehicleSearchService.cs:59-90 | no criterion line is written twice |
| SearchPrompt.SectionCongruent | src/Autolynx.Core/Services/VehicleSearchService.cs:59-90 | criteria whose guards and lines agree for every criterion yield the same criterion lines |
| SearchPrompt.YearMinDefault | src/Autolynx.Core/Services/VehicleSearchService.cs:66 | when only the upper year is given, the prompt is the one for a lower year of 1900 |
| SearchPrompt.YearMaxDefault | src/Autolynx.Core/Services/VehicleSearchService.cs:66 | when only the lower year is given, the prompt is the one for an upper year equal to the current year |
| SearchPrompt.PriceMinDefault | src/Autolynx.Core/Services/VehicleSearchService.cs:69 | when only the upper price is given, the prompt is the one for a lower price of 0 |
| SearchPrompt.PriceMaxDefault | src/Autolynx.Core/Services/VehicleSearchService.cs:69 | when only the lower price is given, the prompt is the one for an upper price of 999999 |
| SearchPrompt.BlankTextOmitted | src/Autolynx.Core/Services/VehicleSearchService.cs:59-63 | a text criterion that is empty or all white space gives the same prompt as one that is null |
| SearchPrompt.PromptFrame | src/Autolynx.Core/Services/VehicleSearchService.cs:54-106 | the prompt is the fixed preamble (two lines and a blank), then the criterion lines, then the fixed trailer ending "Return results as a JSON array of vehicle objects.", each line ended by a newline |
| SearchPrompt.AppendCriterion | src/Autolynx.Core/Services/VehicleSearchService.cs:59-90 | one guarded append adds the criterion's line when the criterion is present, and nothing otherwise |
| SearchPrompt.BuildSearchPrompt | src/Autolynx.Core/Services/VehicleSearchService.cs:52-107 | the returned text is the rendering of the preamble, the present criterion lines in order, and the trailer |
| ResultParsing.ExtractJsonArray | src/Autolynx.Core/Services/VehicleSearchService.cs:114-123 | no array exactly when '[' or ']' is missing; out of range exactly when both are present and the last ']' lies more than one position before the first '['; otherwise the text that starts at the first '[', is as long as the distance from the first '[' to the last ']' plus one, and, when not empty, ends at that ']' |
| ResultParsing.ExtractOutOfRangeIff | src/Autolynx.Core/Services/VehicleSearchService.cs:114-123 | extraction throws exactly when the reply holds both a '[' and a ']' and every ']' lies more than one position before every '[' |
| ResultParsing.ExtractSpanShape | src/Autolynx.Core/Services/VehicleSearchService.cs:114-123 | a non-empty extracted text starts with '[' and ends with ']'; no '[' precedes it and no ']' follows it in the reply |
| ResultParsing.ParseVehicleResults | src/Autolynx.Core/Services/VehicleSearchService.cs:109-136 | fails, with ArgumentOutOfRange, exactly when the Substring length is negative; empty list when a bracket is missing; otherwise the list the deserialiser made of the extracted text, or the empty list when it gives null or a JSON error |
| ResultParsing.ExtractIgnoresCommentary | src/Autolynx.Core/Services/VehicleSearchService.cs:114-123 | for an array between text with no '[' before it and no ']' after it, exactly the array is extracted |
| ResultParsing.ExtractPassesArrayThrough | src/Autolynx.Core/Services/VehicleSearchService.cs:114-123 | a reply that starts with '[' and ends with ']' is handed over whole |
| ResultParsing.ExtractIdempotent | src/Autolynx.Core/Services/VehicleSearchService.cs:114-123 | extracting again from a non-empty extracted text gives it back unchanged |
| ResultParsing.ParseIgnoresCommentary | src/Autolynx.Core/Services/VehicleSearchService.cs:123-134 | with commentary around the array, the result is the deserialised list, or the empty list on null or a JSON error |
| ResultParsing.SerializedListRoundTrip | test/Autolynx.Testing/Fakes/FakeOpenAIClientWrapper.cs:66-70 | a reply that is a serialised list parses back to that list |
| ResultParsing.ReversedBracketsEscape | src/Autolynx.Core/Services/VehicleSearchService.cs:123-135 | the reply "a]b[" is not absorbed into an empty list; it fails with ArgumentOutOfRange |
| ResultParsing.AdjacentReversedBracketsGiveEmptyText | src/Autolynx.Core/Services/VehicleSearchService.cs:123 | for "][" the deserialiser is handed the empty text |
| SearchService.NewVehicleSearchService | src/Autolynx.Core/Services/VehicleSearchService.cs:20-28 | fails with InvalidOperation("AzureOpenAI:DeploymentName is not configured") exactly when the key is absent; otherwise keeps the client and the configured name |
| SearchService.EmptyDeploymentNameAccepted | src/Autolynx.Core/Services/VehicleSearchService.cs:27 | an empty configured deployment name does not make construction fail |
| SearchService.SearchResult | src/Autolynx.Core/Services/VehicleSearchService.cs:30-50 | a search fails only with the chat client's exception or with ArgumentOutOfRange |
| SearchService.SearchVehiclesAsync | src/Autolynx.Core/Services/VehicleSearchService.cs:30-50 | the result is the parse of the client's reply to the built prompt under the configured name; a client exception is rethrown |
| SearchService.FakeClientSearch | test/Autolynx.Core.UnitTests/VehicleSearchServiceTests.cs:31-55 | a client that answers with a serialised list makes the search return exactly that list, whatever the criteria |
| SearchService.SearchFailures | src/Autolynx.Core/Services/VehicleSearchService.cs:36-49 | the search fails exactly when the client throws or the reply's last ']' lies more than one position before its first '['; client exceptions are rethrown unchanged |
| SearchService.ReversedBracketReplyEscapes | src/Autolynx.Core/Services/VehicleSearchService.cs:45-49 | the reply "a]b[" makes the search throw ArgumentOutOfRange |
| VehiclesController.HubClients.SendAsync | src/Autolynx.Api/Controllers/VehiclesController.cs:52 | every attempt is counted; the event is appended to the log exactly when that attempt does not throw |
| VehiclesController.ResultEvents | src/Autolynx.Api/Controllers/VehiclesController.cs:58-61 | one result event per listing, in list order |
| VehiclesController.SearchEvents | src/Autolynx.Api/Controllers/VehiclesController.cs:52-64 | the progress message comes first; it is the only event when the mediator throws; otherwise there is one event per listing more plus the completion, last, with the listing count |
| VehiclesController.SearchRun | src/Autolynx.Api/Controllers/VehiclesController.cs:47-72 | the delivered events are a prefix of the endpoint's events, and at most one send attempt fails |
| VehiclesController.DeliveredSpec | src/Autolynx.Api/Controllers/VehiclesController.cs:47-72 | the counted sends all succeed, and the next one, if any, throws |
| VehiclesController.DeliveredAt | src/Autolynx.Api/Controllers/VehiclesController.cs:58-61 | once i sends are known to succeed, the count stops at i exactly when send i throws |
| VehiclesController.DeliveredSplit | src/Autolynx.Api/Controllers/VehiclesController.cs:47-72 | a batch of sends stops inside its first part, or else goes on with the second part |
| VehiclesController.VehiclesControllerState.SearchVehicles | src/Autolynx.Api/Controllers/VehiclesController.cs:43-73 | appends to the hub log what SearchRun delivers, makes the send attempts SearchRun counts, and returns SearchRun's response |
| VehiclesController.VehiclesControllerState.SendResults | src/Autolynx.Api/Controllers/VehiclesController.cs:58-61 | the loop delivers the result events in order up to the first send that throws, and then stops |
| VehiclesController.RunProgressFails | src/Autolynx.Api/Controllers/VehiclesController.cs:52 | if the progress send throws, nothing is delivered, the mediator's answer is not used, and the response is the 500 |
| VehiclesController.RunMediatorFails | src/Autolynx.Api/Controllers/VehiclesController.cs:55 | if the mediator throws, only the progress message is delivered and the response is the 500 |
| VehiclesController.RunResultFails | src/Autolynx.Api/Controllers/VehiclesController.cs:58-61 | if a result send throws, the progress and the earlier listings are delivered, with no completion and a 500 |
| VehiclesController.RunCompleteFails | src/Autolynx.Api/Controllers/VehiclesController.cs:64 | if only the completion send throws, everything except the completion is delivered, and the response is the 500 |
| VehiclesController.RunSucceeds | src/Autolynx.Api/Controllers/VehiclesController.cs:52-66 | with no failure, the log gets the progress, every listing and the completion with the count, and the response is Ok with the mediator's list |
| VehiclesController.RunDeliversPrefix | src/Autolynx.Api/Controllers/VehiclesController.cs:47-72 | in every run, the delivered events are the endpoint's events in order up to the first send that throws, and no send is attempted after it |
| VehiclesController.RunOkIff | src/Autolynx.Api/Controllers/VehiclesController.cs:55-72 | the response is Ok if and only if the mediator answers and no send throws; Ok carries the mediator's list unchanged after every event was delivered; any other response is 500 with the fixed message |
| VehiclesController.ProgressFirstAndOnce | src/Autolynx.Api/Controllers/VehiclesController.cs:52-55 | the progress message is the first event and the only progress event |
| VehiclesController.ResultsThenCompletion | src/Autolynx.Api/Controllers/VehiclesController.cs:58-64 | one result event per listing in list order, then the completion, whose count equals the number of result events |
| VehiclesController.CountResultEvents | src/Autolynx.Api/Controllers/VehiclesController.cs:64 | the result events number exactly as many as the listings |
| VehiclesController.MediatorFailureSendsOnlyProgress | src/Autolynx.Api/Controllers/VehiclesController.cs:52-55 | when the mediator throws, the progress message is the only event |
| VehiclesController.NoFaultDeliversAll | src/Autolynx.Api/Controllers/VehiclesController.cs:52-64 | when no send throws, every event is delivered |
| Authentication.RolesFor | src/Autolynx.Core/Features/Authentication/LoginCommandHandler.cs:33-41 | exactly one role; Admin if and only if the user name is exactly "admin"; User if and only if it is not |
| Authentication.CredentialsPresent | src/Autolynx.Core/Features/Authentication/LoginCommandHandler.cs:27 | credentials that pass the check are non-null |
| Authentication.Handle | src/Autolynx.Core/Features/Authentication/LoginCommandHandler.cs:23-51 | throws UnauthorizedAccess("Invalid credentials") exactly when the user name or the password is null or empty; otherwise asks the token generator for a token for the request's user name and its roles, rethrows the generator's exception, and answers with that user name, those roles and the token |
| Authentication.AdminMatchIsCaseSensitive | src/Autolynx.Core/Features/Authentication/LoginCommandHandler.cs:34 | "Admin", "ADMIN" and "admin " are ordinary users |
| Authentication.WhitespaceUsernameAccepted | src/Autolynx.Core/Features/Authentication/LoginCommandHandler.cs:27 | a user name of one space is null-or-white-space, yet it passes the check and gets the User role |
| Authentication.AnyPasswordAccepted | src/Autolynx.Core/Features/Authentication/LoginCommandHandler.cs:27 | any non-empty user name with any non-empty password passes the check |

## Left out

- Logging, `async`/`await` and `CancellationToken`: calls are modelled as sequential steps that either return or throw.
- JSON (de)serialisation with System.Text.Json is the `Deserializer` parameter, with three outcomes: a list, the JSON `null`, or a `JsonException`. Case-insensitive property matching lies behind it.
- The Azure OpenAI client is the `ChatClient` parameter. Its exceptions carry only a description.
- `DateTime.Now.Year` and the culture-dependent `:N2` format are fields of `RenderContext`.
  - The default upper price 999999 is handed to the formatter as the number 999999.0, not as formatted text.
  - Integers (years, mileage) are rendered as invariant-culture decimal digits with a leading '-' when negative.
- `AppendLine` ends lines with "\n", as `Environment.NewLine` does on Linux. Windows' "\r\n" is not modelled.
- `IConfiguration` is a `map<string, string>` with exact key matching. Configuration key lookup in .NET ignores case, and that is not modelled.
- The constructors' `ArgumentNullException` checks for the client, the logger, the mediator and the hub are not modelled, because every parameter here is non-null by type.
- Int32 widths of years, mileage and the listing count are not modelled; integers are unbounded.
- `SearchPrompt.BuildSearchPrompt`:
  - Each of its eleven guarded appends is written once, in `SearchPrompt.AppendCriterion`, which it calls in the source's order.
  - The whitespace test is `Char.IsWhiteSpace` over the characters listed in `DotNetText.IsWhiteSpace`.
- `VehiclesController.VehiclesControllerState.SearchVehicles`:
  - Its `foreach` is the helper method `SendResults`.
  - A hub send that throws is modelled as delivering nothing. Delivery to some clients before the throw is not modelled.
  - The listing list is a value: the mediator cannot change it after returning it.
- `GenerateJwtToken` (LoginCommandHandler.cs lines 53-79) is the `TokenGenerator` parameter. It may fail (an empty or short signing key, for instance), and `Handle` passes that failure on. Signing keys, claims, `Guid.NewGuid` and expiry are not modelled. AuthController's mapping of such a failure to a 500 is not part of this model.
- A deserialised list is a sequence of listings; a `null` element inside it (the JSON text `[null]`) is not representable, and the model does not cover it.
- `ParseVehicleResults` turns only `JsonException` into an empty list (VehicleSearchService.cs line 131). When the last ']' lies more than one position before the first '[', `Substring` (line 123) throws `ArgumentOutOfRangeException`, and `SearchVehiclesAsync` rethrows it (lines 45-49). The model follows the code (`ResultParsing.ReversedBracketsEscape`).
- The unit tests in VehicleSearchServiceTests.cs construct the service from `IOptions<AzureOpenAIOptions>`, and one of them expects an empty deployment name to throw. The model follows the constructor that takes `IConfiguration`, which throws only when the name is absent (`SearchService.EmptyDeploymentNameAccepted`).
- SearchVehiclesQueryHandler, the SignalR hub class, AuthController, the OpenAI and Bing client wrappers, persistence, hosting and the web front end are not part of this model.
