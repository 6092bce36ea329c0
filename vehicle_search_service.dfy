/** VehicleSearchService: the constructor's configuration check and
    SearchVehiclesAsync, which sends the prompt to the chat model and parses
    its reply. */
module SearchService {
  import opened Wrappers
  import opened Models
  import opened DotNetText
  import opened SearchPrompt
  import opened ResultParsing

  /** What IOpenAIClientWrapper.GetChatCompletionAsync gives back: the reply
      text, or the exception it threw. */
  datatype ChatReply = Reply(content: string) | ClientFault(description: string)

  /** The chat client, called with the deployment name and the prompt. */
  type ChatClient = (string, string) -> ChatReply

  /** IConfiguration: the value stored under a key; a key that is not there
      reads as null. */
  type Configuration = map<string, string>

  const DeploymentNameKey: string := "AzureOpenAI:DeploymentName"
  const NotConfiguredMessage: string := "AzureOpenAI:DeploymentName is not configured"

  /** The service's read-only fields. */
  datatype VehicleSearchService = VehicleSearchService(openAIClient: ChatClient, deploymentName: string)

  /** The constructor: it throws InvalidOperationException exactly when the
      deployment name is not configured; any configured value, the empty
      string included, is kept. */
  function NewVehicleSearchService(openAIClient: ChatClient, configuration: Configuration): (r: Result<VehicleSearchService, Fault>)
    ensures r.Failure? <==> DeploymentNameKey !in configuration
    ensures r.Failure? ==> r.error == InvalidOperation(NotConfiguredMessage)
    ensures r.Success? ==> r.value.openAIClient == openAIClient
                           && r.value.deploymentName == configuration[DeploymentNameKey]
  {
    if DeploymentNameKey in configuration then
      Success(VehicleSearchService(openAIClient, configuration[DeploymentNameKey]))
    else
      Failure(InvalidOperation(NotConfiguredMessage))
  }

  /** An empty deployment name does not make construction fail. */
  lemma EmptyDeploymentNameAccepted(openAIClient: ChatClient, configuration: Configuration)
    requires DeploymentNameKey in configuration && configuration[DeploymentNameKey] == ""
    ensures NewVehicleSearchService(openAIClient, configuration).Success?
    ensures NewVehicleSearchService(openAIClient, configuration).value.deploymentName == ""
  {
  }

  /** What a search yields: the chat client is asked, under the configured
      deployment name, with the prompt built from the criteria; its exception
      is rethrown, and its reply is parsed. */
  function SearchResult(service: VehicleSearchService, criteria: VehicleSearchCriteria,
                        ctx: RenderContext, deserialize: Deserializer): (r: SearchOutcome)
    ensures r.Failure? ==> r.error.External? || r.error == ArgumentOutOfRange
  {
    match service.openAIClient(service.deploymentName, Render(PromptLines(criteria, ctx)))
    case ClientFault(description) => Failure(External(description))
    case Reply(response) => ParseVehicleResults(response, deserialize)
  }

  /** SearchVehiclesAsync. */
  method SearchVehiclesAsync(service: VehicleSearchService, criteria: VehicleSearchCriteria,
                             ctx: RenderContext, deserialize: Deserializer) returns (r: SearchOutcome)
    ensures r == SearchResult(service, criteria, ctx, deserialize)
  {
    var prompt := BuildSearchPrompt(criteria, ctx);
    var response := service.openAIClient(service.deploymentName, prompt);
    match response
    case ClientFault(description) =>
      r := Failure(External(description));
    case Reply(content) =>
      r := ParseVehicleResults(content, deserialize);
  }

  /** With a chat client that answers every prompt with the serialised
      listings, the search returns exactly those listings, whatever the
      criteria. */
  lemma FakeClientSearch(service: VehicleSearchService, criteria: VehicleSearchCriteria, ctx: RenderContext,
                         listings: seq<VehicleSearchResultDto>,
                         serialize: seq<VehicleSearchResultDto> -> string, deserialize: Deserializer)
    requires forall deploymentName, prompt :: service.openAIClient(deploymentName, prompt) == Reply(serialize(listings))
    requires var text := serialize(listings); |text| >= 2 && text[0] == '[' && text[|text| - 1] == ']'
    requires deserialize(serialize(listings)) == Parsed(listings)
    ensures SearchResult(service, criteria, ctx, deserialize) == Success(listings)
  {
    SerializedListRoundTrip(listings, serialize, deserialize);
  }

  /** The search fails exactly when the client throws or the reply has its
      last ']' more than one position before its first '['; the client's
      exception is rethrown unchanged. */
  lemma SearchFailures(service: VehicleSearchService, criteria: VehicleSearchCriteria,
                       ctx: RenderContext, deserialize: Deserializer)
    ensures var reply := service.openAIClient(service.deploymentName, Render(PromptLines(criteria, ctx)));
            var r := SearchResult(service, criteria, ctx, deserialize);
            (r.Failure? <==> reply.ClientFault? || ExtractJsonArray(reply.content).OutOfRange?) &&
            (reply.ClientFault? ==> r == Failure(External(reply.description))) &&
            (reply.Reply? && r.Failure? ==> r.error == ArgumentOutOfRange)
  {
  }

  /** A reply whose only ']' lies well before its only '[' escapes the search as
      ArgumentOutOfRangeException. */
  lemma ReversedBracketReplyEscapes(service: VehicleSearchService, criteria: VehicleSearchCriteria,
                                    ctx: RenderContext, deserialize: Deserializer)
    requires service.openAIClient(service.deploymentName, Render(PromptLines(criteria, ctx))) == Reply("a]b[")
    ensures SearchResult(service, criteria, ctx, deserialize) == Failure(ArgumentOutOfRange)
  {
    ReversedBracketsEscape(deserialize);
  }
}
