/** VehicleSearchService.ParseVehicleResults: recovering the listing array
    from the chat model's free-text reply. */
module ResultParsing {
  import opened Wrappers
  import opened Models
  import opened DotNetText

  /** What JsonSerializer.Deserialize<List<VehicleSearchResultDto>> makes of
      a text: a list, the JSON literal null, or a JsonException. */
  datatype JsonOutcome =
    | Parsed(listings: seq<VehicleSearchResultDto>)
    | ParsedNull
    | JsonError

  /** The JSON deserialiser, with case-insensitive property names. */
  type Deserializer = string -> JsonOutcome

  /** The outcome of cutting the array out of a reply: no '[' or no ']', the
      text from the first '[' to the last ']', or a Substring call whose
      length is negative because the last ']' lies more than one position
      before the first '['. */
  datatype Extraction = NoArray | Span(text: string) | OutOfRange

  /** The text from the first '[' to the last ']' of a reply, both included,
      taken with String.Substring. */
  function ExtractJsonArray(responseContent: string): (e: Extraction)
    ensures e.NoArray? <==> '[' !in responseContent || ']' !in responseContent
    ensures e.OutOfRange? <==>
              '[' in responseContent && ']' in responseContent &&
              LastIndexOf(responseContent, ']') < IndexOf(responseContent, '[') - 1
    ensures e.Span? ==>
              var start := IndexOf(responseContent, '[');
              0 <= start && start + |e.text| <= |responseContent| &&
              e.text == responseContent[start..start + |e.text|] &&
              (e.text != [] ==> LastIndexOf(responseContent, ']') == start + |e.text| - 1)
    ensures e.Span? ==> |e.text| == LastIndexOf(responseContent, ']') - IndexOf(responseContent, '[') + 1
  {
    var jsonStart := IndexOf(responseContent, '[');
    var jsonEnd := LastIndexOf(responseContent, ']');
    if jsonStart == -1 || jsonEnd == -1 then NoArray
    else
      match Substring(responseContent, jsonStart, jsonEnd - jsonStart + 1)
      case Success(jsonContent) => Span(jsonContent)
      case Failure(_) => OutOfRange
  }

  /** The extraction fails exactly when the reply holds both brackets and
      every ']' of it lies more than one position before every '['. */
  lemma ExtractOutOfRangeIff(s: string)
    ensures ExtractJsonArray(s).OutOfRange? <==>
              '[' in s && ']' in s &&
              forall i, j :: 0 <= i < |s| && 0 <= j < |s| && s[i] == ']' && s[j] == '[' ==> i < j - 1
  {
    if '[' in s && ']' in s {
      var first := IndexOf(s, '[');
      var last := LastIndexOf(s, ']');
      forall i, j | 0 <= i < |s| && 0 <= j < |s| && s[i] == ']' && s[j] == '['
        ensures i <= last && first <= j
      {
      }
    }
  }

  lemma SplitAround(s: string, i: nat, j: nat)
    requires i <= j <= |s|
    ensures s == s[..i] + s[i..j] + s[j..]
  {
  }

  /** A non-empty extracted text is the part of the reply from its first '['
      to its last ']': it starts with '[', ends with ']', no '[' precedes it
      and no ']' follows it. */
  lemma ExtractSpanShape(s: string, t: string)
    requires ExtractJsonArray(s) == Span(t) && t != []
    ensures |t| >= 2 && t[0] == '[' && t[|t| - 1] == ']'
    ensures s == s[..IndexOf(s, '[')] + t + s[IndexOf(s, '[') + |t|..]
    ensures '[' !in s[..IndexOf(s, '[')] && ']' !in s[IndexOf(s, '[') + |t|..]
  {
    SpanBetween(s, IndexOf(s, '['), t, LastIndexOf(s, ']'));
  }

  /** The shape of a slice that runs from a first '[' to a last ']'. */
  lemma SpanBetween(s: string, start: int, t: string, last: int)
    requires 0 <= start && start + |t| <= |s| && t != [] && t == s[start..start + |t|]
    requires s[start] == '[' && '[' !in s[..start]
    requires last == start + |t| - 1 && s[last] == ']' && ']' !in s[last + 1..]
    ensures |t| >= 2 && t[0] == '[' && t[|t| - 1] == ']'
    ensures s == s[..start] + t + s[start + |t|..]
    ensures '[' !in s[..start] && ']' !in s[start + |t|..]
  {
    assert t[0] == s[start];
    assert t[|t| - 1] == s[last];
    SplitAround(s, start, last + 1);
  }

  /** ParseVehicleResults: the deserialised array, or an empty list when the
      reply holds no array, the array text is not JSON, or it is the JSON
      null. A negative Substring length is not a JsonException, so it is
      not absorbed. */
  function ParseVehicleResults(responseContent: string, deserialize: Deserializer): (r: Result<seq<VehicleSearchResultDto>, Fault>)
    ensures r.Failure? <==> ExtractJsonArray(responseContent).OutOfRange?
    ensures r.Failure? ==> r.error == ArgumentOutOfRange
    ensures '[' !in responseContent || ']' !in responseContent ==> r == Success([])
    ensures r.Success? && r.value != [] ==>
              ExtractJsonArray(responseContent).Span? &&
              deserialize(ExtractJsonArray(responseContent).text) == Parsed(r.value)
    ensures ExtractJsonArray(responseContent).Span? && deserialize(ExtractJsonArray(responseContent).text).Parsed? ==>
              r == Success(deserialize(ExtractJsonArray(responseContent).text).listings)
    ensures ExtractJsonArray(responseContent).Span? && !deserialize(ExtractJsonArray(responseContent).text).Parsed? ==>
              r == Success([])
  {
    match ExtractJsonArray(responseContent)
    case NoArray => Success([])
    case OutOfRange => Failure(ArgumentOutOfRange)
    case Span(jsonContent) =>
      match deserialize(jsonContent)
      case Parsed(results) => Success(results)
      case ParsedNull => Success([])
      case JsonError => Success([])
  }

  /** Commentary around the array is ignored: whatever precedes the array
      without a '[' and whatever follows it without a ']' is cut away. */
  lemma ExtractIgnoresCommentary(before: string, body: string, after: string)
    requires |body| >= 2 && body[0] == '[' && body[|body| - 1] == ']'
    requires '[' !in before && ']' !in after
    ensures ExtractJsonArray(before + body + after) == Span(body)
  {
    var s := before + body + after;
    var start := |before|;
    var end := |before| + |body| - 1;
    assert s[start] == '[' && s[..start] == before;
    assert IndexOf(s, '[') == start;
    assert s[end] == ']' && s[end + 1..] == after;
    assert LastIndexOf(s, ']') == end;
    assert s[start..end + 1] == body;
  }

  /** A reply that already starts with '[' and ends with ']' is handed to the
      deserialiser whole. */
  lemma ExtractPassesArrayThrough(s: string)
    requires |s| >= 2 && s[0] == '[' && s[|s| - 1] == ']'
    ensures ExtractJsonArray(s) == Span(s)
  {
    ExtractIgnoresCommentary([], s, []);
    assert [] + s + [] == s;
  }

  /** Extraction is idempotent on a non-empty span: extracting again from
      it changes nothing. (The empty span of "][" extracts to no array.) */
  lemma ExtractIdempotent(s: string)
    requires ExtractJsonArray(s).Span? && ExtractJsonArray(s).text != []
    ensures ExtractJsonArray(ExtractJsonArray(s).text) == ExtractJsonArray(s)
  {
    ExtractSpanShape(s, ExtractJsonArray(s).text);
    ExtractPassesArrayThrough(ExtractJsonArray(s).text);
  }

  /** What the deserialiser says about the array text decides the result:
      a list is returned as is, anything else becomes the empty list. */
  lemma ParseIgnoresCommentary(before: string, body: string, after: string, deserialize: Deserializer)
    requires |body| >= 2 && body[0] == '[' && body[|body| - 1] == ']'
    requires '[' !in before && ']' !in after
    ensures ParseVehicleResults(before + body + after, deserialize)
         == Success(if deserialize(body).Parsed? then deserialize(body).listings else [])
  {
    ExtractIgnoresCommentary(before, body, after);
  }

  /** The round trip the fake chat client relies on: a reply that is the
      serialised list itself parses back to that list. */
  lemma SerializedListRoundTrip(listings: seq<VehicleSearchResultDto>, serialize: seq<VehicleSearchResultDto> -> string,
                                deserialize: Deserializer)
    requires var text := serialize(listings); |text| >= 2 && text[0] == '[' && text[|text| - 1] == ']'
    requires deserialize(serialize(listings)) == Parsed(listings)
    ensures ParseVehicleResults(serialize(listings), deserialize) == Success(listings)
  {
    ExtractPassesArrayThrough(serialize(listings));
  }

  /** A reply whose only ']' comes well before its only '[' escapes as
      ArgumentOutOfRangeException instead of becoming an empty list. */
  lemma ReversedBracketsEscape(deserialize: Deserializer)
    ensures ParseVehicleResults("a]b[", deserialize) == Failure(ArgumentOutOfRange)
  {
    var s := "a]b[";
    assert IndexOf(s, '[') == 3;
    assert LastIndexOf(s, ']') == 1;
  }

  /** When the last ']' sits right before the first '[', the deserialiser is
      handed the empty text. */
  lemma AdjacentReversedBracketsGiveEmptyText()
    ensures ExtractJsonArray("][") == Span("")
  {
    var s := "][";
    assert IndexOf(s, '[') == 1;
    assert LastIndexOf(s, ']') == 0;
  }
}
