/** The two client functions around the remote image model: payload
    cleaning, prompt construction, the missing-key guard, the remote call
    (an oracle) and the extraction of the first inline image of the reply. */
module GeminiService {
  import opened Wrappers

  const Model := "gemini-2.5-flash-image"

  /** The alternatives of the data-URL pattern, in the order they are tried. */
  const ImageSubtypes: seq<string> := ["png", "jpeg", "jpg", "webp"]

  /** The prefix put in front of every returned payload. */
  const PngDataUrlPrefix := "data:image/png;base64,"

  /** The fixed sentence appended to every generation prompt. */
  const ConsistencyInstruction := " Maintain strict visual consistency with the provided object. The product should look exactly like the source image but seamlessly integrated into the new environment."

  const EditPrefix := "Edit the following image: "
  const EditSuffix := ". Return the modified image."

  // ---------------------------------------------------------------------
  // Payload cleaning

  function DataUrlPrefix(subtype: string): string {
    "data:image/" + subtype + ";base64,"
  }

  /** The prefix `^data:image/(png|jpeg|jpg|webp);base64,` matches at the
      start of `s`, if any; the alternatives are tried in order. */
  function MatchedPrefix(s: string): Option<string> {
    if DataUrlPrefix("png") <= s then Some(DataUrlPrefix("png"))
    else if DataUrlPrefix("jpeg") <= s then Some(DataUrlPrefix("jpeg"))
    else if DataUrlPrefix("jpg") <= s then Some(DataUrlPrefix("jpg"))
    else if DataUrlPrefix("webp") <= s then Some(DataUrlPrefix("webp"))
    else None
  }

  /** A match is the prefix for one of the four subtypes and starts `s`;
      there is no match exactly when no subtype's prefix starts `s`. */
  lemma MatchedPrefixIsAlternative(s: string)
    ensures MatchedPrefix(s).Some? ==> MatchedPrefix(s).value <= s
    ensures MatchedPrefix(s).Some? ==> exists t :: t in ImageSubtypes && MatchedPrefix(s).value == DataUrlPrefix(t)
    ensures MatchedPrefix(s).None? <==> forall t :: t in ImageSubtypes ==> !(DataUrlPrefix(t) <= s)
  {
  }

  /** `cleanBase64`: removes one anchored data-URL prefix, if present. */
  function CleanBase64(s: string): string {
    match MatchedPrefix(s)
    case Some(p) => s[|p|..]
    case None => s
  }

  /** The cleaned payload is a suffix of the input: with a match, the
      input is the matched prefix followed by the result; otherwise the
      input comes back unchanged. */
  lemma CleanBase64Strips(s: string)
    ensures |CleanBase64(s)| <= |s| && CleanBase64(s) == s[|s| - |CleanBase64(s)|..]
    ensures MatchedPrefix(s).Some? ==> s == MatchedPrefix(s).value + CleanBase64(s)
    ensures MatchedPrefix(s).None? ==> CleanBase64(s) == s
  {
    MatchedPrefixIsAlternative(s);
  }

  /** At most one alternative of the pattern can match a given string, so
      the order in which they are tried does not matter. */
  lemma PrefixAlternativesExclusive(s: string, t1: string, t2: string)
    requires t1 in ImageSubtypes && t2 in ImageSubtypes
    requires DataUrlPrefix(t1) <= s && DataUrlPrefix(t2) <= s
    ensures t1 == t2
  {
    // The subtypes already differ in their first or third letter, and the
    // prefix shows those letters at positions 11 and 13.
    var p1, p2 := DataUrlPrefix(t1), DataUrlPrefix(t2);
    assert p1[11] == t1[0] && p1[13] == t1[2];
    assert p2[11] == t2[0] && p2[13] == t2[2];
    assert p1[11] == s[11] == p2[11];
    assert p1[13] == s[13] == p2[13];
  }

  /** The data URL every successful call returns. */
  function WrapPng(data: string): string {
    PngDataUrlPrefix + data
  }

  /** Round trip: cleaning a returned data URL gives back the raw payload. */
  lemma CleanUnwrapsPng(data: string)
    ensures CleanBase64(WrapPng(data)) == data
  {
    assert DataUrlPrefix("png") == PngDataUrlPrefix;
    assert PngDataUrlPrefix <= WrapPng(data);
  }

  /** Exactly one prefix is removed: a doubly wrapped payload keeps one. */
  lemma CleanStripsOnlyOnce(data: string)
    ensures CleanBase64(WrapPng(WrapPng(data))) == WrapPng(data)
  {
    assert WrapPng(WrapPng(data)) == WrapPng(PngDataUrlPrefix + data);
    CleanUnwrapsPng(PngDataUrlPrefix + data);
  }

  // ---------------------------------------------------------------------
  // Prompt texts

  /** The text part of a generation request. */
  function GenerationText(prompt: string): string {
    prompt + ConsistencyInstruction
  }

  /** The text part of an edit request. */
  function EditText(instruction: string): string {
    EditPrefix + instruction + EditSuffix
  }

  /** The generation text determines the prompt it was built from. */
  lemma GenerationTextInjective(a: string, b: string)
    requires GenerationText(a) == GenerationText(b)
    ensures a == b
  {
    assert |a| == |b|;
    assert a == GenerationText(a)[..|a|];
    assert b == GenerationText(b)[..|b|];
  }

  /** The edit text determines the instruction it was built from. */
  lemma EditTextInjective(a: string, b: string)
    requires EditText(a) == EditText(b)
    ensures a == b
  {
    var n := |EditPrefix|;
    assert |a| == |b|;
    assert a == EditText(a)[n..n + |a|];
    assert b == EditText(b)[n..n + |b|];
  }

  // ---------------------------------------------------------------------
  // Requests, replies and the remote oracle

  datatype Request = Request(model: string, text: string, mimeType: string, data: string)

  datatype InlineData = InlineData(mimeType: string, data: string)

  datatype Part = Part(text: Option<string>, inlineData: Option<InlineData>)

  datatype Content = Content(parts: Option<seq<Part>>)

  datatype Candidate = Candidate(content: Option<Content>)

  datatype Response = Response(candidates: Option<seq<Candidate>>)

  /** How the remote call settles: a response, or a rejected promise. */
  datatype Reply = Delivered(response: Response) | Rejected(message: string)

  /** The configured key and the remote model, seen as an oracle from the
      request it is sent to the way it settles. */
  datatype Client = Client(apiKey: string, remote: Request -> Reply)

  datatype ServiceError = MissingApiKey | CallFailed(message: string) | NoImageInResponse

  /** `process.env.API_KEY || ''` */
  function ResolveApiKey(env: Option<string>): (key: string)
    ensures key == "" <==> env.None? || env.value == ""
  {
    match env
    case Some(k) => k
    case None => ""
  }

  /** `response.candidates?.[0]?.content?.parts || []` */
  function ResponseParts(resp: Response): seq<Part> {
    match resp.candidates
    case None => []
    case Some(cs) =>
      if cs == [] then []
      else match cs[0].content
        case None => []
        case Some(c) => match c.parts
          case None => []
          case Some(ps) => ps
  }

  /** The index of the first part that carries inline data. */
  function FirstInlineIndex(parts: seq<Part>): (r: Option<nat>)
    ensures r.Some? ==> r.value < |parts| && parts[r.value].inlineData.Some?
    ensures r.Some? ==> forall j :: 0 <= j < r.value ==> parts[j].inlineData.None?
    ensures r.None? ==> forall j :: 0 <= j < |parts| ==> parts[j].inlineData.None?
  {
    if parts == [] then None
    else if parts[0].inlineData.Some? then Some(0)
    else match FirstInlineIndex(parts[1..])
      case None => None
      case Some(k) => Some(k + 1)
  }

  /** What the extraction loop yields for a response. */
  function ImageFromResponse(resp: Response): Result<string, ServiceError> {
    var parts := ResponseParts(resp);
    match FirstInlineIndex(parts)
    case Some(k) => Ok(WrapPng(parts[k].inlineData.value.data))
    case None => Err(NoImageInResponse)
  }

  /** The `for` loop over the parts with its early return, and the throw
      after it. */
  method ExtractImage(resp: Response) returns (r: Result<string, ServiceError>)
    ensures r.Err? <==> forall j :: 0 <= j < |ResponseParts(resp)| ==> ResponseParts(resp)[j].inlineData.None?
    ensures r.Err? ==> r.error == NoImageInResponse
    ensures r == ImageFromResponse(resp)
  {
    var parts := ResponseParts(resp);
    for i := 0 to |parts|
      invariant forall j :: 0 <= j < i ==> parts[j].inlineData.None?
    {
      if parts[i].inlineData.Some? {
        return Ok(WrapPng(parts[i].inlineData.value.data));
      }
    }
    return Err(NoImageInResponse);
  }

  /** What one guarded call settles to: the key check comes before the
      request; a rejection or an imageless response is an error. */
  function CallOutcome(client: Client, request: Request): Result<string, ServiceError> {
    if client.apiKey == "" then Err(MissingApiKey)
    else match client.remote(request)
      case Rejected(m) => Err(CallFailed(m))
      case Delivered(resp) => ImageFromResponse(resp)
  }

  /** The request `generateMarketingImage` sends. */
  function GenerationRequest(imageBase64: string, prompt: string): Request {
    Request(Model, GenerationText(prompt), "image/png", CleanBase64(imageBase64))
  }

  /** The request `editGeneratedImage` sends. */
  function EditRequest(imageBase64: string, instruction: string): Request {
    Request(Model, EditText(instruction), "image/png", CleanBase64(imageBase64))
  }

  function GenerateOutcome(client: Client, imageBase64: string, prompt: string): Result<string, ServiceError> {
    CallOutcome(client, GenerationRequest(imageBase64, prompt))
  }

  function EditOutcome(client: Client, imageBase64: string, instruction: string): Result<string, ServiceError> {
    CallOutcome(client, EditRequest(imageBase64, instruction))
  }

  /** A client configured from the environment refuses a call with the
      missing-key error exactly when `API_KEY` is unset or empty. */
  lemma EnvironmentKeyGuardsCalls(env: Option<string>, remote: Request -> Reply, request: Request)
    ensures CallOutcome(Client(ResolveApiKey(env), remote), request) == Err(MissingApiKey)
            <==> env.None? || env.value == ""
  {
  }

  /** Sends `request` unless the key is empty; `sent` is the request that
      reached the remote model, if any. */
  method Call(client: Client, request: Request) returns (r: Result<string, ServiceError>, sent: Option<Request>)
    ensures client.apiKey == "" ==> sent == None && r == Err(MissingApiKey)
    ensures client.apiKey != "" ==> sent == Some(request)
    ensures r == CallOutcome(client, request)
  {
    if client.apiKey == "" {
      return Err(MissingApiKey), None;
    }
    sent := Some(request);
    var reply := client.remote(request);
    match reply {
      case Rejected(m) =>
        r := Err(CallFailed(m));
      case Delivered(resp) =>
        r := ExtractImage(resp);
    }
  }

  /** `generateMarketingImage(imageBase64, prompt)` */
  method GenerateMarketingImage(client: Client, imageBase64: string, prompt: string)
    returns (r: Result<string, ServiceError>, sent: Option<Request>)
    ensures client.apiKey == "" ==> sent == None && r == Err(MissingApiKey)
    ensures client.apiKey != "" ==> sent == Some(GenerationRequest(imageBase64, prompt))
    ensures r == GenerateOutcome(client, imageBase64, prompt)
  {
    r, sent := Call(client, GenerationRequest(imageBase64, prompt));
  }

  /** `editGeneratedImage(imageBase64, editInstruction)` */
  method EditGeneratedImage(client: Client, imageBase64: string, instruction: string)
    returns (r: Result<string, ServiceError>, sent: Option<Request>)
    ensures client.apiKey == "" ==> sent == None && r == Err(MissingApiKey)
    ensures client.apiKey != "" ==> sent == Some(EditRequest(imageBase64, instruction))
    ensures r == EditOutcome(client, imageBase64, instruction)
  {
    r, sent := Call(client, EditRequest(imageBase64, instruction));
  }

  /** A successful call returns a png data URL, which cleans back to the
      payload of the first inline part of the response. */
  lemma SuccessStripsToPayload(client: Client, request: Request)
    requires CallOutcome(client, request).Ok?
    ensures client.remote(request).Delivered?
    ensures var parts := ResponseParts(client.remote(request).response);
            FirstInlineIndex(parts).Some? &&
            CleanBase64(CallOutcome(client, request).value) == parts[FirstInlineIndex(parts).value].inlineData.value.data
  {
    var parts := ResponseParts(client.remote(request).response);
    CleanUnwrapsPng(parts[FirstInlineIndex(parts).value].inlineData.value.data);
  }
}
