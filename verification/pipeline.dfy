/** `process_query`: the whole pipeline from a user's message to the chat
    response, with storage as a parameter that either returns outlet rows or
    fails. */
module Pipeline {
  import opened Results
  import opened Text
  import opened Intents
  import opened KnowledgeBase
  import opened SqlQuery
  import opened Ranking
  import opened Responses
  import E = Entities

  /** What the assistant sends back. The optional parts are absent in the
      answer to a failure. */
  datatype ChatResponse = ChatResponse(
    answer: string,
    outlets: Option<seq<Outlet>>,
    intent: string,
    confidence: real,
    reasoning: Option<string>,
    suggestedActions: Option<seq<string>>)

  /** Storage: runs a query and returns the rows, or says why it failed. */
  type Fetch = Query -> Result<seq<Outlet>, string>

  // Longer texts in this module are written as concatenations of short
  // literals; the pieces join into the one text of the source, and are
  // split only to keep the verifier's work on literals small.

  /** The fixed answer to any failure. */
  function Apology(): (r: string)
    ensures r != []
  {
    "I apologize, but I " + "encountered an issue " + "processing your " + "request. Could you "
    + "please rephrase your " + "question?"
  }

  /** The extracted entities, with the caller's location added when it is a
      non-empty text and no place was found in the query. */
  function WithUserLocation(e: E.Entities, userLocation: Option<string>): (r: E.Entities)
    ensures r.services == e.services && r.timeReferences == e.timeReferences && r.numbers == e.numbers
    ensures r.locations != e.locations <==>
      (e.locations == [] && userLocation.Some? && userLocation.value != [])
    ensures r.locations != e.locations ==> r.locations == [userLocation.value]
  {
    match userLocation
    case Some(l) =>
      if l != [] && e.locations == [] then e.(locations := e.locations + [l]) else e
    case None => e
  }

  /** The entities the rest of the pipeline works with. */
  function Prepare(query: string, userLocation: Option<string>): (e: E.Entities)
    ensures e.services == E.Recognised(query).services
    ensures E.Recognised(query).locations != [] ==> e.locations == E.Recognised(query).locations
  {
    WithUserLocation(E.Recognised(query), userLocation)
  }

  /** The answer to a failure: the apology, the `error` intent with no
      confidence, and the cause in the reasoning. */
  function Failure(cause: string): (r: ChatResponse)
    ensures r.answer == Apology() && r.intent == IntentName(Error) && r.confidence == 0.0
    ensures r.outlets.None? && r.suggestedActions.None?
    ensures r.reasoning.Some? && EndsWith(r.reasoning.value, cause)
  {
    var reason := "Error occurred: " + cause;
    AppendEnds("Error occurred: ", cause);
    ChatResponse(Apology(), None, "error", 0.0, Some(reason), None)
  }

  /** What a successful answer to the classified query over `rows` carries:
      the classification, the rows as `Rank` orders them (every row once, in
      order of relevance, ties in storage order), and the reply phrased for
      the intent over the outlets in that order. */
  predicate Answered(r: ChatResponse, query: string, e: E.Entities, c: Classification, rows: seq<Outlet>) {
    && r.intent == IntentName(c.intent) && r.confidence == c.confidence
    && r.reasoning == Some(c.reasoning)
    && r.outlets == Some(Rank(rows, query, e))
    && multiset(r.outlets.value) == multiset(rows)
    && ByScore(r.outlets.value, query, e)
    && r.answer == Respond(c.intent, r.outlets.value, e).text
  }

  /** The answer once the rows have arrived: rank them, then phrase the reply. */
  function Success(query: string, e: E.Entities, c: Classification, rows: seq<Outlet>): (r: ChatResponse)
    requires c.intent != Error && 0.0 < c.confidence <= 1.0
    ensures Answered(r, query, e, c, rows)
    ensures r.intent != IntentName(Error)
    ensures r.suggestedActions.Some? && |r.suggestedActions.value| >= 2
    ensures rows != [] ==> EndsWith(r.answer, OutletList(r.outlets.value))
  {
    var ranked := Rank(rows, query, e);
    var reply := Respond(c.intent, ranked, e);
    OnlyErrorNamedError(c.intent);
    ChatResponse(reply.text, Some(ranked), IntentName(c.intent), c.confidence, Some(c.reasoning), Some(reply.actions))
  }

  /** Only the error intent is reported as `error`. */
  lemma OnlyErrorNamedError(i: Intent)
    requires i != Error
    ensures IntentName(i) != IntentName(Error)
  {
    if IntentName(i) == IntentName(Error) {
      IntentNameInjective(i, Error);
    }
  }

  /** The answer to what storage returned for the classified query. */
  function Answer(query: string, e: E.Entities, c: Classification, fetched: Result<seq<Outlet>, string>): (r: ChatResponse)
    requires c.intent != Error && 0.0 < c.confidence <= 1.0
    ensures fetched.Err? ==> r == Failure(fetched.error)
    ensures fetched.Ok? ==> Answered(r, query, e, c, fetched.value) && r.intent != IntentName(Error)
  {
    match fetched
    case Err(cause) => Failure(cause)
    case Ok(rows) => Success(query, e, c, rows)
  }

  /** The pipeline once the entities are extracted: add the caller's
      location, classify, build the query, fetch, rank and answer; a storage
      failure becomes the apology. */
  function AnswerExtracted(query: string, userLocation: Option<string>, fetch: Fetch): (r: ChatResponse)
    ensures var e := Prepare(query, userLocation); var fetched := fetch(Generate(e));
      && (fetched.Err? ==> r == Failure(fetched.error))
      && (fetched.Ok? ==> Answered(r, query, e, Classify(query, e), fetched.value))
    ensures fetch(Generate(Prepare(query, userLocation))).Ok? ==>
      r.intent != IntentName(Error) && 0.0 < r.confidence <= 1.0
  {
    var e := Prepare(query, userLocation);
    var c := Classify(query, e);
    OnlyErrorNamedError(c.intent);
    Answer(query, e, c, fetch(Generate(e)))
  }

  /** `process_query`: a failed extraction becomes the apology before storage
      is asked; otherwise the answer of the rest of the pipeline. */
  function ProcessQuery(query: string, userLocation: Option<string>, fetch: Fetch): (r: ChatResponse)
    ensures E.ExtractEntities(query).Err? ==> r == Failure(E.ExtractEntities(query).error)
    ensures E.ExtractEntities(query).Ok? ==>
      var e := Prepare(query, userLocation); var fetched := fetch(Generate(e));
      && (fetched.Err? ==> r == Failure(fetched.error))
      && (fetched.Ok? ==> Answered(r, query, e, Classify(query, e), fetched.value))
    ensures E.ExtractEntities(query).Ok? && fetch(Generate(Prepare(query, userLocation))).Ok? ==>
      r.intent != IntentName(Error) && 0.0 < r.confidence <= 1.0
  {
    match E.ExtractEntities(query)
    case Err(cause) => Failure(cause)
    case Ok(_) => AnswerExtracted(query, userLocation, fetch)
  }

  /** The caller's location reaches storage: with no place in the query and
      a non-empty location given, the last parameter is its `LIKE` pattern. */
  lemma UserLocationQueried(query: string, l: string)
    requires E.Recognised(query).locations == [] && l != []
    ensures var q := Generate(Prepare(query, Some(l)));
      q.params != [] && q.params[|q.params| - 1] == "%" + Alias(l) + "%"
  {
    var e := Prepare(query, Some(l));
    assert e.locations == [l];
    var q := GenerateWith(e, Services);
    var n := |PerkParams(e.services, Services)|;
    assert q.params[n] == q.params[n..][0] == LocationParams(e.locations)[0];
  }

  /** A failed extraction never reaches storage: the answer does not depend
      on what storage would have returned. */
  lemma FailedExtractionAsksNothing(query: string, userLocation: Option<string>, f: Fetch, g: Fetch)
    requires E.ExtractEntities(query).Err?
    ensures ProcessQuery(query, userLocation, f) == ProcessQuery(query, userLocation, g)
    ensures ProcessQuery(query, userLocation, f).intent == "error"
  {
  }

  /** A place found in the query wins over the caller's location. */
  lemma QueryPlacesWin(query: string, userLocation: Option<string>)
    requires E.Recognised(query).locations != []
    ensures Prepare(query, userLocation) == Prepare(query, None)
  {
  }

  /** A request to list everything is answered as general information with
      confidence 0.9 whenever storage answers. */
  lemma ListAllAnswered(query: string, userLocation: Option<string>, fetch: Fetch)
    requires ContainsAny(Lower(query), ListAllPatterns)
    requires fetch(Generate(Prepare(query, userLocation))).Ok?
    ensures E.ExtractEntities(query).Ok? ==>
      ProcessQuery(query, userLocation, fetch).intent == "general_info" && ProcessQuery(query, userLocation, fetch).confidence == 0.9
    ensures E.ExtractEntities(query).Err? ==>
      ProcessQuery(query, userLocation, fetch).intent == "error" && ProcessQuery(query, userLocation, fetch).confidence == 0.0
  {
    var c := Classify(query, Prepare(query, userLocation));
    assert c.intent == GeneralInfo && c.confidence == 0.9;
    assert IntentName(GeneralInfo) == "general_info";
  }
}
