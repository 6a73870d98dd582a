/** `POST /api/debates`: starts a debate on an existing topic for the logged-in
    user. The guard chain is a pure decision over the session and the request
    body; looking the topic up and inserting the debate are the two store
    calls, and the store changes only when the response is 201. */
module DebatesRoute {
  import opened Wrappers
  import opened Strings
  import opened Store

  const UnauthorizedMessage := "Unauthorized - User not logged in or user ID invalid"
  const InvalidBodyMessage := "Missing or invalid topicId or goalDirection"
  const TopicNotFoundMessage := "Topic not found"
  const InternalErrorMessage := "Internal Server Error"
  const DefaultProvider := "openai"
  const DefaultModel := "gpt-4o-mini"

  /** The body fields the handler reads. `topicId` is the text `parseInt`
      sees; a field that is absent is `None`. */
  datatype DebateFields = DebateFields(
    topicId: Option<string>,
    goalDirection: Option<string>,
    llmProvider: Option<string>,
    llmModel: Option<string>)

  /** A request that passed every guard: what the new debate is made of. */
  datatype DebateRequest = DebateRequest(
    userId: int,
    topicId: int,
    goalDirection: string,
    llmProvider: string,
    llmModel: string)

  /** The session user's id as a number, when the 401 guard lets the request
      through: a session is present, its user id is a non-empty string, and
      `parseInt` reads a non-zero number from it. */
  function SessionUserId(session: Option<Session>): (r: Option<int>)
    ensures r.Some? ==> session.Some? && session.value.user.Some?
    ensures r.Some? ==> r.value != 0
    ensures r.Some? <==>
      && session.Some? && session.value.user.Some?
      && Truthy(session.value.user.value.id)
      && ParseInt(session.value.user.value.id.value).Some?
      && ParseInt(session.value.user.value.id.value).value != 0
    ensures r.Some? ==> ParseInt(session.value.user.value.id.value) == r
  {
    var idText := if session.Some? && session.value.user.Some? then session.value.user.value.id else None;
    var userId := if Truthy(idText) then ParseInt(idText.value) else None;
    if session.None? || userId.None? || userId.value == 0 then None else userId
  }

  /** A session whose user id is the decimal rendering of a positive number
      identifies exactly that user. */
  lemma SessionOfRenderedId(n: nat)
    requires n > 0
    ensures SessionUserId(Some(Session(Some(SessionUser(Some(NatToString(n))))))) == Some(n)
  {
    ParseIntOfRendered(n, "");
    assert NatToString(n) + "" == NatToString(n);
  }

  /** A goal direction is accepted exactly when it is one of the two
      directions. */
  predicate ValidGoal(goal: Option<string>) {
    goal == Some("left") || goal == Some("right")
  }

  /** Everything up to the topic lookup: the 401 guard before the body is
      read, a body that cannot be read (500 with the error's message), then
      the 400 guard on `topicId` and `goalDirection`. On success the request
      carries the session user, the parsed topic id and the provider and
      model with their defaults. */
  function CheckDebateRequest(session: Option<Session>, request: Request<DebateFields>, envModel: Option<string>)
    : (r: Result<DebateRequest, Response>)
    ensures SessionUserId(session).None? <==> r == Failure(Response(401, ErrorBody(UnauthorizedMessage)))
    ensures SessionUserId(session).Some? && request.Unreadable? ==> r == Failure(ErrorResponse(request.error))
    ensures r.Failure? && r.error.status == 400 <==>
      && SessionUserId(session).Some? && request.Readable?
      && !(ParseInt(request.body.topicId.GetOr("undefined")).Some?
           && ParseInt(request.body.topicId.GetOr("undefined")).value != 0
           && ValidGoal(request.body.goalDirection))
    ensures r.Failure? && r.error.status == 400 ==> r.error.body == ErrorBody(InvalidBodyMessage)
    ensures
      && SessionUserId(session).Some? && request.Readable?
      && ParseInt(request.body.topicId.GetOr("undefined")).Some?
      && ParseInt(request.body.topicId.GetOr("undefined")).value != 0
      && ValidGoal(request.body.goalDirection)
      ==> r.Success?
    ensures r.Success? ==>
      && SessionUserId(session) == Some(r.value.userId)
      && request.Readable?
      && ParseInt(request.body.topicId.GetOr("undefined")) == Some(r.value.topicId)
      && r.value.topicId != 0
      && (r.value.goalDirection == "left" || r.value.goalDirection == "right")
      && Some(r.value.goalDirection) == request.body.goalDirection
      && r.value.llmProvider == request.body.llmProvider.GetOr(DefaultProvider)
      && r.value.llmModel == request.body.llmModel.GetOr(envModel.GetOr(DefaultModel))
  {
    match SessionUserId(session)
    case None => Failure(Response(401, ErrorBody(UnauthorizedMessage)))
    case Some(userId) =>
      match request
      case Unreadable(e) => Failure(ErrorResponse(e))
      case Readable(body) =>
        var topicId := ParseInt(body.topicId.GetOr("undefined"));
        if topicId.None? || topicId.value == 0 || !ValidGoal(body.goalDirection) then
          Failure(Response(400, ErrorBody(InvalidBodyMessage)))
        else
          Success(DebateRequest(
            userId, topicId.value, body.goalDirection.value,
            body.llmProvider.GetOr(DefaultProvider),
            body.llmModel.GetOr(envModel.GetOr(DefaultModel))))
  }

  /** The 500 response of the catch block: the error's message, or a generic
      message for anything that is not an `Error`. */
  function ErrorResponse(e: Thrown): (r: Response)
    ensures r.status == 500
    ensures e.ErrorWithMessage? ==> r.body == ErrorBody(e.message)
    ensures e.NonError? ==> r.body == ErrorBody(InternalErrorMessage)
  {
    Response(500, ErrorBody(if e.ErrorWithMessage? then e.message else InternalErrorMessage))
  }

  /** The handler. `lookupFault` and `createFault` are errors thrown by
      `prisma.topic.findUnique` and `prisma.debate.create`; `envModel` is
      `OPENAI_MODEL_NAME`. */
  method PostDebate(
    store: Store, session: Option<Session>, request: Request<DebateFields>, envModel: Option<string>,
    lookupFault: Option<Thrown>, createFault: Option<Thrown>)
    returns (resp: Response)
    requires store.Valid()
    modifies store
    ensures store.Valid()
    ensures var check := CheckDebateRequest(session, request, envModel);
      && (check.Failure? ==> resp == check.error)
      && (check.Success? && lookupFault.Some? ==> resp == ErrorResponse(lookupFault.value))
      && (check.Success? && lookupFault.None? && !(0 <= check.value.topicId && check.value.topicId as nat in old(store.topics)) ==>
            resp == Response(404, ErrorBody(TopicNotFoundMessage)))
      && (check.Success? && lookupFault.None? && 0 <= check.value.topicId && check.value.topicId as nat in old(store.topics) ==>
            var topic := old(store.topics)[check.value.topicId as nat];
            if createFault.Some? then resp == ErrorResponse(createFault.value)
            else
              && resp.status == 201
              && resp.body == DebateBody(Debate(
                   old(store.nextDebateId), topic.topicId, check.value.userId, topic.currentStance,
                   check.value.goalDirection, Active, check.value.llmProvider, check.value.llmModel,
                   None, None, None)))
    ensures resp.status == 201 ==> resp.body.DebateBody? && store.debates == old(store.debates)[resp.body.debate.debateId := resp.body.debate]
    ensures resp.status != 201 ==> store.debates == old(store.debates)
    ensures resp.status == 201 ==> store.nextDebateId == old(store.nextDebateId) + 1
    ensures resp.status != 201 ==> store.nextDebateId == old(store.nextDebateId)
    ensures store.topics == old(store.topics) && store.arguments == old(store.arguments)
    ensures store.nextTopicId == old(store.nextTopicId)
  {
    var check := CheckDebateRequest(session, request, envModel);
    if check.Failure? {
      return check.error;
    }
    var req := check.value;
    if lookupFault.Some? {
      return ErrorResponse(lookupFault.value);
    }
    if req.topicId < 0 || req.topicId as nat !in store.topics {
      return Response(404, ErrorBody(TopicNotFoundMessage));
    }
    var topic := store.topics[req.topicId as nat];
    if createFault.Some? {
      return ErrorResponse(createFault.value);
    }
    var debate := store.CreateDebate(topic.topicId, req.userId, topic.currentStance, req.goalDirection, Active, req.llmProvider, req.llmModel);
    return Response(201, DebateBody(debate));
  }
}
