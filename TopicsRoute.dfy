/** `POST /api/topics`: creates a topic at the neutral stance for a logged-in
    user. The guards and the new row's fields are pure; the insert is the one
    store change, made only when the response is 201. */
module TopicsRoute {
  import opened Wrappers
  import opened Strings
  import opened Store

  const UnauthorizedMessage := "Unauthorized"
  const NameRequiredMessage := "Topic name is required"
  const InternalErrorMessage := "Internal Server Error"
  /** Every topic starts neutral, at the middle of the scale. */
  const InitialStance := 5.0
  const InitialReasoning := "Initial neutral stance."

  /** The body fields the handler reads; a field that is absent is `None`. */
  datatype TopicFields = TopicFields(name: Option<string>, description: Option<string>, category: Option<string>)

  /** The columns of the row to insert. */
  datatype NewTopic = NewTopic(name: string, description: Option<string>, category: Option<string>)

  /** `value || null`: an empty or absent text is stored as null. */
  function NullIfEmpty(s: Option<string>): (r: Option<string>)
    ensures r.Some? <==> Truthy(s)
    ensures r.Some? ==> r == s
  {
    if Truthy(s) then s else None
  }

  /** The guards: no session or no session user gives 401, a body that cannot
      be read gives 500, a missing or empty name gives 400; otherwise the new
      row keeps the name and stores an empty description or category as
      null. */
  function CheckTopicRequest(session: Option<Session>, request: Request<TopicFields>): (r: Result<NewTopic, Response>)
    ensures (session.None? || session.value.user.None?) <==> r == Failure(Response(401, ErrorBody(UnauthorizedMessage)))
    ensures session.Some? && session.value.user.Some? && request.Unreadable? ==>
      r == Failure(Response(500, ErrorBody(InternalErrorMessage)))
    ensures r.Failure? && r.error.status == 400 <==>
      session.Some? && session.value.user.Some? && request.Readable? && !Truthy(request.body.name)
    ensures r.Failure? ==> r.error.status in {400, 401, 500}
    ensures r.Success? ==>
      && request.Readable? && Truthy(request.body.name)
      && r.value.name == request.body.name.value && r.value.name != ""
      && (r.value.description.Some? <==> Truthy(request.body.description))
      && (r.value.category.Some? <==> Truthy(request.body.category))
      && r.value.description == NullIfEmpty(request.body.description)
      && r.value.category == NullIfEmpty(request.body.category)
    ensures session.Some? && session.value.user.Some? && request.Readable? && Truthy(request.body.name) ==> r.Success?
  {
    if session.None? || session.value.user.None? then
      Failure(Response(401, ErrorBody(UnauthorizedMessage)))
    else
      match request
      case Unreadable(_) => Failure(Response(500, ErrorBody(InternalErrorMessage)))
      case Readable(body) =>
        if !Truthy(body.name) then Failure(Response(400, ErrorBody(NameRequiredMessage)))
        else Success(NewTopic(body.name.value, NullIfEmpty(body.description), NullIfEmpty(body.category)))
  }

  /** The handler. `createFault` is an error thrown by `prisma.topic.create`;
      whatever it is, the response is the generic 500. */
  method PostTopic(store: Store, session: Option<Session>, request: Request<TopicFields>, createFault: Option<Thrown>)
    returns (resp: Response)
    requires store.Valid()
    modifies store
    ensures store.Valid()
    ensures var check := CheckTopicRequest(session, request);
      && (check.Failure? ==> resp == check.error)
      && (check.Success? && createFault.Some? ==> resp == Response(500, ErrorBody(InternalErrorMessage)))
      && (check.Success? && createFault.None? ==>
            resp == Response(201, TopicBody(Topic(
              old(store.nextTopicId), check.value.name, check.value.description, check.value.category,
              InitialStance, InitialReasoning))))
    ensures resp.status == 201 ==> resp.body.TopicBody? && store.topics == old(store.topics)[resp.body.topic.topicId := resp.body.topic]
    ensures resp.status != 201 ==> store.topics == old(store.topics)
    ensures resp.status == 201 ==> store.nextTopicId == old(store.nextTopicId) + 1
    ensures resp.status != 201 ==> store.nextTopicId == old(store.nextTopicId)
    ensures store.debates == old(store.debates) && store.arguments == old(store.arguments)
    ensures store.nextDebateId == old(store.nextDebateId)
  {
    var check := CheckTopicRequest(session, request);
    if check.Failure? {
      return check.error;
    }
    if createFault.Some? {
      return Response(500, ErrorBody(InternalErrorMessage));
    }
    var fields := check.value;
    var topic := store.CreateTopic(fields.name, fields.description, fields.category, InitialStance, InitialReasoning);
    return Response(201, TopicBody(topic));
  }
}
