/** The database rows the core reads and writes, and the shapes shared by the
    API routes: sessions, request bodies, thrown errors and JSON responses.
    The Prisma client becomes a `Store` object whose create and update
    operations change its tables in place. */
module Store {
  import opened Wrappers

  /** The `status` column of a debate. */
  datatype Status = Active | Completed | SummaryFailed

  datatype Topic = Topic(
    topicId: nat,
    name: string,
    description: Option<string>,
    category: Option<string>,
    currentStance: real,
    stanceReasoning: string)

  datatype Debate = Debate(
    debateId: nat,
    topicId: nat,
    userId: int,
    initialStance: real,
    goalDirection: string,
    status: Status,
    llmProvider: string,
    llmModel: string,
    finalStance: Option<real>,
    summaryArticle: Option<string>,
    completedAt: Option<int>)

  /** The author fields joined onto an argument row. */
  datatype UserInfo = UserInfo(username: Option<string>, displayName: Option<string>)

  /** One row of the `Argument` table, with its author when joined. */
  datatype ArgumentRow = ArgumentRow(
    debateId: nat,
    turnNumber: int,
    argumentText: string,
    aiResponse: Option<string>,
    stanceBefore: Option<real>,
    stanceAfter: Option<real>,
    shiftReasoning: Option<string>,
    user: Option<UserInfo>)

  /** Stances live on the scale from 0.0 (support) to 10.0 (opposition). */
  predicate InStanceRange(x: real) {
    0.0 <= x <= 10.0
  }

  /** A value thrown by a collaborator: an `Error` with its message, or
      anything else. */
  datatype Thrown = ErrorWithMessage(message: string) | NonError

  /** What `getServerSession` yields when someone is logged in; `id` is the
      session user's id as a string, when present. */
  datatype SessionUser = SessionUser(id: Option<string>)
  datatype Session = Session(user: Option<SessionUser>)

  /** `await request.json()` followed by destructuring: either it throws, or
      it yields the body fields. */
  datatype Request<B> = Unreadable(error: Thrown) | Readable(body: B)

  datatype ResponseBody = ErrorBody(error: string) | TopicBody(topic: Topic) | DebateBody(debate: Debate)

  /** `NextResponse.json(body, { status })`. */
  datatype Response = Response(status: int, body: ResponseBody)

  class Store {
    var topics: map<nat, Topic>
    var debates: map<nat, Debate>
    var arguments: seq<ArgumentRow>
    /** Next values of the autoincrement keys. */
    var nextTopicId: nat
    var nextDebateId: nat

    /** Every row sits under its own key, below the next key to hand out, and
        every stored topic stance and debate starting stance is on the
        scale. */
    ghost predicate Valid()
      reads this
    {
      && (forall id :: id in topics ==> id < nextTopicId && topics[id].topicId == id && InStanceRange(topics[id].currentStance))
      && (forall id :: id in debates ==> id < nextDebateId && debates[id].debateId == id && InStanceRange(debates[id].initialStance))
    }

    constructor ()
      ensures Valid()
      ensures topics == map[] && debates == map[] && arguments == []
    {
      topics := map[];
      debates := map[];
      arguments := [];
      nextTopicId := 1;
      nextDebateId := 1;
    }

    /** `prisma.topic.create`: inserts a row under a fresh key and returns it. */
    method CreateTopic(name: string, description: Option<string>, category: Option<string>, currentStance: real, stanceReasoning: string)
      returns (t: Topic)
      requires Valid() && InStanceRange(currentStance)
      modifies this
      ensures Valid()
      ensures t == Topic(old(nextTopicId), name, description, category, currentStance, stanceReasoning)
      ensures old(nextTopicId) !in old(topics)
      ensures topics == old(topics)[t.topicId := t]
      ensures nextTopicId == old(nextTopicId) + 1
      ensures debates == old(debates) && arguments == old(arguments) && nextDebateId == old(nextDebateId)
    {
      t := Topic(nextTopicId, name, description, category, currentStance, stanceReasoning);
      topics := topics[nextTopicId := t];
      nextTopicId := nextTopicId + 1;
    }

    /** `prisma.debate.create`: inserts a row under a fresh key, with the
        columns the create leaves to their defaults empty, and returns it. */
    method CreateDebate(topicId: nat, userId: int, initialStance: real, goalDirection: string, status: Status, llmProvider: string, llmModel: string)
      returns (d: Debate)
      requires Valid() && InStanceRange(initialStance)
      modifies this
      ensures Valid()
      ensures d == Debate(old(nextDebateId), topicId, userId, initialStance, goalDirection, status, llmProvider, llmModel, None, None, None)
      ensures old(nextDebateId) !in old(debates)
      ensures debates == old(debates)[d.debateId := d]
      ensures nextDebateId == old(nextDebateId) + 1
      ensures topics == old(topics) && arguments == old(arguments) && nextTopicId == old(nextTopicId)
    {
      d := Debate(nextDebateId, topicId, userId, initialStance, goalDirection, status, llmProvider, llmModel, None, None, None);
      debates := debates[nextDebateId := d];
      nextDebateId := nextDebateId + 1;
    }

    /** `prisma.debate.update` on an existing row: replaces it with `d`,
        which keeps the row's key and starting stance. */
    method UpdateDebate(d: Debate)
      requires Valid() && d.debateId in debates && d.initialStance == debates[d.debateId].initialStance
      modifies this
      ensures Valid()
      ensures debates == old(debates)[d.debateId := d]
      ensures topics == old(topics) && arguments == old(arguments)
      ensures nextTopicId == old(nextTopicId) && nextDebateId == old(nextDebateId)
    {
      debates := debates[d.debateId := d];
    }
  }
}
