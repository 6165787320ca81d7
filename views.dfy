/**
 * The server list endpoint. It reads five query-string parameters, refuses
 * user- or id-scoped queries from anonymous callers, and then narrows its
 * queryset step by step: by category name, by membership of the caller, by
 * attaching member counts, by truncation to the first `qty` rows and by id.
 * The remaining rows are serialized.
 *
 * `ListServers` states the outcome of one request as a function of the
 * queryset the endpoint starts from; the class method `List` performs the
 * same steps by reassigning its `queryset` field and is proved to agree.
 */
module Views {
  import opened Options
  import opened Sequences
  import opened Records
  import opened IntParsing
  import opened Serializer

  datatype User = Anonymous | Authenticated(id: nat)

  datatype Request = Request(queryParams: map<string, string>, user: User)

  datatype ListError = AuthenticationFailed | ServerNotFound | ServerValueError

  /** What the pipeline yields: an error, or the final rows with the `with_num_members` flag. */
  datatype ListOutcome = Failed(error: ListError) | Listed(rows: seq<Row>, withNumMembers: bool)

  datatype Response = ErrorResponse(error: ListError) | DataResponse(data: seq<map<string, Value>>)

  /** `request.query_params.get(key)`. */
  function Param(request: Request, key: string): Option<string> {
    if key in request.queryParams then Some(request.queryParams[key]) else None
  }

  /** Python truthiness of an optional string: present and non-empty. */
  predicate Truthy(p: Option<string>) {
    p.Some? && p.value != ""
  }

  /** The five query parameters as the endpoint reads them; the two flags compare with "true". */
  datatype Query = Query(
    category: Option<string>,
    serverId: Option<string>,
    byUser: bool,
    qty: Option<string>,
    withNumMembers: bool)

  function ReadQuery(request: Request): (q: Query)
    ensures q.byUser <==> Param(request, "by_user") == Some("true")
    ensures q.withNumMembers <==> Param(request, "with_num_members") == Some("true")
    ensures q.category == Param(request, "category") && q.serverId == Param(request, "by_serverid")
    ensures q.qty == Param(request, "qty")
  {
    Query(
      Param(request, "category"),
      Param(request, "by_serverid"),
      Param(request, "by_user") == Some("true"),
      Param(request, "qty"),
      Param(request, "with_num_members") == Some("true"))
  }

  /** The queries that need an authenticated caller. */
  predicate AuthRequired(q: Query) {
    q.byUser || Truthy(q.serverId)
  }

  /** The query gets past the authentication gate. */
  predicate Admitted(q: Query, user: User) {
    !(AuthRequired(q) && user.Anonymous?)
  }

  /**
   * A `qty` that is given converts to a non-negative integer. Once a query
   * is past the authentication gate, any other value makes the source fail
   * with an exception it does not catch.
   */
  predicate QtyIsNatural(q: Query) {
    Truthy(q.qty) ==> var n := ParseInt(q.qty.value); n.Some? && n.value >= 0
  }

  function Qty(q: Query): nat
    requires QtyIsNatural(q) && Truthy(q.qty)
  {
    ParseInt(q.qty.value).value
  }

  function ByCategory(qs: seq<Row>, name: string): seq<Row> {
    Filter(qs, (r: Row) => r.server.category.name == name)
  }

  function ByMember(qs: seq<Row>, user: nat): seq<Row> {
    Filter(qs, (r: Row) => user in r.server.members)
  }

  /**
   * `Count("member")` per server. After a membership filter the count runs
   * over the joined member rows only, i.e. over `members * {user}`.
   */
  function MemberCount(s: Server, joinedUser: Option<nat>): nat {
    if joinedUser.Some? then |s.members * {joinedUser.value}| else |s.members|
  }

  /** `annotate(num_members=Count("member"))`: the same records, each carrying its member count. */
  function Annotate(qs: seq<Row>, joinedUser: Option<nat>): (r: seq<Row>)
    ensures Servers(r) == Servers(qs)
    ensures forall i :: 0 <= i < |r| ==> r[i].numMembers == Some(MemberCount(r[i].server, joinedUser))
  {
    Map(qs, (r: Row) => Row(r.server, Some(MemberCount(r.server, joinedUser))))
  }

  /** The slice `qs[:n]`. */
  function Truncate(qs: seq<Row>, n: nat): seq<Row> {
    qs[..if n < |qs| then n else |qs|]
  }

  function ById(qs: seq<Row>, id: int): seq<Row> {
    Filter(qs, (r: Row) => r.server.id == id)
  }

  function CategoryStep(qs: seq<Row>, q: Query): seq<Row> {
    if Truthy(q.category) then ByCategory(qs, q.category.value) else qs
  }

  function MemberStep(qs: seq<Row>, q: Query, user: User): seq<Row>
    requires Admitted(q, user)
  {
    if q.byUser then ByMember(qs, user.id) else qs
  }

  function AnnotateStep(qs: seq<Row>, q: Query, user: User): seq<Row>
    requires Admitted(q, user)
  {
    if q.withNumMembers then Annotate(qs, if q.byUser then Some(user.id) else None) else qs
  }

  function QtyStep(qs: seq<Row>, q: Query): seq<Row>
    requires QtyIsNatural(q)
  {
    if Truthy(q.qty) then Truncate(qs, Qty(q)) else qs
  }

  /** The queryset after the category, membership and annotation steps. */
  function Selected(qs: seq<Row>, q: Query, user: User): seq<Row>
    requires Admitted(q, user)
  {
    AnnotateStep(MemberStep(CategoryStep(qs, q), q, user), q, user)
  }

  /** The queryset the id lookup sees: the selected rows, truncated to `qty`. */
  function Narrowed(qs: seq<Row>, q: Query, user: User): seq<Row>
    requires Admitted(q, user) && QtyIsNatural(q)
  {
    QtyStep(Selected(qs, q, user), q)
  }

  /** The outcome of a list query by `user` against the queryset `qs`. */
  function ListServers(qs: seq<Row>, q: Query, user: User): ListOutcome
    requires Admitted(q, user) ==> QtyIsNatural(q)
  {
    if !Admitted(q, user) then Failed(AuthenticationFailed)
    else if !Truthy(q.serverId) then Listed(Narrowed(qs, q, user), q.withNumMembers)
    else
      var id := ParseInt(q.serverId.value);
      if id.None? then Failed(ServerValueError)
      else
        var found := ById(Narrowed(qs, q, user), id.value);
        if found == [] then Failed(ServerNotFound) else Listed(found, q.withNumMembers)
  }

  function SerializerContext(withNumMembers: bool): map<string, bool> {
    map["with_num_members" := withNumMembers]
  }

  /** The response for an outcome: the error, or the serialized rows. */
  function Render(outcome: ListOutcome): (response: Response)
    ensures response.ErrorResponse? <==> outcome.Failed?
    ensures outcome.Failed? ==> response.error == outcome.error
    ensures outcome.Listed? ==> |response.data| == |outcome.rows|
    ensures outcome.Listed? ==> forall i :: 0 <= i < |outcome.rows| ==>
      response.data[i] == Representation(outcome.rows[i], SerializerContext(outcome.withNumMembers))
  {
    match outcome
    case Failed(e) => ErrorResponse(e)
    case Listed(rows, withNumMembers) => DataResponse(SerializeAll(rows, SerializerContext(withNumMembers)))
  }

  class ServerListViewSet {
    var queryset: seq<Row>

    /** A fresh view set starts from every server, unannotated. */
    constructor (all: seq<Server>)
      ensures queryset == Unannotated(all)
    {
      queryset := Unannotated(all);
    }

    /** The category, membership, annotation and `qty` steps, each reassigning `queryset`. */
    method Narrow(request: Request)
      requires Admitted(ReadQuery(request), request.user) && QtyIsNatural(ReadQuery(request))
      modifies this
      ensures queryset == Narrowed(old(queryset), ReadQuery(request), request.user)
    {
      var category := Param(request, "category");
      var byUser := Param(request, "by_user") == Some("true");
      var qty := Param(request, "qty");
      var withNumMembers := Param(request, "with_num_members") == Some("true");
      if Truthy(category) {
        queryset := ByCategory(queryset, category.value);
      }
      if byUser {
        queryset := ByMember(queryset, request.user.id);
      }
      if withNumMembers {
        queryset := Annotate(queryset, if byUser then Some(request.user.id) else None);
      }
      if Truthy(qty) {
        queryset := Truncate(queryset, ParseInt(qty.value).value as nat);
      }
    }

    /** `list`: answer one request, leaving `queryset` as the source leaves `self.queryset`. */
    method List(request: Request) returns (response: Response)
      requires Admitted(ReadQuery(request), request.user) ==> QtyIsNatural(ReadQuery(request))
      modifies this
      ensures var outcome := ListServers(old(queryset), ReadQuery(request), request.user);
        && response == Render(outcome)
        && (outcome == Failed(AuthenticationFailed) ==> queryset == old(queryset))
        && (outcome == Failed(ServerValueError) ==>
              queryset == Narrowed(old(queryset), ReadQuery(request), request.user))
        && (outcome == Failed(ServerNotFound) ==> queryset == [])
        && (outcome.Listed? ==> queryset == outcome.rows)
    {
      var byServerId := Param(request, "by_serverid");
      var byUser := Param(request, "by_user") == Some("true");
      var withNumMembers := Param(request, "with_num_members") == Some("true");

      if (byUser || Truthy(byServerId)) && request.user.Anonymous? {
        return ErrorResponse(AuthenticationFailed);
      }
      Narrow(request);
      if Truthy(byServerId) {
        var id := ParseInt(byServerId.value);
        if id.None? {
          return ErrorResponse(ServerValueError);
        }
        queryset := ById(queryset, id.value);
        if queryset == [] {
          return ErrorResponse(ServerNotFound);
        }
      }
      response := DataResponse(SerializeAll(queryset, SerializerContext(withNumMembers)));
    }
  }
}
