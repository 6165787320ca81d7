/**
 * What the server list endpoint guarantees, stated about `ListServers`:
 * the authentication gate, how parameters are read, what each narrowing
 * step leaves in the result and which errors the id lookup produces.
 */
module ViewsProperties {
  import opened Options
  import opened Sequences
  import opened Records
  import opened IntParsing
  import opened Serializer
  import opened Views

  /** The request with one query parameter removed. */
  function Without(request: Request, key: string): Request {
    request.(queryParams := request.queryParams - {key})
  }

  /** A server survives the category and membership steps of the query. */
  predicate Eligible(s: Server, q: Query, user: User) {
    (Truthy(q.category) ==> s.category.name == q.category.value) &&
    (q.byUser ==> user.Authenticated? && user.id in s.members)
  }

  // ----- the steps keep the records of their input, in order -----

  lemma FilterKeepsServers(qs: seq<Row>, p: Row -> bool)
    ensures IsSubsequence(Servers(Filter(qs, p)), Servers(qs))
  {
    MapKeepsSubsequence(Filter(qs, p), qs, ServerOf);
  }

  lemma TruncateKeepsServers(qs: seq<Row>, n: nat)
    ensures IsSubsequence(Truncate(qs, n), qs)
    ensures IsSubsequence(Servers(Truncate(qs, n)), Servers(qs))
  {
    var m := if n < |qs| then n else |qs|;
    PrefixIsSubsequence(qs, m);
    MapKeepsSubsequence(Truncate(qs, n), qs, ServerOf);
  }

  /** Each step's output records form a subsequence of its input records. */
  lemma StepsKeepServers(qs: seq<Row>, q: Query, user: User)
    requires Admitted(q, user) && QtyIsNatural(q)
    ensures IsSubsequence(Servers(CategoryStep(qs, q)), Servers(qs))
    ensures IsSubsequence(Servers(MemberStep(qs, q, user)), Servers(qs))
    ensures Servers(AnnotateStep(qs, q, user)) == Servers(qs)
    ensures IsSubsequence(Servers(QtyStep(qs, q)), Servers(qs))
  {
    SubsequenceReflexive(Servers(qs));
    if Truthy(q.category) {
      FilterKeepsServers(qs, (r: Row) => r.server.category.name == q.category.value);
    }
    if q.byUser {
      FilterKeepsServers(qs, (r: Row) => user.id in r.server.members);
    }
    if Truthy(q.qty) {
      TruncateKeepsServers(qs, Qty(q));
    }
  }

  /** The records of a successful outcome are among those that passed the narrowing steps. */
  lemma OutcomeWithinNarrowed(qs: seq<Row>, q: Query, user: User)
    requires Admitted(q, user) ==> QtyIsNatural(q)
    requires ListServers(qs, q, user).Listed?
    ensures Admitted(q, user)
    ensures IsSubsequence(ListServers(qs, q, user).rows, Narrowed(qs, q, user))
    ensures IsSubsequence(Servers(ListServers(qs, q, user).rows), Servers(Narrowed(qs, q, user)))
  {
    assert Admitted(q, user);
    var narrowed := Narrowed(qs, q, user);
    var rows := ListServers(qs, q, user).rows;
    if Truthy(q.serverId) {
      assert rows == ById(narrowed, ParseInt(q.serverId.value).value);
    } else {
      assert rows == narrowed;
      SubsequenceReflexive(narrowed);
    }
    MapKeepsSubsequence(rows, narrowed, ServerOf);
  }

  /** Records drawn from the category step's output carry the requested category. */
  lemma WithinCategoryStep(out: seq<Server>, qs: seq<Row>, q: Query)
    requires IsSubsequence(out, Servers(CategoryStep(qs, q)))
    ensures Truthy(q.category) ==> forall i :: 0 <= i < |out| ==> out[i].category.name == q.category.value
    ensures IsSubsequence(out, Servers(qs))
  {
    var c := CategoryStep(qs, q);
    SubsequenceMembers(out, Servers(c));
    if Truthy(q.category) {
      FilterKeepsServers(qs, (r: Row) => r.server.category.name == q.category.value);
      SubsequenceTransitive(out, Servers(c), Servers(qs));
    }
  }

  /** Records drawn from the membership step's output have the caller as a member. */
  lemma WithinMemberStep(out: seq<Server>, c: seq<Row>, q: Query, user: User)
    requires Admitted(q, user)
    requires IsSubsequence(out, Servers(MemberStep(c, q, user)))
    ensures q.byUser ==> forall i :: 0 <= i < |out| ==> user.id in out[i].members
    ensures IsSubsequence(out, Servers(c))
  {
    var m := MemberStep(c, q, user);
    SubsequenceMembers(out, Servers(m));
    if q.byUser {
      FilterKeepsServers(c, (r: Row) => user.id in r.server.members);
      SubsequenceTransitive(out, Servers(m), Servers(c));
    }
  }

  /** The records of a successful outcome form a subsequence of the membership step's output. */
  lemma OutcomeWithinMemberStep(qs: seq<Row>, q: Query, user: User)
    requires Admitted(q, user) ==> QtyIsNatural(q)
    requires ListServers(qs, q, user).Listed?
    ensures Admitted(q, user)
    ensures IsSubsequence(Servers(ListServers(qs, q, user).rows), Servers(MemberStep(CategoryStep(qs, q), q, user)))
  {
    OutcomeWithinNarrowed(qs, q, user);
    var m := MemberStep(CategoryStep(qs, q), q, user);
    var a := AnnotateStep(m, q, user);
    StepsKeepServers(m, q, user);
    StepsKeepServers(a, q, user);
    SubsequenceTransitive(Servers(ListServers(qs, q, user).rows), Servers(Narrowed(qs, q, user)), Servers(a));
  }

  /**
   * Every record of a successful outcome passed the category and membership
   * steps, and the records form a subsequence of the queryset the request
   * started from.
   */
  lemma OutcomeServersEligible(qs: seq<Row>, q: Query, user: User)
    requires Admitted(q, user) ==> QtyIsNatural(q)
    requires ListServers(qs, q, user).Listed?
    ensures Admitted(q, user)
    ensures forall i :: 0 <= i < |ListServers(qs, q, user).rows| ==>
      Eligible(ListServers(qs, q, user).rows[i].server, q, user)
    ensures IsSubsequence(Servers(ListServers(qs, q, user).rows), Servers(qs))
  {
    OutcomeWithinMemberStep(qs, q, user);
    var out := Servers(ListServers(qs, q, user).rows);
    WithinMemberStep(out, CategoryStep(qs, q), q, user);
    WithinCategoryStep(out, qs, q);
  }

  // ----- the properties -----

  /**
   * A user-scoped or id-scoped query from an anonymous caller fails with the
   * authentication error, and that is the only way to get it.
   */
  lemma AuthenticationGate(qs: seq<Row>, q: Query, user: User)
    requires Admitted(q, user) ==> QtyIsNatural(q)
    ensures ListServers(qs, q, user) == Failed(AuthenticationFailed) <==>
      (q.byUser || Truthy(q.serverId)) && user.Anonymous?
  {
  }

  /**
   * The gate comes before `qty` is converted: an anonymous `by_user=true`
   * query with a `qty` that `int()` rejects is an authentication error.
   */
  lemma GateBeforeQtyConversion(qs: seq<Row>)
    ensures ParseInt("abc") == None
    ensures ListServers(qs, Query(None, None, true, Some("abc"), false), Anonymous) == Failed(AuthenticationFailed)
  {
    ParseRejectsForeignCharacter("abc", 0);
  }

  /**
   * `by_user` and `with_num_members` act only when they read exactly "true":
   * any other value, a missing one included, reads the same as no parameter.
   */
  lemma BooleanParamNeedsExactTrue(request: Request, key: string)
    requires key == "by_user" || key == "with_num_members"
    requires Param(request, key) != Some("true")
    ensures ReadQuery(request) == ReadQuery(Without(request, key))
    ensures key == "by_user" ==> !ReadQuery(request).byUser
    ensures key == "with_num_members" ==> !ReadQuery(request).withNumMembers
  {
    var r := Without(request, key);
    assert forall k :: k != key ==> Param(r, k) == Param(request, k);
    assert Param(r, key) == None;
  }

  /** A missing or empty `category` leaves the outcome as if no category were given. */
  lemma FalsyCategoryIgnored(qs: seq<Row>, q: Query, user: User)
    requires Admitted(q, user) ==> QtyIsNatural(q)
    requires !Truthy(q.category)
    ensures Admitted(q.(category := None), user) ==> QtyIsNatural(q.(category := None))
    ensures ListServers(qs, q, user) == ListServers(qs, q.(category := None), user)
  {
    var q' := q.(category := None);
    if Admitted(q, user) {
      assert CategoryStep(qs, q) == CategoryStep(qs, q') == qs;
      assert Narrowed(qs, q, user) == Narrowed(qs, q', user);
    }
  }

  /** A non-empty `category` keeps only servers whose category has exactly that name. */
  lemma CategoryMatches(qs: seq<Row>, q: Query, user: User)
    requires Admitted(q, user) ==> QtyIsNatural(q)
    requires Truthy(q.category)
    requires ListServers(qs, q, user).Listed?
    ensures forall i :: 0 <= i < |ListServers(qs, q, user).rows| ==>
      ListServers(qs, q, user).rows[i].server.category.name == q.category.value
  {
    OutcomeServersEligible(qs, q, user);
  }

  /** With `by_user`, the caller is authenticated and a member of every returned server. */
  lemma CallerIsMember(qs: seq<Row>, q: Query, user: User)
    requires Admitted(q, user) ==> QtyIsNatural(q)
    requires q.byUser
    requires ListServers(qs, q, user).Listed?
    ensures user.Authenticated?
    ensures forall i :: 0 <= i < |ListServers(qs, q, user).rows| ==>
      user.id in ListServers(qs, q, user).rows[i].server.members
  {
    OutcomeServersEligible(qs, q, user);
  }

  /**
   * Without `qty`, the queryset the id lookup sees holds exactly the
   * servers that pass the category and membership steps, in order.
   */
  lemma NarrowedServers(qs: seq<Row>, q: Query, user: User)
    requires Admitted(q, user) && !Truthy(q.qty)
    ensures Servers(Narrowed(qs, q, user)) == Filter(Servers(qs), (s: Server) => Eligible(s, q, user))
  {
    var inCategory := (s: Server) => Truthy(q.category) ==> s.category.name == q.category.value;
    var hasCaller := (s: Server) => q.byUser ==> user.Authenticated? && user.id in s.members;
    var c := CategoryStep(qs, q);
    var m := MemberStep(c, q, user);
    if Truthy(q.category) {
      MapOfFilter(qs, (r: Row) => r.server.category.name == q.category.value, ServerOf, inCategory);
    } else {
      FilterAll(Servers(qs), inCategory);
    }
    assert Servers(c) == Filter(Servers(qs), inCategory);
    if q.byUser {
      MapOfFilter(c, (r: Row) => user.id in r.server.members, ServerOf, hasCaller);
    } else {
      FilterAll(Servers(c), hasCaller);
    }
    assert Servers(m) == Filter(Servers(c), hasCaller);
    FilterFilter(Servers(qs), inCategory, hasCaller, (s: Server) => Eligible(s, q, user));
    StepsKeepServers(m, q, user);
  }

  /**
   * Without `qty` and `by_serverid`, an admitted query returns exactly the
   * servers that pass the category and membership steps, in queryset order.
   */
  lemma EligibleServersReturned(qs: seq<Row>, q: Query, user: User)
    requires Admitted(q, user) && !Truthy(q.qty) && !Truthy(q.serverId)
    ensures ListServers(qs, q, user).Listed?
    ensures Servers(ListServers(qs, q, user).rows) == Filter(Servers(qs), (s: Server) => Eligible(s, q, user))
  {
    NarrowedServers(qs, q, user);
  }

  /** The id filter keeps every server that carries the id. */
  lemma ByIdKeeps(rows: seq<Row>, s: Server)
    requires s in Servers(rows)
    ensures s in Servers(ById(rows, s.id))
  {
    var j :| 0 <= j < |rows| && Servers(rows)[j] == s;
    var found := ById(rows, s.id);
    assert rows[j] in found;
    var i :| 0 <= i < |found| && found[i] == rows[j];
    assert Servers(found)[i] == s;
  }

  /**
   * Without `qty`, a `by_serverid` lookup finds a server that exists and
   * passes the category and membership steps.
   */
  lemma EligibleServerFound(qs: seq<Row>, q: Query, user: User, k: nat)
    requires Admitted(q, user) && !Truthy(q.qty) && Truthy(q.serverId)
    requires k < |qs| && Eligible(qs[k].server, q, user)
    requires ParseInt(q.serverId.value) == Some(qs[k].server.id as int)
    ensures ListServers(qs, q, user).Listed?
    ensures qs[k].server in Servers(ListServers(qs, q, user).rows)
  {
    var n := Narrowed(qs, q, user);
    NarrowedServers(qs, q, user);
    assert Servers(qs)[k] == qs[k].server;
    assert qs[k].server in Servers(n);
    ByIdKeeps(n, qs[k].server);
    assert ById(n, qs[k].server.id) != [];
  }

  /** The pipeline neither adds nor reorders records. */
  lemma ResultIsSubsequence(qs: seq<Row>, q: Query, user: User)
    requires Admitted(q, user) ==> QtyIsNatural(q)
    requires ListServers(qs, q, user).Listed?
    ensures IsSubsequence(Servers(ListServers(qs, q, user).rows), Servers(qs))
    ensures |ListServers(qs, q, user).rows| <= |qs|
  {
    OutcomeServersEligible(qs, q, user);
    SubsequenceLength(Servers(ListServers(qs, q, user).rows), Servers(qs));
  }

  /** On a fresh view set, the result is a subsequence of all servers. */
  lemma FreshResultIsSubsequence(all: seq<Server>, q: Query, user: User)
    requires Admitted(q, user) ==> QtyIsNatural(q)
    requires ListServers(Unannotated(all), q, user).Listed?
    ensures IsSubsequence(Servers(ListServers(Unannotated(all), q, user).rows), all)
  {
    ResultIsSubsequence(Unannotated(all), q, user);
    ServersOfUnannotated(all);
  }

  /**
   * Without an id lookup, a numeric `qty` = N returns the first min(N, k)
   * of the k rows left by the earlier steps.
   */
  lemma QtyTakesPrefix(qs: seq<Row>, q: Query, user: User)
    requires QtyIsNatural(q) && Admitted(q, user)
    requires Truthy(q.qty) && !Truthy(q.serverId)
    ensures var selected := Selected(qs, q, user);
      var n := if Qty(q) < |selected| then Qty(q) else |selected|;
      ListServers(qs, q, user) == Listed(selected[..n], q.withNumMembers)
  {
  }

  /** With a numeric `qty` = N, no successful result has more than N rows. */
  lemma QtyBoundsResult(qs: seq<Row>, q: Query, user: User)
    requires QtyIsNatural(q)
    requires Truthy(q.qty)
    ensures ListServers(qs, q, user).Listed? ==> |ListServers(qs, q, user).rows| <= Qty(q)
  {
    if ListServers(qs, q, user).Listed? {
      OutcomeWithinNarrowed(qs, q, user);
      SubsequenceLength(ListServers(qs, q, user).rows, Narrowed(qs, q, user));
    }
  }

  lemma ParseZero()
    ensures ParseInt("0") == Some(0)
  {
    assert DecimalString(0) == "0";
    ParseDecimal(0);
  }

  /** A `qty` of more digits than `int()` converts is not a natural number. */
  lemma OverlongQtyIsNotNatural(q: Query, d: string)
    requires q.qty == Some(d) && IsDigits(d) && |d| > MaxStrDigits
    ensures !QtyIsNatural(q)
  {
    OverlongDigitsRejected(d);
  }

  /** An id of more digits than `int()` converts is the value error, not "not found". */
  lemma OverlongIdIsValueError(qs: seq<Row>, q: Query, user: User, d: string)
    requires Admitted(q, user) && QtyIsNatural(q)
    requires q.serverId == Some(d) && IsDigits(d) && |d| > MaxStrDigits
    ensures ListServers(qs, q, user) == Failed(ServerValueError)
  {
    OverlongDigitsRejected(d);
  }

  /** "0" is a non-empty string, so `qty=0` truncates to nothing. */
  lemma QtyZeroSelectsNothing(qs: seq<Row>, q: Query, user: User)
    requires Admitted(q, user)
    requires q.qty == Some("0")
    ensures QtyIsNatural(q)
    ensures !Truthy(q.serverId) ==>
      ListServers(qs, q, user) == Listed([], q.withNumMembers)
    ensures Truthy(q.serverId) ==>
      ListServers(qs, q, user) == Failed(ServerValueError) ||
      ListServers(qs, q, user) == Failed(ServerNotFound)
  {
    ParseZero();
    assert Narrowed(qs, q, user) == [];
  }

  /** The id filter finds nothing exactly when no row carries the id. */
  lemma ByIdEmpty(rows: seq<Row>, k: int)
    ensures ById(rows, k) == [] <==> forall i :: 0 <= i < |rows| ==> rows[i].server.id != k
  {
    var found := ById(rows, k);
    if found != [] {
      assert found[0] in rows;
    }
  }

  /**
   * The id lookup: text `int()` rejects is a value error; an id that no row of
   * the narrowed queryset carries is "not found"; otherwise the result is
   * exactly the narrowed rows with that id.
   */
  lemma ServerIdLookup(qs: seq<Row>, q: Query, user: User)
    requires QtyIsNatural(q) && Admitted(q, user)
    requires Truthy(q.serverId)
    ensures ParseInt(q.serverId.value).None? ==>
      ListServers(qs, q, user) == Failed(ServerValueError)
    ensures ParseInt(q.serverId.value).Some? ==>
      (ListServers(qs, q, user) == Failed(ServerNotFound) <==>
        forall i :: 0 <= i < |Narrowed(qs, q, user)| ==>
          Narrowed(qs, q, user)[i].server.id != ParseInt(q.serverId.value).value)
    ensures ParseInt(q.serverId.value).Some? ==>
      ListServers(qs, q, user) == Failed(ServerNotFound) ||
      ListServers(qs, q, user) == Listed(ById(Narrowed(qs, q, user), ParseInt(q.serverId.value).value), q.withNumMembers)
    ensures ListServers(qs, q, user).Listed? ==>
      |ListServers(qs, q, user).rows| > 0 &&
      forall i :: 0 <= i < |ListServers(qs, q, user).rows| ==>
        ListServers(qs, q, user).rows[i].server.id == ParseInt(q.serverId.value).value
  {
    var id := ParseInt(q.serverId.value);
    if id.Some? {
      ByIdEmpty(Narrowed(qs, q, user), id.value);
    }
  }

  /**
   * The id lookup sees only what the category and membership steps left: a
   * server that exists but is excluded by them is reported as not found.
   */
  lemma ExcludedServerNotFound(qs: seq<Row>, q: Query, user: User, k: int)
    requires QtyIsNatural(q) && Admitted(q, user)
    requires Truthy(q.serverId)
    requires ParseInt(q.serverId.value) == Some(k)
    requires forall i :: 0 <= i < |qs| && qs[i].server.id == k ==> !Eligible(qs[i].server, q, user)
    ensures ListServers(qs, q, user) == Failed(ServerNotFound)
  {
    var outcome := ListServers(qs, q, user);
    if outcome.Listed? {
      OutcomeServersEligible(qs, q, user);
      ServerIdLookup(qs, q, user);
      SubsequenceMembers(Servers(outcome.rows), Servers(qs));
      assert false;
    }
  }

  /** With `with_num_members`, every returned row carries the count the annotation step attached. */
  lemma AnnotatedRowsCarryCount(qs: seq<Row>, q: Query, user: User)
    requires Admitted(q, user) ==> QtyIsNatural(q)
    requires ListServers(qs, q, user).Listed? && q.withNumMembers
    ensures Admitted(q, user)
    ensures forall i :: 0 <= i < |ListServers(qs, q, user).rows| ==>
      ListServers(qs, q, user).rows[i].numMembers ==
        Some(MemberCount(ListServers(qs, q, user).rows[i].server, if q.byUser then Some(user.id) else None))
  {
    OutcomeWithinNarrowed(qs, q, user);
    var rows := ListServers(qs, q, user).rows;
    var a := Selected(qs, q, user);
    var n := Narrowed(qs, q, user);
    SubsequenceMembers(rows, n);
    if Truthy(q.qty) {
      TruncateKeepsServers(a, Qty(q));
      SubsequenceMembers(n, a);
    }
  }

  /**
   * The `num_members` annotation: with `with_num_members` every returned row
   * carries its member count (1 under `by_user`, where only the caller's
   * member row is joined); without it the rows are exactly base rows.
   */
  lemma MemberCountAnnotation(qs: seq<Row>, q: Query, user: User)
    requires Admitted(q, user) ==> QtyIsNatural(q)
    requires ListServers(qs, q, user).Listed?
    ensures ListServers(qs, q, user).withNumMembers == q.withNumMembers
    ensures q.withNumMembers && !q.byUser ==>
      forall i :: 0 <= i < |ListServers(qs, q, user).rows| ==>
        ListServers(qs, q, user).rows[i].numMembers == Some(|ListServers(qs, q, user).rows[i].server.members|)
    ensures q.withNumMembers && q.byUser ==>
      forall i :: 0 <= i < |ListServers(qs, q, user).rows| ==>
        ListServers(qs, q, user).rows[i].numMembers == Some(1)
    ensures !q.withNumMembers ==> IsSubsequence(ListServers(qs, q, user).rows, qs)
  {
    var rows := ListServers(qs, q, user).rows;
    if q.withNumMembers {
      AnnotatedRowsCarryCount(qs, q, user);
      if q.byUser {
        CallerIsMember(qs, q, user);
        forall i | 0 <= i < |rows|
          ensures rows[i].numMembers == Some(1)
        {
          assert rows[i].server.members * {user.id} == {user.id};
        }
      }
    } else {
      OutcomeWithinNarrowed(qs, q, user);
      var c := CategoryStep(qs, q);
      var m := MemberStep(c, q, user);
      var n := Narrowed(qs, q, user);
      assert Selected(qs, q, user) == m;
      if Truthy(q.qty) {
        TruncateKeepsServers(m, Qty(q));
      } else {
        SubsequenceReflexive(m);
      }
      if !Truthy(q.category) {
        SubsequenceReflexive(qs);
      }
      if !q.byUser {
        SubsequenceReflexive(c);
      }
      SubsequenceTransitive(rows, n, m);
      SubsequenceTransitive(rows, m, c);
      SubsequenceTransitive(rows, c, qs);
    }
  }

  /**
   * The response body: one mapping per returned row, none with a `member`
   * key, and a `num_members` key exactly when `with_num_members` is "true".
   */
  lemma ResponseShape(qs: seq<Row>, q: Query, user: User)
    requires Admitted(q, user) ==> QtyIsNatural(q)
    requires Render(ListServers(qs, q, user)).DataResponse?
    ensures ListServers(qs, q, user).Listed?
    ensures |Render(ListServers(qs, q, user)).data| == |ListServers(qs, q, user).rows|
    ensures forall i :: 0 <= i < |Render(ListServers(qs, q, user)).data| ==>
      "member" !in Render(ListServers(qs, q, user)).data[i] &&
      ("num_members" in Render(ListServers(qs, q, user)).data[i] <==> q.withNumMembers)
  {
    var outcome := ListServers(qs, q, user);
    var context := SerializerContext(outcome.withNumMembers);
    var data := Render(outcome).data;
    assert WithNumMembers(context) == outcome.withNumMembers == q.withNumMembers;
    forall i | 0 <= i < |data|
      ensures "member" !in data[i] && ("num_members" in data[i] <==> q.withNumMembers)
    {
      RepresentationFields(outcome.rows[i], context);
    }
  }
}
