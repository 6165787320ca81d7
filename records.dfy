/**
 * The records the server endpoints work on. The database models are not
 * part of this model; the fields below are the ones the list endpoint and
 * the serializers read.
 */
module Records {
  import opened Options
  import opened Sequences

  /** A classification label for servers; the list endpoint filters on its name. */
  datatype Category = Category(id: nat, name: string)

  /** A sub-unit of a server; `server` is the id of the server that owns it. */
  datatype Channel = Channel(id: nat, name: string, server: nat)

  /**
   * A chat server. `members` holds the ids of the member users, `channels`
   * the channels that refer to this server (the `channel_server` relation),
   * in the order the relation yields them. `icon` is the stored file name
   * of the icon, if any.
   */
  datatype Server = Server(
    id: nat,
    name: string,
    category: Category,
    owner: nat,
    members: set<nat>,
    channels: seq<Channel>,
    icon: Option<string>)

  /**
   * One element of a queryset: the server record and, once the queryset has
   * been annotated, the attached `num_members` value.
   */
  datatype Row = Row(server: Server, numMembers: Option<nat>)

  function ServerOf(row: Row): Server { row.server }

  /** The server records of a queryset, annotations dropped. */
  function Servers(rows: seq<Row>): (r: seq<Server>)
    ensures |r| == |rows|
    ensures forall i :: 0 <= i < |rows| ==> r[i] == rows[i].server
  {
    Map(rows, ServerOf)
  }

  /** A queryset over the given records that carries no annotation yet. */
  function Unannotated(servers: seq<Server>): (r: seq<Row>)
    ensures |r| == |servers|
    ensures forall i :: 0 <= i < |servers| ==> r[i] == Row(servers[i], None)
  {
    Map(servers, (s: Server) => Row(s, None))
  }

  /** Dropping the annotations of an unannotated queryset gives back its records. */
  lemma ServersOfUnannotated(servers: seq<Server>)
    ensures Servers(Unannotated(servers)) == servers
  {
  }
}
