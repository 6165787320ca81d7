/**
 * The serializers of the server endpoints: a channel becomes a mapping of
 * all its fields; a server becomes a mapping of its fields without the
 * member set, with its channels nested under `channel_server` and with a
 * `num_members` slot that is kept only when the serializer context asks
 * for it.
 */
module Serializer {
  import opened Options
  import opened Records
  import opened Sequences

  /** The JSON-like values a representation is made of. */
  datatype Value =
    | Null
    | Int(i: int)
    | Str(s: string)
    | List(items: seq<Value>)
    | Object(fields: map<string, Value>)

  /** The field names every server mapping starts from; `member` is excluded. */
  const ServerFields: set<string> := {"id", "name", "category", "owner", "icon", "channel_server", "num_members"}

  /** The mapping the channel serializer produces: all fields of the channel, relations by id. */
  function ChannelRepresentation(c: Channel): (data: map<string, Value>)
    ensures data.Keys == {"id", "name", "server"}
    ensures data["id"] == Int(c.id) && data["name"] == Str(c.name)
    ensures data["server"] == Int(c.server)
  {
    map["id" := Int(c.id), "name" := Str(c.name), "server" := Int(c.server)]
  }

  /** One nested channel mapping per channel, in the server's channel order. */
  function ChannelList(channels: seq<Channel>): (items: seq<Value>)
    ensures |items| == |channels|
    ensures forall i :: 0 <= i < |channels| ==> items[i] == Object(ChannelRepresentation(channels[i]))
  {
    Map(channels, (c: Channel) => Object(ChannelRepresentation(c)))
  }

  /** The value of the `num_members` method field: the annotation if the row carries one, else None. */
  function GetNumMembers(row: Row): (v: Value)
    ensures v == Null <==> row.numMembers.None?
    ensures forall n :: row.numMembers == Some(n) ==> v == Int(n)
  {
    if row.numMembers.Some? then Int(row.numMembers.value) else Null
  }

  /** The mapping the model serializer builds before `to_representation` adjusts it. */
  function BaseRepresentation(row: Row): map<string, Value> {
    var s := row.server;
    map[
      "id" := Int(s.id),
      "name" := Str(s.name),
      "category" := Int(s.category.id),
      "owner" := Int(s.owner),
      "icon" := (if s.icon.Some? then Str(s.icon.value) else Null),
      "channel_server" := List(ChannelList(s.channels)),
      "num_members" := GetNumMembers(row)]
  }

  /** A missing or false `with_num_members` entry in the context is falsy. */
  predicate WithNumMembers(context: map<string, bool>) {
    "with_num_members" in context && context["with_num_members"]
  }

  /** What the server serializer returns for one row under the given context. */
  function Representation(row: Row, context: map<string, bool>): map<string, Value> {
    var base := BaseRepresentation(row);
    if WithNumMembers(context) then base else base - {"num_members"}
  }

  /**
   * The representation never exposes the member set; it carries
   * `num_members` exactly when the context flag is truthy, holding the
   * annotation or null; dropping `num_members` changes no other entry; and
   * the channels are nested one mapping each, in order.
   */
  lemma RepresentationFields(row: Row, context: map<string, bool>)
    ensures "member" !in Representation(row, context)
    ensures "num_members" in Representation(row, context) <==> WithNumMembers(context)
    ensures WithNumMembers(context) && row.numMembers.Some? ==>
      Representation(row, context)["num_members"] == Int(row.numMembers.value)
    ensures WithNumMembers(context) && row.numMembers.None? ==>
      Representation(row, context)["num_members"] == Null
    ensures Representation(row, context).Keys ==
      ServerFields - (if WithNumMembers(context) then {} else {"num_members"})
    ensures forall k :: k in BaseRepresentation(row) && k != "num_members" ==>
      k in Representation(row, context) && Representation(row, context)[k] == BaseRepresentation(row)[k]
    ensures Representation(row, context)["id"] == Int(row.server.id)
    ensures Representation(row, context)["channel_server"] == List(ChannelList(row.server.channels))
  {
  }

  /** `to_representation`: build the base mapping, then drop `num_members` in place unless asked for. */
  method ToRepresentation(row: Row, context: map<string, bool>) returns (data: map<string, Value>)
    ensures data == Representation(row, context)
  {
    data := BaseRepresentation(row);
    var withNumMembers := "with_num_members" in context && context["with_num_members"];
    if !withNumMembers {
      data := data - {"num_members"};
    }
  }

  /** The serializer applied with `many=True`: one representation per row, in queryset order. */
  function SerializeAll(rows: seq<Row>, context: map<string, bool>): (data: seq<map<string, Value>>)
    ensures |data| == |rows|
    ensures forall i :: 0 <= i < |rows| ==> data[i] == Representation(rows[i], context)
  {
    Map(rows, (row: Row) => Representation(row, context))
  }
}
