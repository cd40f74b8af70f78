/**
 * `OrderSummaryDeserializer`: reads an order from a JSON tree, copying the client's details and
 * the description as text and turning each element of `pictures` into a picture checksum.
 */
module OrderDeserializer {
  import opened Wrappers
  import opened PictureModel
  import opened OrderModel

  /** A JSON tree as the parser's codec reads it; a number keeps its source text. */
  datatype Json =
    | JNull
    | JBool(b: bool)
    | JNumber(text: string)
    | JString(s: string)
    | JArray(elements: seq<Json>)
    | JObject(members: seq<(string, Json)>)

  /** `JsonNode.get(name)`: the value of the first member so named, absent on anything but an object. */
  function Get(node: Json, name: string): Option<Json>
  {
    if !node.JObject? then None else Lookup(node.members, name)
  }

  /** The value of the first member named `name`. */
  function Lookup(members: seq<(string, Json)>, name: string): Option<Json>
  {
    if members == [] then None
    else if members[0].0 == name then Some(members[0].1)
    else Lookup(members[1..], name)
  }

  /** A member is found exactly when some member has that name, and then it is one so named. */
  lemma {:induction false} LookupFinds(members: seq<(string, Json)>, name: string)
    ensures Lookup(members, name).Some? <==> exists i :: 0 <= i < |members| && members[i].0 == name
    ensures Lookup(members, name).Some? ==>
      exists i :: 0 <= i < |members| && members[i] == (name, Lookup(members, name).value)
  {
    if members != [] && members[0].0 != name {
      LookupFinds(members[1..], name);
      assert forall i :: 0 <= i < |members| - 1 ==> members[1..][i] == members[i + 1];
      if Lookup(members, name).Some? {
        var i :| 0 <= i < |members[1..]| && members[1..][i] == (name, Lookup(members, name).value);
        assert members[i + 1] == (name, Lookup(members, name).value);
      }
    }
  }

  /** `JsonNode.asText()`: a value node's text; containers give the empty string. */
  function AsText(node: Json): string
  {
    match node
    case JNull => "null"
    case JBool(b) => if b then "true" else "false"
    case JNumber(text) => text
    case JString(s) => s
    case JArray(_) => ""
    case JObject(_) => ""
  }

  /** What iterating a node yields: an array's elements, an object's values, nothing for a value. */
  function Elements(node: Json): (r: seq<Json>)
    ensures node.JArray? ==> r == node.elements
    ensures node.JObject? ==> |r| == |node.members| && forall i :: 0 <= i < |r| ==> r[i] == node.members[i].1
    ensures !node.JArray? && !node.JObject? ==> r == []
  {
    match node
    case JArray(elements) => elements
    case JObject(members) => seq(|members|, i requires 0 <= i < |members| => members[i].1)
    case _ => []
  }

  /** The record a checksum node stands for: a picture with only its checksum set. */
  function PictureOf(node: Json): (p: Picture)
    ensures p == PictureWithChecksum(AsText(node))
  {
    PictureWithChecksum(AsText(node))
  }

  /** The required field whose absence makes reading fail. */
  datatype DeserializeError = NullField(name: string)

  /** The text of a required field, or the failure its absence causes. */
  function RequiredText(root: Json, name: string): (r: Result<string, DeserializeError>)
    ensures r.Success? <==> Get(root, name).Some?
    ensures r.Success? ==> r.value == AsText(Get(root, name).value)
    ensures r.Failure? ==> r.error == NullField(name)
  {
    if Get(root, name).None? then Failure(NullField(name)) else Success(AsText(Get(root, name).value))
  }

  /** The order `deserialize` builds from a tree, or the first required field it finds missing. */
  function DeserializeSpec(root: Json): Result<OrderRecord, DeserializeError>
  {
    var clientName :- RequiredText(root, "clientName");
    var clientPhone :- RequiredText(root, "clientPhone");
    var clientEmail :- RequiredText(root, "clientEmail");
    var description := if Get(root, "description").Some? then Some(AsText(Get(root, "description").value)) else None;
    var pictures := if Get(root, "pictures").Some? then Some(Pictures(Elements(Get(root, "pictures").value))) else None;
    Success(OrderRecord(None, Some(clientName), Some(clientPhone), Some(clientEmail), description, None, None, pictures))
  }

  /** One checksum-only picture per node, in order. */
  function Pictures(nodes: seq<Json>): (ps: seq<Picture>)
    ensures |ps| == |nodes|
    ensures forall i :: 0 <= i < |nodes| ==> ps[i] == PictureOf(nodes[i])
  {
    seq(|nodes|, i requires 0 <= i < |nodes| => PictureOf(nodes[i]))
  }

  /**
   * Reading fails exactly when one of the client's name, phone or email is absent, and then it
   * names the first of them, in that order, that is missing.
   */
  lemma FailsOnFirstMissingField(root: Json)
    ensures DeserializeSpec(root).Failure? <==>
      Get(root, "clientName").None? || Get(root, "clientPhone").None? || Get(root, "clientEmail").None?
    ensures DeserializeSpec(root).Failure? ==> (DeserializeSpec(root).error ==
      if Get(root, "clientName").None? then NullField("clientName")
      else if Get(root, "clientPhone").None? then NullField("clientPhone")
      else NullField("clientEmail"))
  {
  }

  /**
   * On success the client's details are the text of the same-named members, a description is
   * present exactly when its member is, and the identifier and both timestamps stay unset.
   */
  lemma FieldsAreCopied(root: Json)
    requires DeserializeSpec(root).Success?
    ensures var o := DeserializeSpec(root).value;
      && o.clientName == Some(AsText(Get(root, "clientName").value))
      && o.clientPhone == Some(AsText(Get(root, "clientPhone").value))
      && o.clientEmail == Some(AsText(Get(root, "clientEmail").value))
      && (o.description.Some? <==> Get(root, "description").Some?)
      && (o.description.Some? ==> o.description.value == AsText(Get(root, "description").value))
      && o.id.None? && o.acceptedAt.None? && o.completedAt.None?
  {
  }

  /**
   * The picture list is unset when the member is absent; otherwise it has one checksum-only
   * picture per element of the member, in order.
   */
  lemma PicturesFollowElements(root: Json)
    requires DeserializeSpec(root).Success?
    ensures var o := DeserializeSpec(root).value;
      && (o.pictures.None? <==> Get(root, "pictures").None?)
      && (o.pictures.Some? ==>
        var nodes := Elements(Get(root, "pictures").value);
        && |o.pictures.value| == |nodes|
        && forall i :: 0 <= i < |nodes| ==>
          o.pictures.value[i].checksum == AsText(nodes[i]) && o.pictures.value[i].fileName.None?)
  {
  }

  /** The JSON form of an order's client details, description and picture checksums. */
  function OrderJson(clientName: string, clientPhone: string, clientEmail: string,
                     description: Option<string>, checksums: seq<string>): (j: Json)
    ensures j.JObject? && |j.members| == (if description.Some? then 5 else 4)
  {
    JObject([("clientName", JString(clientName)), ("clientPhone", JString(clientPhone)),
             ("clientEmail", JString(clientEmail))]
            + (if description.Some? then [("description", JString(description.value))] else [])
            + [("pictures", ChecksumArray(checksums))])
  }

  /** The checksum array of an order's JSON form. */
  function ChecksumArray(checksums: seq<string>): (j: Json)
    ensures j.JArray? && |j.elements| == |checksums|
    ensures forall i :: 0 <= i < |checksums| ==> j.elements[i] == JString(checksums[i])
  {
    JArray(seq(|checksums|, i requires 0 <= i < |checksums| => JString(checksums[i])))
  }

  /** Each member of an order's JSON form is found under its own name. */
  lemma OrderJsonMembers(clientName: string, clientPhone: string, clientEmail: string,
                         description: Option<string>, checksums: seq<string>)
    ensures var j := OrderJson(clientName, clientPhone, clientEmail, description, checksums);
      && Get(j, "clientName") == Some(JString(clientName))
      && Get(j, "clientPhone") == Some(JString(clientPhone))
      && Get(j, "clientEmail") == Some(JString(clientEmail))
      && Get(j, "description") == (if description.Some? then Some(JString(description.value)) else None)
      && Get(j, "pictures") == Some(ChecksumArray(checksums))
  {
    var m := OrderJson(clientName, clientPhone, clientEmail, description, checksums).members;
    var pictures := ("pictures", ChecksumArray(checksums));
    var tail := if description.Some? then [("description", JString(description.value)), pictures] else [pictures];
    assert m[0].0 == "clientName" && m[1].0 == "clientPhone" && m[2].0 == "clientEmail";
    assert m[1..][1..] == m[2..] && m[2..][1..] == tail;
    assert Lookup(m, "clientPhone") == Lookup(m[1..], "clientPhone");
    assert Lookup(m, "clientEmail") == Lookup(m[1..], "clientEmail") == Lookup(m[2..], "clientEmail");
    assert Lookup(m, "description") == Lookup(m[2..], "description") == Lookup(tail, "description");
    assert Lookup(m, "pictures") == Lookup(m[2..], "pictures") == Lookup(tail, "pictures");
    assert "pictures" != "description";
    if description.Some? {
      assert tail[1..] == [pictures];
      assert Lookup(tail, "pictures") == Lookup([pictures], "pictures");
    } else {
      assert tail[1..] == [];
      assert Lookup(tail, "description") == Lookup([], "description");
    }
  }

  /** Reading an order's JSON form gives back the order, with checksum-only pictures. */
  lemma ReadsBackOrderJson(clientName: string, clientPhone: string, clientEmail: string,
                           description: Option<string>, checksums: seq<string>)
    ensures DeserializeSpec(OrderJson(clientName, clientPhone, clientEmail, description, checksums))
      == Success(OrderRecord(None, Some(clientName), Some(clientPhone), Some(clientEmail), description, None, None,
                             Some(seq(|checksums|, i requires 0 <= i < |checksums| => PictureWithChecksum(checksums[i])))))
  {
    OrderJsonMembers(clientName, clientPhone, clientEmail, description, checksums);
    var ps := Pictures(Elements(ChecksumArray(checksums)));
    assert ps == seq(|checksums|, i requires 0 <= i < |checksums| => PictureWithChecksum(checksums[i]));
  }

  /** The loop over the `pictures` node: one checksum-only picture per element, in order. */
  method CollectPictures(nodes: seq<Json>) returns (pictures: seq<Picture>)
    ensures pictures == Pictures(nodes)
  {
    pictures := [];
    for k := 0 to |nodes|
      invariant |pictures| == k
      invariant forall i :: 0 <= i < k ==> pictures[i] == PictureOf(nodes[i])
    {
      var picture := PictureWithChecksum(AsText(nodes[k]));
      pictures := pictures + [picture];
    }
  }

  /** `deserialize`: a new order filled through its setters, or the failure of a missing field. */
  method Deserialize(root: Json) returns (r: Result<Order, DeserializeError>)
    ensures r.Failure? <==> DeserializeSpec(root).Failure?
    ensures r.Failure? ==> r.error == DeserializeSpec(root).error
    ensures r.Success? ==> fresh(r.value) && r.value.Record() == DeserializeSpec(root).value
  {
    var result := new Order();
    var clientName := Get(root, "clientName");
    if clientName.None? {
      return Failure(NullField("clientName"));
    }
    result.clientName := Some(AsText(clientName.value));
    var clientPhone := Get(root, "clientPhone");
    if clientPhone.None? {
      return Failure(NullField("clientPhone"));
    }
    result.clientPhone := Some(AsText(clientPhone.value));
    var clientEmail := Get(root, "clientEmail");
    if clientEmail.None? {
      return Failure(NullField("clientEmail"));
    }
    result.clientEmail := Some(AsText(clientEmail.value));
    var description := Get(root, "description");
    result.description := if description.Some? then Some(AsText(description.value)) else None;
    var pictureCheckSums := Get(root, "pictures");
    if pictureCheckSums.Some? {
      var pictures := CollectPictures(Elements(pictureCheckSums.value));
      result.pictures := Some(pictures);
    }
    return Success(result);
  }
}
