/**
 * The request schema of `POST /receipts/process`: the `type`, `required` and
 * `minItems` keywords of JSON Schema (draft 2020-12, sections 6.1.1, 6.5.3 and
 * 6.4.2) as a predicate over JSON values, and the reading of a conforming
 * request as a `Receipt`.
 */
module Schema {
  import opened Scoring

  /** A JSON value.  Numbers are integers: the only number the store writes is a point total. */
  datatype Json =
    | JNull
    | JBool(b: bool)
    | JNumber(n: int)
    | JString(s: string)
    | JArray(elements: seq<Json>)
    | JObject(members: map<string, Json>)

  /** The member `key` is present and is a string. */
  predicate HasString(members: map<string, Json>, key: string) {
    key in members && members[key].JString?
  }

  /** An element of `items`: an object with string members `shortDescription` and `price`. */
  predicate ItemMatches(j: Json) {
    j.JObject? && HasString(j.members, "shortDescription") && HasString(j.members, "price")
  }

  /** An object with the five required members, of type string except `items`, a non-empty array of items. */
  predicate MatchesSchema(j: Json) {
    && j.JObject?
    && HasString(j.members, "retailer")
    && HasString(j.members, "purchaseDate")
    && HasString(j.members, "purchaseTime")
    && HasString(j.members, "total")
    && "items" in j.members && j.members["items"].JArray?
    && |j.members["items"].elements| >= 1
    && forall k :: 0 <= k < |j.members["items"].elements| ==> ItemMatches(j.members["items"].elements[k])
  }

  function ToItem(j: Json): Item
    requires ItemMatches(j)
  {
    Item(j.members["shortDescription"].s, j.members["price"].s)
  }

  function ToItems(elements: seq<Json>): (items: seq<Item>)
    requires forall k :: 0 <= k < |elements| ==> ItemMatches(elements[k])
    ensures |items| == |elements|
    ensures forall k :: 0 <= k < |elements| ==> items[k] == ToItem(elements[k])
  {
    if elements == [] then []
    else ToItems(elements[..|elements| - 1]) + [ToItem(elements[|elements| - 1])]
  }

  /** The fields `calculate_points` reads from a conforming request. */
  function ToReceipt(j: Json): Receipt
    requires MatchesSchema(j)
  {
    Receipt(j.members["retailer"].s, j.members["purchaseDate"].s, j.members["purchaseTime"].s,
            j.members["total"].s, ToItems(j.members["items"].elements))
  }

  function FromItem(item: Item): Json {
    JObject(map["shortDescription" := JString(item.shortDescription), "price" := JString(item.price)])
  }

  function FromItems(items: seq<Item>): (elements: seq<Json>)
    ensures |elements| == |items|
    ensures forall k :: 0 <= k < |items| ==> elements[k] == FromItem(items[k])
  {
    if items == [] then []
    else FromItems(items[..|items| - 1]) + [FromItem(items[|items| - 1])]
  }

  /** The request a client sends for a receipt. */
  function FromReceipt(r: Receipt): Json {
    JObject(map[
      "retailer" := JString(r.retailer),
      "purchaseDate" := JString(r.purchaseDate),
      "purchaseTime" := JString(r.purchaseTime),
      "total" := JString(r.total),
      "items" := JArray(FromItems(r.items))])
  }

  /** A receipt's request conforms exactly when it lists an item, and then reads back as the same receipt. */
  lemma SchemaRoundTrip(r: Receipt)
    ensures MatchesSchema(FromReceipt(r)) <==> |r.items| >= 1
    ensures |r.items| >= 1 ==> ToReceipt(FromReceipt(r)) == r
  {
    var elements := FromItems(r.items);
    forall k | 0 <= k < |elements|
      ensures ItemMatches(elements[k]) && ToItem(elements[k]) == r.items[k]
    {
    }
    if |r.items| >= 1 {
      assert ToItems(elements) == r.items;
    }
  }

  /** The request with the member "points" set, as `data["points"] = ...` does. */
  function WithPoints(j: Json, points: int): (stored: Json)
    requires j.JObject?
    ensures stored.JObject? && "points" in stored.members && stored.members["points"] == JNumber(points)
    ensures stored.members.Keys == j.members.Keys + {"points"}
    ensures forall key :: key in j.members && key != "points" ==> stored.members[key] == j.members[key]
  {
    JObject(j.members["points" := JNumber(points)])
  }

  /** Recording the points keeps the request conforming and does not change the receipt it describes. */
  lemma WithPointsKeepsReceipt(j: Json, points: int)
    requires MatchesSchema(j)
    ensures MatchesSchema(WithPoints(j, points))
    ensures ToReceipt(WithPoints(j, points)) == ToReceipt(j)
  {
    var stored := WithPoints(j, points);
    assert stored.members["items"] == j.members["items"];
  }
}
