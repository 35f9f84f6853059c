/**
 * The in-memory `receipts` dictionary and the two routes that use it:
 * `POST /receipts/process` scores a conforming request and stores it, with its
 * points, under a fresh id; `GET /receipts/<id>/points` answers the stored points.
 */
module Store {
  import opened Results
  import opened Scoring
  import opened Schema

  /** The answer of `POST /receipts/process`. */
  datatype ProcessOutcome =
    | Accepted(id: string)                 // 200, {"id": id}
    | SchemaRejected                       // 400 from the schema validation
    | InvalidReceipt(error: PointsError)   // 400, {"ERROR": "Invalid Receipt", "MESSAGE": ...}

  /** The answer of `GET /receipts/<id>/points`. */
  datatype LookupOutcome =
    | Found(points: int)   // 200, {"points": points}
    | NotFound(id: string) // 404, {"ERROR": "Receipt Not Found", "MESSAGE": "Receipt ID <id> does not exist."}

  function ProcessStatus(o: ProcessOutcome): nat {
    if o.Accepted? then 200 else 400
  }

  function LookupStatus(o: LookupOutcome): nat {
    if o.Found? then 200 else 404
  }

  /** A stored entry: a conforming request whose "points" member is the score of the receipt it describes. */
  predicate Stored(entry: Json) {
    && MatchesSchema(entry)
    && "points" in entry.members
    && entry.members["points"].JNumber?
    && Points(ToReceipt(entry)) == Ok(entry.members["points"].n)
  }

  /** The points recorded in a stored entry. */
  function StoredPoints(entry: Json): int
    requires Stored(entry)
  {
    entry.members["points"].n
  }

  class ReceiptStore {
    /** `receipts`: receipt id to the request as received, with "points" added. */
    var receipts: map<string, Json>

    ghost predicate Valid()
      reads this
    {
      forall id :: id in receipts ==> Stored(receipts[id])
    }

    constructor()
      ensures Valid() && receipts == map[]
    {
      receipts := map[];
    }

    /**
     * `process_receipt`.  `receiptId` stands for `str(uuid.uuid4())`, drawn only
     * once the request conforms; it is fresh, as a random UUID is taken to be.
     */
    method Process(request: Json, receiptId: string) returns (outcome: ProcessOutcome)
      requires Valid() && receiptId !in receipts
      modifies this
      ensures Valid()
      ensures !MatchesSchema(request) ==> outcome == SchemaRejected && receipts == old(receipts)
      ensures MatchesSchema(request) && Points(ToReceipt(request)).Err? ==>
        outcome == InvalidReceipt(Points(ToReceipt(request)).error) && receipts == old(receipts)
      ensures MatchesSchema(request) && Points(ToReceipt(request)).Ok? ==>
        && outcome == Accepted(receiptId)
        && receipts == old(receipts)[receiptId := WithPoints(request, Points(ToReceipt(request)).value)]
      ensures forall id :: id in old(receipts) ==> id in receipts && receipts[id] == old(receipts)[id]
      ensures ProcessStatus(outcome) == 200 <==> MatchesSchema(request) && Points(ToReceipt(request)).Ok?
      ensures ProcessStatus(outcome) == 400 <==> !(MatchesSchema(request) && Points(ToReceipt(request)).Ok?)
    {
      if !MatchesSchema(request) {
        return SchemaRejected;
      }
      var result := CalculatePoints(ToReceipt(request));
      if result.Err? {
        return InvalidReceipt(result.error);
      }
      var entry := WithPoints(request, result.value);
      WithPointsKeepsReceipt(request, result.value);
      receipts := receipts[receiptId := entry];
      return Accepted(receiptId);
    }

    /** `get_receipt_points`: the recorded points of a stored receipt, or `NotFound` naming the id. */
    method Lookup(receiptId: string) returns (outcome: LookupOutcome)
      requires Valid()
      ensures receiptId in receipts ==> outcome == Found(StoredPoints(receipts[receiptId]))
      ensures receiptId in receipts ==> Points(ToReceipt(receipts[receiptId])) == Ok(outcome.points)
      ensures receiptId !in receipts ==> outcome == NotFound(receiptId)
      ensures LookupStatus(outcome) == 200 <==> receiptId in receipts
      ensures LookupStatus(outcome) == 404 <==> receiptId !in receipts
    {
      if receiptId in receipts {
        return Found(receipts[receiptId].members["points"].n);
      }
      return NotFound(receiptId);
    }
  }

  /** A client posts a receipt, then asks for its points, and is answered with its score. */
  method ProcessThenLookup(store: ReceiptStore, r: Receipt, receiptId: string)
    returns (processed: ProcessOutcome, looked: LookupOutcome)
    requires store.Valid() && receiptId !in store.receipts && |r.items| >= 1
    modifies store
    ensures store.Valid()
    ensures Points(r).Ok? ==> processed == Accepted(receiptId) && looked == Found(Points(r).value)
    ensures Points(r).Err? ==> processed == InvalidReceipt(Points(r).error) && looked == NotFound(receiptId)
    ensures Points(r).Ok? ==> store.receipts.Keys == old(store.receipts).Keys + {receiptId}
    ensures Points(r).Err? ==> store.receipts == old(store.receipts)
  {
    SchemaRoundTrip(r);
    processed := store.Process(FromReceipt(r), receiptId);
    looked := store.Lookup(receiptId);
  }

  /** The receipt the route test posts. */
  function RouteTestReceipt(): Receipt {
    Receipt("M&M Corner Market", "2022-01-01", "13:01", "6.49", [Item("Mountain Dew 12PK", "6.49")])
  }

  /** The receipt of the route test scores 20 through both routes. */
  method ExampleSession() returns (processed: ProcessOutcome, looked: LookupOutcome)
    ensures processed == Accepted("receipt-1") && ProcessStatus(processed) == 200
    ensures looked == Found(20) && LookupStatus(looked) == 200
  {
    var store := new ReceiptStore();
    ExampleReceiptScoresTwenty();
    processed, looked := ProcessThenLookup(store, RouteTestReceipt(), "receipt-1");
  }

  /** Asking for an id that was never issued is answered 404, naming the id. */
  method ExampleUnknownId(store: ReceiptStore, receiptId: string) returns (missing: LookupOutcome)
    requires store.Valid() && receiptId !in store.receipts
    ensures missing == NotFound(receiptId) && LookupStatus(missing) == 404
  {
    missing := store.Lookup(receiptId);
  }
}
