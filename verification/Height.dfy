/** Block heights: how a request names one, and which heights need an archival node (internal/proxy/height.go). */
module Height {
  import opened Wrappers
  import opened Text

  /** A JSON value as far as a height can be read from it: a number's text, a string's contents, anything else. */
  datatype JsonValue = Number(text: string) | Quoted(text: string) | Other

  datatype Params = Absent | Positional(values: seq<JsonValue>) | Named(fields: map<string, JsonValue>) | Unusable

  /** A request body as the JSON decoder sees it: one JSON-RPC request, a batch (the methods of its entries, see
      section 6 of the JSON-RPC 2.0 Specification), or something it rejects. A missing method reads as "". */
  datatype Json = Single(rpc: string, params: Params) | Batch(methods: seq<string>) | Malformed

  /** The methods whose first parameter is a height; for the other two listed methods it is a hash. */
  const HEIGHT_FIRST: set<string> := {
    "block", "block_results", "validators", "commit", "blockchain", "header",
    "header.GetByHeight", "blob.Get", "blob.GetAll", "blob.GetProof",
    "share.GetSharesByNamespace", "share.GetEDS", "share.GetNamespaceData"
  }

  /** parseHeight: 0 when the value is not a 64-bit integer. */
  function ParseHeight(v: JsonValue): int {
    if v.Other? then 0 else match ParseInt64(v.text) case None => 0 case Some(h) => h
  }

  /** The height a request body asks for, 0 when none can be determined. */
  function ExtractHeight(rpc: string, body: Json): int {
    if rpc !in HEIGHT_FIRST || !body.Single? then 0
    else match body.params
         case Positional(values) => if values == [] then 0 else ParseHeight(values[0])
         case Named(fields) =>
           if "height" in fields then ParseHeight(fields["height"])
           else if "Height" in fields then ParseHeight(fields["Height"])
           else 0
         case _ => 0
  }

  /** The height named by the query string; `value` is its "height" parameter, "" when missing or unreadable. */
  function HeightFromQuery(value: string): int {
    match ParseInt64(value) case None => 0 case Some(h) => h
  }

  /** The height that a request is taken to ask for. */
  function RequestHeight(rpc: string, body: Json, query: string): (h: int)
    ensures -0x8000_0000_0000_0000 <= h < 0x8000_0000_0000_0000
  {
    var h := ExtractHeight(rpc, body);
    if h == 0 then HeightFromQuery(query) else h
  }

  /** A height-bearing method's height is read back whether it is written as a number or as a string, by position
      or by name, or in the query. */
  lemma WrittenHeightIsRead(rpc: string, h: int, rest: seq<JsonValue>, fields: map<string, JsonValue>)
    requires -0x8000_0000_0000_0000 <= h < 0x8000_0000_0000_0000
    requires rpc in HEIGHT_FIRST
    ensures ExtractHeight(rpc, Single(rpc, Positional([Number(Decimal(h))] + rest))) == h
    ensures ExtractHeight(rpc, Single(rpc, Positional([Quoted(Decimal(h))] + rest))) == h
    ensures ExtractHeight(rpc, Single(rpc, Named(fields["height" := Quoted(Decimal(h))]))) == h
    ensures HeightFromQuery(Decimal(h)) == h
  {
    ParseOfDecimal(h);
  }

  /** A height in the body takes precedence over the query; without one, and for every batch, the query decides. */
  lemma BodyBeforeQuery(rpc: string, h: int, q: int, rest: seq<JsonValue>, methods: seq<string>)
    requires -0x8000_0000_0000_0000 <= h < 0x8000_0000_0000_0000 && -0x8000_0000_0000_0000 <= q < 0x8000_0000_0000_0000
    ensures rpc in HEIGHT_FIRST && h != 0 ==>
              RequestHeight(rpc, Single(rpc, Positional([Number(Decimal(h))] + rest)), Decimal(q)) == h
    ensures RequestHeight(rpc, Single(rpc, Absent), Decimal(q)) == q
    ensures RequestHeight(rpc, Batch(methods), Decimal(q)) == q
  {
    ParseOfDecimal(h);
    ParseOfDecimal(q);
  }

  /** Go's int64 subtraction, which wraps around. */
  function Sub64(a: int, b: int): int {
    (a - b + 0x8000_0000_0000_0000) % U64 - 0x8000_0000_0000_0000
  }

  /** Whether a height lies behind the pruning window of a node whose head is `head` (0 while unknown). */
  predicate Archival(window: int, head: int, height: int) {
    window > 0 && head != 0 && height > 0 && height < Sub64(head, window)
  }

  /** With a head that a chain can have, the wrap-around never happens. */
  lemma ArchivalMeansPruned(window: int, head: int, height: int)
    requires 0 <= head < 0x8000_0000_0000_0000 && 0 <= window < 0x8000_0000_0000_0000
    ensures Archival(window, head, height) <==> window > 0 && 0 < height && height + window < head
  {
    assert Sub64(head, window) == head - window;
  }

  class HeightTracker {
    var headHeight: int
    const pruningWindow: int

    constructor (pruningWindow: int)
      ensures this.pruningWindow == pruningWindow && headHeight == 0
    {
      this.pruningWindow, headHeight := pruningWindow, 0;
    }

    method SetHead(height: int)
      modifies this
      ensures headHeight == height
    {
      headHeight := height;
    }

    method IsArchival(height: int) returns (r: bool)
      ensures r == Archival(pruningWindow, headHeight, height)
    {
      if pruningWindow <= 0 {
        return false;
      }
      var head := headHeight;
      if head == 0 {
        return false;
      }
      if height <= 0 {
        return false;
      }
      return height < Sub64(head, pruningWindow);
    }
  }
}
