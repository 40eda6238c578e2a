/**
 Sending the request body (`_send_data_part` and the `if data:` block of
 `HttpClient.request`). Each `connection.send` call is one event of the
 trace; the bytes on the wire are the events joined.
 */
module Body {
  import opened PyStr

  /** `data.read(100000)`: the largest piece read from a stream at once. */
  const ReadSize: nat := 100000

  /** One object handed to `_send_data_part`. A stream is a file-like
      object whose `read(n)` returns the next `n` bytes, fewer at the end,
      and '' once it is exhausted. Anything else is sent as `str(data)`,
      given here as its string form; `truthy` is its Python truth value. */
  datatype Part =
    | Str(s: string)
    | Stream(content: string)
    | Other(form: string, truthy: bool)

  /** The `data` argument of `request`: None, a list of parts, or a single
      object. */
  datatype Data = NoData | Parts(parts: seq<Part>) | Single(part: Part)

  /** `if data:`. Strings and lists are true when non-empty; a stream is
      an object without a length and so always true. */
  predicate Truthy(data: Data): (t: bool)
    ensures !t <==> data == NoData || data == Parts([]) || data == Single(Str(""))
                    || (data.Single? && data.part.Other? && !data.part.truthy)
  {
    match data
    case NoData => false
    case Parts(ps) => |ps| > 0
    case Single(Str(s)) => |s| > 0
    case Single(Stream(_)) => true
    case Single(Other(_, t)) => t
  }

  /** The pieces `read(100000)` returns before the first empty read. */
  function StreamChunks(content: string): (chunks: seq<string>)
    ensures Concat(chunks) == content
    ensures forall i :: 0 <= i < |chunks| ==> 0 < |chunks[i]| <= ReadSize
    ensures forall i :: 0 <= i < |chunks| - 1 ==> |chunks[i]| == ReadSize
    decreases |content|
  {
    if |content| == 0 then []
    else
      var n := if |content| < ReadSize then |content| else ReadSize;
      [content[..n]] + StreamChunks(content[n..])
  }

  /** The send events of `_send_data_part(part, connection)`. */
  function SendPart(part: Part): (events: seq<string>)
    ensures Concat(events) == PartBytes(part)
  {
    match part
    case Str(s) => [s]
    case Stream(content) => StreamChunks(content)
    case Other(form, _) => [form]
  }

  /** The bytes a part stands for. */
  function PartBytes(part: Part): string {
    match part
    case Str(s) => s
    case Stream(content) => content
    case Other(form, _) => form
  }

  /** A list body (http.py:120-122): each part sent in turn, so the bytes
      on the wire are the parts' bytes in list order. */
  function SendParts(parts: seq<Part>): (events: seq<string>)
    ensures Concat(events) == PartsBytes(parts)
  {
    if |parts| == 0 then []
    else
      var first, rest := SendPart(parts[0]), SendParts(parts[1..]);
      ConcatAppend(first, rest);
      first + rest
  }

  /** The bytes of a list of parts, part after part. */
  function PartsBytes(parts: seq<Part>): string {
    if |parts| == 0 then "" else PartBytes(parts[0]) + PartsBytes(parts[1..])
  }

  /** The send events of the request body: nothing for a false `data`, each
      part in turn for a list, the single object otherwise. */
  function BodyTrace(data: Data): (events: seq<string>)
    ensures Concat(events) == DataBytes(data)
    ensures !Truthy(data) ==> events == []
    ensures data.Single? && data.part.Str? && Truthy(data) ==> events == [data.part.s]
  {
    if !Truthy(data) then []
    else match data
      case Parts(ps) => SendParts(ps)
      case Single(p) => SendPart(p)
      case NoData => []
  }

  /** The bytes a body stands for. */
  function DataBytes(data: Data): string {
    if !Truthy(data) then ""
    else match data
      case Parts(ps) => PartsBytes(ps)
      case Single(p) => PartBytes(p)
      case NoData => ""
  }

  /** A stream goes out in reads of at most 100000 bytes, every read but
      the last being full, and the reads together are its content. */
  lemma StreamSentInChunks(content: string)
    ensures var events := BodyTrace(Single(Stream(content)));
            && Concat(events) == content
            && |events| == (|content| + ReadSize - 1) / ReadSize
            && forall i :: 0 <= i < |events| ==> 0 < |events[i]| <= ReadSize
  {
    ChunkCount(content);
  }

  /** The number of reads that return data: the content length divided by
      100000, rounded up. */
  lemma {:induction false} ChunkCount(content: string)
    ensures |StreamChunks(content)| == (|content| + ReadSize - 1) / ReadSize
    decreases |content|
  {
    if |content| > 0 {
      var n := if |content| < ReadSize then |content| else ReadSize;
      ChunkCount(content[n..]);
    }
  }
}
