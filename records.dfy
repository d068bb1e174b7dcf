/**
 * What the two dashboard views share: the record summaries the server sends,
 * the details of one focused record, the timestamp cursor computed from a
 * fetched batch, and the "skip an empty query" rule of both search bars.
 */
module Records {
  import opened Wrappers

  type RowId = int

  /** A packet or stream as listed (no payload): `IPacketNoPayload`, `IStreamNoPayload`. */
  datatype Summary = Summary(rowid: RowId, startTime: int, endTime: int, protocol: string)

  /**
   * A packet or stream with its payload, as returned by the details requests.
   * Only `rowid` is read by the views; the payload's encoding belongs to the
   * network layer and is kept as an opaque string.
   */
  datatype Details = Details(rowid: RowId, startTime: int, endTime: int, protocol: string, payload: string)

  /** `Math.max(...xs)` on a non-empty list of integers. */
  function Max(xs: seq<int>): (m: int)
    requires |xs| > 0
    ensures forall i :: 0 <= i < |xs| ==> xs[i] <= m
    ensures exists i :: 0 <= i < |xs| && xs[i] == m
  {
    if |xs| == 1 then xs[0]
    else
      var rest := Max(xs[1..]);
      if xs[0] >= rest then xs[0] else rest
  }

  /**
   * The next cursor after a fetch whose records carry the timestamps `times`:
   * the old cursor when the batch is empty, otherwise the largest timestamp of
   * the batch -- NOT the larger of that and the old cursor.
   */
  function NextCursor(last: int, times: seq<int>): (c: int)
    ensures times == [] ==> c == last
    ensures times != [] ==> forall i :: 0 <= i < |times| ==> times[i] <= c
    ensures times != [] ==> exists i :: 0 <= i < |times| && times[i] == c
  {
    if |times| > 0 then Max(times) else last
  }

  /** The cursor is not maxed with its old value: a batch of older records moves it back. */
  lemma CursorCanMoveBack()
    ensures NextCursor(5000, [3000]) == 3000
  {
  }

  /** When every record of the batch is at least as new as the cursor, the cursor does not move back. */
  lemma CursorAdvancesOnNewerBatch(last: int, times: seq<int>)
    requires forall i :: 0 <= i < |times| ==> last <= times[i]
    ensures last <= NextCursor(last, times)
  {
  }

  function EndTimes(batch: seq<Summary>): (ts: seq<int>)
    ensures |ts| == |batch| && forall i :: 0 <= i < |batch| ==> ts[i] == batch[i].endTime
  {
    seq(|batch|, i requires 0 <= i < |batch| => batch[i].endTime)
  }

  function StartTimes(batch: seq<Summary>): (ts: seq<int>)
    ensures |ts| == |batch| && forall i :: 0 <= i < |batch| ==> ts[i] == batch[i].startTime
  {
    seq(|batch|, i requires 0 <= i < |batch| => batch[i].startTime)
  }

  /**
   * The query a search bar sends when submitted: nothing for the empty string,
   * the query itself otherwise -- a query of blanks is sent.
   */
  function QueryToSend(query: string): (r: Option<string>)
    ensures r.None? <==> |query| == 0
    ensures r.Some? ==> r.value == query
  {
    if |query| == 0 then None else Some(query)
  }

  lemma BlankQueryIsSent()
    ensures QueryToSend(" ") == Some(" ")
  {
  }

  /** `focused?.rowid === rowid`: the details of `rowid` are the ones held. */
  predicate Holds(focused: Option<Details>, rowid: RowId) {
    focused.Some? && focused.value.rowid == rowid
  }
}
