/**
 * The state of the Captures view: packets fetched once since a timestamp
 * cursor, the protocol list the server reports, the content search overlay
 * and the focused packet. Packets are appended with no de-duplication, the
 * protocol list is replaced, and the overlay counts as active only when it
 * holds at least one packet.
 */
module Captures {
  import opened Wrappers
  import opened Records

  /** The view's state record, less the layout fields (table height, panel dimensions). */
  datatype CapturesState = CapturesState(
    query: string,
    lastTimestamp: int,
    packets: seq<Summary>,
    packetsProtocols: seq<string>,
    filteredPackets: seq<Summary>,
    filteredPacketsProtocols: seq<string>,
    focusedPacketLoading: bool,
    focusedPacket: Option<Details>)

  /** `cursor` is the initial 0 or the start time of a packet in `packets`. */
  predicate CursorHeldBy(cursor: int, packets: seq<Summary>) {
    cursor == 0 || exists i :: 0 <= i < |packets| && packets[i].startTime == cursor
  }

  /** While details are loading no stale details are shown. */
  predicate FocusCoherent(s: CapturesState) {
    s.focusedPacketLoading ==> s.focusedPacket.None?
  }

  predicate Consistent(s: CapturesState) {
    CursorHeldBy(s.lastTimestamp, s.packets) && FocusCoherent(s)
  }

  /** The packets the list shows: the search results when there is at least one, else the live packets. */
  function DisplayedPackets(s: CapturesState): (r: seq<Summary>)
    ensures |s.filteredPackets| > 0 ==> r == s.filteredPackets
    ensures |s.filteredPackets| == 0 ==> r == s.packets
  {
    if |s.filteredPackets| > 0 then s.filteredPackets else s.packets
  }

  /** The protocols the list shows, chosen by whether there are search results PACKETS. */
  function DisplayedProtocols(s: CapturesState): (r: seq<string>)
    ensures |s.filteredPackets| > 0 ==> r == s.filteredPacketsProtocols
    ensures |s.filteredPackets| == 0 ==> r == s.packetsProtocols
  {
    if |s.filteredPackets| > 0 then s.filteredPacketsProtocols else s.packetsProtocols
  }

  /**
   * The fetch started with `cursor` completes with `batch` and the server's
   * `uniqueProtocols`: the batch is appended to the packets held NOW, the
   * protocol list is replaced, the cursor moves to the batch's latest start
   * time; query, overlay and focus are left as they are.
   */
  function PacketsFetched(s: CapturesState, cursor: int, batch: seq<Summary>, uniqueProtocols: seq<string>)
    : (r: CapturesState)
    ensures |r.packets| == |s.packets| + |batch|
    ensures r.packets[..|s.packets|] == s.packets && r.packets[|s.packets|..] == batch
    ensures r.packetsProtocols == uniqueProtocols
    ensures batch == [] ==> r.lastTimestamp == cursor
    ensures batch != [] ==> forall i :: 0 <= i < |batch| ==> batch[i].startTime <= r.lastTimestamp
    ensures batch != [] ==> exists i :: 0 <= i < |batch| && batch[i].startTime == r.lastTimestamp
    ensures r.(lastTimestamp := s.lastTimestamp, packets := s.packets, packetsProtocols := s.packetsProtocols) == s
  {
    var times := StartTimes(batch);
    var c := NextCursor(cursor, times);
    assert batch != [] ==> exists i :: 0 <= i < |times| && times[i] == c;
    s.(lastTimestamp := c, packets := s.packets + batch, packetsProtocols := uniqueProtocols)
  }

  /** Appending keeps every packet already held and adds each fetched one again, duplicates included. */
  lemma FetchAddsEveryPacket(s: CapturesState, cursor: int, batch: seq<Summary>, uniqueProtocols: seq<string>)
    ensures multiset(PacketsFetched(s, cursor, batch, uniqueProtocols).packets) == multiset(s.packets) + multiset(batch)
  {
    var r := PacketsFetched(s, cursor, batch, uniqueProtocols);
    assert r.packets == s.packets + batch;
  }

  /** A protocol no longer reported by the server is dropped: the list is not a union. */
  lemma ProtocolsAreReplaced(s: CapturesState, cursor: int, batch: seq<Summary>, uniqueProtocols: seq<string>, p: string)
    requires p in s.packetsProtocols && p !in uniqueProtocols
    ensures p !in PacketsFetched(s, cursor, batch, uniqueProtocols).packetsProtocols
  {
  }

  /** When the fetch's cursor is held, the cursor after it is held too: it always names a packet the view has (or is 0). */
  lemma {:induction false} FetchKeepsCursorHeld(s: CapturesState, cursor: int, batch: seq<Summary>, uniqueProtocols: seq<string>)
    requires CursorHeldBy(cursor, s.packets)
    ensures var r := PacketsFetched(s, cursor, batch, uniqueProtocols);
      CursorHeldBy(r.lastTimestamp, r.packets)
  {
    var r := PacketsFetched(s, cursor, batch, uniqueProtocols);
    if batch == [] {
      if cursor != 0 {
        var i :| 0 <= i < |s.packets| && s.packets[i].startTime == cursor;
        assert r.packets[i] == s.packets[i];
      }
    } else {
      var j :| 0 <= j < |batch| && batch[j].startTime == r.lastTimestamp;
      assert r.packets[|s.packets| + j] == batch[j];
    }
  }

  /** The search text changes; nothing else does. */
  function QueryChanged(s: CapturesState, query: string): (r: CapturesState)
    ensures r.query == query && r.(query := s.query) == s
  {
    s.(query := query)
  }

  /** A search answer replaces both overlay fields wholesale; nothing else changes. */
  function SearchAnswered(s: CapturesState, results: seq<Summary>, uniqueProtocols: seq<string>): (r: CapturesState)
    ensures r.filteredPackets == results && r.filteredPacketsProtocols == uniqueProtocols
    ensures r.(filteredPackets := s.filteredPackets, filteredPacketsProtocols := s.filteredPacketsProtocols) == s
  {
    s.(filteredPackets := results, filteredPacketsProtocols := uniqueProtocols)
  }

  /** Reset empties the query and both overlay fields. */
  function SearchReset(s: CapturesState): (r: CapturesState)
    ensures r.query == "" && r.filteredPackets == [] && r.filteredPacketsProtocols == []
    ensures r.(query := s.query, filteredPackets := s.filteredPackets,
               filteredPacketsProtocols := s.filteredPacketsProtocols) == s
  {
    s.(query := "", filteredPackets := [], filteredPacketsProtocols := [])
  }

  /** The details request a click on `rowid` issues: none when those details are already held. */
  function FocusRequest(s: CapturesState, rowid: RowId): (r: Option<RowId>)
    ensures r.None? <==> Holds(s.focusedPacket, rowid)
    ensures r.Some? ==> r.value == rowid
  {
    if Holds(s.focusedPacket, rowid) then None else Some(rowid)
  }

  /** A click on `rowid`: a no-op when held, otherwise loading starts and the old details are dropped. */
  function FocusStarted(s: CapturesState, rowid: RowId): (r: CapturesState)
    ensures Holds(s.focusedPacket, rowid) ==> r == s
    ensures !Holds(s.focusedPacket, rowid) ==>
      && r.focusedPacketLoading && r.focusedPacket.None?
      && r.(focusedPacketLoading := s.focusedPacketLoading, focusedPacket := s.focusedPacket) == s
  {
    if Holds(s.focusedPacket, rowid) then s
    else s.(focusedPacketLoading := true, focusedPacket := None)
  }

  /** A details answer is stored whatever was requested since, and loading ends. */
  function FocusAnswered(s: CapturesState, details: Details): (r: CapturesState)
    ensures r.focusedPacket == Some(details) && !r.focusedPacketLoading
    ensures r.(focusedPacket := s.focusedPacket, focusedPacketLoading := s.focusedPacketLoading) == s
  {
    s.(focusedPacketLoading := false, focusedPacket := Some(details))
  }

  /** An empty search answer leaves the live packets AND the live protocols displayed, whatever protocols it reports. */
  lemma EmptySearchAnswerShowsLive(s: CapturesState, uniqueProtocols: seq<string>)
    ensures var r := SearchAnswered(s, [], uniqueProtocols);
      DisplayedPackets(r) == s.packets && DisplayedProtocols(r) == s.packetsProtocols
  {
  }

  /** A non-empty search answer is what is displayed, whatever was displayed before. */
  lemma SearchAnswerSupersedes(s: CapturesState, results: seq<Summary>, uniqueProtocols: seq<string>)
    requires results != []
    ensures var r := SearchAnswered(s, results, uniqueProtocols);
      DisplayedPackets(r) == results && DisplayedProtocols(r) == uniqueProtocols
  {
  }

  /** After a reset the live packets and protocols are displayed again. */
  lemma ResetRestoresLiveView(s: CapturesState, results: seq<Summary>, uniqueProtocols: seq<string>)
    ensures var r := SearchReset(SearchAnswered(s, results, uniqueProtocols));
      DisplayedPackets(r) == s.packets && DisplayedProtocols(r) == s.packetsProtocols
  {
  }

  /** A fetch while search results are shown changes the live packets but not what is displayed. */
  lemma FetchUnderOverlayKeepsDisplay(s: CapturesState, cursor: int, batch: seq<Summary>, uniqueProtocols: seq<string>)
    requires s.filteredPackets != []
    ensures var r := PacketsFetched(s, cursor, batch, uniqueProtocols);
      DisplayedPackets(r) == DisplayedPackets(s) && DisplayedProtocols(r) == DisplayedProtocols(s)
  {
  }

  /** Click A, click B, B's answer, then A's answer: A's details end up shown. */
  lemma StaleDetailsWin(s: CapturesState, a: Details, b: Details)
    requires a.rowid != b.rowid && !Holds(s.focusedPacket, a.rowid)
    ensures var clicked := FocusStarted(FocusStarted(s, a.rowid), b.rowid);
      FocusAnswered(FocusAnswered(clicked, b), a).focusedPacket == Some(a)
  {
  }

  /** The Captures view: its state fields and one method per handler or request completion. */
  class CapturesView {
    var query: string
    var lastTimestamp: int
    var packets: seq<Summary>
    var packetsProtocols: seq<string>
    var filteredPackets: seq<Summary>
    var filteredPacketsProtocols: seq<string>
    var focusedPacketLoading: bool
    var focusedPacket: Option<Details>

    function State(): CapturesState
      reads this
    {
      CapturesState(query, lastTimestamp, packets, packetsProtocols, filteredPackets, filteredPacketsProtocols,
                    focusedPacketLoading, focusedPacket)
    }

    ghost predicate Valid()
      reads this
    {
      Consistent(State())
    }

    /** The initial state: cursor 0, no packets, no protocols, no search results, no focus. */
    constructor ()
      ensures Valid()
      ensures query == "" && lastTimestamp == 0 && packets == [] && packetsProtocols == []
      ensures filteredPackets == [] && filteredPacketsProtocols == []
      ensures !focusedPacketLoading && focusedPacket.None?
    {
      query := "";
      lastTimestamp := 0;
      packets := [];
      packetsProtocols := [];
      filteredPackets := [];
      filteredPacketsProtocols := [];
      focusedPacketLoading := false;
      focusedPacket := None;
    }

    /** `fetchPackets` up to its request: the cursor sent; the state does not change. */
    method BeginFetch() returns (cursor: int)
      requires Valid()
      ensures cursor == lastTimestamp && CursorHeldBy(cursor, packets)
    {
      cursor := lastTimestamp;
    }

    /** The fetch started with `cursor` answered. */
    method OnPacketsFetched(cursor: int, batch: seq<Summary>, uniqueProtocols: seq<string>)
      requires Valid() && CursorHeldBy(cursor, packets)
      modifies this
      ensures Valid()
      ensures State() == PacketsFetched(old(State()), cursor, batch, uniqueProtocols)
    {
      FetchKeepsCursorHeld(State(), cursor, batch, uniqueProtocols);
      lastTimestamp := NextCursor(cursor, StartTimes(batch));
      packets := packets + batch;
      packetsProtocols := uniqueProtocols;
    }

    /** `onSearchChange`. */
    method ChangeQuery(q: string)
      requires Valid()
      modifies this
      ensures Valid()
      ensures State() == QueryChanged(old(State()), q)
    {
      query := q;
    }

    /** `onSearchSubmit`: the query to send, none when it is empty; the state does not change. */
    method SubmitSearch() returns (request: Option<string>)
      ensures request.None? <==> query == ""
      ensures request.Some? ==> request.value == query
    {
      request := QueryToSend(query);
    }

    /** The search request answered. */
    method OnSearchAnswered(results: seq<Summary>, uniqueProtocols: seq<string>)
      requires Valid()
      modifies this
      ensures Valid()
      ensures State() == SearchAnswered(old(State()), results, uniqueProtocols)
    {
      filteredPackets := results;
      filteredPacketsProtocols := uniqueProtocols;
    }

    /** `onSearchReset`. */
    method ResetSearch()
      requires Valid()
      modifies this
      ensures Valid()
      ensures State() == SearchReset(old(State()))
    {
      query := "";
      filteredPackets := [];
      filteredPacketsProtocols := [];
    }

    /** `fetchPacketDetails` up to its request: `request` is the row whose details are requested, if any. */
    method RequestFocus(rowid: RowId) returns (request: Option<RowId>)
      requires Valid()
      modifies this
      ensures Valid()
      ensures request == FocusRequest(old(State()), rowid)
      ensures State() == FocusStarted(old(State()), rowid)
    {
      if focusedPacket.Some? && focusedPacket.value.rowid == rowid {
        return None;
      }
      focusedPacketLoading := true;
      focusedPacket := None;
      request := Some(rowid);
    }

    /** The details request answered. */
    method OnFocusAnswered(details: Details)
      requires Valid()
      modifies this
      ensures Valid()
      ensures State() == FocusAnswered(old(State()), details)
    {
      focusedPacketLoading := false;
      focusedPacket := Some(details);
    }
  }
}
