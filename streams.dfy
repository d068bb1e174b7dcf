/**
 * The state of the Streams view and the handlers that change it: the
 * periodic poll for streams updated since a timestamp cursor, the content
 * search overlay, and the focused stream whose payload is loaded on demand.
 * Each completion of an asynchronous request is its own step; the order in
 * which completions arrive is left open, so every step holds from any state.
 */
module Streams {
  import opened Wrappers
  import opened Records

  /** The view's state record, less the layout fields (table height, panel dimensions). */
  datatype StreamsState = StreamsState(
    query: string,
    lastTimestamp: int,
    streams: seq<Summary>,
    streamsProtocols: seq<string>,
    streamsLoading: bool,
    filteredStreams: Option<seq<Summary>>,
    filteredStreamsProtocols: Option<seq<string>>,
    focusedStream: Option<Details>,
    focusedStreamLoading: bool)

  /** What a poll reads from the state when it starts: the cursor, the streams and the protocols. */
  datatype PollRequest = PollRequest(cursor: int, streams: seq<Summary>, protocols: seq<string>)

  /** The network layer's merge of the held and the fetched streams; its behaviour is not modelled. */
  type StreamMerge = (seq<Summary>, seq<Summary>) -> seq<Summary>

  /** The network layer's merge of the held and the fetched protocol lists; its behaviour is not modelled. */
  type ProtocolMerge = (seq<string>, seq<string>) -> seq<string>

  /** The overlay's two fields are null together or set together. */
  predicate OverlayPaired(s: StreamsState) {
    s.filteredStreams.Some? <==> s.filteredStreamsProtocols.Some?
  }

  /** While details are loading no stale details are shown. */
  predicate FocusCoherent(s: StreamsState) {
    s.focusedStreamLoading ==> s.focusedStream.None?
  }

  predicate Consistent(s: StreamsState) {
    OverlayPaired(s) && FocusCoherent(s)
  }

  /** The streams the list shows: the search results while a search is active, else the live streams. */
  function DisplayedStreams(s: StreamsState): (r: seq<Summary>)
    ensures s.filteredStreams.Some? ==> r == s.filteredStreams.value
    ensures s.filteredStreams.None? ==> r == s.streams
  {
    if s.filteredStreams.Some? then s.filteredStreams.value else s.streams
  }

  /** The protocols the list shows, chosen by their own overlay field. */
  function DisplayedProtocols(s: StreamsState): (r: seq<string>)
    ensures s.filteredStreamsProtocols.Some? ==> r == s.filteredStreamsProtocols.value
    ensures s.filteredStreamsProtocols.None? ==> r == s.streamsProtocols
  {
    if s.filteredStreamsProtocols.Some? then s.filteredStreamsProtocols.value else s.streamsProtocols
  }

  /** What a poll started in state `s` remembers for its completion. */
  function Snapshot(s: StreamsState): (req: PollRequest)
    ensures req.cursor == s.lastTimestamp && req.streams == s.streams && req.protocols == s.streamsProtocols
  {
    PollRequest(s.lastTimestamp, s.streams, s.streamsProtocols)
  }

  /** A poll starts: only the loading flag changes, to true. */
  function PollStarted(s: StreamsState): (r: StreamsState)
    ensures r.streamsLoading
    ensures r.(streamsLoading := s.streamsLoading) == s
  {
    s.(streamsLoading := true)
  }

  /**
   * A poll succeeds with `batch` and `batchProtocols`: cursor, streams,
   * protocols and the loading flag change in one update; query, overlay and
   * focus are left as they are. The merges start from the poll's snapshot.
   */
  function PollSucceeded(s: StreamsState, req: PollRequest, batch: seq<Summary>, batchProtocols: seq<string>,
                         mergeStreams: StreamMerge, mergeProtocols: ProtocolMerge): (r: StreamsState)
    ensures !r.streamsLoading
    ensures r.streams == mergeStreams(req.streams, batch)
    ensures r.streamsProtocols == mergeProtocols(req.protocols, batchProtocols)
    ensures batch == [] ==> r.lastTimestamp == req.cursor
    ensures batch != [] ==> forall i :: 0 <= i < |batch| ==> batch[i].endTime <= r.lastTimestamp
    ensures batch != [] ==> exists i :: 0 <= i < |batch| && batch[i].endTime == r.lastTimestamp
    ensures r.(lastTimestamp := s.lastTimestamp, streams := s.streams,
               streamsProtocols := s.streamsProtocols, streamsLoading := s.streamsLoading) == s
  {
    var times := EndTimes(batch);
    var c := NextCursor(req.cursor, times);
    assert batch != [] ==> exists i :: 0 <= i < |times| && times[i] == c;
    s.(lastTimestamp := c,
       streams := mergeStreams(req.streams, batch),
       streamsProtocols := mergeProtocols(req.protocols, batchProtocols),
       streamsLoading := false)
  }

  /** The search text changes; nothing else does. */
  function QueryChanged(s: StreamsState, query: string): (r: StreamsState)
    ensures r.query == query && r.(query := s.query) == s
  {
    s.(query := query)
  }

  /** A search answer replaces both overlay fields wholesale; nothing else changes. */
  function SearchAnswered(s: StreamsState, results: seq<Summary>, protocols: seq<string>): (r: StreamsState)
    ensures r.filteredStreams == Some(results) && r.filteredStreamsProtocols == Some(protocols)
    ensures r.(filteredStreams := s.filteredStreams, filteredStreamsProtocols := s.filteredStreamsProtocols) == s
  {
    s.(filteredStreams := Some(results), filteredStreamsProtocols := Some(protocols))
  }

  /** Reset empties the query and makes the overlay inactive, both fields together. */
  function SearchReset(s: StreamsState): (r: StreamsState)
    ensures r.query == "" && r.filteredStreams.None? && r.filteredStreamsProtocols.None?
    ensures r.(query := s.query, filteredStreams := s.filteredStreams,
               filteredStreamsProtocols := s.filteredStreamsProtocols) == s
  {
    s.(query := "", filteredStreams := None, filteredStreamsProtocols := None)
  }

  /** The details request a click on `rowid` issues: none when those details are already held. */
  function FocusRequest(s: StreamsState, rowid: RowId): (r: Option<RowId>)
    ensures r.None? <==> Holds(s.focusedStream, rowid)
    ensures r.Some? ==> r.value == rowid
  {
    if Holds(s.focusedStream, rowid) then None else Some(rowid)
  }

  /** A click on `rowid`: a no-op when held, otherwise loading starts and the old details are dropped. */
  function FocusStarted(s: StreamsState, rowid: RowId): (r: StreamsState)
    ensures Holds(s.focusedStream, rowid) ==> r == s
    ensures !Holds(s.focusedStream, rowid) ==>
      && r.focusedStreamLoading && r.focusedStream.None?
      && r.(focusedStreamLoading := s.focusedStreamLoading, focusedStream := s.focusedStream) == s
  {
    if Holds(s.focusedStream, rowid) then s
    else s.(focusedStreamLoading := true, focusedStream := None)
  }

  /** A details answer is stored whatever was requested since, and loading ends. */
  function FocusAnswered(s: StreamsState, details: Details): (r: StreamsState)
    ensures r.focusedStream == Some(details) && !r.focusedStreamLoading
    ensures r.(focusedStream := s.focusedStream, focusedStreamLoading := s.focusedStreamLoading) == s
  {
    s.(focusedStreamLoading := false, focusedStream := Some(details))
  }

  /** Every step keeps the overlay paired and the focus coherent. */
  lemma StepsPreserveConsistency(s: StreamsState, req: PollRequest, batch: seq<Summary>, protocols: seq<string>,
                                 mergeStreams: StreamMerge, mergeProtocols: ProtocolMerge,
                                 query: string, rowid: RowId, details: Details)
    requires Consistent(s)
    ensures Consistent(PollStarted(s))
    ensures Consistent(PollSucceeded(s, req, batch, protocols, mergeStreams, mergeProtocols))
    ensures Consistent(QueryChanged(s, query))
    ensures Consistent(SearchAnswered(s, batch, protocols))
    ensures Consistent(SearchReset(s))
    ensures Consistent(FocusStarted(s, rowid))
    ensures Consistent(FocusAnswered(s, details))
  {
  }

  /** A poll's merge starts from its snapshot: two overlapping polls lose the first one's result. */
  lemma OverlappingPollsLoseFirstMerge(s: StreamsState, b1: seq<Summary>, b2: seq<Summary>, p1: seq<string>,
                                       p2: seq<string>, mergeStreams: StreamMerge, mergeProtocols: ProtocolMerge)
    ensures var req1 := Snapshot(PollStarted(s));
      var req2 := Snapshot(PollStarted(PollStarted(s)));
      var after := PollSucceeded(PollSucceeded(PollStarted(PollStarted(s)), req1, b1, p1, mergeStreams, mergeProtocols),
                                 req2, b2, p2, mergeStreams, mergeProtocols);
      after.streams == mergeStreams(s.streams, b2)
  {
  }

  /** Polling while a search is active changes the live list but not what is displayed. */
  lemma PollUnderOverlayKeepsDisplay(s: StreamsState, req: PollRequest, batch: seq<Summary>, protocols: seq<string>,
                                     mergeStreams: StreamMerge, mergeProtocols: ProtocolMerge)
    requires s.filteredStreams.Some? && s.filteredStreamsProtocols.Some?
    ensures var r := PollSucceeded(s, req, batch, protocols, mergeStreams, mergeProtocols);
      DisplayedStreams(r) == DisplayedStreams(s) && DisplayedProtocols(r) == DisplayedProtocols(s)
  {
  }

  /** A search answer is what is displayed, whatever was displayed before: results never accumulate. */
  lemma SearchAnswerSupersedes(s: StreamsState, r1: seq<Summary>, p1: seq<string>, r2: seq<Summary>, p2: seq<string>)
    ensures var r := SearchAnswered(SearchAnswered(s, r1, p1), r2, p2);
      DisplayedStreams(r) == r2 && DisplayedProtocols(r) == p2
  {
  }

  /** After a reset the live streams and protocols are displayed again, unchanged by the search. */
  lemma ResetRestoresLiveView(s: StreamsState, results: seq<Summary>, protocols: seq<string>)
    ensures var r := SearchReset(SearchAnswered(s, results, protocols));
      DisplayedStreams(r) == s.streams && DisplayedProtocols(r) == s.streamsProtocols
      && QueryToSend(r.query).None?
  {
  }

  /** A search answer that arrives after a reset is shown anyway: answers are not checked for staleness. */
  lemma LateSearchAnswerReactivatesOverlay(s: StreamsState, results: seq<Summary>, protocols: seq<string>)
    ensures DisplayedStreams(SearchAnswered(SearchReset(s), results, protocols)) == results
  {
  }

  /** A second click on a row while its details are loading issues a second request. */
  lemma ClickWhileLoadingRequestsAgain(s: StreamsState, rowid: RowId)
    requires !Holds(s.focusedStream, rowid)
    ensures FocusRequest(FocusStarted(s, rowid), rowid) == Some(rowid)
  {
  }

  /** Once the details of a row are held, clicking it again changes nothing and requests nothing. */
  lemma ClickOnHeldRowIsNoOp(s: StreamsState, details: Details)
    ensures var r := FocusAnswered(s, details);
      FocusStarted(r, details.rowid) == r && FocusRequest(r, details.rowid).None?
  {
  }

  /**
   * Click A, click B, B's answer, then A's answer: A's details end up shown
   * although B was clicked last.
   */
  lemma StaleDetailsWin(s: StreamsState, a: Details, b: Details)
    requires a.rowid != b.rowid && !Holds(s.focusedStream, a.rowid)
    ensures var clicked := FocusStarted(FocusStarted(s, a.rowid), b.rowid);
      FocusAnswered(FocusAnswered(clicked, b), a).focusedStream == Some(a)
  {
  }

  /** The Streams view: its state fields and one method per handler or request completion. */
  class StreamsView {
    var query: string
    var lastTimestamp: int
    var streams: seq<Summary>
    var streamsProtocols: seq<string>
    var streamsLoading: bool
    var filteredStreams: Option<seq<Summary>>
    var filteredStreamsProtocols: Option<seq<string>>
    var focusedStream: Option<Details>
    var focusedStreamLoading: bool

    function State(): StreamsState
      reads this
    {
      StreamsState(query, lastTimestamp, streams, streamsProtocols, streamsLoading,
                   filteredStreams, filteredStreamsProtocols, focusedStream, focusedStreamLoading)
    }

    ghost predicate Valid()
      reads this
    {
      Consistent(State())
    }

    /** The initial state: cursor 0, nothing held, list loading, no search, no focus. */
    constructor ()
      ensures Valid()
      ensures query == "" && lastTimestamp == 0 && streams == [] && streamsProtocols == []
      ensures streamsLoading && filteredStreams.None? && filteredStreamsProtocols.None?
      ensures focusedStream.None? && !focusedStreamLoading
    {
      query := "";
      lastTimestamp := 0;
      streams := [];
      streamsProtocols := [];
      streamsLoading := true;
      filteredStreams := None;
      filteredStreamsProtocols := None;
      focusedStream := None;
      focusedStreamLoading := false;
    }

    /** `fetchStreams` up to its request: snapshot the state, then set the loading flag. */
    method BeginPoll() returns (req: PollRequest)
      requires Valid()
      modifies this
      ensures Valid()
      ensures req == Snapshot(old(State()))
      ensures State() == PollStarted(old(State()))
    {
      req := PollRequest(lastTimestamp, streams, streamsProtocols);
      streamsLoading := true;
    }

    /**
     * The poll's request succeeded: one update, then the search is resubmitted;
     * `resubmit` is the query sent, or none for an empty query.
     */
    method OnPollSucceeded(req: PollRequest, batch: seq<Summary>, batchProtocols: seq<string>,
                           mergeStreams: StreamMerge, mergeProtocols: ProtocolMerge)
      returns (resubmit: Option<string>)
      requires Valid()
      modifies this
      ensures Valid()
      ensures State() == PollSucceeded(old(State()), req, batch, batchProtocols, mergeStreams, mergeProtocols)
      ensures resubmit == QueryToSend(query)
    {
      lastTimestamp := NextCursor(req.cursor, EndTimes(batch));
      streams := mergeStreams(req.streams, batch);
      streamsProtocols := mergeProtocols(req.protocols, batchProtocols);
      streamsLoading := false;
      resubmit := SubmitSearch();
    }

    /** The poll's request failed: a notification is shown and the state is left as it is. */
    method OnPollFailed()
      requires Valid()
      ensures State() == old(State())
    {
    }

    /** `onSearchChange`. */
    method ChangeQuery(q: string)
      requires Valid()
      modifies this
      ensures Valid()
      ensures State() == QueryChanged(old(State()), q)
    {
      query := q;
    }

    /** `onSearchSubmit`: the query to send, none when it is empty; the state does not change. */
    method SubmitSearch() returns (request: Option<string>)
      ensures request.None? <==> query == ""
      ensures request.Some? ==> request.value == query
    {
      request := QueryToSend(query);
    }

    /** The search request answered. */
    method OnSearchAnswered(results: seq<Summary>, protocols: seq<string>)
      requires Valid()
      modifies this
      ensures Valid()
      ensures State() == SearchAnswered(old(State()), results, protocols)
    {
      filteredStreams := Some(results);
      filteredStreamsProtocols := Some(protocols);
    }

    /** `onSearchReset`. */
    method ResetSearch()
      requires Valid()
      modifies this
      ensures Valid()
      ensures State() == SearchReset(old(State()))
    {
      query := "";
      filteredStreams := None;
      filteredStreamsProtocols := None;
    }

    /** `fetchStreamDetails` up to its request: `request` is the row whose details are requested, if any. */
    method RequestFocus(rowid: RowId) returns (request: Option<RowId>)
      requires Valid()
      modifies this
      ensures Valid()
      ensures request == FocusRequest(old(State()), rowid)
      ensures State() == FocusStarted(old(State()), rowid)
    {
      if focusedStream.Some? && focusedStream.value.rowid == rowid {
        return None;
      }
      focusedStreamLoading := true;
      focusedStream := None;
      request := Some(rowid);
    }

    /** The details request answered. */
    method OnFocusAnswered(details: Details)
      requires Valid()
      modifies this
      ensures Valid()
      ensures State() == FocusAnswered(old(State()), details)
    {
      focusedStreamLoading := false;
      focusedStream := Some(details);
    }
  }

  /**
   * A poll that fails after it started leaves cursor, streams and protocols as
   * they were, and the list keeps showing "loading": nothing resets the flag.
   */
  method FailedPollKeepsLoading(v: StreamsView)
    requires v.Valid()
    modifies v
    ensures v.Valid() && v.streamsLoading
    ensures v.lastTimestamp == old(v.lastTimestamp) && v.streams == old(v.streams)
    ensures v.streamsProtocols == old(v.streamsProtocols)
  {
    var req := v.BeginPoll();
    v.OnPollFailed();
  }
}
