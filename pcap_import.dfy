/**
 * The capture importer: it reads the sessions of a capture file and writes
 * one row per non-empty session into the `Captures` table. A row holds the
 * session's first and last packet times, its protocol, the two endpoints
 * taken from the session's name, and the session's payload bytes, their
 * number and their hex text.
 *
 * The packet library and the database are not modelled: the sessions come
 * in as values (timestamps already in integer microseconds), and the table is
 * a `CaptureStore` whose rows the import appends to when it commits.
 */
module PcapImport {
  import opened Wrappers
  import opened HexText
  import opened Endpoints

  /** `b'HTTP'`. */
  const HttpMagic: seq<byte> := [72, 84, 84, 80]

  /** A packet of a session: its time in microseconds and its `Raw` load, if it has one. */
  datatype SessionPacket = SessionPacket(time: int, raw: Option<seq<byte>>)

  /** A session as the packet library lists it: its name and its packets in order. */
  datatype Session = Session(name: string, flow: seq<SessionPacket>)

  /** One row of the `Captures` table; `data_length_string` is not modelled. */
  datatype CaptureRow = CaptureRow(
    startTime: int, endTime: int, protocol: string,
    srcIp: string, srcPort: string, dstIp: string, dstPort: string,
    dataLength: nat, dataBytes: seq<byte>, dataHex: string)

  /** The import stops with Python's IndexError when a name holds fewer than two IP:port texts. */
  datatype ImportError = MissingEndpoints(name: string)

  /** `is_http`: the payload starts with the bytes of "HTTP". */
  predicate IsHttp(data: seq<byte>) {
    |data| >= |HttpMagic| && data[..|HttpMagic|] == HttpMagic
  }

  lemma IsHttpIffHttpPrefix(data: seq<byte>)
    ensures IsHttp(data) <==> exists rest :: data == HttpMagic + rest
  {
    if IsHttp(data) {
      assert data == HttpMagic + data[4..];
    }
    forall rest | data == HttpMagic + rest
      ensures IsHttp(data)
    {
      assert data[..4] == HttpMagic;
    }
  }

  /** `name.split(' ')[0]`: everything before the first space. */
  function FirstField(name: string): (r: string)
    ensures |r| <= |name| && ' ' !in r && r == name[..|r|]
    ensures |r| < |name| ==> name[|r|] == ' '
  {
    if name == [] || name[0] == ' ' then []
    else [name[0]] + FirstField(name[1..])
  }

  /** A word without spaces in front of a space is the first field. */
  lemma {:induction false} FirstFieldOfWord(word: string, rest: string)
    requires ' ' !in word
    ensures FirstField(word + " " + rest) == word
  {
    if word != [] {
      assert word[0] in word;
      assert (word + " " + rest)[1..] == word[1..] + " " + rest;
      assert forall c :: c in word[1..] ==> c in word;
      FirstFieldOfWord(word[1..], rest);
    }
  }

  /**
   * The protocol column: "HTTP" when the payload starts with it, else the
   * name's first field, that is the longest prefix of the name without a space.
   */
  function Protocol(name: string, flowBytes: seq<byte>): (r: string)
    ensures ' ' !in r
    ensures IsHttp(flowBytes) ==> r == "HTTP"
    ensures !IsHttp(flowBytes) ==> |r| <= |name| && r == name[..|r|] && (|r| < |name| ==> name[|r|] == ' ')
  {
    if IsHttp(flowBytes) then "HTTP" else FirstField(name)
  }

  /** The payload a packet contributes: its `Raw` load, or nothing. */
  function Load(p: SessionPacket): seq<byte> {
    match p.raw
    case Some(data) => data
    case None => []
  }

  /** The concatenated `Raw` loads of a flow, in order. */
  function FlowBytes(flow: seq<SessionPacket>): seq<byte> {
    if flow == [] then [] else FlowBytes(flow[..|flow| - 1]) + Load(flow[|flow| - 1])
  }

  /** The payload of two flows one after the other is the payload of the first, then of the second. */
  lemma {:induction false} FlowBytesConcat(a: seq<SessionPacket>, b: seq<SessionPacket>)
    ensures FlowBytes(a + b) == FlowBytes(a) + FlowBytes(b)
  {
    if b == [] {
      assert a + b == a;
    } else {
      var b' := b[..|b| - 1];
      assert (a + b)[..|a + b| - 1] == a + b';
      FlowBytesConcat(a, b');
    }
  }

  /** A packet without a `Raw` layer adds nothing to the payload. */
  lemma NoRawAddsNothing(a: seq<SessionPacket>, p: SessionPacket, b: seq<SessionPacket>)
    requires p.raw.None?
    ensures FlowBytes(a + [p] + b) == FlowBytes(a + b)
  {
    FlowBytesConcat(a + [p], b);
    FlowBytesConcat(a, b);
    assert (a + [p])[..|a|] == a;
  }

  /** The inner loop of the import: the payload bytes and their hex, accumulated packet by packet. */
  method CollectFlow(flow: seq<SessionPacket>) returns (flowBytes: seq<byte>, flowHex: string)
    ensures flowBytes == FlowBytes(flow) && flowHex == Hex(flowBytes)
  {
    flowBytes, flowHex := [], "";
    var i := 0;
    while i < |flow|
      invariant 0 <= i <= |flow|
      invariant flowBytes == FlowBytes(flow[..i]) && flowHex == Hex(flowBytes)
    {
      var p := flow[i];
      if p.raw.Some? {
        var data := p.raw.value;
        HexConcat(flowBytes, data);
        flowBytes := flowBytes + data;
        flowHex := flowHex + Hex(data);
      }
      assert flow[..i + 1][..i] == flow[..i];
      i := i + 1;
    }
    assert flow[..|flow|] == flow;
  }

  /** The source and destination matches of a session name: the first two `findall` results. */
  function SplitEndpoints(name: string): (r: Result<(IpPortMatch, IpPortMatch), ImportError>)
    ensures r.Success? <==> |FindAll(name)| >= 2
    ensures r.Success? ==> r.value == (FindAll(name)[0], FindAll(name)[1])
    ensures r.Failure? ==> r.error == MissingEndpoints(name)
    ensures r.Success? ==> IsMatch(r.value.0) && IsMatch(r.value.1)
  {
    FindAllSound(name);
    var matches := FindAll(name);
    if |matches| < 2 then Failure(MissingEndpoints(name)) else Success((matches[0], matches[1]))
  }

  /** The row the import writes for a non-empty session, or the error it stops with. */
  function SessionRow(s: Session): Result<CaptureRow, ImportError>
    requires |s.flow| > 0
  {
    match SplitEndpoints(s.name)
    case Failure(e) => Failure(e)
    case Success((src, dst)) =>
      var data := FlowBytes(s.flow);
      Success(CaptureRow(
        s.flow[0].time, s.flow[|s.flow| - 1].time, Protocol(s.name, data),
        src.ip, src.port, dst.ip, dst.port, |data|, data, Hex(data)))
  }

  /** The rows of all sessions in order, skipping empty ones, or the first error. */
  function ImportRows(sessions: seq<Session>): Result<seq<CaptureRow>, ImportError> {
    if sessions == [] then Success([])
    else
      var s := sessions[|sessions| - 1];
      match ImportRows(sessions[..|sessions| - 1])
      case Failure(e) => Failure(e)
      case Success(rows) =>
        if |s.flow| == 0 then Success(rows)
        else
          match SessionRow(s)
          case Failure(e) => Failure(e)
          case Success(row) => Success(rows + [row])
  }

  /** The number of sessions with at least one packet. */
  function NonEmptyCount(sessions: seq<Session>): nat {
    if sessions == [] then 0
    else NonEmptyCount(sessions[..|sessions| - 1]) + (if |sessions[|sessions| - 1].flow| > 0 then 1 else 0)
  }

  /** A row's columns: the times of the first and last packets, the payload, its length and hex, the endpoints. */
  lemma SessionRowColumns(s: Session)
    requires |s.flow| > 0 && SessionRow(s).Success?
    ensures var row := SessionRow(s).value;
      && row.startTime == s.flow[0].time && row.endTime == s.flow[|s.flow| - 1].time
      && row.dataBytes == FlowBytes(s.flow) && row.dataLength == |row.dataBytes|
      && row.dataHex == Hex(row.dataBytes) && |row.dataHex| == 2 * row.dataLength
      && row.protocol == Protocol(s.name, row.dataBytes)
      && IpPortMatch(row.srcIp, row.srcPort) == FindAll(s.name)[0]
      && IpPortMatch(row.dstIp, row.dstPort) == FindAll(s.name)[1]
  {
    HexIsHexText(FlowBytes(s.flow));
  }

  /**
   * For a session named `<protocol> <src> > <dst>` with well-formed endpoints
   * and a protocol word without spaces or digits, the row holds exactly those
   * endpoints, and the protocol word unless the payload starts with "HTTP".
   */
  lemma {:induction false} SessionRowOfNamedSession(s: Session, protocol: string, src: Endpoint, dst: Endpoint)
    requires |s.flow| > 0 && WellFormed(src) && WellFormed(dst)
    requires NoDigits(protocol) && ' ' !in protocol && s.name == SessionName(protocol, src, dst)
    ensures SessionRow(s).Success?
    ensures var row := SessionRow(s).value;
      && row.srcIp == OctetsText(src.octets) && row.srcPort == src.port
      && row.dstIp == OctetsText(dst.octets) && row.dstPort == dst.port
      && row.protocol == (if IsHttp(FlowBytes(s.flow)) then "HTTP" else protocol)
  {
    NamedSessionSplits(protocol, src, dst);
    NamedSessionFirstField(protocol, src, dst);
    SessionRowOfSplit(s, MatchOf(src), MatchOf(dst));
  }

  lemma NamedSessionSplits(protocol: string, src: Endpoint, dst: Endpoint)
    requires WellFormed(src) && WellFormed(dst) && NoDigits(protocol)
    ensures SplitEndpoints(SessionName(protocol, src, dst)) == Success((MatchOf(src), MatchOf(dst)))
  {
    SessionNameMatches(protocol, src, dst);
  }

  lemma NamedSessionFirstField(protocol: string, src: Endpoint, dst: Endpoint)
    requires |src.octets| >= 1 && |dst.octets| >= 1 && ' ' !in protocol
    ensures FirstField(SessionName(protocol, src, dst)) == protocol
  {
    assert SessionName(protocol, src, dst) == protocol + " " + (EndpointText(src) + " > " + EndpointText(dst));
    FirstFieldOfWord(protocol, EndpointText(src) + " > " + EndpointText(dst));
  }

  /** The endpoint columns come from the split, the protocol column from the name and payload. */
  lemma SessionRowOfSplit(s: Session, m1: IpPortMatch, m2: IpPortMatch)
    requires |s.flow| > 0 && SplitEndpoints(s.name) == Success((m1, m2))
    ensures SessionRow(s).Success?
    ensures var row := SessionRow(s).value;
      && row.srcIp == m1.ip && row.srcPort == m1.port && row.dstIp == m2.ip && row.dstPort == m2.port
      && row.protocol == Protocol(s.name, FlowBytes(s.flow))
  {
  }

  /** Once a prefix of the sessions fails, the whole import fails with the same error. */
  lemma {:induction false} FailurePersists(sessions: seq<Session>, i: nat)
    requires i <= |sessions| && ImportRows(sessions[..i]).Failure?
    ensures ImportRows(sessions) == ImportRows(sessions[..i])
    decreases |sessions| - i
  {
    if i < |sessions| {
      assert sessions[..i + 1][..i] == sessions[..i];
      FailurePersists(sessions, i + 1);
    } else {
      assert sessions[..i] == sessions;
    }
  }

  /** Empty sessions give no row: a successful import writes one row per non-empty session. */
  lemma {:induction false} RowsPerNonEmptySession(sessions: seq<Session>)
    requires ImportRows(sessions).Success?
    ensures |ImportRows(sessions).value| == NonEmptyCount(sessions) <= |sessions|
  {
    if sessions != [] {
      RowsPerNonEmptySession(sessions[..|sessions| - 1]);
    }
  }

  /** The number of rows equals the number of sessions exactly when no session is empty. */
  lemma {:induction false} RowsEqualSessionsIffNoneEmpty(sessions: seq<Session>)
    ensures NonEmptyCount(sessions) == |sessions| <==> forall i :: 0 <= i < |sessions| ==> |sessions[i].flow| > 0
  {
    if sessions != [] {
      var init := sessions[..|sessions| - 1];
      RowsEqualSessionsIffNoneEmpty(init);
      CountAtMostLength(init);
      assert forall i :: 0 <= i < |init| ==> init[i] == sessions[i];
    }
  }

  lemma {:induction false} CountAtMostLength(sessions: seq<Session>)
    ensures NonEmptyCount(sessions) <= |sessions|
  {
    if sessions != [] {
      CountAtMostLength(sessions[..|sessions| - 1]);
    }
  }

  /** A non-empty session whose name holds fewer than two IP:port texts. */
  predicate Malformed(s: Session) {
    |s.flow| > 0 && |FindAll(s.name)| < 2
  }

  /** One more session: the import fails when it failed before or the new session is malformed. */
  lemma ImportRowsStep(sessions: seq<Session>)
    requires sessions != []
    ensures var n := |sessions| - 1;
      ImportRows(sessions).Failure? <==> ImportRows(sessions[..n]).Failure? || Malformed(sessions[n])
  {
  }

  /** The import fails exactly when some non-empty session's name holds fewer than two IP:port texts. */
  lemma {:induction false} ImportFailsIffMalformed(sessions: seq<Session>)
    ensures ImportRows(sessions).Failure? <==> exists i :: 0 <= i < |sessions| && Malformed(sessions[i])
  {
    if sessions != [] {
      var n := |sessions| - 1;
      var init := sessions[..n];
      ImportFailsIffMalformed(init);
      ImportRowsStep(sessions);
      var inInit := exists i :: 0 <= i < |init| && Malformed(init[i]);
      var inAll := exists i :: 0 <= i < |sessions| && Malformed(sessions[i]);
      if inInit {
        var i :| 0 <= i < |init| && Malformed(init[i]);
        assert sessions[i] == init[i];
        assert inAll;
      }
      if Malformed(sessions[n]) {
        assert inAll;
      }
      if inAll {
        var i :| 0 <= i < |sessions| && Malformed(sessions[i]);
        if i < n {
          assert init[i] == sessions[i];
          assert inInit;
        } else {
          assert Malformed(sessions[n]);
        }
      }
      assert inAll <==> inInit || Malformed(sessions[n]);
    }
  }

  /** Sessions whose names all carry two well-formed endpoints after a digit-free word import without error. */
  lemma {:induction false} WellNamedSessionsImport(sessions: seq<Session>, protocols: seq<string>, srcs: seq<Endpoint>, dsts: seq<Endpoint>)
    requires |protocols| == |srcs| == |dsts| == |sessions|
    requires forall i :: 0 <= i < |sessions| ==>
      && WellFormed(srcs[i]) && WellFormed(dsts[i]) && NoDigits(protocols[i])
      && sessions[i].name == SessionName(protocols[i], srcs[i], dsts[i])
    ensures ImportRows(sessions).Success?
  {
    if sessions != [] {
      var n := |sessions| - 1;
      WellNamedSessionsImport(sessions[..n], protocols[..n], srcs[..n], dsts[..n]);
      SessionNameMatches(protocols[n], srcs[n], dsts[n]);
    }
  }

  /** The `Captures` table: the rows committed so far. */
  class CaptureStore {
    var rows: seq<CaptureRow>

    constructor()
      ensures rows == []
    {
      rows := [];
    }
  }

  /**
   * `import_pcap`: rows are inserted inside one transaction that is committed
   * after the last session, so an error leaves the table as it was. On
   * success it returns the number of sessions, empty ones included.
   */
  method ImportPcap(sessions: seq<Session>, store: CaptureStore) returns (outcome: Result<nat, ImportError>)
    modifies store
    ensures outcome.Success? <==> ImportRows(sessions).Success?
    ensures outcome.Success? ==> outcome.value == |sessions| && store.rows == old(store.rows) + ImportRows(sessions).value
    ensures outcome.Failure? ==> outcome.error == ImportRows(sessions).error && store.rows == old(store.rows)
  {
    var staged: seq<CaptureRow> := [];
    var i := 0;
    while i < |sessions|
      invariant 0 <= i <= |sessions|
      invariant ImportRows(sessions[..i]) == Success(staged)
      invariant store.rows == old(store.rows)
    {
      var s := sessions[i];
      assert sessions[..i + 1][..i] == sessions[..i] && sessions[..i + 1][i] == s;
      if |s.flow| > 0 {
        var startTime, endTime := s.flow[0].time, s.flow[|s.flow| - 1].time;
        var matches := FindAll(s.name);
        if |matches| < 2 {
          assert SessionRow(s) == Failure(MissingEndpoints(s.name));
          assert ImportRows(sessions[..i + 1]) == Failure(MissingEndpoints(s.name));
          FailurePersists(sessions, i + 1);
          return Failure(MissingEndpoints(s.name));
        }
        var flowBytes, flowHex := CollectFlow(s.flow);
        var protocol := FirstField(s.name);
        if IsHttp(flowBytes) {
          protocol := "HTTP";
        }
        var row := CaptureRow(
          startTime, endTime, protocol,
          matches[0].ip, matches[0].port, matches[1].ip, matches[1].port,
          |flowBytes|, flowBytes, flowHex);
        staged := staged + [row];
      }
      i := i + 1;
    }
    assert sessions[..|sessions|] == sessions;
    store.rows := store.rows + staged;
    return Success(|sessions|);
  }
}
