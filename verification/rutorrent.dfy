/** The rTorrent client: the calls it issues, how it decodes the torrent
    listing, and how it turns each reply into success or failure. */
module Rutorrent {
  import opened Wrappers
  import opened Text
  import opened XmlRpc
  import opened Config
  import opened Torrents

  /** What a client operation throws. Proxy failures pass through unchanged. */
  datatype Error =
    | Transport(fault: Fault)
    | AddFailed(torrent: string)
    | RemoveFailed(hash: string)
    | PriorityFailed(hash: string)
    | LabelFailed(hash: string)
    | DirectoryFailed(hash: string)
    | StartFailed(hash: string)
    | Malformed(row: nat, problem: RowProblem)
    | BadMulticallResult(index: nat)

  /** Why a row of the listing cannot be decoded: it is not an array, it is
      too short to hold column 11, a column holds the wrong type, or the
      completion time lies past the last date a `DateTime` holds. */
  datatype RowProblem = NotARow | MissingColumns(count: nat) | WrongType(column: nat) | FinishedOutOfRange

  // ---------------------------------------------------------------------
  // The calls

  /** The fields requested for each torrent, in column order. */
  const Fields: seq<string> := [
    "d.name=", "d.hash=", "d.base_path=", "d.custom1=",
    "d.size_bytes=", "d.left_bytes=", "d.down.rate=", "d.ratio=",
    "d.is_open=", "d.is_active=", "d.complete=", "d.timestamp.finished="]

  datatype Kind = StringColumn | LongColumn

  /** The type the decoder expects in each column: four strings, then eight `long`s. */
  const Schema: seq<Kind> := [
    StringColumn, StringColumn, StringColumn, StringColumn,
    LongColumn, LongColumn, LongColumn, LongColumn,
    LongColumn, LongColumn, LongColumn, LongColumn]

  const FinishedColumn := 11

  /** `d.multicall2` over the default view, one field command per column. */
  function ListCall(): (c: Call)
    ensures c.methodName == "d.multicall2"
    ensures |c.params| == 2 + |Schema| && c.params[0] == Str("") && c.params[1] == Str("")
    ensures forall k :: 2 <= k < |c.params| ==> c.params[k] == Str(Fields[k - 2])
  {
    Call("d.multicall2", [Str(""), Str("")] + seq(|Fields|, k requires 0 <= k < |Fields| => Str(Fields[k])))
  }

  function LoadUrlCall(url: string): Call {
    Call("load.normal", [Str(""), Str(url)])
  }

  function LoadRawCall(content: seq<uint8>): Call {
    Call("load.raw", [Str(""), Bytes(content)])
  }

  function EraseCall(hash: string): Call {
    Call("d.erase", [Str(hash)])
  }

  function SetLabelCall(hash: string, newLabel: string): Call {
    Call("d.custom1.set", [Str(hash), Str(newLabel)])
  }

  function SetPriorityCall(hash: string, priority: int64): Call {
    Call("d.priority.set", [Str(hash), Long(priority)])
  }

  function SetDirectoryCall(hash: string, directory: string): Call {
    Call("d.directory.set", [Str(hash), Str(directory)])
  }

  function GetNameCall(hash: string): Call {
    Call("d.name", [Str(hash)])
  }

  /** One entry of a `system.multicall`: a struct naming the method and its parameters. */
  function MulticallEntry(methodName: string, params: seq<Value>): Value {
    Struct([("methodName", Str(methodName)), ("params", Array(params))])
  }

  /** `system.multicall` with `d.open` and then `d.start`, both on `hash`. */
  function StartCall(hash: string): (c: Call)
    ensures c.methodName == "system.multicall" && |c.params| == 1
    ensures c.params[0] == Array([MulticallEntry("d.open", [Str(hash)]), MulticallEntry("d.start", [Str(hash)])])
  {
    Call("system.multicall", [Array([MulticallEntry("d.open", [Str(hash)]), MulticallEntry("d.start", [Str(hash)])])])
  }

  // ---------------------------------------------------------------------
  // The endpoint

  datatype Credential = Credential(UserName: string, Password: Option<string>)

  /** What the proxy is configured with. */
  datatype Endpoint = Endpoint(Url: string, EnableCompression: bool, Credentials: Option<Credential>)

  function Scheme(useSsl: bool): string {
    if useSsl then "https" else "http"
  }

  /** The proxy for the configured daemon: `scheme://host:port/urlBase`, compressed,
      with credentials only for a username that is not blank. */
  function BuildClient(settings: RutorrentSettings): (e: Endpoint)
    ensures e.Url == Scheme(settings.UseSsl) + "://" + settings.Host + ":" + IntToDecimal(settings.Port as int) + "/" + settings.UrlBase
    ensures e.EnableCompression
    ensures e.Credentials.Some? <==> !IsNullOrWhiteSpace(settings.Username)
    ensures e.Credentials.Some? ==> e.Credentials.value == Credential(settings.Username.value, settings.Password)
  {
    Endpoint(
      Url := Scheme(settings.UseSsl) + "://" + settings.Host + ":" + IntToDecimal(settings.Port as int) + "/" + settings.UrlBase,
      EnableCompression := true,
      Credentials := if IsNullOrWhiteSpace(settings.Username) then None
                     else Some(Credential(settings.Username.value, settings.Password)))
  }

  /** The URL starts with the scheme the TLS flag selects, and its port segment is the rendered port. */
  lemma UrlParts(settings: RutorrentSettings)
    ensures var url := BuildClient(settings).Url;
      var prefix := Scheme(settings.UseSsl) + "://";
      var port := IntToDecimal(settings.Port as int);
      var n := |prefix| + |settings.Host| + 1;
      |url| >= n + |port| && url[..|prefix|] == prefix && url[n..n + |port|] == port
  {
    UrlSegments(Scheme(settings.UseSsl) + "://", settings.Host, IntToDecimal(settings.Port as int), settings.UrlBase);
  }

  /** Where the scheme and the port sit in a URL of the form `a + host + ":" + port + "/" + base`. */
  lemma UrlSegments(a: string, host: string, port: string, base: string)
    ensures var url := a + host + ":" + port + "/" + base;
      var n := |a| + |host| + 1;
      |url| >= n + |port| && url[..|a|] == a && url[n..n + |port|] == port
  {
    var url := a + host + ":" + port + "/" + base;
    assert url == a + (host + ":" + port + "/" + base);
    assert url == (a + host + ":") + (port + "/" + base);
  }

  /** The decimal form of the default port. */
  lemma DefaultPortDigits()
    ensures IntToDecimal(8080) == "8080"
  {
    assert NatToDecimal(8) == "8";
    assert NatToDecimal(80) == "80";
    assert NatToDecimal(808) == "808";
  }

  /** Out of the box the client talks plain HTTP to localhost:8080/xmlrpc without credentials. */
  lemma DefaultEndpoint(normal: int32)
    ensures BuildClient(DefaultSettings(normal)) == Endpoint("http://localhost:8080/xmlrpc", true, None)
  {
    var s := DefaultSettings(normal);
    DefaultPortDigits();
    var e := BuildClient(s);
    assert e.Url == "http" + "://" + "localhost" + ":" + "8080" + "/" + "xmlrpc";
    assert "http" + "://" + "localhost" + ":" + "8080" + "/" + "xmlrpc" == "http://localhost:8080/xmlrpc";
    assert e.Credentials == None;
  }

  // ---------------------------------------------------------------------
  // Decoding the listing

  predicate HasKind(v: Value, k: Kind) {
    match k
    case StringColumn => v.Str?
    case LongColumn => v.Long?
  }

  /** The first column from `from` up to column 10 whose value has the wrong type. */
  function FirstMistyped(cols: seq<Value>, from: nat): (r: Option<nat>)
    requires |cols| >= |Schema| && from <= FinishedColumn
    ensures r.Some? ==> from <= r.value < FinishedColumn && !HasKind(cols[r.value], Schema[r.value])
    ensures r.Some? ==> forall k :: from <= k < r.value ==> HasKind(cols[k], Schema[k])
    ensures r.None? ==> forall k :: from <= k < FinishedColumn ==> HasKind(cols[k], Schema[k])
    decreases FinishedColumn - from
  {
    if from == FinishedColumn then None
    else if !HasKind(cols[from], Schema[from]) then Some(from)
    else FirstMistyped(cols, from + 1)
  }

  /** The last second a `DateTime` can represent, counted from the Unix epoch. */
  const MaxFinishedSeconds := 253402300799

  /** A row the decoder accepts. */
  predicate WellFormedRow(row: Value) {
    row.Array? && |row.items| >= |Schema| &&
    (forall k :: 0 <= k < |Schema| ==> HasKind(row.items[k], Schema[k])) &&
    row.items[FinishedColumn].n as int <= MaxFinishedSeconds
  }

  /** `t` carries the columns of `row` in the fixed order: 0..7 as they are,
      8..10 as flags (nonzero is true), 11 as a completion time (none unless positive). */
  predicate Holds(row: Value, t: RutorrentTorrent)
    requires WellFormedRow(row)
  {
    var c := row.items;
    t.Name == c[0].s && t.Hash == c[1].s && t.Path == c[2].s && t.Label == c[3].s &&
    t.TotalSize == c[4].n && t.RemainingSize == c[5].n && t.DownRate == c[6].n && t.Ratio == c[7].n &&
    (t.IsOpen <==> c[8].n != 0) && (t.IsActive <==> c[9].n != 0) && (t.IsFinished <==> c[10].n != 0) &&
    (t.Finished.None? <==> c[11].n <= 0) &&
    (t.Finished.Some? ==> t.Finished.value == c[11].n)
  }

  /** The record a well-formed row stands for. */
  function RowRecord(row: Value): (t: RutorrentTorrent)
    requires WellFormedRow(row)
    ensures Holds(row, t)
  {
    var c := row.items;
    var finished := c[FinishedColumn].n;
    RutorrentTorrent(
      Name := c[0].s,
      Hash := c[1].s,
      Path := c[2].s,
      Label := c[3].s,
      TotalSize := c[4].n,
      RemainingSize := c[5].n,
      DownRate := c[6].n,
      Ratio := c[7].n,
      IsOpen := c[8].n != 0,
      IsActive := c[9].n != 0,
      IsFinished := c[10].n != 0,
      Finished := if finished > 0 then Some(finished) else None)
  }

  /** Decodes one row positionally. Column 11 is read first, then columns 0 to 10. */
  function DecodeRow(row: Value): (r: Result<RutorrentTorrent, RowProblem>)
    ensures r.Success? <==> WellFormedRow(row)
    ensures r.Success? ==> Holds(row, r.value)
  {
    if !row.Array? then Failure(NotARow)
    else if |row.items| < |Schema| then Failure(MissingColumns(|row.items|))
    else if !row.items[FinishedColumn].Long? then Failure(WrongType(FinishedColumn))
    else match FirstMistyped(row.items, 0)
      case Some(k) => Failure(WrongType(k))
      case None =>
        if row.items[FinishedColumn].n as int > MaxFinishedSeconds then Failure(FinishedOutOfRange)
        else Success(RowRecord(row))
  }

  /** Which problem a rejected row reports, and for which rows: `NotARow` exactly
      for a value that is not an array, `MissingColumns` exactly for a row too
      short to hold column 11, `WrongType` exactly for a long enough row with a
      mistyped column (naming the first one, column 11 being read first), and
      `FinishedOutOfRange` exactly for a row whose every cast succeeds but whose
      completion time lies past the last `DateTime`. */
  lemma DecodeRowProblem(row: Value)
    ensures DecodeRow(row) == Failure(NotARow) <==> !row.Array?
    ensures row.Array? && |row.items| < |Schema| ==> DecodeRow(row) == Failure(MissingColumns(|row.items|))
    ensures (DecodeRow(row).Failure? && DecodeRow(row).error.MissingColumns?) <==> row.Array? && |row.items| < |Schema|
    ensures (DecodeRow(row).Failure? && DecodeRow(row).error.WrongType?) <==>
      row.Array? && |row.items| >= |Schema| && exists k :: 0 <= k < |Schema| && !HasKind(row.items[k], Schema[k])
    ensures DecodeRow(row) == Failure(FinishedOutOfRange) <==>
      row.Array? && |row.items| >= |Schema| && (forall k :: 0 <= k < |Schema| ==> HasKind(row.items[k], Schema[k])) &&
      row.items[FinishedColumn].n as int > MaxFinishedSeconds
    ensures DecodeRow(row).Failure? && DecodeRow(row).error.WrongType? ==>
      var k := DecodeRow(row).error.column;
      k < |Schema| && !HasKind(row.items[k], Schema[k]) &&
      (k < FinishedColumn ==> HasKind(row.items[FinishedColumn], LongColumn) &&
                              forall j :: 0 <= j < k ==> HasKind(row.items[j], Schema[j]))
  {
  }

  /** A row as the daemon would send it for `t`: flags as 0/1, no completion time as 0. */
  function EncodeRow(t: RutorrentTorrent): (row: Value)
    ensures row.Array? && |row.items| == |Schema|
  {
    Array([
      Str(t.Name), Str(t.Hash), Str(t.Path), Str(t.Label),
      Long(t.TotalSize), Long(t.RemainingSize), Long(t.DownRate), Long(t.Ratio),
      Long(if t.IsOpen then 1 else 0), Long(if t.IsActive then 1 else 0), Long(if t.IsFinished then 1 else 0),
      Long(match t.Finished case Some(s) => s case None => 0)])
  }

  /** A completion time the decoder can produce: after the epoch and within `DateTime`. */
  predicate Representable(t: RutorrentTorrent) {
    t.Finished.Some? ==> 0 < t.Finished.value as int <= MaxFinishedSeconds
  }

  /** Decoding an encoded record gives the record back. */
  lemma DecodeEncodeRow(t: RutorrentTorrent)
    requires Representable(t)
    ensures DecodeRow(EncodeRow(t)) == Success(t)
  {
  }

  /** Re-encoding a decoded row gives back its first twelve columns, with flags
      and completion times brought to their normal form. */
  lemma EncodeDecodeRow(row: Value)
    requires WellFormedRow(row)
    ensures var c := row.items;
      var e := EncodeRow(DecodeRow(row).value).items;
      e[..8] == c[..8] &&
      (forall k :: 8 <= k < FinishedColumn ==> e[k] == Long(if c[k].n != 0 then 1 else 0)) &&
      e[FinishedColumn] == Long(if c[FinishedColumn].n > 0 then c[FinishedColumn].n else 0)
  {
  }

  /** Decodes the rows in order, stopping at the first row that cannot be decoded. */
  function DecodeRows(rows: seq<Value>): (r: Result<seq<RutorrentTorrent>, Error>)
    ensures r.Success? ==> |r.value| == |rows|
    ensures r.Failure? ==> r.error.Malformed? && r.error.row < |rows|
  {
    if rows == [] then Success([])
    else
      var last := |rows| - 1;
      match DecodeRows(rows[..last])
      case Failure(e) => Failure(e)
      case Success(items) =>
        match DecodeRow(rows[last])
        case Failure(p) => Failure(Malformed(last, p))
        case Success(t) => Success(items + [t])
  }

  /** The listing succeeds iff every row decodes, and then holds one record per row, in row order. */
  lemma {:induction false} DecodeRowsSuccess(rows: seq<Value>)
    ensures DecodeRows(rows).Success? <==> forall i :: 0 <= i < |rows| ==> DecodeRow(rows[i]).Success?
    ensures DecodeRows(rows).Success? ==>
      forall i :: 0 <= i < |rows| ==> DecodeRow(rows[i]) == Success(DecodeRows(rows).value[i])
  {
    if rows != [] {
      var last := |rows| - 1;
      var front := rows[..last];
      DecodeRowsSuccess(front);
      match DecodeRows(front) {
        case Failure(_) =>
          var j :| 0 <= j < last && DecodeRow(front[j]).Failure?;
          assert front[j] == rows[j];
        case Success(items) =>
          match DecodeRow(rows[last]) {
            case Failure(_) =>
            case Success(t) =>
              assert DecodeRows(rows) == Success(items + [t]);
              forall i | 0 <= i < |rows| ensures DecodeRow(rows[i]) == Success((items + [t])[i]) {
                if i < last {
                  assert front[i] == rows[i];
                }
              }
          }
      }
    }
  }

  /** A failed listing names the first row that cannot be decoded, with that row's problem. */
  lemma {:induction false} DecodeRowsFailure(rows: seq<Value>)
    ensures DecodeRows(rows).Failure? ==>
      var e := DecodeRows(rows).error;
      DecodeRow(rows[e.row]) == Failure(e.problem) &&
      forall i :: 0 <= i < e.row ==> DecodeRow(rows[i]).Success?
  {
    if rows != [] {
      var last := |rows| - 1;
      var front := rows[..last];
      DecodeRowsFailure(front);
      DecodeRowsSuccess(front);
      assert forall i :: 0 <= i < last ==> front[i] == rows[i];
    }
  }

  /** Appending a row to a decodable prefix decodes it and appends its record, or stops at it. */
  lemma DecodeRowsExtend(rows: seq<Value>, i: nat, items: seq<RutorrentTorrent>)
    requires i < |rows| && DecodeRows(rows[..i]) == Success(items)
    ensures DecodeRow(rows[i]).Success? ==> DecodeRows(rows[..i + 1]) == Success(items + [DecodeRow(rows[i]).value])
    ensures DecodeRow(rows[i]).Failure? ==> DecodeRows(rows[..i + 1]) == Failure(Malformed(i, DecodeRow(rows[i]).error))
  {
    assert rows[..i + 1][..i] == rows[..i];
  }

  /** A row that cannot be decoded after a decodable prefix ends the decoding, whatever follows it. */
  lemma {:induction false} DecodeRowsStopsAt(rows: seq<Value>, i: nat)
    requires i < |rows| && DecodeRows(rows[..i]).Success? && DecodeRow(rows[i]).Failure?
    ensures DecodeRows(rows) == Failure(Malformed(i, DecodeRow(rows[i]).error))
    decreases |rows|
  {
    var last := |rows| - 1;
    if i == last {
      assert rows[..i + 1] == rows;
      DecodeRowsExtend(rows, i, DecodeRows(rows[..i]).value);
    } else {
      var front := rows[..last];
      assert front[..i] == rows[..i] && front[i] == rows[i];
      DecodeRowsStopsAt(front, i);
      assert DecodeRows(front).Failure?;
    }
  }

  /** The listing the client returns for the daemon's reply to `d.multicall2`. */
  function Listing(reply: Reply): (r: Result<seq<RutorrentTorrent>, Error>)
    ensures reply.Failure? ==> r == Failure(Transport(reply.error))
    ensures reply.Success? && !reply.value.Array? ==> r == Failure(Transport(TypeMismatch))
    ensures reply.Success? && reply.value.Array? ==> r == DecodeRows(reply.value.items)
  {
    match AsArray(reply)
    case Failure(f) => Failure(Transport(f))
    case Success(rows) => DecodeRows(rows)
  }

  // ---------------------------------------------------------------------
  // The replies

  /** A reply that reports success with the code 0; any other code throws `failed`. */
  function CheckCode(reply: Reply, failed: Error): (r: Outcome<Error>)
    ensures r == Pass <==> reply == Success(Int(0))
    ensures reply.Success? && reply.value.Int? && reply.value.i != 0 ==> r == Fail(failed)
    ensures reply.Success? && !reply.value.Int? ==> r == Fail(Transport(TypeMismatch))
    ensures reply.Failure? ==> r == Fail(Transport(reply.error))
  {
    match AsInt(reply)
    case Failure(f) => Fail(Transport(f))
    case Success(code) => if code == 0 then Pass else Fail(failed)
  }

  /** The codes of one `system.multicall` result, when it is an array of `int`s. */
  function Codes(v: Value): Option<seq<int32>> {
    if v.Array? && forall k :: 0 <= k < |v.items| ==> v.items[k].Int?
    then Some(seq(|v.items|, k requires 0 <= k < |v.items| && v.items[k].Int? => v.items[k].i))
    else None
  }

  predicate AllCodes(results: seq<Value>) {
    forall k :: 0 <= k < |results| ==> Codes(results[k]).Some?
  }

  /** All codes of all results, in order. */
  function Flatten(results: seq<Value>): seq<int32>
    requires AllCodes(results)
  {
    if results == [] then [] else Codes(results[0]).value + Flatten(results[1..])
  }

  /** A result that lets the scan go on: an array of `int`s, all of them 0. */
  predicate Cleared(v: Value) {
    Codes(v).Some? && forall k :: 0 <= k < |Codes(v).value| ==> Codes(v).value[k] == 0
  }

  /** Scans the multicall results in order, as the lazy flatten-then-any does:
      a nonzero code fails the start; a result that is not an array of `int`s
      throws when it is reached; `offset` is the index of `results[0]`. */
  function CheckStart(results: seq<Value>, hash: string, offset: nat): (r: Outcome<Error>)
    ensures r.Fail? ==>
      (r.error == StartFailed(hash) || (r.error.BadMulticallResult? && offset <= r.error.index < offset + |results|))
    decreases |results|
  {
    if results == [] then Pass
    else match Codes(results[0])
      case None => Fail(BadMulticallResult(offset))
      case Some(codes) =>
        if exists k :: 0 <= k < |codes| && codes[k] != 0 then Fail(StartFailed(hash))
        else CheckStart(results[1..], hash, offset + 1)
  }

  /** When every result is an array of codes, the start succeeds iff every code is 0. */
  lemma {:induction false} CheckStartAllCodes(results: seq<Value>, hash: string, offset: nat)
    requires AllCodes(results)
    ensures CheckStart(results, hash, offset) ==
      if exists k :: 0 <= k < |Flatten(results)| && Flatten(results)[k] != 0 then Fail(StartFailed(hash)) else Pass
  {
    if results != [] {
      var codes := Codes(results[0]).value;
      var rest := results[1..];
      assert AllCodes(rest) by {
        forall k | 0 <= k < |rest| ensures Codes(rest[k]).Some? {
          assert rest[k] == results[k + 1];
        }
      }
      CheckStartAllCodes(rest, hash, offset + 1);
      var flat := Flatten(results);
      assert flat == codes + Flatten(rest);
      if exists k :: 0 <= k < |codes| && codes[k] != 0 {
        var k :| 0 <= k < |codes| && codes[k] != 0;
        assert CheckStart(results, hash, offset) == Fail(StartFailed(hash));
        assert Flatten(results)[k] == codes[k];
      } else {
        assert CheckStart(results, hash, offset) == CheckStart(rest, hash, offset + 1);
        if exists k :: 0 <= k < |flat| && flat[k] != 0 {
          var k :| 0 <= k < |flat| && flat[k] != 0;
          assert Flatten(rest)[k - |codes|] != 0;
        } else {
          forall k | 0 <= k < |Flatten(rest)| ensures Flatten(rest)[k] == 0 {
            assert flat[k + |codes|] == Flatten(rest)[k];
          }
        }
      }
    }
  }

  /** The index of the first result that is not cleared, or the number of results when all are. */
  function FirstUncleared(results: seq<Value>): (j: nat)
    ensures j <= |results|
    ensures forall i :: 0 <= i < j ==> Cleared(results[i])
    ensures j < |results| ==> !Cleared(results[j])
    decreases |results|
  {
    if results == [] || !Cleared(results[0]) then 0
    else
      var j := FirstUncleared(results[1..]);
      assert forall i :: 1 <= i < j + 1 ==> results[i] == results[1..][i - 1];
      j + 1
  }

  /** The scan stops at the first result that is not cleared: it throws there
      when that result is not an array of `int`s, and fails the start when it
      holds a nonzero code; with no such result the start passes. */
  lemma {:induction false} CheckStartFirst(results: seq<Value>, hash: string, offset: nat)
    ensures var j := FirstUncleared(results);
      CheckStart(results, hash, offset) ==
        if j == |results| then Pass
        else if Codes(results[j]).None? then Fail(BadMulticallResult(offset + j))
        else Fail(StartFailed(hash))
    decreases |results|
  {
    if results != [] && Cleared(results[0]) {
      var rest := results[1..];
      CheckStartFirst(rest, hash, offset + 1);
      var j := FirstUncleared(rest);
      assert FirstUncleared(results) == j + 1;
      assert j < |rest| ==> results[j + 1] == rest[j];
      assert CheckStart(results, hash, offset) == CheckStart(rest, hash, offset + 1);
    }
  }

  /** The order of the scan, stated result by result: the start passes iff every
      result is cleared; `BadMulticallResult(offset + j)` comes out iff result j
      is not an array of `int`s and every result before it is cleared. */
  lemma CheckStartScan(results: seq<Value>, hash: string, offset: nat)
    ensures CheckStart(results, hash, offset) == Pass <==> forall i :: 0 <= i < |results| ==> Cleared(results[i])
    ensures forall j :: 0 <= j < |results| ==>
      (CheckStart(results, hash, offset) == Fail(BadMulticallResult(offset + j)) <==>
        Codes(results[j]).None? && forall i :: 0 <= i < j ==> Cleared(results[i]))
  {
    CheckStartFirst(results, hash, offset);
  }

  /** A start that passes saw only arrays of `int`s, and every one of their codes was 0. */
  lemma CheckStartPass(results: seq<Value>, hash: string, offset: nat)
    ensures CheckStart(results, hash, offset) == Pass <==>
      AllCodes(results) && forall k :: 0 <= k < |Flatten(results)| ==> Flatten(results)[k] == 0
  {
    CheckStartScan(results, hash, offset);
    if AllCodes(results) {
      CheckStartAllCodes(results, hash, offset);
    }
  }

  /** The case where `d.open` answers 0 and `d.start` answers 1 fails the whole start. */
  lemma StartFailsOnSecondCode(hash: string)
    ensures CheckStart([Array([Int(0)]), Array([Int(1)])], hash, 0) == Fail(StartFailed(hash))
  {
    var results := [Array([Int(0)]), Array([Int(1)])];
    var open, start := Codes(results[0]), Codes(results[1]);
    assert open.Some? && |open.value| == 1 && open.value[0] == 0;
    assert start.Some? && |start.value| == 1 && start.value[0] == 1;
    assert results[1..] == [Array([Int(1)])];
    assert CheckStart(results[1..], hash, 1) == Fail(StartFailed(hash));
  }

  /** `d.open` answering 1 fails the start before the scan reaches a `d.start`
      result that is not an array of `int`s (a fault struct, say). */
  lemma StartFailsBeforeBadResult(hash: string)
    ensures CheckStart([Array([Int(1)]), Struct([])], hash, 0) == Fail(StartFailed(hash))
  {
    var results := [Array([Int(1)]), Struct([])];
    var open := Codes(results[0]);
    assert open.Some? && |open.value| == 1 && open.value[0] == 1;
  }

  // ---------------------------------------------------------------------
  // The client

  /** A client bound to one daemon. `Daemon` stands for the proxy's round trip:
      it gives the reply the daemon sends for each call. */
  class RutorrentClient {
    const Settings: RutorrentSettings
    const Client: Endpoint
    const Daemon: Call -> Reply

    constructor (settings: RutorrentSettings, daemon: Call -> Reply)
      ensures Settings == settings && Client == BuildClient(settings) && Daemon == daemon
    {
      Settings := settings;
      Client := BuildClient(settings);
      Daemon := daemon;
    }

    /** Lists every torrent: one record per row, in row order. */
    method GetTorrents() returns (r: Result<seq<RutorrentTorrent>, Error>)
      ensures r == Listing(Daemon(ListCall()))
    {
      var reply := Daemon(ListCall());
      match AsArray(reply) {
        case Failure(f) =>
          return Failure(Transport(f));
        case Success(rows) =>
          var items: seq<RutorrentTorrent> := [];
          var i := 0;
          while i < |rows|
            invariant 0 <= i <= |rows|
            invariant DecodeRows(rows[..i]) == Success(items)
          {
            var item := DecodeRow(rows[i]);
            DecodeRowsExtend(rows, i, items);
            if item.Failure? {
              DecodeRowsStopsAt(rows, i);
              return Failure(Malformed(i, item.error));
            }
            items := items + [item.value];
            i := i + 1;
          }
          assert rows[..i] == rows;
          return Success(items);
      }
    }

    function AddTorrentFromUrl(torrentUrl: string): (r: Outcome<Error>)
      ensures var reply := Daemon(LoadUrlCall(torrentUrl));
        (r == Pass <==> reply == Success(Int(0))) &&
        (reply.Success? && reply.value.Int? && reply.value.i != 0 ==> r == Fail(AddFailed(torrentUrl))) &&
        (reply.Success? && !reply.value.Int? ==> r == Fail(Transport(TypeMismatch))) &&
        (reply.Failure? ==> r == Fail(Transport(reply.error)))
    {
      CheckCode(Daemon(LoadUrlCall(torrentUrl)), AddFailed(torrentUrl))
    }

    /** The file name is not sent; it only names the torrent in the failure. */
    function AddTorrentFromFile(fileName: string, fileContent: seq<uint8>): (r: Outcome<Error>)
      ensures var reply := Daemon(LoadRawCall(fileContent));
        (r == Pass <==> reply == Success(Int(0))) &&
        (reply.Success? && reply.value.Int? && reply.value.i != 0 ==> r == Fail(AddFailed(fileName))) &&
        (reply.Success? && !reply.value.Int? ==> r == Fail(Transport(TypeMismatch))) &&
        (reply.Failure? ==> r == Fail(Transport(reply.error)))
    {
      CheckCode(Daemon(LoadRawCall(fileContent)), AddFailed(fileName))
    }

    function RemoveTorrent(hash: string): (r: Outcome<Error>)
      ensures var reply := Daemon(EraseCall(hash));
        (r == Pass <==> reply == Success(Int(0))) &&
        (reply.Success? && reply.value.Int? && reply.value.i != 0 ==> r == Fail(RemoveFailed(hash))) &&
        (reply.Success? && !reply.value.Int? ==> r == Fail(Transport(TypeMismatch))) &&
        (reply.Failure? ==> r == Fail(Transport(reply.error)))
    {
      CheckCode(Daemon(EraseCall(hash)), RemoveFailed(hash))
    }

    /** `priority` is the ordinal of the priority enumeration, sent as a `long`. */
    function SetTorrentPriority(hash: string, priority: int64): (r: Outcome<Error>)
      ensures var reply := Daemon(SetPriorityCall(hash, priority));
        (r == Pass <==> reply == Success(Int(0))) &&
        (reply.Success? && reply.value.Int? && reply.value.i != 0 ==> r == Fail(PriorityFailed(hash))) &&
        (reply.Success? && !reply.value.Int? ==> r == Fail(Transport(TypeMismatch))) &&
        (reply.Failure? ==> r == Fail(Transport(reply.error)))
    {
      CheckCode(Daemon(SetPriorityCall(hash, priority)), PriorityFailed(hash))
    }

    /** The daemon answers with the label it stored; only the requested label is success. */
    function SetTorrentLabel(hash: string, newLabel: string): (r: Outcome<Error>)
      ensures var reply := Daemon(SetLabelCall(hash, newLabel));
        (r == Pass <==> reply == Success(Str(newLabel))) &&
        (reply.Success? && reply.value.Str? && reply.value.s != newLabel ==> r == Fail(LabelFailed(hash))) &&
        (reply.Success? && !reply.value.Str? ==> r == Fail(Transport(TypeMismatch))) &&
        (reply.Failure? ==> r == Fail(Transport(reply.error)))
    {
      match AsString(Daemon(SetLabelCall(hash, newLabel)))
      case Failure(f) => Fail(Transport(f))
      case Success(stored) => if stored != newLabel then Fail(LabelFailed(hash)) else Pass
    }

    function SetTorrentDownloadDirectory(hash: string, directory: string): (r: Outcome<Error>)
      ensures var reply := Daemon(SetDirectoryCall(hash, directory));
        (r == Pass <==> reply == Success(Int(0))) &&
        (reply.Success? && reply.value.Int? && reply.value.i != 0 ==> r == Fail(DirectoryFailed(hash))) &&
        (reply.Success? && !reply.value.Int? ==> r == Fail(Transport(TypeMismatch))) &&
        (reply.Failure? ==> r == Fail(Transport(reply.error)))
    {
      CheckCode(Daemon(SetDirectoryCall(hash, directory)), DirectoryFailed(hash))
    }

    /** Whether the daemon knows the torrent by a real name. A failed lookup,
        of whatever kind, means no; a bare `<hash>.meta` placeholder means no. */
    function HasHashTorrent(hash: string): (present: bool)
      ensures present <==> exists name :: Daemon(GetNameCall(hash)) == Success(Str(name)) &&
                                          !IsBlank(name) && name != hash + ".meta"
    {
      match AsString(Daemon(GetNameCall(hash)))
      case Failure(_) => false
      case Success(name) =>
        if IsNullOrWhiteSpace(Some(name)) then false
        else !(name == hash + ".meta")
    }

    /** Opens and starts the torrent in one `system.multicall`. The start passes
        only when both results are arrays of `int`s and every code is 0; the
        results are scanned in order, and the first one that is not cleared
        decides the failure. */
    function StartTorrent(hash: string): (r: Outcome<Error>)
      ensures var reply := Daemon(StartCall(hash));
        (r == Pass <==> reply.Success? && reply.value.Array? && AllCodes(reply.value.items) &&
                        forall k :: 0 <= k < |Flatten(reply.value.items)| ==> Flatten(reply.value.items)[k] == 0) &&
        (reply.Failure? ==> r == Fail(Transport(reply.error))) &&
        (reply.Success? && !reply.value.Array? ==> r == Fail(Transport(TypeMismatch))) &&
        (reply.Success? && reply.value.Array? ==>
          (r.Fail? ==> r.error == StartFailed(hash) || (r.error.BadMulticallResult? && r.error.index < |reply.value.items|)) &&
          (forall j :: 0 <= j < |reply.value.items| ==>
            (r == Fail(BadMulticallResult(j)) <==>
              Codes(reply.value.items[j]).None? && forall i :: 0 <= i < j ==> Cleared(reply.value.items[i]))) &&
          (AllCodes(reply.value.items) && r != Pass ==> r == Fail(StartFailed(hash))))
    {
      match AsArray(Daemon(StartCall(hash)))
      case Failure(f) => Fail(Transport(f))
      case Success(results) =>
        CheckStartPass(results, hash, 0);
        CheckStartScan(results, hash, 0);
        CheckStart(results, hash, 0)
    }
  }
}
