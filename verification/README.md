# DownloadKnight rTorrent client — a Dafny model

DownloadKnight talks to an rTorrent daemon over XML-RPC. Its client lists
torrents with one batched `d.multicall2` call and decodes every returned row,
position by position, into a `RutorrentTorrent` record. It adds, removes,
relabels, reprioritises, moves and starts torrents, and turns each daemon reply
into success or an exception. It also derives the time remaining, the completed
fraction, a status word and a human-readable size from each record. The
connection comes from a `RutorrentSettings` object, which has defaults.

The model has six modules:

- `Wrappers` (`wrappers.dfy`): `Option`, `Result` and `Outcome`.
- `Text` (`text.dfy`): the .NET string behaviour the client relies on.
  - `char.IsWhiteSpace` and `string.IsNullOrWhiteSpace`.
  - Decimal rendering of the port, with a parser that reads it back.
- `XmlRpc` (`xmlrpc.dfy`): what crosses the wire.
  - XML-RPC values, with `i4` and `i8` kept apart, because unboxing an `int` as a `long` fails in C#.
  - Calls, and the faults a proxy call can throw.
  - The typed returns of the proxy methods (`int`, `string`, `object[]`).
- `Config` (`config.dfy`): the settings record and its defaults.
- `Torrents` (`torrents.dfy`): the torrent record and its derived figures.
  - `GetFriendlyFileSize` is kept as a loop over the unit index.
- `Rutorrent` (`rutorrent.dfy`): the calls the client issues, the row decoder,
  the reply checks, the endpoint and the class `RutorrentClient`.

The daemon is an input. A `RutorrentClient` holds a total function `Daemon`
from the call issued to the reply received (a value or a `Fault`). Each
operation is stated in terms of `Daemon` applied to the exact call the source
sends. `GetTorrents` keeps the source's loop: it appends one record per row and
is proved equal to the recursive specification `DecodeRows`. The other
operations are single replies checked by pure functions.

Three behaviours of the code worth knowing:

- A row with more than twelve columns is accepted and the extra columns are
  ignored. Only a row too short to hold column 11 fails.
- `HasHashTorrent` rejects a name made only of white space, not just the empty name.
- The priority sent by `SetTorrentPriority` is whatever ordinal the
  `RutorrentPriority` enum gives. The model takes it as a given `long`.

Failures reproduce what the code throws:

- The decoder's cast and index failures become `Malformed(row, problem)`.
  - Column 11 is read first (`RutorrentClient.cs:105`), then columns 0 to 10 in order.
  - A completion time past 9999-12-31 makes `DateTime.AddSeconds` throw, so it fails as `FinishedOutOfRange`.
- Proxy failures become `Transport(fault)`. Every operation except `HasHashTorrent` passes them through unchanged; `HasHashTorrent` answers false.
  A reply of the wrong type (not an `int` where the proxy method returns `int`) is `Transport(TypeMismatch)`.
- `StartTorrent` flattens the multicall results and tests them with `Any`. Both
  are lazy, so a result that is not an array of `int`s throws only if no
  nonzero code comes before it. That case is `BadMulticallResult(index)`.

## Model

| member | source | states |
|---|---|---|
| `Text.DecimalRoundTrip` | DownloadKnight/Rutorrent/RutorrentClient.cs:203-207 | the port as rendered into the URL reads back as the same integer |
| `Config.DefaultSettings` | DownloadKnight/Rutorrent/RutorrentSettings.cs:7-15 | a fresh settings object has host "localhost", port 8080, URL base "xmlrpc", category "tv-sonarr", and both priorities equal to the ordinal of Normal; TLS is off and username, password and TV directory are unset |
| `Torrents.TruncDiv` | DownloadKnight/Rutorrent/RutorrentTorrent.cs:27 | `long` division rounds toward zero: the remainder has the dividend's sign and is smaller than the divisor |
| `Torrents.RutorrentTorrent.TimeRemaining` | DownloadKnight/Rutorrent/RutorrentTorrent.cs:21-33 | zero seconds whenever the rate is not positive, whatever remains; otherwise the quotient of remaining bytes by rate, rounded toward zero |
| `Torrents.RutorrentTorrent.PercentComplete` | DownloadKnight/Rutorrent/RutorrentTorrent.cs:35-46 | exactly 1 when nothing remains (a zero total included); otherwise the fraction f with f·total = total − remaining, which needs a nonzero total |
| `Torrents.PercentCompleteBounds` | DownloadKnight/Rutorrent/RutorrentTorrent.cs:39-41 | with 0 < remaining ≤ total the fraction lies in [0, 1) |
| `Torrents.RutorrentTorrent.Status` | DownloadKnight/Rutorrent/RutorrentTorrent.cs:48-60 | "Completed" iff finished, whatever the activity; "Downloading" iff not finished and active; "Paused" iff neither; so "Unknown" never comes out |
| `Torrents.SizeUnit` | DownloadKnight/Rutorrent/RutorrentTorrent.cs:70-76 | the unit index is at most 4 (TB); it is 0 below 1024; a positive index k means the size is at least 1024^k; below 4 the size is under 1024^(k+1) |
| `Torrents.GetFriendlyFileSize` | DownloadKnight/Rutorrent/RutorrentTorrent.cs:68-78 | the loop stops at the unit `SizeUnit` gives, never beyond TB; the amount times 1024 to the power of the index is the input, so the index counts the divisions and inputs below 1024 stay undivided in "B" |
| `Torrents.FriendlyTotalSize` | DownloadKnight/Rutorrent/RutorrentTorrent.cs:62-65 | the friendly size of the total size alone; no other field takes part |
| `Rutorrent.ListCall` | DownloadKnight/Rutorrent/RutorrentClient.cs:86-98 | `d.multicall2` with two empty leading arguments and the twelve field commands in column order |
| `Rutorrent.StartCall` | DownloadKnight/Rutorrent/RutorrentClient.cs:188-192 | one `system.multicall` holding exactly two entries, `d.open` then `d.start`, each with the same hash as its only parameter |
| `Rutorrent.BuildClient` | DownloadKnight/Rutorrent/RutorrentClient.cs:199-215 | URL is scheme + "://" + host + ":" + port + "/" + URL base, scheme "https" iff TLS; compression on; credentials present iff the username is not null or white space, and then they carry the username and password |
| `Rutorrent.UrlParts` | DownloadKnight/Rutorrent/RutorrentClient.cs:203-207 | the URL begins with "https://" when TLS is on and "http://" otherwise, and the segment after host and ":" is the port's decimal rendering (which `Text.DecimalRoundTrip` reads back as the port) |
| `Rutorrent.DefaultEndpoint` | DownloadKnight/Rutorrent/RutorrentClient.cs:203-212 | default settings give "http://localhost:8080/xmlrpc" with compression and no credentials |
| `Rutorrent.FirstMistyped` | DownloadKnight/Rutorrent/RutorrentClient.cs:109-119 | finds the first of columns 0..10 whose value is not of the expected type (string for 0..3, `long` for 4..10), or reports that all fit |
| `Rutorrent.DecodeRow` | DownloadKnight/Rutorrent/RutorrentClient.cs:103-121 | a row decodes iff it is an array of at least twelve columns of the expected types (string for 0..3, `long` for 4..11) whose completion time is representable; the record then holds columns 0..7 as Name, Hash, Path, Label, TotalSize, RemainingSize, DownRate, Ratio, 8..10 as IsOpen, IsActive, IsFinished (each true iff nonzero), and Finished absent iff column 11 ≤ 0, else that many seconds |
| `Rutorrent.DecodeRowProblem` | DownloadKnight/Rutorrent/RutorrentClient.cs:103-120 | `NotARow` exactly when the value is not an array; `MissingColumns` (with the row's length) exactly when the row is too short for column 11; `WrongType` exactly when a long enough row has a mistyped column, naming one of columns 0..10 only when column 11, read first, is a `long` and every earlier column fits; `FinishedOutOfRange` exactly when every cast succeeds and the completion time lies past 9999-12-31 |
| `Rutorrent.DecodeEncodeRow` | DownloadKnight/Rutorrent/RutorrentClient.cs:105-120 | decoding the row the daemon would send for a record gives that record back |
| `Rutorrent.EncodeDecodeRow` | DownloadKnight/Rutorrent/RutorrentClient.cs:105-120 | re-encoding a decoded row restores columns 0..7 exactly and the flags and completion time in normal form (0/1, and 0 for none) |
| `Rutorrent.DecodeRows` | DownloadKnight/Rutorrent/RutorrentClient.cs:102-126 | a successful decoding has one record per row; a failed one is a `Malformed` error naming a row that exists |
| `Rutorrent.DecodeRowsSuccess` | DownloadKnight/Rutorrent/RutorrentClient.cs:102-126 | the rows decode iff every row decodes on its own, and then record i is the decoding of row i |
| `Rutorrent.DecodeRowsFailure` | DownloadKnight/Rutorrent/RutorrentClient.cs:102-126 | a failure names the first row that cannot be decoded, carrying that row's own problem; every earlier row decodes |
| `Rutorrent.DecodeRowsExtend` | DownloadKnight/Rutorrent/RutorrentClient.cs:103-124 | one more iteration of the loop: after a decodable prefix, the next row's record is appended, or its problem ends the decoding at that index |
| `Rutorrent.DecodeRowsStopsAt` | DownloadKnight/Rutorrent/RutorrentClient.cs:103-124 | once a row after a decodable prefix fails, the rows that follow it change nothing: the whole decoding fails at that row |
| `Rutorrent.Listing` | DownloadKnight/Rutorrent/RutorrentClient.cs:84-126 | a proxy failure passes through, a reply that is not an array is a type mismatch, and an array is decoded row by row |
| `Rutorrent.CheckCode` | DownloadKnight/Rutorrent/RutorrentClient.cs:131-133 | success iff the reply is the `int` 0; any other `int` fails with the operation's error; a proxy failure or a non-`int` reply passes through as a transport error |
| `Rutorrent.CheckStart` | DownloadKnight/Rutorrent/RutorrentClient.cs:193-196 | a failure is either the start failure for this hash or a cast failure at one of the results scanned |
| `Rutorrent.FirstUncleared` | DownloadKnight/Rutorrent/RutorrentClient.cs:193-196 | the first result that is not an array of `int`s all equal to 0: every result before it is, and it is not (or none exists) |
| `Rutorrent.CheckStartFirst` | DownloadKnight/Rutorrent/RutorrentClient.cs:193-196 | the lazy scan stops at the first result that is not cleared: it throws the cast failure there when the result is not an array of `int`s, fails the start when it holds a nonzero code, and passes when no such result exists |
| `Rutorrent.CheckStartScan` | DownloadKnight/Rutorrent/RutorrentClient.cs:193-196 | the start passes iff every result is cleared; `BadMulticallResult` names result j iff result j is not an array of `int`s and every result before it is cleared |
| `Rutorrent.CheckStartPass` | DownloadKnight/Rutorrent/RutorrentClient.cs:193-196 | the start passes iff every result is an array of `int`s and every code of the flattened sequence is 0 |
| `Rutorrent.CheckStartAllCodes` | DownloadKnight/Rutorrent/RutorrentClient.cs:193-196 | when every result is an array of codes, the start fails iff some code of the flattened sequence is nonzero, and passes otherwise |
| `Rutorrent.StartFailsOnSecondCode` | DownloadKnight/Rutorrent/RutorrentClient.cs:188-196 | `d.open` answering 0 and `d.start` answering 1 fails the whole start |
| `Rutorrent.StartFailsBeforeBadResult` | DownloadKnight/Rutorrent/RutorrentClient.cs:193-196 | `d.open` answering 1 fails the start with the hash even when the `d.start` result that follows is a struct, because the lazy scan stops at the nonzero code first |
| `Rutorrent.RutorrentClient.constructor` | DownloadKnight/Rutorrent/RutorrentClient.cs:71-75 | keeps the settings and the endpoint built from them |
| `Rutorrent.RutorrentClient.GetTorrents` | DownloadKnight/Rutorrent/RutorrentClient.cs:84-127 | the loop returns exactly the listing `Listing` specifies for the daemon's reply to the listing call |
| `Rutorrent.RutorrentClient.AddTorrentFromUrl` | DownloadKnight/Rutorrent/RutorrentClient.cs:129-134 | `load.normal` with an empty target and the URL succeeds iff the daemon answers 0; a nonzero code fails naming the URL; a reply that is not an `int` is a type mismatch; a proxy failure passes through |
| `Rutorrent.RutorrentClient.AddTorrentFromFile` | DownloadKnight/Rutorrent/RutorrentClient.cs:136-141 | `load.raw` with the file content succeeds iff the daemon answers 0; a nonzero code fails naming the file, whose name is not sent; a reply that is not an `int` is a type mismatch; a proxy failure passes through |
| `Rutorrent.RutorrentClient.RemoveTorrent` | DownloadKnight/Rutorrent/RutorrentClient.cs:143-148 | `d.erase` succeeds iff the daemon answers 0; a nonzero code fails naming the hash; a reply that is not an `int` is a type mismatch; a proxy failure passes through |
| `Rutorrent.RutorrentClient.SetTorrentPriority` | DownloadKnight/Rutorrent/RutorrentClient.cs:150-155 | `d.priority.set` with the priority ordinal as a `long` succeeds iff the daemon answers 0; a nonzero code fails naming the hash; a reply that is not an `int` is a type mismatch; a proxy failure passes through |
| `Rutorrent.RutorrentClient.SetTorrentLabel` | DownloadKnight/Rutorrent/RutorrentClient.cs:157-162 | succeeds iff the daemon echoes exactly the requested label; any other echo, a truncated one included, fails naming the hash |
| `Rutorrent.RutorrentClient.SetTorrentDownloadDirectory` | DownloadKnight/Rutorrent/RutorrentClient.cs:164-169 | `d.directory.set` succeeds iff the daemon answers 0; a nonzero code fails naming the hash; a reply that is not an `int` is a type mismatch; a proxy failure passes through |
| `Rutorrent.RutorrentClient.HasHashTorrent` | DownloadKnight/Rutorrent/RutorrentClient.cs:171-184 | true iff the name lookup returns a string that is not blank and differs from hash + ".meta"; every lookup failure gives false, never an error |
| `Rutorrent.RutorrentClient.StartTorrent` | DownloadKnight/Rutorrent/RutorrentClient.cs:186-197 | succeeds iff the reply is an array of results that are all arrays of `int`s and every flattened code is 0; `BadMulticallResult(j)` iff result j is not an array of `int`s and every earlier result is cleared; any other failure on an array reply names the hash; a reply that is not an array is a type mismatch; a proxy failure passes through |

## Left out

- The XML-RPC transport is not modelled: proxy generation, HTTP, compression, authentication and serialisation. The `Daemon` function stands for it. The proxy's method attributes appear only as method names in the calls the model builds.
- `GetVersion`, `GetDownloadList` and `GetViewList` only return what the proxy returns, with no logic of their own.
- `ToLocalTime` depends on the machine's time zone. `Finished` is kept as seconds since the Unix epoch, in UTC.
- The text of exception messages is not modelled. A failure is an error kind plus the URL, file name or hash it names.
- The `"{0:0.##} {1}"` rendering of a friendly size is not modelled; the model returns the amount and the unit.
- `Torrents.GetFriendlyFileSize`: computes over exact reals, not `double`. It does not model rounding, or the precision lost when a `long` above 2^53 becomes a `double`.
- `Torrents.RutorrentTorrent.PercentComplete`: computes an exact real, not a 28-digit `decimal`. Its precondition excludes the `DivideByZeroException` that a zero total with bytes remaining throws.
- `Torrents.RutorrentTorrent.TimeRemaining`: its precondition excludes quotients beyond ±922337203685 seconds. There `TimeSpan.FromSeconds` throws `OverflowException`.
- The `RutorrentPriority` enum is not part of this model. Priorities are its ordinals, taken as given values.
- `Text.IntToDecimal`: writes a negative number with `-`. `string.Format` uses the current culture, whose negative sign may differ, so a negative port's sign in the URL is culture-dependent.
- `Rutorrent.BuildClient`: treats `Host` and `UrlBase` as non-null strings. The code's formatting would print a null there as an empty string.
- `Rutorrent.CheckStart`: counts a multicall result as codes when it is an array of `i4` values, an empty array included. It assumes that such an array deserialises to an `int[]` and so passes the cast to `IEnumerable<int>`.
