/** One torrent as the client reports it, and the figures derived from it. */
module Torrents {
  import opened Wrappers
  import opened XmlRpc

  /** The largest whole number of seconds a `TimeSpan` can hold
      (`long.MaxValue` ticks of 100 ns). */
  const MaxTimeSpanSeconds := 922337203685

  /** `a / b` on `long`, which rounds toward zero (Dafny's `/` is Euclidean). */
  function TruncDiv(a: int, b: int): (q: int)
    requires b > 0
    ensures a >= 0 ==> 0 <= a - q * b < b
    ensures a < 0 ==> -b < a - q * b <= 0
  {
    if a >= 0 then a / b else -((-a) / b)
  }

  /** The record filled from one row of the torrent listing. `Finished` is the
      completion time in seconds since 1970-01-01T00:00:00Z. */
  datatype RutorrentTorrent = RutorrentTorrent(
    Name: string,
    Hash: string,
    Path: string,
    Label: string,
    TotalSize: int64,
    RemainingSize: int64,
    DownRate: int64,
    Ratio: int64,
    IsFinished: bool,
    IsOpen: bool,
    IsActive: bool,
    Finished: Option<int64>)
  {
    /** Whether `TimeRemaining` stays within the range of a `TimeSpan`. */
    predicate TimeRemainingInRange() {
      DownRate > 0 ==>
        -MaxTimeSpanSeconds <= TruncDiv(RemainingSize as int, DownRate as int) <= MaxTimeSpanSeconds
    }

    /** Seconds left at the current download rate; zero when nothing is coming in. */
    function TimeRemaining(): (seconds: int)
      requires TimeRemainingInRange()
      ensures DownRate <= 0 ==> seconds == 0
      ensures DownRate > 0 && RemainingSize >= 0 ==>
        seconds * DownRate as int <= RemainingSize as int < (seconds + 1) * DownRate as int
      ensures DownRate > 0 && RemainingSize < 0 ==>
        (seconds - 1) * DownRate as int < RemainingSize as int <= seconds * DownRate as int
    {
      if DownRate > 0 then TruncDiv(RemainingSize as int, DownRate as int) else 0
    }

    /** The completed fraction. With bytes still missing it divides by the
        total size, so the total must then be nonzero. */
    function PercentComplete(): (fraction: real)
      requires RemainingSize > 0 ==> TotalSize != 0
      ensures RemainingSize <= 0 ==> fraction == 1.0
      ensures RemainingSize > 0 ==>
        fraction * (TotalSize as real) == (TotalSize as real) - (RemainingSize as real)
    {
      if RemainingSize > 0 then 1.0 - (RemainingSize as real) / (TotalSize as real) else 1.0
    }

    /** The state shown to the user: completion wins over activity. */
    function Status(): (status: string)
      ensures status == "Completed" <==> IsFinished
      ensures status == "Downloading" <==> !IsFinished && IsActive
      ensures status == "Paused" <==> !IsFinished && !IsActive
    {
      if IsFinished then "Completed"
      else if IsActive then "Downloading"
      else "Paused"
    }
  }

  /** A partially downloaded torrent of known size has a fraction in [0, 1). */
  lemma PercentCompleteBounds(t: RutorrentTorrent)
    requires 0 < t.RemainingSize <= t.TotalSize
    ensures 0.0 <= t.PercentComplete() < 1.0
  {
  }

  /** The size units, and the number of bytes each stands for. */
  const Units: seq<string> := ["B", "KB", "MB", "GB", "TB"]
  const Scale: seq<real> := [1.0, 1024.0, 1048576.0, 1073741824.0, 1099511627776.0]

  /** The largest unit in which `len` is at least one, TB at most; bytes for anything below 1 KB. */
  function SizeUnit(len: real): (k: nat)
    ensures k < |Units| && k < |Scale|
    ensures k > 0 ==> len >= Scale[k]
    ensures k + 1 < |Scale| ==> len < Scale[k + 1]
  {
    if len < Scale[1] then 0
    else if len < Scale[2] then 1
    else if len < Scale[3] then 2
    else if len < Scale[4] then 3
    else 4
  }

  /** A size in a human-readable unit. Rendering it with two decimals is not modelled. */
  datatype FriendlySize = FriendlySize(Amount: real, Unit: string)

  /** Divides by 1024 while the value is at least 1024 and a larger unit is left. */
  method GetFriendlyFileSize(len: real) returns (size: FriendlySize)
    ensures size.Unit == Units[SizeUnit(len)]
    ensures size.Amount * Scale[SizeUnit(len)] == len
  {
    var sizes := Units;
    var order := 0;
    var amount := len;
    while amount >= 1024.0 && order + 1 < |sizes|
      invariant 0 <= order < |sizes|
      invariant amount * Scale[order] == len
      invariant order > 0 ==> len >= Scale[order]
    {
      assert Scale[order + 1] == Scale[order] * 1024.0;
      order := order + 1;
      amount := amount / 1024.0;
    }
    assert order + 1 < |Scale| ==> len < Scale[order + 1] by {
      if order + 1 < |Scale| {
        assert Scale[order + 1] == Scale[order] * 1024.0;
        assert amount < 1024.0;
      }
    }
    size := FriendlySize(amount, sizes[order]);
  }

  /** The total size in a human-readable unit; no other field takes part. */
  method FriendlyTotalSize(t: RutorrentTorrent) returns (size: FriendlySize)
    ensures size.Unit == Units[SizeUnit(t.TotalSize as real)]
    ensures size.Amount * Scale[SizeUnit(t.TotalSize as real)] == t.TotalSize as real
  {
    size := GetFriendlyFileSize(t.TotalSize as real);
  }
}
