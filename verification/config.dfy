/** Connection settings of the rTorrent client and their defaults. */
module Config {
  import opened Wrappers
  import opened XmlRpc

  /** The settings record. Strings the code may leave null are `Option`s;
      the priorities are ordinals of the priority enumeration. */
  datatype RutorrentSettings = RutorrentSettings(
    Host: string,
    Port: int32,
    UrlBase: string,
    UseSsl: bool,
    Username: Option<string>,
    Password: Option<string>,
    TvCategory: string,
    TvDirectory: Option<string>,
    RecentTvPriority: int32,
    OlderTvPriority: int32)

  const DefaultHost := "localhost"
  const DefaultPort: int32 := 8080
  const DefaultUrlBase := "xmlrpc"
  const DefaultTvCategory := "tv-sonarr"

  /** The settings a fresh `RutorrentSettings` object holds. `normal` is the
      ordinal of the `Normal` priority, whose definition is outside this model. */
  function DefaultSettings(normal: int32): (s: RutorrentSettings)
    ensures s.Host == "localhost" && s.Port == 8080 && s.UrlBase == "xmlrpc"
    ensures s.TvCategory == "tv-sonarr"
    ensures s.RecentTvPriority == normal && s.OlderTvPriority == normal
    ensures !s.UseSsl && s.Username == None && s.Password == None && s.TvDirectory == None
  {
    RutorrentSettings(
      Host := DefaultHost,
      Port := DefaultPort,
      UrlBase := DefaultUrlBase,
      UseSsl := false,
      Username := None,
      Password := None,
      TvCategory := DefaultTvCategory,
      TvDirectory := None,
      RecentTvPriority := normal,
      OlderTvPriority := normal)
  }
}
