/** `getHeaders`: the fixed HTTP headers of every update request.  The
    operating-system name (`runtime.GOOS`) is a parameter. */
module Headers {
  import opened Wrappers
  import Strings

  /** The program's name and version, used as the user-agent product. */
  const ProgramName := "solrload"
  const ProgramVersion := "0.1.0"

  const JsonMediaType := "application/json"

  /** `agent/version (os)` */
  function UserAgent(agent: string, version: string, goos: string): string {
    agent + ("/" + (version + (" (" + (goos + ")"))))
  }

  function GetHeaders(agent: string, version: string, goos: string): (h: map<string, string>)
    ensures h.Keys == {"User-Agent", "Accept", "Connection", "Accept-Encoding", "Content-Type"}
    ensures |h| == 5
    ensures h["User-Agent"] == UserAgent(agent, version, goos)
    ensures h["Accept"] == JsonMediaType && h["Content-Type"] == JsonMediaType
    ensures h["Connection"] == "keep-alive"
    ensures h["Accept-Encoding"] == "gzip, deflate"
  {
    var h := map[
      "User-Agent" := UserAgent(agent, version, goos),
      "Accept" := JsonMediaType,
      "Connection" := "keep-alive",
      "Accept-Encoding" := "gzip, deflate",
      "Content-Type" := JsonMediaType];
    assert h.Keys == {"User-Agent", "Accept", "Connection", "Accept-Encoding", "Content-Type"};
    h
  }

  /** Reads a user-agent value `agent/version (os)` back into its three parts:
      the agent ends at the first `/`, the operating system starts after the
      last `(`. */
  function ParseUserAgent(ua: string): Option<(string, string, string)> {
    var slash :- Strings.IndexOf(ua, '/');
    var paren :- Strings.LastIndexOf(ua, '(');
    if slash + 2 <= paren && ua[paren - 1] == ' ' && ua[|ua| - 1] == ')' && paren + 1 < |ua| then
      Some((ua[..slash], ua[slash + 1..paren - 1], ua[paren + 1..|ua| - 1]))
    else None
  }

  /** The user-agent value gives back the agent, version and operating system
      it was built from, as long as the agent has no `/` and the operating
      system no `(`. */
  lemma UserAgentRoundTrip(agent: string, version: string, goos: string)
    requires '/' !in agent && '(' !in goos
    ensures ParseUserAgent(UserAgent(agent, version, goos)) == Some((agent, version, goos))
  {
    var ua := UserAgent(agent, version, goos);
    var slash := |agent|;
    var paren := |agent| + 1 + |version| + 1;
    assert ua[..slash] == agent;
    Strings.IndexOfFirst(ua, '/', slash);
    assert ua[paren + 1..] == goos + ")";
    Strings.LastIndexOfLast(ua, '(', paren);
    assert ua[slash + 1..paren - 1] == version;
    assert ua[paren + 1..|ua| - 1] == goos;
  }

  /** The headers this program sends: its own name and version as the agent. */
  lemma ProgramHeaders(goos: string)
    requires '(' !in goos
    ensures ParseUserAgent(GetHeaders(ProgramName, ProgramVersion, goos)["User-Agent"])
            == Some((ProgramName, ProgramVersion, goos))
  {
    UserAgentRoundTrip(ProgramName, ProgramVersion, goos);
  }
}
