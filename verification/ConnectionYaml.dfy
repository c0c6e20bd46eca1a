/** The connection file of the desktop client: its printer, its line parser, and when parsing undoes printing. */
module ConnectionYaml {
  import opened Text
  import opened Wrappers

  datatype Config = Config(clusterName: string, urls: seq<string>, userId: string, role: string,
                           publicKey: string, privateKey: string)

  datatype ParseError = MissingUrls | MissingPublicKey | MissingPrivateKey

  // ---------------------------------------------------------------- printing

  function ReplaceUnderscores(s: string): (r: string)
    ensures |r| == |s|
  {
    seq(|s|, i requires 0 <= i < |s| => if s[i] == '_' then '-' else s[i])
  }

  function ConfigName(c: Config): string
  {
    ReplaceUnderscores(AsciiLower(c.clusterName + "-" + c.userId))
  }

  const DASH := "- "
  const URLS_KEY := "controlPlaneUrls"
  const URLS_KEY_ALIAS := "control_plane_urls"

  /** A line `key: value`. */
  function Field(indent: string, key: string, value: string): string
  {
    indent + key + ": " + value
  }

  /** A line `key:`. */
  function Header(indent: string, key: string): string
  {
    indent + key + ":"
  }

  function UrlItem(url: string): string
  {
    "    " + DASH + url
  }

  function UrlLines(urls: seq<string>): seq<string>
  {
    if urls == [] then [] else [UrlItem(urls[0])] + UrlLines(urls[1..])
  }

  function HeadLines(c: Config): seq<string>
  {
    [Field("", "apiVersion", "xenage.io/v1alpha1"), Field("", "kind", "ClusterConnection"), Header("", "metadata"),
     Field("  ", "name", ConfigName(c)), Header("", "spec"), Field("  ", "clusterName", c.clusterName),
     Header("  ", URLS_KEY)]
  }

  function TailLines(c: Config): seq<string>
  {
    [Header("  ", "user"), Field("    ", "id", c.userId), Field("    ", "role", c.role),
     Field("    ", "publicKey", c.publicKey), Field("    ", "privateKey", c.privateKey)]
  }

  function DumpLines(c: Config): seq<string>
  {
    HeadLines(c) + UrlLines(c.urls) + TailLines(c)
  }

  function Join(lines: seq<string>): string
  {
    if lines == [] then "" else if |lines| == 1 then lines[0] else lines[0] + "\n" + Join(lines[1..])
  }

  function Dump(c: Config): string
  {
    Join(DumpLines(c)) + "\n"
  }

  method DumpGuiConnectionYaml(c: Config) returns (text: string)
    ensures text == Dump(c)
  {
    var lines := HeadLines(c);
    var i := 0;
    while i < |c.urls|
      invariant 0 <= i <= |c.urls|
      invariant lines + UrlLines(c.urls[i..]) == HeadLines(c) + UrlLines(c.urls)
    {
      assert c.urls[i..][0] == c.urls[i] && c.urls[i..][1..] == c.urls[i + 1..];
      lines := lines + [UrlItem(c.urls[i])];
      i := i + 1;
    }
    assert lines == lines + UrlLines(c.urls[i..]);
    lines := lines + TailLines(c);
    text := Join(lines) + "\n";
  }

  // ---------------------------------------------------------------- parsing

  function StripCr(line: string): string
  {
    if line != "" && line[|line| - 1] == '\r' then line[..|line| - 1] else line
  }

  /** Where `c` first occurs, or the length. */
  function IndexOf(s: string, c: char): (k: nat)
    ensures k <= |s| && (k < |s| ==> s[k] == c) && forall i :: 0 <= i < k ==> s[i] != c
  {
    if s == "" || s[0] == c then 0 else 1 + IndexOf(s[1..], c)
  }

  function SplitOnce(s: string, c: char): Option<(string, string)>
  {
    var k := IndexOf(s, c);
    if k == |s| then None else Some((s[..k], s[k + 1..]))
  }

  /** Lines without their ends; a final line end does not start another line. */
  function Lines(text: string): seq<string>
    decreases |text|
  {
    var k := IndexOf(text, '\n');
    if text == "" then [] else if k == |text| then [text] else [StripCr(text[..k])] + Lines(text[k + 1..])
  }

  function TrimStartChar(s: string, c: char): (r: string)
    ensures |r| <= |s| && r == s[|s| - |r|..] && (|r| < |s| <==> s != "" && s[0] == c)
  {
    if s != "" && s[0] == c then TrimStartChar(s[1..], c) else s
  }

  function TrimEndChar(s: string, c: char): (r: string)
    ensures |r| <= |s| && r == s[..|r|] && (|r| < |s| <==> s != "" && s[|s| - 1] == c)
  {
    if s != "" && s[|s| - 1] == c then TrimEndChar(s[..|s| - 1], c) else s
  }

  function TrimChar(s: string, c: char): string
  {
    TrimEndChar(TrimStartChar(s, c), c)
  }

  /** Double quotes first, then single quotes, all of them at both ends. */
  function Unquote(s: string): string
  {
    TrimChar(TrimChar(s, '"'), '\'')
  }

  predicate StartsWithDash(s: string)
  {
    DASH <= s
  }

  /** `trim_start_matches("- ")`: every repetition of the prefix goes. */
  function StripDashes(s: string): (r: string)
    ensures |r| <= |s| && r == s[|s| - |r|..] && (|r| < |s| <==> StartsWithDash(s))
    decreases |s|
  {
    if StartsWithDash(s) then StripDashes(s[2..]) else s
  }

  predicate TimestampChar(c: char)
  {
    '0' <= c <= '9' || c == '-' || c == ':' || c == '.' || c == 'T' || c == 'Z'
  }

  predicate LooksLikeTimestamp(token: string)
  {
    && |token| >= 20 && 'T' in token && token[|token| - 1] == 'Z'
    && forall i :: 0 <= i < |token| ==> TimestampChar(token[i])
  }

  /** A log line's leading timestamp is dropped. */
  function WithoutTimestamp(compact: string): string
  {
    var split := SplitOnce(compact, ' ');
    if split.Some? && LooksLikeTimestamp(split.value.0) then TrimStart(split.value.1) else compact
  }

  datatype Parser = Parser(fields: map<string, string>, urls: seq<string>, inUrls: bool)

  const FRESH_PARSER := Parser(map[], [], false)

  predicate IsUrlsHeader(compact: string)
  {
    compact == URLS_KEY + ":" || compact == URLS_KEY_ALIAS + ":"
  }

  function ParseField(p: Parser, compact: string): Parser
  {
    var split := SplitOnce(compact, ':');
    if split.None? then p
    else p.(fields := p.fields[Trim(split.value.0) := Unquote(Trim(split.value.1))])
  }

  function ParseCompact(p: Parser, compact: string): Parser
  {
    if compact == "" || compact[0] == '#' then p
    else if IsUrlsHeader(compact) then p.(inUrls := true)
    else if p.inUrls && StartsWithDash(compact) then p.(urls := p.urls + [Trim(StripDashes(compact))])
    else ParseField(p.(inUrls := false), compact)
  }

  function ParseLine(p: Parser, line: string): Parser
  {
    ParseCompact(p, WithoutTimestamp(Trim(line)))
  }

  function ParseLines(p: Parser, lines: seq<string>): Parser
    decreases |lines|
  {
    if lines == [] then p else ParseLines(ParseLine(p, lines[0]), lines[1..])
  }

  function Lookup(fields: map<string, string>, key: string, alias: string): Option<string>
  {
    if key in fields then Some(fields[key]) else if alias in fields then Some(fields[alias]) else None
  }

  function OrDefault(o: Option<string>, default: string): string
  {
    if o.Some? then o.value else default
  }

  function Assemble(p: Parser): Result<Config, ParseError>
  {
    var single := Lookup(p.fields, "controlPlaneUrl", "control_plane_url");
    var urls := if p.urls == [] && single.Some? then [single.value] else p.urls;
    var publicKey := Lookup(p.fields, "publicKey", "public_key");
    var privateKey := Lookup(p.fields, "privateKey", "private_key");
    if urls == [] then Err(MissingUrls)
    else if publicKey.None? then Err(MissingPublicKey)
    else if privateKey.None? then Err(MissingPrivateKey)
    else
      Ok(Config(OrDefault(Lookup(p.fields, "clusterName", "cluster_name"), "demo"), urls,
                OrDefault(Lookup(p.fields, "id", "user_id"), "admin"),
                OrDefault(Lookup(p.fields, "role", "role"), "admin"), publicKey.value, privateKey.value))
  }

  function Parse(text: string): Result<Config, ParseError>
  {
    Assemble(ParseLines(FRESH_PARSER, Lines(text)))
  }

  method ParseGuiConnectionYaml(text: string) returns (r: Result<Config, ParseError>)
    ensures r == Parse(text)
  {
    var fields: map<string, string> := map[];
    var urls: seq<string> := [];
    var inUrls := false;
    var lines := Lines(text);
    var i := 0;
    while i < |lines|
      invariant 0 <= i <= |lines|
      invariant ParseLines(Parser(fields, urls, inUrls), lines[i..]) == ParseLines(FRESH_PARSER, lines)
    {
      var line := lines[i];
      ghost var p := Parser(fields, urls, inUrls);
      assert lines[i..][0] == line && lines[i..][1..] == lines[i + 1..];
      i := i + 1;
      var compact := WithoutTimestamp(Trim(line));
      if compact == "" || compact[0] == '#' {
        assert Parser(fields, urls, inUrls) == ParseLine(p, line);
        continue;
      }
      if IsUrlsHeader(compact) {
        inUrls := true;
        assert Parser(fields, urls, inUrls) == ParseLine(p, line);
        continue;
      }
      if inUrls && StartsWithDash(compact) {
        urls := urls + [Trim(StripDashes(compact))];
        assert Parser(fields, urls, inUrls) == ParseLine(p, line);
        continue;
      }
      inUrls := false;
      var split := SplitOnce(compact, ':');
      if split.Some? {
        fields := fields[Trim(split.value.0) := Unquote(Trim(split.value.1))];
      }
      assert Parser(fields, urls, inUrls) == ParseLine(p, line);
    }
    r := Assemble(Parser(fields, urls, inUrls));
  }
}
