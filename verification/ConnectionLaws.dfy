/** What single lines mean to the connection parser, which answers it gives, and what the printer writes. */
module ConnectionLaws {
  import opened ConnectionRoundTrip
  import opened ConnectionYaml
  import opened Text
  import opened Wrappers

  // ---------------------------------------------------------------- lines without a say

  predicate BlankOrComment(line: string)
  {
    Trim(line) == "" || Trim(line)[0] == '#'
  }

  lemma CommentIsSkipped(p: Parser, line: string)
    requires BlankOrComment(line)
    ensures ParseLine(p, line) == p
  {
    hide Trim;
    var split := SplitOnce(Trim(line), ' ');
    if split.Some? && split.value.0 != "" {
      assert split.value.0[0] == Trim(line)[0];
    }
  }

  /** Blank lines and comments change nothing, wherever they stand. */
  lemma {:induction false} CommentsAreSkipped(p: Parser, before: seq<string>, line: string, after: seq<string>)
    requires BlankOrComment(line)
    ensures ParseLines(p, before + [line] + after) == ParseLines(p, before + after)
  {
    hide BlankOrComment, ParseLine;
    var q := ParseLines(p, before);
    ParseConcat(p, before, after);
    ParseConcat(p, before + [line], after);
    ParseConcat(p, before, [line]);
    CommentIsSkipped(q, line);
    assert [line][1..] == [];
    assert ParseLines(q, [line]) == ParseLines(ParseLine(q, line), []);
  }

  // ---------------------------------------------------------------- time stamps

  /** At least 20 characters, digits and date punctuation, a T among them and a Z last. */
  predicate TimeStamp(s: string)
  {
    && |s| >= 20 && 'T' in s && s[|s| - 1] == 'Z'
    && forall i :: 0 <= i < |s| ==>
         '0' <= s[i] <= '9' || s[i] == 'T' || s[i] == 'Z' || s[i] == '-' || s[i] == ':' || s[i] == '.'
  }

  ghost predicate Stamped(line: string)
  {
    exists stamp, rest :: TimeStamp(stamp) && line == stamp + " " + rest
  }

  lemma StampsLookLikeIt(s: string)
    ensures LooksLikeTimestamp(s) <==> TimeStamp(s)
  {
  }

  lemma SplitJoins(s: string)
    requires SplitOnce(s, ' ').Some?
    ensures s == SplitOnce(s, ' ').value.0 + " " + SplitOnce(s, ' ').value.1
  {
  }

  lemma OnlyStampsGo(compact: string)
    requires WithoutTimestamp(compact) != compact
    ensures Stamped(compact)
  {
    hide TrimStart, LooksLikeTimestamp, TimeStamp, SplitOnce;
    SplitJoins(compact);
    StampsLookLikeIt(SplitOnce(compact, ' ').value.0);
  }

  lemma StampGoes(stamp: string, rest: string)
    requires TimeStamp(stamp)
    ensures WithoutTimestamp(stamp + " " + rest) == TrimStart(rest)
  {
    hide TrimStart;
    assert stamp + " " + rest == stamp + [' '] + rest;
    SplitAt(stamp, ' ', rest);
    StampsLookLikeIt(stamp);
  }

  lemma TrimStamped(stamp: string, rest: string)
    requires TimeStamp(stamp) && Trim(rest) != ""
    ensures Trim(stamp + " " + rest) == stamp + " " + TrimEnd(rest)
  {
    hide Trim, TrimEnd;
    var front, back := VisibleSplit(rest);
    var m := stamp + " " + front;
    assert m[0] == stamp[0] && m[|m| - 1] == front[|front| - 1];
    assert stamp + " " + rest == "" + m + back;
    TrimWhole(stamp + " " + rest, "", m, back);
  }

  /** A line means the same with a time stamp in front, as a log gives it. */
  lemma StampedLineReadsAlike(p: Parser, stamp: string, line: string)
    requires TimeStamp(stamp) && Trim(line) != "" && !Stamped(Trim(line))
    ensures ParseLine(p, stamp + " " + line) == ParseLine(p, line)
  {
    hide TimeStamp, Stamped, TrimStart, TrimEnd, ParseCompact;
    TrimStamped(stamp, line);
    StampGoes(stamp, TrimEnd(line));
    if WithoutTimestamp(Trim(line)) != Trim(line) {
      OnlyStampsGo(Trim(line));
    }
  }

  // ---------------------------------------------------------------- the answer

  /** The value under the first of two keys that is there. */
  ghost predicate Holds(fields: map<string, string>, key: string, alias: string, value: string)
  {
    (key in fields && fields[key] == value) || (key !in fields && alias in fields && fields[alias] == value)
  }

  predicate Absent(fields: map<string, string>, key: string, alias: string)
  {
    key !in fields && alias !in fields
  }

  /** Which files are refused, and what for: no URL, then no public key, then no private key. */
  lemma RefusedFiles(text: string)
    ensures var p := ParseLines(FRESH_PARSER, Lines(text));
            var noUrl := p.urls == [] && Absent(p.fields, "controlPlaneUrl", "control_plane_url");
            var noPublicKey := Absent(p.fields, "publicKey", "public_key");
            var noPrivateKey := Absent(p.fields, "privateKey", "private_key");
            && (Parse(text) == Err(MissingUrls) <==> noUrl)
            && (Parse(text) == Err(MissingPublicKey) <==> !noUrl && noPublicKey)
            && (Parse(text) == Err(MissingPrivateKey) <==> !noUrl && !noPublicKey && noPrivateKey)
  {
    hide Lines, ParseLines;
  }

  /** What a file gives: listed URLs or else the single one, the keys, and defaults for what is not there. */
  lemma AcceptedFiles(text: string, c: Config)
    requires Parse(text) == Ok(c)
    ensures var p := ParseLines(FRESH_PARSER, Lines(text));
            var f := p.fields;
            && (p.urls != [] ==> c.urls == p.urls)
            && (p.urls == [] ==> |c.urls| == 1 && Holds(f, "controlPlaneUrl", "control_plane_url", c.urls[0]))
            && Holds(f, "publicKey", "public_key", c.publicKey) && Holds(f, "privateKey", "private_key", c.privateKey)
            && (Holds(f, "clusterName", "cluster_name", c.clusterName)
                || (Absent(f, "clusterName", "cluster_name") && c.clusterName == "demo"))
            && (Holds(f, "id", "user_id", c.userId) || (Absent(f, "id", "user_id") && c.userId == "admin"))
            && (Holds(f, "role", "role", c.role) || ("role" !in f && c.role == "admin"))
  {
    hide Lines, ParseLines;
  }

  lemma {:induction false} ThreeLines(p: Parser, a: string, b: string, c: string)
    ensures ParseLines(p, [a, b, c]) == ParseLine(ParseLine(ParseLine(p, a), b), c)
  {
    hide ParseLine;
    FirstLine(p, [a, b, c]);
    FirstLine(ParseLine(p, a), [b, c]);
    FirstLine(ParseLine(ParseLine(p, a), b), [c]);
    assert [a, b, c][1..] == [b, c] && [b, c][1..] == [c] && [c][1..] == [];
  }

  lemma {:induction false} JoinOfThree(a: string, b: string, c: string)
    ensures Join([a, b, c]) == a + "\n" + b + "\n" + c
  {
    assert [a, b, c][1..] == [b, c] && [b, c][1..] == [c];
    assert Join([b, c]) == b + "\n" + c;
    assert Join([a, b, c]) == a + "\n" + Join([b, c]);
  }

  lemma FieldText(indent: string, key: string, v: string, start: string)
    requires indent + key + ": " == start
    ensures Field(indent, key, v) == start + v
  {
  }

  lemma HeaderText(indent: string, key: string, line: string)
    requires indent + key + ":" == line
    ensures Header(indent, key) == line
  {
  }

  function SmallestText(url: string, publicKey: string, privateKey: string): string
  {
    "controlPlaneUrl: " + url + "\n" + "publicKey: " + publicKey + "\n" + "privateKey: " + privateKey + "\n"
  }

  lemma TopField(p: Parser, key: string, v: string)
    requires PlainKey(key)
    ensures ParseLine(p, Field("", key, v)) == Parser(p.fields[key := Unquote(Trim(v))], p.urls, false)
  {
    hide PlainKey, ParseLine, Field, Trim, Unquote;
    IndentsAreSpace();
    FieldLine(p, "", key, v);
  }

  lemma SmallestLines(p: Parser, url: string, publicKey: string, privateKey: string)
    ensures ParseLines(p, [Field("", "controlPlaneUrl", url), Field("", "publicKey", publicKey),
                           Field("", "privateKey", privateKey)])
         == Parser(p.fields["controlPlaneUrl" := Unquote(Trim(url))]["publicKey" := Unquote(Trim(publicKey))]
                     ["privateKey" := Unquote(Trim(privateKey))], p.urls, false)
  {
    hide Trim, Unquote, ParseLine, ParseLines, Field, PlainKey;
    KeysArePlain();
    UrlKeyIsPlain();
    var a, b := Field("", "controlPlaneUrl", url), Field("", "publicKey", publicKey);
    ThreeLines(p, a, b, Field("", "privateKey", privateKey));
    TopField(p, "controlPlaneUrl", url);
    TopField(ParseLine(p, a), "publicKey", publicKey);
    TopField(ParseLine(ParseLine(p, a), b), "privateKey", privateKey);
  }

  lemma UrlKeyIsPlain()
    ensures PlainKey("controlPlaneUrl")
  {
  }

  lemma Regrouped(a: string, b: string, c: string)
    ensures a + b + c == a + (b + c)
  {
  }

  lemma SmallestTextIsJoined(url: string, publicKey: string, privateKey: string, a: string, b: string, c: string)
    requires a == "controlPlaneUrl: " + url && b == "publicKey: " + publicKey && c == "privateKey: " + privateKey
    ensures SmallestText(url, publicKey, privateKey) == Join([a, b, c]) + "\n"
  {
    hide Join;
    JoinOfThree(a, b, c);
    Regrouped(a + "\n", "publicKey: ", publicKey);
    Regrouped(a + "\n" + b + "\n", "privateKey: ", privateKey);
  }

  lemma SmallestTextIsLines(url: string, publicKey: string, privateKey: string)
    requires NoNewline(url) && NoNewline(publicKey) && NoNewline(privateKey)
    ensures Lines(SmallestText(url, publicKey, privateKey))
         == StripAll([Field("", "controlPlaneUrl", url), Field("", "publicKey", publicKey),
                      Field("", "privateKey", privateKey)])
  {
    KeysArePlain();
    IndentsAreSpace();
    assert PlainKey("controlPlaneUrl");
    FieldNoNewline("", "controlPlaneUrl", url);
    FieldNoNewline("", "publicKey", publicKey);
    FieldNoNewline("", "privateKey", privateKey);
    hide PlainKey, AllSpace, NoNewline, Lines, StripAll, Join, SmallestText, Field;
    FieldText("", "controlPlaneUrl", url, "controlPlaneUrl: ");
    FieldText("", "publicKey", publicKey, "publicKey: ");
    FieldText("", "privateKey", privateKey, "privateKey: ");
    var a := Field("", "controlPlaneUrl", url);
    var b, c := Field("", "publicKey", publicKey), Field("", "privateKey", privateKey);
    LinesOfJoin([a, b, c]);
    SmallestTextIsJoined(url, publicKey, privateKey, a, b, c);
  }

  /** The smallest file: one URL and two keys. */
  lemma SmallestFile(url: string, publicKey: string, privateKey: string)
    requires NoNewline(url) && NoNewline(publicKey) && NoNewline(privateKey)
    ensures Parse(SmallestText(url, publicKey, privateKey))
         == Ok(Config("demo", [Unquote(Trim(url))], "admin", "admin", Unquote(Trim(publicKey)),
                      Unquote(Trim(privateKey))))
  {
    hide Trim, Unquote, ParseLines, Lines, Field, StripAll, NoNewline, SmallestText;
    SmallestTextIsLines(url, publicKey, privateKey);
    SmallestLines(FRESH_PARSER, url, publicKey, privateKey);
    ParseStripped(FRESH_PARSER, [Field("", "controlPlaneUrl", url), Field("", "publicKey", publicKey),
                                 Field("", "privateKey", privateKey)]);
  }

  // ---------------------------------------------------------------- the printed form

  lemma {:induction false} UrlLinesAt(urls: seq<string>)
    ensures UrlLines(urls) == seq(|urls|, i requires 0 <= i < |urls| => "    - " + urls[i])
    decreases |urls|
  {
    if urls == [] {
      assert UrlLines(urls) == [];
    } else {
      UrlLinesAt(urls[1..]);
      assert "    " + DASH == "    - ";
      assert UrlItem(urls[0]) == "    - " + urls[0];
      assert UrlLines(urls) == ["    - " + urls[0]] + UrlLines(urls[1..]);
    }
  }

  lemma PrintedVersion()
    ensures Field("", "apiVersion", "xenage.io/v1alpha1") == "apiVersion: xenage.io/v1alpha1"
  {
  }

  lemma PrintedKind()
    ensures Field("", "kind", "ClusterConnection") == "kind: ClusterConnection"
  {
  }

  lemma PrintedHead(c: Config)
    ensures HeadLines(c)
         == ["apiVersion: xenage.io/v1alpha1", "kind: ClusterConnection", "metadata:", "  name: " + ConfigName(c),
             "spec:", "  clusterName: " + c.clusterName, "  controlPlaneUrls:"]
  {
    hide ConfigName, Field, Header;
    PrintedVersion();
    PrintedKind();
    FieldText("  ", "name", ConfigName(c), "  name: ");
    FieldText("  ", "clusterName", c.clusterName, "  clusterName: ");
    HeaderText("", "metadata", "metadata:");
    HeaderText("", "spec", "spec:");
    HeaderText("  ", "controlPlaneUrls", "  controlPlaneUrls:");
  }

  lemma PrintedTail(c: Config)
    ensures TailLines(c)
         == ["  user:", "    id: " + c.userId, "    role: " + c.role, "    publicKey: " + c.publicKey,
             "    privateKey: " + c.privateKey]
  {
    hide Field, Header;
    HeaderText("  ", "user", "  user:");
    FieldText("    ", "id", c.userId, "    id: ");
    FieldText("    ", "role", c.role, "    role: ");
    FieldText("    ", "publicKey", c.publicKey, "    publicKey: ");
    FieldText("    ", "privateKey", c.privateKey, "    privateKey: ");
  }

  /** The printed file line by line. */
  lemma PrintedLines(c: Config)
    ensures DumpLines(c)
         == ["apiVersion: xenage.io/v1alpha1", "kind: ClusterConnection", "metadata:", "  name: " + ConfigName(c),
             "spec:", "  clusterName: " + c.clusterName, "  controlPlaneUrls:"]
            + seq(|c.urls|, i requires 0 <= i < |c.urls| => "    - " + c.urls[i])
            + ["  user:", "    id: " + c.userId, "    role: " + c.role, "    publicKey: " + c.publicKey,
               "    privateKey: " + c.privateKey]
  {
    hide ConfigName, UrlLines, Field, Header;
    UrlLinesAt(c.urls);
    PrintedHead(c);
    PrintedTail(c);
  }

  /** The name is cluster and user with a dash between, in small letters, and dashes for underscores. */
  lemma NamedAfterClusterAndUser(c: Config)
    ensures var raw := c.clusterName + "-" + c.userId;
            && |ConfigName(c)| == |raw|
            && forall i :: 0 <= i < |raw| ==>
                 ConfigName(c)[i] == if raw[i] == '_' then '-'
                                     else if 'A' <= raw[i] <= 'Z' then raw[i] - 'A' + 'a' else raw[i]
  {
  }
}
