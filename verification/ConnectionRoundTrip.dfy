/** Parsing a printed connection file gives the configuration back exactly when it is printable. */
module ConnectionRoundTrip {
  import opened ConnectionYaml
  import opened Text
  import opened Wrappers

  // ---------------------------------------------------------------- one line

  predicate Letter(c: char)
  {
    'a' <= c <= 'z' || 'A' <= c <= 'Z'
  }

  predicate LetterKey(key: string)
  {
    key != "" && forall i :: 0 <= i < |key| ==> Letter(key[i])
  }

  /** A field key as the printer writes them: shorter than the URL list's own header. */
  predicate PlainKey(key: string)
  {
    LetterKey(key) && |key| < 16
  }

  lemma SplitAt(x: string, c: char, y: string)
    requires c !in x
    ensures SplitOnce(x + [c] + y, c) == Some((x, y))
  {
    var s := x + [c] + y;
    var k := IndexOf(s, c);
    assert forall i :: 0 <= i < |x| ==> s[i] == x[i] && x[i] in x;
    assert s[|x|] == c;
    assert k == |x|;
    assert s[..k] == x && s[k + 1..] == y;
  }

  lemma NoSplit(s: string, c: char)
    requires c !in s
    ensures SplitOnce(s, c) == None
  {
  }

  lemma LetterIsNoSpace(c: char)
    requires Letter(c)
    ensures !IsSpace(c)
  {
  }

  lemma ColonIsNoSpace()
    ensures !IsSpace(':')
  {
  }

  lemma LetterKeyFacts(key: string)
    requires LetterKey(key)
    ensures key != "" && ':' !in key && ' ' !in key && '\n' !in key && !IsSpace(key[0]) && Trim(key) == key
    ensures ' ' !in key + ":"
  {
    hide Trim, IsSpace;
    LetterIsNoSpace(key[0]);
    LetterIsNoSpace(key[|key| - 1]);
    TrimFixes(key);
  }

  lemma TrimWhole(s: string, a: string, m: string, b: string)
    requires s == a + m + b && AllSpace(a) && AllSpace(b) && Trimmed(m)
    ensures Trim(s) == m
  {
    TrimOf(a, m, b);
  }

  lemma SpaceBefore(s: string)
    requires AllSpace(s)
    ensures AllSpace(" " + s)
  {
    assert IsSpace(' ');
    hide IsSpace;
  }

  lemma BlankIsAllSpace(v: string)
    requires Trim(v) == ""
    ensures AllSpace(v) && AllSpace(" " + v)
  {
    hide IsSpace, TrimEnd, TrimStart, Trim;
    var i, j := TrimSpan(v);
    forall k | 0 <= k < |v|
      ensures IsSpace(v[k])
    {
      assert k < i ==> v[k] == v[..i][k];
      assert k >= i ==> v[k] == v[j..][k - j];
    }
    SpaceBefore(v);
  }

  /** A visible value split into leading space with the trimmed value, and trailing space. */
  lemma VisibleSplit(v: string) returns (front: string, back: string)
    requires Trim(v) != ""
    ensures v == front + back && AllSpace(back) && front != "" && !IsSpace(front[|front| - 1])
    ensures front == TrimEnd(v) && Trim(" " + front) == Trim(v)
  {
    hide IsSpace, TrimEnd, TrimStart, Trim;
    var i, j := TrimSpan(v);
    front, back := v[..j], v[j..];
    var m := Trim(v);
    assert m[|m| - 1] == v[j - 1];
    SpaceBefore(v[..i]);
    assert " " + front == " " + v[..i] + m + "";
    hide AllSpace;
    TrimWhole(" " + front, " " + v[..i], m, "");
  }

  lemma BlankFieldCompact(indent: string, key: string, v: string)
    requires AllSpace(indent) && LetterKey(key) && Trim(v) == ""
    ensures Trim(Field(indent, key, v)) == key + ":"
  {
    hide IsSpace, Trim, AllSpace, LetterKey;
    LetterKeyFacts(key);
    ColonIsNoSpace();
    BlankIsAllSpace(v);
    var m := key + ":";
    assert m[0] == key[0] && m[|m| - 1] == ':';
    assert Field(indent, key, v) == indent + m + (" " + v);
    TrimWhole(Field(indent, key, v), indent, m, " " + v);
  }

  lemma VisibleFieldCompact(indent: string, key: string, v: string, front: string, back: string)
    requires AllSpace(indent) && LetterKey(key) && v == front + back && AllSpace(back)
    requires front != "" && !IsSpace(front[|front| - 1])
    ensures Trim(Field(indent, key, v)) == key + ":" + (" " + front)
  {
    hide IsSpace, Trim, AllSpace, LetterKey;
    LetterKeyFacts(key);
    var m := key + ":" + (" " + front);
    assert m[0] == key[0] && m[|m| - 1] == front[|front| - 1];
    assert Field(indent, key, v) == indent + m + back;
    TrimWhole(Field(indent, key, v), indent, m, back);
  }

  /** Trimming "key: value" leaves the key, the colon, and the value after at least one space, or nothing. */
  lemma FieldCompact(indent: string, key: string, v: string) returns (rest: string)
    requires AllSpace(indent) && LetterKey(key)
    ensures Trim(Field(indent, key, v)) == key + ":" + rest
    ensures (rest == "" || rest[0] == ' ') && Trim(rest) == Trim(v)
  {
    if Trim(v) == "" {
      rest := "";
      BlankFieldCompact(indent, key, v);
      assert key + ":" + "" == key + ":";
    } else {
      var front, back := VisibleSplit(v);
      VisibleFieldCompact(indent, key, v, front, back);
      rest := " " + front;
    }
  }

  lemma FieldIsNoHeader(key: string, rest: string)
    requires PlainKey(key)
    ensures !IsUrlsHeader(key + ":" + rest)
  {
    LetterKeyFacts(key);
    SplitAt(key, ':', rest);
    SplitAt(URLS_KEY, ':', "");
    SplitAt(URLS_KEY_ALIAS, ':', "");
    assert URLS_KEY + [':'] + "" == URLS_KEY + ":";
    assert URLS_KEY_ALIAS + [':'] + "" == URLS_KEY_ALIAS + ":";
    assert key + ":" + rest == key + [':'] + rest;
  }

  lemma IndentsAreSpace()
    ensures AllSpace("") && AllSpace("  ") && AllSpace("    ")
  {
  }

  lemma KeysArePlain()
    ensures PlainKey("apiVersion") && PlainKey("kind") && PlainKey("metadata") && PlainKey("name") && PlainKey("spec")
    ensures PlainKey("clusterName") && PlainKey("user") && PlainKey("id") && PlainKey("role")
    ensures PlainKey("publicKey") && PlainKey("privateKey")
  {
  }

  lemma FieldHasNoTimestamp(key: string, rest: string)
    requires LetterKey(key) && (rest == "" || rest[0] == ' ')
    ensures WithoutTimestamp(key + ":" + rest) == key + ":" + rest
  {
    LetterKeyFacts(key);
    if rest == "" {
      assert key + ":" + rest == key + ":";
      NoSplit(key + ":", ' ');
    } else {
      assert key + ":" + rest == (key + ":") + [' '] + rest[1..];
      SplitAt(key + ":", ' ', rest[1..]);
      assert (key + ":")[|key + ":"| - 1] == ':';
    }
  }

  lemma FieldParsed(p: Parser, key: string, rest: string)
    requires PlainKey(key)
    ensures ParseCompact(p, key + ":" + rest) ==
            Parser(p.fields[key := Unquote(Trim(rest))], p.urls, false)
  {
    hide IsUrlsHeader, Trim, IsSpace, Unquote;
    var s := key + ":" + rest;
    FieldIsNoHeader(key, rest);
    LetterKeyFacts(key);
    SplitAt(key, ':', rest);
    assert s == key + [':'] + rest;
    assert s[0] == key[0];
    assert !StartsWithDash(s);
  }

  /** A printed field sets its key to the value without outer spaces and quotes, and ends the URL list. */
  lemma FieldLine(p: Parser, indent: string, key: string, v: string)
    requires AllSpace(indent) && PlainKey(key)
    ensures ParseLine(p, Field(indent, key, v)) == Parser(p.fields[key := Unquote(Trim(v))], p.urls, false)
  {
    var rest := FieldCompact(indent, key, v);
    FieldHasNoTimestamp(key, rest);
    FieldParsed(p, key, rest);
  }

  lemma HeaderCompact(indent: string, key: string)
    requires AllSpace(indent) && LetterKey(key)
    ensures WithoutTimestamp(Trim(Header(indent, key))) == key + ":"
  {
    LetterKeyFacts(key);
    var m := key + ":";
    assert m[0] == key[0] && m[|m| - 1] == ':';
    TrimWhole(Header(indent, key), indent, m, "");
    FieldHasNoTimestamp(key, "");
    assert key + ":" + "" == key + ":";
  }

  /** A header without a value is a field with an empty one. */
  lemma HeaderLine(p: Parser, indent: string, key: string)
    requires AllSpace(indent) && PlainKey(key)
    ensures ParseLine(p, Header(indent, key)) == Parser(p.fields[key := ""], p.urls, false)
  {
    HeaderCompact(indent, key);
    assert key + ":" + "" == key + ":";
    FieldParsed(p, key, "");
  }

  lemma UrlsHeaderLine(p: Parser)
    ensures ParseLine(p, Header("  ", URLS_KEY)) == p.(inUrls := true)
  {
    IndentsAreSpace();
    assert LetterKey(URLS_KEY);
    HeaderCompact("  ", URLS_KEY);
    assert IsUrlsHeader(URLS_KEY + ":");
    assert URLS_KEY[0] != '#';
    var compact := WithoutTimestamp(Trim(Header("  ", URLS_KEY)));
    assert compact[0] == URLS_KEY[0];
    hide IsUrlsHeader, LetterKey, WithoutTimestamp, Trim, IsSpace;
  }

  // ---------------------------------------------------------------- the URL list

  /** What the parser stores for a listed URL that is not blank. */
  function UrlOf(url: string): string
  {
    Trim(StripDashes(DASH + TrimEnd(url)))
  }

  /** A blank URL line ends the list. */
  function ParsedUrls(urls: seq<string>): seq<string>
  {
    if urls == [] || Trim(urls[0]) == "" then [] else [UrlOf(urls[0])] + ParsedUrls(urls[1..])
  }

  /** The two maps agree on every key that does not start with a dash. */
  ghost predicate SameNamed(f: map<string, string>, g: map<string, string>)
  {
    forall k: string :: (k == "" || k[0] != '-') ==> (k in f <==> k in g) && (k in f ==> f[k] == g[k])
  }

  lemma BlankUrlCompact(url: string)
    requires Trim(url) == ""
    ensures Trim(UrlItem(url)) == "-"
  {
    IndentsAreSpace();
    BlankIsAllSpace(url);
    assert Trimmed("-");
    assert UrlItem(url) == "    " + "-" + (" " + url);
    hide Trim, IsSpace, AllSpace, Trimmed, UrlItem;
    TrimWhole(UrlItem(url), "    ", "-", " " + url);
  }

  lemma VisibleUrlCompact(url: string, front: string, back: string)
    requires url == front + back && AllSpace(back) && front != "" && !IsSpace(front[|front| - 1])
    ensures Trim(UrlItem(url)) == DASH + front
  {
    IndentsAreSpace();
    var m := DASH + front;
    assert m[0] == '-' && m[|m| - 1] == front[|front| - 1];
    assert Trimmed(m);
    assert UrlItem(url) == "    " + m + back;
    hide Trim, IsSpace, AllSpace, Trimmed, UrlItem;
    TrimWhole(UrlItem(url), "    ", m, back);
  }

  lemma {:induction false} UrlCompact(url: string)
    ensures Trim(UrlItem(url)) == if Trim(url) == "" then "-" else DASH + TrimEnd(url)
  {
    if Trim(url) == "" {
      BlankUrlCompact(url);
    } else {
      var front, back := VisibleSplit(url);
      VisibleUrlCompact(url, front, back);
    }
  }

  lemma DashHasNoTimestamp(s: string)
    ensures WithoutTimestamp(DASH + s) == DASH + s && WithoutTimestamp("-") == "-"
  {
    assert DASH + s == "-" + [' '] + s;
    SplitAt("-", ' ', s);
    NoSplit("-", ' ');
  }

  lemma DashFieldKey(f: map<string, string>, s: string, urls: seq<string>)
    ensures var p := ParseField(Parser(f, urls, false), DASH + s);
            p.urls == urls && !p.inUrls && SameNamed(p.fields, f)
  {
    assert (DASH + s)[0] == '-';
    var split := SplitOnce(DASH + s, ':');
    if split.Some? {
      TrimKeepsFirst(split.value.0);
    }
  }

  lemma DashIsNoHeader(s: string)
    ensures !IsUrlsHeader(DASH + s) && StartsWithDash(DASH + s)
    ensures (DASH + s)[0] == '-'
  {
    assert (DASH + s)[0] != "controlPlaneUrls:"[0] && (DASH + s)[0] != "control_plane_urls:"[0];
  }

  lemma VisibleUrlLine(p: Parser, url: string)
    requires Trim(url) != ""
    ensures var q := ParseLine(p, UrlItem(url));
            && SameNamed(q.fields, p.fields)
            && (if p.inUrls then q.inUrls && q.urls == p.urls + [UrlOf(url)] else !q.inUrls && q.urls == p.urls)
  {
    var s := TrimEnd(url);
    UrlCompact(url);
    DashHasNoTimestamp(s);
    DashFieldKey(p.fields, s, p.urls);
    DashIsNoHeader(s);
    assert ParseLine(p, UrlItem(url)) == ParseCompact(p, DASH + s);
  }

  lemma LoneDash(p: Parser)
    ensures ParseCompact(p, "-") == p.(inUrls := false)
  {
    NoSplit("-", ':');
    assert |"-"| == 1 && "-"[0] == '-';
    assert !IsUrlsHeader("-") && !StartsWithDash("-");
    hide IsUrlsHeader, StartsWithDash, Trim, Unquote;
  }

  lemma BlankUrlLine(p: Parser, url: string)
    requires Trim(url) == ""
    ensures ParseLine(p, UrlItem(url)) == p.(inUrls := false)
  {
    BlankUrlCompact(url);
    DashHasNoTimestamp("");
    LoneDash(p);
    hide Trim, ParseCompact, WithoutTimestamp, UrlItem;
  }

  lemma SameNamedTrans(f: map<string, string>, g: map<string, string>, h: map<string, string>)
    requires SameNamed(f, g) && SameNamed(g, h)
    ensures SameNamed(f, h)
  {
  }

  lemma {:induction false} ParsedUrlsUnfold(before: seq<string>, urls: seq<string>)
    ensures urls == [] || Trim(urls[0]) == "" ==> before + ParsedUrls(urls) == before
    ensures urls != [] && Trim(urls[0]) != "" ==>
              before + ParsedUrls(urls) == before + [UrlOf(urls[0])] + ParsedUrls(urls[1..])
  {
  }

  lemma {:induction false} UrlLinesParsed(p: Parser, urls: seq<string>)
    ensures var q := ParseLines(p, UrlLines(urls));
            SameNamed(q.fields, p.fields) && q.urls == p.urls + if p.inUrls then ParsedUrls(urls) else []
    decreases |urls|
  {
    hide ParseLine, UrlItem, Trim, UrlOf, ParsedUrls;
    ParsedUrlsUnfold(p.urls, urls);
    if urls != [] {
      var lines := UrlLines(urls);
      assert lines[0] == UrlItem(urls[0]) && lines[1..] == UrlLines(urls[1..]);
      var next := ParseLine(p, lines[0]);
      if Trim(urls[0]) == "" {
        BlankUrlLine(p, urls[0]);
      } else {
        VisibleUrlLine(p, urls[0]);
      }
      UrlLinesParsed(next, urls[1..]);
      assert ParseLines(p, lines) == ParseLines(next, UrlLines(urls[1..]));
      SameNamedTrans(ParseLines(p, lines).fields, next.fields, p.fields);
    }
  }

  // ---------------------------------------------------------------- the whole file

  lemma {:induction false} ParseConcat(p: Parser, a: seq<string>, b: seq<string>)
    ensures ParseLines(p, a + b) == ParseLines(ParseLines(p, a), b)
    decreases |a|
  {
    if a == [] {
      assert a + b == b;
    } else {
      assert (a + b)[0] == a[0] && (a + b)[1..] == a[1..] + b;
      ParseConcat(ParseLine(p, a[0]), a[1..], b);
    }
  }

  /** Where the head of a printed file leaves the parser. */
  lemma HeadParsed(c: Config)
    ensures var p := ParseLines(FRESH_PARSER, HeadLines(c));
            && p.urls == [] && p.inUrls
            && p.fields.Keys == {"apiVersion", "kind", "metadata", "name", "spec", "clusterName"}
            && p.fields["clusterName"] == Unquote(Trim(c.clusterName))
  {
    IndentsAreSpace();
    KeysArePlain();
    hide IsSpace, AllSpace, PlainKey, ParseLine, ParseCompact, Field, Header, UrlItem, Trim, Unquote, ConfigName;
    var l := HeadLines(c);
    var p1 := ParseLine(FRESH_PARSER, l[0]);
    var p2 := ParseLine(p1, l[1]);
    var p3 := ParseLine(p2, l[2]);
    var p4 := ParseLine(p3, l[3]);
    var p5 := ParseLine(p4, l[4]);
    var p6 := ParseLine(p5, l[5]);
    FieldLine(FRESH_PARSER, "", "apiVersion", "xenage.io/v1alpha1");
    FieldLine(p1, "", "kind", "ClusterConnection");
    HeaderLine(p2, "", "metadata");
    FieldLine(p3, "  ", "name", ConfigName(c));
    HeaderLine(p4, "", "spec");
    FieldLine(p5, "  ", "clusterName", c.clusterName);
    UrlsHeaderLine(p6);
    SevenLines(FRESH_PARSER, l, p1, p2, p3, p4, p5, p6);
  }

  lemma {:induction false} SevenLines(p: Parser, l: seq<string>, p1: Parser, p2: Parser, p3: Parser, p4: Parser,
                                      p5: Parser, p6: Parser)
    requires |l| == 7 && p1 == ParseLine(p, l[0]) && p2 == ParseLine(p1, l[1]) && p3 == ParseLine(p2, l[2])
    requires p4 == ParseLine(p3, l[3]) && p5 == ParseLine(p4, l[4]) && p6 == ParseLine(p5, l[5])
    ensures ParseLines(p, l) == ParseLine(p6, l[6])
  {
    hide ParseLine;
    FirstLine(p, l);
    FirstLine(p1, l[1..]);
    FirstLine(p2, l[1..][1..]);
    FirstLine(p3, l[1..][1..][1..]);
    FirstLine(p4, l[1..][1..][1..][1..]);
    FirstLine(p5, l[1..][1..][1..][1..][1..]);
    FirstLine(p6, l[1..][1..][1..][1..][1..][1..]);
    assert l[1..][1..][1..][1..][1..][1..][1..] == [];
  }

  lemma {:induction false} FirstLine(p: Parser, l: seq<string>)
    requires l != []
    ensures ParseLines(p, l) == ParseLines(ParseLine(p, l[0]), l[1..])
  {
  }

  lemma {:induction false} TailParsed(p: Parser, c: Config)
    ensures ParseLines(p, TailLines(c)) ==
            Parser(p.fields["user" := ""]["id" := Unquote(Trim(c.userId))]["role" := Unquote(Trim(c.role))]
                     ["publicKey" := Unquote(Trim(c.publicKey))]["privateKey" := Unquote(Trim(c.privateKey))],
                   p.urls, false)
  {
    IndentsAreSpace();
    KeysArePlain();
    hide IsSpace, AllSpace, PlainKey, ParseLine, ParseCompact, Field, Header, UrlItem, Trim, Unquote, ConfigName;
    var l := TailLines(c);
    var p1 := ParseLine(p, l[0]);
    var p2 := ParseLine(p1, l[1]);
    var p3 := ParseLine(p2, l[2]);
    var p4 := ParseLine(p3, l[3]);
    HeaderLine(p, "  ", "user");
    FieldLine(p1, "    ", "id", c.userId);
    FieldLine(p2, "    ", "role", c.role);
    FieldLine(p3, "    ", "publicKey", c.publicKey);
    FieldLine(p4, "    ", "privateKey", c.privateKey);
    FirstLine(p, l);
    FirstLine(p1, l[1..]);
    FirstLine(p2, l[1..][1..]);
    FirstLine(p3, l[1..][1..][1..]);
    FirstLine(p4, l[1..][1..][1..][1..]);
    assert l[1..][1..][1..][1..][1..] == [];
  }

  /** What parsing the printed lines of any configuration yields. */
  function Reread(c: Config): Result<Config, ParseError>
  {
    if ParsedUrls(c.urls) == [] then Err(MissingUrls)
    else Ok(Config(Unquote(Trim(c.clusterName)), ParsedUrls(c.urls), Unquote(Trim(c.userId)), Unquote(Trim(c.role)),
                   Unquote(Trim(c.publicKey)), Unquote(Trim(c.privateKey))))
  }

  lemma AssembleTail(f: map<string, string>, urls: seq<string>, id: string, role: string, publicKey: string,
                     privateKey: string)
    requires "clusterName" in f && "controlPlaneUrl" !in f && "control_plane_url" !in f
    ensures Assemble(Parser(f["user" := ""]["id" := id]["role" := role]["publicKey" := publicKey]
                              ["privateKey" := privateKey], urls, false)) ==
            if urls == [] then Err(MissingUrls)
            else Ok(Config(f["clusterName"], urls, id, role, publicKey, privateKey))
  {
  }

  lemma NamedKept(f: map<string, string>, g: map<string, string>, k: string)
    requires SameNamed(f, g) && k != "" && k[0] != '-'
    ensures (k in f <==> k in g) && (k in f ==> f[k] == g[k])
  {
  }

  lemma ListKeepsHead(f: map<string, string>, g: map<string, string>)
    requires SameNamed(f, g)
    requires g.Keys == {"apiVersion", "kind", "metadata", "name", "spec", "clusterName"}
    ensures "clusterName" in f && f["clusterName"] == g["clusterName"]
    ensures "controlPlaneUrl" !in f && "control_plane_url" !in f
  {
    hide SameNamed;
    NamedKept(f, g, "clusterName");
    NamedKept(f, g, "controlPlaneUrl");
    NamedKept(f, g, "control_plane_url");
    assert "clusterName" in g.Keys && "controlPlaneUrl" !in g.Keys && "control_plane_url" !in g.Keys;
  }

  lemma DumpLinesReread(c: Config)
    ensures Assemble(ParseLines(FRESH_PARSER, DumpLines(c))) == Reread(c)
  {
    hide ParseLine, ParseLines, HeadLines, TailLines, UrlLines, Trim, Unquote, Assemble;
    var head := ParseLines(FRESH_PARSER, HeadLines(c));
    var list := ParseLines(head, UrlLines(c.urls));
    HeadParsed(c);
    UrlLinesParsed(head, c.urls);
    TailParsed(list, c);
    ParseConcat(FRESH_PARSER, HeadLines(c), UrlLines(c.urls));
    ParseConcat(FRESH_PARSER, HeadLines(c) + UrlLines(c.urls), TailLines(c));
    ListKeepsHead(list.fields, head.fields);
    assert list.urls == ParsedUrls(c.urls);
    AssembleTail(list.fields, list.urls, Unquote(Trim(c.userId)), Unquote(Trim(c.role)), Unquote(Trim(c.publicKey)),
                 Unquote(Trim(c.privateKey)));
  }

  // ---------------------------------------------------------------- printing ends and finds lines

  predicate NoNewline(s: string)
  {
    '\n' !in s
  }

  /** `Lines` of text that starts with a complete line. */
  lemma {:induction false} FirstLineOf(line: string, rest: string)
    requires NoNewline(line)
    ensures Lines(line + "\n" + rest) == [StripCr(line)] + Lines(rest)
  {
    SplitAt(line, '\n', rest);
    assert line + "\n" + rest == line + ['\n'] + rest;
  }

  function StripAll(lines: seq<string>): seq<string>
  {
    if lines == [] then [] else [StripCr(lines[0])] + StripAll(lines[1..])
  }

  lemma {:induction false} LinesOfJoin(lines: seq<string>)
    requires lines != [] && forall l :: l in lines ==> NoNewline(l)
    ensures Lines(Join(lines) + "\n") == StripAll(lines)
    decreases |lines|
  {
    assert lines[0] in lines;
    if |lines| == 1 {
      FirstLineOf(lines[0], "");
      assert Join(lines) + "\n" == lines[0] + "\n" + "";
      assert StripAll(lines[1..]) == [] == Lines("");
    } else {
      assert forall l :: l in lines[1..] ==> l in lines;
      LinesOfJoin(lines[1..]);
      FirstLineOf(lines[0], Join(lines[1..]) + "\n");
      assert Join(lines) + "\n" == lines[0] + "\n" + (Join(lines[1..]) + "\n");
    }
  }

  lemma TrimIgnoresCr(line: string)
    ensures Trim(StripCr(line)) == Trim(line)
  {
    assert IsSpace('\r');
    hide IsSpace;
  }

  lemma {:induction false} ParseStripped(p: Parser, lines: seq<string>)
    ensures ParseLines(p, StripAll(lines)) == ParseLines(p, lines)
    decreases |lines|
  {
    hide Trim, ParseCompact, WithoutTimestamp, StripCr;
    if lines != [] {
      var l := StripAll(lines);
      assert l[0] == StripCr(lines[0]) && l[1..] == StripAll(lines[1..]);
      TrimIgnoresCr(lines[0]);
      ParseStripped(ParseLine(p, lines[0]), lines[1..]);
    }
  }

  predicate OneLine(c: Config)
  {
    && NoNewline(c.clusterName) && NoNewline(c.userId) && NoNewline(c.role)
    && NoNewline(c.publicKey) && NoNewline(c.privateKey)
    && forall u :: u in c.urls ==> NoNewline(u)
  }

  lemma ConcatNoNewline(a: string, b: string)
    requires NoNewline(a) && NoNewline(b)
    ensures NoNewline(a + b)
  {
  }

  lemma FieldNoNewline(indent: string, key: string, v: string)
    requires AllSpace(indent) && '\n' !in indent && LetterKey(key) && NoNewline(v)
    ensures NoNewline(Field(indent, key, v)) && NoNewline(Header(indent, key))
  {
    LetterKeyFacts(key);
    assert NoNewline(key) && NoNewline(": ") && NoNewline(":");
    hide AllSpace, LetterKey;
    ConcatNoNewline(indent, key);
    ConcatNoNewline(indent + key, ": ");
    ConcatNoNewline(indent + key + ": ", v);
    ConcatNoNewline(indent + key, ":");
  }

  lemma {:induction false} UrlLinesNoNewline(urls: seq<string>)
    requires forall u :: u in urls ==> NoNewline(u)
    ensures forall l :: l in UrlLines(urls) ==> NoNewline(l)
    decreases |urls|
  {
    if urls != [] {
      assert urls[0] in urls && forall u :: u in urls[1..] ==> u in urls;
      UrlLinesNoNewline(urls[1..]);
      assert NoNewline("    " + DASH);
      ConcatNoNewline("    " + DASH, urls[0]);
      assert NoNewline(UrlItem(urls[0]));
    }
  }

  lemma ConfigNameNoNewline(c: Config)
    requires NoNewline(c.clusterName) && NoNewline(c.userId)
    ensures NoNewline(ConfigName(c))
  {
    var raw := c.clusterName + "-" + c.userId;
    var lower := AsciiLower(raw);
    assert NoNewline(raw);
    assert forall i :: 0 <= i < |raw| ==> raw[i] in raw;
    assert forall i :: 0 <= i < |lower| ==> lower[i] == AsciiLowerChar(raw[i]) != '\n';
  }

  lemma DumpLinesNoNewline(c: Config)
    requires OneLine(c)
    ensures forall l :: l in DumpLines(c) ==> NoNewline(l)
  {
    ConfigNameNoNewline(c);
    UrlLinesNoNewline(c.urls);
    KeysArePlain();
    IndentsAreSpace();
    assert LetterKey(URLS_KEY);
    assert '\n' !in "" && '\n' !in "  " && '\n' !in "    ";
    assert NoNewline("xenage.io/v1alpha1") && NoNewline("ClusterConnection") && NoNewline("");
    HeadNoNewline(c);
    TailNoNewline(c);
    var head, list, tail := HeadLines(c), UrlLines(c.urls), TailLines(c);
    hide HeadLines, UrlLines, TailLines, NoNewline, PlainKey, LetterKey, AllSpace;
    forall l | l in DumpLines(c)
      ensures NoNewline(l)
    {
      assert l in head || l in list || l in tail;
    }
  }

  lemma HeadNoNewline(c: Config)
    requires NoNewline(ConfigName(c)) && NoNewline(c.clusterName)
    ensures forall l :: l in HeadLines(c) ==> NoNewline(l)
  {
    KeysArePlain();
    IndentsAreSpace();
    assert LetterKey(URLS_KEY);
    assert NoNewline("xenage.io/v1alpha1") && NoNewline("ClusterConnection") && NoNewline("") && NoNewline("  ");
    hide AllSpace, LetterKey, Field, Header, ConfigName;
    FieldNoNewline("", "apiVersion", "xenage.io/v1alpha1");
    FieldNoNewline("", "kind", "ClusterConnection");
    FieldNoNewline("", "metadata", "");
    FieldNoNewline("  ", "name", ConfigName(c));
    FieldNoNewline("", "spec", "");
    FieldNoNewline("  ", "clusterName", c.clusterName);
    FieldNoNewline("  ", URLS_KEY, "");
  }

  lemma TailNoNewline(c: Config)
    requires NoNewline(c.userId) && NoNewline(c.role) && NoNewline(c.publicKey) && NoNewline(c.privateKey)
    ensures forall l :: l in TailLines(c) ==> NoNewline(l)
  {
    KeysArePlain();
    IndentsAreSpace();
    assert NoNewline("") && NoNewline("  ") && NoNewline("    ");
    hide AllSpace, LetterKey, Field, Header;
    FieldNoNewline("  ", "user", "");
    FieldNoNewline("    ", "id", c.userId);
    FieldNoNewline("    ", "role", c.role);
    FieldNoNewline("    ", "publicKey", c.publicKey);
    FieldNoNewline("    ", "privateKey", c.privateKey);
  }

  /** For a configuration without line ends the parser reads back exactly the printed lines. */
  lemma OneLineReread(c: Config)
    requires OneLine(c)
    ensures Parse(Dump(c)) == Reread(c)
  {
    DumpLinesNoNewline(c);
    assert DumpLines(c) != [];
    DumpLinesReread(c);
    hide DumpLines, OneLine, NoNewline, Assemble, ParseLine;
    LinesOfJoin(DumpLines(c));
    ParseStripped(FRESH_PARSER, DumpLines(c));
  }

  // ---------------------------------------------------------------- exactly when values survive

  predicate Quote(c: char)
  {
    c == '"' || c == '\''
  }

  predicate Unquoted(s: string)
  {
    s == "" || (!Quote(s[0]) && !Quote(s[|s| - 1]))
  }

  lemma TrimCharFixes(s: string, c: char)
    ensures |TrimChar(s, c)| <= |s|
    ensures |TrimChar(s, c)| == |s| <==> TrimChar(s, c) == s
    ensures TrimChar(s, c) == s <==> s == "" || (s[0] != c && s[|s| - 1] != c)
  {
    var t := TrimStartChar(s, c);
    if |t| == |s| {
      assert t == s;
    }
  }

  lemma UnquoteFixes(s: string)
    ensures |Unquote(s)| <= |s|
    ensures Unquote(s) == s <==> Unquoted(s)
  {
    TrimCharFixes(s, '"');
    TrimCharFixes(TrimChar(s, '"'), '\'');
  }

  lemma TrimLength(s: string)
    ensures |Trim(s)| <= |s| && (|Trim(s)| == |s| <==> Trim(s) == s)
  {
    hide IsSpace, Trim, TrimEnd, Trimmed, AllSpace;
    var i, j := TrimSpan(s);
    if |Trim(s)| == |s| {
      assert s[i..j] == s;
    }
  }

  /** A scalar survives exactly if it has no outer white space and no outer quotes. */
  lemma ScalarSurvives(v: string)
    ensures Unquote(Trim(v)) == v <==> Trimmed(v) && Unquoted(v)
  {
    TrimLength(v);
    TrimFixes(v);
    UnquoteFixes(Trim(v));
    hide Trim, Unquote, Trimmed, Unquoted;
  }

  predicate UrlOk(u: string)
  {
    u != "" && Trimmed(u) && !StartsWithDash(u)
  }

  lemma {:induction false} UrlOfStrips(u: string)
    ensures UrlOf(u) == Trim(StripDashes(TrimEnd(u)))
  {
    var e := TrimEnd(u);
    assert StartsWithDash(DASH + e) && (DASH + e)[2..] == e;
    assert StripDashes(DASH + e) == StripDashes(e);
  }

  lemma {:induction false} TrimmedEnd(u: string)
    requires Trimmed(u)
    ensures TrimEnd(u) == u
  {
  }

  /** A URL survives exactly if it is not blank, has no outer white space, and does not look like a list item. */
  lemma UrlSurvives(u: string)
    requires Trim(u) != ""
    ensures UrlOf(u) == u <==> UrlOk(u)
  {
    var e := TrimEnd(u);
    UrlOfStrips(u);
    TrimLength(StripDashes(e));
    TrimFixes(u);
    if Trimmed(u) {
      TrimmedEnd(u);
    }
    assert |e| <= |u| && (|e| == |u| ==> e == u);
    assert |StripDashes(e)| <= |e| && (|StripDashes(e)| == |e| <==> !StartsWithDash(e));
    assert |StripDashes(e)| == |e| ==> StripDashes(e) == e;
    hide Trim, TrimEnd, Trimmed, UrlOf, StartsWithDash, StripDashes;
  }

  lemma BlankIsNotOk(u: string)
    requires Trim(u) == ""
    ensures !UrlOk(u)
  {
    TrimFixes(u);
  }

  lemma {:induction false} UrlsSurvive(urls: seq<string>)
    ensures |ParsedUrls(urls)| <= |urls|
    ensures ParsedUrls(urls) == urls <==> forall u :: u in urls ==> UrlOk(u)
    decreases |urls|
  {
    hide Trim, UrlOf, UrlOk;
    if urls != [] {
      UrlsSurvive(urls[1..]);
      assert urls == [urls[0]] + urls[1..];
      assert urls[0] in urls;
      if Trim(urls[0]) == "" {
        BlankIsNotOk(urls[0]);
      } else {
        UrlSurvives(urls[0]);
        assert ParsedUrls(urls) == [UrlOf(urls[0])] + ParsedUrls(urls[1..]);
        assert ParsedUrls(urls) == urls <==> UrlOf(urls[0]) == urls[0] && ParsedUrls(urls[1..]) == urls[1..] by {
          assert ParsedUrls(urls)[1..] == ParsedUrls(urls[1..]) && ParsedUrls(urls)[0] == UrlOf(urls[0]);
        }
      }
    }
  }

  // ---------------------------------------------------------------- parsed values are single lines

  /** Every character of `a` occurs in `b`. */
  predicate Within(a: string, b: string)
  {
    forall c :: c in a ==> c in b
  }

  lemma TrimWithin(s: string)
    ensures Within(Trim(s), s)
  {
    hide IsSpace;
    var i, j := TrimSpan(s);
    hide Trim;
  }

  lemma UnquoteWithin(s: string)
    ensures Within(Unquote(s), s)
  {
    assert Within(TrimChar(s, '"'), s);
    assert Within(TrimChar(TrimChar(s, '"'), '\''), TrimChar(s, '"'));
  }

  lemma TimestampWithin(s: string)
    ensures Within(WithoutTimestamp(s), s)
  {
    hide LooksLikeTimestamp, IsSpace;
    var split := SplitOnce(s, ' ');
    if split.Some? {
      assert Within(split.value.1, s);
      assert Within(TrimStart(split.value.1), split.value.1);
    }
  }

  /** Everything stored so far is free of line ends. */
  ghost predicate SingleLines(p: Parser)
  {
    && (forall k :: k in p.fields ==> NoNewline(p.fields[k]))
    && (forall u :: u in p.urls ==> NoNewline(u))
  }

  lemma SplitWithin(s: string, c: char)
    ensures var split := SplitOnce(s, c); split.Some? ==> Within(split.value.1, s)
  {
  }

  lemma WithinStaysOneLine(a: string, b: string)
    requires Within(a, b) && NoNewline(b)
    ensures NoNewline(a)
  {
  }

  lemma FieldSingleLine(p: Parser, compact: string)
    requires SingleLines(p) && NoNewline(compact)
    ensures SingleLines(ParseField(p, compact))
  {
    hide SplitOnce, Trim, Unquote, Within, NoNewline;
    var split := SplitOnce(compact, ':');
    if split.Some? {
      var value := split.value.1;
      SplitWithin(compact, ':');
      WithinStaysOneLine(value, compact);
      TrimWithin(value);
      WithinStaysOneLine(Trim(value), value);
      UnquoteWithin(Trim(value));
      WithinStaysOneLine(Unquote(Trim(value)), Trim(value));
    }
  }

  lemma DashesWithin(s: string)
    ensures Within(StripDashes(s), s)
  {
  }

  lemma CompactSingleLine(p: Parser, compact: string)
    requires SingleLines(p) && NoNewline(compact)
    ensures SingleLines(ParseCompact(p, compact))
  {
    hide Trim, IsUrlsHeader, ParseField, StripDashes, StartsWithDash, NoNewline, Within;
    FieldSingleLine(p.(inUrls := false), compact);
    DashesWithin(compact);
    WithinStaysOneLine(StripDashes(compact), compact);
    TrimWithin(StripDashes(compact));
    WithinStaysOneLine(Trim(StripDashes(compact)), StripDashes(compact));
  }

  lemma LineSingleLine(p: Parser, line: string)
    requires SingleLines(p) && NoNewline(line)
    ensures SingleLines(ParseLine(p, line))
  {
    TrimWithin(line);
    TimestampWithin(Trim(line));
    CompactSingleLine(p, WithoutTimestamp(Trim(line)));
  }

  lemma {:induction false} LinesSingleLine(p: Parser, lines: seq<string>)
    requires SingleLines(p) && forall l :: l in lines ==> NoNewline(l)
    ensures SingleLines(ParseLines(p, lines))
    decreases |lines|
  {
    hide ParseLine, NoNewline;
    if lines != [] {
      assert lines[0] in lines && forall l :: l in lines[1..] ==> l in lines;
      LineSingleLine(p, lines[0]);
      LinesSingleLine(ParseLine(p, lines[0]), lines[1..]);
    }
  }

  lemma {:induction false} LinesHaveNoNewline(text: string)
    ensures forall l :: l in Lines(text) ==> NoNewline(l)
    decreases |text|
  {
    var k := IndexOf(text, '\n');
    if text != "" && k < |text| {
      LinesHaveNoNewline(text[k + 1..]);
      assert NoNewline(text[..k]);
      assert Within(StripCr(text[..k]), text[..k]);
    }
  }

  lemma LookupSingleLine(p: Parser, key: string, alias: string, default: string)
    requires SingleLines(p) && NoNewline(default)
    ensures var found := Lookup(p.fields, key, alias);
            NoNewline(OrDefault(found, default)) && (found.Some? ==> NoNewline(found.value))
  {
    hide NoNewline;
  }

  lemma AssembledIsOneLine(p: Parser)
    requires SingleLines(p)
    ensures Assemble(p).Ok? ==> OneLine(Assemble(p).value)
  {
    assert NoNewline("demo") && NoNewline("admin") && NoNewline("");
    LookupSingleLine(p, "clusterName", "cluster_name", "demo");
    LookupSingleLine(p, "id", "user_id", "admin");
    LookupSingleLine(p, "role", "role", "admin");
    LookupSingleLine(p, "publicKey", "public_key", "");
    LookupSingleLine(p, "privateKey", "private_key", "");
    LookupSingleLine(p, "controlPlaneUrl", "control_plane_url", "");
    hide NoNewline, Lookup, OrDefault;
  }

  /** Whatever text is parsed, no value of the result contains a line end. */
  lemma ParsedIsOneLine(text: string)
    ensures Parse(text).Ok? ==> OneLine(Parse(text).value)
  {
    hide ParseLines, Lines, NoNewline, Assemble, OneLine;
    LinesHaveNoNewline(text);
    assert SingleLines(FRESH_PARSER);
    LinesSingleLine(FRESH_PARSER, Lines(text));
    AssembledIsOneLine(ParseLines(FRESH_PARSER, Lines(text)));
  }

  // ---------------------------------------------------------------- the round trip

  predicate ScalarOk(v: string)
  {
    NoNewline(v) && Trimmed(v) && Unquoted(v)
  }

  /** What a configuration must look like for its printed form to say the same. */
  predicate Printable(c: Config)
  {
    && c.urls != [] && (forall u :: u in c.urls ==> NoNewline(u) && UrlOk(u))
    && ScalarOk(c.clusterName) && ScalarOk(c.userId) && ScalarOk(c.role)
    && ScalarOk(c.publicKey) && ScalarOk(c.privateKey)
  }

  /** Parsing the printed form returns the configuration if and only if it is printable. */
  lemma RoundTripExactly(c: Config)
    ensures Parse(Dump(c)) == Ok(c) <==> Printable(c)
  {
    ScalarSurvives(c.clusterName);
    ScalarSurvives(c.userId);
    ScalarSurvives(c.role);
    ScalarSurvives(c.publicKey);
    ScalarSurvives(c.privateKey);
    UrlsSurvive(c.urls);
    ParsedIsOneLine(Dump(c));
    hide Trim, Unquote, Trimmed, Unquoted, Parse, Dump, NoNewline, UrlOk;
    if OneLine(c) {
      OneLineReread(c);
    }
  }

  /** For example: an id that starts with a space comes back without it. */
  lemma OuterSpaceIsLost(c: Config)
    requires c.userId == " a"
    ensures Parse(Dump(c)) != Ok(c)
  {
    RoundTripExactly(c);
    assert IsSpace(c.userId[0]);
    hide Parse, Dump;
  }
}
