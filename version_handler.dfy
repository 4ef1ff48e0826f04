/**
 * The `version` command of the JBoss/WildFly administration CLI
 * (org.jboss.as.cli.handlers.VersionHandler).
 *
 * The command assembles one text report from a fixed banner, facts of the
 * local host (environment variables and system properties) and, when the
 * CLI holds a management client, the root resource of the remote
 * controller. The report is built by appending to a buffer (`Handle`) and is
 * specified by the function `Report`; `ReportLines` gives the same report as
 * its sequence of lines.
 */
module VersionHandler {
  import opened Wrappers
  import opened Lines

  // ---------------------------------------------------------------------
  // Inputs
  // ---------------------------------------------------------------------

  /** The host process: its environment variables and its system properties. */
  datatype Host = Host(env: map<string, string>, props: map<string, string>)

  /** The four optional attributes of the controller's root resource that the command reads. */
  datatype ReleaseInfo = ReleaseInfo(
    releaseVersion: Option<string>,
    releaseCodename: Option<string>,
    productName: Option<string>,
    productVersion: Option<string>)

  /** A management response: a failed outcome with its description, or a success with an optional result. */
  datatype Response =
    | Failed(description: string)
    | Succeeded(result: Option<ReleaseInfo>)

  /**
   * The management client as seen by this command: none at all, or one
   * whose `execute` either throws an IOException (with a possibly null
   * localized message) or returns a response.
   */
  datatype Connection =
    | NoClient
    | IOError(message: Option<string>)
    | Replied(response: Response)

  /** The command context: the host it runs in and its management client. */
  datatype Context = Context(host: Host, client: Connection)

  /** The management operation request: an operation name and a resource address. */
  datatype Request = Request(operation: string, address: seq<string>)

  /** A command argument; this command declares none. */
  datatype CommandArgument = CommandArgument(name: string)

  /** Java's `byte`, the type of the counter of release facts found. */
  newtype byte = b: int | -128 <= b < 128

  // ---------------------------------------------------------------------
  // Literals of the report
  // ---------------------------------------------------------------------

  const Banner := "JBoss Admin Command-line Interface"
  const ReleaseLabel := "JBoss AS release: "
  // The two longer literals are joins of short pieces; each join is exactly the source's
  // literal, character for character. The verifier can look at the characters of short
  // literals, which the proofs that these texts contain no line break need.
  const ConnectHint := "<connect to the controller " + "and re-run the version command " + "to see the release info>"
  const NotProvidedText := "release info was not " + "provided by the controller"
  const NoResultText := "result was not available."
  const ProductLabel := "JBoss AS product: "
  const FailurePrefix := "Failed to get the AS release info: "
  const ReadResource := "read-resource"

  /** Java's rendering of a possibly null string in a concatenation. */
  function Show(s: Option<string>): string {
    if s.Some? then s.value else "null"
  }

  /** A privileged environment or property lookup with a null default, as rendered into the report. */
  function Lookup(m: map<string, string>, key: string): string {
    if key in m then m[key] else "null"
  }

  // ---------------------------------------------------------------------
  // The trivial members of the command handler
  // ---------------------------------------------------------------------

  /** The command is available in every context. */
  function IsAvailable(ctx: Context): (available: bool)
    ensures available
  {
    true
  }

  /** The command is never part of a batch. */
  function IsBatchMode(ctx: Context): (batch: bool)
    ensures !batch
  {
    false
  }

  /** No argument can be looked up by name. */
  function GetArgument(ctx: Context, name: string): (arg: Option<CommandArgument>)
    ensures arg.None?
  {
    None
  }

  /** No argument is present under any name. */
  function HasArgument(ctx: Context, name: string): (present: bool)
    ensures !present
  {
    false
  }

  /** No argument is present at any position. */
  function HasArgumentAt(ctx: Context, index: int): (present: bool)
    ensures !present
  {
    false
  }

  /** The command declares no arguments. */
  function GetArguments(ctx: Context): (args: seq<CommandArgument>)
    ensures args == []
  {
    []
  }

  // ---------------------------------------------------------------------
  // The remote request
  // ---------------------------------------------------------------------

  /** The request the command sends: one read-resource on the root address, and only when it has a client. */
  function RequestOf(client: Connection): (req: Option<Request>)
    ensures req.None? <==> client.NoClient?
    ensures req.Some? ==> req.value.operation == ReadResource && req.value.address == []
  {
    if client.NoClient? then None else Some(Request(ReadResource, []))
  }

  // ---------------------------------------------------------------------
  // The result section, as the sequence of pieces appended to the buffer
  // ---------------------------------------------------------------------

  /** One group of appends made while reading a successful result. */
  datatype Fragment =
    | Version(version: string)
    | Codename(codename: string)
    | NotProvided
    | ProductName(name: string)
    | ProductVersion(version: string)

  /** The position of each kind of fragment in the fixed order of the report. */
  function Rank(f: Fragment): nat {
    match f
    case Version(_) => 0
    case Codename(_) => 1
    case NotProvided => 2
    case ProductName(_) => 3
    case ProductVersion(_) => 4
  }

  /** The text one fragment appends. */
  function Render(f: Fragment): string {
    match f
    case Version(v) => v
    case Codename(c) => " \"" + c + "\""
    case NotProvided => NotProvidedText
    case ProductName(n) => "\n" + ProductLabel + n
    case ProductVersion(v) => " " + v
  }

  /** The text a sequence of fragments appends, in order. */
  function RenderAll(fs: seq<Fragment>): string {
    if fs == [] then "" else RenderAll(fs[..|fs| - 1]) + Render(fs[|fs| - 1])
  }

  /** Regrouping a concatenation of strings; the proofs below use it one step at a time. */
  lemma Associative(a: string, b: string, c: string)
    ensures (a + b) + c == a + (b + c)
  {
  }

  /** Rendering one more fragment appends its text. */
  lemma RenderAppend(fs: seq<Fragment>, f: Fragment)
    ensures RenderAll(fs + [f]) == RenderAll(fs) + Render(f)
  {
    assert (fs + [f])[..|fs|] == fs;
  }

  /** One more append keeps the buffer equal to its start followed by the fragments appended so far. */
  lemma AppendStep(start: string, buf: string, fs: seq<Fragment>, f: Fragment)
    requires buf == start + RenderAll(fs)
    ensures buf + Render(f) == start + RenderAll(fs + [f])
  {
    RenderAppend(fs, f);
    Associative(start, RenderAll(fs), Render(f));
  }

  /** The same step, for fragments appended after a fixed first group. */
  lemma AppendAfter(start: string, buf: string, xs: seq<Fragment>, ys: seq<Fragment>, f: Fragment)
    requires buf == start + RenderAll(xs + ys)
    ensures buf + Render(f) == start + RenderAll(xs + (ys + [f]))
  {
    assert xs + (ys + [f]) == (xs + ys) + [f];
    RenderAppend(xs + ys, f);
    Associative(start, RenderAll(xs + ys), Render(f));
  }

  /** Rendering two groups of fragments appends their texts. */
  lemma {:induction false} RenderConcat(xs: seq<Fragment>, ys: seq<Fragment>)
    ensures RenderAll(xs + ys) == RenderAll(xs) + RenderAll(ys)
    decreases |ys|
  {
    if ys == [] {
      assert xs + ys == xs;
    } else {
      var init, last := ys[..|ys| - 1], ys[|ys| - 1];
      assert ys == init + [last];
      assert xs + ys == (xs + init) + [last];
      RenderConcat(xs, init);
      RenderAppend(xs + init, last);
      RenderAppend(init, last);
      Associative(RenderAll(xs), RenderAll(init), Render(last));
    }
  }

  /** A codename counts as found only when it is defined and not empty (no trimming). */
  predicate HasCodename(info: ReleaseInfo) {
    info.releaseCodename.Some? && |info.releaseCodename.value| > 0
  }

  /** The release facts found, or the fallback sentence when there are none. */
  function ReleaseFragments(info: ReleaseInfo): (fs: seq<Fragment>)
    ensures |fs| >= 1
    ensures forall f :: f in fs ==> Rank(f) <= 2
    ensures forall v :: Version(v) in fs <==> info.releaseVersion == Some(v)
    ensures forall c :: Codename(c) in fs <==> info.releaseCodename == Some(c) && |c| > 0
    ensures NotProvided in fs <==> info.releaseVersion.None? && !HasCodename(info)
    ensures forall i, j :: 0 <= i < j < |fs| ==> Rank(fs[i]) < Rank(fs[j])
  {
    var found :=
      (if info.releaseVersion.Some? then [Version(info.releaseVersion.value)] else []) +
      (if HasCodename(info) then [Codename(info.releaseCodename.value)] else []);
    if found == [] then [NotProvided] else found
  }

  /** The product line, present only with a product name; the version follows only together with the name. */
  function ProductFragments(info: ReleaseInfo): (fs: seq<Fragment>)
    ensures forall f :: f in fs ==> Rank(f) >= 3
    ensures forall n :: ProductName(n) in fs <==> info.productName == Some(n)
    ensures forall v :: ProductVersion(v) in fs <==> info.productName.Some? && info.productVersion == Some(v)
    ensures forall i, j :: 0 <= i < j < |fs| ==> Rank(fs[i]) < Rank(fs[j])
  {
    if info.productName.None? then []
    else if info.productVersion.None? then [ProductName(info.productName.value)]
    else [ProductName(info.productName.value), ProductVersion(info.productVersion.value)]
  }

  /** Every fragment a successful result appends, in the order they are appended. */
  function ResultFragments(info: ReleaseInfo): (fs: seq<Fragment>)
    ensures forall i, j :: 0 <= i < j < |fs| ==> Rank(fs[i]) < Rank(fs[j])
    ensures forall v :: Version(v) in fs <==> info.releaseVersion == Some(v)
    ensures forall c :: Codename(c) in fs <==> info.releaseCodename == Some(c) && |c| > 0
    ensures NotProvided in fs <==> info.releaseVersion.None? && !HasCodename(info)
    ensures forall n :: ProductName(n) in fs <==> info.productName == Some(n)
    ensures forall v :: ProductVersion(v) in fs <==> info.productName.Some? && info.productVersion == Some(v)
  {
    var release, product := ReleaseFragments(info), ProductFragments(info);
    assert forall i :: 0 <= i < |release| ==> release[i] in release;
    assert forall j :: 0 <= j < |product| ==> product[j] in product;
    release + product
  }

  // ---------------------------------------------------------------------
  // The report
  // ---------------------------------------------------------------------

  /**
   * What the command appends after "JBoss AS release: ", before the section's
   * line break: the connect hint, the failure description, the no-result
   * sentence or the fragments of the result.
   */
  function SectionText(client: Connection): string
    requires !client.IOError?
  {
    match client
    case NoClient => ConnectHint
    case Replied(Failed(d)) => d
    case Replied(Succeeded(None)) => NoResultText
    case Replied(Succeeded(Some(info))) => RenderAll(ResultFragments(info))
  }

  /** The banner, the JBOSS_HOME line and the release label. */
  function Header(host: Host): string {
    Banner + "\n" + "JBOSS_HOME: " + Lookup(host.env, "JBOSS_HOME") + "\n" + ReleaseLabel
  }

  /** The local host facts closing the report, one per line; the last one has no line break. */
  function Trailer(host: Host): string {
    ("JAVA_HOME: " + Lookup(host.env, "JAVA_HOME") + "\n") +
    ("java.version: " + Lookup(host.props, "java.version") + "\n") +
    ("java.vm.vendor: " + Lookup(host.props, "java.vm.vendor") + "\n") +
    ("java.vm.version: " + Lookup(host.props, "java.vm.version") + "\n") +
    ("os.name: " + Lookup(host.props, "os.name") + "\n") +
    ("os.version: " + Lookup(host.props, "os.version"))
  }

  /**
   * The outcome of the command: the text it prints, or the message of the
   * exception it raises when the request fails in transport.
   */
  function Report(host: Host, client: Connection): (r: Result<string, string>)
    ensures r.Failure? <==> client.IOError?
    ensures client.IOError? ==> r.error == FailurePrefix + Show(client.message)
    ensures r.Success? ==>
      Banner + "\n" + "JBOSS_HOME: " + Lookup(host.env, "JBOSS_HOME") + "\n" + ReleaseLabel <= r.value
    ensures r.Success? ==>
      |Trailer(host)| <= |r.value| && r.value[|r.value| - |Trailer(host)|..] == Trailer(host)
  {
    if client.IOError? then Failure(FailurePrefix + Show(client.message))
    else Success(Header(host) + SectionText(client) + "\n" + Trailer(host))
  }

  /**
   * The part of `handle` that reads a successful result: the release
   * version, a non-empty codename, the fallback sentence when neither was
   * found (counted in a Java `byte`), then the product name and version.
   */
  method AppendResult(buf: string, result: ReleaseInfo) returns (out: string)
    ensures out == buf + RenderAll(ResultFragments(result))
  {
    out := buf;
    ghost var frags: seq<Fragment> := [];
    var flag: byte := 0;
    if result.releaseVersion.Some? {
      AppendStep(buf, out, frags, Version(result.releaseVersion.value));
      out := out + result.releaseVersion.value;
      flag := flag + 1;
      frags := frags + [Version(result.releaseVersion.value)];
    }
    if result.releaseCodename.Some? {
      var codename := result.releaseCodename.value;
      if |codename| > 0 {
        AppendStep(buf, out, frags, Codename(codename));
        out := out + (" \"" + codename + "\"");
        flag := flag + 1;
        frags := frags + [Codename(codename)];
      }
    }
    assert 0 <= flag <= 2;
    if flag == 0 {
      AppendStep(buf, out, frags, NotProvided);
      out := out + NotProvidedText;
      frags := frags + [NotProvided];
    }
    ghost var product: seq<Fragment> := [];
    assert frags + product == frags;
    if result.productName.Some? {
      AppendAfter(buf, out, frags, product, ProductName(result.productName.value));
      out := out + ("\n" + ProductLabel + result.productName.value);
      product := product + [ProductName(result.productName.value)];
      if result.productVersion.Some? {
        AppendAfter(buf, out, frags, product, ProductVersion(result.productVersion.value));
        out := out + (" " + result.productVersion.value);
        product := product + [ProductVersion(result.productVersion.value)];
        assert product == [ProductName(result.productName.value), ProductVersion(result.productVersion.value)];
      } else {
        assert product == [ProductName(result.productName.value)];
      }
    }
    assert product == ProductFragments(result);
    assert frags == ReleaseFragments(result);
  }

  /** The command's `handle`: builds the report in a buffer, append by append. */
  method Handle(ctx: Context) returns (outcome: Result<string, string>, request: Option<Request>)
    ensures outcome == Report(ctx.host, ctx.client)
    ensures request == RequestOf(ctx.client)
  {
    var host, client := ctx.host, ctx.client;
    var buf: string := "";
    assert buf + Banner == Banner;
    buf := buf + Banner + "\n";
    buf := buf + "JBOSS_HOME: " + Lookup(host.env, "JBOSS_HOME") + "\n";
    buf := buf + ReleaseLabel;
    assert buf == Header(host);
    request := None;
    if client.NoClient? {
      buf := buf + ConnectHint + "\n";
    } else {
      request := Some(Request(ReadResource, []));
      if client.IOError? {
        outcome := Failure(FailurePrefix + Show(client.message));
        return;
      }
      var response := client.response;
      if response.Succeeded? {
        if response.result.Some? {
          buf := AppendResult(buf, response.result.value);
        } else {
          buf := buf + NoResultText;
        }
      } else {
        buf := buf + response.description;
      }
      buf := buf + "\n";
    }
    // the local host facts, one line each; `trailer` is what they add
    ghost var middle := buf;
    var line := "JAVA_HOME: " + Lookup(host.env, "JAVA_HOME") + "\n";
    ghost var trailer := line;
    buf := buf + line;
    line := "java.version: " + Lookup(host.props, "java.version") + "\n";
    Associative(middle, trailer, line);
    buf, trailer := buf + line, trailer + line;
    line := "java.vm.vendor: " + Lookup(host.props, "java.vm.vendor") + "\n";
    Associative(middle, trailer, line);
    buf, trailer := buf + line, trailer + line;
    line := "java.vm.version: " + Lookup(host.props, "java.vm.version") + "\n";
    Associative(middle, trailer, line);
    buf, trailer := buf + line, trailer + line;
    line := "os.name: " + Lookup(host.props, "os.name") + "\n";
    Associative(middle, trailer, line);
    buf, trailer := buf + line, trailer + line;
    line := "os.version: " + Lookup(host.props, "os.version");
    Associative(middle, trailer, line);
    buf, trailer := buf + line, trailer + line;
    assert trailer == Trailer(host);
    outcome := Success(buf);
  }

  // ---------------------------------------------------------------------
  // The report as a sequence of lines
  // ---------------------------------------------------------------------

  /** The six host facts of the trailer, in their fixed order. */
  function TrailerLines(host: Host): (lines: seq<string>)
    ensures |lines| == 6
  {
    [ "JAVA_HOME: " + Lookup(host.env, "JAVA_HOME"),
      "java.version: " + Lookup(host.props, "java.version"),
      "java.vm.vendor: " + Lookup(host.props, "java.vm.vendor"),
      "java.vm.version: " + Lookup(host.props, "java.vm.version"),
      "os.name: " + Lookup(host.props, "os.name"),
      "os.version: " + Lookup(host.props, "os.version") ]
  }

  /** The "JBoss AS release: " line: the connect hint, the failure description, the no-result sentence or the release facts. */
  function ReleaseLine(client: Connection): string
    requires !client.IOError?
  {
    ReleaseLabel + ReleaseContent(client)
  }

  /** The "JBoss AS product: " line, present only when the result names a product. */
  function ProductLines(client: Connection): (lines: seq<string>)
    ensures |lines| <= 1
  {
    match client
    case Replied(Succeeded(Some(info))) =>
      if info.productName.None? then [] else [ProductLine(info)]
    case _ => []
  }

  /** The product name, followed by the product version when there is one. */
  function ProductLine(info: ReleaseInfo): string
    requires info.productName.Some?
  {
    ProductLabel + info.productName.value +
    (if info.productVersion.Some? then " " + info.productVersion.value else "")
  }

  /** The lines of a successful report, in order. */
  function ReportLines(host: Host, client: Connection): (lines: seq<string>)
    requires !client.IOError?
    ensures |lines| == 9 + |ProductLines(client)|
    ensures lines[0] == Banner
    ensures lines[1] == "JBOSS_HOME: " + Lookup(host.env, "JBOSS_HOME")
    ensures lines[2] == ReleaseLine(client)
    ensures lines[3..|lines| - 6] == ProductLines(client)
    ensures lines[|lines| - 6..] == TrailerLines(host)
  {
    var head := [Banner, "JBOSS_HOME: " + Lookup(host.env, "JBOSS_HOME"), ReleaseLine(client)];
    var product, trailer := ProductLines(client), TrailerLines(host);
    var lines := head + product + trailer;
    assert |head| == 3;
    assert |lines| == 3 + |product| + 6;
    assert lines[3..|lines| - 6] == product;
    assert lines[|lines| - 6..] == trailer;
    lines
  }

  /** The trailer is its six lines joined by line breaks. */
  lemma TrailerJoined(host: Host)
    ensures JoinLines(TrailerLines(host)) == Trailer(host)
  {
    var ls := TrailerLines(host);
    assert ls[5..] == [ls[5]];
    assert ls[4..][1..] == ls[5..];
    assert ls[3..][1..] == ls[4..];
    assert ls[2..][1..] == ls[3..];
    assert ls[1..][1..] == ls[2..];
    assert ls[0..] == ls;
    assert JoinLines(ls[4..]) == (ls[4] + "\n") + ls[5];
    assert JoinLines(ls[3..]) == (ls[3] + "\n") + JoinLines(ls[4..]);
    assert JoinLines(ls[2..]) == (ls[2] + "\n") + JoinLines(ls[3..]);
    assert JoinLines(ls[1..]) == (ls[1] + "\n") + JoinLines(ls[2..]);
    assert JoinLines(ls) == (ls[0] + "\n") + JoinLines(ls[1..]);
    var t1, t2, t3, t4, t5 := ls[0] + "\n", ls[1] + "\n", ls[2] + "\n", ls[3] + "\n", ls[4] + "\n";
    Associative((((t1 + t2) + t3) + t4), t5, ls[5]);
    Associative(((t1 + t2) + t3), t4, t5 + ls[5]);
    Associative((t1 + t2), t3, t4 + (t5 + ls[5]));
    Associative(t1, t2, t3 + (t4 + (t5 + ls[5])));
  }

  /** Rendering a single fragment. */
  lemma RenderOne(f: Fragment)
    ensures RenderAll([f]) == Render(f)
  {
    RenderAppend([], f);
    assert [] + [f] == [f];
  }

  /** Rendering two fragments. */
  lemma RenderPair(f: Fragment, g: Fragment)
    ensures RenderAll([f, g]) == Render(f) + Render(g)
  {
    RenderOne(f);
    RenderAppend([f], g);
    assert [f] + [g] == [f, g];
  }

  /** What a named product appends after the release facts: a line break, then the product line. */
  lemma ProductText(info: ReleaseInfo)
    requires info.productName.Some?
    ensures RenderAll(ProductFragments(info)) == "\n" + ProductLine(info)
  {
    var name := info.productName.value;
    if info.productVersion.Some? {
      var version := info.productVersion.value;
      RenderPair(ProductName(name), ProductVersion(version));
      Associative("\n", ProductLabel, name);
      Associative("\n", ProductLabel + name, " " + version);
    } else {
      RenderOne(ProductName(name));
      Associative("\n", ProductLabel, name);
      assert (ProductLabel + name) + "" == ProductLabel + name;
    }
  }

  /**
   * The text after "JBoss AS release: ": the release version, then a
   * non-empty codename in double quotes after a space; the fallback
   * sentence exactly when neither is there.
   */
  lemma ReleaseText(info: ReleaseInfo)
    ensures info.releaseVersion.None? && !HasCodename(info) ==>
      RenderAll(ReleaseFragments(info)) == NotProvidedText
    ensures info.releaseVersion.Some? || HasCodename(info) ==>
      RenderAll(ReleaseFragments(info)) ==
        (if info.releaseVersion.Some? then info.releaseVersion.value else "") +
        (if HasCodename(info) then " \"" + info.releaseCodename.value + "\"" else "")
  {
    if info.releaseVersion.Some? && HasCodename(info) {
      VersionAndCodename(info);
    } else if info.releaseVersion.Some? {
      VersionOnly(info);
      assert info.releaseVersion.value + "" == info.releaseVersion.value;
    } else if HasCodename(info) {
      CodenameOnly(info);
      assert "" + (" \"" + info.releaseCodename.value + "\"") == " \"" + info.releaseCodename.value + "\"";
    } else {
      assert ReleaseFragments(info) == [NotProvided];
      RenderOne(NotProvided);
    }
  }

  /** Both a version and a codename: the version, then the quoted codename. */
  lemma VersionAndCodename(info: ReleaseInfo)
    requires info.releaseVersion.Some? && HasCodename(info)
    ensures RenderAll(ReleaseFragments(info)) ==
      info.releaseVersion.value + (" \"" + info.releaseCodename.value + "\"")
  {
    var fs := ReleaseFragments(info);
    assert fs == [Version(info.releaseVersion.value), Codename(info.releaseCodename.value)];
    RenderPair(fs[0], fs[1]);
  }

  /** A version without a usable codename: the version alone. */
  lemma VersionOnly(info: ReleaseInfo)
    requires info.releaseVersion.Some? && !HasCodename(info)
    ensures RenderAll(ReleaseFragments(info)) == info.releaseVersion.value
  {
    assert ReleaseFragments(info) == [Version(info.releaseVersion.value)];
    RenderOne(Version(info.releaseVersion.value));
  }

  /** A codename without a version: the quoted codename, after its leading space. */
  lemma CodenameOnly(info: ReleaseInfo)
    requires info.releaseVersion.None? && HasCodename(info)
    ensures RenderAll(ReleaseFragments(info)) == " \"" + info.releaseCodename.value + "\""
  {
    assert ReleaseFragments(info) == [Codename(info.releaseCodename.value)];
    RenderOne(Codename(info.releaseCodename.value));
  }

  /** The text of a successful result is the release facts, then the product text. */
  lemma ResultText(info: ReleaseInfo)
    ensures RenderAll(ResultFragments(info)) ==
            RenderAll(ReleaseFragments(info)) + RenderAll(ProductFragments(info))
  {
    RenderConcat(ReleaseFragments(info), ProductFragments(info));
  }

  /** What follows "JBoss AS release: " on the release line. */
  function ReleaseContent(client: Connection): string
    requires !client.IOError?
  {
    match client
    case NoClient => ConnectHint
    case Replied(Failed(d)) => d
    case Replied(Succeeded(None)) => NoResultText
    case Replied(Succeeded(Some(info))) => RenderAll(ReleaseFragments(info))
  }

  /** The section text is the release content, then the product line when there is one. */
  lemma SectionSplit(client: Connection)
    requires !client.IOError?
    ensures ProductLines(client) == [] ==> SectionText(client) == ReleaseContent(client)
    ensures ProductLines(client) != [] ==>
      SectionText(client) == ReleaseContent(client) + ("\n" + ProductLines(client)[0])
  {
    if client.Replied? && client.response.Succeeded? && client.response.result.Some? {
      var info := client.response.result.value;
      ResultText(info);
      if info.productName.Some? {
        ProductText(info);
      } else {
        assert RenderAll(ReleaseFragments(info)) + "" == RenderAll(ReleaseFragments(info));
      }
    }
  }

  /** A successful report is exactly its lines joined by line breaks. */
  lemma ReportJoinsLines(host: Host, client: Connection)
    requires !client.IOError?
    ensures Report(host, client) == Success(JoinLines(ReportLines(host, client)))
  {
    var value := Lookup(host.env, "JBOSS_HOME");
    var home := "JBOSS_HOME: " + value;
    var content := ReleaseContent(client);
    SectionSplit(client);
    var head := [Banner, home, ReleaseLine(client)];
    var product, trailer := ProductLines(client), TrailerLines(host);
    assert head[1..] == [home, ReleaseLine(client)];
    assert head[1..][1..] == [ReleaseLine(client)];
    assert JoinLines(head[1..][1..]) == ReleaseLabel + content;
    assert JoinLines(head[1..]) == (home + "\n") + (ReleaseLabel + content);
    assert JoinLines(head) == (Banner + "\n") + ((home + "\n") + (ReleaseLabel + content));
    var banner := Banner + "\n";
    Associative(banner, "JBOSS_HOME: ", value);
    Associative(banner, home, "\n");
    Associative(banner, home + "\n", ReleaseLabel);
    Associative(banner, (home + "\n") + ReleaseLabel, content);
    Associative(home + "\n", ReleaseLabel, content);
    assert Header(host) + content == JoinLines(head);
    if product == [] {
      assert head + product == head;
    } else {
      JoinAppend(head, product);
      Associative(Header(host), content, "\n" + product[0]);
      Associative(Header(host) + content, "\n", product[0]);
    }
    assert JoinLines(head + product) == Header(host) + SectionText(client);
    JoinAppend(head + product, trailer);
    TrailerJoined(host);
  }

  /** With no line break inside any value, splitting the report at its line breaks gives back its lines. */
  lemma {:induction false} ReportLinesSplit(host: Host, client: Connection)
    requires !client.IOError?
    requires SingleLineValues(host, client)
    ensures Report(host, client).Success?
    ensures SplitLines(Report(host, client).value) == ReportLines(host, client)
  {
    ReportJoinsLines(host, client);
    var lines := ReportLines(host, client);
    LinesHaveNoBreak(host, client);
    SplitOfJoin(lines);
  }

  /** An optional value that is absent or break-free. */
  predicate OptionNoBreak(s: Option<string>) {
    s.Some? ==> NoBreak(s.value)
  }

  /** No host fact contains a line break. */
  predicate HostSingleLine(host: Host) {
    (forall k :: k in host.env ==> NoBreak(host.env[k])) &&
    (forall k :: k in host.props ==> NoBreak(host.props[k]))
  }

  /** No string of the response contains a line break. */
  predicate ResponseSingleLine(client: Connection) {
    match client
    case Replied(Failed(d)) => NoBreak(d)
    case Replied(Succeeded(Some(info))) =>
      OptionNoBreak(info.releaseVersion) && OptionNoBreak(info.releaseCodename) &&
      OptionNoBreak(info.productName) && OptionNoBreak(info.productVersion)
    case _ => true
  }

  /** No value the report renders contains a line break. */
  predicate SingleLineValues(host: Host, client: Connection) {
    HostSingleLine(host) && ResponseSingleLine(client)
  }

  /** A lookup yields a break-free text when every value is break-free ("null" is). */
  lemma LookupNoBreak(m: map<string, string>, key: string)
    requires forall k :: k in m ==> NoBreak(m[k])
    ensures NoBreak(Lookup(m, key))
  {
    assert NoBreak("null");
  }

  /** The trailer lines are break-free when the host facts are. */
  lemma TrailerNoBreak(host: Host)
    requires HostSingleLine(host)
    ensures AllNoBreak(TrailerLines(host))
  {
    LookupNoBreak(host.env, "JAVA_HOME");
    LookupNoBreak(host.props, "java.version");
    LookupNoBreak(host.props, "java.vm.vendor");
    LookupNoBreak(host.props, "java.vm.version");
    LookupNoBreak(host.props, "os.name");
    LookupNoBreak(host.props, "os.version");
    assert NoBreak("JAVA_HOME: ") && NoBreak("java.version: ") && NoBreak("java.vm.vendor: ");
    assert NoBreak("java.vm.version: ") && NoBreak("os.name: ") && NoBreak("os.version: ");
  }

  /** None of the command's fixed texts contains a line break. */
  lemma LiteralsNoBreak()
    ensures NoBreak(Banner) && NoBreak(ReleaseLabel) && NoBreak(ProductLabel)
    ensures NoBreak(ConnectHint) && NoBreak(NotProvidedText) && NoBreak(NoResultText)
  {
    HintNoBreak();
    FallbacksNoBreak();
  }

  /** The connect hint is one line. */
  lemma HintNoBreak()
    ensures NoBreak(ConnectHint)
  {
  }

  /** The two fallback sentences are one line each. */
  lemma FallbacksNoBreak()
    ensures NoBreak(NotProvidedText) && NoBreak(NoResultText)
  {
  }

  /** Fragments free of line breaks render to a text free of line breaks. */
  lemma {:induction false} RenderAllNoBreak(fs: seq<Fragment>)
    requires forall f :: f in fs ==> NoBreak(Render(f))
    ensures NoBreak(RenderAll(fs))
  {
    if fs != [] {
      var init := fs[..|fs| - 1];
      assert forall f :: f in init ==> f in fs;
      assert fs[|fs| - 1] in fs;
      RenderAllNoBreak(init);
    }
  }

  /** The release facts are break-free when the version and codename are. */
  lemma ReleaseFactsNoBreak(info: ReleaseInfo)
    requires OptionNoBreak(info.releaseVersion) && OptionNoBreak(info.releaseCodename)
    ensures NoBreak(RenderAll(ReleaseFragments(info)))
  {
    var fs := ReleaseFragments(info);
    LiteralsNoBreak();
    assert NoBreak(" \"") && NoBreak("\"");
    forall f | f in fs
      ensures NoBreak(Render(f))
    {
      match f
      case Version(v) =>
        assert info.releaseVersion == Some(v);
      case Codename(c) =>
        assert info.releaseCodename == Some(c);
      case NotProvided =>
      case ProductName(_) =>
        assert false;
      case ProductVersion(_) =>
        assert false;
    }
    RenderAllNoBreak(fs);
  }

  /** The release line is break-free when the response strings are. */
  lemma ReleaseLineNoBreak(client: Connection)
    requires !client.IOError? && ResponseSingleLine(client)
    ensures NoBreak(ReleaseLine(client))
  {
    LiteralsNoBreak();
    match client
    case NoClient =>
    case Replied(Failed(d)) =>
    case Replied(Succeeded(None)) =>
    case Replied(Succeeded(Some(info))) =>
      ReleaseFactsNoBreak(info);
  }

  /** The product line is break-free when the product name and version are. */
  lemma ProductLinesNoBreak(client: Connection)
    requires ResponseSingleLine(client)
    ensures AllNoBreak(ProductLines(client))
  {
    if client.Replied? && client.response.Succeeded? && client.response.result.Some? {
      var info := client.response.result.value;
      if info.productName.Some? {
        assert NoBreak(ProductLabel) && NoBreak(" ");
        assert NoBreak(ProductLine(info));
      }
    }
  }

  /** Every line of the report is break-free when every rendered value is. */
  lemma LinesHaveNoBreak(host: Host, client: Connection)
    requires !client.IOError?
    requires SingleLineValues(host, client)
    ensures AllNoBreak(ReportLines(host, client))
  {
    var head := [Banner, "JBOSS_HOME: " + Lookup(host.env, "JBOSS_HOME"), ReleaseLine(client)];
    var product, trailer := ProductLines(client), TrailerLines(host);
    TrailerNoBreak(host);
    ReleaseLineNoBreak(client);
    ProductLinesNoBreak(client);
    LookupNoBreak(host.env, "JBOSS_HOME");
    LiteralsNoBreak();
    assert NoBreak("JBOSS_HOME: ");
    assert AllNoBreak(head);
    AllNoBreakAppend(head, product);
    AllNoBreakAppend(head + product, trailer);
  }

  /** Two groups of break-free lines stay break-free together. */
  lemma AllNoBreakAppend(xs: seq<string>, ys: seq<string>)
    requires AllNoBreak(xs) && AllNoBreak(ys)
    ensures AllNoBreak(xs + ys)
  {
    forall i | 0 <= i < |xs + ys|
      ensures NoBreak((xs + ys)[i])
    {
      if i >= |xs| {
        assert (xs + ys)[i] == ys[i - |xs|];
      }
    }
  }
}
