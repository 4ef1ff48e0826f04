# The `version` command of the JBoss/WildFly administration CLI

This project models `org.jboss.as.cli.handlers.VersionHandler`, the handler behind the
CLI's `version` command, and proves properties of the report it prints.

The command builds one multi-line text in a `StringBuilder` and prints it with a single
`printLine`. The text has three parts:

- a fixed banner and the `JBOSS_HOME` environment variable;
- the `JBoss AS release: ` section, which depends on the management client:
  - with no client, a hint to connect;
  - with a client, one `read-resource` request on the root address, whose outcome is
    either the failure description, `result was not available.`, or the release
    version, the codename, the product name and the product version, each optional;
- six host facts: `JAVA_HOME`, `java.version`, `java.vm.vendor`, `java.vm.version`,
  `os.name` and `os.version`.

An `IOException` from the request aborts the command with
`Failed to get the AS release info: <message>`, and nothing is printed.

Files:

- `wrappers.dfy`: `Option` (Java `null`) and `Result` (a value or the message of the
  thrown `CommandFormatException`).
- `lines.dfy`: splitting a text at `'\n'` and joining lines with `'\n'`, with both round
  trips proved. It is used to state the line structure of the report.
- `version_handler.dfy`, module `VersionHandler`:
  - the inputs: `Host` (environment and system-property maps), `Connection` (no client,
    an `IOException`, or a `Response`), `ReleaseInfo`;
  - the specification function `Report`;
  - the imperative `Handle`, which appends to a string buffer step by step and is proved
    equal to `Report`;
  - `ReportLines`, the same report as its list of lines, with the lemmas that connect it
    to `Report`.

The part of `handle` that reads a successful result is the separate method
`AppendResult`, called from `Handle`; its appends and their order are those of the source.
Its counter of release facts found is a Java `byte`; the verifier checks that each
increment stays in range (the counter reaches at most 2), so no wrap-around can occur.

The result branch is described by `ResultFragments`, the list of append groups it makes
(`Version`, `Codename`, `NotProvided`, `ProductName`, `ProductVersion`). Its contract
says, as exact if-and-only-if statements, which groups appear and in what order.

Details of the code the model keeps:

- the failure prefix is `Failed to get the AS release info: `;
- a codename counts when its `length()` is greater than zero; it is not trimmed, so
  `" "` counts;
- the codename is written as a space and then the codename in double quotes;
- the trailer starts with a `JAVA_HOME` line;
- the product appears on its own line, prefixed `JBoss AS product: `;
- a missing host fact is printed as `null`, because Java renders a `null` string that way;
- the report ends with the `os.version` value, so it ends with a line break only when that
  value does.

## Model

| member | source | states |
|---|---|---|
| VersionHandler.IsAvailable | cli/src/main/java/org/jboss/as/cli/handlers/VersionHandler.java:50-52 | the command is available in every context |
| VersionHandler.IsBatchMode | cli/src/main/java/org/jboss/as/cli/handlers/VersionHandler.java:58-60 | the command never takes part in a batch |
| VersionHandler.GetArgument | cli/src/main/java/org/jboss/as/cli/handlers/VersionHandler.java:126-128 | no argument is found under any name |
| VersionHandler.HasArgument | cli/src/main/java/org/jboss/as/cli/handlers/VersionHandler.java:131-133 | no argument is present under any name |
| VersionHandler.HasArgumentAt | cli/src/main/java/org/jboss/as/cli/handlers/VersionHandler.java:136-138 | no argument is present at any index |
| VersionHandler.GetArguments | cli/src/main/java/org/jboss/as/cli/handlers/VersionHandler.java:141-143 | the command declares no arguments |
| VersionHandler.RequestOf | cli/src/main/java/org/jboss/as/cli/handlers/VersionHandler.java:71-79 | a request is issued iff there is a client, and it is `read-resource` on the empty (root) address |
| VersionHandler.ReleaseFragments | cli/src/main/java/org/jboss/as/cli/handlers/VersionHandler.java:83-97 | the version appears iff defined; a codename appears iff defined and non-empty; the fallback appears iff the version is undefined and the codename undefined or empty; the order is version, codename, fallback; there is at least one group |
| VersionHandler.ProductFragments | cli/src/main/java/org/jboss/as/cli/handlers/VersionHandler.java:99-104 | the product name appears iff defined; the product version appears iff both the name and the version are defined; the name comes before the version |
| VersionHandler.ResultFragments | cli/src/main/java/org/jboss/as/cli/handlers/VersionHandler.java:81-104 | the whole result branch: each kind of group appears at most once, in the fixed order, under exactly the conditions above |
| VersionHandler.ReleaseText | cli/src/main/java/org/jboss/as/cli/handlers/VersionHandler.java:84-97 | the text after `JBoss AS release: ` is exactly the fallback sentence when nothing was found; otherwise it is the version, then ` "codename"` |
| VersionHandler.ProductText | cli/src/main/java/org/jboss/as/cli/handlers/VersionHandler.java:99-104 | a named product adds a line break, `JBoss AS product: `, the name and ` version` when there is a version |
| VersionHandler.AppendResult | cli/src/main/java/org/jboss/as/cli/handlers/VersionHandler.java:82-104 | the appends of the result branch, with the counter in a Java `byte`, add exactly the rendered `ResultFragments` to the buffer |
| VersionHandler.Report | cli/src/main/java/org/jboss/as/cli/handlers/VersionHandler.java:66-123 | the command fails iff the request throws an `IOException`, with message `Failed to get the AS release info: ` + the exception's message; every printed report starts with the banner line, the `JBOSS_HOME` line and `JBoss AS release: `, and ends with the six host-fact lines |
| VersionHandler.Handle | cli/src/main/java/org/jboss/as/cli/handlers/VersionHandler.java:66-123 | the step-by-step buffer construction yields exactly `Report`, and issues exactly the request of `RequestOf` |
| VersionHandler.ReportLines | cli/src/main/java/org/jboss/as/cli/handlers/VersionHandler.java:67-121 | the report has 9 lines, or 10 with a product line: the banner, `JBOSS_HOME`, the release line, the optional product line, then `JAVA_HOME`, `java.version`, `java.vm.vendor`, `java.vm.version`, `os.name` and `os.version`, in this order |
| VersionHandler.SectionSplit | cli/src/main/java/org/jboss/as/cli/handlers/VersionHandler.java:71-111 | each branch of the remote section gives its own content on the release line, and only a named product adds a second line |
| VersionHandler.TrailerJoined | cli/src/main/java/org/jboss/as/cli/handlers/VersionHandler.java:116-121 | the trailer is its six host-fact lines joined by line breaks, with no break after `os.version` |
| VersionHandler.ReportJoinsLines | cli/src/main/java/org/jboss/as/cli/handlers/VersionHandler.java:67-122 | a printed report is exactly its lines joined by single line breaks |
| VersionHandler.ReportLinesSplit | cli/src/main/java/org/jboss/as/cli/handlers/VersionHandler.java:67-122 | when no value contains a line break, splitting the printed report at its line breaks gives back exactly `ReportLines`; so each section ends with one break and the report ends with the `os.version` line |

## Left out

- `ModelControllerClient.execute` is a network round trip. It is modelled by the input `Connection`: no client, an `IOException` with its (possibly null) message, or a response.
- The DMR `ModelNode` tree and its `asString` conversions are not modelled. A response is a failure with its description, or a success with an optional record of four optional strings.
- `Util.isSuccess` and `Util.getFailureDescription` are not part of this model. The outcome and the description string are fields of `Response`.
- `Util.OPERATION`, `Util.ADDRESS` and `Util.READ_RESOURCE` are not part of this model. The request is modelled as the operation name `read-resource` and an empty address list.
- `WildFlySecurityManager.getEnvPropertyPrivileged` and `getPropertyPrivileged` are host lookups. They are modelled as two maps, and a missing key yields `"null"`.
- `CommandContext.printLine` is output plumbing. The model returns the printed text instead.
- The `INSTANCE` singleton holds no state, so `Handle` is a plain method.
- Runtime exceptions other than `IOException` thrown by `execute` are not modelled; the source does not catch them.
