# clap-mcp translation layer, modelled in Dafny

clap-mcp exposes the subcommands of a clap command-line program as tools
of the Model Context Protocol (MCP). The layer modelled here does the
translation in both directions:

- **Tool-descriptor extraction** (`ClapMcpHandler::extract_subcommands`).
  It walks the clap command tree and produces one tool per subcommand.
  Each tool has a name and a description. Its input schema has a
  `properties` map and a `required` list. Each property has a type
  (`boolean` or `string`), an optional description, and the positional
  extensions `x-positional` and `x-position`.
- **Invocation marshalling and dispatch** (`call_tool`). It turns a tool
  name and a JSON argument object into a clap token vector. The vector is
  `["mcp", name]`, then the positional values sorted by position, then
  the named `--key [value]` tokens. The vector then goes to clap's parser,
  then to the conversion into the command value, then to the registered
  handler. Each outcome becomes a success result, an error-flagged result
  or a protocol error.
- **Handler registration**. `McpServer::new` and `with_handler` build the
  server. `ClapMcpHandler::new` is what the serve functions hand to the
  transport.

Files (one module each):

- `wrappers.dfy`: `Option` and `Result`.
- `schema.dfy`: the clap command tree as it is introspected (`Arg`,
  `Subcommand`, `Command`) and the tool descriptor (`Property`, `Tool`).
- `extract.dfy`: extraction. Loops are proved against prefix folds
  (`Props`, `Required`, `Counter`), and the promised properties are
  proved about those folds.
- `marshal.dfy`: the marshalling loops, the stable sort and token
  rendering, with their properties.
- `dispatch.dfy`: the final parse, convert and handle match.
- `server.dfy`: the `McpServer` and `ClapMcpHandler` classes, plus lemmas
  that connect both directions.
- `scenarios.dfy`: the repository's own test cases, restated as lemmas
  over the model.

Environment inputs:

- clap's `try_get_matches_from` is a function parameter `matcher` from
  tokens to `Result`.
- `from_arg_matches` is a function parameter `convert`.
- The handler is an `Option` of a function returning
  `Result<string, string>`.
- The clap command tree that `augment_subcommands` would build is the
  datatype value `Command`. The values clap's getters report
  (`get_long`, `get_short`, `get_index`, the minimum of `get_num_args`,
  `is_hide_set`, `is_required_set`, `get_help`) are fields of `Arg`.
- The unspecified iteration order of the `named_args` HashMap is a
  nondeterministic choice (`:|`) in the loop. A ghost out-parameter
  (`namedOrder`) records the order taken.
- The order in which `serde_json` yields the argument object's entries is
  the order of the input list.

## Model

| member | source | states |
|---|---|---|
| Extract.ExtractTool | clap-mcp/src/lib.rs:137-202 | The per-subcommand walk yields exactly `ToolOf(sub)`. `ToolOf` has the subcommand's name, its about text or "", and the properties map, required list and positional counter as they stand after the whole argument list. |
| Extract.ExtractSubcommands | clap-mcp/src/lib.rs:132-206 | One tool per subcommand, in subcommand order. Tool i has subcommand i's name and its about text or "". |
| Extract.PropsKeys | clap-mcp/src/lib.rs:148-151 | The keys of `properties` are exactly the ids of the arguments that are not hidden, not `help` and not `version`. |
| Extract.RequiredMembers | clap-mcp/src/lib.rs:186-188 | An id is in `required` exactly when some surfaced argument with that id has required set. |
| Extract.RequiredAreProperties | clap-mcp/src/lib.rs:184-188 | Every entry of `required` is a key of `properties`. |
| Extract.SkippedNeverSurfaces | clap-mcp/src/lib.rs:149-151 | A hidden, help or version argument is in neither `properties` nor `required`, provided ids are unique within the subcommand. |
| Extract.HelpAndVersionNeverSurface | clap-mcp/src/lib.rs:149-151 | "help" and "version" are never keys of `properties` or entries of `required`, for any argument list. |
| Extract.PropertyOfArg | clap-mcp/src/lib.rs:153-184 | A surfaced argument's property has type boolean exactly when its minimum value count is 0 or absent. Its description is the help text when there is one and absent otherwise. `x-positional: true` is present exactly when the argument has no long and no short token. `x-position` is then the declared index, or else the counter value reached before the argument. |
| Extract.CounterMonotone | clap-mcp/src/lib.rs:176-180 | The positional counter never decreases along the argument list. |
| Extract.IndexlessPositionsIncrease | clap-mcp/src/lib.rs:176-180 | Index-less positionals get strictly increasing positions in declaration order, all below the counter's final value. |
| Extract.CounterStep | clap-mcp/src/lib.rs:176-180 | One more argument raises the counter by one exactly when it is surfaced, positional and has no index. |
| Extract.PositionalsHavePosition | clap-mcp/src/lib.rs:172-181 | A property carries `x-positional` exactly when it carries `x-position`. |
| Extract.IndexlessPositionsDistinct | clap-mcp/src/lib.rs:172-181 | Suppose ids are unique and no positional declares an index. Then distinct positional properties get distinct positions. |
| Marshal.FindTool | clap-mcp/src/lib.rs:246-247 | None exactly when no tool has the name. Otherwise the result is the first tool with that name. |
| Marshal.PartitionArguments | clap-mcp/src/lib.rs:254-284 | The partition loop yields exactly `Partition(tool, arguments)`. A key is positional only when the tool's property has `x-positional: true`. Its position is `x-position`, or else the number of positionals already collected. |
| Marshal.PartitionPositional | clap-mcp/src/lib.rs:257-280 | The positional list holds exactly the entries with a positional key, in arrival order. The i-th of them carries the declared position, or else i. |
| Marshal.PartitionNamedKeys | clap-mcp/src/lib.rs:259-283 | The named map's keys are exactly the argument keys that are not positional for the tool. |
| Marshal.PartitionNamedValues | clap-mcp/src/lib.rs:281-283 | When keys are distinct, each non-positional entry reaches the named map with its own value. |
| Marshal.UnknownToolAllNamed | clap-mcp/src/lib.rs:259-267 | With no matching tool, no argument is positional and every key is named. |
| Marshal.NoPositionalEntries | clap-mcp/src/lib.rs:259-267 | With no tool, no entry counts as positional. |
| Marshal.InsertMultiset | clap-mcp/src/lib.rs:287 | One insertion step of the sort adds exactly the inserted entry. |
| Marshal.InsertSorted | clap-mcp/src/lib.rs:287 | Inserting into a sorted list keeps it sorted by position. |
| Marshal.InsertAtPosition | clap-mcp/src/lib.rs:287 | Inserting keeps, for every position, the entries holding it in the order they would have with the new entry first. |
| Marshal.SortByPositionCorrect | clap-mcp/src/lib.rs:286-287 | The sort's result is sorted by position and is a permutation of its input. It is stable: for every position, the entries holding it keep their relative order. |
| Marshal.AtPositionMultiset | clap-mcp/src/lib.rs:287 | The entries at a position are exactly the occurrences of input entries holding that position. |
| Marshal.AtPositionAbsent | clap-mcp/src/lib.rs:287 | No entry at a position that no entry holds. |
| Marshal.AtPositionAtMostOne | clap-mcp/src/lib.rs:287 | With distinct positions, at most one entry holds each position. |
| Marshal.LeastPositionBound | clap-mcp/src/lib.rs:287 | A sorted list with the same entries per position as another starts at a position no greater than the other's first. |
| Marshal.SortedDetermined | clap-mcp/src/lib.rs:287 | Two sorted lists that agree on the entries at every position are equal. |
| Marshal.SortDependsOnTiesOnly | clap-mcp/src/lib.rs:286-287 | The sorted order depends only on which entries hold each position and their relative order. |
| Marshal.DistinctGroupsAgree | clap-mcp/src/lib.rs:287 | For two permutations with distinct positions, each position is held by the same entries. |
| Marshal.SortIgnoresArrivalOrder | clap-mcp/src/lib.rs:270-287 | When every positional has its own explicit position, any arrival order of the same entries sorts to the same list. |
| Marshal.GroupMultisetsAgree | clap-mcp/src/lib.rs:287 | Lists with the same entries hold the same entries at each position. |
| Marshal.ShortListsByMultiset | clap-mcp/src/lib.rs:287 | Lists of at most one entry with the same entries are equal. |
| Marshal.PlacedAtDeclared | clap-mcp/src/lib.rs:257-280 | If every positional key declares its position, each positional entry has a positional key of the argument object and sits at that key's declared position. |
| Marshal.PlacedDistinct | clap-mcp/src/lib.rs:257-280 | If positional keys declare distinct positions and the object has no repeated key, no two positional entries share a position. |
| Marshal.PlacedCount | clap-mcp/src/lib.rs:257-280 | If every positional key declares its position, the positional list holds each positional entry of the object once per occurrence and nothing else. |
| Marshal.PlacedArrival | clap-mcp/src/lib.rs:257-280 | With declared positions, two arrival orders of the same entries give the same positional entries up to order. |
| Marshal.NamedSubsumed | clap-mcp/src/lib.rs:281-283 | With no repeated key, every named entry from one arrival order is in the named map of another order, with the same value. |
| Marshal.NamedArrival | clap-mcp/src/lib.rs:281-283 | With no repeated key, two arrival orders of the same object give the same named map. |
| Marshal.ArgumentOrderIrrelevant | clap-mcp/src/lib.rs:254-287 | Suppose every positional key declares its own distinct position and the object has no repeated key. Then any arrival order gives the same sorted positional list and the same named map. |
| Marshal.NatToDecimal | clap-mcp/src/lib.rs:293 | A number's text is a non-empty string of decimal digits. |
| Marshal.DigitCharValue | clap-mcp/src/lib.rs:293 | Each digit character is a decimal digit that denotes its own value. |
| Marshal.NatToDecimalValue | clap-mcp/src/lib.rs:293 | The digits of a non-negative number denote that number, and the text starts with 0 only for 0 itself. |
| Marshal.IntToDecimal | clap-mcp/src/lib.rs:312-315 | The text starts with a minus sign exactly for a negative number. After the sign come the digits of its magnitude. A non-negative number has no sign. |
| Marshal.IntToDecimalValue | clap-mcp/src/lib.rs:312-315 | The text of a negative number is a minus sign followed by digits that denote its magnitude. The text of any other number denotes the number itself. |
| Marshal.PushPositionals | clap-mcp/src/lib.rs:289-297 | Appends each positional value's text, with no `--` prefix, in list order. |
| Marshal.PushEntry | clap-mcp/src/lib.rs:301-320 | One named entry: `--key` for true, nothing for false, and `--key` followed by the value's text otherwise. |
| Marshal.PushNamed | clap-mcp/src/lib.rs:299-321 | Visits every key of the named map exactly once, in some order. It appends exactly the encoding of the named segment in that order, after the unchanged prefix. |
| Marshal.PushNamedStep | clap-mcp/src/lib.rs:300-321 | One turn of the named loop extends the named segment by exactly the visited key's tokens. |
| Marshal.EnumerationVisit | clap-mcp/src/lib.rs:300 | One turn of the named loop visits one more key, and no key twice. |
| Marshal.EncodeNamedSnoc | clap-mcp/src/lib.rs:300-321 | Visiting one more key appends exactly that key's tokens. |
| Marshal.EnumerationSnoc | clap-mcp/src/lib.rs:300 | Visiting a new key extends a once-each visiting order by that key. |
| Marshal.BuildArgs | clap-mcp/src/lib.rs:251-321 | The token vector is `["mcp", name]`, then the sorted positionals' texts, then the named encoding in a once-each order of the named keys. The seed and positional segment come first, whatever that order. |
| Marshal.EncodeNamedConcat | clap-mcp/src/lib.rs:300-321 | The named segment of a split visiting order is the concatenation of the two parts' segments. |
| Marshal.EncodeNamedLength | clap-mcp/src/lib.rs:300-321 | The named segment has 1 token per true, 0 per false and 2 per other value. |
| Marshal.EncodeNamedSplitAt | clap-mcp/src/lib.rs:300-321 | The key visited at step i contributes its tokens between those of the steps before and after it. |
| Marshal.NamedEntryTokens | clap-mcp/src/lib.rs:301-320 | Within the segment, a key's tokens stand together: nothing for false, `--key` alone for true, `--key` and the value's text otherwise. |
| Marshal.SpliceTokens | clap-mcp/src/lib.rs:301-320 | Head, entry tokens and tail form the segment: nothing for false, `--key` for true, `--key` and the value's text otherwise. |
| Marshal.EnumerationDropLast | clap-mcp/src/lib.rs:300 | Dropping the last key of a once-each visiting order leaves one for the remaining keys. |
| Marshal.EnumerationDropAt | clap-mcp/src/lib.rs:300 | Dropping any one key of a once-each visiting order leaves one for the remaining keys. |
| Marshal.EnumerationSize | clap-mcp/src/lib.rs:300 | A once-each visiting order is exactly as long as the map has keys. |
| Marshal.SingletonEnumeration | clap-mcp/src/lib.rs:300 | A one-key map has one visiting order. |
| Marshal.PairEnumeration | clap-mcp/src/lib.rs:300 | A two-key map has exactly two visiting orders. |
| Marshal.EncodeNamedOrderIrrelevant | clap-mcp/src/lib.rs:299-321 | Any two visiting orders give the same named tokens up to rearrangement, and the same number of them. |
| Dispatcher.Dispatch | clap-mcp/src/lib.rs:323-353 | A protocol error exactly when matching or conversion fails. The message is "Invalid arguments: " or "Failed to parse subcommand: " followed by the parser's message. Otherwise there is one text item. With no handler it is the fixed "No command handler provided…" text, flagged as an error. With a handler it is the handler's Ok or Err text, flagged as an error exactly on Err. |
| Dispatcher.HandlerOnlyOnConvertedValue | clap-mcp/src/lib.rs:325-341 | The handler matters only after both parser steps succeed, and then only through its answer on the converted value. |
| Server.McpServer.constructor | clap-mcp/src/lib.rs:34-46 | A new server has no handler. |
| Server.McpServer.WithHandler | clap-mcp/src/lib.rs:48-51 | Registers the handler, replacing any earlier one. |
| Server.McpServer.IntoHandler | clap-mcp/src/lib.rs:53-62 | The protocol handler built for a transport carries the server's handler. |
| Server.ClapMcpHandler.constructor | clap-mcp/src/lib.rs:123-128 | The protocol handler keeps the given optional handler. |
| Server.ClapMcpHandler.ListTools | clap-mcp/src/lib.rs:225-235 | Lists exactly the extracted descriptors, one per subcommand. |
| Server.ClapMcpHandler.CallTool | clap-mcp/src/lib.rs:242-353 | The tokens handed to the parser are built from the first tool with the requested name, with missing arguments read as an empty object. The outcome is the dispatch of those tokens with the registered handler. A tool result carries one text item, and with no handler it is the fixed error text. |
| Server.FindsSubcommandTool | clap-mcp/src/lib.rs:246-247 | Calling a subcommand by its name uses that subcommand's own descriptor (the first subcommand of that name). |
| Server.UnknownNameFindsNoTool | clap-mcp/src/lib.rs:246-247 | A name no subcommand has finds no descriptor. |
| Server.SchemaDecidesPositional | clap-mcp/src/lib.rs:259-278 | Over the round trip, a surfaced argument's key is treated as positional exactly when it has no long or short token. It then sorts at the position extraction gave it. |
| Server.UnsurfacedKeyIsNamed | clap-mcp/src/lib.rs:259-267 | A key that names no surfaced argument is always treated as named. |
| Server.DescriptorDeclaresPositions | clap-mcp/src/lib.rs:172-181 | Every key an extracted descriptor marks positional carries its `x-position`. |
| Server.IndexlessDescriptorDistinct | clap-mcp/src/lib.rs:172-181 | If a subcommand has unique ids and its positionals declare no index, its descriptor gives each positional key its own position. |
| Server.CallArgumentOrderIrrelevant | clap-mcp/src/lib.rs:254-287 | For such a subcommand, any arrival order of the same argument object without repeated keys gives the same sorted positional list and the same named map. |
| Scenarios.RequiredSnoc | clap-mcp/src/lib.rs:186-188 | Appending an argument appends its id to `required` exactly when it is surfaced and required. |
| Scenarios.PartitionSnoc | clap-mcp/src/lib.rs:257-284 | One more argument entry goes to the positional list or to the named map, by the tool's descriptor. |
| Scenarios.EncodeNamedSingle | clap-mcp/src/lib.rs:300-321 | A one-key order encodes that key's tokens. |
| Scenarios.EncodeNamedPair | clap-mcp/src/lib.rs:300-321 | A two-key order encodes the first key's tokens, then the second's. |
| Scenarios.AddDescriptor | clap-mcp/src/lib.rs:369-376 | The add tool requires a then b, and neither is positional. |
| Scenarios.AddRequired | clap-mcp/src/lib.rs:369-376 | The add arguments give the required list a, b. |
| Scenarios.AddNamed | clap-mcp/src/lib.rs:369-376 | Neither add argument is positional. |
| Scenarios.HelloDescriptor | clap-mcp/src/lib.rs:405-412 | The hello tool requires only name. |
| Scenarios.CalculatorListsFiveTools | clap-mcp/src/lib.rs:733-744 | The five test subcommands give five tools. The first is named add, described "Add two numbers", and requires a and b. |
| Scenarios.AddPartition | clap-mcp/src/lib.rs:573 | Both arguments of `add {a: 10, b: 32}` are named. |
| Scenarios.AddEntryTokens | clap-mcp/src/lib.rs:573 | The add arguments encode as `--a 10` and `--b 32`. |
| Scenarios.AddTokens | clap-mcp/src/lib.rs:572-577 | The add call's tokens are `mcp add --a 10 --b 32` or `mcp add --b 32 --a 10`. |
| Scenarios.AddCallTokens | clap-mcp/src/lib.rs:572-577 | The add call's partition gives one of those two token vectors. |
| Scenarios.AddNamedSegment | clap-mcp/src/lib.rs:572-577 | The named segment of the add call is `--a 10 --b 32` or `--b 32 --a 10`. |
| Scenarios.NoPositionalTokens | clap-mcp/src/lib.rs:286-297 | With no positional entry, the token vector is the seed followed by the named segment. |
| Scenarios.FromUtf8Descriptor | clap-mcp/src/lib.rs:456-462 | text is positional at 0 and optional at 1. |
| Scenarios.FromUtf8OneArgumentTokens | clap-mcp/src/lib.rs:684-689 | `from-utf8 {text: "hello"}` gives `mcp from-utf8 hello`. |
| Scenarios.FromUtf8TwoArgumentsPartition | clap-mcp/src/lib.rs:692-698 | Both from-utf8 arguments are positional, in arrival order. |
| Scenarios.FromUtf8TwoArgumentsTokens | clap-mcp/src/lib.rs:692-700 | Whichever key arrives first, the tokens are `mcp from-utf8 hello world`. |
| Scenarios.FromUtf8CallTokens | clap-mcp/src/lib.rs:692-700 | The from-utf8 partition gives `mcp from-utf8 hello world` in either arrival order. |
| Scenarios.MixedDescriptor | clap-mcp/src/lib.rs:465-475 | input and output are positional at 0 and 1, and verbose is named. |
| Scenarios.MixedPartition | clap-mcp/src/lib.rs:703-706 | The mixed call has two positionals and one named entry. |
| Scenarios.MixedTokens | clap-mcp/src/lib.rs:702-711 | The mixed call gives `mcp mixed foo.txt bar.txt --verbose`. |
| Scenarios.MixedCallTokens | clap-mcp/src/lib.rs:702-711 | The mixed partition gives `mcp mixed foo.txt bar.txt --verbose`. |
| Scenarios.MixedIndexless | clap-mcp/src/lib.rs:465-475 | The mixed arguments have unique ids and their positionals declare no index. The test's object repeats no key. |
| Scenarios.MixedTokensAnyOrder | clap-mcp/src/lib.rs:702-711 | In whichever order the object yields its three entries, the mixed call gives `mcp mixed foo.txt bar.txt --verbose`. |
| Scenarios.AddSucceeds | clap-mcp/src/lib.rs:572-577 | Once add parses to `Add(10, 32)`, the outcome is a success with the one text "10 + 32 = 42". |
| Scenarios.DivideByZeroIsErrorResult | clap-mcp/src/lib.rs:587-594 | Dividing by zero gives an error-flagged result with "Division by zero", not a protocol error. |
| Scenarios.ExecuteCalc | clap-mcp/src/lib.rs:415-450 | The test handler fails exactly on a zero divisor, with "Division by zero". Every other command succeeds. |
| Scenarios.TruncDivRemainder | clap-mcp/src/lib.rs:438 | Rust's `/` leaves a remainder smaller in magnitude than the divisor that is zero or has the dividend's sign, so it truncates toward zero. |
| Scenarios.TruncDivTowardZero | clap-mcp/src/lib.rs:438 | Examples: -7 / 2 is -3, 7 / -2 is -3 and -7 / -2 is 3. |

## Left out

- `serve_stdio`, `serve_http` and `serve` (clap-mcp/src/lib.rs:53-105): async transport code (tokio, axum, SSE binding, ctrl-c, cancellation). `McpServer.IntoHandler` stands for the handler they construct.
- `get_info` (clap-mcp/src/lib.rs:210-223): a constant record.
- clap's `try_get_matches_from`, `from_arg_matches` and `augment_subcommands`: a foreign library. They are parameters or inputs.
- The claim that marshalled tokens always parse back into the same command cannot be stated. It depends on the parser, which is a parameter.
- JSON floating-point numbers: `JNumber` holds integers, rendered in decimal. Null, arrays and objects are `JOther`, carrying the text serde_json would print.
- `Extract.SkippedNeverSurfaces`: the hidden-argument case needs unique ids within the subcommand. A later surfaced argument with the same id would otherwise insert that id. clap rejects duplicate ids when it builds a command.
- `Scenarios.MixedTokens`: covers the one arrival order of the test's object. `Scenarios.MixedTokensAnyOrder` covers every other order.
- `Marshal.ArgumentOrderIrrelevant` and `Server.CallArgumentOrderIrrelevant` need distinct positions. When two positional keys share a position, the stable sort keeps their arrival order, and so does the model.
- `Scenarios.AddSucceeds` and `Scenarios.DivideByZeroIsErrorResult` take the parser's result as a premise, since the parser is a parameter.
- `Scenarios.ExecuteCalc`: the test commands' `i32` fields are unbounded integers. The `i32` range and overflow of `+`, `-`, `*` and `/` are not modelled. Division truncates toward zero as Rust's does (`Scenarios.TruncDiv`).
- The iteration order of the `properties` HashMap is not modelled: it is a Dafny `map`, and a later insert of the same id overwrites as in the source.
- `Arc` sharing and `Clone` of `ClapMcpHandler`: its handler is an immutable `const`, so sharing does not change what is observed.
- clap-mcp/src/test_client.rs, clap-mcp-derive/src/lib.rs, examples/calculator.rs, examples/http_mcp_client.rs and mcp_demo.py: network client, compile-time macro, demos and a process driver.
- The async test harness (clap-mcp/src/lib.rs:498-551): ports and sleeps.
- The rendering of `Content::text` and the `CallToolResult` wire format: only the error flag and the text items are modelled.
- The `as u64 ... as usize` casts in the position fallback are not modelled as bounded. Positions are unbounded naturals.
