/**
 * Dispatch (lines 323-353 of `call_tool`): the token vector goes to clap's
 * parser, the match to the conversion into the command value, and the value
 * to the registered handler; each outcome becomes a tool result or a
 * protocol error.
 *
 * clap's `try_get_matches_from` is the parameter `matcher`, `from_arg_matches`
 * is `convert`; each returns the error's display text on failure.
 */
module Dispatcher {
  import opened Wrappers

  /**
   * What `call_tool` returns: `Ok(CallToolResult)` with its error flag and
   * its text items, or `Err(McpError::invalid_params(message, None))`.
   */
  datatype CallOutcome =
    | ToolResult(isError: bool, content: seq<string>)
    | ProtocolError(message: string)

  const InvalidArgumentsPrefix: string := "Invalid arguments: "
  const ConversionFailedPrefix: string := "Failed to parse subcommand: "
  const NoHandlerMessage: string :=
    "No command handler provided. The CLI must provide a handler function to execute commands in MCP mode."

  predicate StartsWith(s: string, prefix: string) {
    |prefix| <= |s| && s[..|prefix|] == prefix
  }

  /**
   * A protocol error exactly when matching or conversion fails, with the
   * matching prefix and the parser's own message after it; otherwise a tool
   * result carrying exactly one text item, flagged as an error unless a
   * handler is registered and returns `Ok`.
   */
  function Dispatch<M, C>(
    tokens: seq<string>,
    matcher: seq<string> -> Result<M, string>,
    convert: M -> Result<C, string>,
    handler: Option<C -> Result<string, string>>): (r: CallOutcome)
    ensures r.ProtocolError? <==> matcher(tokens).Err? || convert(matcher(tokens).value).Err?
    ensures matcher(tokens).Err? ==>
      StartsWith(r.message, InvalidArgumentsPrefix) && r.message[|InvalidArgumentsPrefix|..] == matcher(tokens).error
    ensures matcher(tokens).Ok? && convert(matcher(tokens).value).Err? ==>
      StartsWith(r.message, ConversionFailedPrefix) &&
      r.message[|ConversionFailedPrefix|..] == convert(matcher(tokens).value).error
    ensures r.ToolResult? ==> |r.content| == 1
    ensures r.ToolResult? && handler.None? ==> r.isError && r.content == [NoHandlerMessage]
    ensures r.ToolResult? && handler.Some? ==>
      var out := handler.value(convert(matcher(tokens).value).value);
      r.isError == out.Err? && r.content == [if out.Ok? then out.value else out.error]
  {
    match matcher(tokens)
    case Err(e) => ProtocolError(InvalidArgumentsPrefix + e)
    case Ok(matches) =>
      match convert(matches)
      case Err(e) => ProtocolError(ConversionFailedPrefix + e)
      case Ok(command) =>
        match handler
        case None => ToolResult(true, [NoHandlerMessage])
        case Some(h) =>
          match h(command)
          case Ok(output) => ToolResult(false, [output])
          case Err(e) => ToolResult(true, [e])
  }

  /**
   * The handler is consulted only after matching and conversion succeed, and
   * then only on the converted value: two handlers that agree on it give the
   * same outcome, and any two handlers give the same outcome when either step
   * fails.
   */
  lemma HandlerOnlyOnConvertedValue<M, C>(
    tokens: seq<string>,
    matcher: seq<string> -> Result<M, string>,
    convert: M -> Result<C, string>,
    h1: C -> Result<string, string>,
    h2: C -> Result<string, string>)
    ensures (matcher(tokens).Err? || convert(matcher(tokens).value).Err?) ==>
      Dispatch(tokens, matcher, convert, Some(h1)) == Dispatch(tokens, matcher, convert, Some(h2)) &&
      Dispatch(tokens, matcher, convert, Some(h1)) == Dispatch(tokens, matcher, convert, None)
    ensures (matcher(tokens).Ok? && convert(matcher(tokens).value).Ok? &&
             h1(convert(matcher(tokens).value).value) == h2(convert(matcher(tokens).value).value)) ==>
      Dispatch(tokens, matcher, convert, Some(h1)) == Dispatch(tokens, matcher, convert, Some(h2))
  {
  }
}
