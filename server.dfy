/**
 * The server objects: `McpServer`, which collects the optional command
 * handler, and `ClapMcpHandler`, which answers "list tools" and "call tool"
 * with a fixed handler. Transports (stdio, HTTP/SSE) are outside the model.
 */
module Server {
  import opened Wrappers
  import opened Schema
  import opened Extract
  import opened Marshal
  import opened Dispatcher

  /** The builder the embedding program configures before serving. */
  class McpServer<C> {
    var handler: Option<C -> Result<string, string>>

    /** `McpServer::new`: no handler registered. */
    constructor ()
      ensures handler == None
    {
      handler := None;
    }

    /** `with_handler`: registers `h`, replacing any earlier handler. */
    method WithHandler(h: C -> Result<string, string>)
      modifies this
      ensures handler == Some(h)
    {
      handler := Some(h);
    }

    /** What `serve_stdio` and `serve_http` build before binding a transport. */
    method IntoHandler() returns (r: ClapMcpHandler<C>)
      ensures fresh(r) && r.handler == handler
    {
      r := new ClapMcpHandler(handler);
    }
  }

  /** The protocol handler; its handler reference never changes after construction. */
  class ClapMcpHandler<C> {
    const handler: Option<C -> Result<string, string>>

    /** `ClapMcpHandler::new`: keeps the handler (shared, read-only). */
    constructor (handler: Option<C -> Result<string, string>>)
      ensures this.handler == handler
    {
      this.handler := handler;
    }

    /** `list_tools`: the descriptors extracted afresh from the command tree. */
    method ListTools(cmd: Command) returns (tools: seq<Tool>)
      ensures tools == Tools(cmd)
      ensures |tools| == |cmd.subcommands|
    {
      tools := ExtractSubcommands(cmd);
    }

    /**
     * `call_tool`: the token vector is built from the descriptor of the first
     * tool with the requested name (all arguments are named when there is
     * none), then dispatched. `tokens` and `namedOrder` are ghost witnesses
     * of the vector passed to the parser and of the named map's visiting order.
     */
    method CallTool<M>(
      cmd: Command,
      matcher: seq<string> -> Result<M, string>,
      convert: M -> Result<C, string>,
      name: string,
      arguments: Option<seq<(string, JsonValue)>>)
      returns (outcome: CallOutcome, ghost tokens: seq<string>, ghost namedOrder: seq<string>)
      ensures
        var p := Partition(FindTool(Tools(cmd), name), arguments.GetOr([]));
        IsEnumeration(namedOrder, p.named.Keys) &&
        tokens == Seed(name) + PositionalTokens(SortByPosition(p.positional)) + EncodeNamed(namedOrder, p.named)
      ensures outcome == Dispatch(tokens, matcher, convert, handler)
      ensures outcome.ToolResult? ==> |outcome.content| == 1
      ensures outcome.ToolResult? && handler.None? ==> outcome == ToolResult(true, [NoHandlerMessage])
    {
      var args := arguments.GetOr([]);
      var tools := ExtractSubcommands(cmd);
      var tool := FindTool(tools, name);
      var built;
      built, namedOrder := BuildArgs(tool, name, args);
      tokens := built;
      outcome := Dispatch(built, matcher, convert, handler);
    }
  }

  // ----- the two directions together -----

  /** The tool for a subcommand name is that subcommand's descriptor (the first one of that name). */
  lemma FindsSubcommandTool(cmd: Command, i: nat)
    requires i < |cmd.subcommands|
    requires forall j :: 0 <= j < i ==> cmd.subcommands[j].name != cmd.subcommands[i].name
    ensures FindTool(Tools(cmd), cmd.subcommands[i].name) == Some(ToolOf(cmd.subcommands[i]))
  {
    var r := FindTool(Tools(cmd), cmd.subcommands[i].name);
    assert forall j :: 0 <= j < |Tools(cmd)| ==> Tools(cmd)[j].name == cmd.subcommands[j].name;
    var k :| FirstNamedAt(Tools(cmd), cmd.subcommands[i].name, k) && Tools(cmd)[k] == r.value;
    assert k == i;
  }

  /** A name that no subcommand has finds no tool, so every argument is named. */
  lemma UnknownNameFindsNoTool(cmd: Command, name: string)
    requires forall j :: 0 <= j < |cmd.subcommands| ==> cmd.subcommands[j].name != name
    ensures FindTool(Tools(cmd), name) == None
  {
    assert forall j :: 0 <= j < |Tools(cmd)| ==> Tools(cmd)[j].name == cmd.subcommands[j].name;
  }

  /**
   * For the descriptor extraction produced, a surfaced argument's key is
   * treated as positional exactly when the argument has no long or short
   * token, and it then sorts at the position extraction assigned it.
   */
  lemma SchemaDecidesPositional(sub: Subcommand, j: nat)
    requires UniqueIds(sub.args)
    requires j < |sub.args| && !Skipped(sub.args[j])
    ensures IsPositionalKey(Some(ToolOf(sub)), sub.args[j].id) <==> IsPositional(sub.args[j])
    ensures IsPositional(sub.args[j]) ==>
      DeclaredPosition(Some(ToolOf(sub)), sub.args[j].id) == Some(sub.args[j].index.GetOr(Counter(sub.args[..j])))
  {
    PropertyOfArg(sub.args, j);
  }

  /** A key that names no surfaced argument is always treated as named. */
  lemma UnsurfacedKeyIsNamed(sub: Subcommand, key: string)
    requires forall j :: 0 <= j < |sub.args| && !Skipped(sub.args[j]) ==> sub.args[j].id != key
    ensures !IsPositionalKey(Some(ToolOf(sub)), key)
  {
    PropsKeys(sub.args);
    assert key !in SurfacedIds(sub.args);
  }

  /** Every key a descriptor marks positional carries its "x-position". */
  lemma DescriptorDeclaresPositions(sub: Subcommand)
    ensures AllDeclared(Some(ToolOf(sub)))
  {
    PositionalsHavePosition(sub.args);
  }

  /** A subcommand whose positionals declare no index gets one distinct position per positional key. */
  lemma IndexlessDescriptorDistinct(sub: Subcommand)
    requires UniqueIds(sub.args)
    requires forall j :: 0 <= j < |sub.args| && !Skipped(sub.args[j]) && IsPositional(sub.args[j]) ==> sub.args[j].index.None?
    ensures DistinctDeclared(Some(ToolOf(sub)))
  {
    forall k1, k2 | IsPositionalKey(Some(ToolOf(sub)), k1) && IsPositionalKey(Some(ToolOf(sub)), k2) && k1 != k2
      ensures DeclaredPosition(Some(ToolOf(sub)), k1) != DeclaredPosition(Some(ToolOf(sub)), k2)
    {
      IndexlessPositionsDistinct(sub.args, k1, k2);
    }
  }

  /**
   * For such a subcommand, the order in which the argument object yields
   * its entries changes neither the positional values nor the named map.
   */
  lemma CallArgumentOrderIrrelevant(sub: Subcommand, a1: seq<(string, JsonValue)>, a2: seq<(string, JsonValue)>)
    requires UniqueIds(sub.args)
    requires forall j :: 0 <= j < |sub.args| && !Skipped(sub.args[j]) && IsPositional(sub.args[j]) ==> sub.args[j].index.None?
    requires DistinctKeys(a1) && DistinctKeys(a2) && multiset(a1) == multiset(a2)
    ensures SortByPosition(Partition(Some(ToolOf(sub)), a1).positional)
      == SortByPosition(Partition(Some(ToolOf(sub)), a2).positional)
    ensures Partition(Some(ToolOf(sub)), a1).named == Partition(Some(ToolOf(sub)), a2).named
  {
    DescriptorDeclaresPositions(sub);
    IndexlessDescriptorDistinct(sub);
    ArgumentOrderIrrelevant(Some(ToolOf(sub)), a1, a2);
  }
}
