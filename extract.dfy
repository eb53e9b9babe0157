/**
 * Tool-descriptor extraction (`ClapMcpHandler::extract_subcommands`): one
 * tool per subcommand, one property per surfaced argument, the positional
 * extensions and the "required" list.
 *
 * The spec functions fold over a prefix of the argument list so that the
 * loop in `ExtractTool` can be tied to them one argument at a time.
 */
module Extract {
  import opened Wrappers
  import opened Schema

  /** An argument that consumes the positional counter: surfaced, positional, no declared index. */
  predicate TakesCounter(a: Arg) {
    !Skipped(a) && IsPositional(a) && a.index.None?
  }

  /** The value of `positional_count` after the walk has seen `args`. */
  function Counter(args: seq<Arg>): nat
  {
    if args == [] then 0
    else Counter(args[..|args| - 1]) + (if TakesCounter(args[|args| - 1]) then 1 else 0)
  }

  /** The property an argument yields when the counter stands at `counter`. */
  function Shape(a: Arg, counter: nat): Property
  {
    Property(
      if a.minValues.GetOr(0) == 0 then Boolean else String,
      a.help,
      if IsPositional(a) then Some(true) else None,
      if IsPositional(a) then Some(a.index.GetOr(counter)) else None)
  }

  /** The "properties" map after the walk has seen `args` (a later insert overwrites). */
  function Props(args: seq<Arg>): map<string, Property>
  {
    if args == [] then map[]
    else
      var init, a := args[..|args| - 1], args[|args| - 1];
      if Skipped(a) then Props(init) else Props(init)[a.id := Shape(a, Counter(init))]
  }

  /** The "required" list after the walk has seen `args`. */
  function Required(args: seq<Arg>): seq<string>
  {
    if args == [] then []
    else
      var init, a := args[..|args| - 1], args[|args| - 1];
      Required(init) + (if !Skipped(a) && a.required then [a.id] else [])
  }

  /** The descriptor of one subcommand. */
  function ToolOf(sub: Subcommand): Tool
  {
    Tool(sub.name, sub.about.GetOr(""), Props(sub.args), Required(sub.args))
  }

  /** The descriptors of a whole command. */
  function Tools(cmd: Command): seq<Tool>
  {
    seq(|cmd.subcommands|, i requires 0 <= i < |cmd.subcommands| => ToolOf(cmd.subcommands[i]))
  }

  /** The ids of the surfaced arguments. */
  ghost function SurfacedIds(args: seq<Arg>): set<string>
  {
    set j | 0 <= j < |args| && !Skipped(args[j]) :: args[j].id
  }

  /** The ids of the surfaced arguments marked required. */
  ghost function RequiredIds(args: seq<Arg>): set<string>
  {
    set j | 0 <= j < |args| && !Skipped(args[j]) && args[j].required :: args[j].id
  }

  /** Builds the descriptor of one subcommand by walking its arguments in order. */
  method ExtractTool(sub: Subcommand) returns (tool: Tool)
    ensures tool == ToolOf(sub)
  {
    var description := sub.about.GetOr("");
    var properties: map<string, Property> := map[];
    var required: seq<string> := [];
    var positionalCount: nat := 0;
    for i := 0 to |sub.args|
      invariant properties == Props(sub.args[..i])
      invariant required == Required(sub.args[..i])
      invariant positionalCount == Counter(sub.args[..i])
    {
      var arg := sub.args[i];
      assert sub.args[..i + 1][..i] == sub.args[..i];
      if arg.hidden || arg.id == "help" || arg.id == "version" {
        continue;
      }
      var isPositional := arg.long.None? && arg.short.None?;
      var argType := if arg.minValues.GetOr(0) == 0 then Boolean else String;
      var xPositional: Option<bool> := None;
      var xPosition: Option<nat> := None;
      if isPositional {
        xPositional := Some(true);
        var position: nat;
        if arg.index.Some? {
          position := arg.index.value;
        } else {
          position := positionalCount;
          positionalCount := positionalCount + 1;
        }
        xPosition := Some(position);
      }
      properties := properties[arg.id := Property(argType, arg.help, xPositional, xPosition)];
      if arg.required {
        required := required + [arg.id];
      }
    }
    assert sub.args[..|sub.args|] == sub.args;
    tool := Tool(sub.name, description, properties, required);
  }

  /** Builds one descriptor per subcommand, in subcommand order. */
  method ExtractSubcommands(cmd: Command) returns (tools: seq<Tool>)
    ensures tools == Tools(cmd)
    ensures |tools| == |cmd.subcommands|
    ensures forall i :: 0 <= i < |tools| ==>
      tools[i].name == cmd.subcommands[i].name && tools[i].description == cmd.subcommands[i].about.GetOr("")
  {
    tools := [];
    for i := 0 to |cmd.subcommands|
      invariant tools == Tools(Command(cmd.subcommands[..i]))
    {
      var tool := ExtractTool(cmd.subcommands[i]);
      tools := tools + [tool];
    }
    assert cmd.subcommands[..|cmd.subcommands|] == cmd.subcommands;
  }

  /** The keys of "properties" are exactly the ids of the surfaced arguments. */
  lemma {:induction false} PropsKeys(args: seq<Arg>)
    ensures Props(args).Keys == SurfacedIds(args)
  {
    if args != [] {
      var init, a := args[..|args| - 1], args[|args| - 1];
      PropsKeys(init);
      assert forall j :: 0 <= j < |init| ==> init[j] == args[j];
      if Skipped(a) {
        assert SurfacedIds(args) == SurfacedIds(init);
      } else {
        assert SurfacedIds(args) == SurfacedIds(init) + {a.id};
      }
    }
  }

  /** An id occurs in "required" exactly when a surfaced argument with that id is marked required. */
  lemma {:induction false} RequiredMembers(args: seq<Arg>)
    ensures forall k :: k in Required(args) <==> k in RequiredIds(args)
  {
    if args != [] {
      var init, a := args[..|args| - 1], args[|args| - 1];
      RequiredMembers(init);
      assert forall j :: 0 <= j < |init| ==> init[j] == args[j];
      if !Skipped(a) && a.required {
        assert RequiredIds(args) == RequiredIds(init) + {a.id};
      } else {
        assert RequiredIds(args) == RequiredIds(init);
      }
    }
  }

  /** Every entry of "required" is a key of "properties". */
  lemma RequiredAreProperties(args: seq<Arg>)
    ensures forall k :: k in Required(args) ==> k in Props(args)
  {
    PropsKeys(args);
    RequiredMembers(args);
  }

  /**
   * Help, version and hidden arguments never reach "properties" or "required"
   * (for a hidden argument: as long as no other argument shares its id).
   */
  lemma SkippedNeverSurfaces(args: seq<Arg>, j: nat)
    requires UniqueIds(args)
    requires j < |args| && Skipped(args[j])
    ensures args[j].id !in Props(args) && args[j].id !in Required(args)
  {
    PropsKeys(args);
    RequiredMembers(args);
  }

  /** The implicit help and version arguments never appear, whatever the schema. */
  lemma HelpAndVersionNeverSurface(args: seq<Arg>)
    ensures "help" !in Props(args) && "version" !in Props(args)
    ensures "help" !in Required(args) && "version" !in Required(args)
  {
    PropsKeys(args);
    RequiredMembers(args);
  }

  /**
   * The property of a surfaced argument: "boolean" exactly when its minimum
   * value count is 0 or absent, its help as description, and the positional
   * extensions exactly when it has no long or short token, at its declared
   * index or else at the counter value reached before it.
   */
  lemma {:induction false} PropertyOfArg(args: seq<Arg>, j: nat)
    requires UniqueIds(args)
    requires j < |args| && !Skipped(args[j])
    ensures args[j].id in Props(args)
    ensures Props(args)[args[j].id] == Shape(args[j], Counter(args[..j]))
    ensures Props(args)[args[j].id].ty == Boolean <==> args[j].minValues.GetOr(0) == 0
    ensures Props(args)[args[j].id].description == args[j].help
    ensures Props(args)[args[j].id].xPositional == Some(true) <==> IsPositional(args[j])
    ensures Props(args)[args[j].id].xPositional.Some? <==> IsPositional(args[j])
    ensures Props(args)[args[j].id].xPosition ==
      if IsPositional(args[j]) then Some(args[j].index.GetOr(Counter(args[..j]))) else None
  {
    var init, a := args[..|args| - 1], args[|args| - 1];
    if j == |args| - 1 {
      assert args[..j] == init;
    } else {
      assert UniqueIds(init) by {
        assert forall i :: 0 <= i < |init| ==> init[i] == args[i];
      }
      PropertyOfArg(init, j);
      assert init[j] == args[j] && init[..j] == args[..j];
      assert a.id != args[j].id;
    }
  }

  /** The counter never decreases along the argument list. */
  lemma {:induction false} CounterMonotone(args: seq<Arg>, m: nat, n: nat)
    requires m <= n <= |args|
    ensures Counter(args[..m]) <= Counter(args[..n])
  {
    if m < n {
      CounterMonotone(args, m, n - 1);
      assert args[..n][..n - 1] == args[..n - 1];
    }
  }

  /**
   * Index-less positional arguments receive strictly increasing positions in
   * declaration order, all below the final counter value.
   */
  lemma IndexlessPositionsIncrease(args: seq<Arg>, j1: nat, j2: nat)
    requires j1 < j2 < |args|
    requires TakesCounter(args[j1]) && TakesCounter(args[j2])
    ensures Counter(args[..j1]) < Counter(args[..j2]) < Counter(args)
  {
    CounterStep(args, j1);
    CounterStep(args, j2);
    CounterMonotone(args, j1 + 1, j2);
    CounterMonotone(args, j2 + 1, |args|);
    assert args[..|args|] == args;
  }

  /** One more argument adds one to the counter exactly when it takes the counter. */
  lemma CounterStep(args: seq<Arg>, n: nat)
    requires n < |args|
    ensures Counter(args[..n + 1]) == Counter(args[..n]) + (if TakesCounter(args[n]) then 1 else 0)
  {
    assert args[..n + 1][..n] == args[..n];
    assert args[..n + 1][n] == args[n];
  }

  /** Every property marked positional also carries a position. */
  lemma {:induction false} PositionalsHavePosition(args: seq<Arg>)
    ensures forall k :: k in Props(args) ==>
      (Props(args)[k].xPositional.Some? <==> Props(args)[k].xPosition.Some?)
  {
    if args != [] {
      PositionalsHavePosition(args[..|args| - 1]);
    }
  }

  /**
   * When no positional argument declares an index, distinct positional
   * properties receive distinct positions.
   */
  lemma IndexlessPositionsDistinct(args: seq<Arg>, k1: string, k2: string)
    requires UniqueIds(args)
    requires forall j :: 0 <= j < |args| && !Skipped(args[j]) && IsPositional(args[j]) ==> args[j].index.None?
    requires k1 in Props(args) && k2 in Props(args) && k1 != k2
    requires Props(args)[k1].xPositional == Some(true) && Props(args)[k2].xPositional == Some(true)
    ensures Props(args)[k1].xPosition != Props(args)[k2].xPosition
  {
    PropsKeys(args);
    var j1 :| 0 <= j1 < |args| && !Skipped(args[j1]) && args[j1].id == k1;
    var j2 :| 0 <= j2 < |args| && !Skipped(args[j2]) && args[j2].id == k2;
    PropertyOfArg(args, j1);
    PropertyOfArg(args, j2);
    if j1 < j2 {
      IndexlessPositionsIncrease(args, j1, j2);
    } else {
      IndexlessPositionsIncrease(args, j2, j1);
    }
  }
}
