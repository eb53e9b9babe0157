/**
 * The repository's own test cases, restated over the model: the calculator
 * command set, the positional command set, and the outcomes of a few calls.
 * An argument object is a list of key/value pairs in the order the object
 * yields them; where a test's object has two plausible orders, both are covered.
 */
module Scenarios {
  import opened Wrappers
  import opened Schema
  import opened Extract
  import opened Marshal
  import opened Dispatcher
  import opened Server

  /** A `--name`/`-n` argument taking one value, required, with help text. */
  function ValueArg(id: string, short: Option<char>, help: string): Arg
  {
    Arg(id, Some(id), short, Some(1), None, false, true, Some(help))
  }

  /** `TestCommands::Add`. */
  function AddCommand(): Subcommand
  {
    Subcommand("add", Some("Add two numbers"),
      [ValueArg("a", Some('a'), "First number"), ValueArg("b", Some('b'), "Second number")])
  }

  /** `TestCommands::Hello`: a required value and an optional flag. */
  function HelloCommand(): Subcommand
  {
    Subcommand("hello", Some("Say hello to someone"),
      [ValueArg("name", None, "Name to greet"),
       Arg("excited", Some("excited"), None, Some(0), None, false, false, Some("Whether to be excited"))])
  }

  /** `TestCommands`: add, subtract, multiply, divide and hello. */
  function Calculator(): Command
  {
    Command([
      AddCommand(),
      Subcommand("subtract", Some("Subtract two numbers"),
        [ValueArg("minuend", None, "Number to subtract from"), ValueArg("subtrahend", None, "Number to subtract")]),
      Subcommand("multiply", Some("Multiply two numbers"),
        [ValueArg("value1", None, "First value"), ValueArg("value2", None, "Second value")]),
      Subcommand("divide", Some("Divide two numbers"),
        [ValueArg("dividend", None, "Number to divide"), ValueArg("divisor", None, "Number to divide by")]),
      HelloCommand()
    ])
  }

  /** `PositionalCommands::FromUtf8`: a required and an optional positional. */
  function FromUtf8(): Subcommand
  {
    Subcommand("from-utf8", Some("Convert text from UTF-8"), [
      Arg("text", None, None, Some(1), None, false, true, Some("The text to convert")),
      Arg("optional", None, None, Some(1), None, false, false, Some("Optional second positional argument"))
    ])
  }

  /** `PositionalCommands::Mixed`: a flag between two positionals. */
  function Mixed(): Subcommand
  {
    Subcommand("mixed", Some("Example with mixed args"), [
      Arg("input", None, None, Some(1), None, false, true, Some("First positional")),
      Arg("verbose", Some("verbose"), Some('v'), Some(0), None, false, false, Some("A flag")),
      Arg("output", None, None, Some(1), None, false, true, Some("Second positional"))
    ])
  }

  // Unfolding steps for the prefix-recursive definitions on a list built by appending.

  lemma RequiredSnoc(init: seq<Arg>, a: Arg)
    ensures Required(init + [a]) == Required(init) + (if !Skipped(a) && a.required then [a.id] else [])
  {
    assert (init + [a])[..|init|] == init;
  }

  lemma PartitionSnoc(tool: Option<Tool>, init: seq<(string, JsonValue)>, e: (string, JsonValue))
    ensures Partition(tool, init + [e]) ==
      var p := Partition(tool, init);
      if IsPositionalKey(tool, e.0) then
        Partitioned(p.positional + [PosArg(e.0, e.1, DeclaredPosition(tool, e.0).GetOr(|p.positional|))], p.named)
      else
        Partitioned(p.positional, p.named[e.0 := e.1])
  {
    assert (init + [e])[..|init|] == init;
  }

  lemma EncodeNamedSingle(k: string, named: map<string, JsonValue>)
    ensures EncodeNamed([k], named) == EntryTokens(k, named)
  {
    assert [k][..0] == [];
  }

  lemma EncodeNamedPair(k1: string, k2: string, named: map<string, JsonValue>)
    ensures EncodeNamed([k1, k2], named) == EntryTokens(k1, named) + EntryTokens(k2, named)
  {
    assert [k1, k2][..1] == [k1];
    EncodeNamedSingle(k1, named);
  }

  /** The add descriptor requires a and b and has exactly those two properties. */
  lemma AddDescriptor()
    ensures ToolOf(AddCommand()).required == ["a", "b"]
    ensures !IsPositionalKey(Some(ToolOf(AddCommand())), "a") && !IsPositionalKey(Some(ToolOf(AddCommand())), "b")
  {
    AddRequired();
    AddNamed(0);
    AddNamed(1);
  }

  lemma AddRequired()
    ensures Required(AddCommand().args) == ["a", "b"]
  {
    var add := AddCommand().args;
    RequiredSnoc([], add[0]);
    RequiredSnoc([add[0]], add[1]);
    assert [] + [add[0]] == [add[0]] && [add[0]] + [add[1]] == add;
  }

  lemma AddNamed(j: nat)
    requires j < 2
    ensures !IsPositionalKey(Some(ToolOf(AddCommand())), AddCommand().args[j].id)
  {
    var add := AddCommand().args;
    assert UniqueIds(add);
    PropertyOfArg(add, j);
  }

  /** The hello descriptor requires only name; its flag is optional. */
  lemma HelloDescriptor()
    ensures ToolOf(HelloCommand()).required == ["name"]
  {
    var hello := HelloCommand().args;
    assert !Skipped(hello[0]) && !Skipped(hello[1]) && hello[0].required && !hello[1].required;
    RequiredSnoc([], hello[0]);
    RequiredSnoc([hello[0]], hello[1]);
    assert [] + [hello[0]] == [hello[0]] && [hello[0]] + [hello[1]] == hello;
    assert Required([hello[0]]) == ["name"];
  }

  /** Listing the calculator gives five tools; "add" is described and requires a and b. */
  lemma CalculatorListsFiveTools()
    ensures |Tools(Calculator())| == 5
    ensures Tools(Calculator())[0].name == "add" && Tools(Calculator())[0].description == "Add two numbers"
    ensures Tools(Calculator())[0].required == ["a", "b"]
    ensures Tools(Calculator())[4].required == ["name"]
  {
    AddDescriptor();
    HelloDescriptor();
    assert Tools(Calculator())[0] == ToolOf(AddCommand());
    assert Tools(Calculator())[4] == ToolOf(HelloCommand());
  }

  /** The arguments of `add {a: 10, b: 32}` are both named. */
  lemma AddPartition()
    ensures Partition(Some(ToolOf(AddCommand())), [("a", JNumber(10)), ("b", JNumber(32))])
      == Partitioned([], map["a" := JNumber(10), "b" := JNumber(32)])
  {
    AddDescriptor();
    var tool := Some(ToolOf(AddCommand()));
    var x, y := ("a", JNumber(10)), ("b", JNumber(32));
    PartitionSnoc(tool, [], x);
    PartitionSnoc(tool, [x], y);
    assert [] + [x] == [x] && [x] + [y] == [x, y];
  }

  /** The call `add {a: 10, b: 32}`: all named; the two keys in either order. */
  lemma AddTokens(order: seq<string>)
    requires IsEnumeration(order, Partition(Some(ToolOf(AddCommand())),
                                            [("a", JNumber(10)), ("b", JNumber(32))]).named.Keys)
    ensures
      var p := Partition(Some(ToolOf(AddCommand())), [("a", JNumber(10)), ("b", JNumber(32))]);
      var tokens := Seed("add") + PositionalTokens(SortByPosition(p.positional)) + EncodeNamed(order, p.named);
      tokens == ["mcp", "add", "--a", "10", "--b", "32"] || tokens == ["mcp", "add", "--b", "32", "--a", "10"]
  {
    AddPartition();
    AddCallTokens(Partition(Some(ToolOf(AddCommand())), [("a", JNumber(10)), ("b", JNumber(32))]), order);
  }

  /** The token vector of the add call from its partition. */
  lemma AddCallTokens(p: Partitioned, order: seq<string>)
    requires p == Partitioned([], map["a" := JNumber(10), "b" := JNumber(32)])
    requires IsEnumeration(order, p.named.Keys)
    ensures
      var tokens := Seed("add") + PositionalTokens(SortByPosition(p.positional)) + EncodeNamed(order, p.named);
      tokens == ["mcp", "add", "--a", "10", "--b", "32"] || tokens == ["mcp", "add", "--b", "32", "--a", "10"]
  {
    assert p.named.Keys == {"a", "b"};
    AddNamedSegment(order);
    NoPositionalTokens("add", p, order);
  }

  /** With no positional entry the token vector is the seed followed by the named segment. */
  lemma NoPositionalTokens(name: string, p: Partitioned, order: seq<string>)
    requires p.positional == []
    ensures Seed(name) + PositionalTokens(SortByPosition(p.positional)) + EncodeNamed(order, p.named)
      == ["mcp", name] + EncodeNamed(order, p.named)
  {
  }

  /** The named segment of the add call, for either visiting order of its two keys. */
  lemma AddNamedSegment(order: seq<string>)
    requires IsEnumeration(order, {"a", "b"})
    ensures
      var tokens := EncodeNamed(order, map["a" := JNumber(10), "b" := JNumber(32)]);
      tokens == ["--a", "10", "--b", "32"] || tokens == ["--b", "32", "--a", "10"]
  {
    var named := map["a" := JNumber(10), "b" := JNumber(32)];
    PairEnumeration(order, "a", "b");
    AddEntryTokens();
    if order == ["a", "b"] {
      EncodeNamedPair("a", "b", named);
    } else {
      EncodeNamedPair("b", "a", named);
    }
  }

  /** The tokens of each entry of the add arguments. */
  lemma AddEntryTokens()
    ensures EntryTokens("a", map["a" := JNumber(10), "b" := JNumber(32)]) == ["--a", "10"]
    ensures EntryTokens("b", map["a" := JNumber(10), "b" := JNumber(32)]) == ["--b", "32"]
  {
    assert NatToDecimal(10) == "10" && NatToDecimal(32) == "32";
    assert Flag("a") == "--a" && Flag("b") == "--b";
  }

  /** In the from-utf8 descriptor, text is positional at 0 and optional at 1. */
  lemma FromUtf8Descriptor()
    ensures IsPositionalKey(Some(ToolOf(FromUtf8())), "text")
    ensures DeclaredPosition(Some(ToolOf(FromUtf8())), "text") == Some(0)
    ensures IsPositionalKey(Some(ToolOf(FromUtf8())), "optional")
    ensures DeclaredPosition(Some(ToolOf(FromUtf8())), "optional") == Some(1)
  {
    var a := FromUtf8().args;
    assert UniqueIds(a);
    PropertyOfArg(a, 0);
    PropertyOfArg(a, 1);
    assert a[..0] == [];
    assert Counter(a[..1]) == 1 by {
      assert a[..1][..0] == [];
    }
  }

  /** `from-utf8 {text: "hello"}` gives `[mcp, from-utf8, hello]`. */
  lemma FromUtf8OneArgumentTokens(order: seq<string>)
    requires IsEnumeration(order, Partition(Some(ToolOf(FromUtf8())), [("text", JString("hello"))]).named.Keys)
    ensures
      var p := Partition(Some(ToolOf(FromUtf8())), [("text", JString("hello"))]);
      Seed("from-utf8") + PositionalTokens(SortByPosition(p.positional)) + EncodeNamed(order, p.named)
        == ["mcp", "from-utf8", "hello"]
  {
    FromUtf8Descriptor();
    var tool := Some(ToolOf(FromUtf8()));
    var x := ("text", JString("hello"));
    PartitionSnoc(tool, [], x);
    assert [] + [x] == [x];
    var p := Partition(tool, [x]);
    assert p.positional == [PosArg("text", JString("hello"), 0)];
    assert p.named == map[];
    EnumerationSize(order, p.named.Keys);
  }

  /** The two positional entries of `from-utf8 {text: "hello", optional: "world"}`. */
  function HelloText(): PosArg { PosArg("text", JString("hello"), 0) }
  function WorldOptional(): PosArg { PosArg("optional", JString("world"), 1) }

  /** Both arguments of the two-argument from-utf8 call are positional, in arrival order. */
  lemma FromUtf8TwoArgumentsPartition(swapped: bool)
    ensures
      var x, y := ("text", JString("hello")), ("optional", JString("world"));
      var p := Partition(Some(ToolOf(FromUtf8())), if swapped then [y, x] else [x, y]);
      p.named == map[] &&
      p.positional == if swapped then [WorldOptional(), HelloText()] else [HelloText(), WorldOptional()]
  {
    FromUtf8Descriptor();
    var tool := Some(ToolOf(FromUtf8()));
    var x, y := ("text", JString("hello")), ("optional", JString("world"));
    var first, second := if swapped then y else x, if swapped then x else y;
    PartitionSnoc(tool, [], first);
    PartitionSnoc(tool, [first], second);
    assert [] + [first] == [first] && [first] + [second] == [first, second];
  }

  /**
   * `from-utf8 {text: "hello", optional: "world"}`, whichever of the two keys
   * the argument object yields first: the sort by position puts "hello" first.
   */
  lemma FromUtf8TwoArgumentsTokens(swapped: bool, order: seq<string>)
    requires
      var x, y := ("text", JString("hello")), ("optional", JString("world"));
      IsEnumeration(order, Partition(Some(ToolOf(FromUtf8())), if swapped then [y, x] else [x, y]).named.Keys)
    ensures
      var x, y := ("text", JString("hello")), ("optional", JString("world"));
      var p := Partition(Some(ToolOf(FromUtf8())), if swapped then [y, x] else [x, y]);
      Seed("from-utf8") + PositionalTokens(SortByPosition(p.positional)) + EncodeNamed(order, p.named)
        == ["mcp", "from-utf8", "hello", "world"]
  {
    FromUtf8TwoArgumentsPartition(swapped);
    var x, y := ("text", JString("hello")), ("optional", JString("world"));
    FromUtf8CallTokens(Partition(Some(ToolOf(FromUtf8())), if swapped then [y, x] else [x, y]), order);
  }

  /** The token vector of the two-argument from-utf8 call from its partition, in either arrival order. */
  lemma FromUtf8CallTokens(p: Partitioned, order: seq<string>)
    requires p.named == map[]
    requires p.positional == [WorldOptional(), HelloText()] || p.positional == [HelloText(), WorldOptional()]
    requires IsEnumeration(order, p.named.Keys)
    ensures Seed("from-utf8") + PositionalTokens(SortByPosition(p.positional)) + EncodeNamed(order, p.named)
      == ["mcp", "from-utf8", "hello", "world"]
  {
    var px, py := HelloText(), WorldOptional();
    assert SortByPosition([py, px]) == [px, py] by {
      assert [py, px][1..] == [px];
      assert SortByPosition([px]) == [px] by { assert [px][1..] == []; }
      assert Insert(py, [px]) == [px] + Insert(py, []) by { assert [px][1..] == []; }
    }
    assert SortByPosition([px, py]) == [px, py] by {
      assert [px, py][1..] == [py];
      assert SortByPosition([py]) == [py] by { assert [py][1..] == []; }
    }
    var empty: map<string, JsonValue> := map[];
    EnumerationSize(order, empty.Keys);
  }

  /** In the mixed descriptor, input and output are positional at 0 and 1; verbose is named. */
  lemma MixedDescriptor()
    ensures IsPositionalKey(Some(ToolOf(Mixed())), "input")
    ensures DeclaredPosition(Some(ToolOf(Mixed())), "input") == Some(0)
    ensures IsPositionalKey(Some(ToolOf(Mixed())), "output")
    ensures DeclaredPosition(Some(ToolOf(Mixed())), "output") == Some(1)
    ensures !IsPositionalKey(Some(ToolOf(Mixed())), "verbose")
  {
    var a := Mixed().args;
    assert UniqueIds(a);
    PropertyOfArg(a, 0);
    PropertyOfArg(a, 1);
    PropertyOfArg(a, 2);
    assert a[..0] == [];
    assert Counter(a[..2]) == 1 by {
      assert a[..2][..1] == a[..1];
      assert a[..1][..0] == [];
    }
  }

  /** The arguments of `mixed {input: foo.txt, output: bar.txt, verbose: true}`: two positionals and one named. */
  lemma MixedPartition()
    ensures Partition(Some(ToolOf(Mixed())),
      [("input", JString("foo.txt")), ("output", JString("bar.txt")), ("verbose", JBool(true))])
      == Partitioned([PosArg("input", JString("foo.txt"), 0), PosArg("output", JString("bar.txt"), 1)],
                     map["verbose" := JBool(true)])
  {
    MixedDescriptor();
    var tool := Some(ToolOf(Mixed()));
    var x, y, z := ("input", JString("foo.txt")), ("output", JString("bar.txt")), ("verbose", JBool(true));
    PartitionSnoc(tool, [], x);
    PartitionSnoc(tool, [x], y);
    PartitionSnoc(tool, [x, y], z);
    assert [] + [x] == [x] && [x] + [y] == [x, y] && [x, y] + [z] == [x, y, z];
  }

  /** `mixed {input: foo.txt, output: bar.txt, verbose: true}`: both positionals in order, then the flag. */
  lemma MixedTokens(order: seq<string>)
    requires IsEnumeration(order, Partition(Some(ToolOf(Mixed())),
      [("input", JString("foo.txt")), ("output", JString("bar.txt")), ("verbose", JBool(true))]).named.Keys)
    ensures
      var p := Partition(Some(ToolOf(Mixed())),
        [("input", JString("foo.txt")), ("output", JString("bar.txt")), ("verbose", JBool(true))]);
      Seed("mixed") + PositionalTokens(SortByPosition(p.positional)) + EncodeNamed(order, p.named)
        == ["mcp", "mixed", "foo.txt", "bar.txt", "--verbose"]
  {
    MixedPartition();
    MixedCallTokens(Partition(Some(ToolOf(Mixed())),
      [("input", JString("foo.txt")), ("output", JString("bar.txt")), ("verbose", JBool(true))]), order);
  }

  /** The token vector of the mixed call from its partition. */
  lemma MixedCallTokens(p: Partitioned, order: seq<string>)
    requires p == Partitioned([PosArg("input", JString("foo.txt"), 0), PosArg("output", JString("bar.txt"), 1)],
                              map["verbose" := JBool(true)])
    requires IsEnumeration(order, p.named.Keys)
    ensures Seed("mixed") + PositionalTokens(SortByPosition(p.positional)) + EncodeNamed(order, p.named)
      == ["mcp", "mixed", "foo.txt", "bar.txt", "--verbose"]
  {
    var px, py := PosArg("input", JString("foo.txt"), 0), PosArg("output", JString("bar.txt"), 1);
    var named := map["verbose" := JBool(true)];
    assert named.Keys == {"verbose"};
    assert SortByPosition([px, py]) == [px, py] by {
      assert [px, py][1..] == [py];
      assert SortByPosition([py]) == [py] by { assert [py][1..] == []; }
      assert Insert(px, [py]) == [px, py];
    }
    SingletonEnumeration(order, "verbose");
    EncodeNamedSingle("verbose", named);
    assert Flag("verbose") == "--verbose";
    assert EntryTokens("verbose", named) == ["--verbose"];
    assert PositionalTokens([px, py]) == ["foo.txt", "bar.txt"] by {
      assert [px, py][..1] == [px];
      assert [px][..0] == [];
    }
  }

  /** The test's argument object for `mixed`, in one order it may be yielded. */
  function MixedArguments(): seq<(string, JsonValue)>
  {
    [("input", JString("foo.txt")), ("output", JString("bar.txt")), ("verbose", JBool(true))]
  }

  /**
   * `mixed {input: foo.txt, output: bar.txt, verbose: true}` in whichever
   * order the object yields its three entries: the same token vector.
   */
  lemma MixedTokensAnyOrder(arguments: seq<(string, JsonValue)>, order: seq<string>)
    requires DistinctKeys(arguments) && multiset(arguments) == multiset(MixedArguments())
    requires IsEnumeration(order, Partition(Some(ToolOf(Mixed())), arguments).named.Keys)
    ensures
      var p := Partition(Some(ToolOf(Mixed())), arguments);
      Seed("mixed") + PositionalTokens(SortByPosition(p.positional)) + EncodeNamed(order, p.named)
        == ["mcp", "mixed", "foo.txt", "bar.txt", "--verbose"]
  {
    MixedIndexless();
    CallArgumentOrderIrrelevant(Mixed(), arguments, MixedArguments());
    MixedTokens(order);
  }

  /** The mixed command's positionals declare no index, and the test's object repeats no key. */
  lemma MixedIndexless()
    ensures UniqueIds(Mixed().args)
    ensures forall j :: 0 <= j < |Mixed().args| && !Skipped(Mixed().args[j]) && IsPositional(Mixed().args[j]) ==>
      Mixed().args[j].index.None?
    ensures DistinctKeys(MixedArguments())
  {
  }

  /** The command values of the calculator tests (`TestCommands`). */
  datatype CalcCommand =
    | Add(a: int, b: int)
    | Subtract(minuend: int, subtrahend: int)
    | Multiply(value1: int, value2: int)
    | Divide(dividend: int, divisor: int)
    | Hello(name: string, excited: bool)

  function Abs(x: int): nat { if x < 0 then -x else x }

  /**
   * Rust's integer `/`: the quotient truncated toward zero (Dafny's own `/`
   * is Euclidean, which differs for a negative dividend).
   */
  function TruncDiv(x: int, y: int): int
    requires y != 0
  {
    var m := Abs(x) / Abs(y);
    if (x < 0) == (y < 0) then m else -m
  }

  /**
   * The defining law of truncating division: `x == q * y + r` with the
   * remainder smaller than the divisor in magnitude and of the dividend's sign.
   */
  lemma TruncDivRemainder(x: int, y: int)
    requires y != 0
    ensures var r := x - TruncDiv(x, y) * y; Abs(r) < Abs(y) && (r == 0 || (r < 0 <==> x < 0))
  {
    var a: int, b: int := Abs(x), Abs(y);
    var m: int := a / b;
    var rest: int := a % b;
    assert a == m * b + rest && 0 <= rest < b;
    var q := TruncDiv(x, y);
    if (x < 0) == (y < 0) {
      assert q == m;
      assert q * y == (if x < 0 then -(m * b) else m * b) by {
        if y < 0 { assert y == -b; MulNeg(m, b); }
      }
    } else {
      assert q == -m;
      assert q * y == (if x < 0 then -(m * b) else m * b) by {
        if y < 0 { assert y == -b; MulNegNeg(m, b); } else { assert y == b; MulNegLeft(m, b); }
      }
    }
  }

  lemma MulNeg(m: int, b: int) ensures m * (-b) == -(m * b) {}
  lemma MulNegLeft(m: int, b: int) ensures (-m) * b == -(m * b) {}
  lemma MulNegNeg(m: int, b: int) ensures (-m) * (-b) == m * b {}

  /** `-7 / 2` is -3 in the test handler's arithmetic, not -4. */
  lemma TruncDivTowardZero()
    ensures TruncDiv(-7, 2) == -3 && TruncDiv(7, -2) == -3 && TruncDiv(-7, -2) == 3
  {
  }

  /**
   * The test handler `execute_test_command`: it fails exactly on a zero
   * divisor, with "Division by zero"; every other command succeeds.
   */
  function ExecuteCalc(c: CalcCommand): (r: Result<string, string>)
    ensures r.Err? <==> c.Divide? && c.divisor == 0
    ensures r.Err? ==> r.error == "Division by zero"
  {
    match c
    case Add(a, b) => Ok(IntToDecimal(a) + " + " + IntToDecimal(b) + " = " + IntToDecimal(a + b))
    case Subtract(x, y) => Ok(IntToDecimal(x) + " - " + IntToDecimal(y) + " = " + IntToDecimal(x - y))
    case Multiply(x, y) => Ok(IntToDecimal(x) + " * " + IntToDecimal(y) + " = " + IntToDecimal(x * y))
    case Divide(x, y) =>
      if y == 0 then Err("Division by zero")
      else Ok(IntToDecimal(x) + " ÷ " + IntToDecimal(y) + " = " + IntToDecimal(TruncDiv(x, y)))
    case Hello(name, excited) => Ok(if excited then "Hello, " + name + "!!!" else "Hello, " + name + ".")
  }

  /** Once add parses to `Add(10, 32)`, the call succeeds with the single text "10 + 32 = 42". */
  lemma AddSucceeds<M>(tokens: seq<string>, matcher: seq<string> -> Result<M, string>, convert: M -> Result<CalcCommand, string>)
    requires matcher(tokens).Ok? && convert(matcher(tokens).value) == Ok(Add(10, 32))
    ensures Dispatch(tokens, matcher, convert, Some(ExecuteCalc)) == ToolResult(false, ["10 + 32 = 42"])
  {
    assert NatToDecimal(1) == "1" && NatToDecimal(3) == "3" && NatToDecimal(4) == "4";
    assert NatToDecimal(10) == "10" && NatToDecimal(32) == "32" && NatToDecimal(42) == "42";
    assert IntToDecimal(10) + " + " + IntToDecimal(32) + " = " + IntToDecimal(42) == "10 + 32 = 42";
  }

  /** Dividing by zero is an error-flagged result carrying the handler's text, not a protocol error. */
  lemma DivideByZeroIsErrorResult<M>(tokens: seq<string>, matcher: seq<string> -> Result<M, string>, convert: M -> Result<CalcCommand, string>)
    requires matcher(tokens).Ok? && convert(matcher(tokens).value) == Ok(Divide(10, 0))
    ensures Dispatch(tokens, matcher, convert, Some(ExecuteCalc)) == ToolResult(true, ["Division by zero"])
  {
  }
}
