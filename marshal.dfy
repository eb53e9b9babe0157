/**
 * Invocation marshalling (the first half of `call_tool`): a tool name and a
 * JSON argument object become the clap token vector
 *   ["mcp", tool name] ++ positional values by position ++ named tokens.
 */
module Marshal {
  import opened Wrappers
  import opened Schema

  /**
   * A JSON value as the marshaller distinguishes it. Numbers are integers
   * rendered in decimal; null, arrays and objects are carried with the text
   * serde_json serialises them to.
   */
  datatype JsonValue = JBool(b: bool) | JNumber(n: int) | JString(s: string) | JOther(json: string)

  /** One positional entry: key, value and its sort position. */
  datatype PosArg = PosArg(key: string, value: JsonValue, position: nat)

  /** `positional_args` and `named_args` after the partition loop. */
  datatype Partitioned = Partitioned(positional: seq<PosArg>, named: map<string, JsonValue>)

  /** The first two tokens: the program name and the subcommand. */
  function Seed(toolName: string): seq<string> { ["mcp", toolName] }

  /** Index `i` holds the first tool named `name`. */
  predicate FirstNamedAt(tools: seq<Tool>, name: string, i: int) {
    0 <= i < |tools| && tools[i].name == name && forall j :: 0 <= j < i ==> tools[j].name != name
  }

  /** `tools.iter().find(|t| t.name == tool_name)`: the first tool with that name. */
  function FindTool(tools: seq<Tool>, name: string): (r: Option<Tool>)
    ensures r.None? <==> forall i :: 0 <= i < |tools| ==> tools[i].name != name
    ensures r.Some? ==> exists i :: FirstNamedAt(tools, name, i) && tools[i] == r.value
  {
    if tools == [] then None
    else if tools[0].name == name then Some(tools[0])
    else
      var r := FindTool(tools[1..], name);
      assert r.Some? ==> exists i :: FirstNamedAt(tools, name, i) && tools[i] == r.value by {
        if r.Some? {
          var i :| FirstNamedAt(tools[1..], name, i) && tools[1..][i] == r.value;
          assert FirstNamedAt(tools, name, i + 1);
        }
      }
      r
  }

  /** The property the tool declares for `key`, if the tool is known and has one. */
  function PropertyFor(tool: Option<Tool>, key: string): Option<Property>
  {
    if tool.Some? && key in tool.value.properties then Some(tool.value.properties[key]) else None
  }

  /** A key is positional only when its property carries "x-positional": true. */
  predicate IsPositionalKey(tool: Option<Tool>, key: string) {
    PropertyFor(tool, key).Some? && PropertyFor(tool, key).value.xPositional == Some(true)
  }

  /** The "x-position" the tool declares for `key`, if any. */
  function DeclaredPosition(tool: Option<Tool>, key: string): Option<nat>
  {
    if PropertyFor(tool, key).Some? then PropertyFor(tool, key).value.xPosition else None
  }

  /** The partition loop over the argument object, in its iteration order. */
  function Partition(tool: Option<Tool>, arguments: seq<(string, JsonValue)>): Partitioned
  {
    if arguments == [] then Partitioned([], map[])
    else
      var p := Partition(tool, arguments[..|arguments| - 1]);
      var (key, value) := arguments[|arguments| - 1];
      if IsPositionalKey(tool, key) then
        Partitioned(p.positional + [PosArg(key, value, DeclaredPosition(tool, key).GetOr(|p.positional|))], p.named)
      else
        Partitioned(p.positional, p.named[key := value])
  }

  // ----- the stable sort `sort_by_key(|&(_, _, pos)| pos)` -----

  predicate SortedByPosition(s: seq<PosArg>) {
    forall i, j :: 0 <= i < j < |s| ==> s[i].position <= s[j].position
  }

  /** The entries of `s` with position `p`, in their order in `s`. */
  function AtPosition(s: seq<PosArg>, p: nat): seq<PosArg>
  {
    if s == [] then [] else (if s[0].position == p then [s[0]] else []) + AtPosition(s[1..], p)
  }

  /** Inserts `x` before the first entry whose position is not smaller. */
  function Insert(x: PosArg, s: seq<PosArg>): seq<PosArg>
  {
    if s == [] then [x]
    else if x.position <= s[0].position then [x] + s
    else [s[0]] + Insert(x, s[1..])
  }

  /** A stable sort of the positional entries by position. */
  function SortByPosition(s: seq<PosArg>): seq<PosArg>
  {
    if s == [] then [] else Insert(s[0], SortByPosition(s[1..]))
  }

  lemma AtPositionCons(a: PosArg, t: seq<PosArg>, p: nat)
    ensures AtPosition([a] + t, p) == (if a.position == p then [a] else []) + AtPosition(t, p)
  {
    assert ([a] + t)[1..] == t;
  }

  lemma {:induction false} InsertMultiset(x: PosArg, s: seq<PosArg>)
    ensures multiset(Insert(x, s)) == multiset(s) + multiset{x}
  {
    if s != [] && x.position > s[0].position {
      InsertMultiset(x, s[1..]);
      assert s == [s[0]] + s[1..];
    }
  }

  lemma {:induction false} InsertSorted(x: PosArg, s: seq<PosArg>)
    requires SortedByPosition(s)
    ensures SortedByPosition(Insert(x, s))
  {
    if s != [] && x.position > s[0].position {
      InsertSorted(x, s[1..]);
      InsertMultiset(x, s[1..]);
      var r := Insert(x, s[1..]);
      forall i | 0 <= i < |r| ensures s[0].position <= r[i].position {
        assert r[i] in multiset(r);
        if r[i] != x {
          assert r[i] in multiset(s[1..]);
        }
      }
    }
  }

  lemma {:induction false} InsertAtPosition(x: PosArg, s: seq<PosArg>, p: nat)
    ensures AtPosition(Insert(x, s), p) == AtPosition([x] + s, p)
  {
    if s != [] && x.position > s[0].position {
      var t := s[1..];
      var h0 := if s[0].position == p then [s[0]] else [];
      var hx := if x.position == p then [x] else [];
      InsertAtPosition(x, t, p);
      assert Insert(x, s) == [s[0]] + Insert(x, t);
      AtPositionCons(s[0], Insert(x, t), p);
      AtPositionCons(x, t, p);
      AtPositionCons(x, s, p);
      assert AtPosition(s, p) == h0 + AtPosition(t, p) by {
        assert s == [s[0]] + t;
        AtPositionCons(s[0], t, p);
      }
      assert h0 == [] || hx == [];
      assert h0 + hx == hx + h0;
      assert AtPosition(Insert(x, s), p) == (h0 + hx) + AtPosition(t, p);
    }
  }

  /**
   * The sort is sorted, a permutation, and stable: for every position the
   * entries holding it keep their original relative order.
   */
  lemma {:induction false} SortByPositionCorrect(s: seq<PosArg>)
    ensures SortedByPosition(SortByPosition(s))
    ensures multiset(SortByPosition(s)) == multiset(s)
    ensures forall p :: AtPosition(SortByPosition(s), p) == AtPosition(s, p)
  {
    if s != [] {
      var t := SortByPosition(s[1..]);
      SortByPositionCorrect(s[1..]);
      InsertSorted(s[0], t);
      InsertMultiset(s[0], t);
      assert s == [s[0]] + s[1..];
      forall p ensures AtPosition(SortByPosition(s), p) == AtPosition(s, p) {
        InsertAtPosition(s[0], t, p);
        AtPositionCons(s[0], t, p);
        AtPositionCons(s[0], s[1..], p);
      }
    }
  }

  /** `AtPosition` keeps exactly the occurrences of entries holding position `p`. */
  lemma {:induction false} AtPositionMultiset(s: seq<PosArg>, p: nat)
    ensures forall e :: multiset(AtPosition(s, p))[e] == if e.position == p then multiset(s)[e] else 0
  {
    if s != [] {
      AtPositionMultiset(s[1..], p);
      assert s == [s[0]] + s[1..];
    }
  }

  /** No two entries share a position: every positional key carried its own explicit index. */
  predicate DistinctPositions(s: seq<PosArg>) {
    forall i, j :: 0 <= i < j < |s| ==> s[i].position != s[j].position
  }

  lemma {:induction false} AtPositionAbsent(t: seq<PosArg>, p: nat)
    requires forall i :: 0 <= i < |t| ==> t[i].position != p
    ensures AtPosition(t, p) == []
  {
    if t != [] {
      AtPositionAbsent(t[1..], p);
    }
  }

  lemma {:induction false} AtPositionAtMostOne(s: seq<PosArg>, p: nat)
    requires DistinctPositions(s)
    ensures |AtPosition(s, p)| <= 1
  {
    if s != [] {
      assert forall i :: 0 <= i < |s[1..]| ==> s[1..][i] == s[i + 1];
      AtPositionAtMostOne(s[1..], p);
      if s[0].position == p {
        AtPositionAbsent(s[1..], p);
      }
    }
  }

  /** Two sorted lists with the same entries at every position, in the same order, are equal. */
  lemma {:induction false} SortedDetermined(s1: seq<PosArg>, s2: seq<PosArg>)
    requires SortedByPosition(s1) && SortedByPosition(s2)
    requires forall p :: AtPosition(s1, p) == AtPosition(s2, p)
    ensures s1 == s2
    decreases |s1|
  {
    if s2 != [] {
      LeastPositionBound(s2, s1);
    }
    if s1 != [] {
      LeastPositionBound(s1, s2);
      var x, y := s1[0], s2[0];
      var t1, t2 := s1[1..], s2[1..];
      assert s1 == [x] + t1 && s2 == [y] + t2;
      AtPositionCons(x, t1, x.position);
      AtPositionCons(y, t2, x.position);
      assert x == AtPosition(s1, x.position)[0] == y;
      forall p ensures AtPosition(t1, p) == AtPosition(t2, p) {
        AtPositionCons(x, t1, p);
        AtPositionCons(y, t2, p);
        var h := if x.position == p then [x] else [];
        assert h + AtPosition(t1, p) == h + AtPosition(t2, p);
        assert AtPosition(t1, p) == (h + AtPosition(t1, p))[|h|..];
        assert AtPosition(t2, p) == (h + AtPosition(t2, p))[|h|..];
      }
      assert SortedByPosition(t1) && SortedByPosition(t2);
      SortedDetermined(t1, t2);
    }
  }

  /** The head of a non-empty sorted `s2` holds a position no greater than any position used in `s1`. */
  lemma LeastPositionBound(s1: seq<PosArg>, s2: seq<PosArg>)
    requires SortedByPosition(s2)
    requires forall p :: AtPosition(s1, p) == AtPosition(s2, p)
    requires s1 != []
    ensures s2 != [] && s2[0].position <= s1[0].position
  {
    var p := s1[0].position;
    AtPositionCons(s1[0], s1[1..], p);
    assert s1 == [s1[0]] + s1[1..];
    var e := AtPosition(s2, p)[0];
    AtPositionMultiset(s2, p);
    assert e in multiset(AtPosition(s2, p));
    assert e.position == p && e in multiset(s2);
    var i :| 0 <= i < |s2| && s2[i] == e;
    assert s2[0].position <= s2[i].position;
  }

  /**
   * The sorted order depends only on which entries hold each position and
   * in what relative order: the arrival order matters for ties alone.
   */
  lemma SortDependsOnTiesOnly(a: seq<PosArg>, b: seq<PosArg>)
    requires forall p :: AtPosition(a, p) == AtPosition(b, p)
    ensures SortByPosition(a) == SortByPosition(b)
  {
    SortByPositionCorrect(a);
    SortByPositionCorrect(b);
    SortedDetermined(SortByPosition(a), SortByPosition(b));
  }

  /**
   * When every entry has its own position (explicit, distinct indices), the
   * sorted order is the same for any arrival order of the same entries.
   */
  lemma SortIgnoresArrivalOrder(a: seq<PosArg>, b: seq<PosArg>)
    requires DistinctPositions(a) && DistinctPositions(b)
    requires multiset(a) == multiset(b)
    ensures SortByPosition(a) == SortByPosition(b)
  {
    forall p ensures AtPosition(a, p) == AtPosition(b, p) {
      DistinctGroupsAgree(a, b, p);
    }
    SortDependsOnTiesOnly(a, b);
  }

  lemma DistinctGroupsAgree(a: seq<PosArg>, b: seq<PosArg>, p: nat)
    requires DistinctPositions(a) && DistinctPositions(b)
    requires multiset(a) == multiset(b)
    ensures AtPosition(a, p) == AtPosition(b, p)
  {
    GroupMultisetsAgree(a, b, p);
    AtPositionAtMostOne(a, p);
    AtPositionAtMostOne(b, p);
    ShortListsByMultiset(AtPosition(a, p), AtPosition(b, p));
  }

  /** Lists with the same entries hold the same entries at each position. */
  lemma GroupMultisetsAgree(a: seq<PosArg>, b: seq<PosArg>, p: nat)
    requires multiset(a) == multiset(b)
    ensures multiset(AtPosition(a, p)) == multiset(AtPosition(b, p))
  {
    AtPositionMultiset(a, p);
    AtPositionMultiset(b, p);
  }

  /** Lists of at most one entry are determined by their multiset. */
  lemma ShortListsByMultiset(ga: seq<PosArg>, gb: seq<PosArg>)
    requires |ga| <= 1 && |gb| <= 1 && multiset(ga) == multiset(gb)
    ensures ga == gb
  {
    assert |ga| == |gb| by {
      assert |multiset(ga)| == |ga| && |multiset(gb)| == |gb|;
    }
    if ga != [] {
      assert ga == [ga[0]] && gb == [gb[0]];
      assert ga[0] in multiset(gb);
    }
  }

  // ----- token rendering -----

  function DigitChar(d: nat): char
    requires d < 10
  {
    "0123456789"[d]
  }

  /** The value of a decimal digit character. */
  function DigitValue(c: char): int { c as int - '0' as int }

  lemma DigitCharValue(d: nat)
    requires d < 10
    ensures '0' <= DigitChar(d) <= '9' && DigitValue(DigitChar(d)) == d
  {
  }

  /** The number a string of decimal digits denotes, most significant digit first. */
  function DecimalValue(s: string): int
  {
    if s == [] then 0 else 10 * DecimalValue(s[..|s| - 1]) + DigitValue(s[|s| - 1])
  }

  /** Decimal digits of a natural number. */
  function NatToDecimal(n: nat): (r: string)
    ensures |r| > 0 && forall i :: 0 <= i < |r| ==> '0' <= r[i] <= '9'
  {
    if n < 10 then [DigitChar(n)] else NatToDecimal(n / 10) + [DigitChar(n % 10)]
  }

  /**
   * The digits denote `n`, with no leading zero unless `n` is 0: the text
   * `Number::to_string` gives for a non-negative integer.
   */
  lemma {:induction false} NatToDecimalValue(n: nat)
    ensures DecimalValue(NatToDecimal(n)) == n
    ensures NatToDecimal(n)[0] == '0' <==> n == 0
  {
    var r := NatToDecimal(n);
    if n < 10 {
      DigitCharValue(n);
      assert r[..0] == [];
    } else {
      NatToDecimalValue(n / 10);
      DigitCharValue(n % 10);
      var init := NatToDecimal(n / 10);
      assert r[..|r| - 1] == init;
      assert r[0] == init[0];
    }
  }

  /** `Number::to_string` for an integer: a minus sign exactly for negatives, then the magnitude's digits. */
  function IntToDecimal(n: int): (r: string)
    ensures |r| > 0
    ensures r[0] == '-' <==> n < 0
    ensures n < 0 ==> r[1..] == NatToDecimal(-n)
    ensures n >= 0 ==> r == NatToDecimal(n)
  {
    if n < 0 then "-" + NatToDecimal(-n) else NatToDecimal(n)
  }

  /** The text of an integer denotes it: its sign, then the value of its digits. */
  lemma IntToDecimalValue(n: int)
    ensures n < 0 ==> IntToDecimal(n)[0] == '-' && DecimalValue(IntToDecimal(n)[1..]) == -n
    ensures n >= 0 ==> DecimalValue(IntToDecimal(n)) == n
  {
    var r := IntToDecimal(n);
    if n < 0 {
      var m: nat := -n;
      NatToDecimalValue(m);
      assert r[1..] == NatToDecimal(m);
      assert DecimalValue(r[1..]) == m;
    } else {
      NatToDecimalValue(n);
      assert r == NatToDecimal(n);
    }
  }

  /** The text a value contributes as a token. */
  function ValueText(v: JsonValue): string
  {
    match v
    case JString(s) => s
    case JNumber(n) => IntToDecimal(n)
    case JBool(b) => if b then "true" else "false"
    case JOther(json) => json
  }

  /** The positional segment: each value's text, no prefix, in order. */
  function PositionalTokens(s: seq<PosArg>): seq<string>
  {
    seq(|s|, i requires 0 <= i < |s| => ValueText(s[i].value))
  }

  function Flag(key: string): string { "--" + key }

  /** The tokens one named entry contributes. */
  function NamedTokens(key: string, v: JsonValue): seq<string>
  {
    match v
    case JBool(b) => if b then [Flag(key)] else []
    case _ => [Flag(key), ValueText(v)]
  }

  /** The tokens of the entry for `key`, none when the map has no such key. */
  function EntryTokens(key: string, named: map<string, JsonValue>): seq<string>
  {
    if key in named then NamedTokens(key, named[key]) else []
  }

  /** The named segment when the keys are visited in `order`. */
  function EncodeNamed(order: seq<string>, named: map<string, JsonValue>): seq<string>
  {
    if order == [] then []
    else EncodeNamed(order[..|order| - 1], named) + EntryTokens(order[|order| - 1], named)
  }

  /** How many tokens a named value contributes: 0 for false, 1 for true, 2 otherwise. */
  function Width(v: JsonValue): nat
  {
    match v
    case JBool(b) => if b then 1 else 0
    case _ => 2
  }

  function SumWidths(order: seq<string>, named: map<string, JsonValue>): nat
  {
    if order == [] then 0
    else
      var k := order[|order| - 1];
      SumWidths(order[..|order| - 1], named) + (if k in named then Width(named[k]) else 0)
  }

  /** `order` visits every key of `keys` exactly once: one possible iteration order of a map. */
  ghost predicate IsEnumeration(order: seq<string>, keys: set<string>) {
    (forall i, j :: 0 <= i < j < |order| ==> order[i] != order[j]) &&
    (forall k :: k in order <==> k in keys)
  }

  // ----- the marshaller -----

  /** The loop of lines 257-284: sorts each argument into positional or named. */
  method PartitionArguments(tool: Option<Tool>, arguments: seq<(string, JsonValue)>)
    returns (positionalArgs: seq<PosArg>, namedArgs: map<string, JsonValue>)
    ensures Partitioned(positionalArgs, namedArgs) == Partition(tool, arguments)
  {
    positionalArgs := [];
    namedArgs := map[];
    for i := 0 to |arguments|
      invariant Partitioned(positionalArgs, namedArgs) == Partition(tool, arguments[..i])
    {
      var (key, value) := arguments[i];
      assert arguments[..i + 1][..i] == arguments[..i];
      var isPositional :=
        tool.Some? && key in tool.value.properties && tool.value.properties[key].xPositional == Some(true);
      if isPositional {
        var declared := tool.value.properties[key].xPosition;
        var position := if declared.Some? then declared.value else |positionalArgs|;
        positionalArgs := positionalArgs + [PosArg(key, value, position)];
      } else {
        namedArgs := namedArgs[key := value];
      }
    }
    assert arguments[..|arguments|] == arguments;
  }

  /** The loop of lines 290-297: appends each positional value's text, unprefixed. */
  method PushPositionals(prefix: seq<string>, positionalArgs: seq<PosArg>) returns (args: seq<string>)
    ensures args == prefix + PositionalTokens(positionalArgs)
  {
    args := prefix;
    for i := 0 to |positionalArgs|
      invariant args == prefix + PositionalTokens(positionalArgs[..i])
    {
      var value := positionalArgs[i].value;
      match value {
        case JString(s) => args := args + [s];
        case JNumber(n) => args := args + [IntToDecimal(n)];
        case JBool(b) => args := args + [if b then "true" else "false"];
        case JOther(json) => args := args + [json];
      }
    }
    assert positionalArgs[..|positionalArgs|] == positionalArgs;
  }

  /** The match of lines 301-320: the tokens of one named entry. */
  method PushEntry(args: seq<string>, key: string, value: JsonValue) returns (args': seq<string>)
    ensures args' == args + NamedTokens(key, value)
  {
    args' := args;
    match value {
      case JBool(b) =>
        if b {
          args' := args' + [Flag(key)];
        }
      case JString(s) => args' := args' + [Flag(key), s];
      case JNumber(n) => args' := args' + [Flag(key), IntToDecimal(n)];
      case JOther(json) => args' := args' + [Flag(key), json];
    }
  }

  /**
   * The loop of lines 300-321: appends the tokens of each named entry. The
   * map is visited in an order the model leaves open; `namedOrder` is a
   * ghost witness of the order taken.
   */
  method PushNamed(prefix: seq<string>, namedArgs: map<string, JsonValue>)
    returns (args: seq<string>, ghost namedOrder: seq<string>)
    ensures IsEnumeration(namedOrder, namedArgs.Keys)
    ensures args == prefix + EncodeNamed(namedOrder, namedArgs)
    ensures |prefix| <= |args| && args[..|prefix|] == prefix
  {
    args := prefix;
    var remaining := namedArgs.Keys;
    namedOrder := [];
    while remaining != {}
      invariant remaining <= namedArgs.Keys
      invariant IsEnumeration(namedOrder, namedArgs.Keys - remaining)
      invariant args == prefix + EncodeNamed(namedOrder, namedArgs)
      decreases remaining
    {
      var key :| key in remaining;
      ghost var before := args;
      args := PushEntry(args, key, namedArgs[key]);
      PushNamedStep(prefix, namedOrder, namedArgs, key, before, args);
      EnumerationVisit(namedOrder, namedArgs.Keys, remaining, key);
      namedOrder := namedOrder + [key];
      remaining := remaining - {key};
    }
    assert namedArgs.Keys - remaining == namedArgs.Keys;
  }

  /** One turn of the named loop extends the segment by the visited key's tokens. */
  lemma PushNamedStep(prefix: seq<string>, order: seq<string>, named: map<string, JsonValue>, key: string,
                      before: seq<string>, after: seq<string>)
    requires key in named
    requires before == prefix + EncodeNamed(order, named)
    requires after == before + NamedTokens(key, named[key])
    ensures after == prefix + EncodeNamed(order + [key], named)
  {
    EncodeNamedSnoc(order, key, named);
  }

  /** One turn of the named loop visits one more key, once. */
  lemma EnumerationVisit(order: seq<string>, keys: set<string>, remaining: set<string>, key: string)
    requires remaining <= keys && key in remaining
    requires IsEnumeration(order, keys - remaining)
    ensures IsEnumeration(order + [key], keys - (remaining - {key}))
  {
    EnumerationSnoc(order, keys - remaining, key);
    assert (keys - remaining) + {key} == keys - (remaining - {key});
  }

  lemma EnumerationSnoc(order: seq<string>, keys: set<string>, k: string)
    requires IsEnumeration(order, keys) && k !in keys
    ensures IsEnumeration(order + [k], keys + {k})
  {
    var o := order + [k];
    assert forall i :: 0 <= i < |order| ==> o[i] == order[i];
    assert forall x :: x in o <==> x in order || x == k;
  }

  lemma EncodeNamedSnoc(order: seq<string>, key: string, named: map<string, JsonValue>)
    ensures EncodeNamed(order + [key], named) == EncodeNamed(order, named) + EntryTokens(key, named)
  {
    assert (order + [key])[..|order|] == order;
  }

  /** Lines 251-321 of `call_tool`: the whole token vector. */
  method BuildArgs(tool: Option<Tool>, toolName: string, arguments: seq<(string, JsonValue)>)
    returns (args: seq<string>, ghost namedOrder: seq<string>)
    ensures IsEnumeration(namedOrder, Partition(tool, arguments).named.Keys)
    ensures args == Seed(toolName)
                    + PositionalTokens(SortByPosition(Partition(tool, arguments).positional))
                    + EncodeNamed(namedOrder, Partition(tool, arguments).named)
    ensures
      var head := Seed(toolName) + PositionalTokens(SortByPosition(Partition(tool, arguments).positional));
      |head| <= |args| && args[..|head|] == head
  {
    args := ["mcp", toolName];
    var positionalArgs, namedArgs := PartitionArguments(tool, arguments);
    positionalArgs := SortByPosition(positionalArgs);
    args := PushPositionals(args, positionalArgs);
    args, namedOrder := PushNamed(args, namedArgs);
  }

  // ----- properties of the partition -----

  /** The entries of the argument object whose key is positional in `tool`, in iteration order. */
  function PositionalEntries(tool: Option<Tool>, arguments: seq<(string, JsonValue)>): seq<(string, JsonValue)>
  {
    if arguments == [] then []
    else
      var last := arguments[|arguments| - 1];
      PositionalEntries(tool, arguments[..|arguments| - 1]) + (if IsPositionalKey(tool, last.0) then [last] else [])
  }

  /** The keys of the argument object that are not positional in `tool`. */
  ghost function NamedKeys(tool: Option<Tool>, arguments: seq<(string, JsonValue)>): set<string>
  {
    set i | 0 <= i < |arguments| && !IsPositionalKey(tool, arguments[i].0) :: arguments[i].0
  }

  /** No key occurs twice (a JSON object has unique keys). */
  predicate DistinctKeys(arguments: seq<(string, JsonValue)>) {
    forall i, j :: 0 <= i < j < |arguments| ==> arguments[i].0 != arguments[j].0
  }

  /**
   * The positional list holds exactly the entries whose key the tool marks
   * "x-positional": true, in iteration order; the i-th of them sorts at the
   * tool's "x-position" or, failing that, at i.
   */
  lemma {:induction false} PartitionPositional(tool: Option<Tool>, arguments: seq<(string, JsonValue)>)
    ensures |Partition(tool, arguments).positional| == |PositionalEntries(tool, arguments)|
    ensures forall i :: 0 <= i < |Partition(tool, arguments).positional| ==>
      var e := Partition(tool, arguments).positional[i];
      (e.key, e.value) == PositionalEntries(tool, arguments)[i] &&
      e.position == DeclaredPosition(tool, e.key).GetOr(i)
  {
    if arguments != [] {
      PartitionPositional(tool, arguments[..|arguments| - 1]);
    }
  }

  /** The named map's keys are exactly the argument keys that are not positional in `tool`. */
  lemma {:induction false} PartitionNamedKeys(tool: Option<Tool>, arguments: seq<(string, JsonValue)>)
    ensures Partition(tool, arguments).named.Keys == NamedKeys(tool, arguments)
  {
    if arguments != [] {
      var init, last := arguments[..|arguments| - 1], arguments[|arguments| - 1];
      PartitionNamedKeys(tool, init);
      assert forall i :: 0 <= i < |init| ==> init[i] == arguments[i];
      if IsPositionalKey(tool, last.0) {
        assert NamedKeys(tool, arguments) == NamedKeys(tool, init);
      } else {
        assert NamedKeys(tool, arguments) == NamedKeys(tool, init) + {last.0};
      }
    }
  }

  /** With unique keys, every non-positional entry reaches the named map with its own value. */
  lemma {:induction false} PartitionNamedValues(tool: Option<Tool>, arguments: seq<(string, JsonValue)>)
    requires DistinctKeys(arguments)
    ensures forall i :: 0 <= i < |arguments| && !IsPositionalKey(tool, arguments[i].0) ==>
      arguments[i].0 in Partition(tool, arguments).named &&
      Partition(tool, arguments).named[arguments[i].0] == arguments[i].1
  {
    if arguments != [] {
      var init := arguments[..|arguments| - 1];
      assert forall i :: 0 <= i < |init| ==> init[i] == arguments[i];
      PartitionNamedValues(tool, init);
    }
  }

  /** An unknown tool makes every argument named. */
  lemma UnknownToolAllNamed(arguments: seq<(string, JsonValue)>)
    ensures Partition(None, arguments).positional == []
    ensures Partition(None, arguments).named.Keys == set i | 0 <= i < |arguments| :: arguments[i].0
  {
    PartitionPositional(None, arguments);
    PartitionNamedKeys(None, arguments);
    assert NamedKeys(None, arguments) == set i | 0 <= i < |arguments| :: arguments[i].0;
    if Partition(None, arguments).positional != [] {
      NoPositionalEntries(arguments);
    }
  }

  lemma {:induction false} NoPositionalEntries(arguments: seq<(string, JsonValue)>)
    ensures PositionalEntries(None, arguments) == []
  {
    if arguments != [] {
      NoPositionalEntries(arguments[..|arguments| - 1]);
    }
  }

  // ----- the arrival order of the argument object -----

  /** Every key the tool marks positional also carries an "x-position". */
  ghost predicate AllDeclared(tool: Option<Tool>) {
    forall k :: IsPositionalKey(tool, k) ==> DeclaredPosition(tool, k).Some?
  }

  /** No two positional keys of the tool share an "x-position". */
  ghost predicate DistinctDeclared(tool: Option<Tool>) {
    forall k1, k2 :: IsPositionalKey(tool, k1) && IsPositionalKey(tool, k2) && k1 != k2 ==>
      DeclaredPosition(tool, k1) != DeclaredPosition(tool, k2)
  }

  ghost function ArgKeys(arguments: seq<(string, JsonValue)>): set<string>
  {
    set i | 0 <= i < |arguments| :: arguments[i].0
  }

  /** With declared positions, each positional entry sits at its key's "x-position". */
  lemma {:induction false} PlacedAtDeclared(tool: Option<Tool>, arguments: seq<(string, JsonValue)>)
    requires AllDeclared(tool)
    ensures forall e :: e in Partition(tool, arguments).positional ==>
      IsPositionalKey(tool, e.key) && DeclaredPosition(tool, e.key) == Some(e.position) && e.key in ArgKeys(arguments)
  {
    if arguments != [] {
      var init := arguments[..|arguments| - 1];
      PlacedAtDeclared(tool, init);
      assert forall i :: 0 <= i < |init| ==> init[i] == arguments[i];
      assert ArgKeys(init) <= ArgKeys(arguments);
      assert arguments[|arguments| - 1].0 in ArgKeys(arguments);
    }
  }

  /** With declared, distinct positions and unique keys, no two positional entries share a position. */
  lemma {:induction false} PlacedDistinct(tool: Option<Tool>, arguments: seq<(string, JsonValue)>)
    requires AllDeclared(tool) && DistinctDeclared(tool) && DistinctKeys(arguments)
    ensures DistinctPositions(Partition(tool, arguments).positional)
  {
    if arguments != [] {
      var init, last := arguments[..|arguments| - 1], arguments[|arguments| - 1];
      assert forall i :: 0 <= i < |init| ==> init[i] == arguments[i];
      PlacedDistinct(tool, init);
      PlacedAtDeclared(tool, init);
      assert last.0 !in ArgKeys(init);
      var p := Partition(tool, init).positional;
      var q := Partition(tool, arguments).positional;
      if IsPositionalKey(tool, last.0) {
        forall i | 0 <= i < |p| ensures p[i].position != q[|p|].position {
          assert p[i] in p;
        }
      }
    }
  }

  /** How often an entry of the argument object shows up as positional entry `e`. */
  function Placements(tool: Option<Tool>, arguments: seq<(string, JsonValue)>, e: PosArg): nat
  {
    if IsPositionalKey(tool, e.key) && DeclaredPosition(tool, e.key) == Some(e.position)
    then multiset(arguments)[(e.key, e.value)] else 0
  }

  /**
   * With declared positions, the positional list holds each positional
   * entry of the argument object once per occurrence, nothing else.
   */
  lemma {:induction false} PlacedCount(tool: Option<Tool>, arguments: seq<(string, JsonValue)>)
    requires AllDeclared(tool)
    ensures forall e :: multiset(Partition(tool, arguments).positional)[e] == Placements(tool, arguments, e)
  {
    if arguments != [] {
      var init, last := arguments[..|arguments| - 1], arguments[|arguments| - 1];
      PlacedCount(tool, init);
      assert arguments == init + [last];
      assert multiset(arguments) == multiset(init) + multiset{last};
      var p := Partition(tool, init).positional;
      var q := Partition(tool, arguments).positional;
      if IsPositionalKey(tool, last.0) {
        var x := PosArg(last.0, last.1, DeclaredPosition(tool, last.0).value);
        assert q == p + [x];
        assert multiset(q) == multiset(p) + multiset{x};
        forall e ensures multiset(q)[e] == Placements(tool, arguments, e) {
          assert Placements(tool, arguments, e) == Placements(tool, init, e) + (if e == x then 1 else 0);
        }
      } else {
        forall e ensures multiset(q)[e] == Placements(tool, arguments, e) {
          assert Placements(tool, arguments, e) == Placements(tool, init, e);
        }
      }
    }
  }

  /** Two arrival orders of the same entries give the same positional entries, up to order. */
  lemma PlacedArrival(tool: Option<Tool>, a1: seq<(string, JsonValue)>, a2: seq<(string, JsonValue)>)
    requires AllDeclared(tool) && multiset(a1) == multiset(a2)
    ensures multiset(Partition(tool, a1).positional) == multiset(Partition(tool, a2).positional)
  {
    PlacedCount(tool, a1);
    PlacedCount(tool, a2);
  }

  /** Two arrival orders of the same object give the same named map. */
  lemma NamedArrival(tool: Option<Tool>, a1: seq<(string, JsonValue)>, a2: seq<(string, JsonValue)>)
    requires DistinctKeys(a1) && DistinctKeys(a2) && multiset(a1) == multiset(a2)
    ensures Partition(tool, a1).named == Partition(tool, a2).named
  {
    NamedSubsumed(tool, a1, a2);
    NamedSubsumed(tool, a2, a1);
  }

  lemma NamedSubsumed(tool: Option<Tool>, a1: seq<(string, JsonValue)>, a2: seq<(string, JsonValue)>)
    requires DistinctKeys(a1) && DistinctKeys(a2) && multiset(a1) == multiset(a2)
    ensures forall k :: k in Partition(tool, a1).named ==>
      k in Partition(tool, a2).named && Partition(tool, a2).named[k] == Partition(tool, a1).named[k]
  {
    PartitionNamedKeys(tool, a1);
    PartitionNamedValues(tool, a1);
    PartitionNamedValues(tool, a2);
    forall k | k in Partition(tool, a1).named
      ensures k in Partition(tool, a2).named && Partition(tool, a2).named[k] == Partition(tool, a1).named[k]
    {
      var i :| 0 <= i < |a1| && !IsPositionalKey(tool, a1[i].0) && a1[i].0 == k;
      assert a1[i] in multiset(a2);
      var j :| 0 <= j < |a2| && a2[j] == a1[i];
    }
  }

  /**
   * When every positional key carries its own explicit position, the order
   * in which the argument object yields its entries changes neither the
   * sorted positional list nor the named map: the token vector is the same
   * up to the visiting order of the named map.
   */
  lemma ArgumentOrderIrrelevant(tool: Option<Tool>, a1: seq<(string, JsonValue)>, a2: seq<(string, JsonValue)>)
    requires AllDeclared(tool) && DistinctDeclared(tool)
    requires DistinctKeys(a1) && DistinctKeys(a2) && multiset(a1) == multiset(a2)
    ensures SortByPosition(Partition(tool, a1).positional) == SortByPosition(Partition(tool, a2).positional)
    ensures Partition(tool, a1).named == Partition(tool, a2).named
  {
    PlacedArrival(tool, a1, a2);
    PlacedDistinct(tool, a1);
    PlacedDistinct(tool, a2);
    SortIgnoresArrivalOrder(Partition(tool, a1).positional, Partition(tool, a2).positional);
    NamedArrival(tool, a1, a2);
  }

  // ----- properties of the named segment -----

  lemma {:induction false} EncodeNamedConcat(a: seq<string>, b: seq<string>, named: map<string, JsonValue>)
    ensures EncodeNamed(a + b, named) == EncodeNamed(a, named) + EncodeNamed(b, named)
  {
    if b == [] {
      assert a + b == a;
    } else {
      var b' := b[..|b| - 1];
      assert (a + b)[..|a + b| - 1] == a + b';
      EncodeNamedConcat(a, b', named);
    }
  }

  /** The named segment has one token per `true`, none per `false` and two per other value. */
  lemma {:induction false} EncodeNamedLength(order: seq<string>, named: map<string, JsonValue>)
    ensures |EncodeNamed(order, named)| == SumWidths(order, named)
  {
    if order != [] {
      EncodeNamedLength(order[..|order| - 1], named);
    }
  }

  /** The entry visited at step `i` contributes its tokens between those of the steps before and after it. */
  lemma EncodeNamedSplitAt(order: seq<string>, named: map<string, JsonValue>, i: nat)
    requires i < |order|
    ensures EncodeNamed(order, named) ==
      EncodeNamed(order[..i], named) + EntryTokens(order[i], named) + EncodeNamed(order[i + 1..], named)
  {
    assert order == order[..i] + [order[i]] + order[i + 1..];
    EncodeNamedConcat(order[..i], [order[i]], named);
    EncodeNamedConcat(order[..i] + [order[i]], order[i + 1..], named);
    assert EncodeNamed([order[i]], named) == EntryTokens(order[i], named) by {
      assert [order[i]][..0] == [];
    }
  }

  /**
   * The tokens of the key visited at step `i` stand together: `--key` alone
   * for `true`, nothing for `false`, `--key` and the value's text otherwise.
   */
  lemma NamedEntryTokens(order: seq<string>, named: map<string, JsonValue>, i: nat)
    requires i < |order| && order[i] in named
    ensures named[order[i]] == JBool(false) ==>
      EncodeNamed(order, named) == EncodeNamed(order[..i], named) + EncodeNamed(order[i + 1..], named)
    ensures named[order[i]] == JBool(true) ==>
      EncodeNamed(order, named) == EncodeNamed(order[..i], named) + [Flag(order[i])] + EncodeNamed(order[i + 1..], named)
    ensures !named[order[i]].JBool? ==>
      EncodeNamed(order, named) ==
        EncodeNamed(order[..i], named) + [Flag(order[i]), ValueText(named[order[i]])] + EncodeNamed(order[i + 1..], named)
  {
    EncodeNamedSplitAt(order, named, i);
    SpliceTokens(EncodeNamed(order, named), EncodeNamed(order[..i], named), EncodeNamed(order[i + 1..], named),
                 order[i], named[order[i]]);
  }

  /** A token vector made of a head, one entry's tokens and a tail, by the kind of the entry's value. */
  lemma SpliceTokens(whole: seq<string>, head: seq<string>, tail: seq<string>, key: string, v: JsonValue)
    requires whole == head + NamedTokens(key, v) + tail
    ensures v == JBool(false) ==> whole == head + tail
    ensures v == JBool(true) ==> whole == head + [Flag(key)] + tail
    ensures !v.JBool? ==> whole == head + [Flag(key), ValueText(v)] + tail
  {
    if v == JBool(false) {
      assert head + [] == head;
    }
  }

  lemma EnumerationDropLast(o: seq<string>, keys: set<string>)
    requires IsEnumeration(o, keys) && o != []
    ensures IsEnumeration(o[..|o| - 1], keys - {o[|o| - 1]})
  {
    var r := o[..|o| - 1];
    assert o == r + [o[|o| - 1]];
    forall x ensures x in r <==> x in keys - {o[|o| - 1]} {
      if x in r {
        var j :| 0 <= j < |r| && r[j] == x;
        assert o[j] == x;
      }
    }
  }

  lemma EnumerationDropAt(o: seq<string>, keys: set<string>, i: nat)
    requires IsEnumeration(o, keys) && i < |o|
    ensures IsEnumeration(o[..i] + o[i + 1..], keys - {o[i]})
  {
    var left, right := o[..i], o[i + 1..];
    var r := left + right;
    assert o == left + [o[i]] + right;
    forall a, b | 0 <= a < b < |r| ensures r[a] != r[b] {
      var a' := if a < i then a else a + 1;
      var b' := if b < i then b else b + 1;
      assert r[a] == o[a'] && r[b] == o[b'];
    }
    forall x ensures x in r <==> x in keys - {o[i]} {
      if x in r {
        var j :| 0 <= j < |r| && r[j] == x;
        var j' := if j < i then j else j + 1;
        assert o[j'] == x && j' != i;
      }
      if x in keys - {o[i]} {
        assert x in o;
        var j :| 0 <= j < |o| && o[j] == x;
        assert j != i;
        if j < i { assert left[j] == x; } else { assert right[j - i - 1] == x; }
      }
    }
  }

  /** A visiting order is exactly as long as the map has keys. */
  lemma {:induction false} EnumerationSize(order: seq<string>, keys: set<string>)
    requires IsEnumeration(order, keys)
    ensures |order| == |keys|
  {
    if order != [] {
      var k := order[|order| - 1];
      EnumerationDropLast(order, keys);
      EnumerationSize(order[..|order| - 1], keys - {k});
    }
  }

  /** A one-key map has one visiting order. */
  lemma SingletonEnumeration(order: seq<string>, a: string)
    requires IsEnumeration(order, {a})
    ensures order == [a]
  {
    EnumerationSize(order, {a});
    assert order[0] in order;
  }

  /** A two-key map has two visiting orders. */
  lemma PairEnumeration(order: seq<string>, a: string, b: string)
    requires a != b && IsEnumeration(order, {a, b})
    ensures order == [a, b] || order == [b, a]
  {
    EnumerationSize(order, {a, b});
    assert order[0] in order && order[1] in order;
  }

  /**
   * The iteration order of the named map does not matter: any two orders
   * that visit each key once yield the same tokens up to rearrangement, and
   * so the same number of them.
   */
  lemma {:induction false} EncodeNamedOrderIrrelevant(o1: seq<string>, o2: seq<string>, named: map<string, JsonValue>, keys: set<string>)
    requires IsEnumeration(o1, keys) && IsEnumeration(o2, keys)
    ensures multiset(EncodeNamed(o1, named)) == multiset(EncodeNamed(o2, named))
    ensures |EncodeNamed(o1, named)| == |EncodeNamed(o2, named)|
    decreases |o1|
  {
    if o1 == [] {
      EnumerationSize(o1, keys);
      EnumerationSize(o2, keys);
    } else {
      var k := o1[|o1| - 1];
      assert k in o2;
      var i :| 0 <= i < |o2| && o2[i] == k;
      EnumerationDropLast(o1, keys);
      EnumerationDropAt(o2, keys, i);
      EncodeNamedOrderIrrelevant(o1[..|o1| - 1], o2[..i] + o2[i + 1..], named, keys - {k});
      EncodeNamedSplitAt(o2, named, i);
      EncodeNamedConcat(o2[..i], o2[i + 1..], named);
    }
  }
}
