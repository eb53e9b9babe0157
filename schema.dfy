/**
 * The two data models the translation layer connects: the clap command tree
 * it reads (subcommands and their arguments, as clap's introspection getters
 * report them) and the tool descriptors it publishes.
 */
module Schema {
  import opened Wrappers

  /**
   * One clap argument as seen through its getters: `get_id`, `get_long`,
   * `get_short`, the minimum of `get_num_args` (None when no value range is
   * declared), `get_index`, `is_hide_set`, `is_required_set` and `get_help`.
   */
  datatype Arg = Arg(
    id: string,
    long: Option<string>,
    short: Option<char>,
    minValues: Option<nat>,
    index: Option<nat>,
    hidden: bool,
    required: bool,
    help: Option<string>)

  /** A subcommand: `get_name`, `get_about` and `get_arguments` in declaration order. */
  datatype Subcommand = Subcommand(name: string, about: Option<string>, args: seq<Arg>)

  /** The command `mcp` after `augment_subcommands`: its subcommands in declaration order. */
  datatype Command = Command(subcommands: seq<Subcommand>)

  /** The two values the descriptor's "type" key takes. */
  datatype PropType = Boolean | String

  /**
   * The JSON object stored under one key of "properties": "type", an optional
   * "description", and the "x-positional" / "x-position" extensions, each
   * absent (None) or present with its value.
   */
  datatype Property = Property(
    ty: PropType,
    description: Option<string>,
    xPositional: Option<bool>,
    xPosition: Option<nat>)

  /**
   * One tool descriptor. The input schema's "type" is always "object", so
   * only its "properties" map and its "required" list are kept.
   */
  datatype Tool = Tool(
    name: string,
    description: string,
    properties: map<string, Property>,
    required: seq<string>)

  /** Arguments that extraction never surfaces: hidden ones and clap's implicit help/version. */
  predicate Skipped(a: Arg) {
    a.hidden || a.id == "help" || a.id == "version"
  }

  /** An argument with neither a long nor a short token is positional. */
  predicate IsPositional(a: Arg) {
    a.long.None? && a.short.None?
  }

  /** No two arguments of a subcommand share an id (clap asserts this when it builds a command). */
  predicate UniqueIds(args: seq<Arg>) {
    forall i, j :: 0 <= i < j < |args| ==> args[i].id != args[j].id
  }
}
