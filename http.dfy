/**
 * The request side of the server's routes: query arguments as a map from
 * name to its first value, and the flag test the routes share.
 */
module Http {
  import opened Wrappers

  /** `request.args`: each query parameter's first value. */
  type Args = map<string, string>

  /** `request.args.get(name)`: None when the parameter is absent. */
  function Arg(args: Args, name: string): (r: Option<string>)
    ensures r.Some? <==> name in args
    ensures r.Some? ==> r.value == args[name]
  {
    if name in args then Some(args[name]) else None
  }

  /** `request.args.get(name) in ("1", "true", "yes")`. */
  predicate Truthy(args: Args, name: string)
    ensures Truthy(args, name) <==> name in args && args[name] in {"1", "true", "yes"}
  {
    var v := Arg(args, name);
    v == Some("1") || v == Some("true") || v == Some("yes")
  }
}
