/** The two argument-scanning idioms the resolvers share:
    `args.findIndex(arg => names.has(arg))` and the value `args[idx + 1]`
    that follows the flag found. `args` is `process.argv.slice(2)`. */
module CommandLine {
  import opened Wrappers

  /** `i` is the index of the first argument that is one of `names`. */
  ghost predicate FirstOccurrence(args: seq<string>, names: set<string>, i: int) {
    && 0 <= i < |args|
    && args[i] in names
    && forall j :: 0 <= j < i ==> args[j] !in names
  }

  /** `findIndex`, with `None` for its `-1`. */
  function FindFirst(args: seq<string>, names: set<string>): (r: Option<nat>)
    ensures r.Some? ==> FirstOccurrence(args, names, r.value)
    ensures r.None? <==> forall j :: 0 <= j < |args| ==> args[j] !in names
  {
    if |args| == 0 then None
    else if args[0] in names then Some(0)
    else
      match FindFirst(args[1..], names)
      case None => None
      case Some(k) => Some(k + 1)
  }

  /** The argument after the first flag in `names`; `None` when no flag is
      given or the flag is the last argument (`args[idx + 1]` is `undefined`). */
  function FlagValue(args: seq<string>, names: set<string>): (r: Option<string>)
    ensures r.Some? <==> exists i :: FirstOccurrence(args, names, i) && i + 1 < |args|
    ensures forall i :: FirstOccurrence(args, names, i) && i + 1 < |args| ==> r == Some(args[i + 1])
  {
    match FindFirst(args, names)
    case None => None
    case Some(i) =>
      if i + 1 < |args| then Some(args[i + 1]) else None
  }

  /** Only the first flag counts: whatever follows its value, and whatever
      later copies of the flag say, `FlagValue` reads the value right after
      the first one. */
  lemma FlagValueAfterPrefix(pre: seq<string>, flag: string, v: string, rest: seq<string>, names: set<string>)
    requires flag in names
    requires forall j :: 0 <= j < |pre| ==> pre[j] !in names
    ensures FlagValue(pre + [flag, v] + rest, names) == Some(v)
  {
    var args := pre + [flag, v] + rest;
    assert FirstOccurrence(args, names, |pre|);
  }
}
