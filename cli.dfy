/**
 * The command line forwarded to `sphinx-build` (sphinx_pdf_generate/cli.py,
 * `_get_build_args`, over the option table of sphinx_pdf_generate/build.py).
 */
module Cli {
  import opened Wrappers

  /** What argparse stored for one option: never given, the number of
      times a counting flag was given, or the values collected for a
      valued option. */
  datatype ArgValue = Absent | Count(n: nat) | Appended(vals: seq<string>)

  /** The parsed command line: the value of each option letter, and the two
      positional directories. */
  datatype Args = Args(options: char -> ArgValue, sourcedir: string, outdir: string)

  /** `SPHINX_BUILD_OPTIONS`: each option letter with its metavar, None for
      a counting flag. */
  const SphinxBuildOptions: seq<(char, Option<string>)> := [
    ('b', Some("builder")),
    ('a', None),
    ('E', None),
    ('d', Some("path")),
    ('j', Some("N")),
    ('c', Some("path")),
    ('C', None),
    ('D', Some("setting=value")),
    ('t', Some("tag")),
    ('A', Some("name=value")),
    ('n', None),
    ('v', None),
    ('q', None),
    ('Q', None),
    ('w', Some("file")),
    ('W', None),
    ('T', None),
    ('N', None),
    ('P', None)
  ]

  /** `not val`. */
  predicate Falsy(v: ArgValue) {
    v.Absent? || (v.Count? && v.n == 0) || (v.Appended? && v.vals == [])
  }

  /** The value argparse can store for an option of this kind: a count for
      a flag, a list for a valued option. */
  predicate FitsMeta(meta: Option<string>, v: ArgValue) {
    v.Absent? || (meta.None? && v.Count?) || (meta.Some? && v.Appended?)
  }

  /** Every option of the table holds a value of its kind, as the parser
      built by `get_parser` guarantees. */
  predicate Parsed(args: Args) {
    forall i :: 0 <= i < |SphinxBuildOptions| ==>
      FitsMeta(SphinxBuildOptions[i].1, args.options(SphinxBuildOptions[i].0))
  }

  /** `f"-{arg}"`. */
  function Opt(arg: char): string {
    ['-', arg]
  }

  /** The pairs `opt, v` for the values in order. */
  function Pairs(opt: string, vals: seq<string>): seq<string>
    decreases |vals|
  {
    if vals == [] then []
    else Pairs(opt, vals[..|vals| - 1]) + [opt, vals[|vals| - 1]]
  }

  /** What one entry of the table contributes. */
  function OptionArgs(arg: char, meta: Option<string>, v: ArgValue): seq<string>
    requires FitsMeta(meta, v)
  {
    if Falsy(v) then []
    else if meta.None? then seq(v.n, _ => Opt(arg))
    else Pairs(Opt(arg), v.vals)
  }

  /** What the first `k` entries of the table contribute, in table order. */
  function Emitted(args: Args, k: nat): seq<string>
    requires Parsed(args) && k <= |SphinxBuildOptions|
  {
    if k == 0 then []
    else
      var (arg, meta) := SphinxBuildOptions[k - 1];
      Emitted(args, k - 1) + OptionArgs(arg, meta, args.options(arg))
  }

  /** `_get_build_args`: the options in table order, then the resolved
      source and output directories. */
  method GetBuildArgs(args: Args, realpath: string -> string) returns (buildArgs: seq<string>)
    requires Parsed(args)
    ensures buildArgs == Emitted(args, |SphinxBuildOptions|) + [realpath(args.sourcedir), realpath(args.outdir)]
  {
    buildArgs := [];
    for k := 0 to |SphinxBuildOptions|
      invariant buildArgs == Emitted(args, k)
    {
      var (arg, meta) := SphinxBuildOptions[k];
      buildArgs := AddOption(buildArgs, arg, meta, args.options(arg));
    }
    buildArgs := buildArgs + [realpath(args.sourcedir), realpath(args.outdir)];
  }

  /** The body of the loop over the table: one option's words appended. */
  method AddOption(buildArgs: seq<string>, arg: char, meta: Option<string>, val: ArgValue)
    returns (extended: seq<string>)
    requires FitsMeta(meta, val)
    ensures extended == buildArgs + OptionArgs(arg, meta, val)
  {
    extended := buildArgs;
    if Falsy(val) {
      return;
    }
    var opt := Opt(arg);
    if meta.None? {
      extended := extended + seq(val.n, _ => opt);
    } else {
      for j := 0 to |val.vals|
        invariant extended == buildArgs + Pairs(opt, val.vals[..j])
      {
        assert val.vals[..j + 1][..j] == val.vals[..j];
        extended := extended + [opt, val.vals[j]];
      }
      assert val.vals[..|val.vals|] == val.vals;
    }
  }

  // ---------------------------------------------------------------------
  // Properties of the argument list
  // ---------------------------------------------------------------------

  /** A valued option given with values v1..vn emits "-x", v1, ...,
      "-x", vn. */
  lemma {:induction false} PairsShape(opt: string, vals: seq<string>)
    ensures |Pairs(opt, vals)| == 2 * |vals|
    ensures forall i :: 0 <= i < |vals| ==> Pairs(opt, vals)[2 * i] == opt && Pairs(opt, vals)[2 * i + 1] == vals[i]
    decreases |vals|
  {
    if vals != [] {
      var init := vals[..|vals| - 1];
      PairsShape(opt, init);
      forall i | 0 <= i < |vals|
        ensures Pairs(opt, vals)[2 * i] == opt && Pairs(opt, vals)[2 * i + 1] == vals[i]
      {
        if i < |init| {
          assert vals[i] == init[i];
        }
      }
    }
  }

  /** One entry's contribution: nothing for a falsy value, the flag `n`
      times for a flag counted `n` times, and a flag before each value of a
      valued option. */
  lemma OptionArgsShape(arg: char, meta: Option<string>, v: ArgValue)
    requires FitsMeta(meta, v)
    ensures Falsy(v) ==> OptionArgs(arg, meta, v) == []
    ensures !Falsy(v) && meta.None? ==>
      |OptionArgs(arg, meta, v)| == v.n && forall i :: 0 <= i < v.n ==> OptionArgs(arg, meta, v)[i] == Opt(arg)
    ensures !Falsy(v) && meta.Some? ==>
      |OptionArgs(arg, meta, v)| == 2 * |v.vals|
      && forall i :: 0 <= i < |v.vals| ==>
           OptionArgs(arg, meta, v)[2 * i] == Opt(arg) && OptionArgs(arg, meta, v)[2 * i + 1] == v.vals[i]
  {
    if !Falsy(v) && meta.Some? {
      PairsShape(Opt(arg), v.vals);
    }
  }

  /** Options are emitted in table order: what the earlier entries emit is
      a prefix of what the later ones add to. */
  lemma {:induction false} EmittedInOrder(args: Args, j: nat, k: nat)
    requires Parsed(args) && j <= k <= |SphinxBuildOptions|
    ensures Emitted(args, j) <= Emitted(args, k)
    decreases k - j
  {
    if j < k {
      EmittedInOrder(args, j, k - 1);
    }
  }

  /** With no option given, only the two directories are passed. */
  lemma {:induction false} NothingGiven(args: Args, k: nat)
    requires Parsed(args) && k <= |SphinxBuildOptions|
    requires forall i :: 0 <= i < k ==> Falsy(args.options(SphinxBuildOptions[i].0))
    ensures Emitted(args, k) == []
  {
    if k > 0 {
      NothingGiven(args, k - 1);
    }
  }

  /** Every emitted word is a flag of the table or a value given to one of
      its valued options. */
  lemma {:induction false} EmittedWords(args: Args, k: nat)
    requires Parsed(args) && k <= |SphinxBuildOptions|
    ensures forall w :: w in Emitted(args, k) ==>
      exists i :: 0 <= i < k && (w == Opt(SphinxBuildOptions[i].0) || FromValues(args, i, w))
  {
    if k > 0 {
      EmittedWords(args, k - 1);
      var (arg, meta) := SphinxBuildOptions[k - 1];
      var v := args.options(arg);
      OptionArgsShape(arg, meta, v);
      forall w | w in OptionArgs(arg, meta, v)
        ensures w == Opt(arg) || FromValues(args, k - 1, w)
      {
        var p :| 0 <= p < |OptionArgs(arg, meta, v)| && OptionArgs(arg, meta, v)[p] == w;
        if meta.Some? && p % 2 == 1 {
          assert OptionArgs(arg, meta, v)[2 * (p / 2) + 1] == v.vals[p / 2];
        } else if meta.Some? {
          assert OptionArgs(arg, meta, v)[2 * (p / 2)] == Opt(arg);
        }
      }
    }
  }

  /** `w` is one of the values given to the `i`-th option of the table. */
  predicate FromValues(args: Args, i: nat, w: string)
    requires i < |SphinxBuildOptions|
  {
    var v := args.options(SphinxBuildOptions[i].0);
    v.Appended? && w in v.vals
  }
}
