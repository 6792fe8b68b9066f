/// `main` of the two batch applications: parse the flags, give the output
/// file name a stream-index field, run `BatchProcess` on the input files.
module BatchMain {
  import opened CStrings
  import opened Engine
  import Flags
  import TritonBatch
  import AigsBatch

  /// The name used when `--out_file` is empty.
  const DefaultPattern: string := "BatchOut_%02u.mp4"

  /// The stream-index field inserted before a four-character extension.
  const IndexField: string := "_%02u"

  /// The rewrite of lines 443-446 of TritonClientApp.cpp (lines 379-382 of
  /// BatchAigsEffectApp.cpp).  `insert(size() - 4, ...)` on a name shorter
  /// than four characters computes a wrapped-around position, which
  /// `std::string::insert` rejects with `std::out_of_range`: that case is
  /// `None`.
  function OutFilePattern(name: string): (r: Option<string>)
  {
    if name == [] then Some(DefaultPattern)
    else if '%' in name then Some(name)
    else if |name| < 4 then None
    else Some(name[..|name| - 4] + IndexField + name[|name| - 4..])
  }

  /// Whatever pattern comes out has a `%` for `snprintf` to fill in.
  lemma {:induction false} PatternHasField(name: string)
    requires OutFilePattern(name).Some?
    ensures '%' in OutFilePattern(name).value
  {
    var r := OutFilePattern(name).value;
    if name != [] && '%' !in name {
      assert r[|name| - 4 + 1] == '%';
    } else if name == [] {
      assert r[9] == '%';
    }
  }

  /// A name that already has a `%` is used as it is; an empty one becomes
  /// the default; a name without `%` fails exactly when it is shorter than
  /// four characters.
  lemma {:induction false} PatternCases(name: string)
    ensures '%' in name ==> OutFilePattern(name) == Some(name)
    ensures name == [] ==> OutFilePattern(name) == Some("BatchOut_%02u.mp4")
    ensures name != [] && '%' !in name ==> (OutFilePattern(name).None? <==> |name| < 4)
  {
  }

  /// The field goes in just before the last four characters: taking it out
  /// again gives back the name, and the extension stays at the end.
  lemma {:induction false} PatternInsertion(name: string)
    requires name != [] && '%' !in name && |name| >= 4
    ensures var p := OutFilePattern(name).value;
      && |p| == |name| + 5
      && p[..|name| - 4] + p[|name| + 1..] == name
      && p[|name| - 4..|name| + 1] == IndexField
      && p[|p| - 4..] == name[|name| - 4..]
  {
    var p := OutFilePattern(name).value;
    var a, z := name[..|name| - 4], name[|name| - 4..];
    assert p == a + IndexField + z;
    assert p[..|name| - 4] == a;
    assert p[|name| + 1..] == z;
    assert a + z == name;
  }

  /// How `main` ends: with the count `ParseMyArgs` returned, with the
  /// exception of the pattern rewrite, or with what `BatchProcess` returned
  /// for the pattern it was given (0 for success, the status otherwise).
  datatype Exit = ParseErrors(errs: int) | OutOfRange | Processed(pattern: string, outcome: Outcome)

  /// What opening each named input for reading and writing yields.
  function Sources(files: seq<string>, media: string -> Source): (r: seq<Source>)
    ensures |r| == |files| && forall i :: 0 <= i < |files| ==> r[i] == media(files[i])
  {
    seq(|files|, i requires 0 <= i < |files| => media(files[i]))
  }

  /// Lines 434-456 of `main`, given the parsed flags; `run` is the
  /// application's `BatchProcess`.  The logger configuration only prints.
  function MainAfterParse(p: Flags.Parsed, media: string -> Source, run: seq<Source> -> Outcome): (r: Exit)
  {
    if p.errs != 0 then ParseErrors(p.errs)
    else match OutFilePattern(Flags.TextFlag(p.store, "outFile"))
      case None => OutOfRange
      case Some(pat) => Processed(pat, run(Sources(p.inFiles, media)))
  }

  /// Once the parse is clean and the output name gives a pattern, the
  /// application runs on one source per input file, in the order the files
  /// were named, each opened by `media`.
  lemma {:induction false} MainRunsInputs(p: Flags.Parsed, media: string -> Source, run: seq<Source> -> Outcome, srcs: seq<Source>)
    requires p.errs == 0 && OutFilePattern(Flags.TextFlag(p.store, "outFile")).Some?
    requires |srcs| == |p.inFiles| && forall i :: 0 <= i < |srcs| ==> srcs[i] == media(p.inFiles[i])
    ensures MainAfterParse(p, media, run) == Processed(OutFilePattern(Flags.TextFlag(p.store, "outFile")).value, run(srcs))
  {
    assert Sources(p.inFiles, media) == srcs;
  }

  /// A parse that reports errors processes nothing; a processed run got a
  /// pattern with an index field.
  lemma {:induction false} MainGuards(p: Flags.Parsed, media: string -> Source, run: seq<Source> -> Outcome)
    ensures p.errs != 0 <==> MainAfterParse(p, media, run).ParseErrors?
    ensures MainAfterParse(p, media, run).Processed? ==> '%' in MainAfterParse(p, media, run).pattern
  {
    if p.errs == 0 && OutFilePattern(Flags.TextFlag(p.store, "outFile")).Some? {
      PatternHasField(Flags.TextFlag(p.store, "outFile"));
    }
  }

  /// `main` of TritonClientApp.cpp (lines 430-457).
  method TritonMain(argv: seq<string>, media: string -> Source, faults: Faults) returns (exit: Exit)
    requires |argv| >= 1
    ensures exit == MainAfterParse(Flags.BatchParse(Flags.TritonTable, Flags.Parsed(Flags.TritonDefaults, [], 0), argv[1..]),
                                   media, srcs => TritonBatch.TritonRun(srcs, faults))
  {
    var flags := new Flags.BatchFlags(Flags.TritonTable, Flags.TritonDefaults);
    var errs := flags.ParseMyArgs(argv);
    if errs != 0 {
      return ParseErrors(errs);
    }
    var pattern := OutFilePattern(Flags.TextFlag(flags.store, "outFile"));
    if pattern.None? {
      return OutOfRange;
    }
    var status, events, writes := TritonBatch.BatchProcess(Sources(flags.inFiles, media), faults);
    exit := Processed(pattern.value, Outcome(status, events, writes));
  }

  /// `main` of BatchAigsEffectApp.cpp (lines 366-393).
  method AigsMain(argv: seq<string>, media: string -> Source, faults: Faults) returns (exit: Exit)
    requires |argv| >= 1
    ensures exit == MainAfterParse(Flags.BatchParse(Flags.AigsTable, Flags.Parsed(Flags.AigsDefaults, [], 0), argv[1..]),
                                   media, srcs => AigsBatch.AigsRun(srcs, faults))
  {
    var flags := new Flags.BatchFlags(Flags.AigsTable, Flags.AigsDefaults);
    var errs := flags.ParseMyArgs(argv);
    if errs != 0 {
      return ParseErrors(errs);
    }
    var pattern := OutFilePattern(Flags.TextFlag(flags.store, "outFile"));
    if pattern.None? {
      return OutOfRange;
    }
    var status, events, writes := AigsBatch.BatchProcess(Sources(flags.inFiles, media), faults);
    exit := Processed(pattern.value, Outcome(status, events, writes));
  }
}
