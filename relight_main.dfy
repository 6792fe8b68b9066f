/// `main` of the two relighting applications: parse the flags, stop on
/// `--help`, count the required flags that are missing, set the initial
/// view, and process the input unless something was missing.
module RelightMain {
  import opened Engine
  import opened RelightCommon
  import Flags
  import CStrings
  import RelightTriton

  /// How `main` ends: with `NVCV_ERR_HELP` straight after parsing, or with
  /// the application error it returns as its exit code (see `AppCode`).
  datatype Exit = Help | Finished(err: AppErr)

  /// What `main` decides from the globals before processing: whether a
  /// window is shown, and how many required flags are missing.
  datatype Checked = Checked(show: bool, missing: nat)

  /// Lines 1192-1209 of RelightingTritonClientApp.cpp (1302-1319 of
  /// RelightingEffectApp.cpp): `--webcam` forces `--show`, then one error
  /// each for a missing model directory, input, HDR list, or output when
  /// there is no window.
  function Check(store: Flags.Store): (r: Checked)
  {
    var webcam := Flags.BoolFlag(store, "webcam");
    var show := Flags.BoolFlag(store, "show") || webcam;
    Checked(show,
            (if Flags.TextFlag(store, "modelsDir") == "" then 1 else 0)
            + (if Flags.TextFlag(store, "inFile") == "" && !webcam then 1 else 0)
            + (if Flags.TextFlag(store, "inHDR") == "" then 1 else 0)
            + (if Flags.TextFlag(store, "outFile") == "" && !show then 1 else 0))
  }

  /// Nothing is missing exactly when there is a model directory, an input
  /// file or the webcam, an HDR list, and an output file or a window; the
  /// webcam always brings up the window, so it never needs an output file.
  lemma {:induction false} CheckCounts(store: Flags.Store)
    ensures Check(store).missing == 0 <==>
      && Flags.TextFlag(store, "modelsDir") != ""
      && (Flags.TextFlag(store, "inFile") != "" || Flags.BoolFlag(store, "webcam"))
      && Flags.TextFlag(store, "inHDR") != ""
      && (Flags.TextFlag(store, "outFile") != "" || Flags.BoolFlag(store, "show") || Flags.BoolFlag(store, "webcam"))
    ensures Check(store).missing <= 4
    ensures Flags.BoolFlag(store, "webcam") ==> Check(store).show
    ensures Check(store).missing == 4 ==> Flags.TextFlag(store, "modelsDir") == "" && Flags.TextFlag(store, "inHDR") == ""
  {
  }

  /// The view `main` gives the application: `setAutorotate` from
  /// `--autorotate`, and `setShowMode` to input exactly for
  /// `--show_mode=input`.
  function StartView(store: Flags.Store): (r: View)
  {
    InitialView.(autorotate := Flags.BoolFlag(store, "autorotate"),
                 showMode := if Flags.TextFlag(store, "showMode") == "input" then ShowInput else ShowOutput)
  }

  /// The flags `processMovie` consults, with `show` as forced by the webcam.
  function MovieOpts(store: Flags.Store, show: bool): RelightTriton.Opts
  {
    RelightTriton.Opts(Flags.BoolFlag(store, "webcam"), show, Flags.TextFlag(store, "inFile"),
                       Flags.TextFlag(store, "outFile"), Flags.TextFlag(store, "outMat"))
  }

  /// `main` of RelightingTritonClientApp.cpp (lines 1177-1228) on the
  /// arguments after the program name; the logger only prints.  The calls
  /// end with those of the destructor of `app`, which runs `cleanup` when
  /// `main` returns.
  function TritonMainSpec(args: seq<string>, env: RelightTriton.MovieEnv): (Exit, seq<RelightTriton.Call>)
  {
    var p := Flags.RelightParse(Flags.RelightTritonTable, Flags.RelightDefaults, args);
    if p.code == Flags.HelpCode then (Help, [])
    else
      var c := Check(p.store);
      if p.code + c.missing != 0 then (Finished(AppFlag), [])
      else
        var m := RelightTriton.Movie(MovieOpts(p.store, c.show), env, StartView(p.store), [], RelightTriton.Fresh);
        (Finished(m.err), m.calls + RelightTriton.CleanupCalls(m.owned))
  }

  /// `--help` ends `main` before anything is checked or run; otherwise the
  /// flag error is returned exactly when a required flag is missing, and
  /// only then is nothing run.
  lemma {:induction false} TritonMainOutcomes(args: seq<string>, env: RelightTriton.MovieEnv)
    ensures var p := Flags.RelightParse(Flags.RelightTritonTable, Flags.RelightDefaults, args);
      && (TritonMainSpec(args, env).0 == Help <==> p.code == Flags.HelpCode)
      && (p.code != Flags.HelpCode ==>
            (TritonMainSpec(args, env).0 == Finished(AppFlag) <==> Check(p.store).missing != 0))
      && (TritonMainSpec(args, env).1 != [] ==> p.code == 0 && Check(p.store).missing == 0)
  {
    var p := Flags.RelightParse(Flags.RelightTritonTable, Flags.RelightDefaults, args);
    Flags.RelightParseCode(Flags.RelightTritonTable, Flags.RelightDefaults, args);
    if p.code != Flags.HelpCode {
      var c := Check(p.store);
      RelightTriton.MovieResults(MovieOpts(p.store, c.show), env, StartView(p.store), [], RelightTriton.Fresh);
    }
  }

  /// Whatever path `processMovie` takes, by the time `main` has returned
  /// the effect has been destroyed exactly once if its creation succeeded,
  /// and the CUDA stream exactly once if its creation did; nothing is
  /// destroyed when nothing was run or created.
  lemma {:induction false} TritonMainReleases(args: seq<string>, env: RelightTriton.MovieEnv)
    ensures var p := Flags.RelightParse(Flags.RelightTritonTable, Flags.RelightDefaults, args);
      var run := p.code != Flags.HelpCode && p.code + Check(p.store).missing == 0;
      var k := RelightTriton.FirstSetupFailure(env, 0);
      var calls := TritonMainSpec(args, env).1;
      && RelightTriton.Count(calls, RelightTriton.Destroy) == (if run && k > 2 then 1 else 0)
      && RelightTriton.Count(calls, RelightTriton.StreamDestroy) == (if run && k > 0 then 1 else 0)
  {
    var p := Flags.RelightParse(Flags.RelightTritonTable, Flags.RelightDefaults, args);
    if p.code != Flags.HelpCode {
      var c := Check(p.store);
      RelightTriton.MovieReleases(MovieOpts(p.store, c.show), env, StartView(p.store), [], RelightTriton.Fresh);
    }
  }

  /// `main` of RelightingEffectApp.cpp (lines 1287-1340) on the arguments
  /// after the program name.  `processImage` and `processMovie` are not part
  /// of this model: `image` and `movie` are what they return.
  function EffectMainSpec(args: seq<string>, image: AppErr, movie: AppErr): (r: Exit)
  {
    var p := Flags.RelightParse(Flags.RelightEffectTable, Flags.RelightDefaults, args);
    if p.code == Flags.HelpCode then Help
    else if p.code + Check(p.store).missing != 0 then Finished(AppFlag)
    else if CStrings.IsImageFile(Flags.TextFlag(p.store, "inFile")) then Finished(image)
    else Finished(movie)
  }

  /// An input named like an image goes to `processImage`, anything else to
  /// `processMovie`; help and missing flags stop `main` first.
  lemma {:induction false} EffectMainOutcomes(args: seq<string>, image: AppErr, movie: AppErr)
    requires image != AppFlag && movie != AppFlag
    ensures var p := Flags.RelightParse(Flags.RelightEffectTable, Flags.RelightDefaults, args);
      && (EffectMainSpec(args, image, movie) == Help <==> p.code == Flags.HelpCode)
      && (p.code != Flags.HelpCode ==>
            (EffectMainSpec(args, image, movie) == Finished(AppFlag) <==> Check(p.store).missing != 0))
  {
    Flags.RelightParseCode(Flags.RelightEffectTable, Flags.RelightDefaults, args);
  }

  /// Lines 1192-1209 as `main` writes them: `FLAG_show` forced by the
  /// webcam, then `++nErrs` per missing flag.
  method CheckFlags(store: Flags.Store, nErrs0: int) returns (show: bool, nErrs: int)
    ensures (show, nErrs) == (Check(store).show, nErrs0 + Check(store).missing)
  {
    nErrs := nErrs0;
    var webcam := Flags.BoolFlag(store, "webcam");
    show := Flags.BoolFlag(store, "show");
    if webcam {
      show := true;
    }
    if Flags.TextFlag(store, "modelsDir") == "" {
      nErrs := nErrs + 1;
    }
    if Flags.TextFlag(store, "inFile") == "" && !webcam {
      nErrs := nErrs + 1;
    }
    if Flags.TextFlag(store, "inHDR") == "" {
      nErrs := nErrs + 1;
    }
    if Flags.TextFlag(store, "outFile") == "" && !show {
      nErrs := nErrs + 1;
    }
  }

  /// `main` of RelightingTritonClientApp.cpp.
  method TritonMain(argv: seq<string>, env: RelightTriton.MovieEnv) returns (exit: Exit, calls: seq<RelightTriton.Call>)
    requires |argv| >= 1
    ensures (exit, calls) == TritonMainSpec(argv[1..], env)
  {
    var flags := new Flags.RelightFlags(Flags.RelightTritonTable, Flags.RelightDefaults);
    var nErrs := flags.ParseMyArgs(argv);
    if nErrs == Flags.HelpCode {
      return Help, [];
    }
    var store := flags.store;
    var show;
    show, nErrs := CheckFlags(store, nErrs);
    var app := new RelightTriton.RelightApp();
    app.SetAutorotate(Flags.BoolFlag(store, "autorotate"));
    app.SetShowMode(if Flags.TextFlag(store, "showMode") == "input" then ShowInput else ShowOutput);
    if nErrs != 0 {
      return Finished(AppFlag), [];
    }
    var err;
    err, calls := app.ProcessMovie(MovieOpts(store, show), env);
    var last := app.Cleanup();
    calls := calls + last;
    exit := Finished(err);
  }

  /// `main` of RelightingEffectApp.cpp, with what `processImage` and
  /// `processMovie` return given.
  method EffectMain(argv: seq<string>, image: AppErr, movie: AppErr) returns (exit: Exit)
    requires |argv| >= 1
    ensures exit == EffectMainSpec(argv[1..], image, movie)
  {
    var flags := new Flags.RelightFlags(Flags.RelightEffectTable, Flags.RelightDefaults);
    var nErrs := flags.ParseMyArgs(argv);
    if nErrs == Flags.HelpCode {
      return Help;
    }
    var show;
    show, nErrs := CheckFlags(flags.store, nErrs);
    if nErrs != 0 {
      return Finished(AppFlag);
    }
    var isImage := CStrings.IsImageFile(Flags.TextFlag(flags.store, "inFile"));
    exit := if isImage then Finished(image) else Finished(movie);
  }
}
