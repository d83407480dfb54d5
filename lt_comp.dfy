/**
 * lt-comp: build a letter transducer from a dictionary.
 *
 * The driver reads its options, takes three or four positional arguments
 * (mode, dictionary, output, optional ACX file), probes the dictionary with
 * an XML reader to choose between the XML `Compiler` and the `AttCompiler`,
 * checks the mode and the left/right variant options, runs the chosen
 * front-end and finally opens the output file and writes the result.
 *
 * The XML probe and the opening of the output file are observations given
 * as parameters; the front-ends and their writers are recorded as actions.
 */
module LtComp {
  import opened Results
  import opened Getopt

  /** The options `main` keeps: getopt's "a:v:l:r:mHhV" without -h, which,
      like any unrecognised option, ends in the usage message. */
  const Accepted: set<char> := {'a', 'v', 'l', 'r', 'm', 'H', 'V'}

  /** What the options loop leaves in `vl`, `vr` and the two compilers. */
  datatype Settings = Settings(
    alt: string,            // -a, Compiler::setAltValue
    variant: string,        // -v, Compiler::setVariantValue
    variantLeft: string,    // -l, vl and Compiler::setVariantLeftValue
    variantRight: string,   // -r, vr and Compiler::setVariantRightValue
    keepBoundaries: bool,   // -m
    hfst: bool,             // -H, AttCompiler::setHfstSymbols
    verbose: bool)          // -V

  /** Reference reading of the options: every value option holds the
      argument of its last occurrence, every flag is set when given at all. */
  function SettingsFrom(ts: seq<Token>): Settings
  {
    Settings(LastArg(ts, 'a'), LastArg(ts, 'v'), LastArg(ts, 'l'), LastArg(ts, 'r'),
             Given(ts, 'm'), Given(ts, 'H'), Given(ts, 'V'))
  }

  /** The getopt loop of `main`: each token overwrites one setting; -h or an
      unknown option ends the program with the usage message (None). */
  method ParseOptions(ts: seq<Token>) returns (r: Option<Settings>)
    ensures r.Some? <==> OnlyFrom(ts, Accepted)
    ensures r.Some? ==> r.value == SettingsFrom(ts)
  {
    var alt, variant, vl, vr := "", "", "", "";
    var keepBoundaries, hfst, verbose := false, false, false;
    var i := 0;
    while i < |ts|
      invariant 0 <= i <= |ts|
      invariant OnlyFrom(ts[..i], Accepted)
      invariant Settings(alt, variant, vl, vr, keepBoundaries, hfst, verbose) == SettingsFrom(ts[..i])
    {
      var t := ts[i];
      assert ts[..i + 1] == ts[..i] + [t];
      LastArgSnoc(ts[..i], t, 'a');
      LastArgSnoc(ts[..i], t, 'v');
      LastArgSnoc(ts[..i], t, 'l');
      LastArgSnoc(ts[..i], t, 'r');
      GivenSnoc(ts[..i], t, 'm');
      GivenSnoc(ts[..i], t, 'H');
      GivenSnoc(ts[..i], t, 'V');
      match t.code {
        case 'a' => alt := t.arg;
        case 'v' => variant := t.arg;
        case 'l' => vl := t.arg;
        case 'r' => vr := t.arg;
        case 'm' => keepBoundaries := true;
        case 'H' => hfst := true;
        case 'V' => verbose := true;
        case _ => return None;
      }
      i := i + 1;
    }
    assert ts[..i] == ts;
    r := Some(Settings(alt, variant, vl, vr, keepBoundaries, hfst, verbose));
  }

  /** The compilation direction given by the mode token. */
  datatype Mode = LR | RL

  /** `ttype`: 'x' for the XML `Compiler`, 'a' for the `AttCompiler`. */
  datatype FrontEnd = Xml | Att

  /** Compiler::COMPILER_RESTRICTION_LR_VAL and COMPILER_RESTRICTION_RL_VAL. */
  datatype Restriction = RestrictLR | RestrictRL

  /** What the XML probe of the dictionary observed: either
      xmlReaderForFile gave no reader, or it did and the first
      xmlTextReaderRead returned `firstRead`. */
  datatype Probe = ReaderFailed | ReaderOpened(firstRead: int)

  /** Why `main` ends with the usage message. */
  datatype UsageReason =
    | BadOption          // -h or an option getopt does not know
    | BadArity           // not 3 or 4 positional arguments
    | LeftVariantInLr    // "-l specified, but mode is lr"
    | RightVariantInRl   // "-r specified, but mode is rl"
    | UnknownMode        // a mode token other than "lr" and "rl"

  /** Every way `main` exits with EXIT_FAILURE. */
  datatype Failure =
    | Usage(reason: UsageReason)
    | CannotOpenDictionary(path: string)
    | CannotOpenOutput(path: string)

  /** What `main` settles on once every check has passed. */
  datatype Plan = Plan(
    front: FrontEnd,
    mode: Mode,
    infile: string,
    outfile: string,
    acx: Option<string>,    // the ACX file parsed before the dictionary
    settings: Settings)

  datatype Outcome = Rejected(failure: Failure) | Compile(plan: Plan)

  /** The configuration the options loop gives the XML `Compiler` before
      it parses: its alt, variant, left and right variant values, and the
      keep-boundaries and verbose flags. */
  datatype CompilerConfig = CompilerConfig(
    alt: string, variant: string, variantLeft: string, variantRight: string,
    keepBoundaries: bool, verbose: bool)

  function XmlConfig(s: Settings): CompilerConfig
  {
    CompilerConfig(s.alt, s.variant, s.variantLeft, s.variantRight, s.keepBoundaries, s.verbose)
  }

  /** The side-effecting calls of `main`, in the order they happen; each
      parse carries the configuration of the compiler that runs it. */
  datatype Action =
    | ParseAcx(path: string, restriction: Restriction, config: CompilerConfig)   // c.parseACX
    | ParseXml(path: string, restriction: Restriction, config: CompilerConfig)   // c.parse
    | ParseAtt(path: string, rightToLeft: bool, hfstSymbols: bool)               // a.parse
    | OpenOutput(path: string)                           // fopen(outfile, "wb")
    | WriteXml                                           // c.write
    | WriteAtt                                           // a.write

  datatype Exit = ExitSuccess | ExitFailure(failure: Failure)

  /** The decision table of `main`, checks in the order the code makes them. */
  function Decide(ts: seq<Token>, positionals: seq<string>, probe: Probe): Outcome
  {
    if !OnlyFrom(ts, Accepted) then Rejected(Usage(BadOption))
    else if |positionals| != 3 && |positionals| != 4 then Rejected(Usage(BadArity))
    else
      var s := SettingsFrom(ts);
      var opc, infile, outfile := positionals[0], positionals[1], positionals[2];
      var acxfile := if |positionals| == 4 then positionals[3] else "";
      match probe
      case ReaderFailed => Rejected(CannotOpenDictionary(infile))
      case ReaderOpened(ret) =>
        var front := if ret != 1 then Att else Xml;
        if opc == "lr" then
          if s.variantRight == "" && s.variantLeft != "" then Rejected(Usage(LeftVariantInLr))
          else
            var acx := if front == Xml && acxfile != "" then Some(acxfile) else None;
            Compile(Plan(front, LR, infile, outfile, acx, s))
        else if opc == "rl" then
          if s.variantLeft == "" && s.variantRight != "" then Rejected(Usage(RightVariantInRl))
          else Compile(Plan(front, RL, infile, outfile, None, s))
        else Rejected(Usage(UnknownMode))
  }

  function RestrictionOf(m: Mode): Restriction
  {
    if m == LR then RestrictLR else RestrictRL
  }

  /** The parsing calls a plan makes, before the output file is opened. */
  function Steps(p: Plan): seq<Action>
  {
    match p.front
    case Att => [ParseAtt(p.infile, p.mode == RL, p.settings.hfst)]
    case Xml =>
      (if p.acx.Some? then [ParseAcx(p.acx.value, RestrictLR, XmlConfig(p.settings))] else [])
      + [ParseXml(p.infile, RestrictionOf(p.mode), XmlConfig(p.settings))]
  }

  function Writer(f: FrontEnd): Action
  {
    if f == Att then WriteAtt else WriteXml
  }

  /** The calls `main` makes for an outcome, given whether fopen of the
      output file succeeds. */
  function Effects(d: Outcome, outputOpens: bool): seq<Action>
  {
    match d
    case Rejected(_) => []
    case Compile(p) => Steps(p) + [OpenOutput(p.outfile)] + (if outputOpens then [Writer(p.front)] else [])
  }

  /** How `main` exits for an outcome. */
  function ExitOf(d: Outcome, outputOpens: bool): Exit
  {
    match d
    case Rejected(f) => ExitFailure(f)
    case Compile(p) => if outputOpens then ExitSuccess else ExitFailure(CannotOpenOutput(p.outfile))
  }

  /** `main`, step by step: options, positional arguments, the XML probe,
      the mode and variant checks with the parse, then the output file.
      `probe` and `outputOpens` are what libxml and fopen report. */
  method RunLtComp(ts: seq<Token>, positionals: seq<string>, probe: Probe, outputOpens: bool)
    returns (exit: Exit, trace: seq<Action>)
    ensures exit == ExitOf(Decide(ts, positionals, probe), outputOpens)
    ensures trace == Effects(Decide(ts, positionals, probe), outputOpens)
  {
    trace := [];
    var settings := ParseOptions(ts);
    if settings.None? {
      return ExitFailure(Usage(BadOption)), trace;
    }
    var s := settings.value;

    var opc, infile, outfile, acxfile := "", "", "", "";
    if |positionals| == 4 {
      opc, infile, outfile, acxfile := positionals[0], positionals[1], positionals[2], positionals[3];
    } else if |positionals| == 3 {
      opc, infile, outfile := positionals[0], positionals[1], positionals[2];
    } else {
      return ExitFailure(Usage(BadArity)), trace;
    }

    var ttype := 'x';
    match probe
    case ReaderFailed =>
      return ExitFailure(CannotOpenDictionary(infile)), trace;
    case ReaderOpened(ret) =>
      if ret != 1 {
        ttype := 'a';
      }

    if opc == "lr" {
      if s.variantRight == "" && s.variantLeft != "" {
        return ExitFailure(Usage(LeftVariantInLr)), trace;
      }
      if ttype == 'a' {
        trace := trace + [ParseAtt(infile, false, s.hfst)];
      } else {
        if acxfile != "" {
          trace := trace + [ParseAcx(acxfile, RestrictLR, XmlConfig(s))];
        }
        trace := trace + [ParseXml(infile, RestrictLR, XmlConfig(s))];
      }
    } else if opc == "rl" {
      if s.variantLeft == "" && s.variantRight != "" {
        return ExitFailure(Usage(RightVariantInRl)), trace;
      }
      if ttype == 'a' {
        trace := trace + [ParseAtt(infile, true, s.hfst)];
      } else {
        trace := trace + [ParseXml(infile, RestrictRL, XmlConfig(s))];
      }
    } else {
      return ExitFailure(Usage(UnknownMode)), trace;
    }

    trace := trace + [OpenOutput(outfile)];
    if !outputOpens {
      return ExitFailure(CannotOpenOutput(outfile)), trace;
    }
    if ttype == 'a' {
      trace := trace + [WriteAtt];
    } else {
      trace := trace + [WriteXml];
    }
    exit := ExitSuccess;
  }

  // ---------------------------------------------------------------------
  // Properties of the decision table

  /** Only three or four positional arguments get past the arity switch. */
  lemma ArityRule(ts: seq<Token>, positionals: seq<string>, probe: Probe)
    requires OnlyFrom(ts, Accepted)
    requires |positionals| != 3 && |positionals| != 4
    ensures Decide(ts, positionals, probe) == Rejected(Usage(BadArity))
  {
  }

  /** A dictionary libxml cannot open stops the program whatever the mode
      token says: the mode is looked at only after the probe. */
  lemma UnopenableDictionary(ts: seq<Token>, positionals: seq<string>, mode: string)
    requires OnlyFrom(ts, Accepted)
    requires |positionals| == 3 || |positionals| == 4
    ensures Decide(ts, positionals, ReaderFailed) == Rejected(CannotOpenDictionary(positionals[1]))
    ensures Decide(ts, positionals[0 := mode], ReaderFailed) == Decide(ts, positionals, ReaderFailed)
  {
  }

  /** The ATT front-end is chosen exactly when the reader opened but its
      first read did not return 1. */
  lemma FrontEndDetection(ts: seq<Token>, positionals: seq<string>, probe: Probe)
    requires Decide(ts, positionals, probe).Compile?
    ensures probe.ReaderOpened?
    ensures Decide(ts, positionals, probe).plan.front == Att <==> probe.firstRead != 1
  {
  }

  /** When `main` compiles at all: exactly when every check passes. */
  lemma CompileExactly(ts: seq<Token>, positionals: seq<string>, probe: Probe)
    ensures Decide(ts, positionals, probe).Compile? <==>
      && OnlyFrom(ts, Accepted)
      && (|positionals| == 3 || |positionals| == 4)
      && probe.ReaderOpened?
      && var s := SettingsFrom(ts);
         || (positionals[0] == "lr" && !(s.variantRight == "" && s.variantLeft != ""))
         || (positionals[0] == "rl" && !(s.variantLeft == "" && s.variantRight != ""))
  {
  }

  /** In mode lr a left variant without a right one is refused, in mode rl
      a right variant without a left one; giving both is never refused. */
  lemma VariantChecks(ts: seq<Token>, positionals: seq<string>, ret: int)
    requires OnlyFrom(ts, Accepted)
    requires |positionals| == 3 || |positionals| == 4
    ensures positionals[0] == "lr" ==>
      (Decide(ts, positionals, ReaderOpened(ret)) == Rejected(Usage(LeftVariantInLr)) <==>
       LastArg(ts, 'l') != "" && LastArg(ts, 'r') == "")
    ensures positionals[0] == "rl" ==>
      (Decide(ts, positionals, ReaderOpened(ret)) == Rejected(Usage(RightVariantInRl)) <==>
       LastArg(ts, 'r') != "" && LastArg(ts, 'l') == "")
    ensures (positionals[0] == "lr" || positionals[0] == "rl") && LastArg(ts, 'l') != "" && LastArg(ts, 'r') != "" ==>
      Decide(ts, positionals, ReaderOpened(ret)).Compile?
  {
  }

  /** Any mode token other than exactly "lr" or "rl" ends with the usage message. */
  lemma ModeToken(ts: seq<Token>, positionals: seq<string>, ret: int)
    requires OnlyFrom(ts, Accepted)
    requires |positionals| == 3 || |positionals| == 4
    requires positionals[0] != "lr" && positionals[0] != "rl"
    ensures Decide(ts, positionals, ReaderOpened(ret)) == Rejected(Usage(UnknownMode))
  {
  }

  /** The ACX file is parsed only in mode lr, on the XML path, when a
      non-empty fourth argument names it, and it is parsed before the
      dictionary. */
  lemma AcxRule(ts: seq<Token>, positionals: seq<string>, probe: Probe)
    requires Decide(ts, positionals, probe).Compile?
    ensures var p := Decide(ts, positionals, probe).plan;
      && (p.acx.Some? <==> p.mode == LR && p.front == Xml && |positionals| == 4 && positionals[3] != "")
      && (p.acx.Some? ==> p.acx.value == positionals[3] &&
                          Steps(p) == [ParseAcx(positionals[3], RestrictLR, XmlConfig(p.settings)),
                                       ParseXml(p.infile, RestrictLR, XmlConfig(p.settings))])
      && (p.acx.None? ==> |Steps(p)| == 1)
  {
  }

  /** The direction each front-end receives is fixed by the mode token, and
      the dictionary parse is the last parsing call. */
  lemma Directions(ts: seq<Token>, positionals: seq<string>, probe: Probe)
    requires Decide(ts, positionals, probe).Compile?
    ensures var p := Decide(ts, positionals, probe).plan;
      && (p.mode == LR <==> positionals[0] == "lr")
      && p.infile == positionals[1] && p.outfile == positionals[2]
      && Steps(p)[|Steps(p)| - 1] ==
           match p.front
           case Att => ParseAtt(positionals[1], positionals[0] == "rl", Given(ts, 'H'))
           case Xml => ParseXml(positionals[1], if positionals[0] == "lr" then RestrictLR else RestrictRL,
                                XmlConfig(SettingsFrom(ts)))
  {
  }

  /** The options reach the front-ends: every call of the XML compiler runs
      with the last -a, -v, -l and -r arguments and with -m and -V as given,
      and every ATT parse with -H as given. */
  lemma OptionsReachFrontEnds(ts: seq<Token>, positionals: seq<string>, probe: Probe,
                              outputOpens: bool, k: int)
    requires 0 <= k < |Effects(Decide(ts, positionals, probe), outputOpens)|
    ensures Decide(ts, positionals, probe).Compile?
    ensures Decide(ts, positionals, probe).plan.settings == SettingsFrom(ts)
    ensures var a := Effects(Decide(ts, positionals, probe), outputOpens)[k];
      && (a.ParseAcx? || a.ParseXml? ==>
            a.config == CompilerConfig(LastArg(ts, 'a'), LastArg(ts, 'v'), LastArg(ts, 'l'),
                                       LastArg(ts, 'r'), Given(ts, 'm'), Given(ts, 'V')))
      && (a.ParseAtt? ==> a.hfstSymbols == Given(ts, 'H'))
  {
  }

  /** Every failure other than an unwritable output file leaves the output
      untouched; when the output is opened, every parse has already run and
      the writer belongs to the front-end detection chose. */
  lemma OutputLast(ts: seq<Token>, positionals: seq<string>, probe: Probe, outputOpens: bool, k: int)
    requires var trace := Effects(Decide(ts, positionals, probe), outputOpens);
      0 <= k < |trace| && trace[k].OpenOutput?
    ensures Decide(ts, positionals, probe).Compile?
    ensures var trace := Effects(Decide(ts, positionals, probe), outputOpens);
      var p := Decide(ts, positionals, probe).plan;
      && k == |Steps(p)| && trace[..k] == Steps(p) && |trace| <= k + 2
      && (forall j :: 0 <= j < k ==> trace[j].ParseAcx? || trace[j].ParseXml? || trace[j].ParseAtt?)
      && (k + 1 < |trace| ==> trace[k + 1] == (if probe.firstRead != 1 then WriteAtt else WriteXml))
    ensures ExitOf(Decide(ts, positionals, probe), outputOpens).ExitFailure? ==>
      ExitOf(Decide(ts, positionals, probe), outputOpens).failure.CannotOpenOutput? &&
      k == |Effects(Decide(ts, positionals, probe), outputOpens)| - 1
  {
  }
}
