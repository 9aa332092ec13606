/**
 * The option scan of chsmack's `main` (utils/chsmack.c:87-120).
 *
 * `argv` is a sequence of C strings; `argv[0]` is the program name and the
 * scan starts at index 1. Reading `argv[argc]` yields NULL, written `None`.
 */
module Args {
  import opened Wrappers
  import opened CStrings

  /** The three labels an option can name. */
  datatype Field = Access | Execute | Mmap

  /**
   * One recognised option. A label option carries its value, which is NULL
   * when `-a`, `-e` or `-m` is the last argument.
   */
  datatype Opt = SetLabel(field: Field, value: Option<seq<Byte>>) | SetTransmute

  /**
   * Where a scan from some index ends: the options it read and the index it
   * stopped at, or the unrecognised '-' argument that stops the program.
   */
  datatype Scan = Options(opts: seq<Opt>, next: nat) | Unrecognised(arg: seq<Byte>)

  /** The variables `access`, `execute`, `mm` and `transmute` of `main`. */
  datatype Settings = Settings(access: Option<seq<Byte>>, execute: Option<seq<Byte>>,
                               mmap: Option<seq<Byte>>, transmute: bool)
  {
    function Label(f: Field): Option<seq<Byte>>
    {
      match f
      case Access => access
      case Execute => execute
      case Mmap => mmap
    }
  }

  /** All three labels NULL, `transmute = 0`. */
  const NoSettings := Settings(None, None, None, false)

  /** What the scan hands on to validation, or the reason it exits with status 1. */
  datatype ParseResult =
    | Request(settings: Settings, firstFile: nat)
    | InvalidArgument(arg: seq<Byte>)
    | NoFilesSpecified

  const ShortAccess := Ascii("-a")
  const LongAccess := Ascii("--access=")
  const ShortExecute := Ascii("-e")
  const LongExec := Ascii("--exec=")
  const LongExecute := Ascii("--execute=")
  const ShortMmap := Ascii("-m")
  const LongMmap := Ascii("--mmap=")
  const ShortTransmute := Ascii("-t")
  const LongTransmute := Ascii("--transmute")

  predicate IsArgv(argv: seq<seq<Byte>>)
  {
    forall k :: 0 <= k < |argv| ==> IsCStr(argv[k])
  }

  /** `argv[i]` for `i <= argc`: the entry at `argc` is NULL. */
  function ArgAt(argv: seq<seq<Byte>>, i: nat): Option<seq<Byte>>
  {
    if i < |argv| then Some(argv[i]) else None
  }

  function Then(o: Opt, rest: Scan): Scan
  {
    match rest
    case Options(opts, next) => Options([o] + opts, next)
    case Unrecognised(_) => rest
  }

  /**
   * What one argument is to the scan, following the source's `if` chain: an
   * option (with the number of arguments it takes up), an unrecognised
   * argument starting with '-', or the first file name. `-a`, `-e` and `-m`
   * take `following`, the next `argv` entry, whatever it is.
   */
  datatype Token = Option(opt: Opt, width: nat) | Unknown | Operand

  function Classify(arg: seq<Byte>, following: Option<seq<Byte>>): (t: Token)
    requires IsCStr(arg) && (following.Some? ==> IsCStr(following.value))
    ensures t.Option? ==> 1 <= t.width <= 2
    ensures t.Option? && t.opt.SetLabel? && t.opt.value.Some? ==> IsCStr(t.opt.value.value)
    ensures t.Operand? <==> |arg| == 0 || arg[0] != Dash
  {
    if arg == ShortAccess then Option(SetLabel(Access, following), 2)
    else if Leads(arg, LongAccess) then Option(SetLabel(Access, Some(After(arg, LongAccess))), 1)
    else if arg == ShortExecute then Option(SetLabel(Execute, following), 2)
    else if Leads(arg, LongExec) then Option(SetLabel(Execute, Some(After(arg, LongExec))), 1)
    else if Leads(arg, LongExecute) then Option(SetLabel(Execute, Some(After(arg, LongExecute))), 1)
    else if arg == ShortMmap then Option(SetLabel(Mmap, following), 2)
    else if Leads(arg, LongMmap) then Option(SetLabel(Mmap, Some(After(arg, LongMmap))), 1)
    else if arg == ShortTransmute || arg == LongTransmute then Option(SetTransmute, 1)
    else if |arg| > 0 && arg[0] == Dash then Unknown
    else Operand
  }

  /**
   * The scan from index `i`: options until the first file name, which ends
   * the scan, or until an unrecognised '-' argument, which ends the program.
   */
  function ScanOptions(argv: seq<seq<Byte>>, i: nat): Scan
    requires IsArgv(argv)
    decreases |argv| + 1 - i
  {
    if i >= |argv| then Options([], i)
    else
      match Classify(argv[i], ArgAt(argv, i + 1))
      case Option(o, width) => Then(o, ScanOptions(argv, i + width))
      case Unknown => Unrecognised(argv[i])
      case Operand => Options([], i)
  }

  /** The effect of one option on the variables. */
  function Step(st: Settings, o: Opt): Settings
  {
    match o
    case SetLabel(Access, v) => st.(access := v)
    case SetLabel(Execute, v) => st.(execute := v)
    case SetLabel(Mmap, v) => st.(mmap := v)
    case SetTransmute => st.(transmute := true)
  }

  /** The options applied left to right. */
  function Apply(st: Settings, opts: seq<Opt>): Settings
    decreases |opts|
  {
    if opts == [] then st else Apply(Step(st, opts[0]), opts[1..])
  }

  /**
   * The whole scan: an unrecognised option or an empty file list ends the
   * program; otherwise the settings and the index of the first file.
   */
  function ParseCommandLine(argv: seq<seq<Byte>>): ParseResult
    requires IsArgv(argv)
  {
    match ScanOptions(argv, 1)
    case Unrecognised(arg) => InvalidArgument(arg)
    case Options(opts, next) =>
      if next >= |argv| then NoFilesSpecified else Request(Apply(NoSettings, opts), next)
  }

  lemma {:induction false} ApplyAppend(st: Settings, opts: seq<Opt>, o: Opt)
    ensures Apply(st, opts + [o]) == Step(Apply(st, opts), o)
    decreases |opts|
  {
    if opts != [] {
      assert (opts + [o])[1..] == opts[1..] + [o];
      ApplyAppend(Step(st, opts[0]), opts[1..], o);
    }
  }

  /** The scan preceded by the options `done` already read. */
  function Prepend(done: seq<Opt>, rest: Scan): Scan
  {
    match rest
    case Options(opts, next) => Options(done + opts, next)
    case Unrecognised(_) => rest
  }

  lemma PrependThen(done: seq<Opt>, o: Opt, rest: Scan)
    ensures Prepend(done, Then(o, rest)) == Prepend(done + [o], rest)
  {
    if rest.Options? {
      assert done + ([o] + rest.opts) == (done + [o]) + rest.opts;
    }
  }

  /** One recognised option moves the scan past its arguments and onto the options read. */
  lemma ScanStep(argv: seq<seq<Byte>>, i: nat, done: seq<Opt>, o: Opt, width: nat)
    requires IsArgv(argv) && i < |argv|
    requires Classify(argv[i], ArgAt(argv, i + 1)) == Option(o, width)
    requires ScanOptions(argv, 1) == Prepend(done, ScanOptions(argv, i))
    ensures ScanOptions(argv, 1) == Prepend(done + [o], ScanOptions(argv, i + width))
    ensures Apply(NoSettings, done + [o]) == Step(Apply(NoSettings, done), o)
  {
    PrependThen(done, o, ScanOptions(argv, i + width));
    ApplyAppend(NoSettings, done, o);
  }

  /** Every label value the scan yields is a C string. */
  predicate LabelsAreCStrs(st: Settings)
  {
    && (st.access.Some? ==> IsCStr(st.access.value))
    && (st.execute.Some? ==> IsCStr(st.execute.value))
    && (st.mmap.Some? ==> IsCStr(st.mmap.value))
  }

  /**
   * The `for` loop of `main` over the options: it stops at the first file
   * name, or exits on an unrecognised option; then an empty file list exits.
   */
  method ParseArgs(argv: seq<seq<Byte>>) returns (r: ParseResult)
    requires IsArgv(argv)
    ensures r == ParseCommandLine(argv)
    ensures r.Request? ==> LabelsAreCStrs(r.settings)
  {
    var access: Option<seq<Byte>> := None;
    var execute: Option<seq<Byte>> := None;
    var mm: Option<seq<Byte>> := None;
    var transmute := false;
    ghost var done: seq<Opt> := [];
    var argi := 1;
    while argi < |argv|
      invariant 1 <= argi <= |argv| + 1
      invariant ScanOptions(argv, 1) == Prepend(done, ScanOptions(argv, argi))
      invariant Settings(access, execute, mm, transmute) == Apply(NoSettings, done)
      invariant LabelsAreCStrs(Settings(access, execute, mm, transmute))
      decreases |argv| - argi
    {
      var token := Classify(argv[argi], ArgAt(argv, argi + 1));
      match token
      case Unknown =>
        return InvalidArgument(argv[argi]);
      case Operand =>
        // The start of the file names.
        assert ScanOptions(argv, argi) == Options([], argi);
        break;
      case Option(o, width) =>
        match o {
          case SetLabel(Access, v) => access := v;
          case SetLabel(Execute, v) => execute := v;
          case SetLabel(Mmap, v) => mm := v;
          case SetTransmute => transmute := true;
        }
        ScanStep(argv, argi, done, o, width);
        argi := argi + width;
        done := done + [o];
    }
    if argi >= |argv| {
      return NoFilesSpecified;
    }
    assert done + [] == done;
    return Request(Settings(access, execute, mm, transmute), argi);
  }

  /**
   * The value the last option naming `f` carries, if some option names it:
   * the reference the left-to-right scan is measured against.
   */
  function LastValue(opts: seq<Opt>, f: Field): Option<Option<seq<Byte>>>
    decreases |opts|
  {
    if opts == [] then None
    else
      var o := opts[|opts| - 1];
      if o.SetLabel? && o.field == f then Some(o.value) else LastValue(opts[..|opts| - 1], f)
  }

  /**
   * A later option overrides an earlier one for the same label, and
   * `transmute` is set once any `-t`/`--transmute` is seen.
   */
  lemma {:induction false} LaterOptionWins(st: Settings, opts: seq<Opt>, f: Field)
    ensures Apply(st, opts).Label(f) ==
            (if LastValue(opts, f).Some? then LastValue(opts, f).value else st.Label(f))
    ensures Apply(st, opts).transmute <==> st.transmute || SetTransmute in opts
    decreases |opts|
  {
    if opts != [] {
      var init, o := opts[..|opts| - 1], opts[|opts| - 1];
      assert opts == init + [o];
      ApplyAppend(st, init, o);
      LaterOptionWins(st, init, f);
      assert SetTransmute in opts <==> SetTransmute in init || o == SetTransmute;
    }
  }

  /** The labels `main` validates are those of the last option naming each. */
  lemma ParsedLabelIsLastOption(argv: seq<seq<Byte>>, f: Field)
    requires IsArgv(argv) && ParseCommandLine(argv).Request?
    ensures var opts := ScanOptions(argv, 1).opts;
            ParseCommandLine(argv).settings.Label(f) ==
            (if LastValue(opts, f).Some? then LastValue(opts, f).value else None)
  {
    LaterOptionWins(NoSettings, ScanOptions(argv, 1).opts, f);
  }

  /** Only the `-a`, `-e` and `-m` forms look at the argument that follows. */
  lemma ClassifyIgnoresFollowing(arg: seq<Byte>, f1: Option<seq<Byte>>, f2: Option<seq<Byte>>)
    requires IsCStr(arg)
    requires f1.Some? ==> IsCStr(f1.value)
    requires f2.Some? ==> IsCStr(f2.value)
    ensures (Classify(arg, f1).Option? && Classify(arg, f1).width == 2) || Classify(arg, f1) == Classify(arg, f2)
  {
  }

  /**
   * A scan that ends inside `argv` (at a file name or at an unrecognised
   * option) reads nothing after that point.
   */
  lemma {:induction false} ScanIgnoresLaterArgs(argv: seq<seq<Byte>>, extra: seq<seq<Byte>>, i: nat)
    requires IsArgv(argv) && IsArgv(argv + extra)
    requires ScanOptions(argv, i).Unrecognised? || ScanOptions(argv, i).next < |argv|
    ensures ScanOptions(argv + extra, i) == ScanOptions(argv, i)
    decreases |argv| + 1 - i
  {
    if i < |argv| {
      var all := argv + extra;
      assert all[i] == argv[i];
      if i + 1 < |argv| {
        assert all[i + 1] == argv[i + 1];
      } else {
        ClassifyIgnoresFollowing(argv[i], ArgAt(argv, i + 1), ArgAt(all, i + 1));
      }
      var t := Classify(argv[i], ArgAt(argv, i + 1));
      if t.Option? {
        ScanIgnoresLaterArgs(argv, extra, i + t.width);
      }
    }
  }

  /**
   * Once the scan has reached a file name, every later argument is a file
   * name too, even one starting with '-': appending arguments changes
   * neither the settings nor where the files start. An unrecognised option
   * ends the program whatever follows it.
   */
  lemma LaterArgumentsAreFiles(argv: seq<seq<Byte>>, extra: seq<seq<Byte>>)
    requires IsArgv(argv) && IsArgv(argv + extra)
    requires ParseCommandLine(argv).Request? || ParseCommandLine(argv).InvalidArgument?
    ensures ParseCommandLine(argv + extra) == ParseCommandLine(argv)
  {
    ScanIgnoresLaterArgs(argv, extra, 1);
  }

  /** A scan that stops inside `argv` stops at an argument not starting with '-'. */
  lemma {:induction false} ScanStopsAtOperand(argv: seq<seq<Byte>>, i: nat)
    requires IsArgv(argv) && ScanOptions(argv, i).Options? && ScanOptions(argv, i).next < |argv|
    ensures var n := ScanOptions(argv, i).next; i <= n && (|argv[n]| == 0 || argv[n][0] != Dash)
    decreases |argv| + 1 - i
  {
    var t := Classify(argv[i], ArgAt(argv, i + 1));
    if t.Option? {
      ScanStopsAtOperand(argv, i + t.width);
    }
  }

  /** The file list starts at the first argument not starting with '-' and is never empty. */
  lemma FilesStartAtOperand(argv: seq<seq<Byte>>)
    requires IsArgv(argv) && ParseCommandLine(argv).Request?
    ensures var n := ParseCommandLine(argv).firstFile;
            1 <= n < |argv| && (|argv[n]| == 0 || argv[n][0] != Dash)
  {
    ScanStopsAtOperand(argv, 1);
  }

  /**
   * `-a`, `-e` or `-m` as the last argument reads the NULL `argv[argc]` and
   * moves `argi` past `argc`: every option the scan reads before a file name
   * has a value.
   */
  lemma {:induction false} ScanBeforeFilesHasValues(argv: seq<seq<Byte>>, i: nat)
    requires IsArgv(argv) && ScanOptions(argv, i).Options? && ScanOptions(argv, i).next <= |argv|
    ensures forall o :: o in ScanOptions(argv, i).opts && o.SetLabel? ==> o.value.Some?
    decreases |argv| + 1 - i
  {
    if i < |argv| {
      var t := Classify(argv[i], ArgAt(argv, i + 1));
      if t.Option? {
        ScanBeforeFilesHasValues(argv, i + t.width);
      }
    }
  }

  /** A dangling `-a`, `-e` or `-m` ends in "No files specified". */
  lemma DanglingOptionMeansNoFiles(argv: seq<seq<Byte>>)
    requires IsArgv(argv) && ScanOptions(argv, 1).Options?
    requires exists o :: o in ScanOptions(argv, 1).opts && o.SetLabel? && o.value.None?
    ensures ParseCommandLine(argv) == NoFilesSpecified
  {
    if ScanOptions(argv, 1).next <= |argv| {
      ScanBeforeFilesHasValues(argv, 1);
    }
  }

  /** An argument whose second byte is not '-' leads with none of the long options. */
  lemma NotLongOption(arg: seq<Byte>)
    requires IsCStr(arg) && (|arg| < 2 || arg[1] != Dash)
    ensures !Leads(arg, LongAccess) && !Leads(arg, LongExec) && !Leads(arg, LongExecute)
    ensures !Leads(arg, LongMmap) && arg != LongTransmute
  {
    LeadsIsPrefix(arg, LongAccess);
    LeadsIsPrefix(arg, LongExec);
    LeadsIsPrefix(arg, LongExecute);
    LeadsIsPrefix(arg, LongMmap);
    forall lead | lead in {LongAccess, LongExec, LongExecute, LongMmap} && |lead| <= |arg|
      ensures arg[..|lead|] != lead
    {
      assert arg[..|lead|][1] == arg[1] && lead[1] == Dash;
    }
  }

  /** `lead + v` leads with `lead`, and what follows the lead is `v`. */
  lemma LeadsWith(lead: seq<Byte>, v: seq<Byte>)
    requires IsCStr(lead) && IsCStr(v)
    ensures IsCStr(lead + v) && Leads(lead + v, lead) && After(lead + v, lead) == v
  {
    LeadsIsPrefix(lead + v, lead);
    assert (lead + v)[..|lead|] == lead;
  }

  /** An argument that differs from `lead` at byte `k` does not lead with it. */
  lemma DiffersAt(arg: seq<Byte>, lead: seq<Byte>, k: nat)
    requires IsCStr(arg) && IsCStr(lead) && k < |lead| && k < |arg| && arg[k] != lead[k]
    ensures !Leads(arg, lead)
  {
    LeadsIsPrefix(arg, lead);
    if |lead| <= |arg| {
      assert arg[..|lead|][k] == arg[k];
    }
  }

  /**
   * The long forms: `--access=`, `--exec=`, `--execute=` and `--mmap=` carry
   * their label after the `=` and take up one argument, as `--transmute`
   * does. `--execute=` is not caught by the earlier `--exec=` test: the two
   * differ at byte 6.
   */
  lemma ClassifyLongOptions(v: seq<Byte>, following: Option<seq<Byte>>)
    requires IsCStr(v) && (following.Some? ==> IsCStr(following.value))
    ensures Classify(LongAccess + v, following) == Option(SetLabel(Access, Some(v)), 1)
    ensures Classify(LongExec + v, following) == Option(SetLabel(Execute, Some(v)), 1)
    ensures Classify(LongExecute + v, following) == Option(SetLabel(Execute, Some(v)), 1)
    ensures Classify(LongMmap + v, following) == Option(SetLabel(Mmap, Some(v)), 1)
    ensures Classify(LongTransmute, following) == Option(SetTransmute, 1)
  {
    LeadsWith(LongAccess, v);
    assert LongAccess + v != ShortAccess;

    var exec := LongExec + v;
    LeadsWith(LongExec, v);
    DiffersAt(exec, LongAccess, 2);
    assert exec != ShortAccess && exec != ShortExecute;

    var execute := LongExecute + v;
    LeadsWith(LongExecute, v);
    DiffersAt(execute, LongAccess, 2);
    DiffersAt(execute, LongExec, 6);
    assert execute != ShortAccess && execute != ShortExecute;

    var mmap := LongMmap + v;
    LeadsWith(LongMmap, v);
    DiffersAt(mmap, LongAccess, 2);
    DiffersAt(mmap, LongExec, 2);
    DiffersAt(mmap, LongExecute, 2);
    assert mmap != ShortAccess && mmap != ShortExecute && mmap != ShortMmap;

    DiffersAt(LongTransmute, LongAccess, 2);
    DiffersAt(LongTransmute, LongExec, 2);
    DiffersAt(LongTransmute, LongExecute, 2);
    DiffersAt(LongTransmute, LongMmap, 2);
    assert LongTransmute != ShortAccess && LongTransmute != ShortExecute && LongTransmute != ShortMmap;
    assert LongTransmute != ShortTransmute;
  }

  /** A bare "-" is an unrecognised option. */
  lemma BareDashRejected(prog: seq<Byte>, rest: seq<seq<Byte>>)
    requires IsArgv([prog, Ascii("-")] + rest)
    ensures ParseCommandLine([prog, Ascii("-")] + rest) == InvalidArgument(Ascii("-"))
  {
    var argv := [prog, Ascii("-")] + rest;
    assert argv[1] == Ascii("-");
  }

  /** "--bogus" is an unrecognised option. */
  lemma BogusOptionRejected(prog: seq<Byte>, rest: seq<seq<Byte>>)
    requires IsArgv([prog, Ascii("--bogus")] + rest)
    ensures ParseCommandLine([prog, Ascii("--bogus")] + rest) == InvalidArgument(Ascii("--bogus"))
  {
    var argv := [prog, Ascii("--bogus")] + rest;
    var bogus := Ascii("--bogus");
    assert argv[1] == bogus;
    LeadsIsPrefix(bogus, LongAccess);
    LeadsIsPrefix(bogus, LongExec);
    LeadsIsPrefix(bogus, LongExecute);
    LeadsIsPrefix(bogus, LongMmap);
    assert bogus[2] != LongAccess[2] && bogus[2] != LongExec[2] && bogus[2] != LongMmap[2];
    assert bogus != ShortAccess && bogus != ShortExecute && bogus != ShortMmap && bogus != ShortTransmute;
    assert bogus != LongTransmute;
  }

  /** Options with no file after them, a dangling `-a` included, exit with "No files specified". */
  lemma OptionsWithoutFilesRejected(prog: seq<Byte>)
    requires IsCStr(prog)
    ensures ParseCommandLine([prog]) == NoFilesSpecified
    ensures ParseCommandLine([prog, ShortTransmute]) == NoFilesSpecified
    ensures ParseCommandLine([prog, ShortAccess]) == NoFilesSpecified
  {
    NotLongOption(ShortTransmute);
    assert ShortTransmute != ShortAccess && ShortTransmute != ShortExecute && ShortTransmute != ShortMmap;
    assert ScanOptions([prog, ShortTransmute], 2) == Options([], 2);
    assert ScanOptions([prog, ShortAccess], 3) == Options([], 3);
  }
}
