/**
 * Runs of chsmack on particular command lines: labels written and read back
 * by a later query, the usage errors, and the 24-byte value that reaches
 * past the source's query buffer.
 */
module RoundTrips {
  import opened Wrappers
  import opened CStrings
  import opened Labels
  import opened Args
  import opened Xattr
  import opened Chsmack
  import opened ChsmackProperties

  /** An argument the scan takes as a file name. */
  predicate IsOperand(arg: seq<Byte>)
  {
    IsCStr(arg) && (|arg| == 0 || arg[0] != Dash)
  }

  lemma ValidLabelIsCStr(s: seq<Byte>, signedChar: bool)
    requires ValidLabel(s, signedChar)
    ensures IsCStr(s)
  {
    forall i | 0 <= i < |s|
      ensures s[i] != NUL
    {
      assert Allowed(s[i], signedChar);
    }
  }

  lemma ClassifyShortOptions(following: Option<seq<Byte>>)
    requires following.Some? ==> IsCStr(following.value)
    ensures Classify(ShortAccess, following) == Option(SetLabel(Access, following), 2)
    ensures Classify(ShortExecute, following) == Option(SetLabel(Execute, following), 2)
    ensures Classify(ShortMmap, following) == Option(SetLabel(Mmap, following), 2)
    ensures Classify(ShortTransmute, following) == Option(SetTransmute, 1)
  {
    NotLongOption(ShortExecute);
    NotLongOption(ShortMmap);
    NotLongOption(ShortTransmute);
    assert ShortExecute[1] != ShortAccess[1];
    assert ShortMmap[1] != ShortAccess[1] && ShortMmap[1] != ShortExecute[1];
    assert ShortTransmute[1] != ShortAccess[1] && ShortTransmute[1] != ShortExecute[1] && ShortTransmute[1] != ShortMmap[1];
  }

  /** `chsmack -a LABEL FILE` stores LABEL and its NUL under security.SMACK64 of FILE, and nothing else. */
  lemma AccessWriteStores(prog: seq<Byte>, lab: seq<Byte>, path: seq<Byte>, attrs: Attrs, refused: set<Key>,
                          signedChar: bool)
    requires IsCStr(prog) && IsOperand(path) && ValidLabel(lab, signedChar)
    requires (path, XattrName(Smack64)) !in refused
    ensures var argv := [prog, ShortAccess, lab, path];
            IsArgv(argv) &&
            var w := RunOutcome(argv, attrs, refused, signedChar);
            w.status == 0 && w.out == [] && w.attrs == attrs[(path, XattrName(Smack64)) := lab + [NUL]]
  {
    ValidLabelIsCStr(lab, signedChar);
    var argv := [prog, ShortAccess, lab, path];
    ClassifyShortOptions(Some(lab));
    assert ScanOptions(argv, 3) == Options([], 3);
    assert ScanOptions(argv, 1) == Options([SetLabel(Access, Some(lab))], 3);
    var st := Settings(Some(lab), None, None, false);
    assert Apply(NoSettings, [SetLabel(Access, Some(lab))]) == st;
    assert ParseCommandLine(argv) == Request(st, 3);
    assert st.Label(Access) == Some(lab);
    assert FirstViolation(st, signedChar) == None;
    assert argv[3..] == [path] && [path][..0] == [];
    assert WriteAll(attrs, refused, [path], st) == WriteOne(attrs, refused, path, st);
  }

  /** With no option, `chsmack FILE` queries FILE and changes nothing. */
  lemma QueryRun(prog: seq<Byte>, path: seq<Byte>, attrs: Attrs, refused: set<Key>, signedChar: bool)
    requires IsCStr(prog) && IsOperand(path)
    ensures IsArgv([prog, path])
    ensures RunOutcome([prog, path], attrs, refused, signedChar) == Outcome(0, [QueryLine(attrs, path)], attrs)
  {
    var argv := [prog, path];
    assert ScanOptions(argv, 1) == Options([], 1);
    assert argv[1..] == [path];
  }

  /**
   * Write-then-read: after `chsmack -a LABEL FILE`, `chsmack FILE` prints
   * `access="LABEL"` first on the line of FILE.
   */
  lemma WriteThenQueryShowsAccess(prog: seq<Byte>, lab: seq<Byte>, path: seq<Byte>, attrs: Attrs,
                                  refused: set<Key>, signedChar: bool)
    requires IsCStr(prog) && IsOperand(path) && ValidLabel(lab, signedChar)
    requires (path, XattrName(Smack64)) !in refused
    ensures var argv := [prog, ShortAccess, lab, path];
            IsArgv(argv) && IsArgv([prog, path]) &&
            var w := RunOutcome(argv, attrs, refused, signedChar);
            var q := RunOutcome([prog, path], w.attrs, refused, signedChar);
            q.status == 0 && |q.out| == 1 && q.out[0].Listing? && q.out[0].path == path &&
            |q.out[0].found| > 0 && q.out[0].found[0] == Found(Smack64, lab)
  {
    AccessWriteStores(prog, lab, path, attrs, refused, signedChar);
    var m := attrs[(path, XattrName(Smack64)) := lab + [NUL]];
    QueryRun(prog, path, m, refused, signedChar);
    ValidLabelIsCStr(lab, signedChar);
    TerminatedPrintsBack(lab);
    assert ReadAttr(m, path, Smack64) == [Found(Smack64, lab)];
  }

  /** `-a A -e B -m C -t FILE` sets all three labels and transmute; FILE is the first file. */
  lemma ParseAllFour(argv: seq<seq<Byte>>)
    requires IsArgv(argv) && |argv| == 9 && IsOperand(argv[8])
    requires argv[1] == ShortAccess && argv[3] == ShortExecute && argv[5] == ShortMmap && argv[7] == ShortTransmute
    ensures ParseCommandLine(argv) == Request(Settings(Some(argv[2]), Some(argv[4]), Some(argv[6]), true), 8)
  {
    ClassifyShortOptions(Some(argv[2]));
    ClassifyShortOptions(Some(argv[4]));
    ClassifyShortOptions(Some(argv[6]));
    ClassifyShortOptions(Some(argv[8]));
    var opts := [SetLabel(Access, Some(argv[2])), SetLabel(Execute, Some(argv[4])), SetLabel(Mmap, Some(argv[6])),
                 SetTransmute];
    assert ScanOptions(argv, 8) == Options([], 8);
    assert ScanOptions(argv, 7) == Options(opts[3..], 8);
    assert ScanOptions(argv, 5) == Options(opts[2..], 8);
    assert ScanOptions(argv, 3) == Options(opts[1..], 8);
    assert ScanOptions(argv, 1) == Options(opts, 8);
    var s1 := Settings(Some(argv[2]), None, None, false);
    var s2 := s1.(execute := Some(argv[4]));
    var s3 := s2.(mmap := Some(argv[6]));
    assert Apply(s3.(transmute := true), opts[4..]) == s3.(transmute := true);
    assert Apply(s3, opts[3..]) == s3.(transmute := true);
    assert Apply(s2, opts[2..]) == Apply(s3, opts[3..]);
    assert Apply(s1, opts[1..]) == Apply(s2, opts[2..]);
    assert Apply(NoSettings, opts) == Apply(s1, opts[1..]);
  }

  /** A label stored with its NUL reads back as the label. */
  lemma ReadsBackLabel(m: Attrs, path: seq<Byte>, a: Attr, v: seq<Byte>)
    requires IsCStr(v) && |v| <= LabelSize
    requires (path, XattrName(a)) in m && m[(path, XattrName(a))] == v + [NUL]
    ensures ReadAttr(m, path, a) == [Found(a, v)]
  {
    TerminatedPrintsBack(v);
  }

  /** The query line of a file whose four attributes were written by chsmack itself. */
  lemma QueryAllFour(attrs: Attrs, path: seq<Byte>, a: seq<Byte>, b: seq<Byte>, c: seq<Byte>)
    requires IsCStr(a) && IsCStr(b) && IsCStr(c) && |a| <= LabelSize && |b| <= LabelSize && |c| <= LabelSize
    ensures var m := attrs[(path, XattrName(Smack64)) := a + [NUL]][(path, XattrName(Smack64Exec)) := b + [NUL]]
                          [(path, XattrName(Smack64Mmap)) := c + [NUL]][(path, XattrName(Smack64Transmute)) := TransmuteValue];
            QueryLine(m, path) == Listing(path, [Found(Smack64, a), Found(Smack64Exec, b), Found(Smack64Mmap, c),
                                                 Found(Smack64Transmute, TransmuteValue)])
  {
    XattrNameInjective(Smack64, Smack64Exec);
    XattrNameInjective(Smack64, Smack64Mmap);
    XattrNameInjective(Smack64, Smack64Transmute);
    XattrNameInjective(Smack64Exec, Smack64Mmap);
    XattrNameInjective(Smack64Exec, Smack64Transmute);
    XattrNameInjective(Smack64Mmap, Smack64Transmute);
    var m := attrs[(path, XattrName(Smack64)) := a + [NUL]][(path, XattrName(Smack64Exec)) := b + [NUL]]
               [(path, XattrName(Smack64Mmap)) := c + [NUL]][(path, XattrName(Smack64Transmute)) := TransmuteValue];
    ReadsBackLabel(m, path, Smack64, a);
    ReadsBackLabel(m, path, Smack64Exec, b);
    ReadsBackLabel(m, path, Smack64Mmap, c);
    UpToNulOfCStr(TransmuteValue);
    assert ReadAttr(m, path, Smack64Transmute) == [Found(Smack64Transmute, TransmuteValue)];
  }

  /**
   * Writing access, execute, mmap and transmute, then querying, prints
   * exactly `access="A" execute="B" mmap="C" transmute="TRUE"`.
   */
  lemma WriteAllFourThenQuery(prog: seq<Byte>, a: seq<Byte>, b: seq<Byte>, c: seq<Byte>, path: seq<Byte>,
                              attrs: Attrs, refused: set<Key>, signedChar: bool)
    requires IsCStr(prog) && IsOperand(path)
    requires ValidLabel(a, signedChar) && ValidLabel(b, signedChar) && ValidLabel(c, signedChar)
    requires forall t :: (path, XattrName(t)) !in refused
    ensures var argv := [prog, ShortAccess, a, ShortExecute, b, ShortMmap, c, ShortTransmute, path];
            IsArgv(argv) && IsArgv([prog, path]) &&
            var w := RunOutcome(argv, attrs, refused, signedChar);
            var q := RunOutcome([prog, path], w.attrs, refused, signedChar);
            w.status == 0 && w.out == [] &&
            q.out == [Listing(path, [Found(Smack64, a), Found(Smack64Exec, b), Found(Smack64Mmap, c),
                                     Found(Smack64Transmute, TransmuteValue)])]
  {
    ValidLabelIsCStr(a, signedChar);
    ValidLabelIsCStr(b, signedChar);
    ValidLabelIsCStr(c, signedChar);
    var argv := [prog, ShortAccess, a, ShortExecute, b, ShortMmap, c, ShortTransmute, path];
    ParseAllFour(argv);
    var st := Settings(Some(a), Some(b), Some(c), true);
    assert st.Label(Access) == Some(a) && st.Label(Execute) == Some(b) && st.Label(Mmap) == Some(c);
    assert FirstViolation(st, signedChar) == None;
    assert argv[8..] == [path] && [path][..0] == [];
    assert WriteAll(attrs, refused, [path], st) == WriteOne(attrs, refused, path, st);
    assert (path, XattrName(Smack64)) !in refused && (path, XattrName(Smack64Exec)) !in refused;
    assert (path, XattrName(Smack64Mmap)) !in refused && (path, XattrName(Smack64Transmute)) !in refused;
    var m := attrs[(path, XattrName(Smack64)) := a + [NUL]][(path, XattrName(Smack64Exec)) := b + [NUL]]
               [(path, XattrName(Smack64Mmap)) := c + [NUL]][(path, XattrName(Smack64Transmute)) := TransmuteValue];
    assert RunOutcome(argv, attrs, refused, signedChar) == Outcome(0, [], m);
    QueryRun(prog, path, m, refused, signedChar);
    QueryAllFour(attrs, path, a, b, c);
  }

  /** A file with no Smack attribute is listed alone on its line. */
  lemma QueryUnlabelledFile(prog: seq<Byte>, path: seq<Byte>, attrs: Attrs, refused: set<Key>, signedChar: bool)
    requires IsCStr(prog) && IsOperand(path)
    requires forall t :: (path, XattrName(t)) !in attrs
    ensures IsArgv([prog, path])
    ensures RunOutcome([prog, path], attrs, refused, signedChar).out == [Listing(path, [])]
  {
    QueryRun(prog, path, attrs, refused, signedChar);
    assert (path, XattrName(Smack64)) !in attrs && (path, XattrName(Smack64Exec)) !in attrs;
    assert (path, XattrName(Smack64Mmap)) !in attrs && (path, XattrName(Smack64Transmute)) !in attrs;
    assert ReadAttr(attrs, path, Smack64) == [] && ReadAttr(attrs, path, Smack64Exec) == [];
    assert ReadAttr(attrs, path, Smack64Mmap) == [] && ReadAttr(attrs, path, Smack64Transmute) == [];
    assert QueryLine(attrs, path) == Listing(path, []);
  }

  /**
   * `--access=LABEL` with LABEL longer than LabelSize exits with status 1,
   * names the label, and writes no attribute of any file.
   */
  lemma TooLongAccessLabelRejected(prog: seq<Byte>, lab: seq<Byte>, files: seq<seq<Byte>>, attrs: Attrs,
                                   refused: set<Key>, signedChar: bool)
    requires IsCStr(prog) && IsCStr(lab) && |lab| > LabelSize
    requires |files| > 0 && IsOperand(files[0]) && IsArgv(files)
    ensures var argv := [prog, LongAccess + lab] + files;
            IsArgv(argv) &&
            RunOutcome(argv, attrs, refused, signedChar) == Outcome(1, [Usage(BadLabel(Access, lab))], attrs)
  {
    var arg := LongAccess + lab;
    var argv := [prog, arg] + files;
    assert IsCStr(arg);
    assert forall k :: 2 <= k < |argv| ==> argv[k] == files[k - 2];
    LeadsIsPrefix(arg, LongAccess);
    assert arg[..|LongAccess|] == LongAccess;
    var rest := After(arg, LongAccess);
    assert rest == lab;
    assert arg != ShortAccess;
    assert argv[1] == arg && argv[2] == files[0];
    assert ScanOptions(argv, 2) == Options([], 2);
    assert ScanOptions(argv, 1) == Options([SetLabel(Access, Some(lab))], 2);
    assert Apply(NoSettings, [SetLabel(Access, Some(lab))]) == Settings(Some(lab), None, None, false);
  }

  /** A 38-byte access label, "this-label-is-way-too-long-to-be-valid". */
  lemma WayTooLongLabelRejected(prog: seq<Byte>, path: seq<Byte>, attrs: Attrs, refused: set<Key>, signedChar: bool)
    requires IsCStr(prog) && IsOperand(path)
    ensures var lab := Ascii("this-label-is-way-too-long-to-be-valid");
            var argv := [prog, LongAccess + lab, path];
            IsArgv(argv) && RunOutcome(argv, attrs, refused, signedChar).status == 1 &&
            RunOutcome(argv, attrs, refused, signedChar).attrs == attrs
  {
    var lab := Ascii("this-label-is-way-too-long-to-be-valid");
    TooLongAccessLabelRejected(prog, lab, [path], attrs, refused, signedChar);
    assert [prog, LongAccess + lab] + [path] == [prog, LongAccess + lab, path];
  }

  /** `--bogus` exits with status 1 and touches no file. */
  lemma BogusOptionChangesNothing(prog: seq<Byte>, rest: seq<seq<Byte>>, attrs: Attrs, refused: set<Key>,
                                  signedChar: bool)
    requires IsArgv([prog, Ascii("--bogus")] + rest)
    ensures var r := RunOutcome([prog, Ascii("--bogus")] + rest, attrs, refused, signedChar);
            r.status == 1 && r.attrs == attrs && r.out == [Usage(BadArgument(Ascii("--bogus")))]
  {
    BogusOptionRejected(prog, rest);
  }

  /**
   * The query buffer of the source is `char buffer[LSIZE + 1]`, and
   * `lgetxattr` may fill all LSIZE + 1 bytes of it: after the tool itself
   * writes a LabelSize-byte label, the read returns rc == LSIZE + 1, and
   * `buffer[rc] = '\0'` writes one byte past the end: the precondition of
   * ReadIntoAsWritten fails. ReadInto, used by QueryFile, has a buffer of
   * BufferLength bytes, which holds the value and its terminator.
   */
  lemma QueryBufferOverflowAsWritten(prog: seq<Byte>, lab: seq<Byte>, path: seq<Byte>, attrs: Attrs,
                                     refused: set<Key>, signedChar: bool)
    requires IsCStr(prog) && IsOperand(path) && ValidLabel(lab, signedChar) && |lab| == LabelSize
    requires (path, XattrName(Smack64)) !in refused
    ensures var argv := [prog, ShortAccess, lab, path];
            IsArgv(argv) &&
            var w := RunOutcome(argv, attrs, refused, signedChar);
            var rc := Lookup(w.attrs, (path, XattrName(Smack64)), ReadSize);
            rc.Some? && |rc.value| == ReadSize &&
            !(|rc.value| < SourceBufferLength) && |rc.value| < BufferLength
  {
    AccessWriteStores(prog, lab, path, attrs, refused, signedChar);
  }

  /** Such a label exists: 23 times 'a'. */
  lemma LongestLabelIsValid(signedChar: bool)
    ensures ValidLabel(seq(LabelSize, _ => 0x61), signedChar)
  {
  }
}
