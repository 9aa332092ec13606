/**
 * Properties of whole runs of chsmack: what a rejected run leaves behind,
 * what a write run may touch and must store, and what a later query shows.
 */
module ChsmackProperties {
  import opened Wrappers
  import opened CStrings
  import opened Labels
  import opened Args
  import opened Xattr
  import opened Chsmack

  /** A key that the write branch may change: a listed file and a requested attribute. */
  predicate Touched(files: seq<seq<Byte>>, st: Settings, key: Key)
  {
    key.0 in files && exists a :: Requested(st, a) && key.1 == XattrName(a)
  }

  lemma XattrNameInjective(a: Attr, b: Attr)
    ensures XattrName(a) == XattrName(b) ==> a == b
  {
    if a != b && |XattrName(a)| == |XattrName(b)| {
      assert {a, b} == {Smack64Exec, Smack64Mmap};
      assert XattrName(Smack64Exec)[17] != XattrName(Smack64Mmap)[17];
    }
  }

  /** Two runs agree on `key`. */
  predicate SameAt(m1: Attrs, m2: Attrs, key: Key)
  {
    (key in m1 <==> key in m2) && (key in m1 ==> m1[key] == m2[key])
  }

  /** One `lsetxattr` changes no key but its own, and a refused one changes nothing. */
  lemma PutFrame(e: Effect, refused: set<Key>, path: seq<Byte>, a: Attr, value: seq<Byte>, key: Key)
    requires key != (path, XattrName(a)) || key in refused
    ensures SameAt(Put(e, refused, path, a, value).attrs, e.attrs, key)
  {
  }

  /** Writing one file changes no key but its requested attributes, and no refused key. */
  lemma WriteOneFrame(attrs: Attrs, refused: set<Key>, path: seq<Byte>, st: Settings, key: Key)
    requires !Touched([path], st, key) || key in refused
    ensures SameAt(WriteOne(attrs, refused, path, st).attrs, attrs, key)
  {
    var e0 := Effect(attrs, []);
    var e1 := if Requested(st, Smack64) then Put(e0, refused, path, Smack64, Written(st, Smack64)) else e0;
    var e2 := if Requested(st, Smack64Exec) then Put(e1, refused, path, Smack64Exec, Written(st, Smack64Exec)) else e1;
    var e3 := if Requested(st, Smack64Mmap) then Put(e2, refused, path, Smack64Mmap, Written(st, Smack64Mmap)) else e2;
    if Requested(st, Smack64) {
      PutFrame(e0, refused, path, Smack64, Written(st, Smack64), key);
    }
    if Requested(st, Smack64Exec) {
      PutFrame(e1, refused, path, Smack64Exec, Written(st, Smack64Exec), key);
    }
    if Requested(st, Smack64Mmap) {
      PutFrame(e2, refused, path, Smack64Mmap, Written(st, Smack64Mmap), key);
    }
    if Requested(st, Smack64Transmute) {
      PutFrame(e3, refused, path, Smack64Transmute, Written(st, Smack64Transmute), key);
    }
  }

  /**
   * The write branch changes no attribute but the requested ones of the
   * listed files, and no attribute whose write is refused.
   */
  lemma {:induction false} WriteAllFrame(attrs: Attrs, refused: set<Key>, files: seq<seq<Byte>>, st: Settings, key: Key)
    requires !Touched(files, st, key) || key in refused
    ensures SameAt(WriteAll(attrs, refused, files, st).attrs, attrs, key)
    decreases |files|
  {
    if files != [] {
      var init, last := files[..|files| - 1], files[|files| - 1];
      assert forall f :: f in init ==> f in files;
      WriteAllFrame(attrs, refused, init, st, key);
      WriteOneFrame(WriteAll(attrs, refused, init, st).attrs, refused, last, st, key);
    }
  }

  lemma WriteOneStores(attrs: Attrs, refused: set<Key>, path: seq<Byte>, st: Settings, a: Attr)
    requires Requested(st, a) && (path, XattrName(a)) !in refused
    ensures var m := WriteOne(attrs, refused, path, st).attrs;
            (path, XattrName(a)) in m && m[(path, XattrName(a))] == Written(st, a)
  {
    forall b | b != a
      ensures XattrName(b) != XattrName(a)
    {
      XattrNameInjective(a, b);
    }
  }

  lemma WriteOneKeepsOtherPaths(attrs: Attrs, refused: set<Key>, path: seq<Byte>, st: Settings, key: Key)
    requires key.0 != path
    ensures SameAt(WriteOne(attrs, refused, path, st).attrs, attrs, key)
  {
    WriteOneFrame(attrs, refused, path, st, key);
  }

  /**
   * Every requested attribute of every listed file holds the written bytes,
   * unless that write was refused: a refused write stops neither the later
   * attributes nor the later files.
   */
  lemma {:induction false} WriteAllStores(attrs: Attrs, refused: set<Key>, files: seq<seq<Byte>>, st: Settings,
                                          path: seq<Byte>, a: Attr)
    requires path in files && Requested(st, a) && (path, XattrName(a)) !in refused
    ensures var m := WriteAll(attrs, refused, files, st).attrs;
            (path, XattrName(a)) in m && m[(path, XattrName(a))] == Written(st, a)
    decreases |files|
  {
    var init, last := files[..|files| - 1], files[|files| - 1];
    assert files == init + [last];
    var e := WriteAll(attrs, refused, init, st);
    if last == path {
      WriteOneStores(e.attrs, refused, path, st, a);
    } else {
      WriteAllStores(attrs, refused, init, st, path, a);
      WriteOneKeepsOtherPaths(e.attrs, refused, last, st, (path, XattrName(a)));
    }
  }

  lemma WriteOneReports(attrs: Attrs, refused: set<Key>, path: seq<Byte>, st: Settings, a: Attr)
    requires Requested(st, a) && (path, XattrName(a)) in refused
    ensures WriteFailed(path, a) in WriteOne(attrs, refused, path, st).out
  {
  }

  /** Every report in `out` is a refused write of a requested attribute of `path`. */
  predicate OnlyRefusedOf(out: seq<Report>, refused: set<Key>, path: seq<Byte>, st: Settings)
  {
    forall r :: r in out ==>
      r.WriteFailed? && r.path == path && Requested(st, r.attr) && (r.path, XattrName(r.attr)) in refused
  }

  lemma PutReportsOnlyRefused(e: Effect, refused: set<Key>, path: seq<Byte>, st: Settings, a: Attr, value: seq<Byte>)
    requires OnlyRefusedOf(e.out, refused, path, st) && Requested(st, a)
    ensures OnlyRefusedOf(Put(e, refused, path, a, value).out, refused, path, st)
  {
  }

  lemma WriteOneReportsOnlyRefused(attrs: Attrs, refused: set<Key>, path: seq<Byte>, st: Settings)
    ensures forall r :: r in WriteOne(attrs, refused, path, st).out ==>
              r.WriteFailed? && r.path == path && Requested(st, r.attr) && (r.path, XattrName(r.attr)) in refused
  {
    var e0 := Effect(attrs, []);
    var e1 := if Requested(st, Smack64) then Put(e0, refused, path, Smack64, Written(st, Smack64)) else e0;
    var e2 := if Requested(st, Smack64Exec) then Put(e1, refused, path, Smack64Exec, Written(st, Smack64Exec)) else e1;
    var e3 := if Requested(st, Smack64Mmap) then Put(e2, refused, path, Smack64Mmap, Written(st, Smack64Mmap)) else e2;
    if st.access.Some? {
      PutReportsOnlyRefused(e0, refused, path, st, Smack64, Written(st, Smack64));
    }
    if st.execute.Some? {
      PutReportsOnlyRefused(e1, refused, path, st, Smack64Exec, Written(st, Smack64Exec));
    }
    if st.mmap.Some? {
      PutReportsOnlyRefused(e2, refused, path, st, Smack64Mmap, Written(st, Smack64Mmap));
    }
    if st.transmute {
      PutReportsOnlyRefused(e3, refused, path, st, Smack64Transmute, Written(st, Smack64Transmute));
    }
    assert OnlyRefusedOf(WriteOne(attrs, refused, path, st).out, refused, path, st);
  }

  /** Every refused write is reported with its path; later files are still processed. */
  lemma {:induction false} WriteAllReportsRefused(attrs: Attrs, refused: set<Key>, files: seq<seq<Byte>>, st: Settings,
                                                  path: seq<Byte>, a: Attr)
    requires path in files && Requested(st, a) && (path, XattrName(a)) in refused
    ensures WriteFailed(path, a) in WriteAll(attrs, refused, files, st).out
    decreases |files|
  {
    var init, last := files[..|files| - 1], files[|files| - 1];
    assert files == init + [last];
    var e := WriteAll(attrs, refused, init, st);
    if last == path {
      WriteOneReports(e.attrs, refused, path, st, a);
    } else {
      WriteAllReportsRefused(attrs, refused, init, st, path, a);
    }
  }

  /** The reports of a write run are all refused writes of requested attributes of listed files. */
  lemma {:induction false} WriteAllReportsOnlyRefused(attrs: Attrs, refused: set<Key>, files: seq<seq<Byte>>, st: Settings)
    ensures forall r :: r in WriteAll(attrs, refused, files, st).out ==>
              r.WriteFailed? && r.path in files && Requested(st, r.attr) && (r.path, XattrName(r.attr)) in refused
    decreases |files|
  {
    if files != [] {
      var init, last := files[..|files| - 1], files[|files| - 1];
      assert files == init + [last];
      WriteAllReportsOnlyRefused(attrs, refused, init, st);
      WriteOneReportsOnlyRefused(WriteAll(attrs, refused, init, st).attrs, refused, last, st);
    }
  }

  /**
   * A run that exits with status 1 (bad option, no file, or a label that
   * violates the rules) leaves the store as it was and reports one usage error.
   */
  lemma RejectedRunChangesNothing(argv: seq<seq<Byte>>, attrs: Attrs, refused: set<Key>, signedChar: bool)
    requires IsArgv(argv)
    ensures var r := RunOutcome(argv, attrs, refused, signedChar);
            (r.status == 0 || r.status == 1) &&
            (r.status == 1 <==> (!ParseCommandLine(argv).Request? ||
                                 FirstViolation(ParseCommandLine(argv).settings, signedChar).Some?)) &&
            (r.status == 1 ==> r.attrs == attrs && |r.out| == 1 && r.out[0].Usage?)
  {
  }

  /**
   * Labels are checked before any file: the first label in the order access,
   * mmap, execute that violates the rules is reported, and nothing is written.
   */
  lemma BadLabelStopsBeforeAnyFile(argv: seq<seq<Byte>>, attrs: Attrs, refused: set<Key>, signedChar: bool)
    requires IsArgv(argv) && ParseCommandLine(argv).Request?
    requires FirstViolation(ParseCommandLine(argv).settings, signedChar).Some?
    ensures var r := RunOutcome(argv, attrs, refused, signedChar);
            var st := ParseCommandLine(argv).settings;
            r.status == 1 && r.attrs == attrs && |r.out| == 1 && r.out[0].Usage? && r.out[0].error.BadLabel? &&
            var f := r.out[0].error.field;
            st.Label(f) == Some(r.out[0].error.value) && !ValidLabel(r.out[0].error.value, signedChar) &&
            forall g: Field :: CheckOrder(g) < CheckOrder(f) && st.Label(g).Some? ==> ValidLabel(st.Label(g).value, signedChar)
  {
  }

  /** A query run changes nothing and lists every file in order. */
  lemma QueryChangesNothing(argv: seq<seq<Byte>>, attrs: Attrs, refused: set<Key>, signedChar: bool)
    requires IsArgv(argv) && ParseCommandLine(argv).Request? && IsQuery(ParseCommandLine(argv).settings)
    ensures var r := RunOutcome(argv, attrs, refused, signedChar);
            var files := argv[ParseCommandLine(argv).firstFile..];
            r.status == 0 && r.attrs == attrs && |r.out| == |files| &&
            forall i :: 0 <= i < |files| ==> r.out[i] == QueryLine(attrs, files[i])
  {
    FilesStartAtOperand(argv);
  }

  /** No attribute changes but a requested one of a listed file, and none whose write is refused. */
  ghost predicate KeepsUntouched(attrs: Attrs, refused: set<Key>, files: seq<seq<Byte>>, st: Settings, e: Effect)
  {
    forall key :: !Touched(files, st, key) || key in refused ==> SameAt(e.attrs, attrs, key)
  }

  /** Every requested attribute of every listed file holds its bytes unless its write is refused. */
  ghost predicate StoresRequested(refused: set<Key>, files: seq<seq<Byte>>, st: Settings, e: Effect)
  {
    forall path, a :: path in files && Requested(st, a) && (path, XattrName(a)) !in refused ==>
      (path, XattrName(a)) in e.attrs && e.attrs[(path, XattrName(a))] == Written(st, a)
  }

  /** Every refused write of a requested attribute of a listed file is reported. */
  ghost predicate ReportsRefused(refused: set<Key>, files: seq<seq<Byte>>, st: Settings, e: Effect)
  {
    forall path, a :: path in files && Requested(st, a) && (path, XattrName(a)) in refused ==>
      WriteFailed(path, a) in e.out
  }

  /** Every report is a refused write of a requested attribute of a listed file. */
  ghost predicate ReportsOnlyRefused(refused: set<Key>, files: seq<seq<Byte>>, st: Settings, e: Effect)
  {
    forall rep :: rep in e.out ==>
      rep.WriteFailed? && rep.path in files && Requested(st, rep.attr) && (rep.path, XattrName(rep.attr)) in refused
  }

  /**
   * What the write loop over `files` leaves in `e`: it changes only the
   * requested attributes of the listed files, and none whose write is
   * refused; it stores the requested bytes wherever the write is not
   * refused; and it reports exactly the refused writes.
   */
  ghost predicate WriteEffects(attrs: Attrs, refused: set<Key>, files: seq<seq<Byte>>, st: Settings, e: Effect)
  {
    && KeepsUntouched(attrs, refused, files, st, e)
    && StoresRequested(refused, files, st, e)
    && ReportsRefused(refused, files, st, e)
    && ReportsOnlyRefused(refused, files, st, e)
  }

  lemma WriteAllEffects(attrs: Attrs, refused: set<Key>, files: seq<seq<Byte>>, st: Settings)
    ensures WriteEffects(attrs, refused, files, st, WriteAll(attrs, refused, files, st))
  {
    var e := WriteAll(attrs, refused, files, st);
    assert KeepsUntouched(attrs, refused, files, st, e) by {
      forall key | !Touched(files, st, key) || key in refused
        ensures SameAt(e.attrs, attrs, key)
      {
        WriteAllFrame(attrs, refused, files, st, key);
      }
    }
    assert StoresRequested(refused, files, st, e) by {
      forall path, a | path in files && Requested(st, a) && (path, XattrName(a)) !in refused
        ensures (path, XattrName(a)) in e.attrs && e.attrs[(path, XattrName(a))] == Written(st, a)
      {
        WriteAllStores(attrs, refused, files, st, path, a);
      }
    }
    assert ReportsRefused(refused, files, st, e) by {
      forall path, a | path in files && Requested(st, a) && (path, XattrName(a)) in refused
        ensures WriteFailed(path, a) in e.out
      {
        WriteAllReportsRefused(attrs, refused, files, st, path, a);
      }
    }
    assert ReportsOnlyRefused(refused, files, st, e) by {
      WriteAllReportsOnlyRefused(attrs, refused, files, st);
    }
  }

  /** A write run is the write loop over the files, with status 0. */
  lemma WriteRunIsWriteLoop(argv: seq<seq<Byte>>, attrs: Attrs, refused: set<Key>, signedChar: bool)
    requires IsArgv(argv) && ParseCommandLine(argv).Request?
    requires !IsQuery(ParseCommandLine(argv).settings)
    requires FirstViolation(ParseCommandLine(argv).settings, signedChar).None?
    ensures var e := WriteAll(attrs, refused, argv[ParseCommandLine(argv).firstFile..], ParseCommandLine(argv).settings);
            RunOutcome(argv, attrs, refused, signedChar) == Outcome(0, e.out, e.attrs)
  {
    FilesStartAtOperand(argv);
  }

  /**
   * A write run exits with status 0 however many writes fail, and its store
   * and reports are those WriteEffects describes for the listed files.
   */
  lemma WriteRunEffects(argv: seq<seq<Byte>>, attrs: Attrs, refused: set<Key>, signedChar: bool)
    requires IsArgv(argv) && ParseCommandLine(argv).Request?
    requires !IsQuery(ParseCommandLine(argv).settings)
    requires FirstViolation(ParseCommandLine(argv).settings, signedChar).None?
    ensures var r := RunOutcome(argv, attrs, refused, signedChar);
            r.status == 0 &&
            WriteEffects(attrs, refused, argv[ParseCommandLine(argv).firstFile..], ParseCommandLine(argv).settings,
                         Effect(r.attrs, r.out))
  {
    var st := ParseCommandLine(argv).settings;
    var files := argv[ParseCommandLine(argv).firstFile..];
    WriteRunIsWriteLoop(argv, attrs, refused, signedChar);
    WriteAllEffects(attrs, refused, files, st);
  }
}
