/**
 * chsmack's `main` after the option scan (utils/chsmack.c:117-193): every
 * requested label is validated before any file is touched, then each file is
 * either queried (no label and no transmute requested) or written.
 *
 * Output is modelled as a sequence of reports: one `Listing` per queried
 * file (the line `path key="value" ...`), one `WriteFailed` per refused write
 * (the `perror` line), or a single `Usage` error before `exit(1)`.
 */
module Chsmack {
  import opened Wrappers
  import opened CStrings
  import opened Labels
  import opened Args
  import opened Xattr

  /** The four Smack attributes, in the order `main` handles them. */
  datatype Attr = Smack64 | Smack64Exec | Smack64Mmap | Smack64Transmute

  function XattrName(a: Attr): seq<Byte>
  {
    match a
    case Smack64 => Ascii("security.SMACK64")
    case Smack64Exec => Ascii("security.SMACK64EXEC")
    case Smack64Mmap => Ascii("security.SMACK64MMAP")
    case Smack64Transmute => Ascii("security.SMACK64TRANSMUTE")
  }

  /** The value written for `-t`: the four bytes "TRUE", without a NUL. */
  const TransmuteValue := Ascii("TRUE")

  /** Attribute `a` is written for each file under settings `st`. */
  predicate Requested(st: Settings, a: Attr)
  {
    match a
    case Smack64 => st.access.Some?
    case Smack64Exec => st.execute.Some?
    case Smack64Mmap => st.mmap.Some?
    case Smack64Transmute => st.transmute
  }

  /** The bytes written for a requested attribute: a label and its NUL (`strlen + 1`), or "TRUE". */
  function Written(st: Settings, a: Attr): seq<Byte>
    requires Requested(st, a)
  {
    match a
    case Smack64 => st.access.value + [NUL]
    case Smack64Exec => st.execute.value + [NUL]
    case Smack64Mmap => st.mmap.value + [NUL]
    case Smack64Transmute => TransmuteValue
  }

  /** One ` key="value"` of a query line; `attr` stands for the key. */
  datatype Found = Found(attr: Attr, value: seq<Byte>)

  datatype UsageError =
    | BadArgument(arg: seq<Byte>)
    | NoFiles
    | BadLabel(field: Field, value: seq<Byte>)

  datatype Report =
    | Listing(path: seq<Byte>, found: seq<Found>)
    | WriteFailed(path: seq<Byte>, attr: Attr)
    | Usage(error: UsageError)

  /** The exit status, what was reported, and the store afterwards. */
  datatype Outcome = Outcome(status: int, out: seq<Report>, attrs: Attrs)

  /** The size passed to `lgetxattr`: LSIZE + 1. */
  const ReadSize: nat := LabelSize + 1
  /** The source's `char buffer[LSIZE + 1]`. */
  const SourceBufferLength: nat := LabelSize + 1
  /** A buffer with room for a ReadSize value and the NUL written after it. */
  const BufferLength: nat := LabelSize + 2

  /** The order of validation: access, then mmap, then execute. */
  function CheckOrder(f: Field): nat
  {
    match f
    case Access => 0
    case Mmap => 1
    case Execute => 2
  }

  /**
   * The first requested label, in CheckOrder, that violates the label rules;
   * `main` reports it and exits with status 1.
   */
  function FirstViolation(st: Settings, signedChar: bool): (r: Option<UsageError>)
    ensures r.None? <==> forall f: Field :: st.Label(f).Some? ==> ValidLabel(st.Label(f).value, signedChar)
    ensures r.Some? ==>
              && r.value.BadLabel?
              && st.Label(r.value.field) == Some(r.value.value)
              && !ValidLabel(r.value.value, signedChar)
              && forall f: Field :: CheckOrder(f) < CheckOrder(r.value.field) && st.Label(f).Some? ==>
                                      ValidLabel(st.Label(f).value, signedChar)
  {
    if st.access.Some? && !ValidLabel(st.access.value, signedChar) then
      assert st.Label(Access) == st.access;
      Some(BadLabel(Access, st.access.value))
    else if st.mmap.Some? && !ValidLabel(st.mmap.value, signedChar) then
      assert st.Label(Mmap) == st.mmap;
      Some(BadLabel(Mmap, st.mmap.value))
    else if st.execute.Some? && !ValidLabel(st.execute.value, signedChar) then
      assert st.Label(Execute) == st.execute;
      Some(BadLabel(Execute, st.execute.value))
    else None
  }

  /** No label and no transmute requested: the files are queried. */
  predicate IsQuery(st: Settings)
  {
    st.access.None? && st.mmap.None? && st.execute.None? && !st.transmute
  }

  /** One attribute of a query line: printed when the read returns more than 0 bytes. */
  function ReadAttr(attrs: Attrs, path: seq<Byte>, a: Attr): seq<Found>
  {
    match Lookup(attrs, (path, XattrName(a)), ReadSize)
    case Some(v) => if |v| > 0 then [Found(a, UpToNul(v))] else []
    case None => []
  }

  /** The query line of one file. */
  function QueryLine(attrs: Attrs, path: seq<Byte>): Report
  {
    Listing(path, ReadAttr(attrs, path, Smack64) + ReadAttr(attrs, path, Smack64Exec) +
                  ReadAttr(attrs, path, Smack64Mmap) + ReadAttr(attrs, path, Smack64Transmute))
  }

  function Listings(attrs: Attrs, files: seq<seq<Byte>>): seq<Report>
  {
    seq(|files|, i requires 0 <= i < |files| => QueryLine(attrs, files[i]))
  }

  /** The store and the reports so far. */
  datatype Effect = Effect(attrs: Attrs, out: seq<Report>)

  /** One `lsetxattr` and, when it fails, its `perror` report. */
  function Put(e: Effect, refused: set<Key>, path: seq<Byte>, a: Attr, value: seq<Byte>): Effect
  {
    var key := (path, XattrName(a));
    if key in refused then Effect(e.attrs, e.out + [WriteFailed(path, a)])
    else Effect(e.attrs[key := value], e.out)
  }

  /**
   * The writes for one file: each requested label with its terminating NUL
   * (`strlen + 1` bytes), in the order access, execute, mmap, then transmute.
   */
  function WriteOne(attrs: Attrs, refused: set<Key>, path: seq<Byte>, st: Settings): Effect
  {
    var e0 := Effect(attrs, []);
    var e1 := if Requested(st, Smack64) then Put(e0, refused, path, Smack64, Written(st, Smack64)) else e0;
    var e2 := if Requested(st, Smack64Exec) then Put(e1, refused, path, Smack64Exec, Written(st, Smack64Exec)) else e1;
    var e3 := if Requested(st, Smack64Mmap) then Put(e2, refused, path, Smack64Mmap, Written(st, Smack64Mmap)) else e2;
    if Requested(st, Smack64Transmute) then Put(e3, refused, path, Smack64Transmute, Written(st, Smack64Transmute))
    else e3
  }

  /** The writes for the files in order; a failure on one stops nothing. */
  function WriteAll(attrs: Attrs, refused: set<Key>, files: seq<seq<Byte>>, st: Settings): Effect
    decreases |files|
  {
    if files == [] then Effect(attrs, [])
    else
      var e := WriteAll(attrs, refused, files[..|files| - 1], st);
      var w := WriteOne(e.attrs, refused, files[|files| - 1], st);
      Effect(w.attrs, e.out + w.out)
  }

  /**
   * One run of the tool: exit status 1 with the store untouched on a usage or
   * label error, otherwise status 0 after querying or writing every file.
   */
  function RunOutcome(argv: seq<seq<Byte>>, attrs: Attrs, refused: set<Key>, signedChar: bool): Outcome
    requires IsArgv(argv)
  {
    match ParseCommandLine(argv)
    case InvalidArgument(arg) => Outcome(1, [Usage(BadArgument(arg))], attrs)
    case NoFilesSpecified => Outcome(1, [Usage(NoFiles)], attrs)
    case Request(st, first) =>
      match FirstViolation(st, signedChar)
      case Some(err) => Outcome(1, [Usage(err)], attrs)
      case None =>
        FilesStartAtOperand(argv);
        var files := argv[first..];
        if IsQuery(st) then Outcome(0, Listings(attrs, files), attrs)
        else
          var e := WriteAll(attrs, refused, files, st);
          Outcome(0, e.out, e.attrs)
  }

  /**
   * One `lgetxattr` into `buffer` and, when it returned more than 0 bytes,
   * `buffer[rc] = '\0'` and the printed value.
   */
  method ReadInto(fs: XattrStore, path: seq<Byte>, a: Attr, buffer: array<Byte>) returns (found: seq<Found>)
    requires buffer.Length == BufferLength
    modifies buffer
    ensures found == ReadAttr(fs.attrs, path, a)
  {
    var rc := fs.Get(path, XattrName(a), buffer, ReadSize);
    found := [];
    if rc > 0 {
      ghost var v := buffer[..rc];
      buffer[rc] := NUL;
      assert buffer[..] == v + [NUL] + buffer[rc + 1..];
      UpToNulAtTerminator(v, buffer[rc + 1..]);
      found := [Found(a, UpToNul(buffer[..]))];
    }
  }

  /**
   * ReadInto over the source's `char buffer[LSIZE + 1]`: `buffer[rc] = '\0'`
   * stays inside the buffer only when the stored value is shorter than the
   * buffer, a condition the tool's own writes do not keep.
   */
  method ReadIntoAsWritten(fs: XattrStore, path: seq<Byte>, a: Attr, buffer: array<Byte>) returns (found: seq<Found>)
    requires buffer.Length == SourceBufferLength
    requires var v := Lookup(fs.attrs, (path, XattrName(a)), ReadSize); v.None? || |v.value| < SourceBufferLength
    modifies buffer
    ensures found == ReadAttr(fs.attrs, path, a)
  {
    var rc := fs.Get(path, XattrName(a), buffer, ReadSize);
    found := [];
    if rc > 0 {
      ghost var v := buffer[..rc];
      buffer[rc] := NUL;
      assert buffer[..] == v + [NUL] + buffer[rc + 1..];
      UpToNulAtTerminator(v, buffer[rc + 1..]);
      found := [Found(a, UpToNul(buffer[..]))];
    }
  }

  /**
   * The query branch for one file. `buffer` is the one buffer of `main`,
   * shared by every read; it holds BufferLength bytes so that the
   * terminator after a ReadSize value stays inside it. What it held before
   * does not show in the line.
   */
  method QueryFile(fs: XattrStore, path: seq<Byte>, buffer: array<Byte>) returns (line: Report)
    requires buffer.Length == BufferLength
    modifies buffer
    ensures line == QueryLine(fs.attrs, path)
  {
    var access := ReadInto(fs, path, Smack64, buffer);
    var execute := ReadInto(fs, path, Smack64Exec, buffer);
    var mmap := ReadInto(fs, path, Smack64Mmap, buffer);
    var transmute := ReadInto(fs, path, Smack64Transmute, buffer);
    line := Listing(path, access + execute + mmap + transmute);
  }

  /** The write branch for one file: each requested attribute, errors reported and passed over. */
  method WriteFile(fs: XattrStore, path: seq<Byte>, st: Settings) returns (failed: seq<Report>)
    modifies fs
    ensures Effect(fs.attrs, failed) == WriteOne(old(fs.attrs), fs.refused, path, st)
  {
    failed := [];
    var rc: int;
    ghost var e := Effect(fs.attrs, []);
    if st.access.Some? {
      rc := fs.Set(path, XattrName(Smack64), st.access.value + [NUL]);
      if rc < 0 {
        failed := failed + [WriteFailed(path, Smack64)];
      }
      e := Put(e, fs.refused, path, Smack64, Written(st, Smack64));
    }
    assert Effect(fs.attrs, failed) == e;
    if st.execute.Some? {
      rc := fs.Set(path, XattrName(Smack64Exec), st.execute.value + [NUL]);
      if rc < 0 {
        failed := failed + [WriteFailed(path, Smack64Exec)];
      }
      e := Put(e, fs.refused, path, Smack64Exec, Written(st, Smack64Exec));
    }
    assert Effect(fs.attrs, failed) == e;
    if st.mmap.Some? {
      rc := fs.Set(path, XattrName(Smack64Mmap), st.mmap.value + [NUL]);
      if rc < 0 {
        failed := failed + [WriteFailed(path, Smack64Mmap)];
      }
      e := Put(e, fs.refused, path, Smack64Mmap, Written(st, Smack64Mmap));
    }
    assert Effect(fs.attrs, failed) == e;
    if st.transmute {
      rc := fs.Set(path, XattrName(Smack64Transmute), TransmuteValue);
      if rc < 0 {
        failed := failed + [WriteFailed(path, Smack64Transmute)];
      }
      e := Put(e, fs.refused, path, Smack64Transmute, Written(st, Smack64Transmute));
    }
  }

  /** The loop over the files: each is queried or written, whatever happened to the others. */
  method ProcessFiles(fs: XattrStore, files: seq<seq<Byte>>, st: Settings) returns (out: seq<Report>)
    modifies fs
    ensures IsQuery(st) ==> fs.attrs == old(fs.attrs) && out == Listings(old(fs.attrs), files)
    ensures !IsQuery(st) ==> Effect(fs.attrs, out) == WriteAll(old(fs.attrs), fs.refused, files, st)
  {
    var buffer := new Byte[BufferLength];
    var argi := 0;
    out := [];
    while argi < |files|
      invariant argi <= |files|
      invariant IsQuery(st) ==> fs.attrs == old(fs.attrs) && out == Listings(old(fs.attrs), files[..argi])
      invariant !IsQuery(st) ==> Effect(fs.attrs, out) == WriteAll(old(fs.attrs), fs.refused, files[..argi], st)
    {
      assert files[..argi + 1][..argi] == files[..argi];
      if st.access.None? && st.mmap.None? && st.execute.None? && !st.transmute {
        var line := QueryFile(fs, files[argi], buffer);
        out := out + [line];
      } else {
        var failed := WriteFile(fs, files[argi], st);
        out := out + failed;
      }
      argi := argi + 1;
    }
    assert files[..argi] == files;
  }

  /**
   * The three checks before any file is touched: access, then mmap, then
   * execute; the first label `Rules` rejects is the error.
   */
  method CheckLabels(st: Settings, signedChar: bool) returns (violation: Option<UsageError>)
    ensures violation == FirstViolation(st, signedChar)
  {
    var reject: bool;
    if st.access.Some? {
      reject := Rules(st.access.value, signedChar);
      if reject {
        return Some(BadLabel(Access, st.access.value));
      }
    }
    if st.mmap.Some? {
      reject := Rules(st.mmap.value, signedChar);
      if reject {
        return Some(BadLabel(Mmap, st.mmap.value));
      }
    }
    if st.execute.Some? {
      reject := Rules(st.execute.value, signedChar);
      if reject {
        return Some(BadLabel(Execute, st.execute.value));
      }
    }
    return None;
  }

  /**
   * `main`: scan the options, validate access, mmap and execute labels in
   * that order, then query or write each file. The exit status is 0 even
   * when writes fail.
   */
  method Run(fs: XattrStore, argv: seq<seq<Byte>>, signedChar: bool) returns (status: int, out: seq<Report>)
    requires IsArgv(argv)
    modifies fs
    ensures Outcome(status, out, fs.attrs) == RunOutcome(argv, old(fs.attrs), fs.refused, signedChar)
  {
    var parsed := ParseArgs(argv);
    if parsed.InvalidArgument? {
      return 1, [Usage(BadArgument(parsed.arg))];
    }
    if parsed.NoFilesSpecified? {
      return 1, [Usage(NoFiles)];
    }
    var st := parsed.settings;
    var violation := CheckLabels(st, signedChar);
    if violation.Some? {
      return 1, [Usage(violation.value)];
    }
    FilesStartAtOperand(argv);
    out := ProcessFiles(fs, argv[parsed.firstFile..], st);
    status := 0;
  }
}
