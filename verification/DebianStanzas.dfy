/** Reading Debian control files, line by line. */
module DebianStanzas {
  import opened Options
  import opened Text

  /** The fields of a stanza that have been seen so far. */
  datatype NewPkg = NewPkg(
    base: Option<string>,
    binary: Option<seq<string>>,
    source: Option<string>,
    version: Option<string>,
    directory: Option<string>,
    architecture: Option<string>,
    filename: Option<string>,
    uploaders: seq<string>)

  const EMPTY_PKG := NewPkg(None, None, None, None, None, None, None, [])

  datatype SourcePkg = SourcePkg(
    base: string,
    binary: seq<string>,
    version: string,
    directory: string,
    architecture: string,
    uploaders: seq<string>)

  /** Whether the version of the source package was given, or is that of the binary. */
  datatype VersionConstraint = Explicit(version: string) | Implicit(version: string)

  datatype BinPkg = BinPkg(
    name: string,
    version: string,
    sourceName: string,
    sourceVersion: VersionConstraint,
    architecture: string,
    filename: string,
    uploaders: seq<string>)

  const MALFORMED_SOURCE := "Malformed version in Source:"

  /** What a stanza becomes at its blank line. */
  type Conversion<!T> = NewPkg -> Result<T, string>

  function ToSource(new_: NewPkg): Result<SourcePkg, string> {
    if new_.base.None? then Failure("Missing pkg base field")
    else if new_.binary.None? then Failure("Missing binary field")
    else if new_.version.None? then Failure("Missing version field")
    else if new_.directory.None? then Failure("Missing directory field")
    else if new_.architecture.None? then Failure("Missing architecture field")
    else
      Success(SourcePkg(new_.base.value, new_.binary.value, new_.version.value, new_.directory.value,
                        new_.architecture.value, new_.uploaders))
  }

  datatype SourceRef = SourceRef(name: string, version: VersionConstraint)

  /** A source field is a name, or a name and a version in parentheses. */
  function ParseSourceRef(source: Option<string>, name: string, version: string): Result<SourceRef, string> {
    match source
    case None => Success(SourceRef(name, Implicit(version)))
    case Some(text) =>
      match SplitOnce(text, " ")
      case None => Success(SourceRef(text, Implicit(version)))
      case Some(Halves(left, right)) =>
        if StartsWith(right, '(') && EndsWith(right[1..], ')') then
          Success(SourceRef(left, Explicit(right[1..|right| - 1])))
        else Failure(MALFORMED_SOURCE)
  }

  function ToBinary(new_: NewPkg): Result<BinPkg, string> {
    if new_.base.None? then Failure("Missing pkg base field")
    else if new_.version.None? then Failure("Missing version field")
    else
      match ParseSourceRef(new_.source, new_.base.value, new_.version.value)
      case Failure(e) => Failure(e)
      case Success(ref) =>
        if new_.architecture.None? then Failure("Missing architecture field")
        else if new_.filename.None? then Failure("Missing filename field")
        else
          Success(BinPkg(new_.base.value, new_.version.value, ref.name, ref.version,
                         new_.architecture.value, new_.filename.value, new_.uploaders))
  }

  // ----- the parser -----

  datatype Unfolded = Unfolded(value: string, rest: seq<string>)

  /** Appends continuation lines as long as the value ends with a comma. */
  function Unfold(value: string, lines: seq<string>): (u: Unfolded)
    ensures |u.rest| <= |lines|
    decreases |lines|
  {
    if EndsWith(value, ',') && lines != [] && StartsWith(lines[0], ' ') then Unfold(value + lines[0], lines[1..])
    else Unfolded(value, lines)
  }

  /** A field other than Binary; unknown fields are skipped. */
  function SetField(p: NewPkg, name: string, value: string): NewPkg {
    match name
    case "Package" => p.(base := Some(value))
    case "Version" => p.(version := Some(value))
    case "Source" => p.(source := Some(value))
    case "Directory" => p.(directory := Some(value))
    case "Filename" => p.(filename := Some(value))
    case "Architecture" => p.(architecture := Some(value))
    case "Uploaders" => p.(uploaders := Split(value, ", "))
    case _ => p
  }

  /** What is left to do: the unread lines, the stanza so far, and the packages so far. */
  function Parse<T>(convert: Conversion<T>, lines: seq<string>, p: NewPkg, done: seq<T>): Result<seq<T>, string>
    decreases |lines|
  {
    if lines == [] then Success(done)
    else if lines[0] == "" then
      match convert(p)
      case Failure(e) => Failure(e)
      case Success(t) => Parse(convert, lines[1..], EMPTY_PKG, done + [t])
    else
      match SplitOnce(lines[0], ": ")
      case None => Parse(convert, lines[1..], p, done)
      case Some(Halves(name, value)) =>
        if name == "Binary" then
          var u := Unfold(value, lines[1..]);
          Parse(convert, u.rest, p.(binary := Some(Split(u.value, ", "))), done)
        else Parse(convert, lines[1..], SetField(p, name, value), done)
  }

  method ExtractPackages<T>(convert: Conversion<T>, lines: seq<string>) returns (result: Result<seq<T>, string>)
    ensures result == Parse(convert, lines, EMPTY_PKG, [])
  {
    var p := EMPTY_PKG;
    var packages := [];
    var next := 0;
    while next < |lines|
      invariant next <= |lines|
      invariant Parse(convert, lines, EMPTY_PKG, []) == Parse(convert, lines[next..], p, packages)
    {
      var line := lines[next];
      assert lines[next..][0] == line && lines[next..][1..] == lines[next + 1..];
      next := next + 1;
      if line == "" {
        match convert(p) {
          case Failure(e) => return Failure(e);
          case Success(t) => packages := packages + [t];
        }
        p := EMPTY_PKG;
      } else {
        match SplitOnce(line, ": ") {
          case None =>
          case Some(Halves(name, first)) =>
            if name == "Binary" {
              ghost var all := lines[next..];
              var value := first;
              while EndsWith(value, ',') && next < |lines| && StartsWith(lines[next], ' ')
                invariant next <= |lines|
                invariant Unfold(first, all) == Unfold(value, lines[next..])
              {
                assert lines[next..][0] == lines[next] && lines[next..][1..] == lines[next + 1..];
                value := value + lines[next];
                next := next + 1;
              }
              p := p.(binary := Some(Split(value, ", ")));
            } else {
              p := SetField(p, name, first);
            }
        }
      }
    }
    result := Success(packages);
  }
}
