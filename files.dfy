/** The environment the reader runs in: the file system it lists and reads,
    and the exceptions that reading can raise, with the text `str(e)` gives. */
module Files {
  import opened Wrappers
  import opened Paths
  import opened Xml

  /** The exceptions the core raises or converts into a sentinel record. */
  datatype Failure =
    | NoSuchFile(path: Path)                          // FileNotFoundError from open, parse or listdir
    | NotParsable(message: string)                    // ElementTree's ParseError, or a failed read
    | NoneHasNoText                                   // AttributeError: `find` gave None
    | NotAnInteger(text: string)                      // ValueError from int()
    | IntOfNone                                       // TypeError from int(None)
    | IndexOutOfRange(message: string)                // IndexError
    | UnsupportedFormat                               // ValueError raised by from_file
    | NoAttribute(typeName: string, attribute: string) // AttributeError on some other object
  {
    /** `str(e)`: the description a sentinel record embeds. */
    function Message(): string
    {
      match this
      case NoSuchFile(p) => "[Errno 2] No such file or directory: '" + p.Text() + "'"
      case NotParsable(m) => m
      case NoneHasNoText => "'NoneType' object has no attribute 'text'"
      case NotAnInteger(t) => "invalid literal for int() with base 10: '" + t + "'"
      case IntOfNone => "int() argument must be a string, a bytes-like object or a real number, not 'NoneType'"
      case IndexOutOfRange(m) => m
      case UnsupportedFormat => "Unsupported file format"
      case NoAttribute(t, a) => "'" + t + "' object has no attribute '" + a + "'"
    }
  }

  /** A snapshot of the file system: what `os.listdir` returns for each
      existing directory, what `ElementTree.parse` makes of each file read as
      XML (the root element, or the parser's error message), and what
      `readlines` returns for each file read as text (or the read error). */
  datatype FileSystem = FileSystem(
    listings: map<Path, seq<string>>,
    xmlFiles: map<Path, Result<Element, string>>,
    textFiles: map<Path, Result<seq<string>, string>>)
  {
    /** `os.path.exists(p)`: a file, a listed directory or an ancestor of one. */
    predicate Exists(p: Path)
    {
      || p in listings || p in xmlFiles || p in textFiles
      || exists q | q in listings :: q.absolute == p.absolute && |p.segments| < |q.segments|
                                     && q.segments[..|p.segments|] == p.segments
    }

    /** What `os.listdir` returns are names of entries: non-empty, never
        `.`, without a separator. */
    predicate NamesAreSegments()
    {
      forall d, i :: d in listings && 0 <= i < |listings[d]| ==> IsSegment(listings[d][i])
    }

    /** `os.listdir(p)`. */
    function ListDir(p: Path): (r: Result<seq<string>, Failure>)
      ensures r.Ok? <==> p in listings
      ensures r.Ok? ==> r.value == listings[p]
      ensures r.Err? ==> r.error == NoSuchFile(p)
    {
      if p in listings then Ok(listings[p]) else Err(NoSuchFile(p))
    }

    /** `ElementTree.parse(p).getroot()`. */
    function ParseXml(p: Path): Result<Element, Failure>
    {
      if p !in xmlFiles then Err(NoSuchFile(p))
      else match xmlFiles[p]
        case Ok(root) => Ok(root)
        case Err(m) => Err(NotParsable(m))
    }

    /** `open(p).readlines()`. */
    function ReadLines(p: Path): Result<seq<string>, Failure>
    {
      if p !in textFiles then Err(NoSuchFile(p))
      else match textFiles[p]
        case Ok(lines) => Ok(lines)
        case Err(m) => Err(NotParsable(m))
    }
  }
}
