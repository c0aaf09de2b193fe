/** `voc_tools/reader.py`: reading annotation records from VOC XML files and
    caption records from text files, one file or a whole dataset directory at
    a time. A generator of the source becomes a sequence: everything it would
    yield, in order. An exception the source catches becomes a sentinel
    record; one it lets escape becomes an `Err`. */
module Reader {
  import opened Wrappers
  import opened Text
  import opened Paths
  import opened Xml
  import opened Files
  import opened Records

  /** The default `empty_placeholder` of `from_xml` and `caption_from_file`. */
  const EmptyPlaceholder: string := "NULL"

  /** `"{}".format(t)` for an element's text, which is `None` when empty. */
  function TextOrNone(t: Option<string>): string
  {
    match t
    case None => "None"
    case Some(s) => s
  }

  /** The record yielded when a file could not be read to the end. */
  function Sentinel(filename: string, e: Failure): (a: Annotation)
    ensures CentredBox(a) && a.filename == filename
  {
    Annotation(filename, 0, 0, 0, 0, IntNumber(0), IntNumber(0), "ERROR:" + e.Message())
  }

  /** The record yielded for a document without objects. */
  function Placeholder(filename: string, placeholder: string): (a: Annotation)
    ensures CentredBox(a) && a.filename == filename
  {
    Annotation(filename, 0, 0, 0, 0, IntNumber(0), IntNumber(0), placeholder)
  }

  // ----------------------------------------------------------- from_xml

  /** `int(obj.find("bndbox/" + tag).text)`. */
  function ReadCoordinate(obj: Element, tag: string): (r: Result<int, Failure>)
    ensures r.Ok? <==> var e := FindNested(obj, "bndbox", tag);
                       e.Some? && e.value.text.Some? && ParseInt(e.value.text.value).Some?
    ensures r.Ok? ==> ParseInt(FindNested(obj, "bndbox", tag).value.text.value) == Some(r.value)
    // a missing element: `None.text`
    ensures FindNested(obj, "bndbox", tag).None? ==> r == Err(NoneHasNoText)
    // an empty element: `int(None)`
    ensures var e := FindNested(obj, "bndbox", tag); e.Some? && e.value.text.None? ==> r == Err(IntOfNone)
    // text that is not a decimal integer: `int(t)` rejects it
    ensures var e := FindNested(obj, "bndbox", tag);
            e.Some? && e.value.text.Some? && ParseInt(e.value.text.value).None? ==> r == Err(NotAnInteger(e.value.text.value))
  {
    match FindNested(obj, "bndbox", tag)
    case None => Err(NoneHasNoText)
    case Some(e) =>
      match e.text
      case None => Err(IntOfNone)
      case Some(t) =>
        match ParseInt(t)
        case None => Err(NotAnInteger(t))
        case Some(v) => Ok(v)
  }

  /** The record of a box, its centre the midpoint of each pair of sides. */
  function Boxed(filename: string, xmin: int, ymin: int, xmax: int, ymax: int, className: string): (a: Annotation)
    ensures CentredBox(a) && a.filename == filename && a.className == className
    ensures a.xmin == xmin && a.ymin == ymin && a.xmax == xmax && a.ymax == ymax
  {
    Annotation(filename, xmin, ymin, xmax, ymax, Midpoint(xmin, xmax), Midpoint(ymin, ymax), className)
  }

  /** One `<object>`: its `name`, then `ymin`, `xmin`, `ymax` and `xmax`;
      the first read that fails is the error. */
  function ObjectRecord(filename: string, obj: Element): (r: Result<Annotation, Failure>)
    ensures r.Ok? <==>
              Find(obj, "name").Some? && ReadCoordinate(obj, "ymin").Ok? && ReadCoordinate(obj, "xmin").Ok?
              && ReadCoordinate(obj, "ymax").Ok? && ReadCoordinate(obj, "xmax").Ok?
    ensures r.Ok? ==>
              && r.value.filename == filename && CentredBox(r.value)
              && r.value.className == TextOrNone(Find(obj, "name").value.text)
              && ReadCoordinate(obj, "xmin") == Ok(r.value.xmin) && ReadCoordinate(obj, "ymin") == Ok(r.value.ymin)
              && ReadCoordinate(obj, "xmax") == Ok(r.value.xmax) && ReadCoordinate(obj, "ymax") == Ok(r.value.ymax)
    ensures Find(obj, "name").None? ==> r == Err(NoneHasNoText)
    // `ymin` is read first, so its error wins over those of the others
    ensures Find(obj, "name").Some? && ReadCoordinate(obj, "ymin").Err? ==> r == Err(ReadCoordinate(obj, "ymin").error)
  {
    match Find(obj, "name")
    case None => Err(NoneHasNoText)
    case Some(name) =>
      var ymin := ReadCoordinate(obj, "ymin");
      if ymin.Err? then Err(ymin.error) else
      var xmin := ReadCoordinate(obj, "xmin");
      if xmin.Err? then Err(xmin.error) else
      var ymax := ReadCoordinate(obj, "ymax");
      if ymax.Err? then Err(ymax.error) else
      var xmax := ReadCoordinate(obj, "xmax");
      if xmax.Err? then Err(xmax.error) else
      Ok(Boxed(filename, xmin.value, ymin.value, xmax.value, ymax.value, TextOrNone(name.text)))
  }

  /** The values of the leading `Ok`s of a sequence of results, and the error
      that ends them, if any. */
  datatype Outcome<T, E> = Outcome(records: seq<T>, failure: Option<E>)

  function Leading<T, E>(rs: seq<Result<T, E>>): (o: Outcome<T, E>)
    ensures |o.records| <= |rs|
    ensures o.failure.None? ==> |o.records| == |rs|
    ensures forall i :: 0 <= i < |o.records| ==> rs[i] == Ok(o.records[i])
    ensures o.failure.Some? ==> |o.records| < |rs| && rs[|o.records|] == Err(o.failure.value)
  {
    if |rs| == 0 then Outcome([], None)
    else
      match rs[0]
      case Err(e) => Outcome([], Some(e))
      case Ok(a) =>
        var rest := Leading(rs[1..]);
        Outcome([a] + rest.records, rest.failure)
  }

  /** Reading stops at the first error, after the values before it. */
  lemma {:induction false} LeadingFailure<T, E>(rs: seq<Result<T, E>>, good: seq<T>, e: E)
    requires |good| < |rs| && rs[|good|] == Err(e)
    requires forall k :: 0 <= k < |good| ==> rs[k] == Ok(good[k])
    ensures Leading(rs) == Outcome(good, Some(e))
  {
    if |good| > 0 {
      LeadingFailure(rs[1..], good[1..], e);
      assert [good[0]] + good[1..] == good;
    }
  }

  /** Without an error every value is read. */
  lemma {:induction false} LeadingAll<T, E>(rs: seq<Result<T, E>>, good: seq<T>)
    requires |good| == |rs|
    requires forall k :: 0 <= k < |good| ==> rs[k] == Ok(good[k])
    ensures Leading(rs) == Outcome(good, None)
  {
    if |good| > 0 {
      LeadingAll(rs[1..], good[1..]);
      assert [good[0]] + good[1..] == good;
    }
  }

  /** One more value read keeps the values read so far a prefix of the results. */
  lemma OkPrefixSnoc<T, E>(rs: seq<Result<T, E>>, good: seq<T>, v: T)
    requires |good| < |rs| && rs[|good|] == Ok(v)
    requires forall k :: 0 <= k < |good| ==> rs[k] == Ok(good[k])
    ensures forall k :: 0 <= k < |good| + 1 ==> rs[k] == Ok((good + [v])[k])
  {
  }

  /** Without an error every value is read, whatever the values are. */
  lemma LeadingAllOk<T, E>(rs: seq<Result<T, E>>)
    requires forall k :: 0 <= k < |rs| ==> rs[k].Ok?
    ensures Leading(rs).failure.None? && |Leading(rs).records| == |rs|
  {
    var good := seq(|rs|, k requires 0 <= k < |rs| => rs[k].value);
    LeadingAll(rs, good);
  }

  /** The first error ends the reading, after the values before it. */
  lemma LeadingFirstErr<T, E>(rs: seq<Result<T, E>>, k: nat)
    requires k < |rs| && rs[k].Err?
    requires forall j :: 0 <= j < k ==> rs[j].Ok?
    ensures Leading(rs).failure == Some(rs[k].error) && |Leading(rs).records| == k
  {
    var good := seq(k, j requires 0 <= j < k => rs[j].value);
    LeadingFailure(rs, good, rs[k].error);
  }

  /** What reading each object on its own gives. */
  function ObjectResults(filename: string, objs: seq<Element>): (rs: seq<Result<Annotation, Failure>>)
    ensures |rs| == |objs|
  {
    if |objs| == 0 then []
    else ObjectResults(filename, objs[..|objs| - 1]) + [ObjectRecord(filename, objs[|objs| - 1])]
  }

  lemma {:induction false} ObjectResultsAt(filename: string, objs: seq<Element>, k: nat)
    requires k < |objs|
    ensures ObjectResults(filename, objs)[k] == ObjectRecord(filename, objs[k])
  {
    if k < |objs| - 1 {
      ObjectResultsAt(filename, objs[..|objs| - 1], k);
    }
  }

  lemma ObjectResultsAll(filename: string, objs: seq<Element>)
    ensures forall k :: 0 <= k < |objs| ==> ObjectResults(filename, objs)[k] == ObjectRecord(filename, objs[k])
  {
    forall k | 0 <= k < |objs|
      ensures ObjectResults(filename, objs)[k] == ObjectRecord(filename, objs[k])
    {
      ObjectResultsAt(filename, objs, k);
    }
  }

  /** `from_xml(xml_file, empty_placeholder)`: one record per object in
      document order; the placeholder record when there is none; and after
      the records already read, an error record when reading fails. The
      file name is the document's `<filename>` once that is read, the base
      name of the path before. */
  function XmlRecords(fs: FileSystem, xmlFile: string, placeholder: string): (r: seq<Annotation>)
    ensures |r| > 0
  {
    var baseName := Parse(xmlFile).Name();
    match fs.ParseXml(Parse(xmlFile))
    case Err(e) => [Sentinel(baseName, e)]
    case Ok(root) =>
      match Find(root, "filename")
      case None => [Sentinel(baseName, NoneHasNoText)]
      case Some(f) =>
        var filename := TextOrNone(f.text);
        var objs := Iter(root, "object");
        var o := Leading(ObjectResults(filename, objs));
        if o.failure.Some? then o.records + [Sentinel(filename, o.failure.value)]
        else if |objs| == 0 then [Placeholder(filename, placeholder)]
        else o.records
  }

  /** The loop of `from_xml` over the objects, with its `no_threat` flag:
      it stops at the first object that fails. */
  method ReadObjects(filename: string, objs: seq<Element>) returns (records: seq<Annotation>, failure: Option<Failure>, noThreat: bool)
    ensures Outcome(records, failure) == Leading(ObjectResults(filename, objs))
    ensures noThreat <==> |objs| == 0
  {
    ghost var rs := ObjectResults(filename, objs);
    noThreat := true;
    records := [];
    var i := 0;
    while i < |objs|
      invariant 0 <= i <= |objs| && |records| == i
      invariant noThreat <==> i == 0
      invariant forall k :: 0 <= k < i ==> rs[k] == Ok(records[k])
    {
      noThreat := false;
      var r := ObjectRecord(filename, objs[i]);
      ObjectResultsAt(filename, objs, i);
      if r.Err? {
        LeadingFailure(rs, records, r.error);
        return records, Some(r.error), noThreat;
      }
      OkPrefixSnoc(rs, records, r.value);
      records := records + [r.value];
      i := i + 1;
    }
    LeadingAll(rs, records);
    failure := None;
  }

  /** `from_xml`: the error record of an exception ends the records. */
  method FromXml(fs: FileSystem, xmlFile: string, placeholder: string) returns (records: seq<Annotation>)
    ensures records == XmlRecords(fs, xmlFile, placeholder)
  {
    var filename := Parse(xmlFile).Name();
    var tree := fs.ParseXml(Parse(xmlFile));
    if tree.Err? {
      return [Sentinel(filename, tree.error)];
    }
    var root := tree.value;
    var f := Find(root, "filename");
    if f.None? {
      return [Sentinel(filename, NoneHasNoText)];
    }
    filename := TextOrNone(f.value.text);
    var failure, noThreat;
    records, failure, noThreat := ReadObjects(filename, Iter(root, "object"));
    if failure.Some? {
      return records + [Sentinel(filename, failure.value)];
    }
    if noThreat {
      records := [Placeholder(filename, placeholder)];
    }
  }

  /** Every record `from_xml` yields has its centre at the midpoint of its box. */
  lemma XmlRecordsCentred(fs: FileSystem, xmlFile: string, placeholder: string)
    ensures forall i :: 0 <= i < |XmlRecords(fs, xmlFile, placeholder)| ==> CentredBox(XmlRecords(fs, xmlFile, placeholder)[i])
  {
    var tree := fs.ParseXml(Parse(xmlFile));
    if tree.Ok? && Find(tree.value, "filename").Some? {
      var filename := TextOrNone(Find(tree.value, "filename").value.text);
      var objs := Iter(tree.value, "object");
      var o := Leading(ObjectResults(filename, objs));
      forall i | 0 <= i < |o.records|
        ensures CentredBox(o.records[i])
      {
        ObjectResultsAt(filename, objs, i);
      }
    }
  }

  /** The root of a document that parses and names its file. */
  predicate NamedDocument(fs: FileSystem, xmlFile: string, root: Element, filename: string)
  {
    fs.ParseXml(Parse(xmlFile)) == Ok(root) && Find(root, "filename").Some?
    && filename == TextOrNone(Find(root, "filename").value.text)
  }

  /** A document whose objects all read well yields one record per object, in
      document order, and the placeholder record when it has none. */
  lemma XmlRecordsSuccess(fs: FileSystem, xmlFile: string, placeholder: string, root: Element, filename: string)
    requires NamedDocument(fs, xmlFile, root, filename)
    requires forall k :: 0 <= k < |Iter(root, "object")| ==> ObjectRecord(filename, Iter(root, "object")[k]).Ok?
    ensures var objs := Iter(root, "object");
            var r := XmlRecords(fs, xmlFile, placeholder);
            && (|objs| == 0 ==> r == [Placeholder(filename, placeholder)])
            && (|objs| > 0 ==> |r| == |objs| && forall k :: 0 <= k < |r| ==> ObjectRecord(filename, objs[k]) == Ok(r[k]))
  {
    var objs := Iter(root, "object");
    ObjectResultsAll(filename, objs);
    LeadingAllOk(ObjectResults(filename, objs));
  }

  /** When object `k` is the first that fails, the records of the `k` objects
      before it are followed by one error record, and nothing else. */
  lemma XmlRecordsFailure(fs: FileSystem, xmlFile: string, placeholder: string, root: Element, filename: string,
                          k: nat, e: Failure)
    requires NamedDocument(fs, xmlFile, root, filename)
    requires k < |Iter(root, "object")| && ObjectRecord(filename, Iter(root, "object")[k]) == Err(e)
    requires forall j :: 0 <= j < k ==> ObjectRecord(filename, Iter(root, "object")[j]).Ok?
    ensures var objs := Iter(root, "object");
            var r := XmlRecords(fs, xmlFile, placeholder);
            && |r| == k + 1
            && (forall j :: 0 <= j < k ==> ObjectRecord(filename, objs[j]) == Ok(r[j]))
            && r[k] == Sentinel(filename, e) && r[k].className == "ERROR:" + e.Message()
  {
    var objs := Iter(root, "object");
    ObjectResultsAll(filename, objs);
    LeadingFirstErr(ObjectResults(filename, objs), k);
  }

  /** A missing file, a file that does not parse, or a root without
      `<filename>` yields a single all-zero record named after the path's
      base name, whose class is the exception's text behind `ERROR:`. */
  lemma XmlRecordsUnreadable(fs: FileSystem, xmlFile: string, placeholder: string)
    ensures var p := Parse(xmlFile);
            p !in fs.xmlFiles ==>
              XmlRecords(fs, xmlFile, placeholder)
              == [Annotation(p.Name(), 0, 0, 0, 0, IntNumber(0), IntNumber(0),
                             "ERROR:" + ("[Errno 2] No such file or directory: '" + p.Text() + "'"))]
    ensures var p := Parse(xmlFile);
            p in fs.xmlFiles && fs.xmlFiles[p].Err? ==>
              XmlRecords(fs, xmlFile, placeholder)
              == [Annotation(p.Name(), 0, 0, 0, 0, IntNumber(0), IntNumber(0), "ERROR:" + fs.xmlFiles[p].error)]
    ensures var p := Parse(xmlFile);
            p in fs.xmlFiles && fs.xmlFiles[p].Ok? && Find(fs.xmlFiles[p].value, "filename").None? ==>
              XmlRecords(fs, xmlFile, placeholder)
              == [Annotation(p.Name(), 0, 0, 0, 0, IntNumber(0), IntNumber(0),
                             "ERROR:" + "'NoneType' object has no attribute 'text'")]
  {
  }

  // -------------------------------------------------- caption_from_file

  /** The lines that are not blank, stripped, in order. */
  function Kept(lines: seq<string>): (r: seq<string>)
    ensures |r| <= |lines|
  {
    if |lines| == 0 then []
    else
      var last := Strip(lines[|lines| - 1], Whitespace);
      Kept(lines[..|lines| - 1]) + (if last != "" then [last] else [])
  }

  /** Every kept line is non-empty and has nothing left to strip. */
  lemma {:induction false} KeptStripped(lines: seq<string>)
    ensures forall i :: 0 <= i < |Kept(lines)| ==> Kept(lines)[i] != "" && Strip(Kept(lines)[i], Whitespace) == Kept(lines)[i]
  {
    if |lines| > 0 {
      var init := lines[..|lines| - 1];
      var last := Strip(lines[|lines| - 1], Whitespace);
      KeptStripped(init);
      StripIdempotent(lines[|lines| - 1], Whitespace);
      var k, ki := Kept(lines), Kept(init);
      assert k == ki + (if last != "" then [last] else []);
      forall i | 0 <= i < |k|
        ensures k[i] != "" && Strip(k[i], Whitespace) == k[i]
      {
        if i < |ki| {
          assert k[i] == ki[i];
        } else {
          assert k[i] == last;
        }
      }
    }
  }

  /** Keeping distributes over concatenation of line lists. */
  lemma {:induction false} KeptAppend(a: seq<string>, b: seq<string>)
    ensures Kept(a + b) == Kept(a) + Kept(b)
    decreases |b|
  {
    if |b| == 0 {
      assert a + b == a;
    } else {
      var b' := b[..|b| - 1];
      assert (a + b)[..|a + b| - 1] == a + b';
      assert (a + b)[|a + b| - 1] == b[|b| - 1];
      KeptAppend(a, b');
    }
  }

  /** Only blank lines leave nothing. */
  lemma {:induction false} KeptEmpty(lines: seq<string>)
    ensures |Kept(lines)| == 0 <==> forall i :: 0 <= i < |lines| ==> Strip(lines[i], Whitespace) == ""
  {
    if |lines| > 0 {
      var init := lines[..|lines| - 1];
      KeptEmpty(init);
      assert forall i :: 0 <= i < |init| ==> init[i] == lines[i];
    }
  }

  function CaptionsOf(filename: string, texts: seq<string>): (r: seq<Caption>)
    ensures |r| == |texts|
    ensures forall i :: 0 <= i < |r| ==> r[i] == Caption(filename, texts[i])
  {
    seq(|texts|, i requires 0 <= i < |texts| => Caption(filename, texts[i]))
  }

  lemma CaptionsOfSnoc(filename: string, texts: seq<string>, t: string)
    ensures CaptionsOf(filename, texts + [t]) == CaptionsOf(filename, texts) + [Caption(filename, t)]
  {
    assert forall i :: 0 <= i < |texts| ==> (texts + [t])[i] == texts[i];
  }

  /** The captions of the lines of a file: one per non-blank line with its
      stripped text, or the placeholder caption when there is none. */
  function LineCaptions(filename: string, lines: seq<string>, placeholder: string): (r: seq<Caption>)
    ensures |r| > 0 && forall i :: 0 <= i < |r| ==> r[i].filename == filename
  {
    var kept := Kept(lines);
    if |kept| == 0 then [Caption(filename, placeholder)] else CaptionsOf(filename, kept)
  }

  /** The loop of `caption_from_file` over the lines, with its `no_caption` flag. */
  method CaptionsFromLines(filename: string, lines: seq<string>, placeholder: string) returns (captions: seq<Caption>)
    ensures captions == LineCaptions(filename, lines, placeholder)
  {
    var noCaption := true;
    captions := [];
    var i := 0;
    while i < |lines|
      invariant 0 <= i <= |lines|
      invariant captions == CaptionsOf(filename, Kept(lines[..i]))
      invariant noCaption <==> |captions| == 0
    {
      var text := Strip(lines[i], Whitespace);
      KeptPrefix(lines, i);
      if text != "" {
        noCaption := false;
        CaptionsOfSnoc(filename, Kept(lines[..i]), text);
        captions := captions + [Caption(filename, text)];
      }
      i := i + 1;
    }
    assert lines[..|lines|] == lines;
    if noCaption {
      captions := [Caption(filename, placeholder)];
    }
  }

  lemma KeptPrefix(lines: seq<string>, i: nat)
    requires i < |lines|
    ensures var t := Strip(lines[i], Whitespace);
            Kept(lines[..i + 1]) == if t != "" then Kept(lines[..i]) + [t] else Kept(lines[..i])
  {
    assert lines[..i + 1][..i] == lines[..i];
    assert Kept(lines[..i]) + [] == Kept(lines[..i]);
  }

  /** `caption_from_file(file_path, empty_placeholder)`: the captions of the
      file's lines, or a single error caption when the file cannot be read.
      Every caption carries the base name of the path. */
  function CaptionRecords(fs: FileSystem, filePath: string, placeholder: string): (r: seq<Caption>)
    ensures |r| > 0
    ensures forall i :: 0 <= i < |r| ==> r[i].filename == Parse(filePath).Name()
  {
    var filename := Parse(filePath).Name();
    match fs.ReadLines(Parse(filePath))
    case Err(e) => [Caption(filename, "ERROR:" + e.Message())]
    case Ok(lines) => LineCaptions(filename, lines, placeholder)
  }

  method CaptionFromFile(fs: FileSystem, filePath: string, placeholder: string) returns (captions: seq<Caption>)
    ensures captions == CaptionRecords(fs, filePath, placeholder)
  {
    var filename := Parse(filePath).Name();
    var read := fs.ReadLines(Parse(filePath));
    if read.Err? {
      return [Caption(filename, "ERROR:" + read.error.Message())];
    }
    captions := CaptionsFromLines(filename, read.value, placeholder);
  }

  /** The outcomes of reading the lines of a caption file: the placeholder
      when every line is blank, and otherwise the non-blank lines, stripped,
      each non-empty, in order. */
  lemma LineCaptionsCases(filename: string, lines: seq<string>, placeholder: string)
    ensures (forall i :: 0 <= i < |lines| ==> Strip(lines[i], Whitespace) == "") ==>
              LineCaptions(filename, lines, placeholder) == [Caption(filename, placeholder)]
    ensures (exists i :: 0 <= i < |lines| && Strip(lines[i], Whitespace) != "") ==>
              var r := LineCaptions(filename, lines, placeholder);
              && |r| == |Kept(lines)|
              && forall i :: 0 <= i < |r| ==>
                   r[i] == Caption(filename, Kept(lines)[i]) && r[i].caption != "" && Strip(r[i].caption, Whitespace) == r[i].caption
  {
    KeptEmpty(lines);
    KeptStripped(lines);
  }

  /** The outcomes of `caption_from_file`, all captions named after the
      path's base name: one error caption for a missing or unreadable file,
      the placeholder caption for a file of blank lines, and otherwise the
      non-blank lines, stripped, in order. */
  lemma CaptionRecordsCases(fs: FileSystem, filePath: string, placeholder: string)
    ensures var p := Parse(filePath);
            p !in fs.textFiles ==>
              CaptionRecords(fs, filePath, placeholder)
              == [Caption(p.Name(), "ERROR:" + ("[Errno 2] No such file or directory: '" + p.Text() + "'"))]
    ensures var p := Parse(filePath);
            p in fs.textFiles && fs.textFiles[p].Err? ==>
              CaptionRecords(fs, filePath, placeholder) == [Caption(p.Name(), "ERROR:" + fs.textFiles[p].error)]
    ensures var p := Parse(filePath);
            p in fs.textFiles && fs.textFiles[p].Ok?
            && (forall i :: 0 <= i < |fs.textFiles[p].value| ==> Strip(fs.textFiles[p].value[i], Whitespace) == "") ==>
              CaptionRecords(fs, filePath, placeholder) == [Caption(p.Name(), placeholder)]
    ensures var p := Parse(filePath);
            p in fs.textFiles && fs.textFiles[p].Ok?
            && (exists i :: 0 <= i < |fs.textFiles[p].value| && Strip(fs.textFiles[p].value[i], Whitespace) != "") ==>
              var r := CaptionRecords(fs, filePath, placeholder);
              var kept := Kept(fs.textFiles[p].value);
              && |r| == |kept|
              && forall i :: 0 <= i < |r| ==>
                   r[i] == Caption(p.Name(), kept[i]) && r[i].caption != "" && Strip(r[i].caption, Whitespace) == r[i].caption
  {
    var p := Parse(filePath);
    if p in fs.textFiles && fs.textFiles[p].Ok? {
      LineCaptionsCases(p.Name(), fs.textFiles[p].value, placeholder);
    }
  }

  // ------------------------------------------------------------ list_dir

  /** The three directory flags of `voc_tools/constants.py`. */
  datatype DirFlag = VocXmls | VocImages | VocCaptions

  /** The subdirectory a flag names. */
  function Subdirectory(flag: DirFlag): (name: string)
    ensures IsSegment(name)
    ensures name == "JPEGImages" <==> flag == VocImages
    ensures name == "Annotations" <==> flag == VocXmls
    ensures name == "text" <==> flag == VocCaptions
  {
    assert "JPEGImages"[0] == 'J' && "Annotations"[0] == 'A' && "text"[0] == 't';
    match flag
    case VocImages => "JPEGImages"
    case VocXmls => "Annotations"
    case VocCaptions => "text"
  }

  /** The flag `list_dir` goes by: the deprecated `images` overrides `dir_flag`. */
  function EffectiveFlag(flag: DirFlag, images: bool): (f: DirFlag)
    ensures f == VocImages <==> images || flag == VocImages
  {
    if images then VocImages else flag
  }

  /** `list(list_dir(dir_path, dir_flag, images, fullpath))`: an entry per
      listed item, in listing order, as the full path or the bare name; the
      `FileNotFoundError` of a missing subdirectory escapes. */
  function ListDir(fs: FileSystem, dirPath: string, flag: DirFlag, images: bool, fullpath: bool)
    : (r: Result<seq<string>, Failure>)
    ensures var dir := Parse(dirPath).Child(Subdirectory(EffectiveFlag(flag, images)));
            && (r.Ok? <==> dir in fs.listings)
            && (r.Err? ==> r == Err(NoSuchFile(dir)))
            && (r.Ok? ==> |r.value| == |fs.listings[dir]|
                          && forall i :: 0 <= i < |r.value| ==>
                               r.value[i] == if fullpath then dir.Child(fs.listings[dir][i]).Text()
                                             else fs.listings[dir][i])
  {
    var dir := Parse(dirPath).Child(Subdirectory(EffectiveFlag(flag, images)));
    match fs.ListDir(dir)
    case Err(e) => Err(e)
    case Ok(items) =>
      Ok(seq(|items|, i requires 0 <= i < |items| =>
               if fullpath then dir.Child(items[i]).Text() else dir.Child(items[i]).Name()))
  }

  /** `list_dir` lists `dir_path / sub`, where `sub` is `JPEGImages` when
      `images` is set or the flag asks for images, `Annotations` for the
      XML flag and `text` otherwise. A missing subdirectory is the
      `FileNotFoundError`; an existing one gives one entry per listed item,
      in listing order. A full path reads back as the item inside the
      subdirectory; a bare entry is the item's name. */
  lemma ListDirEntries(fs: FileSystem, dirPath: string, flag: DirFlag, images: bool, fullpath: bool)
    requires fs.NamesAreSegments()
    ensures var sub := if images || flag == VocImages then "JPEGImages" else if flag == VocXmls then "Annotations" else "text";
            var dir := Parse(dirPath).Child(sub);
            var r := ListDir(fs, dirPath, flag, images, fullpath);
            && (r.Ok? <==> dir in fs.listings)
            && (r.Err? ==> r.error == NoSuchFile(dir))
            && (r.Ok? ==> |r.value| == |fs.listings[dir]|
                          && forall i :: 0 <= i < |r.value| ==>
                               && (fullpath ==> Parse(r.value[i]) == dir.Child(fs.listings[dir][i])
                                                && Parse(r.value[i]).Parent(0) == Some(dir))
                               && (!fullpath ==> r.value[i] == fs.listings[dir][i]))
  {
    var dir := Parse(dirPath).Child(Subdirectory(EffectiveFlag(flag, images)));
    var r := ListDir(fs, dirPath, flag, images, fullpath);
    if r.Ok? && fullpath {
      forall i | 0 <= i < |r.value|
        ensures Parse(r.value[i]) == dir.Child(fs.listings[dir][i])
      {
        assert IsSegment(fs.listings[dir][i]);
        assert dir.Child(fs.listings[dir][i]).WellFormed();
        ParseText(dir.Child(fs.listings[dir][i]));
      }
    }
  }

  // ------------------------------------------------------ from_dir and friends

  /** The records of a batch of files: one list per file (`bulk`), or all
      of them one after another. */
  datatype Batch<T> = Grouped(groups: seq<seq<T>>) | Flat(items: seq<T>)

  /** All the items of a sequence of lists, list after list. */
  function Flatten<T>(groups: seq<seq<T>>): seq<T>
  {
    if |groups| == 0 then [] else Flatten(groups[..|groups| - 1]) + groups[|groups| - 1]
  }

  lemma FlattenSnoc<T>(groups: seq<seq<T>>, g: seq<T>)
    ensures Flatten(groups + [g]) == Flatten(groups) + g
  {
    assert (groups + [g])[..|groups|] == groups;
  }

  /** Lists that are all non-empty hold at least one item each. */
  lemma {:induction false} FlattenLength<T>(groups: seq<seq<T>>)
    requires forall i :: 0 <= i < |groups| ==> |groups[i]| > 0
    ensures |Flatten(groups)| >= |groups|
  {
    if |groups| > 0 {
      FlattenLength(groups[..|groups| - 1]);
    }
  }

  /** An item is in the flattened lists exactly when it is in one of them. */
  lemma {:induction false} FlattenMember<T>(groups: seq<seq<T>>, x: T)
    ensures x in Flatten(groups) <==> exists i :: 0 <= i < |groups| && x in groups[i]
  {
    if |groups| > 0 {
      var init := groups[..|groups| - 1];
      FlattenMember(init, x);
      assert forall i :: 0 <= i < |init| ==> init[i] == groups[i];
    }
  }

  /** `list(from_xml(f))` for each file `f`. */
  function XmlGroups(fs: FileSystem, files: seq<string>): (gs: seq<seq<Annotation>>)
    ensures |gs| == |files|
  {
    if |files| == 0 then []
    else XmlGroups(fs, files[..|files| - 1]) + [XmlRecords(fs, files[|files| - 1], EmptyPlaceholder)]
  }

  lemma XmlGroupsSnoc(fs: FileSystem, files: seq<string>, i: nat)
    requires i < |files|
    ensures XmlGroups(fs, files[..i + 1]) == XmlGroups(fs, files[..i]) + [XmlRecords(fs, files[i], EmptyPlaceholder)]
  {
    assert files[..i + 1][..i] == files[..i];
  }

  lemma {:induction false} XmlGroupsAt(fs: FileSystem, files: seq<string>, k: nat)
    requires k < |files|
    ensures XmlGroups(fs, files)[k] == XmlRecords(fs, files[k], EmptyPlaceholder)
  {
    if k < |files| - 1 {
      XmlGroupsAt(fs, files[..|files| - 1], k);
    }
  }

  /** `from_dir(dir_path, bulk)` over the `Annotations` subdirectory. */
  function DirBatch(fs: FileSystem, dirPath: string, bulk: bool): (r: Result<Batch<Annotation>, Failure>)
    ensures r.Ok? <==> Parse(dirPath).Child("Annotations") in fs.listings
    ensures r.Err? ==> r.error == NoSuchFile(Parse(dirPath).Child("Annotations"))
    ensures r.Ok? ==> (r.value.Grouped? <==> bulk)
  {
    match ListDir(fs, dirPath, VocXmls, false, true)
    case Err(e) => Err(e)
    case Ok(files) =>
      var groups := XmlGroups(fs, files);
      if bulk then Ok(Grouped(groups)) else Ok(Flat(Flatten(groups)))
  }

  /** `from_dir`, written as its loop over the listing. */
  method FromDir(fs: FileSystem, dirPath: string, bulk: bool) returns (r: Result<Batch<Annotation>, Failure>)
    ensures r == DirBatch(fs, dirPath, bulk)
  {
    var listed := ListDir(fs, dirPath, VocXmls, false, true);
    if listed.Err? {
      return Err(listed.error);
    }
    var files := listed.value;
    var groups: seq<seq<Annotation>> := [];
    var flat: seq<Annotation> := [];
    var i := 0;
    while i < |files|
      invariant 0 <= i <= |files|
      invariant bulk ==> groups == XmlGroups(fs, files[..i])
      invariant !bulk ==> flat == Flatten(XmlGroups(fs, files[..i]))
    {
      var records := FromXml(fs, files[i], EmptyPlaceholder);
      XmlGroupsSnoc(fs, files, i);
      if bulk {
        groups := groups + [records];
      } else {
        FlattenSnoc(XmlGroups(fs, files[..i]), records);
        flat := flat + records;
      }
      i := i + 1;
    }
    assert files[..|files|] == files;
    if bulk {
      r := Ok(Grouped(groups));
    } else {
      r := Ok(Flat(flat));
    }
  }

  /** Both forms fail alike when the listing does. Otherwise the grouped form
      holds `from_xml` of each listed file in listing order, every list
      non-empty, and the flat form holds at least one record per file. */
  lemma FromDirShape(fs: FileSystem, dirPath: string)
    ensures DirBatch(fs, dirPath, true).Err? ==>
              DirBatch(fs, dirPath, false) == DirBatch(fs, dirPath, true)
              == Err(NoSuchFile(Parse(dirPath).Child("Annotations")))
    ensures DirBatch(fs, dirPath, true).Ok? ==>
              var files := ListDir(fs, dirPath, VocXmls, false, true).value;
              var groups := DirBatch(fs, dirPath, true).value.groups;
              && DirBatch(fs, dirPath, false).Ok?
              && |groups| == |files|
              && (forall i :: 0 <= i < |groups| ==> groups[i] == XmlRecords(fs, files[i], EmptyPlaceholder) && |groups[i]| > 0)
              && DirBatch(fs, dirPath, false).value.items == Flatten(groups)
              && |DirBatch(fs, dirPath, false).value.items| >= |files|
  {
    var listed := ListDir(fs, dirPath, VocXmls, false, true);
    if listed.Ok? {
      var files := listed.value;
      forall i | 0 <= i < |files|
        ensures XmlGroups(fs, files)[i] == XmlRecords(fs, files[i], EmptyPlaceholder)
      {
        XmlGroupsAt(fs, files, i);
      }
      FlattenLength(XmlGroups(fs, files));
    }
  }

  /** `list(caption_from_file(f))` for each file `f`. */
  function CaptionGroups(fs: FileSystem, files: seq<string>): (gs: seq<seq<Caption>>)
    ensures |gs| == |files|
  {
    if |files| == 0 then []
    else CaptionGroups(fs, files[..|files| - 1]) + [CaptionRecords(fs, files[|files| - 1], EmptyPlaceholder)]
  }

  lemma CaptionGroupsSnoc(fs: FileSystem, files: seq<string>, i: nat)
    requires i < |files|
    ensures CaptionGroups(fs, files[..i + 1]) == CaptionGroups(fs, files[..i]) + [CaptionRecords(fs, files[i], EmptyPlaceholder)]
  {
    assert files[..i + 1][..i] == files[..i];
  }

  lemma {:induction false} CaptionGroupsAt(fs: FileSystem, files: seq<string>, k: nat)
    requires k < |files|
    ensures CaptionGroups(fs, files)[k] == CaptionRecords(fs, files[k], EmptyPlaceholder)
  {
    if k < |files| - 1 {
      CaptionGroupsAt(fs, files[..|files| - 1], k);
    }
  }

  /** `caption_from_dir(dir_path, bulk)` over the `text` subdirectory. */
  function CaptionDirBatch(fs: FileSystem, dirPath: string, bulk: bool): (r: Result<Batch<Caption>, Failure>)
    ensures r.Ok? <==> Parse(dirPath).Child("text") in fs.listings
    ensures r.Err? ==> r.error == NoSuchFile(Parse(dirPath).Child("text"))
    ensures r.Ok? ==> (r.value.Grouped? <==> bulk)
  {
    match ListDir(fs, dirPath, VocCaptions, false, true)
    case Err(e) => Err(e)
    case Ok(files) =>
      var groups := CaptionGroups(fs, files);
      if bulk then Ok(Grouped(groups)) else Ok(Flat(Flatten(groups)))
  }

  /** `caption_from_dir`, written as its loop over the listing. */
  method CaptionFromDir(fs: FileSystem, dirPath: string, bulk: bool) returns (r: Result<Batch<Caption>, Failure>)
    ensures r == CaptionDirBatch(fs, dirPath, bulk)
  {
    var listed := ListDir(fs, dirPath, VocCaptions, false, true);
    if listed.Err? {
      return Err(listed.error);
    }
    var files := listed.value;
    var groups: seq<seq<Caption>> := [];
    var flat: seq<Caption> := [];
    var i := 0;
    while i < |files|
      invariant 0 <= i <= |files|
      invariant bulk ==> groups == CaptionGroups(fs, files[..i])
      invariant !bulk ==> flat == Flatten(CaptionGroups(fs, files[..i]))
    {
      var captions := CaptionFromFile(fs, files[i], EmptyPlaceholder);
      CaptionGroupsSnoc(fs, files, i);
      if bulk {
        groups := groups + [captions];
      } else {
        FlattenSnoc(CaptionGroups(fs, files[..i]), captions);
        flat := flat + captions;
      }
      i := i + 1;
    }
    assert files[..|files|] == files;
    if bulk {
      r := Ok(Grouped(groups));
    } else {
      r := Ok(Flat(flat));
    }
  }

  /** The caption counterpart of `FromDirShape`. */
  lemma CaptionFromDirShape(fs: FileSystem, dirPath: string)
    ensures CaptionDirBatch(fs, dirPath, true).Err? ==>
              CaptionDirBatch(fs, dirPath, false) == CaptionDirBatch(fs, dirPath, true)
              == Err(NoSuchFile(Parse(dirPath).Child("text")))
    ensures CaptionDirBatch(fs, dirPath, true).Ok? ==>
              var files := ListDir(fs, dirPath, VocCaptions, false, true).value;
              var groups := CaptionDirBatch(fs, dirPath, true).value.groups;
              && CaptionDirBatch(fs, dirPath, false).Ok?
              && |groups| == |files|
              && (forall i :: 0 <= i < |groups| ==> groups[i] == CaptionRecords(fs, files[i], EmptyPlaceholder) && |groups[i]| > 0)
              && CaptionDirBatch(fs, dirPath, false).value.items == Flatten(groups)
              && |CaptionDirBatch(fs, dirPath, false).value.items| >= |files|
  {
    var listed := ListDir(fs, dirPath, VocCaptions, false, true);
    if listed.Ok? {
      var files := listed.value;
      forall i | 0 <= i < |files|
        ensures CaptionGroups(fs, files)[i] == CaptionRecords(fs, files[i], EmptyPlaceholder)
      {
        CaptionGroupsAt(fs, files, i);
      }
      FlattenLength(CaptionGroups(fs, files));
    }
  }

  // -------------------------------------------- from_caption, from_image, from_file

  /** `str(p.parents[1] / "Annotations" / name)`: the companion XML path of a
      file; pathlib's `IndexError` when the path has no grandparent. */
  function CompanionPath(file: string, name: string): (r: Result<string, Failure>)
    ensures r.Ok? <==> |Parse(file).segments| >= 2
    ensures r.Err? ==> r.error == IndexOutOfRange("1")
    // the companion is `name` inside the `Annotations` sibling of the file's directory
    ensures r.Ok? && IsSegment(name) ==>
              var c := Parse(r.value);
              && c.Name() == name && c.Parent(0).value.Name() == "Annotations"
              && c.Parent(1) == Parse(file).Parent(1)
  {
    match Parse(file).Parent(1)
    case None => Err(IndexOutOfRange("1"))
    case Some(grandparent) =>
      if IsSegment(name) then
        CompanionInAnnotations(grandparent, name);
        Ok(grandparent.Child("Annotations").Child(name).Text())
      else Ok(grandparent.Child("Annotations").Child(name).Text())
  }

  /** `g / "Annotations" / name`, read back from its text. */
  lemma CompanionInAnnotations(g: Path, name: string)
    requires g.WellFormed() && IsSegment(name)
    ensures var c := Parse(g.Child("Annotations").Child(name).Text());
            c.Name() == name && c.Parent(0).value.Name() == "Annotations" && c.Parent(1) == Some(g)
  {
    var c := g.Child("Annotations").Child(name);
    assert c.segments == g.segments + ["Annotations", name];
    assert c.WellFormed();
    ParseText(c);
    assert c.segments[..|c.segments| - 2] == g.segments;
  }

  /** The XML file name of a caption file: every `.txt` becomes `.xml`. */
  function CaptionXmlName(name: string): string
  {
    Replace(name, ".txt", ".xml")
  }

  /** A name without `.txt` keeps its XML name as it is; a dot-free stem
      with the `.txt` suffix gets the `.xml` suffix instead. */
  lemma CaptionXmlNameCases(name: string, stem: string)
    ensures !Occurs(".txt", name) ==> CaptionXmlName(name) == name
    ensures '.' !in stem ==> CaptionXmlName(stem + ".txt") == stem + ".xml"
  {
    if !Occurs(".txt", name) {
      ReplaceAbsent(name, ".txt", ".xml");
    }
    if '.' !in stem {
      ReplaceSuffix(stem, ".txt", ".xml");
    }
  }

  /** The XML file name of an image: `.jpeg` becomes `.xml`, then `.jpg` does. */
  function ImageXmlName(name: string): string
  {
    Replace(Replace(name, ".jpeg", ".xml"), ".jpg", ".xml")
  }

  /** A name with neither `.jpeg` nor `.jpg` keeps its XML name as it is;
      a dot-free stem with either image suffix gets the `.xml` suffix
      instead. */
  lemma ImageXmlNameCases(name: string, stem: string, ext: string)
    ensures !Occurs(".jpeg", name) && !Occurs(".jpg", name) ==> ImageXmlName(name) == name
    ensures '.' !in stem && (ext == ".jpeg" || ext == ".jpg") ==> ImageXmlName(stem + ext) == stem + ".xml"
  {
    if !Occurs(".jpeg", name) && !Occurs(".jpg", name) {
      ReplaceAbsent(name, ".jpeg", ".xml");
      ReplaceAbsent(name, ".jpg", ".xml");
    }
    if '.' !in stem && (ext == ".jpeg" || ext == ".jpg") {
      ImageStem(stem, ext);
    }
  }

  /** `from_caption(txt_file)`: the records of the companion XML file, or
      pathlib's `IndexError` when the path has no grandparent. */
  function FromCaption(fs: FileSystem, txtFile: string): (r: Result<seq<Annotation>, Failure>)
    ensures r.Ok? <==> |Parse(txtFile).segments| >= 2
    ensures r.Err? ==> r.error == IndexOutOfRange("1")
    ensures r.Ok? ==> |r.value| > 0
    ensures r.Ok? ==> r.value == XmlRecords(fs, CompanionPath(txtFile, CaptionXmlName(Parse(txtFile).Name())).value, EmptyPlaceholder)
  {
    match CompanionPath(txtFile, CaptionXmlName(Parse(txtFile).Name()))
    case Err(e) => Err(e)
    case Ok(xmlFile) => Ok(XmlRecords(fs, xmlFile, EmptyPlaceholder))
  }

  /** `from_image(image_file)`: the records of the companion XML file, or
      pathlib's `IndexError` when the path has no grandparent. */
  function FromImage(fs: FileSystem, imageFile: string): (r: Result<seq<Annotation>, Failure>)
    ensures r.Ok? <==> |Parse(imageFile).segments| >= 2
    ensures r.Err? ==> r.error == IndexOutOfRange("1")
    ensures r.Ok? ==> |r.value| > 0
    ensures r.Ok? ==> r.value == XmlRecords(fs, CompanionPath(imageFile, ImageXmlName(Parse(imageFile).Name())).value, EmptyPlaceholder)
  {
    match CompanionPath(imageFile, ImageXmlName(Parse(imageFile).Name()))
    case Err(e) => Err(e)
    case Ok(xmlFile) => Ok(XmlRecords(fs, xmlFile, EmptyPlaceholder))
  }

  /** `from_file(file)`: the reader chosen by the suffix. */
  function FromFile(fs: FileSystem, file: string): (r: Result<seq<Annotation>, Failure>)
    ensures r == Err(UnsupportedFormat)
            <==> !EndsWith(file, ".xml") && !EndsWith(file, ".txt") && !EndsWith(file, ".jpeg") && !EndsWith(file, ".jpg")
    ensures EndsWith(file, ".xml") ==> r == Ok(XmlRecords(fs, file, EmptyPlaceholder))
  {
    if EndsWith(file, ".xml") then Ok(XmlRecords(fs, file, EmptyPlaceholder))
    else if EndsWith(file, ".txt") then FromCaption(fs, file)
    else if EndsWith(file, ".jpeg") || EndsWith(file, ".jpg") then FromImage(fs, file)
    else Err(UnsupportedFormat)
  }

  /** `from_file` on a caption `root/sub/name`, `name` ending in `.txt`,
      reads `root/Annotations/` and the name with every `.txt` made `.xml`. */
  lemma FromFileCaption(fs: FileSystem, root: Path, sub: string, name: string)
    requires root.WellFormed() && IsSegment(sub) && IsSegment(name) && EndsWith(name, ".txt")
    ensures var txt := Path(root.absolute, root.segments + [sub, name]);
            var xml := Path(root.absolute, root.segments + ["Annotations", CaptionXmlName(name)]);
            FromFile(fs, txt.Text()) == Ok(XmlRecords(fs, xml.Text(), EmptyPlaceholder))
  {
    var txt := Path(root.absolute, root.segments + [sub, name]);
    CompanionOf(root, sub, name, CaptionXmlName(name));
    SuffixesOf(txt, ".txt");
  }

  /** The companion path of `root/sub/name` is `root/Annotations/xmlName`. */
  lemma CompanionOf(root: Path, sub: string, name: string, xmlName: string)
    requires root.WellFormed() && IsSegment(sub) && IsSegment(name)
    ensures var file := Path(root.absolute, root.segments + [sub, name]);
            && Parse(file.Text()) == file
            && CompanionPath(file.Text(), xmlName) == Ok(Path(root.absolute, root.segments + ["Annotations", xmlName]).Text())
  {
    var file := Path(root.absolute, root.segments + [sub, name]);
    assert file.WellFormed();
    ParseText(file);
    assert Parse(file.Text()).Parent(1) == Some(root);
    assert root.Child("Annotations").Child(xmlName) == Path(root.absolute, root.segments + ["Annotations", xmlName]);
  }

  /** The suffix tests `from_file` makes on a path whose name ends in
      `.txt`, `.jpeg` or `.jpg`: only that one, and `.jpg` for `.jpeg`
      neither, succeed. */
  lemma SuffixesOf(p: Path, ext: string)
    requires |p.segments| > 0 && EndsWith(p.Name(), ext)
    requires ext == ".txt" || ext == ".jpeg" || ext == ".jpg"
    ensures !EndsWith(p.Text(), ".xml")
    ensures EndsWith(p.Text(), ".txt") <==> ext == ".txt"
    ensures EndsWith(p.Text(), ".jpeg") || EndsWith(p.Text(), ".jpg") <==> ext != ".txt"
  {
    var name := p.Name();
    TextEndsWith(p, ".xml");
    TextEndsWith(p, ".txt");
    TextEndsWith(p, ".jpg");
    TextEndsWith(p, ext);
    if ext == ".jpeg" {
      assert name[|name| - 4..] == name[|name| - 5..][1..];
    }
  }

  /** `from_file` on an image `root/sub/name`, `name` ending in `.jpeg` or
      `.jpg`, reads `root/Annotations/` and the name with every `.jpeg` and
      then every `.jpg` made `.xml`. */
  lemma FromFileImage(fs: FileSystem, root: Path, sub: string, name: string)
    requires root.WellFormed() && IsSegment(sub) && IsSegment(name)
    requires EndsWith(name, ".jpeg") || EndsWith(name, ".jpg")
    ensures var image := Path(root.absolute, root.segments + [sub, name]);
            var xml := Path(root.absolute, root.segments + ["Annotations", ImageXmlName(name)]);
            FromFile(fs, image.Text()) == Ok(XmlRecords(fs, xml.Text(), EmptyPlaceholder))
  {
    var image := Path(root.absolute, root.segments + [sub, name]);
    CompanionOf(root, sub, name, ImageXmlName(name));
    SuffixesOf(image, if EndsWith(name, ".jpeg") then ".jpeg" else ".jpg");
  }

  /** In a VOC layout, the caption `root/text/a.txt` belongs with `root/Annotations/a.xml`. */
  lemma CaptionCompanion(root: Path, sub: string, stem: string)
    requires root.WellFormed() && IsSegment(sub) && IsSegment(stem + ".txt") && '.' !in stem
    ensures var txt := Path(root.absolute, root.segments + [sub, stem + ".txt"]);
            CompanionPath(txt.Text(), CaptionXmlName(Parse(txt.Text()).Name()))
            == Ok(Path(root.absolute, root.segments + ["Annotations", stem + ".xml"]).Text())
  {
    var txt := Path(root.absolute, root.segments + [sub, stem + ".txt"]);
    assert txt.WellFormed();
    ParseText(txt);
    ReplaceSuffix(stem, ".txt", ".xml");
    assert Parse(txt.Text()).Parent(1) == Some(root);
    assert root.Child("Annotations").Child(stem + ".xml") == Path(root.absolute, root.segments + ["Annotations", stem + ".xml"]);
  }

  /** An image `root/JPEGImages/a.jpeg` or `root/JPEGImages/a.jpg` belongs with `root/Annotations/a.xml`. */
  lemma ImageCompanion(root: Path, sub: string, stem: string, ext: string)
    requires root.WellFormed() && IsSegment(sub) && IsSegment(stem + ext) && '.' !in stem
    requires ext == ".jpeg" || ext == ".jpg"
    ensures var image := Path(root.absolute, root.segments + [sub, stem + ext]);
            CompanionPath(image.Text(), ImageXmlName(Parse(image.Text()).Name()))
            == Ok(Path(root.absolute, root.segments + ["Annotations", stem + ".xml"]).Text())
  {
    var image := Path(root.absolute, root.segments + [sub, stem + ext]);
    assert image.WellFormed();
    ParseText(image);
    ImageStem(stem, ext);
    assert Parse(image.Text()).Parent(1) == Some(root);
    assert root.Child("Annotations").Child(stem + ".xml") == Path(root.absolute, root.segments + ["Annotations", stem + ".xml"]);
  }

  lemma ImageStem(stem: string, ext: string)
    requires '.' !in stem && (ext == ".jpeg" || ext == ".jpg")
    ensures ImageXmlName(stem + ext) == stem + ".xml"
  {
    ReplaceAfterStem(stem, ext, ".jpeg", ".xml");
    var once := Replace(stem + ext, ".jpeg", ".xml");
    if ext == ".jpeg" {
      assert ".jpeg" == ".jpeg" + "";
      ReplaceHit("", ".jpeg", ".xml");
      assert once == stem + ".xml";
    } else {
      assert once == stem + ".jpg";
    }
    ReplaceAfterStem(stem, ".xml", ".jpg", ".xml");
    assert Replace(".xml", ".jpg", ".xml") == ".xml";
    if ext == ".jpg" {
      ReplaceAfterStem(stem, ".jpg", ".jpg", ".xml");
      assert ".jpg" == ".jpg" + "";
      ReplaceHit("", ".jpg", ".xml");
    }
  }
}
