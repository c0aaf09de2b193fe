/** The dataset classes of `voc_tools/utils.py`. A `Dataset` keeps `meta`,
    the table of raw annotation tuples of a VOC directory, which `load` fills
    and `unload` empties; a `CaptionDataset` reads the caption files; a
    `VocDataset` holds a training and a test `Dataset` under one root.
    Writing a CSV file is modelled as what it leaves behind: the file path,
    the open mode and the lines written, each of which the source ends with
    a newline. */
module Datasets {
  import opened Wrappers
  import opened Text
  import opened Paths
  import opened Files
  import opened Records
  import opened Reader

  /** The exception raised when `attribute` is looked up on a list. */
  function ListHasNo(attribute: string): Failure
  {
    NoAttribute("list", attribute)
  }

  /** numpy's `IndexError` for a column index into the empty 1-D array. */
  const OneDimensional: Failure :=
    IndexOutOfRange("too many indices for array: array is 1-dimensional, but 2 were indexed")

  // ------------------------------------------------------------- the table

  /** A table whose every row has the shape of `Annotation.raw()`. */
  predicate RawRows(rows: seq<seq<Value>>)
  {
    forall i :: 0 <= i < |rows| ==> |rows[i]| == |Annotation.RawAttributes()|
  }

  /** `[anno.raw() for anno in items]`. */
  function Rows(items: seq<Annotation>): (rows: seq<seq<Value>>)
    ensures |rows| == |items| && forall i :: 0 <= i < |rows| ==> rows[i] == items[i].Raw()
  {
    seq(|items|, i requires 0 <= i < |items| => items[i].Raw())
  }

  /** The table `load` builds from what `from_dir` yields. A list of the
      grouped form has no `raw`, so only an empty listing or the flat form
      gives a table; an exception of `from_dir` escapes. */
  function Table(b: Result<Batch<Annotation>, Failure>): (r: Result<seq<seq<Value>>, Failure>)
    ensures r.Ok? ==> RawRows(r.value)
    ensures b.Err? ==> r == Err(b.error)
    ensures b.Ok? && b.value.Flat? ==> r == Ok(Rows(b.value.items))
    ensures b.Ok? && b.value.Grouped? ==> (r.Ok? <==> |b.value.groups| == 0)
    ensures b.Ok? && b.value.Grouped? && |b.value.groups| > 0 ==> r == Err(NoAttribute("list", "raw"))
  {
    match b
    case Err(e) => Err(e)
    case Ok(Grouped(groups)) => if |groups| == 0 then Ok([]) else Err(ListHasNo("raw"))
    case Ok(Flat(items)) => Ok(Rows(items))
  }

  /** `set(meta[:, class_name_idx])`: the values of the class-name column;
      indexing a column of the empty table raises. */
  function ClassColumn(rows: seq<seq<Value>>): (r: Result<set<Value>, Failure>)
    requires RawRows(rows)
    ensures r.Ok? <==> |rows| > 0
    ensures r.Err? ==> r.error == OneDimensional
    ensures r.Ok? ==> forall v :: v in r.value <==> exists i :: 0 <= i < |rows| && rows[i][7] == v
  {
    var k := IndexOf(Annotation.RawAttributes(), "class_name");
    if |rows| == 0 then Err(OneDimensional) else Ok(set i | 0 <= i < |rows| :: rows[i][k])
  }

  /** The class names of a table of records are their `class_name`s. */
  lemma ClassesOfRows(items: seq<Annotation>)
    ensures ClassColumn(Rows(items)).Ok? <==> |items| > 0
    ensures |items| > 0 ==> forall v :: v in ClassColumn(Rows(items)).value <==> exists a :: a in items && v == Str(a.className)
  {
    var rows := Rows(items);
    if |items| > 0 {
      forall v
        ensures v in ClassColumn(rows).value <==> exists a :: a in items && v == Str(a.className)
      {
        if v in ClassColumn(rows).value {
          var i :| 0 <= i < |rows| && rows[i][7] == v;
          assert items[i] in items && v == Str(items[i].className);
        }
        if exists a :: a in items && v == Str(a.className) {
          var a :| a in items && v == Str(a.className);
          var i :| 0 <= i < |items| && items[i] == a;
          assert rows[i][7] == v;
        }
      }
    }
  }

  // ---------------------------------------------------------------- to_csv

  /** What `to_csv` leaves behind: the file, the mode it was opened with, the
      lines written to it, and the exception that ended the writing, if any. */
  datatype CsvFile = CsvFile(path: string, mode: string, lines: seq<string>, failure: Option<Failure>)

  /** `anno.csv()` of each record. */
  function AnnotationLines(items: seq<Annotation>): (r: seq<string>)
    ensures |r| == |items|
  {
    if |items| == 0 then [] else AnnotationLines(items[..|items| - 1]) + [items[|items| - 1].Csv()]
  }

  lemma {:induction false} AnnotationLinesAt(items: seq<Annotation>, k: nat)
    requires k < |items|
    ensures AnnotationLines(items)[k] == items[k].Csv()
  {
    if k < |items| - 1 {
      AnnotationLinesAt(items[..|items| - 1], k);
    }
  }

  /** `caption.csv()` of each record. */
  function CaptionLines(items: seq<Caption>): (r: seq<string>)
    ensures |r| == |items|
  {
    if |items| == 0 then [] else CaptionLines(items[..|items| - 1]) + [items[|items| - 1].Csv()]
  }

  /** The file `to_csv` writes: the header first, whatever follows; after it
      one line per record of the flat form. A list of the grouped form has
      no `csv`, and an exception of the reader ends the writing. */
  function AnnotationCsv(path: string, mode: string, b: Result<Batch<Annotation>, Failure>): (f: CsvFile)
    ensures f.path == path && f.mode == mode && |f.lines| > 0 && f.lines[0] == Annotation.CsvHeader()
    ensures f.failure.None? <==> b.Ok? && (b.value.Grouped? ==> |b.value.groups| == 0)
  {
    var header := Annotation.CsvHeader();
    match b
    case Err(e) => CsvFile(path, mode, [header], Some(e))
    case Ok(Grouped(groups)) => CsvFile(path, mode, [header], if |groups| == 0 then None else Some(ListHasNo("csv")))
    case Ok(Flat(items)) => CsvFile(path, mode, [header] + AnnotationLines(items), None)
  }

  /** The same for caption records. */
  function CaptionCsv(path: string, mode: string, b: Result<Batch<Caption>, Failure>): (f: CsvFile)
    ensures f.path == path && f.mode == mode && |f.lines| > 0 && f.lines[0] == Caption.CsvHeader()
    ensures f.failure.None? <==> b.Ok? && (b.value.Grouped? ==> |b.value.groups| == 0)
  {
    var header := Caption.CsvHeader();
    match b
    case Err(e) => CsvFile(path, mode, [header], Some(e))
    case Ok(Grouped(groups)) => CsvFile(path, mode, [header], if |groups| == 0 then None else Some(ListHasNo("csv")))
    case Ok(Flat(items)) => CsvFile(path, mode, [header] + CaptionLines(items), None)
  }

  /** Regrouping a concatenation. Stated as a lemma over named parts, so
      the loops below need not unfold the lines to regroup them. */
  lemma Associative<T>(a: seq<T>, b: seq<T>, c: seq<T>)
    ensures a + b + c == a + (b + c)
  {
  }

  lemma AnnotationLinesSnoc(items: seq<Annotation>, i: nat)
    requires i < |items|
    ensures AnnotationLines(items[..i + 1]) == AnnotationLines(items[..i]) + [items[i].Csv()]
  {
    assert items[..i + 1][..i] == items[..i];
  }

  lemma CaptionLinesSnoc(items: seq<Caption>, i: nat)
    requires i < |items|
    ensures CaptionLines(items[..i + 1]) == CaptionLines(items[..i]) + [items[i].Csv()]
  {
    assert items[..i + 1][..i] == items[..i];
  }

  /** The loop of `to_csv` over the records, after the header. */
  method WriteAnnotations(path: string, mode: string, items: seq<Annotation>) returns (f: CsvFile)
    ensures f == AnnotationCsv(path, mode, Ok(Flat(items)))
  {
    var lines := [Annotation.CsvHeader()];
    var i := 0;
    while i < |items|
      invariant 0 <= i <= |items|
      invariant lines == [Annotation.CsvHeader()] + AnnotationLines(items[..i])
    {
      AnnotationLinesSnoc(items, i);
      Associative([Annotation.CsvHeader()], AnnotationLines(items[..i]), [items[i].Csv()]);
      lines := lines + [items[i].Csv()];
      i := i + 1;
    }
    assert items[..|items|] == items;
    f := CsvFile(path, mode, lines, None);
  }

  /** The loop of `CaptionDataset.to_csv` over the records, after the header. */
  method WriteCaptions(path: string, mode: string, items: seq<Caption>) returns (f: CsvFile)
    ensures f == CaptionCsv(path, mode, Ok(Flat(items)))
  {
    var lines := [Caption.CsvHeader()];
    var i := 0;
    while i < |items|
      invariant 0 <= i <= |items|
      invariant lines == [Caption.CsvHeader()] + CaptionLines(items[..i])
    {
      CaptionLinesSnoc(items, i);
      Associative([Caption.CsvHeader()], CaptionLines(items[..i]), [items[i].Csv()]);
      lines := lines + [items[i].Csv()];
      i := i + 1;
    }
    assert items[..|items|] == items;
    f := CsvFile(path, mode, lines, None);
  }

  // ------------------------------------------------------------- datasets

  /** `CaptionDataset`: the caption files under `<dataset_path>/text`. */
  class CaptionDataset {
    const fs: FileSystem
    const datasetPath: string

    /** `ABCDataset.__init__` asserts that the path exists. */
    constructor (fs: FileSystem, datasetPath: string)
      requires fs.Exists(Parse(datasetPath))
      ensures this.fs == fs && this.datasetPath == datasetPath
    {
      this.fs := fs;
      this.datasetPath := datasetPath;
    }

    /** `fetch()`: what `caption_from_dir` yields with its default grouping,
        one list of captions per caption file. */
    method Fetch() returns (r: Result<seq<seq<Caption>>, Failure>)
      ensures r.Ok? <==> ListDir(fs, datasetPath, VocCaptions, false, true).Ok?
      ensures r.Err? ==> r.error == NoSuchFile(Parse(datasetPath).Child("text"))
      ensures r.Ok? ==> var files := ListDir(fs, datasetPath, VocCaptions, false, true).value;
                        && |r.value| == |files|
                        && forall i :: 0 <= i < |files| ==> r.value[i] == CaptionRecords(fs, files[i], EmptyPlaceholder)
    {
      var b := CaptionFromDir(fs, datasetPath, true);
      CaptionFromDirShape(fs, datasetPath);
      if b.Err? {
        r := Err(b.error);
      } else {
        r := Ok(b.value.groups);
      }
    }

    /** `to_csv(path_to_csv, write_mode)`, reading the flat form. */
    method ToCsv(pathToCsv: string, writeMode: string) returns (f: CsvFile)
      ensures f == CaptionCsv(pathToCsv, writeMode, CaptionDirBatch(fs, datasetPath, false))
    {
      var b := CaptionFromDir(fs, datasetPath, false);
      if b.Err? {
        return CsvFile(pathToCsv, writeMode, [Caption.CsvHeader()], Some(b.error));
      }
      f := WriteCaptions(pathToCsv, writeMode, b.value.items);
    }
  }

  /** `Dataset` (and its subclasses `TrainDataset` and `TestDataset`, which
      add nothing). */
  class Dataset {
    const fs: FileSystem
    const datasetPath: string
    const captionSupport: bool
    const caption: Option<CaptionDataset>
    var meta: seq<seq<Value>>

    /** Every row of `meta` is a raw annotation tuple. */
    predicate Valid()
      reads this
    {
      RawRows(meta)
    }

    /** `ABCDataset.__init__` asserts that the path exists; `meta` starts
        empty, and the caption dataset exists only with caption support. */
    constructor (fs: FileSystem, datasetPath: string, captionSupport: bool)
      requires fs.Exists(Parse(datasetPath))
      ensures Valid() && meta == []
      ensures this.fs == fs && this.datasetPath == datasetPath && this.captionSupport == captionSupport
      ensures caption.Some? <==> captionSupport
      ensures caption.Some? ==> fresh(caption.value) && caption.value.fs == fs && caption.value.datasetPath == datasetPath
    {
      this.fs := fs;
      this.datasetPath := datasetPath;
      this.captionSupport := captionSupport;
      meta := [];
      if captionSupport {
        var c := new CaptionDataset(fs, datasetPath);
        caption := Some(c);
      } else {
        caption := None;
      }
    }

    /** `load()`, reading the flat form: `meta` becomes one row per record of
        the annotation files, in listing order. When the listing fails the
        exception escapes and `meta` keeps its old value. */
    method Load() returns (failure: Option<Failure>)
      requires Valid()
      modifies this
      ensures Valid()
      ensures var t := Table(DirBatch(fs, datasetPath, false));
              && (t.Ok? ==> failure.None? && meta == t.value)
              && (t.Err? ==> failure == Some(t.error) && meta == old(meta))
    {
      var b := FromDir(fs, datasetPath, false);
      var t := Table(b);
      if t.Err? {
        return Some(t.error);
      }
      meta := t.value;
      failure := None;
    }

    /** `unload()`. */
    method Unload()
      modifies this
      ensures Valid() && meta == []
    {
      meta := [];
    }

    /** `class_names()`: the class-name column of `meta`. It does not load. */
    function ClassNames(): (r: Result<set<Value>, Failure>)
      requires Valid()
      reads this
      ensures r.Ok? <==> |meta| > 0
    {
      ClassColumn(meta)
    }

    /** `to_csv(path_to_csv, write_mode)`, reading the flat form. */
    method ToCsv(pathToCsv: string, writeMode: string) returns (f: CsvFile)
      ensures f == AnnotationCsv(pathToCsv, writeMode, DirBatch(fs, datasetPath, false))
    {
      var b := FromDir(fs, datasetPath, false);
      if b.Err? {
        return CsvFile(pathToCsv, writeMode, [Annotation.CsvHeader()], Some(b.error));
      }
      f := WriteAnnotations(pathToCsv, writeMode, b.value.items);
    }
  }

  /** The loaded table holds one raw tuple per record of each listed file,
      file after file, and fails only when the listing does. */
  lemma LoadedTable(fs: FileSystem, dirPath: string)
    ensures Table(DirBatch(fs, dirPath, false)).Ok? <==> DirBatch(fs, dirPath, true).Ok?
    ensures DirBatch(fs, dirPath, true).Ok? ==>
              Table(DirBatch(fs, dirPath, false)).value == Rows(Flatten(DirBatch(fs, dirPath, true).value.groups))
  {
    FromDirShape(fs, dirPath);
  }

  /** After loading, the class names are those of the records read from the
      listed files (including placeholder and error records), and asking for
      them fails only when there are no records at all. */
  lemma LoadedClassNames(fs: FileSystem, dirPath: string)
    requires DirBatch(fs, dirPath, true).Ok?
    ensures var groups := DirBatch(fs, dirPath, true).value.groups;
            var t := Table(DirBatch(fs, dirPath, false)).value;
            && (ClassColumn(t).Ok? <==> |groups| > 0)
            && (|groups| > 0 ==> forall v :: v in ClassColumn(t).value <==>
                                   exists i, a :: 0 <= i < |groups| && a in groups[i] && v == Str(a.className))
  {
    LoadedTable(fs, dirPath);
    FromDirShape(fs, dirPath);
    var groups := DirBatch(fs, dirPath, true).value.groups;
    var items := Flatten(groups);
    ClassesOfRows(items);
    forall a
      ensures a in items <==> exists i :: 0 <= i < |groups| && a in groups[i]
    {
      FlattenMember(groups, a);
    }
  }

  /** The CSV file holds the header and then the table `load` builds, each
      row joined by commas; both fail alike. */
  lemma CsvIsTable(fs: FileSystem, dirPath: string, path: string, mode: string)
    ensures var f := AnnotationCsv(path, mode, DirBatch(fs, dirPath, false));
            var t := Table(DirBatch(fs, dirPath, false));
            && (f.failure.None? <==> t.Ok?)
            && (t.Err? ==> f.lines == [Annotation.CsvHeader()] && f.failure == Some(t.error))
            && (t.Ok? ==> |f.lines| == |t.value| + 1
                          && forall i :: 0 <= i < |t.value| ==> f.lines[i + 1] == CsvLine(t.value[i]))
  {
    var b := DirBatch(fs, dirPath, false);
    if b.Ok? {
      CsvOfRows(path, mode, b.value.items);
    }
  }

  lemma CsvOfRows(path: string, mode: string, items: seq<Annotation>)
    ensures var f := AnnotationCsv(path, mode, Ok(Flat(items)));
            var rows := Rows(items);
            |f.lines| == |rows| + 1 && forall i :: 0 <= i < |rows| ==> f.lines[i + 1] == CsvLine(rows[i])
  {
    var lines := [Annotation.CsvHeader()] + AnnotationLines(items);
    assert AnnotationCsv(path, mode, Ok(Flat(items))).lines == lines;
    forall i | 0 <= i < |items|
      ensures lines[i + 1] == CsvLine(Rows(items)[i])
    {
      AnnotationLinesAt(items, i);
      assert lines[i + 1] == AnnotationLines(items)[i];
    }
  }

  /** As written, `load` groups the records by file and calls `raw()` on
      each list: any annotation file in the listing makes it raise. */
  lemma LoadAsWritten(fs: FileSystem, dirPath: string)
    ensures var listed := ListDir(fs, dirPath, VocXmls, false, true);
            var t := Table(DirBatch(fs, dirPath, true));
            && (listed.Ok? && |listed.value| > 0 ==> t == Err(ListHasNo("raw")))
            && (listed.Ok? && |listed.value| == 0 ==> t == Ok([]))
  {
  }

  /** As written, `to_csv` calls `csv()` on each list of records: after the
      header, any annotation file in the listing makes it raise. */
  lemma ToCsvAsWritten(fs: FileSystem, dirPath: string, path: string, mode: string)
    ensures var listed := ListDir(fs, dirPath, VocXmls, false, true);
            listed.Ok? && |listed.value| > 0 ==>
              AnnotationCsv(path, mode, DirBatch(fs, dirPath, true))
              == CsvFile(path, mode, [Annotation.CsvHeader()], Some(ListHasNo("csv")))
  {
  }

  /** As written, `CaptionDataset.to_csv` calls `csv()` on each list of
      captions: after the header, any caption file makes it raise. */
  lemma CaptionToCsvAsWritten(fs: FileSystem, dirPath: string, path: string, mode: string)
    ensures var listed := ListDir(fs, dirPath, VocCaptions, false, true);
            listed.Ok? && |listed.value| > 0 ==>
              CaptionCsv(path, mode, CaptionDirBatch(fs, dirPath, true))
              == CsvFile(path, mode, [Caption.CsvHeader()], Some(ListHasNo("csv")))
  {
  }

  /** The corrected caption CSV holds the header and one line per caption of
      each listed file, file after file. */
  lemma CaptionCsvIsFlat(fs: FileSystem, dirPath: string, path: string, mode: string)
    ensures var f := CaptionCsv(path, mode, CaptionDirBatch(fs, dirPath, false));
            var b := CaptionDirBatch(fs, dirPath, true);
            && (f.failure.None? <==> b.Ok?)
            && (b.Ok? ==> f.lines == [Caption.CsvHeader()] + CaptionLines(Flatten(b.value.groups)))
  {
    CaptionFromDirShape(fs, dirPath);
  }

  // ----------------------------------------------------------- VOCDataset

  /** `os.path.join(root, name)`, which denotes the child `name` of `root`. */
  function SubsetPath(root: string, name: string): (p: string)
    requires IsSegment(name)
    ensures Parse(p) == Parse(root).Child(name)
  {
    ParseJoin(root, name);
    JoinText(root, name)
  }

  /** `VOCDataset`: a training and a test dataset under one root. */
  class VocDataset {
    const datasetPath: string
    const captionSupport: bool
    const train: Dataset
    const test: Dataset

    /** Each subset's constructor asserts that its directory exists. */
    constructor (fs: FileSystem, datasetPath: string, captionSupport: bool)
      requires fs.Exists(Parse(datasetPath).Child("train")) && fs.Exists(Parse(datasetPath).Child("test"))
      ensures this.datasetPath == datasetPath && this.captionSupport == captionSupport
      ensures fresh(train) && fresh(test) && train != test
      ensures train.fs == fs && train.datasetPath == SubsetPath(datasetPath, "train") && train.captionSupport == captionSupport
      ensures test.fs == fs && test.datasetPath == SubsetPath(datasetPath, "test") && test.captionSupport == captionSupport
      ensures train.Valid() && train.meta == [] && test.Valid() && test.meta == []
    {
      this.datasetPath := datasetPath;
      this.captionSupport := captionSupport;
      train := new Dataset(fs, SubsetPath(datasetPath, "train"), captionSupport);
      test := new Dataset(fs, SubsetPath(datasetPath, "test"), captionSupport);
    }
  }
}
