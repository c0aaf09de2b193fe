# pascal_voc_tools, modelled in Dafny

This project models the record and reading core of `voc_tools`, a small
Python library for Pascal VOC object-detection datasets. It covers:

- **Records.** The `Annotation` (a labelled bounding box) and `Caption`
  records of `voc_tools/utils.py`. Each has a value tuple (`raw`), a
  parallel tuple of attribute names (`raw_attributes`), a CSV header, a CSV
  line and its `name:value,...` description. The shared `Atomic` base
  provides the last three.
- **The legacy record.** The stand-alone `Annotation` of
  `voc_tools/annotation.py`, which writes the same texts with fixed format
  strings.
- **The readers of `voc_tools/reader.py`.**
  - `from_xml` turns one annotation document into records.
  - `caption_from_file` turns one text file into captions.
  - `from_file`, `from_caption` and `from_image` choose a reader by suffix
    and find the companion XML file.
  - `list_dir` lists a dataset subdirectory.
  - `from_dir` and `caption_from_dir` read a whole dataset, grouped per
    file (`bulk=True`) or flat (`bulk=False`).
- **The dataset classes of `voc_tools/utils.py`.**
  - `Dataset` holds a table `meta` that `load`, `unload` and `class_names`
    use, and `to_csv` writes a CSV file.
  - `CaptionDataset` offers `fetch` and `to_csv`.
  - `VOCDataset` builds a `train` and a `test` dataset under one root.

The file system is an input value, `Files.FileSystem`. It holds:

- what `os.listdir` gives for each directory;
- the element tree `ElementTree.parse` gives for each XML file, or the
  parser's error;
- the lines `readlines` gives for each text file, or the read error.

Paths are `pathlib`-like values: an absolute flag and a list of segments.

Each Python generator becomes the sequence it would yield. An exception the
source catches becomes the sentinel record it yields. An exception that
escapes becomes an `Err` of `Files.Failure`, whose `Message()` is the text
`str(e)` would give.

Modules:

- `Wrappers`: `Option` and `Result`.
- `Text`: the `str` operations used (join, split, strip, replace, `int()`,
  the rendering of `int` and `float`).
- `Paths`: the path values.
- `Xml`: the element tree with `find` and `iter`.
- `Files`: the file system and failures.
- `Records`: `voc_tools/utils.py` records.
- `Legacy`: `voc_tools/annotation.py`.
- `Reader`: `voc_tools/reader.py`.
- `Datasets`: the dataset classes of `voc_tools/utils.py`.

Three behaviours of the code are worth noting:

- `load` re-reads the directory every time it is called. It keeps no
  "loaded" flag. Loading twice over the same inputs still gives the same
  table, because `Datasets.Dataset.Load` sets `meta` to a function of the
  two constant fields `fs` and `datasetPath`.
- `class_names` reads `meta` as it is and does not trigger `load`. On an
  empty table it fails with numpy's `IndexError`.
- `Dataset` has no `fetch`. Image metadata is not joined to records
  anywhere in the core code.

## Model

| member | source | states |
|---|---|---|
| Records.HeaderRoundTrip | voc_tools/utils.py:17-20 | splitting the header (`Header`) at commas gives the attribute names back, when no name holds a comma |
| Records.AnnotationHeader | voc_tools/utils.py:17-20 | the `Annotation` header is exactly `file,xmin,ymin,xmax,ymax,center_x,center_y,class_name` and it splits back into `raw_attributes()` |
| Records.CaptionHeader | voc_tools/utils.py:17-20 | the `Caption` header is exactly `file,caption` and it splits back into `raw_attributes()` |
| Records.Annotation.RawAttributes | voc_tools/utils.py:79-81 | eight names; `index('class_name')` is 7, the last |
| Records.Annotation.Raw | voc_tools/utils.py:83-85 | as many values as names, and the value at the index of `class_name` is the class name |
| Records.Caption.RawAttributes | voc_tools/utils.py:101-103 | two names |
| Records.Caption.Raw | voc_tools/utils.py:105-106 | as many values as names |
| Records.CsvFields | voc_tools/utils.py:22-24 | the CSV line (`CsvLine`) has one field per value exactly when no formatted value holds a comma; then its fields are the formatted values in order |
| Records.Annotation.Csv | voc_tools/utils.py:22-24 | the line splits into 8 fields exactly when neither file name nor class name holds a comma; then the fields are the formatted raw values |
| Records.Caption.Csv | voc_tools/utils.py:22-24 | the line splits into 2 fields exactly when neither file name nor caption holds a comma; then the fields are the two texts |
| Records.AccumulatedIsJoin | voc_tools/utils.py:12-14 | the loop's accumulator is the pairs joined by commas plus one trailing comma |
| Records.DescribeValues | voc_tools/utils.py:10-15 | the `__str__` loop computes the stripped accumulation of the pairs |
| Records.DescribedForm | voc_tools/utils.py:10-15 | the description (`Described`) is the `name:value` pairs of the same index joined by commas, with the trailing commas of the last value removed by the strip |
| Records.DescribedAnnotation | voc_tools/utils.py:10-15 | an annotation reads `file:f,xmin:…,class_name:c`, with every trailing comma of `c` stripped |
| Records.Annotation.Describe | voc_tools/utils.py:10-15 | the annotation's `__str__`, run as its loop, gives that text |
| Records.DescribedCaption | voc_tools/utils.py:10-15 | a caption reads `file:f,caption:c`, with every trailing comma of `c` stripped |
| Records.Caption.Describe | voc_tools/utils.py:10-15 | the caption's `__str__`, run as its loop, gives that text |
| Records.NumberTextHasNoComma | voc_tools/utils.py:24 | an `int` or `float` is formatted without a comma, so only the text fields can add CSV fields |
| Text.IntRoundTrip | voc_tools/reader.py:61-64 | `int()` reads back every integer's decimal rendering |
| Text.StripIdempotent | voc_tools/utils.py:15 | stripping twice gives what stripping once gives |
| Legacy.Annotation.CsvHeader | voc_tools/annotation.py:48-50 | the literal header equals the header of the current record and splits into its attribute names |
| Legacy.Annotation.Csv | voc_tools/annotation.py:52-56 | equals the current record's `csv()` for the same fields, and splits into 8 fields exactly when file name and class name hold no comma |
| Legacy.CurrentCsvText | voc_tools/utils.py:22-24 | the current record's CSV line is its eight formatted fields joined by commas, in order |
| Legacy.Annotation.Describe | voc_tools/annotation.py:42-46 | starts with `file:f, ` and ends with `:c` for the class name `c`, unstripped |
| Legacy.DescriptionsDiffer | voc_tools/annotation.py:42-46 | both descriptions start with `file:f,`; the legacy one then has a space; apart from that space the two are equal exactly when the class name does not end in a comma |
| Paths.ParseJoin | voc_tools/utils.py:200-201 | `os.path.join(root, name)` (`JoinText`) names the child `name` of `root` |
| Paths.Parse | voc_tools/reader.py:28 | any text parses to a well-formed path: every segment non-empty, not `.`, without a separator |
| Paths.ParseText | voc_tools/reader.py:31 | `str(path)` is parsed back to the same path |
| Paths.Path.Child | voc_tools/reader.py:29-31 | `p / name` has that name, and its parent is `p` |
| Paths.ParentStep | voc_tools/reader.py:29 | `parents[k + 1]` is the parent of `parents[k]` |
| Paths.ParentChild | voc_tools/reader.py:29 | a path with a name is that name inside `parents[0]` |
| Paths.TextEndsWith | voc_tools/reader.py:14-18 | `str(p).endswith(x)` holds exactly when the last segment ends with `x` |
| Xml.FirstTaggedIsFirst | voc_tools/reader.py:57 | `find` (`Find`) gives nothing exactly when no child has the tag, and otherwise the first child that has it |
| Xml.FirstNestedNone | voc_tools/reader.py:61-64 | `find("bndbox/" + tag)` gives nothing exactly when no `bndbox` child has a `tag` child |
| Xml.IterFlat | voc_tools/reader.py:58 | when no child holds a match below it, `iter('object')` (`Iter`) yields exactly the `object` children, in document order |
| Xml.IterOneObject | voc_tools/reader.py:58 | in an annotation holding a `filename` and one `object` with `name` and `bndbox`, `iter('object')` yields exactly that object |
| Reader.ReadCoordinate | voc_tools/reader.py:61-64 | a coordinate reads exactly when `bndbox/<tag>` exists and its text is a decimal integer, and then it is that integer; a missing element is the `AttributeError` of `None.text`, an empty one the `TypeError` of `int(None)`, other text the `ValueError` naming it |
| Reader.ObjectRecord | voc_tools/reader.py:60-68 | an object gives a record exactly when it has a name and four readable coordinates; the record carries them, the file name and the name's text, and is centred; a missing name is the `AttributeError`; a bad `ymin` is reported before the other coordinates |
| Reader.Leading | voc_tools/reader.py:58-69 | the records before the first failure, all of them when none fails, and that failure |
| Reader.ReadObjects | voc_tools/reader.py:55-69 | the object loop yields exactly the leading records and stops at the first failure; `no_threat` stays true exactly when there is no object |
| Reader.FromXml | voc_tools/reader.py:46-73 | `from_xml`, run step by step, yields exactly `XmlRecords` |
| Reader.XmlRecords | voc_tools/reader.py:46-73 | the output is never empty |
| Reader.XmlRecordsSuccess | voc_tools/reader.py:55-71 | when every object reads, there is one record per object in document order, or the single placeholder record when there is none |
| Reader.XmlRecordsFailure | voc_tools/reader.py:58-73 | when object `k` is the first that fails, the `k` good records come first and then one `ERROR:<message>` record with the document's file name |
| Reader.XmlRecordsUnreadable | voc_tools/reader.py:50-73 | a missing file, a parse error or a root without `<filename>` gives one all-zero record named after the path's base name, whose class is `ERROR:` and the `FileNotFoundError`, the parser's message or the `AttributeError` text |
| Reader.XmlRecordsCentred | voc_tools/reader.py:65-73 | every record `from_xml` yields has its centre at the midpoint of its box |
| Reader.KeptStripped | voc_tools/reader.py:121-122 | every kept line is non-empty and already stripped |
| Reader.KeptEmpty | voc_tools/reader.py:121-122 | nothing is kept exactly when every line is blank after `strip` |
| Reader.KeptAppend | voc_tools/reader.py:121-122 | filtering distributes over concatenation, so lines are kept in order |
| Reader.CaptionsFromLines | voc_tools/reader.py:119-126 | the caption loop, with its `no_caption` flag, yields exactly `LineCaptions` |
| Reader.LineCaptions | voc_tools/reader.py:119-126 | never empty, and every caption carries the file name |
| Reader.LineCaptionsCases | voc_tools/reader.py:119-126 | all lines blank gives one placeholder caption; otherwise one caption per kept line, in order, holding the stripped text |
| Reader.CaptionFromFile | voc_tools/reader.py:113-128 | `caption_from_file`, run step by step, yields exactly `CaptionRecords` |
| Reader.CaptionRecords | voc_tools/reader.py:113-128 | never empty, and every caption carries the path's base name |
| Reader.CaptionRecordsCases | voc_tools/reader.py:113-128 | all captions carry the path's base name: a missing file gives one `ERROR:` caption with the `FileNotFoundError` text, a read failure one with its message, a file of blank lines the placeholder, and otherwise one caption per non-blank line, stripped, in order |
| Reader.ListDirEntries | voc_tools/reader.py:76-98 | the listed directory is `JPEGImages` when `images` is set or the flag asks for images, `Annotations` for the XML flag, `text` otherwise; listing fails exactly when it is missing; otherwise one entry per item, in listing order, a full path that reads back as the item inside that directory, or the bare name |
| Reader.FlattenMember | voc_tools/reader.py:105-110 | a record is in the flat form exactly when it is in one of the groups |
| Reader.DirBatch | voc_tools/reader.py:101-110 | fails exactly when `Annotations` is missing, with the `FileNotFoundError`; otherwise grouped exactly when `bulk` |
| Reader.FromDir | voc_tools/reader.py:101-110 | `from_dir`, run over the listing, yields exactly `DirBatch` for either `bulk` |
| Reader.FromDirShape | voc_tools/reader.py:101-110 | grouped: one non-empty group per XML file, holding that file's records; flat: the concatenation of the groups; a missing `Annotations` directory fails both |
| Reader.CaptionDirBatch | voc_tools/reader.py:131-140 | fails exactly when `text` is missing, with the `FileNotFoundError`; otherwise grouped exactly when `bulk` |
| Reader.CaptionFromDir | voc_tools/reader.py:131-140 | `caption_from_dir`, run over the listing, yields exactly `CaptionDirBatch` for either `bulk` |
| Reader.CaptionFromDirShape | voc_tools/reader.py:131-140 | the same law over the `text` listing: the flat form is the concatenation of the per-file groups |
| Reader.CompanionPath | voc_tools/reader.py:29-31 | a companion path exists exactly when the file has a grandparent, and otherwise the failure is `IndexError`; a companion named by a segment reads back as that name inside an `Annotations` directory under the file's grandparent |
| Reader.CaptionXmlNameCases | voc_tools/reader.py:30 | a name without `.txt` is kept; a dot-free stem with `.txt` gets `.xml` |
| Reader.ImageXmlNameCases | voc_tools/reader.py:41 | a name with neither `.jpeg` nor `.jpg` is kept; a dot-free stem with either gets `.xml` |
| Reader.FromCaption | voc_tools/reader.py:24-32 | reads when the path has a grandparent, giving the non-empty records of the companion XML file, and raises `IndexError` otherwise |
| Reader.FromImage | voc_tools/reader.py:35-43 | reads when the path has a grandparent, giving the non-empty records of the companion XML file, and raises `IndexError` otherwise |
| Reader.FromFile | voc_tools/reader.py:9-21 | fails with "Unsupported file format" exactly when the name ends in none of `.xml`, `.txt`, `.jpeg`, `.jpg`; an `.xml` name is read as it is |
| Reader.FromFileCaption | voc_tools/reader.py:9-32 | `from_file("root/sub/n")` for any name `n` ending in `.txt` gives the records of `root/Annotations/` plus `n` with every `.txt` replaced by `.xml` |
| Reader.FromFileImage | voc_tools/reader.py:9-43 | `from_file("root/sub/n")` for any name `n` ending in `.jpeg` or `.jpg` gives the records of `root/Annotations/` plus `n` with every `.jpeg` and then every `.jpg` replaced by `.xml` |
| Reader.CaptionCompanion | voc_tools/reader.py:24-32 | the caption `root/<sub>/a.txt` reads `root/Annotations/a.xml` |
| Reader.ImageCompanion | voc_tools/reader.py:35-43 | the image `root/<sub>/a.jpeg` or `root/<sub>/a.jpg` reads `root/Annotations/a.xml` |
| Reader.ImageStem | voc_tools/reader.py:41 | for a stem without a dot, replacing `.jpeg` and then `.jpg` turns `stem.jpeg` or `stem.jpg` into `stem.xml` |
| Datasets.Table | voc_tools/utils.py:158 | the table of a flat batch is its rows; a grouped batch has no `raw` unless it is empty; a listing failure passes through |
| Datasets.ClassColumn | voc_tools/utils.py:166-168 | `set(meta[:, 7])`: defined exactly when the table is non-empty, and then exactly the class-name column values |
| Datasets.ClassesOfRows | voc_tools/utils.py:166-168 | over a table of records, the class names are exactly the records' labels |
| Datasets.AnnotationCsv | voc_tools/utils.py:170-179 | the file is written at the given path and mode, starts with the header, and completes exactly when the batch can be written line by line |
| Datasets.CaptionCsv | voc_tools/utils.py:135-144 | the same for captions |
| Datasets.WriteAnnotations | voc_tools/utils.py:175-178 | the write loop produces exactly `AnnotationCsv` of the flat records |
| Datasets.WriteCaptions | voc_tools/utils.py:140-143 | the write loop produces exactly `CaptionCsv` of the flat captions |
| Datasets.CaptionDataset.constructor | voc_tools/utils.py:113-124 | keeps the file system and path of an existing dataset |
| Datasets.CaptionDataset.Fetch | voc_tools/utils.py:126-133 | one group per caption file, each that file's captions; fails exactly when the `text` listing does |
| Datasets.CaptionDataset.ToCsv | voc_tools/utils.py:135-144 | writes the header and one line per caption of the flat listing |
| Datasets.Dataset.constructor | voc_tools/utils.py:147-154 | an empty table; a caption dataset on the same path exactly when caption support is asked for |
| Datasets.Dataset.Load | voc_tools/utils.py:156-159 | `meta` becomes the table of the flat records; on a failure it is left unchanged and the failure is reported |
| Datasets.Dataset.Unload | voc_tools/utils.py:161-164 | `meta` becomes empty |
| Datasets.Dataset.ClassNames | voc_tools/utils.py:166-168 | defined exactly when `meta` is non-empty; it does not load |
| Datasets.Dataset.ToCsv | voc_tools/utils.py:170-179 | writes the header and one line per record of the flat listing |
| Datasets.LoadedTable | voc_tools/utils.py:156-159 | after `load`, `meta` has one row per record, in directory order: the rows of the concatenated groups |
| Datasets.LoadedClassNames | voc_tools/utils.py:156-168 | after a `load`, the class names are exactly the labels of the records read, and defined exactly when some file was listed |
| Datasets.CsvIsTable | voc_tools/utils.py:170-179 | the CSV file holds the header and then one line per row of the loaded table, in order, or only the header when the listing fails |
| Datasets.CsvOfRows | voc_tools/utils.py:176-178 | line `i + 1` of the file is the CSV line of row `i` |
| Datasets.CaptionCsvIsFlat | voc_tools/utils.py:135-144 | the caption CSV is the header and then the captions of the concatenated groups |
| Datasets.LoadAsWritten | voc_tools/utils.py:156-159 | with `bulk=True` each item is a list, so loading any non-empty listing fails with `'list' object has no attribute 'raw'` |
| Datasets.ToCsvAsWritten | voc_tools/utils.py:170-179 | with `bulk=True` the file stops after the header with `'list' object has no attribute 'csv'` |
| Datasets.CaptionToCsvAsWritten | voc_tools/utils.py:135-144 | the same for the caption CSV |
| Datasets.SubsetPath | voc_tools/utils.py:200-201 | `os.path.join(path, name)` is the child `name` of `path` |
| Datasets.VocDataset.constructor | voc_tools/utils.py:196-201 | `train` at `path/train` and `test` at `path/test`, two distinct, empty datasets with the same caption support |

## Left out

- File and directory I/O (`open`, `os.listdir`, `os.path.exists`, writing)
  is an input value or an output value. The CSV file is a
  `Datasets.CsvFile` value: the path, the mode, the lines and the failure
  that stopped the writing.
- XML parsing (`xml.etree.ElementTree`) is not modelled. The file system
  gives each file's element tree or the parser's error message.
- numpy is not modelled: `meta` is a sequence of rows. `class_names` on
  an empty table is numpy's `IndexError`. Its message is written out.
- Exception messages other than those the core raises are opaque strings.
- Text.FloatToStr: Python's `float` text is modelled in positional form
  with at most 16 fraction digits. That is exact for the midpoints the
  reader stores, which are halves, while `|xmin + xmax| <= 2^53`. The
  exponent form Python uses from `1e16` up and its shortest-round-trip
  digit choice are not modelled.
- Records.Midpoint: the centre is the exact midpoint, a real number. Python
  computes `(xmin + xmax) / 2` in binary floating point, which rounds once
  `|xmin + xmax|` exceeds 2^53.
- Reader.ObjectRecord: an empty `<name>` gives the class name `"None"`, a
  string. Python keeps the value `None` in `raw()` and in `class_names`;
  it only prints as `None`.
- Reader.XmlRecords (and Reader.FromXml): an empty `<filename>` gives every
  record of the document the file name `"None"`, a string. Python keeps
  the value `None` in each record's `raw()[0]` and so in `meta`. The CSV
  and description texts agree.
- Text.ParseInt: `int()` is modelled for ASCII digits, single `_`
  between digits, an optional sign and surrounding whitespace (every
  `str.isspace` character except U+1C to U+1F, which CPython rejects).
  Python also accepts the other Unicode decimal digits; the model does
  not.
- Files.Failure.Message: `NotAnInteger` quotes the text with plain single
  quotes. Python writes `repr(t)`, which differs for text holding quotes,
  backslashes or control characters. `NoSuchFile` writes the normalised
  path, where Python writes the string as given. `IntOfNone` is the text
  of CPython 3.10 and later; 3.6 to 3.9 write `a number` where it says
  `a real number`. The `IndexError` of `class_names` on an empty table is
  the wording of recent numpy releases; older ones word it differently.
- Files.FileSystem.ParseXml, Files.FileSystem.ReadLines: they stand for
  library calls (`ElementTree.parse`, `readlines`) and look their result up
  in the file system value. They state nothing of their own. A directory
  read as a file is `NoSuchFile` here, where Python raises
  `IsADirectoryError` (whose text differs).
- Paths.Parse: paths follow POSIX rules only. Only `/` separates segments,
  so a Windows path such as `a\b\c.jpeg` is one segment, and the POSIX
  special root `//` is read as `/`. Python's `pathlib.Path` is the
  platform's path class.
- Reader.CompanionPath: under the POSIX rules above, a name without `/`
  has no grandparent, so `from_caption` and `from_image` raise
  `IndexError` for it even where Windows would find the companion.
- Records.Annotation: accessors (`filename`, `xmin`, …, `class_name`) are
  the datatype's own fields. `Caption.captions` is the field `caption`.
  Returning the constructor arguments therefore holds by construction and
  has no lemma of its own.
- Legacy.Annotation: fields are typed (`int` sides, `Records.Number`
  centres, `string` texts). The Python class accepts any value; only the
  types the reader produces are modelled.
- Datasets.Dataset.constructor and Datasets.CaptionDataset.constructor: the
  `assert os.path.exists` of `ABCDataset` is a precondition. The
  `AssertionError` it would raise is not modelled. Paths are parsed, so
  the empty string reads as `.`, which exists whenever any relative path
  is listed; `os.path.exists("")` is False, so the precondition admits
  `""` where Python raises.
- Datasets.Dataset.Load: modelled with `bulk=False`, the evident intent.
  The code as written is `Datasets.LoadAsWritten` (see Findings).
  `Datasets.Dataset.ToCsv` and `Datasets.CaptionDataset.ToCsv` are handled
  the same way.
- Datasets.CaptionDataset.Fetch: the lazy generator is modelled as the
  sequence of all groups. Laziness, and a failure surfacing only when the
  consumer asks for the first item, are not modelled.
- `TrainDataset` and `TestDataset` are `Datasets.Dataset`, because both
  only forward their arguments.
- `voc_tools/constants.py` is not part of this model. The three
  directory flags are the enumeration `Reader.DirFlag`.
- Image loading, the image-metadata join and its one-entry cache are not
  part of this model. They appear in none of the core code.
- `setup.py`, which is packaging only, is left out.
- `voc_tools/unittest/reader_test.py` is left out. It imports a name
  `voc_tools/annotation.py` does not define (line 6).
- Reader.CaptionCompanion, Reader.ImageCompanion, Reader.ImageStem: proved
  for stems without a dot, where the XML name is the stem and `.xml`. Reader.FromFileCaption
  and Reader.FromFileImage hold for every name and state the XML name as
  the replacement result. `CaptionXmlName` and `ImageXmlName` model the full
  replace-every-occurrence behaviour; only the lemmas are restricted.
- Xml.IterFlat: `iter` is modelled over any tree. The in-order lemma
  needs that no child of the root holds an `object` below it. An `object`
  nested inside another `object` would be yielded too and is not covered.
- Legacy.DescriptionsDiffer: takes the current record's description as
  `Records.DescribedAnnotation` states it, rather than unfolding
  `Records.Described` itself.

## Findings

| source | as written | input that shows it | evidently intended | confidence | as-written member | corrected member |
|---|---|---|---|---|---|---|
| voc_tools/utils.py:156-159 | `load` iterates `from_dir(path)` with the default `bulk=True`, so every item is a list, and calls `anno.raw()` on it | any dataset whose `Annotations` directory lists at least one file | build `meta` from the flat records (`bulk=False`), one row per annotation | not executed | Datasets.LoadAsWritten | Datasets.Dataset.Load |
| voc_tools/utils.py:170-179 | `to_csv` iterates `from_dir(path)` with `bulk=True` and calls `anno.csv()` on each list | any dataset whose `Annotations` directory lists at least one file: the file ends after its header | one CSV line per annotation | not executed | Datasets.ToCsvAsWritten | Datasets.Dataset.ToCsv |
| voc_tools/utils.py:135-144 | `CaptionDataset.to_csv` iterates `caption_from_dir(path)` with `bulk=True` and calls `caption.csv()` on each list | any dataset whose `text` directory lists at least one file | one CSV line per caption | not executed | Datasets.CaptionToCsvAsWritten | Datasets.CaptionDataset.ToCsv |
