/** The older, stand-alone `Annotation` of `voc_tools/annotation.py`. It keeps
    the same eight fields as the record of `voc_tools/utils.py` but writes its
    texts with fixed format strings instead of the shared `Atomic` logic. */
module Legacy {
  import opened Text
  import Records

  datatype Annotation = Annotation(
    filename: string, xmin: int, ymin: int, xmax: int, ymax: int,
    centerX: Records.Number, centerY: Records.Number, className: string)
  {
    /** The record of `voc_tools/utils.py` with the same fields. */
    function Current(): Records.Annotation
    {
      Records.Annotation(filename, xmin, ymin, xmax, ymax, centerX, centerY, className)
    }

    /** `csv_header()`: the literal header, the same text the current record
        derives from its attribute names. */
    static function CsvHeader(): (h: string)
      ensures h == Records.Annotation.CsvHeader()
      ensures Split(h, ',') == Records.Annotation.RawAttributes()
    {
      Records.AnnotationHeader();
      "file,xmin,ymin,xmax,ymax,center_x,center_y,class_name"
    }

    /** `csv()`: the eight values in one format string; the same line the
        current record writes. */
    function Csv(): (line: string)
      ensures line == Current().Csv()
      ensures |Split(line, ',')| == 8 <==> ',' !in filename && ',' !in className
    {
      var a := Current();
      CurrentCsvText(a);
      filename + "," + IntToStr(xmin) + "," + IntToStr(ymin) + "," + IntToStr(xmax) + "," + IntToStr(ymax) + ","
      + Records.ToStr(centerX.AsValue()) + "," + Records.ToStr(centerY.AsValue()) + "," + className
    }

    /** `__str__`: a space follows the first comma, and nothing is stripped. */
    function Describe(): (d: string)
      ensures "file:" + filename + ", " <= d
      ensures EndsWith(d, ":" + className)
    {
      var fields := Records.FieldsPrefix(Current());
      Framed("file:" + filename + ", ", fields, className);
      "file:" + filename + ", " + fields + className
    }
  }

  /** A text put together from a head, a middle ending in a colon and a tail
      starts with the head and ends with the colon and the tail. */
  lemma Framed(head: string, middle: string, tail: string)
    requires |middle| > 0 && middle[|middle| - 1] == ':'
    ensures head <= head + middle + tail && EndsWith(head + middle + tail, ":" + tail)
  {
    var s := head + middle + tail;
    assert s[|s| - |tail| - 1..] == [middle[|middle| - 1]] + tail;
  }

  lemma CurrentCsvText(a: Records.Annotation)
    ensures a.Csv() == a.filename + "," + IntToStr(a.xmin) + "," + IntToStr(a.ymin) + "," + IntToStr(a.xmax) + ","
                       + IntToStr(a.ymax) + "," + Records.ToStr(a.centerX.AsValue()) + ","
                       + Records.ToStr(a.centerY.AsValue()) + "," + a.className
  {
    var r := Records.Rendered(a.Raw());
    assert r == [a.filename, IntToStr(a.xmin), IntToStr(a.ymin), IntToStr(a.xmax), IntToStr(a.ymax),
                 Records.ToStr(a.centerX.AsValue()), Records.ToStr(a.centerY.AsValue()), a.className];
    JoinEight(a.filename, IntToStr(a.xmin), IntToStr(a.ymin), IntToStr(a.xmax), IntToStr(a.ymax),
              Records.ToStr(a.centerX.AsValue()), Records.ToStr(a.centerY.AsValue()), a.className, ",");
  }

  /** `spaced` is `s` with one space inserted after its first `n` characters. */
  predicate SpaceInserted(s: string, spaced: string, n: nat)
  {
    n <= |s| && spaced == s[..n] + " " + s[n..]
  }

  /** Both descriptions start with the file name and a comma, after which the
      legacy one has a space. Apart from that space they are the same text
      exactly when the class name does not end in a comma, which only the
      current record strips. `current` is the description of the current
      record, as `Records.DescribedAnnotation` and `Records.Annotation.Describe`
      give it. */
  lemma DescriptionsDiffer(a: Annotation, current: string)
    requires current == "file:" + a.filename + "," + Records.FieldsPrefix(a.Current()) + TrimEnd(a.className, {','})
    ensures var head := "file:" + a.filename + ",";
            && head <= current && head + " " <= a.Describe()
            && (SpaceInserted(current, a.Describe(), |head|) <==> |a.className| == 0 || a.className[|a.className| - 1] != ',')
  {
    var trimmed := TrimEnd(a.className, {','});
    TrimEndFixed(a.className, {','});
    assert "file:" + a.filename + ", " == "file:" + a.filename + "," + " ";
    SpacedTail("file:" + a.filename + ",", "file:" + a.filename + ", ", Records.FieldsPrefix(a.Current()), a.className, trimmed,
               current, a.Describe());
  }

  /** The string reasoning behind `DescriptionsDiffer`, over opaque parts. */
  lemma SpacedTail(head: string, spaced: string, fields: string, c: string, trimmed: string, current: string, legacy: string)
    requires spaced == head + " "
    requires current == head + fields + trimmed
    requires legacy == spaced + fields + c
    ensures head <= current && spaced <= legacy
    ensures SpaceInserted(current, legacy, |head|) <==> trimmed == c
  {
    Parts(head, "", fields, trimmed, current);
    Parts(head, " ", fields, c, legacy);
    AppendCancel(fields, trimmed, c);
    if SpaceInserted(current, legacy, |head|) {
      assert legacy[|head| + 1..] == current[|head|..];
    } else {
      assert legacy != current[..|head|] + " " + current[|head|..];
    }
  }

  /** Where the pieces of a four-part concatenation lie. */
  lemma Parts(head: string, sep: string, fields: string, tail: string, s: string)
    requires s == head + sep + fields + tail
    ensures |s| >= |head| + |sep| && s[..|head|] == head && s[|head|..|head| + |sep|] == sep
    ensures s[|head| + |sep|..] == fields + tail
  {
    assert s == head + (sep + (fields + tail));
  }

  lemma AppendCancel(h: string, t: string, c: string)
    ensures h + t == h + c <==> t == c
  {
    if h + t == h + c {
      assert t == (h + t)[|h|..];
    }
  }

  /** A text is its own right-trim exactly when it does not end in a trimmed character. */
  lemma TrimEndFixed(c: string, cs: set<char>)
    ensures TrimEnd(c, cs) == c <==> |c| == 0 || c[|c| - 1] !in cs
  {
    if |c| > 0 && c[|c| - 1] in cs {
      assert |TrimEnd(c, cs)| < |c|;
    }
  }
}
