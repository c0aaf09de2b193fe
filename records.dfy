/** The record types of `voc_tools/utils.py`: `Annotation` (one bounding box)
    and `Caption` (one line of text), and the formatting they share through
    their base class `Atomic`: a raw tuple of values, the parallel tuple of
    field names, a CSV header and line, and a `name:value` description. */
module Records {
  import opened Text

  /** A value in a record's raw tuple, as Python holds it. */
  datatype Value = Str(s: string) | Int(i: int) | Float(f: real)

  /** `"{}".format(v)`. */
  function ToStr(v: Value): string
  {
    match v
    case Str(s) => s
    case Int(i) => IntToStr(i)
    case Float(f) => FloatToStr(f)
  }

  /** Numbers are written without commas, so only text fields can split a CSV line. */
  lemma NumberTextHasNoComma(v: Value)
    requires !v.Str?
    ensures ',' !in ToStr(v)
  {
    if v.Int? {
      var t := IntToStr(v.i);
      assert forall k :: 0 <= k < |t| ==> t[k] != ',';
    }
  }

  /** A box centre as the reader stores it: the float midpoint of a parsed
      box, or the int `0` of a placeholder record. */
  datatype Number = IntNumber(i: int) | FloatNumber(f: real) {
    function AsReal(): real
    {
      match this
      case IntNumber(i) => i as real
      case FloatNumber(f) => f
    }

    function AsValue(): Value
    {
      match this
      case IntNumber(i) => Int(i)
      case FloatNumber(f) => Float(f)
    }
  }

  /** `(a + b) / 2` with Python's true division. */
  function Midpoint(a: int, b: int): (m: Number)
    ensures m.AsReal() * 2.0 == (a + b) as real
  {
    FloatNumber((a + b) as real / 2.0)
  }

  // ------------------------------------------------------------- Atomic

  /** `Atomic.csv_header`: the field names joined by commas. */
  function Header(names: seq<string>): string
  {
    Join(names, ",")
  }

  /** The header splits back into the field names when no name holds a comma. */
  lemma HeaderRoundTrip(names: seq<string>)
    requires |names| > 0 && forall i :: 0 <= i < |names| ==> ',' !in names[i]
    ensures Split(Header(names), ',') == names
  {
    SplitJoin(names, ',');
  }

  /** Each value formatted with `"{}"`. */
  function Rendered(values: seq<Value>): (r: seq<string>)
    ensures |r| == |values| && forall i :: 0 <= i < |r| ==> r[i] == ToStr(values[i])
  {
    seq(|values|, i requires 0 <= i < |values| => ToStr(values[i]))
  }

  /** `Atomic.csv`: the formatted values joined by commas, with no quoting. */
  function CsvLine(values: seq<Value>): string
  {
    Join(Rendered(values), ",")
  }

  /** A CSV line has one field per value exactly when no value is written
      with a comma, and then its fields are the written values. */
  lemma CsvFields(values: seq<Value>)
    requires |values| > 0
    ensures |Split(CsvLine(values), ',')| == |values|
            <==> forall i :: 0 <= i < |values| ==> ',' !in ToStr(values[i])
    ensures (forall i :: 0 <= i < |values| ==> ',' !in ToStr(values[i]))
            ==> Split(CsvLine(values), ',') == Rendered(values)
  {
    var r := Rendered(values);
    JoinedFieldCount(r, ',');
    if forall i :: 0 <= i < |values| ==> ',' !in ToStr(values[i]) {
      SplitJoin(r, ',');
    }
  }

  /** `name:value` for each pair that `zip` forms. */
  function Pairs(names: seq<string>, values: seq<Value>): (r: seq<string>)
    ensures |r| == if |names| < |values| then |names| else |values|
    ensures forall i :: 0 <= i < |r| ==> r[i] == names[i] + ":" + ToStr(values[i])
  {
    var n := if |names| < |values| then |names| else |values|;
    seq(n, i requires 0 <= i < n => names[i] + ":" + ToStr(values[i]))
  }

  /** Each pair followed by a comma, in order: the text `Atomic.__str__`
      has built when its loop ends. */
  function Accumulated(pairs: seq<string>): string
  {
    if |pairs| == 0 then "" else Accumulated(pairs[..|pairs| - 1]) + pairs[|pairs| - 1] + ","
  }

  lemma {:induction false} AccumulatedIsJoin(pairs: seq<string>)
    requires |pairs| > 0
    ensures Accumulated(pairs) == Join(pairs, ",") + ","
  {
    if |pairs| > 1 {
      var init := pairs[..|pairs| - 1];
      AccumulatedIsJoin(init);
      JoinSnoc(init, pairs[|pairs| - 1], ",");
      assert init + [pairs[|pairs| - 1]] == pairs;
    }
  }

  /** `Atomic.__str__`: the accumulated pairs with every leading and trailing
      comma stripped. */
  function Described(names: seq<string>, values: seq<Value>): string
  {
    Strip(Accumulated(Pairs(names, values)), {','})
  }

  /** `Atomic.__str__`, written as its loop. */
  method DescribeValues(names: seq<string>, values: seq<Value>) returns (s: string)
    ensures s == Described(names, values)
  {
    var pairs := Pairs(names, values);
    var acc := "";
    var i := 0;
    while i < |pairs|
      invariant 0 <= i <= |pairs|
      invariant acc == Accumulated(pairs[..i])
    {
      assert pairs[..i + 1][..i] == pairs[..i];
      acc := acc + (names[i] + ":" + ToStr(values[i])) + ",";
      i := i + 1;
    }
    assert pairs[..|pairs|] == pairs;
    s := Strip(acc, {','});
  }

  /** Stripping commas from the accumulated pairs reaches neither into the
      first pair nor past the `name:` of the last one. */
  lemma StripAccumulated(init: seq<string>, head: string, v: string)
    requires |head| > 0 && head[|head| - 1] != ','
    requires |init| > 0 ==> |init[0]| > 0 && init[0][0] != ','
    requires |init| == 0 ==> head[0] != ','
    ensures Strip(Accumulated(init + [head + v]), {','}) == Join(init + [head + TrimEnd(v, {','})], ",")
  {
    var ps := init + [head + v];
    AccumulatedIsJoin(ps);
    var pre := if |init| == 0 then "" else Join(init, ",") + ",";
    JoinLast(init, head + v, ",");
    JoinLast(init, head + TrimEnd(v, {','}), ",");
    var h := pre + head;
    AppendAssoc(pre, head, v);
    AppendAssoc(h, v, ",");
    if |init| > 0 {
      JoinStartsWith(init, ",");
    }
    assert h[0] != ',';
    StripTail(h, v);
    AppendAssoc(pre, head, TrimEnd(v, {','}));
  }

  lemma StripTail(h: string, v: string)
    requires |h| > 0 && h[0] != ',' && h[|h| - 1] != ','
    ensures Strip(h + (v + ","), {','}) == h + TrimEnd(v, {','})
  {
    assert (h + (v + ","))[0] == h[0];
    assert TrimStart(h + (v + ","), {','}) == h + (v + ",");
    TrimEndComma(h, v);
  }

  /** Trimming the comma after a value does not reach past `head`. */
  lemma TrimEndComma(head: string, v: string)
    requires |head| > 0 && head[|head| - 1] != ','
    ensures TrimEnd(head + (v + ","), {','}) == head + TrimEnd(v, {','})
  {
    TrimEndAppend(head, v + ",", {','});
    assert (v + ",")[..|v|] == v;
  }

  /** The description is the `name:value` pairs joined by commas, except that
      the strip also drops the trailing commas of the last value. */
  lemma DescribedForm(names: seq<string>, values: seq<Value>)
    requires |names| == |values| > 0
    requires |names[0]| > 0 && names[0][0] != ','
    ensures var n := |names|;
            Described(names, values)
            == Join(Pairs(names, values)[..n - 1]
                    + [names[n - 1] + ":" + TrimEnd(ToStr(values[n - 1]), {','})], ",")
  {
    var n := |names|;
    var ps := Pairs(names, values);
    assert ps == ps[..n - 1] + [(names[n - 1] + ":") + ToStr(values[n - 1])];
    StripAccumulated(ps[..n - 1], names[n - 1] + ":", ToStr(values[n - 1]));
  }

  // --------------------------------------------------------- Annotation

  /** One labelled box of an image. */
  datatype Annotation = Annotation(
    filename: string, xmin: int, ymin: int, xmax: int, ymax: int,
    centerX: Number, centerY: Number, className: string)
  {
    /** `Annotation.raw_attributes()`: the same for every instance. */
    static function RawAttributes(): (r: seq<string>)
      ensures |r| == 8 && r[7] == "class_name" && IndexOf(r, "class_name") == 7
    {
      var r := ["file", "xmin", "ymin", "xmax", "ymax", "center_x", "center_y", "class_name"];
      FirstIndex(r, "class_name", 7);
      r
    }

    /** `raw()`: the values in the order of `RawAttributes()`. */
    function Raw(): (r: seq<Value>)
      ensures |r| == |RawAttributes()|
      ensures r[IndexOf(RawAttributes(), "class_name")] == Str(className)
    {
      [Str(filename), Int(xmin), Int(ymin), Int(xmax), Int(ymax), centerX.AsValue(), centerY.AsValue(),
       Str(className)]
    }

    /** `Annotation.csv_header()`: the attribute names joined by commas. */
    static function CsvHeader(): string
    {
      Header(RawAttributes())
    }

    /** `csv()`: the line has eight fields, the written values, exactly when
        neither the file name nor the class name holds a comma. */
    function Csv(): (line: string)
      ensures |Split(line, ',')| == 8 <==> ',' !in filename && ',' !in className
      ensures ',' !in filename && ',' !in className ==> Split(line, ',') == Rendered(Raw())
    {
      var r := Raw();
      CsvFields(r);
      forall i | 1 <= i < 7 ensures ',' !in ToStr(r[i]) {
        NumberTextHasNoComma(r[i]);
      }
      CsvLine(r)
    }

    /** `__str__`. */
    method Describe() returns (s: string)
      ensures s == "file:" + filename + "," + FieldsPrefix(this) + TrimEnd(className, {','})
    {
      s := DescribeValues(RawAttributes(), Raw());
      DescribedAnnotation(this);
    }
  }

  /** The annotation header is the fixed text, which splits back into the
      attribute names. */
  lemma AnnotationHeader()
    ensures Annotation.CsvHeader() == "file,xmin,ymin,xmax,ymax,center_x,center_y,class_name"
    ensures Split(Annotation.CsvHeader(), ',') == Annotation.RawAttributes()
  {
    var names := Annotation.RawAttributes();
    HeaderRoundTrip(names);
    AnnotationHeaderText();
    assert names == ["file", "xmin", "ymin", "xmax", "ymax", "center_x", "center_y", "class_name"];
  }

  lemma AnnotationHeaderText()
    ensures Join(["file", "xmin", "ymin", "xmax", "ymax", "center_x", "center_y", "class_name"], ",")
            == "file,xmin,ymin,xmax,ymax,center_x,center_y,class_name"
  {
    JoinEight("file", "xmin", "ymin", "xmax", "ymax", "center_x", "center_y", "class_name", ",");
    assert "file" + "," + "xmin" == "file,xmin";
    assert "file,xmin" + "," + "ymin" == "file,xmin,ymin";
    assert "file,xmin,ymin" + "," + "xmax" == "file,xmin,ymin,xmax";
    assert "file,xmin,ymin,xmax" + "," + "ymax" == "file,xmin,ymin,xmax,ymax";
    assert "file,xmin,ymin,xmax,ymax" + "," + "center_x" == "file,xmin,ymin,xmax,ymax,center_x";
    assert "file,xmin,ymin,xmax,ymax,center_x" + "," + "center_y" == "file,xmin,ymin,xmax,ymax,center_x,center_y";
    assert "file,xmin,ymin,xmax,ymax,center_x,center_y" + "," + "class_name"
           == "file,xmin,ymin,xmax,ymax,center_x,center_y,class_name";
  }

  /** The index found is the first place `x` sits. */
  lemma FirstIndex<T>(s: seq<T>, x: T, k: nat)
    requires k < |s| && s[k] == x && forall i :: 0 <= i < k ==> s[i] != x
    ensures IndexOf(s, x) == k
  {
  }

  /** The eight `name:value` pairs of an annotation. */
  lemma AnnotationPairs(a: Annotation)
    ensures Pairs(Annotation.RawAttributes(), a.Raw())
            == ["file:" + a.filename, "xmin:" + IntToStr(a.xmin), "ymin:" + IntToStr(a.ymin),
                "xmax:" + IntToStr(a.xmax), "ymax:" + IntToStr(a.ymax),
                "center_x:" + ToStr(a.centerX.AsValue()), "center_y:" + ToStr(a.centerY.AsValue()),
                "class_name:" + a.className]
  {
    PairsEight("file", "xmin", "ymin", "xmax", "ymax", "center_x", "center_y", "class_name",
               Str(a.filename), Int(a.xmin), Int(a.ymin), Int(a.xmax), Int(a.ymax), a.centerX.AsValue(),
               a.centerY.AsValue(), Str(a.className));
    assert "file" + ":" == "file:";
    assert "xmin" + ":" == "xmin:";
    assert "ymin" + ":" == "ymin:";
    assert "xmax" + ":" == "xmax:";
    assert "ymax" + ":" == "ymax:";
    assert "center_x" + ":" == "center_x:";
    assert "center_y" + ":" == "center_y:";
    assert "class_name" + ":" == "class_name:";
  }

  lemma PairsEight(n0: string, n1: string, n2: string, n3: string, n4: string, n5: string, n6: string,
                   n7: string, v0: Value, v1: Value, v2: Value, v3: Value, v4: Value, v5: Value, v6: Value,
                   v7: Value)
    ensures Pairs([n0, n1, n2, n3, n4, n5, n6, n7], [v0, v1, v2, v3, v4, v5, v6, v7])
            == [n0 + ":" + ToStr(v0), n1 + ":" + ToStr(v1), n2 + ":" + ToStr(v2), n3 + ":" + ToStr(v3),
                n4 + ":" + ToStr(v4), n5 + ":" + ToStr(v5), n6 + ":" + ToStr(v6), n7 + ":" + ToStr(v7)]
  {
  }

  lemma DescribedAnnotation(a: Annotation)
    ensures Described(Annotation.RawAttributes(), a.Raw())
            == "file:" + a.filename + "," + FieldsPrefix(a) + TrimEnd(a.className, {','})
  {
    var names := Annotation.RawAttributes();
    var values := a.Raw();
    DescribedForm(names, values);
    AnnotationPairs(a);
    var ps := Pairs(names, values);
    var c := TrimEnd(a.className, {','});
    var last := "class_name:" + c;
    assert "class_name" + ":" == "class_name:";
    assert names[7] + ":" + TrimEnd(ToStr(values[7]), {','}) == last;
    ReplaceLast(ps, last);
    JoinedAnnotationText(a.filename, IntToStr(a.xmin), IntToStr(a.ymin), IntToStr(a.xmax), IntToStr(a.ymax),
                         ToStr(a.centerX.AsValue()), ToStr(a.centerY.AsValue()), c);
  }

  lemma ReplaceLast(ps: seq<string>, last: string)
    requires |ps| == 8
    ensures ps[..7] + [last] == [ps[0], ps[1], ps[2], ps[3], ps[4], ps[5], ps[6], last]
  {
  }

  /** The `name:value` pairs after the file name, joined by commas, up to
      the value of the class name. */
  function FieldsPrefix(a: Annotation): string
  {
    "xmin:" + IntToStr(a.xmin) + ",ymin:" + IntToStr(a.ymin) + ",xmax:" + IntToStr(a.xmax)
    + ",ymax:" + IntToStr(a.ymax) + ",center_x:" + ToStr(a.centerX.AsValue())
    + ",center_y:" + ToStr(a.centerY.AsValue()) + ",class_name:"
  }

  lemma JoinedAnnotationText(f: string, x0: string, y0: string, x1: string, y1: string, cx: string, cy: string,
                             c: string)
    ensures Join(["file:" + f, "xmin:" + x0, "ymin:" + y0, "xmax:" + x1, "ymax:" + y1, "center_x:" + cx,
                  "center_y:" + cy, "class_name:" + c], ",")
            == "file:" + f + "," + ("xmin:" + x0 + ",ymin:" + y0 + ",xmax:" + x1 + ",ymax:" + y1
                                    + ",center_x:" + cx + ",center_y:" + cy + ",class_name:") + c
  {
    var p1 := ["xmin:" + x0];
    var t1 := "xmin:" + x0;
    var p2 := p1 + ["ymin:" + y0];
    JoinSnocPair(p1, t1, "ymin:", y0, ",");
    assert "," + "ymin:" == ",ymin:";
    var t2 := t1 + ",ymin:" + y0;
    var p3 := p2 + ["xmax:" + x1];
    JoinSnocPair(p2, t2, "xmax:", x1, ",");
    assert "," + "xmax:" == ",xmax:";
    var t3 := t2 + ",xmax:" + x1;
    var p4 := p3 + ["ymax:" + y1];
    JoinSnocPair(p3, t3, "ymax:", y1, ",");
    assert "," + "ymax:" == ",ymax:";
    var t4 := t3 + ",ymax:" + y1;
    var p5 := p4 + ["center_x:" + cx];
    JoinSnocPair(p4, t4, "center_x:", cx, ",");
    assert "," + "center_x:" == ",center_x:";
    var t5 := t4 + ",center_x:" + cx;
    var p6 := p5 + ["center_y:" + cy];
    JoinSnocPair(p5, t5, "center_y:", cy, ",");
    assert "," + "center_y:" == ",center_y:";
    var t6 := t5 + ",center_y:" + cy;
    var p7 := p6 + ["class_name:" + c];
    JoinSnocPair(p6, t6, "class_name:", c, ",");
    assert "," + "class_name:" == ",class_name:";
    JoinCons("file:" + f, p7, ",");
    assert ["file:" + f] + p7
           == ["file:" + f, "xmin:" + x0, "ymin:" + y0, "xmax:" + x1, "ymax:" + y1, "center_x:" + cx,
               "center_y:" + cy, "class_name:" + c];
    assert "file:" + f + "," + (t6 + ",class_name:" + c) == "file:" + f + "," + (t6 + ",class_name:") + c;
  }

  /** Every centre the reader stores is the midpoint of its box. */
  predicate CentredBox(a: Annotation)
  {
    a.centerX.AsReal() * 2.0 == (a.xmin + a.xmax) as real && a.centerY.AsReal() * 2.0 == (a.ymin + a.ymax) as real
  }

  // ------------------------------------------------------------ Caption

  /** One caption line of an image. `captions` is the accessor of `caption`. */
  datatype Caption = Caption(filename: string, caption: string)
  {
    /** `Caption.raw_attributes()`. */
    static function RawAttributes(): (r: seq<string>)
      ensures |r| == 2
    {
      ["file", "caption"]
    }

    /** `raw()`. */
    function Raw(): (r: seq<Value>)
      ensures |r| == |RawAttributes()|
    {
      [Str(filename), Str(caption)]
    }

    /** `Caption.csv_header()`. */
    static function CsvHeader(): string
    {
      Header(RawAttributes())
    }

    /** `csv()`: two fields exactly when neither text holds a comma. */
    function Csv(): (line: string)
      ensures |Split(line, ',')| == 2 <==> ',' !in filename && ',' !in caption
      ensures ',' !in filename && ',' !in caption ==> Split(line, ',') == [filename, caption]
    {
      var r := Raw();
      CsvFields(r);
      assert ToStr(r[0]) == filename && ToStr(r[1]) == caption;
      assert Rendered(r) == [filename, caption];
      CsvLine(r)
    }

    /** `__str__`. */
    method Describe() returns (s: string)
      ensures s == "file:" + filename + ",caption:" + TrimEnd(caption, {','})
    {
      s := DescribeValues(RawAttributes(), Raw());
      DescribedCaption(this);
    }
  }

  /** The caption header is `file,caption`, which splits back into the
      attribute names. */
  lemma CaptionHeader()
    ensures Caption.CsvHeader() == "file,caption"
    ensures Split(Caption.CsvHeader(), ',') == Caption.RawAttributes()
  {
    HeaderRoundTrip(Caption.RawAttributes());
    CaptionHeaderText();
  }

  lemma CaptionHeaderText()
    ensures Header(Caption.RawAttributes()) == "file,caption"
  {
    JoinCons("file", ["caption"], ",");
    assert ["file"] + ["caption"] == Caption.RawAttributes();
  }

  lemma DescribedCaption(c: Caption)
    ensures Described(Caption.RawAttributes(), c.Raw()) == "file:" + c.filename + ",caption:" + TrimEnd(c.caption, {','})
  {
    var names := Caption.RawAttributes();
    DescribedForm(names, c.Raw());
    var ps := Pairs(names, c.Raw());
    var last := "caption:" + TrimEnd(c.caption, {','});
    assert "caption" + ":" == "caption:";
    assert names[1] + ":" + TrimEnd(ToStr(c.Raw()[1]), {','}) == last;
    assert "file" + ":" == "file:";
    assert ps[0] == "file:" + c.filename;
    assert ps[..1] + [last] == [ps[0]] + [last];
    JoinedCaptionText(c.filename, TrimEnd(c.caption, {','}));
  }

  lemma JoinedCaptionText(f: string, c: string)
    ensures Join(["file:" + f] + ["caption:" + c], ",") == "file:" + f + ",caption:" + c
  {
    JoinSnocPair(["file:" + f], "file:" + f, "caption:", c, ",");
    assert "," + "caption:" == ",caption:";
  }
}
