/** The parts of `pathlib.PurePosixPath` and `os.path.join` that the reader
    uses. A path is kept in normal form: a flag for a leading `/` and the
    segments between the slashes, none empty and none `.`. */
module Paths {
  import opened Text
  import opened Wrappers

  /** A segment pathlib keeps after normalisation. */
  predicate IsSegment(s: string)
  {
    s != "" && s != "." && '/' !in s
  }

  datatype Path = Path(absolute: bool, segments: seq<string>) {

    predicate WellFormed()
    {
      forall i :: 0 <= i < |segments| ==> IsSegment(segments[i])
    }

    /** `str(p)`: `.` for the empty relative path, `/` for the root. */
    function Text(): string
    {
      if absolute then "/" + Join(segments, "/")
      else if |segments| == 0 then "."
      else Join(segments, "/")
    }

    /** `p.name`: the last segment, empty for `.` and `/`. */
    function Name(): string
    {
      if |segments| == 0 then "" else segments[|segments| - 1]
    }

    /** `p / name` for a single segment. */
    function Child(name: string): (r: Path)
      ensures r.Name() == name && r.absolute == absolute
      ensures r.Parent(0) == Some(this)
    {
      var r := Path(absolute, segments + [name]);
      assert r.segments[..|r.segments| - 1] == segments;
      r
    }

    /** `p.parents[k]`: the ancestor `k + 1` levels up. pathlib raises an
        `IndexError` (here `None`) when there are not that many. */
    function Parent(k: nat): (r: Option<Path>)
      ensures r.Some? <==> k < |segments|
      ensures r.Some? ==> r.value.absolute == absolute && |r.value.segments| == |segments| - 1 - k
                          && r.value.segments == segments[..|segments| - 1 - k]
    {
      if k < |segments| then Some(Path(absolute, segments[..|segments| - 1 - k])) else None
    }
  }

  /** The pieces between slashes that pathlib keeps. */
  /** Going up `k + 1` levels is going up `k` levels and then one more. */
  lemma ParentStep(p: Path, k: nat)
    requires k + 1 < |p.segments|
    ensures p.Parent(k).Some? && p.Parent(k + 1) == p.Parent(k).value.Parent(0)
  {
    var n := |p.segments|;
    assert p.segments[..n - 1 - k][..n - 1 - k - 1] == p.segments[..n - 1 - (k + 1)];
  }

  /** A path with a name is that name inside its parent. */
  lemma ParentChild(p: Path)
    requires |p.segments| > 0
    ensures p.Parent(0).Some? && p.Parent(0).value.Child(p.Name()) == p
  {
    assert p.segments[..|p.segments| - 1] + [p.segments[|p.segments| - 1]] == p.segments;
  }

  /** The text of a path with a name ends with what the name ends with. */
  lemma TextEndsWith(p: Path, suffix: string)
    requires |p.segments| > 0 && |suffix| <= |p.Name()|
    ensures EndsWith(p.Text(), suffix) <==> EndsWith(p.Name(), suffix)
  {
    var init := p.segments[..|p.segments| - 1];
    assert p.segments == init + [p.Name()];
    JoinLast(init, p.Name(), "/");
    var front := if |init| == 0 then "" else Join(init, "/") + "/";
    if p.absolute {
      assert p.Text() == ("/" + front) + p.Name();
      EndsWithAppend("/" + front, p.Name(), suffix);
    } else {
      assert p.Text() == front + p.Name();
      EndsWithAppend(front, p.Name(), suffix);
    }
  }

  function Segments(parts: seq<string>): (r: seq<string>)
    ensures forall i :: 0 <= i < |r| ==> IsSegment(r[i])
  {
    if |parts| == 0 then []
    else (if IsSegment(parts[0]) then [parts[0]] else []) + Segments(parts[1..])
  }

  lemma {:induction false} SegmentsConcat(a: seq<string>, b: seq<string>)
    ensures Segments(a + b) == Segments(a) + Segments(b)
  {
    if |a| == 0 {
      assert a + b == b;
    } else {
      assert (a + b)[1..] == a[1..] + b;
      SegmentsConcat(a[1..], b);
    }
  }

  lemma {:induction false} SegmentsOfSegments(segs: seq<string>)
    requires forall i :: 0 <= i < |segs| ==> IsSegment(segs[i])
    ensures Segments(segs) == segs
  {
    if |segs| > 0 {
      SegmentsOfSegments(segs[1..]);
      assert [segs[0]] + segs[1..] == segs;
    }
  }

  /** `pathlib.PurePosixPath(s)`. */
  function Parse(s: string): (p: Path)
    ensures p.WellFormed()
  {
    Path(|s| > 0 && s[0] == '/', Segments(Split(s, '/')))
  }

  /** Reading back what `str` wrote gives the same path. */
  lemma ParseText(p: Path)
    requires p.WellFormed()
    ensures Parse(p.Text()) == p
  {
    var segs := p.segments;
    var j := Join(segs, "/");
    if |segs| > 0 {
      SplitJoin(segs, '/');
      SegmentsOfSegments(segs);
    }
    if p.absolute {
      assert p.Text() == "" + "/" + j;
      SplitConcat("", j, '/');
      assert Split("", '/') == [""];
      SegmentsConcat([""], Split(j, '/'));
    } else if |segs| > 0 {
      JoinStartsWith(segs, "/");
    } else {
      SplitNoSeparator(".", '/');
    }
  }

  /** `os.path.join(a, b)` for a relative `b`. */
  function JoinText(a: string, b: string): string
  {
    if |a| == 0 || a[|a| - 1] == '/' then a + b else a + "/" + b
  }

  lemma ParseJoinEmpty(b: string)
    requires IsSegment(b)
    ensures Parse(JoinText("", b)) == Parse("").Child(b)
  {
    SplitNoSeparator(b, '/');
    SplitNoSeparator("", '/');
    assert JoinText("", b) == b;
  }

  lemma ParseJoinSlash(a: string, b: string)
    requires IsSegment(b) && |a| > 0 && a[|a| - 1] != '/'
    ensures Parse(JoinText(a, b)) == Parse(a).Child(b)
  {
    SplitNoSeparator(b, '/');
    SplitConcat(a, b, '/');
    assert JoinText(a, b) == a + "/" + b;
    assert JoinText(a, b)[0] == a[0];
    SegmentsConcat(Split(a, '/'), [b]);
  }

  lemma ParseJoinTrailing(a: string, b: string)
    requires IsSegment(b) && |a| > 0 && a[|a| - 1] == '/'
    ensures Parse(JoinText(a, b)) == Parse(a).Child(b)
  {
    var a' := a[..|a| - 1];
    SplitNoSeparator(b, '/');
    SplitNoSeparator("", '/');
    assert a == a' + "/" + "";
    assert JoinText(a, b) == a' + "/" + b;
    assert JoinText(a, b)[0] == a[0];
    SplitConcat(a', b, '/');
    SplitConcat(a', "", '/');
    SegmentsConcat(Split(a', '/'), [b]);
    SegmentsConcat(Split(a', '/'), [""]);
  }

  /** Joining a segment onto a path's text denotes the child path. */
  lemma ParseJoin(a: string, b: string)
    requires IsSegment(b)
    ensures Parse(JoinText(a, b)) == Parse(a).Child(b)
  {
    if |a| == 0 {
      ParseJoinEmpty(b);
    } else if a[|a| - 1] == '/' {
      ParseJoinTrailing(a, b);
    } else {
      ParseJoinSlash(a, b);
    }
  }
}
