/**
 * setBounds: from a template solver configuration (its lines as read, each with
 * its newline) and the split wavelengths, one configuration per segment. Segment
 * k gets new header bounds (fields 1 and 2, natural-log wavelength as text), a
 * new observation name (header field 3) and four new output names (fields 3 to 6
 * of the second-to-last line); the lines between are copied verbatim.
 *
 * `str(np.log(x))` is the parameter `logText`; reading the files is left out, so
 * the template arrives as its list of lines and the splits as what `np.loadtxt`
 * returned.
 */
module SegmentConfig {
  import opened Results
  import opened Fields
  import opened Numbering

  /** What `np.loadtxt` gives for the splits file: one number (a 0-d array) or a list. */
  datatype Splits = Scalar(x: real) | Many(xs: seq<real>)

  /** `len(bounds)`, or 1 when `len` raises TypeError on a 0-d array. */
  function SplitCount(b: Splits): nat
  {
    match b
    case Scalar(_) => 1
    case Many(xs) => |xs|
  }

  /** `bounds[i]`; on a 0-d array the IndexError path uses `bounds` itself. */
  function SplitAt(b: Splits, i: nat): real
    requires i < SplitCount(b)
  {
    match b
    case Scalar(x) => x
    case Many(xs) => xs[i]
  }

  /**
   * A bound written into the header: the template's own field, a linear
   * wavelength written as `str(np.log(x))`, or `str` of an empty array.
   */
  datatype Bound = Template | At(x: real) | EmptyArray

  datatype Window = Window(lo: Bound, hi: Bound)

  /** The bounds of segment k (0-based) out of SplitCount(b) + 1. */
  function SegmentBounds(b: Splits, k: nat, overlap: real): Window
    requires k <= SplitCount(b)
  {
    var n := SplitCount(b);
    if k == 0 then
      Window(Template, if n == 0 then EmptyArray else At(SplitAt(b, 0) + overlap))
    else if k == n then
      Window(At(SplitAt(b, k - 1) - overlap), Template)
    else
      Window(At(SplitAt(b, k - 1) - overlap), At(SplitAt(b, k) + overlap))
  }

  function BoundText(bd: Bound, original: string, logText: real -> string): string
  {
    match bd
    case Template => original
    case At(x) => logText(x)
    case EmptyArray => "[]"
  }

  /** `digits = len(str(n_splits))` as the source computes it. */
  function WrittenIndexWidth(n: nat): nat
  {
    |Str(n)|
  }

  /** The width that holds every segment number 1..n_splits+1. */
  function IndexWidth(n: nat): nat
  {
    |Str(n + 1)|
  }

  /** `'{:0{}d}'.format(k + 1, width)`: the number of segment k (0-based), zero-padded to `width`. */
  function Index(width: nat, k: nat): string
  {
    Pad(k + 1, width)
  }

  /** `file[:-3]`: the template name without its `.in`. */
  function Stem(file: string): string
  {
    if |file| >= 3 then file[..|file| - 3] else ""
  }

  /** `file[:-3] + '_split_{:0{}d}.in'.format(k + 1, width)`. */
  function SegmentName(file: string, width: nat, k: nat): string
  {
    Stem(file) + "_split_" + Index(width, k) + ".in"
  }

  /** Header fields of a segment: bounds in fields 1 and 2, observation name in field 3. */
  function HeaderFields(header: seq<string>, w: Window, idx: string, logText: real -> string): seq<string>
    requires |header| >= 4
  {
    header[1 := BoundText(w.lo, header[1], logText)]
          [2 := BoundText(w.hi, header[2], logText)]
          [3 := "sig_aql_used_" + idx + ".obs"]
  }

  /** Trailer fields of a segment: the model, residual, radial-velocity and log outputs. */
  function TrailerFields(trailer: seq<string>, idx: string): seq<string>
    requires |trailer| >= 7
  {
    var base := "sig_aql_" + idx;
    trailer[3 := base + ".mod"][4 := base + ".res"][5 := base + ".rvs"][6 := base + ".log"]
  }

  /** What the template must hold for every index the source uses to exist. */
  predicate WellFormedTemplate(lines: seq<string>)
  {
    && |lines| >= 2
    && |Split(lines[0])| >= 4
    && |Split(lines[|lines| - 2])| >= 7
  }

  /** The IndexError the source raises, in the order it would raise them. */
  datatype TemplateError = NoHeader | HeaderTooShort | NoTrailer | TrailerTooShort

  function Problem(lines: seq<string>): TemplateError
    requires !WellFormedTemplate(lines)
  {
    if |lines| == 0 then NoHeader
    else if |Split(lines[0])| < 4 then HeaderTooShort
    else if |lines| < 2 then NoTrailer
    else TrailerTooShort
  }

  /** `lines[1:len(lines)-2]`: everything between header and trailer; the last line is dropped. */
  function Body(lines: seq<string>): seq<string>
  {
    if |lines| >= 3 then lines[1..|lines| - 2] else []
  }

  function Concat(ss: seq<string>): string
  {
    if ss == [] then "" else Concat(ss[..|ss| - 1]) + ss[|ss| - 1]
  }

  datatype OutFile = OutFile(name: string, text: string)

  function SegmentHeader(lines: seq<string>, b: Splits, overlap: real, logText: real -> string, width: nat, k: nat): seq<string>
    requires WellFormedTemplate(lines) && k <= SplitCount(b)
  {
    HeaderFields(Split(lines[0]), SegmentBounds(b, k, overlap), Index(width, k), logText)
  }

  function SegmentTrailer(lines: seq<string>, width: nat, k: nat): seq<string>
    requires WellFormedTemplate(lines)
  {
    TrailerFields(Split(lines[|lines| - 2]), Index(width, k))
  }

  /** The file written for segment k: header, the copied lines, trailer, a newline. */
  function SegmentFile(file: string, lines: seq<string>, b: Splits, overlap: real, logText: real -> string,
                       width: nat, k: nat): OutFile
    requires WellFormedTemplate(lines) && k <= SplitCount(b)
  {
    OutFile(SegmentName(file, width, k),
            Join(SegmentHeader(lines, b, overlap, logText, width, k)) + Concat(Body(lines))
            + Join(SegmentTrailer(lines, width, k)) + "\n")
  }

  /**
   * The first segment starts at the template's minimum and the last ends at its
   * maximum; around each split b[k-1] the segments k-1 and k overlap on
   * [b[k-1] - overlap, b[k-1] + overlap].
   */
  lemma SegmentBoundsChain(b: Splits, overlap: real, k: nat)
    requires 1 <= k <= SplitCount(b)
    ensures SegmentBounds(b, 0, overlap).lo == Template
    ensures SegmentBounds(b, SplitCount(b), overlap).hi == Template
    ensures SegmentBounds(b, k - 1, overlap).hi == At(SplitAt(b, k - 1) + overlap)
    ensures SegmentBounds(b, k, overlap).lo == At(SplitAt(b, k - 1) - overlap)
  {
  }

  /** With no split at all (an empty list) the single segment's maximum becomes the text of an empty array. */
  lemma NoSplitsSegment(overlap: real)
    ensures SegmentBounds(Many([]), 0, overlap) == Window(Template, EmptyArray)
  {
  }

  /** Increasing splits and a non-negative overlap: every inner segment is a proper interval, and neighbours overlap by 2 * overlap. */
  lemma SegmentsCoverWithoutGaps(b: Splits, overlap: real, k: nat)
    requires forall i, j :: 0 <= i < j < SplitCount(b) ==> SplitAt(b, i) < SplitAt(b, j)
    requires 0.0 <= overlap
    requires 1 <= k <= SplitCount(b)
    ensures SegmentBounds(b, k, overlap).lo.x <= SegmentBounds(b, k - 1, overlap).hi.x
    ensures SegmentBounds(b, k - 1, overlap).hi.x - SegmentBounds(b, k, overlap).lo.x == 2.0 * overlap
    ensures k < SplitCount(b) ==> SegmentBounds(b, k, overlap).lo.x < SegmentBounds(b, k, overlap).hi.x
  {
  }

  /** A single split read as a 0-d array gives the same files as a one-element list. */
  lemma ScalarActsAsOneSplit(file: string, lines: seq<string>, x: real, overlap: real, logText: real -> string,
                             width: nat, k: nat)
    requires WellFormedTemplate(lines) && k <= 1
    ensures SplitCount(Scalar(x)) == SplitCount(Many([x])) == 1
    ensures SegmentFile(file, lines, Scalar(x), overlap, logText, width, k)
         == SegmentFile(file, lines, Many([x]), overlap, logText, width, k)
  {
  }

  /** A text that holds no space keeps split fields clean wherever it is put. */
  lemma {:induction false} SpacelessIsClean(t: string)
    requires forall i :: 0 <= i < |t| ==> t[i] != ' '
    ensures NoSep(t) && !EndsInSpace(t)
  {
  }

  /** The file names built from a segment number hold no space. */
  lemma {:induction false} NamedIsClean(prefix: string, width: nat, k: nat, suffix: string)
    requires forall i :: 0 <= i < |prefix| ==> prefix[i] != ' '
    requires forall i :: 0 <= i < |suffix| ==> suffix[i] != ' '
    ensures NoSep(prefix + Index(width, k) + suffix) && !EndsInSpace(prefix + Index(width, k) + suffix)
  {
    PadIsDigits(k + 1, width);
    var t := prefix + Index(width, k) + suffix;
    forall i | 0 <= i < |t| ensures t[i] != ' ' {
      if i < |prefix| {
      } else if i < |prefix| + |Index(width, k)| {
        assert t[i] == Index(width, k)[i - |prefix|];
      } else {
        assert t[i] == suffix[i - |prefix| - |Index(width, k)|];
      }
    }
    SpacelessIsClean(t);
  }

  /**
   * The header of segment k differs from the template's only in fields 1, 2
   * and 3: fields 1 and 2 carry the segment's bounds (the template's own text
   * at the outer ends), field 3 names the segment's observation file; when `str(np.log(x))`
   * never holds a space, splitting the written header gives these fields back.
   */
  lemma HeaderRewrite(lines: seq<string>, b: Splits, overlap: real, logText: real -> string, width: nat, k: nat)
    requires WellFormedTemplate(lines) && k <= SplitCount(b)
    ensures |SegmentHeader(lines, b, overlap, logText, width, k)| == |Split(lines[0])|
    ensures forall i :: 0 <= i < |Split(lines[0])| && i != 1 && i != 2 && i != 3 ==>
      SegmentHeader(lines, b, overlap, logText, width, k)[i] == Split(lines[0])[i]
    ensures SegmentHeader(lines, b, overlap, logText, width, k)[1]
         == BoundText(SegmentBounds(b, k, overlap).lo, Split(lines[0])[1], logText)
    ensures SegmentHeader(lines, b, overlap, logText, width, k)[2]
         == BoundText(SegmentBounds(b, k, overlap).hi, Split(lines[0])[2], logText)
    ensures SegmentHeader(lines, b, overlap, logText, width, k)[3] == "sig_aql_used_" + Index(width, k) + ".obs"
    ensures (forall x :: forall i :: 0 <= i < |logText(x)| ==> logText(x)[i] != ' ') ==>
      Split(Join(SegmentHeader(lines, b, overlap, logText, width, k))) == SegmentHeader(lines, b, overlap, logText, width, k)
  {
    if forall x :: forall i :: 0 <= i < |logText(x)| ==> logText(x)[i] != ' ' {
      var fs := Split(lines[0]);
      var w := SegmentBounds(b, k, overlap);
      SplitIsClean(lines[0]);
      var lo := BoundText(w.lo, fs[1], logText);
      var hi := BoundText(w.hi, fs[2], logText);
      var obs := "sig_aql_used_" + Index(width, k) + ".obs";
      assert NoSep(lo) && !EndsInSpace(lo) by {
        if w.lo.At? { SpacelessIsClean(logText(w.lo.x)); }
      }
      assert NoSep(hi) && (2 == |fs| - 1 || !EndsInSpace(hi)) by {
        if w.hi.At? { SpacelessIsClean(logText(w.hi.x)); }
        else if w.hi.EmptyArray? { SpacelessIsClean("[]"); }
      }
      NamedIsClean("sig_aql_used_", width, k, ".obs");
      ReplaceKeepsClean(fs, 1, lo);
      ReplaceKeepsClean(fs[1 := lo], 2, hi);
      ReplaceKeepsClean(fs[1 := lo][2 := hi], 3, obs);
      SplitJoin(SegmentHeader(lines, b, overlap, logText, width, k));
    }
  }

  /**
   * The trailer of segment k differs from the template's second-to-last line
   * only in fields 3 to 6, the segment's .mod, .res, .rvs and .log names with
   * the same number as its header; splitting the written trailer gives these
   * fields back.
   */
  lemma TrailerRewrite(lines: seq<string>, width: nat, k: nat)
    requires WellFormedTemplate(lines)
    ensures |SegmentTrailer(lines, width, k)| == |Split(lines[|lines| - 2])|
    ensures forall i :: 0 <= i < |Split(lines[|lines| - 2])| && !(3 <= i <= 6) ==>
      SegmentTrailer(lines, width, k)[i] == Split(lines[|lines| - 2])[i]
    ensures SegmentTrailer(lines, width, k)[3..7] ==
      ["sig_aql_" + Index(width, k) + ".mod", "sig_aql_" + Index(width, k) + ".res",
       "sig_aql_" + Index(width, k) + ".rvs", "sig_aql_" + Index(width, k) + ".log"]
    ensures Split(Join(SegmentTrailer(lines, width, k))) == SegmentTrailer(lines, width, k)
  {
    var fs := Split(lines[|lines| - 2]);
    SplitIsClean(lines[|lines| - 2]);
    var m, r, v, g := "sig_aql_" + Index(width, k) + ".mod", "sig_aql_" + Index(width, k) + ".res",
                      "sig_aql_" + Index(width, k) + ".rvs", "sig_aql_" + Index(width, k) + ".log";
    NamedIsClean("sig_aql_", width, k, ".mod");
    NamedIsClean("sig_aql_", width, k, ".res");
    NamedIsClean("sig_aql_", width, k, ".rvs");
    NamedIsClean("sig_aql_", width, k, ".log");
    ReplaceKeepsClean(fs, 3, m);
    ReplaceKeepsClean(fs[3 := m], 4, r);
    ReplaceKeepsClean(fs[3 := m][4 := r], 5, v);
    ReplaceKeepsClean(fs[3 := m][4 := r][5 := v], 6, g);
    SplitJoin(SegmentTrailer(lines, width, k));
  }

  /** With the width of str(n_splits + 1), sorting the file names sorts the segments by wavelength. */
  lemma SegmentNamesSorted(file: string, n: nat, j: nat, k: nat)
    requires j < k <= n
    ensures LexLess(SegmentName(file, IndexWidth(n), j), SegmentName(file, IndexWidth(n), k))
  {
    var w := IndexWidth(n);
    StrIsFixed(n + 1);
    PadOrdered(j + 1, k + 1, w);
    LexLessAppend(Pad(j + 1, w), Pad(k + 1, w), ".in", ".in");
    LexLessPrefix(Stem(file) + "_split_", Pad(j + 1, w) + ".in", Pad(k + 1, w) + ".in");
    assert SegmentName(file, w, j) == (Stem(file) + "_split_") + (Pad(j + 1, w) + ".in");
    assert SegmentName(file, w, k) == (Stem(file) + "_split_") + (Pad(k + 1, w) + ".in");
  }

  /** The source's width, len(str(n_splits)), is a digit short exactly when n_splits + 1 is a power of ten. */
  lemma IndexWidthMatchesSource(n: nat)
    ensures IndexWidth(n) == WrittenIndexWidth(n) || n + 1 == Pow10(WrittenIndexWidth(n))
    ensures WrittenIndexWidth(n) <= IndexWidth(n)
  {
    WidthGrowsAtPowerOfTen(n);
    StrMonotone(n, n + 1);
  }

  /**
   * With the source's width, whenever n_splits + 1 is a power of ten (9, 99,
   * 999, ... splits) the last file's name sorts before the one of the segment
   * just below it: `_split_10.in` before `_split_9.in`, `_split_100.in` before
   * `_split_99.in`.
   */
  lemma WrittenNamesOutOfOrder(file: string, n: nat)
    requires n + 1 == Pow10(WrittenIndexWidth(n))
    ensures n >= 9
    ensures LexLess(SegmentName(file, WrittenIndexWidth(n), n), SegmentName(file, WrittenIndexWidth(n), n - 1))
  {
    var d := WrittenIndexWidth(n);
    PowerOfTenText(d);
    NinesText(d);
    var hi, lo := Str(n + 1), Str(n);
    assert Index(d, n) == hi && Index(d, n - 1) == lo;
    assert LexLess(hi + ".in", lo + ".in") by {
      assert (hi + ".in")[0] == '1' && (lo + ".in")[0] == '9';
    }
    LexLessPrefix(Stem(file) + "_split_", hi + ".in", lo + ".in");
    assert SegmentName(file, d, n) == (Stem(file) + "_split_") + (hi + ".in");
    assert SegmentName(file, d, n - 1) == (Stem(file) + "_split_") + (lo + ".in");
  }

  /** One segment's file text, written the way the source writes it: chunk by chunk. */
  method WriteSegment(lines: seq<string>, header: string, trailer: string)
    returns (text: string)
    requires |lines| >= 2
    ensures text == header + Concat(Body(lines)) + trailer + "\n"
  {
    text := header;
    var i := 1;
    while i < |lines| - 2
      invariant 1 <= i <= if |lines| >= 3 then |lines| - 2 else 1
      invariant text == header + Concat(lines[1..i])
    {
      assert lines[1..i + 1][..i - 1] == lines[1..i];
      text := text + lines[i];
      i := i + 1;
    }
    assert lines[1..i] == Body(lines);
    text := text + trailer + "\n";
  }

  /** One pass of the setBounds loop: rebuild the header and the trailer of segment k and write its file. */
  method WriteSegmentFile(file: string, lines: seq<string>, header: seq<string>, trailer: seq<string>,
                          splits: Splits, overlap: real, logText: real -> string, width: nat, k: nat)
    returns (f: OutFile)
    requires WellFormedTemplate(lines) && k <= SplitCount(splits)
    requires header == Split(lines[0]) && trailer == Split(lines[|lines| - 2])
    ensures f == SegmentFile(file, lines, splits, overlap, logText, width, k)
  {
    var idx := Index(width, k);
    var firstLine := JoinFields(HeaderFields(header, SegmentBounds(splits, k, overlap), idx, logText));
    var lastLine := JoinFields(TrailerFields(trailer, idx));
    var text := WriteSegment(lines, firstLine, lastLine);
    f := OutFile(SegmentName(file, width, k), text);
  }

  /** The setBounds loop over the segments 0 .. n_splits, once the template is known to be usable. */
  method WriteSegmentFiles(file: string, lines: seq<string>, header: seq<string>, trailer: seq<string>,
                           splits: Splits, overlap: real, logText: real -> string, width: nat)
    returns (files: seq<OutFile>)
    requires WellFormedTemplate(lines)
    requires header == Split(lines[0]) && trailer == Split(lines[|lines| - 2])
    ensures |files| == SplitCount(splits) + 1
    ensures forall k :: 0 <= k < |files| ==> files[k] == SegmentFile(file, lines, splits, overlap, logText, width, k)
  {
    var n := SplitCount(splits);
    ghost var want := seq(n + 1, j requires 0 <= j <= n => SegmentFile(file, lines, splits, overlap, logText, width, j));
    files := [];
    for k := 0 to n + 1
      invariant files == want[..k]
    {
      var f := WriteSegmentFile(file, lines, header, trailer, splits, overlap, logText, width, k);
      assert want[..k + 1] == want[..k] + [want[k]];
      files := files + [f];
    }
    assert files == want;
  }

  /**
   * The fields of the template's header and of its second-to-last line, or the
   * IndexError the source meets first: at `lines[0]`, at header field 2 or 3,
   * at `lines[-2]`, or at trailer fields 3 to 6. All of them happen while the
   * first segment is built, before any file is written.
   */
  method ReadTemplate(lines: seq<string>) returns (r: Result<(seq<string>, seq<string>), TemplateError>)
    ensures !WellFormedTemplate(lines) ==> r == Err(Problem(lines))
    ensures WellFormedTemplate(lines) ==> r == Ok((Split(lines[0]), Split(lines[|lines| - 2])))
  {
    if |lines| == 0 {
      return Err(NoHeader);
    }
    var header := Split(lines[0]);
    if |header| < 4 {
      return Err(HeaderTooShort);
    }
    if |lines| < 2 {
      return Err(NoTrailer);
    }
    var trailer := Split(lines[|lines| - 2]);
    if |trailer| < 7 {
      return Err(TrailerTooShort);
    }
    return Ok((header, trailer));
  }

  /**
   * setBounds as written: the index width is len(str(n_splits)). Either the
   * template lacks a field the source indexes (and nothing is written), or
   * there is one file per segment, n_splits + 1 of them; when n_splits + 1 is
   * a power of ten the last file's name sorts before the one below it.
   */
  method SetBounds(file: string, lines: seq<string>, splits: Splits, overlap: real, logText: real -> string)
    returns (r: Result<seq<OutFile>, TemplateError>)
    ensures !WellFormedTemplate(lines) ==> r == Err(Problem(lines))
    ensures WellFormedTemplate(lines) ==> r.Ok? && |r.value| == SplitCount(splits) + 1
    ensures r.Ok? ==> forall k :: 0 <= k < |r.value| ==>
      WellFormedTemplate(lines)
      && r.value[k] == SegmentFile(file, lines, splits, overlap, logText, WrittenIndexWidth(SplitCount(splits)), k)
    ensures var n := SplitCount(splits);
      r.Ok? && n + 1 == Pow10(WrittenIndexWidth(n)) ==> n >= 9 && LexLess(r.value[n].name, r.value[n - 1].name)
  {
    var template := ReadTemplate(lines);
    if template.Err? {
      return Err(template.error);
    }
    var n := SplitCount(splits);
    var files := WriteSegmentFiles(file, lines, template.value.0, template.value.1, splits, overlap, logText,
                                   WrittenIndexWidth(n));
    if n + 1 == Pow10(WrittenIndexWidth(n)) {
      WrittenNamesOutOfOrder(file, n);
    }
    return Ok(files);
  }

  /**
   * setBounds with the index width len(str(n_splits + 1)): the same files
   * with wider numbers where needed, and the names now sort in segment order.
   */
  method SetBoundsSorted(file: string, lines: seq<string>, splits: Splits, overlap: real, logText: real -> string)
    returns (r: Result<seq<OutFile>, TemplateError>)
    ensures !WellFormedTemplate(lines) ==> r == Err(Problem(lines))
    ensures WellFormedTemplate(lines) ==> r.Ok? && |r.value| == SplitCount(splits) + 1
    ensures r.Ok? ==> forall k :: 0 <= k < |r.value| ==>
      WellFormedTemplate(lines)
      && r.value[k] == SegmentFile(file, lines, splits, overlap, logText, IndexWidth(SplitCount(splits)), k)
    ensures r.Ok? ==> forall j, k :: 0 <= j < k < |r.value| ==> LexLess(r.value[j].name, r.value[k].name)
  {
    var template := ReadTemplate(lines);
    if template.Err? {
      return Err(template.error);
    }
    var n := SplitCount(splits);
    var files := WriteSegmentFiles(file, lines, template.value.0, template.value.1, splits, overlap, logText,
                                   IndexWidth(n));
    forall j, k | 0 <= j < k < |files|
      ensures LexLess(files[j].name, files[k].name)
    {
      SegmentNamesSorted(file, n, j, k);
    }
    return Ok(files);
  }
}
