# fd3-helper: segment configurations and overlap stitching

fd3-helper prepares and post-processes runs of the spectral disentangling program
fd3 on the binary sig Aql. This project models the two routines of `fd3_helper.py`
that carry the logic. The rest of the module is file choosing, process launching
and progress bars.

- **setBounds** takes a template fd3 configuration and a list of split wavelengths.
  It writes one configuration per wavelength segment:
  - segment k gets new header bounds (fields 1 and 2: the natural log of the
    split ± overlap, or the template's own value at the outer ends);
  - it gets a new observation name (header field 3) and four new output names
    (fields 3 to 6 of the second-to-last line), numbered `k + 1` with zero padding;
  - the lines in between are copied verbatim.

  Fields are separated by two spaces. A line keeps its newline, so the newline
  belongs to the last field.
- **average_overlap** reads the disentangled spectra of the segments in file order.
  - Each segment's two flux columns are shifted so that the mean of their first 20
    samples is 1.
  - It counts the n wavelengths the next segment shares with the carried tail.
  - It replaces the tail's last n samples by a linear-ramp weighted average with
    the next segment's first n samples, which it then drops.
  - Everything is concatenated.

The modules:

- `Results` holds the `Result` type. The Python original raises an exception where
  the model returns `Err`.
- `Fields` gives Python's `split('  ')` and `'  '.join`, with the round trips proved.
  `JoinFields` is the loop that rebuilds a line from its fields.
- `Numbering` gives `str(n)`, the zero padding of `'{:0{}d}'.format`, and Python's
  string order.
- `SegmentConfig` gives the bounds of each segment, the rewritten header and
  trailer, the file names, and `SetBounds` itself (a loop over the segments).
  The index width is a parameter. `SetBounds` uses the source's width and
  `SetBoundsSorted` the width the file-name ordering needs (see "Findings").
- `Stitch` gives the normalisation, the ramp blend, the overlap count, the in-place
  splice on arrays, and `AverageOverlap`. `AverageOverlap` is a loop over the
  segments, proved equal to the recursive specification `StitchAll`.

Wavelength keys are a type parameter `K` compared only for equality, as
`np.intersect1d` compares them. Flux values are `real`. `str(np.log(x))` is a
function parameter `logText`, because its text is numpy's float printing.

Two behaviours of the code are worth knowing:

- An empty splits file (`np.loadtxt` gives an empty array, so `n_splits = 0`)
  produces one configuration whose maximum field is the text `[]`, the `str` of an
  empty array (fd3_helper.py:272-276). See `SegmentConfig.NoSplitsSegment`.
- Nothing checks that the splits are increasing or inside the template's domain,
  so the model has no such validation error. `SegmentConfig.SegmentsCoverWithoutGaps`
  states what holds when the splits are increasing.

## Model

| member | source | states |
|---|---|---|
| Fields.Split | fd3_helper.py:258 | a split line always has at least one field |
| Fields.JoinSplit | fd3_helper.py:269-299 | joining the fields of any line with two spaces gives the line back, so an untouched header is written unchanged |
| Fields.SplitJoin | fd3_helper.py:293-313 | splitting the join of clean fields (no field holds two spaces, no field but the last ends in a space) gives the same fields back |
| Fields.SplitIsClean | fd3_helper.py:269 | every field that `split('  ')` produces is clean |
| Fields.JoinFields | fd3_helper.py:293-299 | the accumulate-with-separator loop builds exactly the two-space join of the fields, and for clean fields the line splits back into them |
| Numbering.PadOrdered | fd3_helper.py:265 | numbers zero-padded to a width that holds both have that length, and their string order is their numeric order |
| Numbering.WidthGrowsAtPowerOfTen | fd3_helper.py:265 | `len(str(n + 1))` differs from `len(str(n))` only when n + 1 is a power of ten |
| Numbering.PadIsDigits | fd3_helper.py:292 | a zero-padded number consists of decimal digits only |
| Numbering.PowerOfTenText | fd3_helper.py:265 | `str(10^d)` has d + 1 characters and starts with `1` |
| Numbering.NinesText | fd3_helper.py:265 | for d ≥ 1, `str(10^d - 1)` starts with `9` |
| SegmentConfig.SegmentBoundsChain | fd3_helper.py:271-290 | the first segment keeps the template's minimum and the last its maximum; segment k-1 ends at split k-1 + overlap and segment k starts at split k-1 - overlap |
| SegmentConfig.NoSplitsSegment | fd3_helper.py:271-276 | with an empty splits list, the single segment keeps the template minimum and its maximum is the empty-array text |
| SegmentConfig.SegmentsCoverWithoutGaps | fd3_helper.py:278-290 | for increasing splits and overlap ≥ 0, neighbouring segments overlap by exactly 2·overlap and every inner segment has minimum < maximum |
| SegmentConfig.ScalarActsAsOneSplit | fd3_helper.py:260-285 | a splits file holding one number counts as one split (the `TypeError` path) and, through the `IndexError` fallbacks, gives the same two files as a one-element list |
| SegmentConfig.HeaderRewrite | fd3_helper.py:269-299 | the header keeps its field count and every field but 1, 2 and 3; fields 1 and 2 are the text of the segment's lower and upper bound (the log text of split ± overlap, or the template's own field at the outer ends); field 3 is `sig_aql_used_<index>.obs`; if the log text never holds a space, the written header splits back into these fields |
| SegmentConfig.TrailerRewrite | fd3_helper.py:303-313 | the second-to-last line keeps its field count and every field outside 3..6; those become the `.mod`, `.res`, `.rvs`, `.log` names with the header's index; the written line splits back into these fields |
| SegmentConfig.SegmentNamesSorted | fd3_helper.py:246-248 | with the index width of `str(n_splits + 1)`, the file name of an earlier segment sorts strictly before that of every later one |
| SegmentConfig.IndexWidthMatchesSource | fd3_helper.py:265 | the corrected width is never smaller than the source's, and equals it unless n_splits + 1 is a power of ten |
| SegmentConfig.WrittenNamesOutOfOrder | fd3_helper.py:265 | with the source's width `len(str(n_splits))`, whenever n_splits + 1 is a power of ten (so n_splits ≥ 9), the name of the last segment sorts before that of the segment below it |
| SegmentConfig.WriteSegment | fd3_helper.py:316-321 | the written text is the header, then the template's lines from the second to the third-to-last in order, then the trailer and a newline |
| SegmentConfig.WriteSegmentFile | fd3_helper.py:292-321 | one pass of the loop, for a given index width, writes exactly the configuration of segment k under the name of segment k |
| SegmentConfig.WriteSegmentFiles | fd3_helper.py:267-321 | the loop over the segments, for a given index width, yields n_splits + 1 files, file k being the configuration of segment k |
| SegmentConfig.ReadTemplate | fd3_helper.py:258-307 | a template without a header, with fewer than 4 header fields, with fewer than 2 lines, or with fewer than 7 trailer fields gives that error; otherwise it gives the split header and second-to-last line |
| SegmentConfig.SetBounds | fd3_helper.py:245-321 | as written, with the index width `len(str(n_splits))`: a template missing a field the code indexes fails with that error and writes nothing; otherwise there are n_splits + 1 files, file k being the named configuration of segment k; when n_splits + 1 is a power of ten, the last file's name sorts before the one below it |
| SegmentConfig.SetBoundsSorted | fd3_helper.py:245-321 | the same outcome with the index width `len(str(n_splits + 1))`, and then every file's name sorts before the names of all later segments, as the comment at lines 246-248 intends |
| Stitch.OffsetAnchorsMean | fd3_helper.py:438-444 | after normalisation, the mean of the first 20 samples (all of them if fewer) is 1, and differences between samples are unchanged |
| Stitch.BlendAt | fd3_helper.py:451-456 | position j of an n-sample overlap is ((n - j)·tail + (j + 1)·head) / (n + 1) |
| Stitch.BlendOfEqual | fd3_helper.py:451-456 | blending a run of samples with itself gives it back |
| Stitch.BlendMidpoint | fd3_helper.py:451-456 | for odd n, the middle sample of the overlap is the plain mean of tail and head |
| Stitch.OverlapCount | fd3_helper.py:447 | the number of shared wavelengths is at most the length of either grid |
| Stitch.DistinctAtMostLength | fd3_helper.py:447 | a grid has no more distinct wavelengths than samples |
| Stitch.SpliceInPlace | fd3_helper.py:459-461 | the array's last samples are replaced by the new data and its earlier samples are untouched |
| Stitch.StitchStep | fd3_helper.py:441-470 | one pass fails exactly when the next segment has fewer than 2 rows or shares no wavelength with a non-empty tail; on success the finished tail keeps the tail's grid and the carried segment is its grid without the first n samples, with all columns aligned |
| Stitch.SplicedOverlap | fd3_helper.py:453-461 | splicing the blend into the tail keeps its samples before the overlap; with m the tail length less n, sample m + j becomes ((n - j)·tail[m + j] + (j + 1)·head[j]) / (n + 1) |
| Stitch.BlendInPlace | fd3_helper.py:453-461 | the in-place assignment to `s11[-(n):]` leaves in the array the spliced blend of its old samples with the first n samples of the head |
| Stitch.StepBlendsOverlap | fd3_helper.py:443-461 | a successful pass keeps each flux column's length and its samples before the last n; with m the length less n, sample m + j becomes ((n - j)·tail[m + j] + (j + 1)·h[j]) / (n + 1), where h is the next segment's column after normalisation |
| Stitch.StepCarriesRest | fd3_helper.py:443-470 | a successful pass shares at least one wavelength unless the tail was empty; each carried flux column has the next segment's length less n, and its sample i is the next segment's sample n + i plus 1 - (mean of that segment's first 20 samples) |
| Stitch.GridFromLength | fd3_helper.py:447-448 | the trimmed later grids together hold all their rows but the shared ones |
| Stitch.Run | fd3_helper.py:440-476 | the rest of the loop, when it succeeds, appends the carried tail and every later grid trimmed of its shared samples, and keeps the three columns aligned |
| Stitch.StitchedLength | fd3_helper.py:411-476 | the stitched grid is the first segment's grid followed by each later grid without its shared samples; both flux columns match it in length, which is the total row count less the overlaps |
| Stitch.StitchPair | fd3_helper.py:441-462 | one loop pass on the tail's flux arrays leaves in them the finished tail of the step and returns the carried segment, or returns the step's error |
| Stitch.StitchPass | fd3_helper.py:440-470 | one whole pass of the loop (stitch, append the finished tail to w, s1, s2, carry the rest in fresh arrays) either returns the error the recursive run meets, or leaves a state from which the run goes on to the same result |
| Stitch.AverageOverlap | fd3_helper.py:411-476 | the loop with in-place splices returns exactly the recursive stitching `StitchAll`: the error of the first failing segment (none, or too few rows in the first), or the stitched columns |

## Left out

- Reading the template, the splits and the spectra, and writing the configurations
  and the stitched spectra, are file I/O. The model takes the lines and arrays
  as values and returns file names and texts.
- `np.exp` on the final grid and `np.savetxt` (fd3_helper.py:480-481) are output
  formatting and are left out. The stitched grid stays in the segments' own keys.
- Floating point is modelled as exact reals. The ramp-weighted mean and the mean of
  the first 20 samples are therefore exact, with no rounding.
- `str(np.log(x))` is the parameter `logText` and its text is not modelled.
  Natural-log monotonicity, which makes the log bounds ordered like the splits,
  is not modelled either.
- A spectrum file with fewer than two rows, an empty file list, and an overlap of
  zero with a non-empty tail fail in numpy (scalar indexing, an empty list, a
  ragged array). The model reports them as `TooFewRows`, `NoSegments` and
  `NoOverlap`, and does not model which exception numpy raises or its version
  dependence.
- Like the code, `Stitch.StitchStep` blends the tail's last n samples with the next
  segment's first n samples. No lemma states that these are the shared
  wavelengths, which would require sorted grids with the overlap at their ends.
  The code assumes this without checking it.
- The interactive parts of the module (file pickers, path chooser, menus, `main`),
  the fd3 process launcher with its worker pool, `clean`, and the progress bars are
  not part of this model.
- Python's integer-to-text conversion is modelled for non-negative numbers only,
  which is all that segment numbering uses.

## Findings

| source | as written | input that shows it | evidently intended | confidence | as-written member | corrected member |
|---|---|---|---|---|---|---|
| fd3_helper.py:265 | the index width is `len(str(n_splits))`, but the indices run up to n_splits + 1 | nine splits: ten files, and `x_split_10.in` sorts before `x_split_9.in` (and before `x_split_2.in`) | width `len(str(n_splits + 1))`, so that sorting the names orders the segments (lines 246-248) | not executed | SegmentConfig.SetBounds | SegmentConfig.SetBoundsSorted |

`SegmentConfig.SetBounds` models the code as written and states the misordering,
which `SegmentConfig.WrittenNamesOutOfOrder` proves for every n_splits with
n_splits + 1 a power of ten. `SegmentConfig.SetBoundsSorted` uses the width
`SegmentConfig.IndexWidth` and proves the names sorted, through
`SegmentConfig.SegmentNamesSorted`. `SegmentConfig.IndexWidthMatchesSource` shows
that the two widths differ only when n_splits + 1 is a power of ten.
