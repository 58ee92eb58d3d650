/** The preprocessing script: instrument dumps become per-file sample lists,
    each list is cut into windows of 128 samples, the windows are averaged
    element by element into one profile per file, and every profile is
    written as one bracketed, comma-separated line. */
module GenerateSanitisedData {
  import opened Results
  import opened Text

  /** Lines at the head of every dump that are never examined (`lines[5:]`). */
  const HeaderLines: nat := 5
  /** The largest sample value the line filter keeps. */
  const MaxSample: nat := 4095
  /** The number of samples in one window. */
  const WindowSize: nat := 128

  /** A Python dictionary keyed by file name, in insertion order. */
  type FileDict<V> = seq<(string, V)>

  /** The keys of a dictionary, in iteration order. */
  function Names<V>(d: FileDict<V>): (ns: seq<string>)
    ensures |ns| == |d| && forall i :: 0 <= i < |d| ==> ns[i] == d[i].0
  {
    seq(|d|, i requires 0 <= i < |d| => d[i].0)
  }

  /** No file name occurs twice, as in any dictionary. */
  predicate DistinctNames<V>(d: FileDict<V>) {
    forall i, j :: 0 <= i < j < |d| ==> d[i].0 != d[j].0
  }

  // ---------------------------------------------------------------------
  // Line filter (`read_text_files`)
  // ---------------------------------------------------------------------

  predicate IsAsciiDigit(c: char) {
    '0' <= c <= '9'
  }

  /** Python's `str.isdigit`, restricted to ASCII digits: non-empty, digits only. */
  predicate IsDigitString(s: string) {
    |s| > 0 && forall i :: 0 <= i < |s| ==> IsAsciiDigit(s[i])
  }

  /** Ten to the power `n`. */
  function Pow10(n: nat): nat {
    if n == 0 then 1 else 10 * Pow10(n - 1)
  }

  /** Python's `int(s)` for a string of decimal digits. */
  function DecimalValue(s: string): nat
    requires forall i :: 0 <= i < |s| ==> IsAsciiDigit(s[i])
  {
    if s == [] then 0
    else
      assert IsAsciiDigit(s[|s| - 1]);
      10 * DecimalValue(s[..|s| - 1]) + (s[|s| - 1] as int - '0' as int)
  }

  /** The value of `n` digits is below `10^n`, and at least `10^(n - 1)`
      when there is no leading zero. */
  lemma {:induction false} DecimalValueBounds(s: string)
    requires forall i :: 0 <= i < |s| ==> IsAsciiDigit(s[i])
    ensures DecimalValue(s) < Pow10(|s|)
    ensures |s| > 0 && s[0] != '0' ==> Pow10(|s| - 1) <= DecimalValue(s)
    decreases |s|
  {
    if s != [] {
      var init := s[..|s| - 1];
      DecimalValueBounds(init);
      assert |s| > 1 ==> init[0] == s[0];
      assert IsAsciiDigit(s[|s| - 1]);
    }
  }

  /** The decimal text of a natural number, as Python's `str(n)` writes it. */
  function DecimalText(n: nat): (t: string)
    ensures |t| > 0 && IsDigitString(t)
    decreases n
  {
    var d := ['0' + (n % 10) as char];
    if n < 10 then d else DecimalText(n / 10) + d
  }

  /** Reading back the decimal text of a number gives the number. */
  lemma {:induction false} DecimalRoundTrip(n: nat)
    ensures DecimalValue(DecimalText(n)) == n
    decreases n
  {
    var t := DecimalText(n);
    if n >= 10 {
      DecimalRoundTrip(n / 10);
      assert t[..|t| - 1] == DecimalText(n / 10);
    }
  }

  /** The filter of the dump reader: the stripped line is a digit string
      whose value is at most 4095. */
  predicate Accepts(line: string) {
    var t := Strip(line);
    IsDigitString(t) && DecimalValue(t) <= MaxSample
  }

  /** A dump line holding a value of at most 4095 in decimal, followed by a
      line break, is kept, and contributes that value. */
  lemma {:induction false} AcceptsWrittenSample(n: nat)
    requires n <= MaxSample
    ensures Accepts(DecimalText(n) + "\n") && SampleOf(DecimalText(n) + "\n") == n
  {
    var t := DecimalText(n);
    assert IsAsciiDigit(t[0]) && IsAsciiDigit(t[|t| - 1]);
    StripPadded("", t, "\n");
    assert "" + t + "\n" == t + "\n";
    DecimalRoundTrip(n);
  }

  /** Whitespace around a line's text decides nothing: the padded line is
      kept exactly when the bare text is, with the same value. */
  lemma {:induction false} AcceptsPadded(pre: string, t: string, post: string)
    requires forall i :: 0 <= i < |pre| ==> IsSpace(pre[i])
    requires forall i :: 0 <= i < |post| ==> IsSpace(post[i])
    requires t != [] && !IsSpace(t[0]) && !IsSpace(t[|t| - 1])
    ensures Accepts(pre + t + post) <==> Accepts(t)
    ensures Accepts(t) ==> SampleOf(pre + t + post) == SampleOf(t)
  {
    StripPadded(pre, t, post);
    StripPadded("", t, "");
    assert "" + t + "" == t;
  }

  /** The sample an accepted line contributes. */
  function SampleOf(line: string): (v: int)
    requires Accepts(line)
    ensures 0 <= v <= MaxSample
  {
    DecimalValue(Strip(line))
  }

  /** The samples of the accepted lines, in line order. */
  function FilterSamples(lines: seq<string>): (r: seq<int>)
    ensures |r| <= |lines|
    ensures forall k :: 0 <= k < |r| ==> 0 <= r[k] <= MaxSample
  {
    if lines == [] then []
    else
      var init := FilterSamples(lines[..|lines| - 1]);
      var last := lines[|lines| - 1];
      if Accepts(last) then init + [SampleOf(last)] else init
  }

  /** Python's `lines[5:]`: empty when the dump has five lines or fewer. */
  function AfterHeader(lines: seq<string>): (body: seq<string>)
    ensures |body| == if |lines| <= HeaderLines then 0 else |lines| - HeaderLines
    ensures forall k :: 0 <= k < |body| ==> body[k] == lines[HeaderLines + k]
  {
    if |lines| <= HeaderLines then [] else lines[HeaderLines..]
  }

  /** The per-line loop of one dump: strip each line after the header and
      append its value when it passes the filter. */
  method ExtractSamples(lines: seq<string>) returns (numbers: seq<int>)
    ensures numbers == FilterSamples(AfterHeader(lines))
    ensures |numbers| <= |AfterHeader(lines)|
    ensures forall k :: 0 <= k < |numbers| ==> 0 <= numbers[k] <= MaxSample
  {
    var body := AfterHeader(lines);
    numbers := [];
    for k := 0 to |body|
      invariant numbers == FilterSamples(body[..k])
    {
      assert body[..k + 1][..k] == body[..k];
      var line := Strip(body[k]);
      if IsDigitString(line) && DecimalValue(line) <= MaxSample {
        numbers := numbers + [DecimalValue(line)];
      }
    }
    assert body[..|body|] == body;
  }

  /** `read_text_files` once the directory listing and the file reads are
      done: one entry per dump, in listing order, holding its samples. */
  method ReadTextFiles(files: seq<(string, seq<string>)>) returns (data: FileDict<seq<int>>)
    requires DistinctNames(files)
    ensures Names(data) == Names(files) && DistinctNames(data)
    ensures forall i :: 0 <= i < |data| ==> data[i].1 == FilterSamples(AfterHeader(files[i].1))
  {
    data := [];
    for i := 0 to |files|
      invariant |data| == i
      invariant forall j :: 0 <= j < i ==> data[j].0 == files[j].0
      invariant forall j :: 0 <= j < i ==> data[j].1 == FilterSamples(AfterHeader(files[j].1))
    {
      var (fileName, lines) := files[i];
      var numbers := ExtractSamples(lines);
      ghost var before := data;
      data := data + [(fileName, numbers)];
      assert forall j :: 0 <= j < i ==> data[j] == before[j];
    }
    assert forall j :: 0 <= j < |files| ==> Names(data)[j] == Names(files)[j];
  }

  /** Filtering is a homomorphism of concatenation: kept samples stay in
      line order and each line is judged on its own. */
  lemma {:induction false} FilterSamplesAppend(a: seq<string>, b: seq<string>)
    ensures FilterSamples(a + b) == FilterSamples(a) + FilterSamples(b)
    decreases |b|
  {
    if b == [] {
      assert a + b == a;
    } else {
      var b', last := b[..|b| - 1], b[|b| - 1];
      FilterSamplesAppend(a, b');
      assert (a + b)[..|a + b| - 1] == a + b' && (a + b)[|a + b| - 1] == last;
      var tail := if Accepts(last) then [SampleOf(last)] else [];
      assert FilterSamples(a + b) == FilterSamples(a + b') + tail;
      assert FilterSamples(b) == FilterSamples(b') + tail;
    }
  }

  /** A value is stored exactly when some examined line is accepted and
      carries it. */
  lemma {:induction false} FilterSamplesMember(lines: seq<string>, x: int)
    ensures x in FilterSamples(lines) <==>
            exists i :: 0 <= i < |lines| && Accepts(lines[i]) && SampleOf(lines[i]) == x
  {
    if x in FilterSamples(lines) {
      FilterSamplesSound(lines, x);
    }
    if exists i :: 0 <= i < |lines| && Accepts(lines[i]) && SampleOf(lines[i]) == x {
      var i :| 0 <= i < |lines| && Accepts(lines[i]) && SampleOf(lines[i]) == x;
      FilterSamplesComplete(lines, i);
    }
  }

  /** Every stored sample comes from an accepted line. */
  lemma {:induction false} FilterSamplesSound(lines: seq<string>, x: int)
    requires x in FilterSamples(lines)
    ensures exists i :: 0 <= i < |lines| && Accepts(lines[i]) && SampleOf(lines[i]) == x
    decreases |lines|
  {
    var init, last := lines[..|lines| - 1], lines[|lines| - 1];
    FilterSamplesLast(lines, x);
    if x in FilterSamples(init) {
      FilterSamplesSound(init, x);
      var i :| 0 <= i < |init| && Accepts(init[i]) && SampleOf(init[i]) == x;
      assert lines[i] == init[i];
    } else {
      assert Accepts(lines[|lines| - 1]) && SampleOf(lines[|lines| - 1]) == x;
    }
  }

  /** Every accepted line's sample is stored. */
  lemma {:induction false} FilterSamplesComplete(lines: seq<string>, i: nat)
    requires i < |lines| && Accepts(lines[i])
    ensures SampleOf(lines[i]) in FilterSamples(lines)
    decreases |lines|
  {
    var init := lines[..|lines| - 1];
    FilterSamplesLast(lines, SampleOf(lines[i]));
    if i < |init| {
      assert init[i] == lines[i];
      FilterSamplesComplete(init, i);
    }
  }

  /** A value is among the samples of some lines iff it is among those of
      all but the last line, or the last line is accepted with that value. */
  lemma {:induction false} FilterSamplesLast(lines: seq<string>, x: int)
    requires lines != []
    ensures var init, last := lines[..|lines| - 1], lines[|lines| - 1];
            x in FilterSamples(lines) <==>
            x in FilterSamples(init) || (Accepts(last) && SampleOf(last) == x)
  {
    var init, last := lines[..|lines| - 1], lines[|lines| - 1];
    if Accepts(last) {
      assert FilterSamples(lines) == FilterSamples(init) + [SampleOf(last)];
    }
  }

  /** The first five lines never reach the output, whatever they hold. */
  lemma {:induction false} HeaderIgnored(lines: seq<string>, lines': seq<string>)
    requires |lines| == |lines'| >= HeaderLines
    requires lines[HeaderLines..] == lines'[HeaderLines..]
    ensures FilterSamples(AfterHeader(lines)) == FilterSamples(AfterHeader(lines'))
  {
  }

  // ---------------------------------------------------------------------
  // Windowing (`split_data_into_arrays`)
  // ---------------------------------------------------------------------

  /** The windows of a sample list: consecutive, non-overlapping blocks of
      128 samples from the start; a shorter remainder yields no window. */
  function Windows(s: seq<int>): (ws: seq<seq<int>>)
    ensures |ws| == |s| / WindowSize
    ensures forall i :: 0 <= i < |ws| ==> |ws[i]| == WindowSize
    decreases |s|
  {
    if |s| < WindowSize then [] else [s[..WindowSize]] + Windows(s[WindowSize..])
  }

  /** Window `i` is the slice `s[128*i .. 128*(i+1)]`. */
  lemma {:induction false} WindowsAt(s: seq<int>, i: nat)
    requires i < |s| / WindowSize
    ensures Windows(s)[i] == s[WindowSize * i..WindowSize * (i + 1)]
    decreases i
  {
    if i > 0 {
      var rest := s[WindowSize..];
      assert Windows(s)[i] == Windows(rest)[i - 1];
      WindowsAt(rest, i - 1);
      var lo, hi := WindowSize * (i - 1), WindowSize * i;
      assert WindowSize + lo == WindowSize * i && WindowSize + hi == WindowSize * (i + 1);
      assert rest[lo..hi] == s[WindowSize + lo..WindowSize + hi];
    }
  }

  /** Flattening a list of lists, in order. Both scripts flatten: here the
      windows of a file, in `DataAnalysis.WaveletTransform` the coefficient
      bands of every row. */
  function Concat<T>(ws: seq<seq<T>>): seq<T> {
    if ws == [] then [] else ws[0] + Concat(ws[1..])
  }

  /** Concatenating a file's windows gives back exactly its first
      `128 * (len // 128)` samples; fewer than 128 samples are dropped. */
  lemma {:induction false} WindowsCoverPrefix(s: seq<int>)
    ensures Concat(Windows(s)) == s[..WindowSize * (|s| / WindowSize)]
    ensures |s| - |Concat(Windows(s))| < WindowSize
    decreases |s|
  {
    if |s| >= WindowSize {
      var rest := s[WindowSize..];
      WindowsCoverPrefix(rest);
      assert Windows(s)[1..] == Windows(rest);
      assert |rest| / WindowSize == |s| / WindowSize - 1;
      assert s[..WindowSize] + rest[..WindowSize * (|rest| / WindowSize)]
          == s[..WindowSize * (|s| / WindowSize)];
    }
  }

  /** The inner loop of `split_data_into_arrays`: slices
      `file_data[i*128:(i+1)*128]` for `i` in `range(len // 128)`. */
  method SplitFile(fileData: seq<int>) returns (windows: seq<seq<int>>)
    ensures windows == Windows(fileData)
  {
    var numArrays := |fileData| / WindowSize;
    windows := [];
    for i := 0 to numArrays
      invariant |windows| == i
      invariant forall j :: 0 <= j < i ==> windows[j] == fileData[j * WindowSize..(j + 1) * WindowSize]
    {
      var startIdx := i * WindowSize;
      var endIdx := (i + 1) * WindowSize;
      windows := windows + [fileData[startIdx..endIdx]];
    }
    forall j | 0 <= j < numArrays
      ensures windows[j] == Windows(fileData)[j]
    {
      WindowsAt(fileData, j);
    }
  }

  /** `split_data_into_arrays`: the same keys in the same order, each file's
      windows computed from that file's samples alone. */
  method SplitDataIntoArrays(data: FileDict<seq<int>>) returns (split: FileDict<seq<seq<int>>>)
    ensures Names(split) == Names(data)
    ensures forall i :: 0 <= i < |split| ==> split[i].1 == Windows(data[i].1)
  {
    split := [];
    for i := 0 to |data|
      invariant |split| == i
      invariant forall j :: 0 <= j < i ==> split[j].0 == data[j].0
      invariant forall j :: 0 <= j < i ==> split[j].1 == Windows(data[j].1)
    {
      var (fileName, fileData) := data[i];
      var windows := SplitFile(fileData);
      split := split + [(fileName, windows)];
    }
  }

  // ---------------------------------------------------------------------
  // Averaging (`calculate_element_averages`)
  // ---------------------------------------------------------------------

  /** What the averaging loop needs not to raise `IndexError`: at least one
      window (`sublists[0]`) and no window longer than the first. */
  predicate Averageable(ws: seq<seq<int>>) {
    |ws| > 0 && forall j :: 0 <= j < |ws| ==> |ws[j]| <= |ws[0]|
  }

  /** The sum of column `i` over the windows; a window too short for
      column `i` adds nothing to it. */
  function ColumnSum(ws: seq<seq<int>>, i: nat): (c: int)
    ensures (forall k :: 0 <= k < |ws| ==> |ws[k]| <= i) ==> c == 0
  {
    if ws == [] then 0
    else ColumnSum(ws[..|ws| - 1], i) + (if i < |ws[|ws| - 1]| then ws[|ws| - 1][i] else 0)
  }

  /** The element-wise mean of the windows: column sum over window count. */
  function Average(ws: seq<seq<int>>): (avg: seq<real>)
    requires Averageable(ws)
    ensures |avg| == |ws[0]|
  {
    seq(|ws[0]|, i requires 0 <= i < |ws[0]| => ColumnSum(ws, i) as real / |ws| as real)
  }

  /** The per-file body of `calculate_element_averages`: running sums in a
      buffer of `len(sublists[0])` zeros, then one division pass. */
  method AverageFile(sublists: seq<seq<int>>) returns (averages: seq<real>)
    requires Averageable(sublists)
    ensures averages == Average(sublists)
  {
    var numElements := |sublists[0]|;
    var sums := new int[numElements](_ => 0);
    for j := 0 to |sublists|
      invariant forall k :: 0 <= k < numElements ==> sums[k] == ColumnSum(sublists[..j], k)
    {
      var sublist := sublists[j];
      assert sublists[..j + 1][..j] == sublists[..j];
      for i := 0 to |sublist|
        invariant forall k :: 0 <= k < i ==> sums[k] == ColumnSum(sublists[..j + 1], k)
        invariant forall k :: i <= k < numElements ==> sums[k] == ColumnSum(sublists[..j], k)
      {
        sums[i] := sums[i] + sublist[i];
      }
    }
    assert sublists[..|sublists|] == sublists;
    averages := seq(numElements, k requires 0 <= k < numElements reads sums =>
                                  sums[k] as real / |sublists| as real);
  }

  /** The error `calculate_element_averages` raises, with the file it was
      working on. */
  datatype AverageError = IndexError(fileName: string)

  /** `calculate_element_averages`: one profile per file in key order, or
      the `IndexError` of the first file that has no window or a window
      longer than its first. */
  method CalculateElementAverages(split: FileDict<seq<seq<int>>>)
    returns (r: Result<FileDict<seq<real>>, AverageError>)
    ensures r.Success? <==> forall i :: 0 <= i < |split| ==> Averageable(split[i].1)
    ensures r.Success? ==> Names(r.value) == Names(split)
    ensures r.Success? ==> forall i :: 0 <= i < |split| ==> r.value[i].1 == Average(split[i].1)
    ensures r.Failure? ==> exists i :: 0 <= i < |split| && !Averageable(split[i].1)
                                       && r.error == IndexError(split[i].0)
                                       && forall j :: 0 <= j < i ==> Averageable(split[j].1)
  {
    var averages: FileDict<seq<real>> := [];
    for i := 0 to |split|
      invariant |averages| == i
      invariant forall j :: 0 <= j < i ==> Averageable(split[j].1)
      invariant forall j :: 0 <= j < i ==> averages[j].0 == split[j].0
      invariant forall j :: 0 <= j < i ==> averages[j].1 == Average(split[j].1)
    {
      var (fileName, sublists) := split[i];
      if !Averageable(sublists) {
        return Failure(IndexError(fileName));
      }
      var profile := AverageFile(sublists);
      averages := averages + [(fileName, profile)];
    }
    r := Success(averages);
  }

  /** A file can be averaged exactly when it holds at least one full window,
      and then its profile has exactly 128 elements. */
  lemma {:induction false} WindowsAverageable(s: seq<int>)
    ensures Averageable(Windows(s)) <==> |s| >= WindowSize
    ensures |s| >= WindowSize ==> |Average(Windows(s))| == WindowSize
  {
  }

  /** Each column sum over `k` copies of one window is `k` times its entry. */
  lemma {:induction false} ColumnSumRepeat(w: seq<int>, k: nat, i: nat)
    requires i < |w|
    ensures ColumnSum(seq(k, _ => w), i) == k * w[i]
    decreases k
  {
    if k > 0 {
      assert seq(k, _ => w)[..k - 1] == seq(k - 1, _ => w);
      ColumnSumRepeat(w, k - 1, i);
    }
  }

  /** Averaging `k >= 1` identical windows returns that window. */
  lemma {:induction false} AverageOfIdenticalWindows(w: seq<int>, k: nat)
    requires k >= 1
    ensures Averageable(seq(k, _ => w))
    ensures Average(seq(k, _ => w)) == seq(|w|, i requires 0 <= i < |w| => w[i] as real)
  {
    var ws := seq(k, _ => w);
    assert |ws| == k && ws[0] == w;
    forall i | 0 <= i < |w|
      ensures Average(ws)[i] == w[i] as real
    {
      ColumnSumRepeat(w, k, i);
      var c := ColumnSum(ws, i);
      assert Average(ws)[i] == c as real / k as real;
      ScaledQuotient(k, w[i]);
    }
  }

  /** `k * x` shared out over `k` parts gives `x` back. */
  lemma {:induction false} ScaledQuotient(k: nat, x: int)
    requires k >= 1
    ensures (k * x) as real / k as real == x as real
  {
    assert (k * x) as real == k as real * x as real;
  }

  /** Each column sum lies between zero and `|ws|` times the largest sample. */
  lemma {:induction false} ColumnSumBounds(ws: seq<seq<int>>, i: nat)
    requires forall j, k :: 0 <= j < |ws| && 0 <= k < |ws[j]| ==> 0 <= ws[j][k] <= MaxSample
    ensures 0 <= ColumnSum(ws, i) <= |ws| * MaxSample
    decreases |ws|
  {
    if ws != [] {
      ColumnSumBounds(ws[..|ws| - 1], i);
    }
  }

  /** Averages of samples in `[0, 4095]` stay in `[0, 4095]`. */
  lemma {:induction false} AverageWithinSampleRange(ws: seq<seq<int>>)
    requires Averageable(ws)
    requires forall j, k :: 0 <= j < |ws| && 0 <= k < |ws[j]| ==> 0 <= ws[j][k] <= MaxSample
    ensures forall i :: 0 <= i < |ws[0]| ==> 0.0 <= Average(ws)[i] <= MaxSample as real
  {
    forall i | 0 <= i < |ws[0]|
      ensures 0.0 <= Average(ws)[i] <= MaxSample as real
    {
      ColumnSumBounds(ws, i);
      var c, n := ColumnSum(ws, i) as real, |ws| as real;
      assert c <= n * MaxSample as real;
      assert c / n <= MaxSample as real;
    }
  }

  // ---------------------------------------------------------------------
  // Output row (`write_averages_to_file`)
  // ---------------------------------------------------------------------

  /** Python's `str(list)` over the rendered elements: brackets around the
      elements joined by `", "`. */
  function FormatRow(toks: seq<string>): (line: string)
    ensures |line| >= 2 && line[0] == '[' && line[|line| - 1] == ']'
    ensures line[1..|line| - 1] == Join(Sep, toks)
  {
    "[" + Join(Sep, toks) + "]"
  }

  /** The element texts of one profile; `render` stands for Python's `str`
      of one float. */
  function RenderRow(profile: seq<real>, render: real -> string): (toks: seq<string>)
    ensures |toks| == |profile|
    ensures forall k :: 0 <= k < |profile| ==> toks[k] == render(profile[k])
  {
    seq(|profile|, k requires 0 <= k < |profile| => render(profile[k]))
  }

  /** The lines of the sanitised file: one `str(profile)` line per file, in
      key order. */
  function SanitisedLines(averages: FileDict<seq<real>>, render: real -> string): (lines: seq<string>)
    ensures |lines| == |averages|
    ensures forall i :: 0 <= i < |averages| ==> lines[i] == FormatRow(RenderRow(averages[i].1, render)) + "\n"
  {
    seq(|averages|, i requires 0 <= i < |averages| => FormatRow(RenderRow(averages[i].1, render)) + "\n")
  }
}
