/** The analysis script's own logic: reading the sanitised file back,
    min-max normalisation, the enumeration of (theoretical, experimental)
    pairs that every pairwise comparator shares, and the reshaping around
    k-means and the Kolmogorov-Smirnov test. The statistics themselves are
    library calls and appear here as function parameters. */
module DataAnalysis {
  import opened Results
  import opened Text
  import GenerateSanitisedData

  /** One signal: a list of floats. */
  type Row = seq<real>

  // ---------------------------------------------------------------------
  // Reading the sanitised file (`import_sanitised_data`)
  // ---------------------------------------------------------------------

  /** The tokens of one line: `line.strip().strip("[]").split(", ")`. */
  function ParseLine(line: string): (toks: seq<string>)
    ensures |toks| >= 1
  {
    Split(StripBrackets(Strip(line)), Sep)
  }

  /** The first token does not start, and the last token does not end, with
      a bracket character (which `strip("[]")` would eat). */
  predicate NoBracketAtEnds(toks: seq<string>)
    requires |toks| >= 1
  {
    var first, last := toks[0], toks[|toks| - 1];
    && (first == [] || !IsBracket(first[0]))
    && (last == [] || !IsBracket(last[|last| - 1]))
  }

  /** The ends of `", ".join(toks)`: empty only for a single empty token,
      otherwise free of brackets when the tokens are. */
  lemma {:induction false} JoinEnds(toks: seq<string>)
    requires |toks| >= 1 && NoBracketAtEnds(toks)
    ensures var j := Join(Sep, toks);
            && (j == [] ==> toks == [""])
            && (j != [] ==> !IsBracket(j[0]) && !IsBracket(j[|j| - 1]))
  {
    var j := Join(Sep, toks);
    if |toks| >= 2 {
      JoinLast(Sep, toks);
      var init := Join(Sep, toks[..|toks| - 1]);
      assert j == init + Sep + toks[|toks| - 1];
      assert j == toks[0] + Sep + Join(Sep, toks[1..]);
      assert j[0] == if toks[0] == [] then Sep[0] else toks[0][0];
    }
  }

  /** Python's `str.strip()` leaves a line that starts with `[` and ends with
      `]` and a newline with the newline removed. */
  lemma {:induction false} StripWrittenLine(body: string)
    ensures Strip("[" + body + "]" + "\n") == "[" + body + "]"
  {
    var row := "[" + body + "]";
    var line := row + "\n";
    assert TrimLeft(line, IsSpace) == line;
    assert line[..|line| - 1] == row;
    assert TrimRight(line, IsSpace) == TrimRight(row, IsSpace);
  }

  /** Stripping brackets from `"[" + j + "]"` gives `j` back when `j` does
      not start or end with a bracket. */
  lemma {:induction false} StripBracketsOfRow(j: string)
    requires j != [] ==> !IsBracket(j[0]) && !IsBracket(j[|j| - 1])
    ensures StripBrackets("[" + j + "]") == j
  {
    var row := "[" + j + "]";
    assert row[1..] == j + "]";
    assert TrimLeft(row, IsBracket) == TrimLeft(j + "]", IsBracket);
    if j == [] {
      assert TrimLeft("]", IsBracket) == TrimLeft("", IsBracket);
    } else {
      assert (j + "]")[0] == j[0];
      assert (j + "]")[..|j|] == j;
      assert TrimRight(j + "]", IsBracket) == TrimRight(j, IsBracket);
    }
  }

  /** The writer/reader pair: a line written as `str(list) + "\n"` from one
      or more element texts parses back to exactly those texts, whenever no
      element text holds `", "` and the outer ones do not touch the
      brackets. */
  lemma {:induction false} RowRoundTrip(toks: seq<string>)
    requires |toks| >= 1
    requires forall k :: 0 <= k < |toks| ==> NoSep(toks[k])
    requires NoBracketAtEnds(toks)
    ensures ParseLine(GenerateSanitisedData.FormatRow(toks) + "\n") == toks
  {
    var j := Join(Sep, toks);
    assert GenerateSanitisedData.FormatRow(toks) + "\n" == "[" + j + "]" + "\n";
    StripWrittenLine(j);
    JoinEnds(toks);
    StripBracketsOfRow(j);
    JoinThenSplit(toks);
  }

  /** Python's `[float(e) for e in elements]`: `None` when some element
      raises `ValueError`. */
  function ConvertRow(toks: seq<string>, toFloat: string -> Option<real>): (r: Option<Row>)
    ensures r.Some? <==> forall k :: 0 <= k < |toks| ==> toFloat(toks[k]).Some?
    ensures r.Some? ==> |r.value| == |toks|
    ensures r.Some? ==> forall k :: 0 <= k < |toks| ==> r.value[k] == toFloat(toks[k]).value
    decreases |toks|
  {
    if toks == [] then Some([])
    else
      match toFloat(toks[0])
      case None => None
      case Some(x) =>
        match ConvertRow(toks[1..], toFloat)
        case None => None
        case Some(xs) => Some([x] + xs)
  }

  /** The error `import_sanitised_data` raises, with the index of the line. */
  datatype ImportError = ValueError(line: nat)

  /** The parse loop of `import_sanitised_data` over the lines `readlines`
      returned: one row per line, in order, or the `ValueError` of the first
      line holding an element `float` rejects. */
  method ImportSanitisedData(lines: seq<string>, toFloat: string -> Option<real>)
    returns (r: Result<seq<Row>, ImportError>)
    ensures r.Success? <==> forall i :: 0 <= i < |lines| ==> ConvertRow(ParseLine(lines[i]), toFloat).Some?
    ensures r.Success? ==> |r.value| == |lines|
    ensures r.Success? ==> forall i :: 0 <= i < |lines| ==>
              r.value[i] == ConvertRow(ParseLine(lines[i]), toFloat).value
    ensures r.Failure? ==> r.error.line < |lines|
                           && ConvertRow(ParseLine(lines[r.error.line]), toFloat).None?
                           && forall j :: 0 <= j < r.error.line ==> ConvertRow(ParseLine(lines[j]), toFloat).Some?
  {
    ghost var rows := seq(|lines|, j requires 0 <= j < |lines| => ConvertRow(ParseLine(lines[j]), toFloat));
    assert forall j :: 0 <= j < |lines| ==> rows[j] == ConvertRow(ParseLine(lines[j]), toFloat);
    var data: seq<Row> := [];
    for i := 0 to |lines|
      invariant |data| == i
      invariant forall j :: 0 <= j < i ==> rows[j].Some? && data[j] == rows[j].value
    {
      var elements := ParseLine(lines[i]);
      var row := ConvertRow(elements, toFloat);
      assert row == rows[i];
      if row.None? {
        return Failure(ValueError(i));
      }
      data := data + [row.value];
    }
    return Success(data);
  }

  /** Reading back the written element texts gives the profile, when the
      text written for each of its values reads back as that value. */
  lemma {:induction false} ConvertRendered(p: Row, render: real -> string, toFloat: string -> Option<real>)
    requires forall k :: 0 <= k < |p| ==> toFloat(render(p[k])) == Some(p[k])
    ensures ConvertRow(GenerateSanitisedData.RenderRow(p, render), toFloat) == Some(p)
  {
    var toks := GenerateSanitisedData.RenderRow(p, render);
    forall k | 0 <= k < |toks|
      ensures toFloat(toks[k]) == Some(p[k])
    {
      var x := p[k];
      assert toks[k] == render(x);
    }
    var v := ConvertRow(toks, toFloat).value;
    assert v == p;
  }

  /** End to end: the file the preprocessing script writes is read back as
      one row per file, in key order, equal to that file's profile, provided
      no profile is empty and the text written for each of its values reads
      back as that value and holds neither `", "` nor a bracket at either end. */
  lemma {:induction false} SanitisedFileRoundTrip(averages: GenerateSanitisedData.FileDict<Row>,
                               render: real -> string, toFloat: string -> Option<real>)
    requires forall i :: 0 <= i < |averages| ==> |averages[i].1| >= 1
    requires forall i, k :: 0 <= i < |averages| && 0 <= k < |averages[i].1| ==>
               var x := averages[i].1[k];
               && NoSep(render(x)) && render(x) != []
               && !IsBracket(render(x)[0]) && !IsBracket(render(x)[|render(x)| - 1])
               && toFloat(render(x)) == Some(x)
    ensures var lines := GenerateSanitisedData.SanitisedLines(averages, render);
            forall i :: 0 <= i < |lines| ==> ConvertRow(ParseLine(lines[i]), toFloat) == Some(averages[i].1)
  {
    var lines := GenerateSanitisedData.SanitisedLines(averages, render);
    forall i | 0 <= i < |lines|
      ensures ConvertRow(ParseLine(lines[i]), toFloat) == Some(averages[i].1)
    {
      var p := averages[i].1;
      assert forall k :: 0 <= k < |p| ==> toFloat(render(p[k])) == Some(p[k]);
      var toks := GenerateSanitisedData.RenderRow(p, render);
      assert lines[i] == GenerateSanitisedData.FormatRow(toks) + "\n";
      forall k | 0 <= k < |toks|
        ensures NoSep(toks[k]) && toks[k] != []
        ensures !IsBracket(toks[k][0]) && !IsBracket(toks[k][|toks[k]| - 1])
      {
        var x := p[k];
        assert toks[k] == render(x);
        assert NoSep(render(x)) && render(x) != [];
      }
      RowRoundTrip(toks);
      ConvertRendered(p, render, toFloat);
    }
  }

  // ---------------------------------------------------------------------
  // Min-max normalisation (`normalize_data`)
  // ---------------------------------------------------------------------

  /** Python's `min` of a non-empty list. */
  function Min(s: Row): (m: real)
    requires |s| > 0
    ensures exists i :: 0 <= i < |s| && s[i] == m
    ensures forall i :: 0 <= i < |s| ==> m <= s[i]
  {
    if |s| == 1 then s[0]
    else
      var m := Min(s[1..]);
      assert forall i :: 1 <= i < |s| ==> s[1..][i - 1] == s[i];
      if s[0] <= m then s[0] else m
  }

  /** Python's `max` of a non-empty list. */
  function Max(s: Row): (m: real)
    requires |s| > 0
    ensures exists i :: 0 <= i < |s| && s[i] == m
    ensures forall i :: 0 <= i < |s| ==> s[i] <= m
  {
    if |s| == 1 then s[0]
    else
      var m := Max(s[1..]);
      assert forall i :: 1 <= i < |s| ==> s[1..][i - 1] == s[i];
      if m <= s[0] then s[0] else m
  }

  /** Rows `normalize_data` handles without raising: non-empty (`min`
      raises on an empty list) and not constant (division by zero). */
  predicate Normalisable(arr: Row) {
    |arr| > 0 && Min(arr) != Max(arr)
  }

  /** The comprehension `[(x - min) / (max - min) for x in arr]`. */
  function NormalizeRow(arr: Row): (r: Row)
    requires Normalisable(arr)
    ensures |r| == |arr|
    ensures forall i :: 0 <= i < |arr| ==> 0.0 <= r[i] <= 1.0
    ensures forall i :: 0 <= i < |arr| ==> (r[i] == 0.0 <==> arr[i] == Min(arr))
    ensures forall i :: 0 <= i < |arr| ==> (r[i] == 1.0 <==> arr[i] == Max(arr))
  {
    var mn, mx := Min(arr), Max(arr);
    var r := seq(|arr|, i requires 0 <= i < |arr| => (arr[i] - mn) / (mx - mn));
    assert forall i :: 0 <= i < |arr| ==> r[i] == (arr[i] - mn) / (mx - mn);
    forall i | 0 <= i < |arr|
      ensures 0.0 <= r[i] <= 1.0
      ensures r[i] == 0.0 <==> arr[i] == mn
      ensures r[i] == 1.0 <==> arr[i] == mx
    {
      ScaleBounds(arr[i], mn, mx);
    }
    r
  }

  /** `(x - lo) / (hi - lo)` lies in `[0, 1]`, is 0 exactly at `lo` and 1
      exactly at `hi`. */
  lemma {:induction false} ScaleBounds(x: real, lo: real, hi: real)
    requires lo <= x <= hi && lo < hi
    ensures var y := (x - lo) / (hi - lo);
            0.0 <= y <= 1.0 && (y == 0.0 <==> x == lo) && (y == 1.0 <==> x == hi)
  {
    var d, y := hi - lo, (x - lo) / (hi - lo);
    assert y * d == x - lo;
  }

  /** Dividing by a positive number keeps the order of the dividends. */
  lemma {:induction false} DivideMonotone(a: real, b: real, d: real)
    requires d > 0.0
    ensures a <= b <==> a / d <= b / d
  {
    assert (a / d) * d == a && (b / d) * d == b;
    if a / d <= b / d {
      assert (a / d) * d <= (b / d) * d;
    }
  }

  /** The row's order is kept: normalisation is strictly increasing. */
  lemma {:induction false} NormalizeMonotone(arr: Row, i: nat, j: nat)
    requires Normalisable(arr) && i < |arr| && j < |arr|
    ensures arr[i] <= arr[j] <==> NormalizeRow(arr)[i] <= NormalizeRow(arr)[j]
  {
    var mn, mx := Min(arr), Max(arr);
    var r := NormalizeRow(arr);
    assert r[i] == (arr[i] - mn) / (mx - mn) && r[j] == (arr[j] - mn) / (mx - mn);
    DivideMonotone(arr[i] - mn, arr[j] - mn, mx - mn);
  }

  /** Normalising an already normalised row returns it unchanged. */
  lemma {:induction false} NormalizeIdempotent(arr: Row)
    requires Normalisable(arr)
    ensures Normalisable(NormalizeRow(arr))
    ensures NormalizeRow(NormalizeRow(arr)) == NormalizeRow(arr)
  {
    var r := NormalizeRow(arr);
    NormalizedExtremes(arr);
    var r2 := NormalizeRow(r);
    forall i | 0 <= i < |r|
      ensures r2[i] == r[i]
    {
      assert r2[i] == (r[i] - 0.0) / (1.0 - 0.0);
    }
  }

  /** A normalised row has minimum 0 and maximum 1. */
  lemma {:induction false} NormalizedExtremes(arr: Row)
    requires Normalisable(arr)
    ensures Min(NormalizeRow(arr)) == 0.0 && Max(NormalizeRow(arr)) == 1.0
  {
    var r := NormalizeRow(arr);
    var iMin :| 0 <= iMin < |arr| && arr[iMin] == Min(arr);
    var iMax :| 0 <= iMax < |arr| && arr[iMax] == Max(arr);
    assert r[iMin] == 0.0 && r[iMax] == 1.0;
    assert Min(r) <= r[iMin];
    assert r[iMax] <= Max(r);
  }


  /** The errors `normalize_data` raises, with the index of the row:
      `ValueError` from `min` of an empty row, `ZeroDivisionError` from a
      constant one. */
  datatype NormalizeError = EmptyRow(row: nat) | ConstantRow(row: nat)

  /** `normalize_data`: every row normalised, in order, or the error of the
      first row that cannot be. */
  method NormalizeData(data: seq<Row>) returns (r: Result<seq<Row>, NormalizeError>)
    ensures r.Success? <==> forall i :: 0 <= i < |data| ==> Normalisable(data[i])
    ensures r.Success? ==> |r.value| == |data|
    ensures r.Success? ==> forall i :: 0 <= i < |data| ==>
              |r.value[i]| == |data[i]| && r.value[i] == NormalizeRow(data[i])
    ensures r.Failure? ==> r.error.row < |data| && !Normalisable(data[r.error.row])
                           && (r.error.EmptyRow? <==> |data[r.error.row]| == 0)
                           && forall j :: 0 <= j < r.error.row ==> Normalisable(data[j])
  {
    var normalizedData: seq<Row> := [];
    for i := 0 to |data|
      invariant |normalizedData| == i
      invariant forall j :: 0 <= j < i ==> Normalisable(data[j])
      invariant forall j :: 0 <= j < i ==> normalizedData[j] == NormalizeRow(data[j])
    {
      var arr := data[i];
      if |arr| == 0 {
        return Failure(EmptyRow(i));
      }
      var minValue := Min(arr);
      var maxValue := Max(arr);
      if maxValue - minValue == 0.0 {
        return Failure(ConstantRow(i));
      }
      var normalizedArray := seq(|arr|, k requires 0 <= k < |arr| => (arr[k] - minValue) / (maxValue - minValue));
      assert normalizedArray == NormalizeRow(arr);
      ghost var before := normalizedData;
      normalizedData := normalizedData + [normalizedArray];
      assert forall j :: 0 <= j < i ==> normalizedData[j] == before[j];
    }
    return Success(normalizedData);
  }

  // ---------------------------------------------------------------------
  // Pair enumeration shared by the pairwise comparators
  // ---------------------------------------------------------------------

  /** The results for one theoretical signal against every experimental one. */
  function PairsWith<X, R>(t: X, experimental: seq<X>, measure: (X, X) -> R): (rs: seq<R>)
    ensures |rs| == |experimental|
    ensures forall e :: 0 <= e < |experimental| ==> rs[e] == measure(t, experimental[e])
  {
    seq(|experimental|, e requires 0 <= e < |experimental| => measure(t, experimental[e]))
  }

  /** The result list of a pairwise comparator: theoretical outer,
      experimental inner, one result per pair. */
  function AllPairs<X, R>(theoretical: seq<X>, experimental: seq<X>, measure: (X, X) -> R): (rs: seq<R>)
    ensures |rs| == |theoretical| * |experimental|
  {
    if theoretical == [] then []
    else AllPairs(theoretical[..|theoretical| - 1], experimental, measure)
         + PairsWith(theoretical[|theoretical| - 1], experimental, measure)
  }

  /** Where the result for pair `(t, e)` lands when there are `m`
      experimental signals. */
  function PairIndex(t: nat, e: nat, m: nat): nat {
    t * m + e
  }

  /** `a * n + b < c * n` when `a < c` and `b < n`. */
  lemma {:induction false} RowOffsetBelow(a: nat, b: nat, c: nat, n: nat)
    requires a < c && b < n
    ensures a * n + b < c * n
  {
    assert (a + 1) * n <= c * n;
  }

  /** Result `t * |E| + e` is the measure of `(T[t], E[e])`. */
  lemma {:induction false} AllPairsIndex<X, R>(theoretical: seq<X>, experimental: seq<X>, measure: (X, X) -> R,
                                               t: nat, e: nat)
    requires t < |theoretical| && e < |experimental|
    ensures PairIndex(t, e, |experimental|) < |AllPairs(theoretical, experimental, measure)|
    ensures AllPairs(theoretical, experimental, measure)[PairIndex(t, e, |experimental|)]
            == measure(theoretical[t], experimental[e])
    decreases |theoretical|
  {
    var n, m := |theoretical| - 1, |experimental|;
    var init := theoretical[..n];
    var before := AllPairs(init, experimental, measure);
    var row := PairsWith(theoretical[n], experimental, measure);
    assert AllPairs(theoretical, experimental, measure) == before + row;
    RowOffsetBelow(t, e, n + 1, m);
    if t < n {
      AllPairsIndex(init, experimental, measure, t, e);
      assert init[t] == theoretical[t];
    } else {
      assert |before| == t * m;
    }
  }

  /** Every pair has its place: theoretical-major, experimental-minor. */
  lemma {:induction false} AllPairsLayout<X, R>(theoretical: seq<X>, experimental: seq<X>, measure: (X, X) -> R)
    ensures forall t, e :: 0 <= t < |theoretical| && 0 <= e < |experimental| ==>
              PairIndex(t, e, |experimental|) < |AllPairs(theoretical, experimental, measure)|
              && AllPairs(theoretical, experimental, measure)[PairIndex(t, e, |experimental|)]
                 == measure(theoretical[t], experimental[e])
  {
    forall t, e | 0 <= t < |theoretical| && 0 <= e < |experimental|
      ensures PairIndex(t, e, |experimental|) < |AllPairs(theoretical, experimental, measure)|
      ensures AllPairs(theoretical, experimental, measure)[PairIndex(t, e, |experimental|)]
              == measure(theoretical[t], experimental[e])
    {
      AllPairsIndex(theoretical, experimental, measure, t, e);
    }
  }

  /** The row and column of a flat index `k < c * n`. */
  lemma {:induction false} DivModBelow(k: nat, c: nat, n: nat)
    requires k < c * n
    ensures n > 0 && k / n < c && k % n < n && k == PairIndex(k / n, k % n, n)
  {
  }

  /** Conversely, result `k` is the measure of `(T[k / |E|], E[k % |E|])`. */
  lemma {:induction false} AllPairsAt<X, R>(theoretical: seq<X>, experimental: seq<X>, measure: (X, X) -> R, k: nat)
    requires k < |theoretical| * |experimental|
    ensures |experimental| > 0 && k / |experimental| < |theoretical|
    ensures AllPairs(theoretical, experimental, measure)[k]
            == measure(theoretical[k / |experimental|], experimental[k % |experimental|])
  {
    var m := |experimental|;
    DivModBelow(k, |theoretical|, m);
    var t, e := k / m, k % m;
    AllPairsIndex(theoretical, experimental, measure, t, e);
  }

  /** The nested loops every pairwise comparator runs: one result appended
      per (theoretical, experimental) pair. */
  method Pairwise<X, R>(theoretical: seq<X>, experimental: seq<X>, measure: (X, X) -> R)
    returns (results: seq<R>)
    ensures results == AllPairs(theoretical, experimental, measure)
    ensures |results| == |theoretical| * |experimental|
    ensures forall t, e :: 0 <= t < |theoretical| && 0 <= e < |experimental| ==>
              PairIndex(t, e, |experimental|) < |results|
              && results[PairIndex(t, e, |experimental|)] == measure(theoretical[t], experimental[e])
  {
    results := [];
    for t := 0 to |theoretical|
      invariant results == AllPairs(theoretical[..t], experimental, measure)
    {
      var theoreticalArray := theoretical[t];
      ghost var before := results;
      for e := 0 to |experimental|
        invariant results == before + PairsWith(theoreticalArray, experimental[..e], measure)
      {
        var experimentalArray := experimental[e];
        assert experimental[..e + 1] == experimental[..e] + [experimentalArray];
        results := results + [measure(theoreticalArray, experimentalArray)];
      }
      assert experimental[..|experimental|] == experimental;
      assert theoretical[..t + 1][..t] == theoretical[..t];
    }
    assert theoretical[..|theoretical|] == theoretical;
    AllPairsLayout(theoretical, experimental, measure);
  }

  /** `coherence`: per pair, the mean magnitude-squared coherence
      (`meanCoherence` stands for the `signal.csd` calls and the mean). */
  method Coherence(theoretical: seq<Row>, experimental: seq<Row>, meanCoherence: (Row, Row) -> real)
    returns (coherences: seq<real>)
    ensures coherences == AllPairs(theoretical, experimental, meanCoherence)
  {
    coherences := Pairwise(theoretical, experimental, meanCoherence);
  }

  /** `cross_correlation`: per pair, the full cross-correlation sequence
      (`correlate` stands for `signal.correlate(..., mode="full")`). */
  method CrossCorrelation(theoretical: seq<Row>, experimental: seq<Row>, correlate: (Row, Row) -> Row)
    returns (crossCorrelations: seq<Row>)
    ensures crossCorrelations == AllPairs(theoretical, experimental, correlate)
  {
    crossCorrelations := Pairwise(theoretical, experimental, correlate);
  }

  /** `dynamic_time_warping`: per pair, the Euclidean distance
      (`euclidean` stands for `scipy.spatial.distance.euclidean`). */
  method DynamicTimeWarping(theoretical: seq<Row>, experimental: seq<Row>, euclidean: (Row, Row) -> real)
    returns (dtwResults: seq<real>)
    ensures dtwResults == AllPairs(theoretical, experimental, euclidean)
  {
    dtwResults := Pairwise(theoretical, experimental, euclidean);
  }

  // ---------------------------------------------------------------------
  // Wavelet transform (`wavelet_transform`)
  // ---------------------------------------------------------------------

  /** The coefficient bands the wavelet decomposition gives for each row, in
      row order. */
  function Bands(data: seq<Row>, wavedec: Row -> seq<Row>): seq<seq<Row>> {
    seq(|data|, r requires 0 <= r < |data| => wavedec(data[r]))
  }

  /** The per-row loop: each row's bands are appended to the results, and
      after every row the results so far are flattened into one list of
      bands; the list left after the last row is the one written. */
  method WaveletTransform(data: seq<Row>, wavedec: Row -> seq<Row>) returns (formatted: seq<Row>)
    ensures formatted == GenerateSanitisedData.Concat(Bands(data, wavedec))
  {
    var waveletResults: seq<seq<Row>> := [];
    formatted := [];
    for r := 0 to |data|
      invariant waveletResults == Bands(data[..r], wavedec)
      invariant formatted == GenerateSanitisedData.Concat(waveletResults)
    {
      var coeffs := wavedec(data[r]);
      waveletResults := waveletResults + [coeffs];
      assert waveletResults == Bands(data[..r + 1], wavedec);
      var flattened := GenerateSanitisedData.Concat(waveletResults);
      formatted := flattened;
    }
    assert data[..|data|] == data;
  }

  /** Flattening lists of exactly two bands gives two entries per list:
      list `r`'s bands at `2r` and `2r + 1`. */
  lemma {:induction false} TwoBandLayout<T>(bs: seq<seq<T>>)
    requires forall r :: 0 <= r < |bs| ==> |bs[r]| == 2
    ensures |GenerateSanitisedData.Concat(bs)| == 2 * |bs|
    ensures forall r :: 0 <= r < |bs| ==>
              GenerateSanitisedData.Concat(bs)[2 * r] == bs[r][0]
              && GenerateSanitisedData.Concat(bs)[2 * r + 1] == bs[r][1]
    decreases |bs|
  {
    if bs != [] {
      var rest := bs[1..];
      TwoBandLayout(rest);
      var flat := GenerateSanitisedData.Concat(bs);
      assert flat == bs[0] + GenerateSanitisedData.Concat(rest);
      forall r | 1 <= r < |bs|
        ensures flat[2 * r] == bs[r][0] && flat[2 * r + 1] == bs[r][1]
      {
        assert rest[r - 1] == bs[r];
      }
    }
  }

  /** At level 1 the Haar decomposition gives each row two bands, the
      approximation and the detail: the written list then holds two bands
      per row, row `r`'s at `2r` and `2r + 1`, not one line per row. */
  lemma {:induction false} WaveletLevelOne(data: seq<Row>, wavedec: Row -> seq<Row>)
    requires forall r :: 0 <= r < |data| ==> |wavedec(data[r])| == 2
    ensures var flat := GenerateSanitisedData.Concat(Bands(data, wavedec));
            && |flat| == 2 * |data|
            && forall r :: 0 <= r < |data| ==>
                 flat[2 * r] == wavedec(data[r])[0] && flat[2 * r + 1] == wavedec(data[r])[1]
  {
    var bs := Bands(data, wavedec);
    TwoBandLayout(bs);
    assert forall r :: 0 <= r < |data| ==> bs[r] == wavedec(data[r]);
  }

  // ---------------------------------------------------------------------
  // Reshaping: Kolmogorov-Smirnov results and k-means input
  // ---------------------------------------------------------------------

  /** `[[s, p] for s, p in ks_results]`. */
  function FormatKs(ksResults: seq<(real, real)>): (rows: seq<Row>)
    ensures |rows| == |ksResults|
    ensures forall i :: 0 <= i < |rows| ==> rows[i] == [ksResults[i].0, ksResults[i].1]
  {
    seq(|ksResults|, i requires 0 <= i < |ksResults| => [ksResults[i].0, ksResults[i].1])
  }

  /** Reading a formatted row back as a `(statistic, p-value)` pair. */
  function KsPair(row: Row): (real, real)
    requires |row| == 2
  {
    (row[0], row[1])
  }

  /** Formatting loses nothing: every row has two entries and reads back
      as the pair it came from, in the same position. */
  lemma {:induction false} FormatKsRoundTrip(ksResults: seq<(real, real)>)
    ensures var rows := FormatKs(ksResults);
            && (forall i :: 0 <= i < |rows| ==> |rows[i]| == 2)
            && seq(|rows|, i requires 0 <= i < |rows| => KsPair(rows[i])) == ksResults
  {
  }

  /** `kolmogorov_smirnov_test`: per pair, `[statistic, p-value]`
      (`ks2samp` stands for `scipy.stats.ks_2samp`). */
  method KolmogorovSmirnovTest(theoretical: seq<Row>, experimental: seq<Row>, ks2samp: (Row, Row) -> (real, real))
    returns (ksResultsFormatted: seq<Row>)
    ensures |ksResultsFormatted| == |theoretical| * |experimental|
    ensures forall t, e :: 0 <= t < |theoretical| && 0 <= e < |experimental| ==>
              PairIndex(t, e, |experimental|) < |ksResultsFormatted|
              && ksResultsFormatted[PairIndex(t, e, |experimental|)]
              == [ks2samp(theoretical[t], experimental[e]).0, ks2samp(theoretical[t], experimental[e]).1]
  {
    var ksResults := Pairwise(theoretical, experimental, ks2samp);
    ksResultsFormatted := FormatKs(ksResults);
    var m := |experimental|;
    forall t, e | 0 <= t < |theoretical| && 0 <= e < m
      ensures PairIndex(t, e, m) < |ksResultsFormatted|
      ensures ksResultsFormatted[PairIndex(t, e, m)]
              == [ks2samp(theoretical[t], experimental[e]).0, ks2samp(theoretical[t], experimental[e]).1]
    {
      assert ksResults[PairIndex(t, e, m)] == ks2samp(theoretical[t], experimental[e]);
    }
  }

  /** The cluster count `kmeans_clustering` asks for. */
  const NumClusters: nat := 2

  /** `theoretical_data + experimental_data`: the theoretical rows, then
      the experimental rows. */
  function CombinedData(theoretical: seq<Row>, experimental: seq<Row>): (combined: seq<Row>)
    ensures |combined| == |theoretical| + |experimental|
    ensures forall i :: 0 <= i < |theoretical| ==> combined[i] == theoretical[i]
    ensures forall i :: 0 <= i < |experimental| ==> combined[|theoretical| + i] == experimental[i]
  {
    theoretical + experimental
  }

  /** What the clustering library promises: one label per input row, each
      below the cluster count. */
  ghost predicate LabelsEachRow(kmeans: (seq<Row>, nat) -> seq<int>) {
    forall d :: |kmeans(d, NumClusters)| == |d|
                && forall k :: 0 <= k < |d| ==> 0 <= kmeans(d, NumClusters)[k] < NumClusters
  }

  /** `kmeans_clustering`: cluster the combined rows and copy the labels
      out one by one (`kmeans` stands for `KMeans(n_clusters).fit(...).labels_`). */
  method KMeansClustering(theoretical: seq<Row>, experimental: seq<Row>, kmeans: (seq<Row>, nat) -> seq<int>)
    returns (kmeansResults: seq<int>)
    requires LabelsEachRow(kmeans)
    ensures kmeansResults == kmeans(CombinedData(theoretical, experimental), NumClusters)
    ensures |kmeansResults| == |theoretical| + |experimental|
    ensures forall k :: 0 <= k < |kmeansResults| ==> 0 <= kmeansResults[k] < NumClusters
  {
    var combinedData := CombinedData(theoretical, experimental);
    var clusterLabels := kmeans(combinedData, NumClusters);
    kmeansResults := [];
    for k := 0 to |clusterLabels|
      invariant kmeansResults == clusterLabels[..k]
    {
      kmeansResults := kmeansResults + [clusterLabels[k]];
    }
    assert clusterLabels[..|clusterLabels|] == clusterLabels;
  }
}
