/**
 * The colour-table viewer utility: the SVG-style ordering of a colour table (grays by
 * brightness, then colours by hue), the fixed-width grid of swatches, the paging of long
 * tables and the greedy word wrap of swatch labels.
 */
module ColorVisualizer {
  import opened Wrappers
  import opened Numbers
  import opened Text
  import opened Sorting

  type Channel = v: int | 0 <= v <= 255

  type Rgb = (Channel, Channel, Channel)

  /** One `(name, rgb)` item of a colour table, in the table's insertion order. */
  type Swatch = (string, Rgb)

  /** `_is_gray`: all three channels equal. */
  predicate IsGray(rgb: Rgb) { rgb.0 == rgb.1 == rgb.2 }

  predicate IsGraySwatch(s: Swatch) { IsGray(s.1) }

  predicate IsChromaSwatch(s: Swatch) { !IsGray(s.1) }

  /** `x % 1.0` for a real `x` (Python's floored remainder). */
  function Frac(x: real): (r: real)
    ensures 0.0 <= r < 1.0
  {
    x - x.Floor as real
  }

  /**
   * `colorsys.rgb_to_hsv` of the channels divided by 255, computed exactly. Hue and
   * saturation do not change when all channels are scaled, so they are computed on the
   * channels themselves.
   */
  function Hsv(rgb: Rgb): (hsv: (real, real, real))
    ensures 0.0 <= hsv.0 < 1.0 && 0.0 <= hsv.2 <= 1.0
    ensures IsGray(rgb) ==> hsv == (0.0, 0.0, rgb.0 as real / 255.0)
  {
    var (r, g, b) := (rgb.0 as real, rgb.1 as real, rgb.2 as real);
    var maxc := MaxR(r, MaxR(g, b));
    var minc := MinR(r, MinR(g, b));
    var v := maxc / 255.0;
    if minc == maxc then (0.0, 0.0, v)
    else
      var range := maxc - minc;
      var s := range / maxc;
      var rc := (maxc - r) / range;
      var gc := (maxc - g) / range;
      var bc := (maxc - b) / range;
      var h := if r == maxc then bc - gc else if g == maxc then 2.0 + rc - bc else 4.0 + gc - rc;
      (Frac(h / 6.0), s, v)
  }

  /** The gray ordering: by HSV value. */
  predicate GrayLe(a: Swatch, b: Swatch) { Hsv(a.1).2 <= Hsv(b.1).2 }

  /** The colour ordering: hue ascending, then saturation and value descending. */
  predicate ChromaLe(a: Swatch, b: Swatch)
  {
    var (ha, sa, va) := Hsv(a.1);
    var (hb, sb, vb) := Hsv(b.1);
    ha < hb || (ha == hb && (sa > sb || (sa == sb && va >= vb)))
  }

  lemma SvgOrdersArePreorders()
    ensures TotalPreorder(GrayLe) && TotalPreorder(ChromaLe)
  {
  }

  /**
   * `sort_svg_style`: the grays sorted by brightness followed by the other colours sorted
   * by hue; a reordering of the table.
   */
  function SortSvgStyle(table: seq<Swatch>): (r: seq<Swatch>)
    ensures multiset(r) == multiset(table)
    ensures var g := |Filter(table, IsGraySwatch)|;
            g <= |r| &&
            (forall i :: 0 <= i < g ==> IsGray(r[i].1)) &&
            (forall i :: g <= i < |r| ==> !IsGray(r[i].1)) &&
            (forall i, j :: 0 <= i < j < g ==> r[i].1.0 <= r[j].1.0) &&
            SortedBy(r[g..], ChromaLe)
  {
    var grays := Filter(table, IsGraySwatch);
    var chroma := Filter(table, IsChromaSwatch);
    SvgOrdersArePreorders();
    FilterPartition(table, IsGraySwatch, IsChromaSwatch);
    SortKeeps(grays, GrayLe, IsGraySwatch);
    SortKeeps(chroma, ChromaLe, IsChromaSwatch);
    var sortedGrays := Sort(grays, GrayLe);
    var r := sortedGrays + Sort(chroma, ChromaLe);
    assert r[..|grays|] == sortedGrays && r[|grays|..] == Sort(chroma, ChromaLe);
    forall i, j | 0 <= i < j < |grays| ensures r[i].1.0 <= r[j].1.0 {
      assert GrayLe(sortedGrays[i], sortedGrays[j]);
    }
    r
  }

  // ---------------------------------------------------------------------------------
  // Grid and pages
  // ---------------------------------------------------------------------------------

  /** The cell at row `i`, column `j` of a grid with `nCols` columns: the item there, if any. */
  function Cell<T>(items: seq<T>, nCols: nat, i: nat, j: nat): Option<T>
  {
    if i * nCols + j < |items| then Some(items[i * nCols + j]) else None
  }

  /** The default row count: just enough rows for every item. */
  function DefaultRows(n: nat, nCols: nat): (rows: nat)
    requires nCols > 0
    ensures (rows - 1) * nCols < n <= rows * nCols || (n == 0 && rows == 0)
  {
    CeilDivBounds(n, nCols);
    CeilDiv(n, nCols)
  }

  /** `build_grid`: `nRows` rows (by default `DefaultRows`) of `nCols` cells each, filled row by row. */
  method BuildGrid<T>(items: seq<T>, nCols: nat, nRows: Option<nat>) returns (grid: seq<seq<Option<T>>>)
    requires nRows.Some? || nCols > 0
    ensures |grid| == if nRows.Some? then nRows.value else DefaultRows(|items|, nCols)
    ensures forall i :: 0 <= i < |grid| ==> |grid[i]| == nCols
    ensures forall i, j :: 0 <= i < |grid| && 0 <= j < nCols ==> |grid[i]| == nCols && grid[i][j] == Cell(items, nCols, i, j)
  {
    var rows := if nRows.Some? then nRows.value else DefaultRows(|items|, nCols);
    grid := [];
    for i := 0 to rows
      invariant |grid| == i
      invariant forall r :: 0 <= r < i ==> |grid[r]| == nCols
      invariant forall r, j :: 0 <= r < i && 0 <= j < nCols ==> grid[r][j] == Cell(items, nCols, r, j)
    {
      var row: seq<Option<T>> := [];
      for j := 0 to nCols
        invariant |row| == j
        invariant forall c :: 0 <= c < j ==> row[c] == Cell(items, nCols, i, c)
      {
        var idx := i * nCols + j;
        row := row + [if idx < |items| then Some(items[idx]) else None];
      }
      grid := grid + [row];
    }
  }

  /** With the default row count, every item sits in the cell its position gives, and no cell is invented. */
  lemma GridHoldsEveryItem<T>(items: seq<T>, nCols: nat, k: nat)
    requires nCols > 0 && k < |items|
    ensures k / nCols < DefaultRows(|items|, nCols)
    ensures Cell(items, nCols, k / nCols, k % nCols) == Some(items[k])
  {
    var rows := DefaultRows(|items|, nCols);
    assert k == (k / nCols) * nCols + k % nCols;
    if k / nCols >= rows {
      MulMonotone(rows, k / nCols, nCols);
    }
  }

  lemma MulMonotone(a: nat, b: nat, c: nat)
    requires a <= b
    ensures a * c <= b * c
  {
  }

  function Flatten<T>(parts: seq<seq<T>>): seq<T>
  {
    if |parts| == 0 then [] else Flatten(parts[..|parts| - 1]) + parts[|parts| - 1]
  }

  /**
   * The slicing in `plot_xkcd_pages`: `CeilDiv(|ordered|, pageSize)` consecutive pages of at
   * most `pageSize` items, none empty, that together are `ordered`.
   */
  method Paginate<T>(ordered: seq<T>, pageSize: nat) returns (pages: seq<seq<T>>)
    requires pageSize > 0
    ensures |pages| == CeilDiv(|ordered|, pageSize)
    ensures Flatten(pages) == ordered
    ensures forall k :: 0 <= k < |pages| ==> 0 < |pages[k]| <= pageSize
  {
    var total := CeilDiv(|ordered|, pageSize);
    PageEnd(|ordered|, pageSize);
    if total > 0 {
      PageStart(|ordered|, pageSize, 0);
    }
    pages := [];
    for page := 0 to total
      invariant |pages| == page
      invariant page < total ==> page * pageSize < |ordered| && Flatten(pages) == ordered[..page * pageSize]
      invariant page == total ==> Flatten(pages) == ordered
      invariant forall k :: 0 <= k < page ==> 0 < |pages[k]| <= pageSize
    {
      PageStart(|ordered|, pageSize, page);
      pages := AddPage(ordered, pageSize, page, pages);
      if page + 1 < total {
        PageStart(|ordered|, pageSize, page + 1);
      }
    }
  }

  /** One pass of the page loop: the slice `ordered[page * pageSize:(page + 1) * pageSize]` appended. */
  method AddPage<T>(ordered: seq<T>, pageSize: nat, page: nat, pages: seq<seq<T>>) returns (pages': seq<seq<T>>)
    requires pageSize > 0 && |pages| == page
    requires page * pageSize < |ordered| && Flatten(pages) == ordered[..page * pageSize]
    requires forall k :: 0 <= k < page ==> 0 < |pages[k]| <= pageSize
    ensures |pages'| == page + 1 && forall k :: 0 <= k <= page ==> 0 < |pages'[k]| <= pageSize
    ensures (page + 1) * pageSize <= |ordered| ==> Flatten(pages') == ordered[..(page + 1) * pageSize]
    ensures (page + 1) * pageSize > |ordered| ==> Flatten(pages') == ordered
  {
    var start := page * pageSize;
    var end := (page + 1) * pageSize;
    assert end == start + pageSize;
    var stop := if end <= |ordered| then end else |ordered|;
    var chunk := ordered[start..stop];
    FlattenSnoc(pages, chunk);
    assert ordered[..start] + chunk == ordered[..stop];
    pages' := pages + [chunk];
    assert stop == |ordered| ==> ordered[..stop] == ordered;
  }

  lemma FlattenSnoc<T>(parts: seq<seq<T>>, last: seq<T>)
    ensures Flatten(parts + [last]) == Flatten(parts) + last
  {
    assert (parts + [last])[..|parts|] == parts;
  }

  /** A page before the last starts inside the list, and only the last may run past its end. */
  lemma PageStart(n: nat, size: nat, page: nat)
    requires size > 0 && page < CeilDiv(n, size)
    ensures page * size < n
    ensures (page + 1) * size == page * size + size
    ensures (page + 1) * size <= n || page + 1 == CeilDiv(n, size)
  {
    CeilDivBounds(n, size);
    var total := CeilDiv(n, size);
    MulMonotone(page, total - 1, size);
    if page + 1 < total {
      MulMonotone(page + 1, total - 1, size);
    }
  }

  lemma PageEnd(n: nat, size: nat)
    requires size > 0
    ensures CeilDiv(n, size) >= 0
    ensures n <= CeilDiv(n, size) * size
    ensures CeilDiv(n, size) > 0 ==> CeilDiv(n, size) * size - size < n
    ensures CeilDiv(n, size) == 0 ==> n == 0
  {
    CeilDivBounds(n, size);
  }

  /** `plot_xkcd_pages`: the SVG-ordered table cut into grid-sized pages, one grid per page. */
  method XkcdPages(table: seq<Swatch>, nCols: nat, nRows: nat) returns (pages: seq<seq<Swatch>>)
    requires nCols * nRows > 0
    ensures |pages| == CeilDiv(|table|, nCols * nRows)
    ensures Flatten(pages) == SortSvgStyle(table)
    ensures forall k :: 0 <= k < |pages| ==> 0 < |pages[k]| <= nCols * nRows
  {
    var ordered := SortSvgStyle(table);
    assert |ordered| == |table| by {
      assert |multiset(ordered)| == |multiset(table)|;
    }
    pages := Paginate(ordered, nCols * nRows);
  }

  // ---------------------------------------------------------------------------------
  // Labels
  // ---------------------------------------------------------------------------------

  function SumLen(ws: seq<string>): nat
  {
    if |ws| == 0 then 0 else SumLen(ws[..|ws| - 1]) + |ws[|ws| - 1]|
  }

  /** The wrapping loop's state: the finished lines, as word lists, and the line being filled. */
  datatype Wrap = Wrap(lines: seq<seq<string>>, current: seq<string>)

  /** Whether `word` still fits after the words of `current` and one space per word. */
  predicate Fits(current: seq<string>, word: string, maxLen: int)
  {
    SumLen(current) + |current| + |word| <= maxLen
  }

  /** The state after the words `ws`: a word that fits joins the current line, else starts a new one. */
  function WrapWords(ws: seq<string>, maxLen: int): Wrap
  {
    if |ws| == 0 then Wrap([], [])
    else
      var st := WrapWords(ws[..|ws| - 1], maxLen);
      var w := ws[|ws| - 1];
      if Fits(st.current, w, maxLen) then Wrap(st.lines, st.current + [w])
      else Wrap(st.lines + [st.current], [w])
  }

  /** The lines of the wrapped label, as word lists. */
  function Groups(ws: seq<string>, maxLen: int): seq<seq<string>>
  {
    var st := WrapWords(ws, maxLen);
    st.lines + (if st.current != [] then [st.current] else [])
  }

  function LineTexts(groups: seq<seq<string>>): (texts: seq<string>)
    ensures |texts| == |groups|
  {
    seq(|groups|, k requires 0 <= k < |groups| => Join(groups[k], " "))
  }

  /** A line of two or more words is short enough: its words and the spaces between them fit. */
  predicate ShortLine(g: seq<string>, maxLen: int)
  {
    |g| >= 2 ==> SumLen(g) + |g| - 1 <= maxLen
  }

  /** The wrap keeps every word in order: finished lines, then the current one, give back the words. */
  lemma {:induction false} WrapKeepsOrder(ws: seq<string>, maxLen: int)
    ensures Flatten(WrapWords(ws, maxLen).lines) + WrapWords(ws, maxLen).current == ws
    decreases |ws|
  {
    if |ws| > 0 {
      var front := ws[..|ws| - 1];
      WrapKeepsOrder(front, maxLen);
      var st := WrapWords(front, maxLen);
      var w := ws[|ws| - 1];
      assert ws == front + [w];
      if !Fits(st.current, w, maxLen) {
        var lines := st.lines + [st.current];
        assert lines[..|lines| - 1] == st.lines;
      }
    }
  }

  /** No line of two or more words runs past `maxLen`. */
  lemma {:induction false} WrapKeepsShort(ws: seq<string>, maxLen: int)
    ensures forall k :: 0 <= k < |WrapWords(ws, maxLen).lines| ==> ShortLine(WrapWords(ws, maxLen).lines[k], maxLen)
    ensures ShortLine(WrapWords(ws, maxLen).current, maxLen)
    decreases |ws|
  {
    if |ws| > 0 {
      var front := ws[..|ws| - 1];
      WrapKeepsShort(front, maxLen);
      var st := WrapWords(front, maxLen);
      var w := ws[|ws| - 1];
      if Fits(st.current, w, maxLen) {
        var cur := st.current + [w];
        assert cur[..|cur| - 1] == st.current;
      }
    }
  }

  /**
   * Only the first line can be empty, and it is empty exactly when the first word is
   * longer than `maxLen`; the current line is never empty once a word was seen.
   */
  lemma {:induction false} WrapEmptyLines(ws: seq<string>, maxLen: int)
    ensures |ws| > 0 ==> WrapWords(ws, maxLen).current != []
    ensures forall k :: 1 <= k < |WrapWords(ws, maxLen).lines| ==> WrapWords(ws, maxLen).lines[k] != []
    ensures |ws| > 0 ==> (|ws[0]| > maxLen <==> |WrapWords(ws, maxLen).lines| > 0 && WrapWords(ws, maxLen).lines[0] == [])
    ensures |ws| == 0 ==> WrapWords(ws, maxLen) == Wrap([], [])
    decreases |ws|
  {
    if |ws| > 0 {
      var front := ws[..|ws| - 1];
      WrapEmptyLines(front, maxLen);
      if |front| > 0 {
        assert front[0] == ws[0];
      } else {
        assert SumLen([]) == 0;
      }
    }
  }

  /** The words of the wrapped lines, in order, are the words of the label. */
  lemma WrapKeepsWords(ws: seq<string>, maxLen: int)
    ensures Flatten(Groups(ws, maxLen)) == ws
  {
    WrapKeepsOrder(ws, maxLen);
    var st := WrapWords(ws, maxLen);
    var gs := Groups(ws, maxLen);
    if st.current != [] {
      assert gs[..|gs| - 1] == st.lines;
    } else {
      assert gs == st.lines;
    }
  }

  /** Every wrapped line of two or more words is at most `maxLen` long. */
  lemma WrapBoundsLines(ws: seq<string>, maxLen: int, k: nat)
    requires k < |Groups(ws, maxLen)| && |Groups(ws, maxLen)[k]| >= 2
    ensures |LineTexts(Groups(ws, maxLen))[k]| <= maxLen
  {
    WrapKeepsShort(ws, maxLen);
    var g := Groups(ws, maxLen)[k];
    JoinLength(g);
  }

  /** A first word longer than `maxLen` leaves an empty first line; no other line is ever empty. */
  lemma WrapEmptyFirstLine(ws: seq<string>, maxLen: int)
    requires |ws| > 0
    ensures |ws[0]| > maxLen <==> Groups(ws, maxLen)[0] == []
    ensures forall k :: 1 <= k < |Groups(ws, maxLen)| ==> Groups(ws, maxLen)[k] != []
  {
    WrapEmptyLines(ws, maxLen);
  }

  lemma {:induction false} JoinLength(g: seq<string>)
    requires |g| > 0
    ensures |Join(g, " ")| == SumLen(g) + |g| - 1
    decreases |g|
  {
    if |g| > 1 {
      JoinLength(g[1..]);
      SumLenFront(g);
    }
  }

  lemma {:induction false} SumLenFront(g: seq<string>)
    requires |g| > 0
    ensures SumLen(g) == |g[0]| + SumLen(g[1..])
    decreases |g|
  {
    if |g| > 1 {
      SumLenFront(g[..|g| - 1]);
      assert g[..|g| - 1][1..] == g[1..][..|g[1..]| - 1];
    }
  }

  /**
   * `format_multiline_label`: a label that fits, or has no space, is returned as is; otherwise
   * its words are wrapped greedily and the lines joined with newlines.
   */
  method FormatMultilineLabel(caption: string, maxLen: int) returns (out: string)
    ensures |caption| <= maxLen || ' ' !in caption ==> out == caption
    ensures !(|caption| <= maxLen || ' ' !in caption) ==> out == Join(LineTexts(Groups(Words(caption), maxLen)), "\n")
  {
    if |caption| <= maxLen || ' ' !in caption {
      return caption;
    }
    var words := Words(caption);
    var lines: seq<string> := [];
    var current: seq<string> := [];
    for i := 0 to |words|
      invariant lines == LineTexts(WrapWords(words[..i], maxLen).lines)
      invariant current == WrapWords(words[..i], maxLen).current
    {
      lines, current := WrapStep(words, i, maxLen, lines, current);
    }
    assert words[..|words|] == words;
    ghost var st := WrapWords(words, maxLen);
    if current != [] {
      LineTextsSnoc(st.lines, st.current);
      lines := lines + [Join(current, " ")];
    }
    out := Join(lines, "\n");
  }

  /** One pass of the wrapping loop: word `i` joins the current line or starts a new one. */
  method WrapStep(words: seq<string>, i: nat, maxLen: int, lines: seq<string>, current: seq<string>)
    returns (lines': seq<string>, current': seq<string>)
    requires i < |words|
    requires lines == LineTexts(WrapWords(words[..i], maxLen).lines) && current == WrapWords(words[..i], maxLen).current
    ensures lines' == LineTexts(WrapWords(words[..i + 1], maxLen).lines)
    ensures current' == WrapWords(words[..i + 1], maxLen).current
  {
    var word := words[i];
    assert words[..i + 1][..i] == words[..i] && words[..i + 1][i] == word;
    if SumLen(current) + |current| + |word| <= maxLen {
      lines', current' := lines, current + [word];
    } else {
      LineTextsSnoc(WrapWords(words[..i], maxLen).lines, current);
      lines', current' := lines + [Join(current, " ")], [word];
    }
  }

  lemma LineTextsSnoc(groups: seq<seq<string>>, g: seq<string>)
    ensures LineTexts(groups + [g]) == LineTexts(groups) + [Join(g, " ")]
  {
    var a := LineTexts(groups + [g]);
    var b := LineTexts(groups) + [Join(g, " ")];
    forall k | 0 <= k < |a| ensures a[k] == b[k] {
      if k < |groups| { assert (groups + [g])[k] == groups[k]; }
    }
  }
}
