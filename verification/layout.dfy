/** The integer layout of the card-info picture (query/synthesis.py): the
    size of a block of text lines, the canvas size, and the placement loop
    that puts each card's image and text block in its own row. Image and
    text sizes are inputs; font metrics, decoding and drawing are not
    modelled. */
module Layout {
  import opened Wrappers

  datatype Size = Size(w: int, h: int)

  function Sum(xs: seq<int>): int
    decreases |xs|
  {
    if |xs| == 0 then 0 else Sum(xs[..|xs| - 1]) + xs[|xs| - 1]
  }

  /** Python's `max` of a list: ValueError when it is empty. */
  function Max(xs: seq<int>): (r: Result<int>)
    ensures r.Crash? <==> |xs| == 0
    ensures r.Crash? ==> r.fault == ValueError
    ensures r.Ok? ==> (forall k :: 0 <= k < |xs| ==> xs[k] <= r.value) && exists k :: 0 <= k < |xs| && xs[k] == r.value
    decreases |xs|
  {
    if |xs| == 0 then Crash(ValueError)
    else if |xs| == 1 then Ok(xs[0])
    else
      var rest := Max(xs[..|xs| - 1]).value;
      assert forall k :: 0 <= k < |xs| - 1 ==> xs[..|xs| - 1][k] == xs[k];
      Ok(if xs[|xs| - 1] > rest then xs[|xs| - 1] else rest)
  }

  function Widths(s: seq<Size>): (ws: seq<int>)
    ensures |ws| == |s| && forall k :: 0 <= k < |s| ==> ws[k] == s[k].w
  {
    seq(|s|, k requires 0 <= k < |s| => s[k].w)
  }

  function Heights(s: seq<Size>): (hs: seq<int>)
    ensures |hs| == |s| && forall k :: 0 <= k < |s| ==> hs[k] == s[k].h
  {
    seq(|s|, k requires 0 <= k < |s| => s[k].h)
  }

  /** `get_multiline_textsize`: the widest line's width, and the heights
      summed with `spacing` between consecutive lines. No line at all is a
      ValueError from `max`. */
  function TextBlock(lines: seq<Size>, spacing: int): (r: Result<Size>)
    ensures r.Crash? <==> |lines| == 0
    ensures r.Ok? ==> (forall k :: 0 <= k < |lines| ==> lines[k].w <= r.value.w) && exists k :: 0 <= k < |lines| && lines[k].w == r.value.w
    ensures r.Ok? ==> r.value.h == Sum(Heights(lines)) + spacing * (|lines| - 1)
  {
    var w :- Max(Widths(lines));
    Ok(Size(w, Sum(Heights(lines)) + spacing * (|lines| - 1)))
  }

  /** One more line makes the block one spacing and one line height taller,
      and no narrower. */
  lemma TextBlockAppend(lines: seq<Size>, line: Size, spacing: int)
    requires |lines| > 0
    ensures var before := TextBlock(lines, spacing).value;
      var after := TextBlock(lines + [line], spacing).value;
      && after.h == before.h + spacing + line.h
      && after.w == (if line.w > before.w then line.w else before.w)
  {
    var all := lines + [line];
    assert Heights(all)[..|all| - 1] == Heights(lines);
    assert Widths(all)[..|all| - 1] == Widths(lines);
  }

  /** The height of card `i`'s row: the taller of its image and its text. */
  function RowHeights(images: seq<Size>, texts: seq<Size>): (hs: seq<int>)
    requires |images| == |texts|
    ensures |hs| == |images|
    ensures forall i :: 0 <= i < |hs| ==> hs[i] >= images[i].h && hs[i] >= texts[i].h
    ensures forall i :: 0 <= i < |hs| ==> hs[i] == images[i].h || hs[i] == texts[i].h
  {
    seq(|images|, i requires 0 <= i < |images| => if images[i].h > texts[i].h then images[i].h else texts[i].h)
  }

  function RowWidths(images: seq<Size>, texts: seq<Size>): (ws: seq<int>)
    requires |images| == |texts|
    ensures |ws| == |images| && forall i :: 0 <= i < |ws| ==> ws[i] == images[i].w + texts[i].w
  {
    seq(|images|, i requires 0 <= i < |images| => images[i].w + texts[i].w)
  }

  /** The canvas: the widest image-plus-text row and three margins across,
      the rows and one margin more than there are rows down. */
  function Canvas(images: seq<Size>, texts: seq<Size>, margin: int): (r: Result<Size>)
    requires |images| == |texts|
    ensures r.Crash? <==> |images| == 0
    ensures r.Ok? ==> forall i :: 0 <= i < |images| ==> images[i].w + texts[i].w + 3 * margin <= r.value.w
    ensures r.Ok? ==> r.value.h == Sum(RowHeights(images, texts)) + margin * (|images| + 1)
  {
    var w :- Max(RowWidths(images, texts));
    Ok(Size(w + margin * 3, Sum(RowHeights(images, texts)) + margin * (|images| + 1)))
  }

  /** The top of row `i`: one margin, then every earlier row and its margin. */
  function RowTop(rows: seq<int>, margin: int, i: nat): int
    requires i <= |rows|
  {
    margin + Sum(rows[..i]) + margin * i
  }

  /** `int(x / 2)`: true division, then truncation toward zero. */
  function Half(x: int): (r: int)
    ensures x >= 0 ==> 0 <= r && 2 * r <= x < 2 * r + 2
    ensures x < 0 ==> r <= 0 && 2 * r - 2 < x <= 2 * r
  {
    if x >= 0 then x / 2 else -((-x) / 2)
  }

  /** The next row starts one margin below the end of this one. */
  lemma RowTopNext(rows: seq<int>, margin: int, i: nat)
    requires i < |rows|
    ensures RowTop(rows, margin, i + 1) == RowTop(rows, margin, i) + rows[i] + margin
  {
    assert rows[..i + 1][..i] == rows[..i];
    assert margin * (i + 1) == margin * i + margin;
  }

  /** Where a row's image and text block go. */
  datatype Placement = Placement(imageLeft: int, imageTop: int, textLeft: int, textTop: int)

  /** Placement `p` of an image and a text block in a row starting at `top`
      and `height` high: both inside the row, the image centred in the
      column, the text after the column and two margins. */
  predicate Placed(p: Placement, image: Size, text: Size, column: int, margin: int, top: int, height: int) {
    && p.textLeft == column + 2 * margin
    && p.imageLeft == margin + Half(column - image.w)
    && top <= p.imageTop && p.imageTop + image.h <= top + height
    && top <= p.textTop && p.textTop + text.h <= top + height
  }

  /** Centring a block no taller than its row keeps it inside the row. */
  lemma PlacedInRow(p: Placement, image: Size, text: Size, column: int, margin: int, top: int, height: int)
    requires height >= image.h && height >= text.h
    requires p == Placement(margin + Half(column - image.w), top + Half(height - image.h),
                            column + 2 * margin, top + Half(height - text.h))
    ensures Placed(p, image, text, column, margin, top, height)
  {
  }

  /** The drawing loop's arithmetic: each image centred in a column `column`
      wide after one margin, each text block after that column and two
      margins, both centred vertically in their row; rows follow each other
      with one margin between. */
  method Place(images: seq<Size>, texts: seq<Size>, column: int, margin: int) returns (ps: seq<Placement>, bottom: int)
    requires |images| == |texts|
    ensures |ps| == |images|
    ensures bottom == RowTop(RowHeights(images, texts), margin, |images|)
    ensures forall i :: 0 <= i < |ps| ==>
      Placed(ps[i], images[i], texts[i], column, margin, RowTop(RowHeights(images, texts), margin, i), RowHeights(images, texts)[i])
  {
    var rows := RowHeights(images, texts);
    var top := margin;
    ps := [];
    var i := 0;
    while i < |images|
      invariant 0 <= i <= |images|
      invariant |ps| == i
      invariant top == RowTop(rows, margin, i)
      invariant forall j :: 0 <= j < i ==> Placed(ps[j], images[j], texts[j], column, margin, RowTop(rows, margin, j), rows[j])
    {
      var height := rows[i];
      var p := Placement(margin + Half(column - images[i].w), top + Half(height - images[i].h),
                         column + 2 * margin, top + Half(height - texts[i].h));
      PlacedInRow(p, images[i], texts[i], column, margin, top, height);
      ps := ps + [p];
      RowTopNext(rows, margin, i);
      top := top + height + margin;
      i := i + 1;
    }
    bottom := top;
  }

  /** The canvas is exactly as tall as the placement loop reaches: the last
      row ends one margin above the bottom edge. */
  lemma CanvasHoldsRows(images: seq<Size>, texts: seq<Size>, margin: int)
    requires |images| == |texts| && |images| > 0
    ensures Canvas(images, texts, margin).value.h == RowTop(RowHeights(images, texts), margin, |images|)
  {
    var rows := RowHeights(images, texts);
    assert rows[..|images|] == rows;
    assert margin * (|images| + 1) == margin * |images| + margin;
  }

  /** When every image is exactly as wide as the column, as the thumbnails
      make them, each image sits inside the column and each text block ends
      at least one margin before the right edge. */
  lemma RowsFitAcross(images: seq<Size>, texts: seq<Size>, column: int, margin: int, i: nat)
    requires |images| == |texts| && i < |images|
    requires forall j :: 0 <= j < |images| ==> images[j].w == column
    ensures var canvas := Canvas(images, texts, margin).value;
      && margin + Half(column - images[i].w) == margin
      && column + 2 * margin + texts[i].w + margin <= canvas.w
  {
  }

  /** `cards[:count_max]`: Python's slice end, negative counting from the back. */
  function Head<T(==)>(s: seq<T>, n: int): (r: seq<T>)
    ensures n >= 0 ==> |r| == (if n < |s| then n else |s|)
    ensures n < 0 ==> |r| == (if |s| + n > 0 then |s| + n else 0)
    ensures r <= s
  {
    var end := if n >= 0 then (if n < |s| then n else |s|) else (if |s| + n > 0 then |s| + n else 0);
    s[..end]
  }
}
