/**
 * Moomo's mood widget: the fixed list of six mood images, `Array.chunked(into:)`, and the number
 * of images per row that the widget's width allows.
 */
module MoodWidget {
  import opened Sequences

  /** The widget's `Mood` item (its per-instance `UUID` is left out: it only keys the view). */
  datatype WidgetMood = WidgetMood(imageName: string)

  /** `moods` */
  const Moods: seq<WidgetMood> := [
    WidgetMood("Surprise"), WidgetMood("Joy"), WidgetMood("Sadness"),
    WidgetMood("Disgust"), WidgetMood("Anger"), WidgetMood("Fear")]

  const ItemSize: real := 45.0
  const Spacing: real := 25.0
  const HorizontalPadding: real := 20.0

  /** Chunk `i` of `chunked(into: size)`: `self[i * size ..< min(i * size + size, count)]`. */
  function Chunk<T>(a: seq<T>, size: nat, i: nat): seq<T>
    requires size > 0 && i < CeilDiv(|a|, size)
  {
    var start := i * size;
    StrideStartInside(|a|, size, i);
    a[start .. Min(start + size, |a|)]
  }

  /** Chunk `i + 1` of `a` is chunk `i` of `a` without its first `size` elements. */
  lemma ChunkShift<T>(a: seq<T>, size: nat, i: nat)
    requires size > 0 && |a| > size && i < CeilDiv(|a| - size, size)
    ensures i + 1 < CeilDiv(|a|, size)
    ensures Chunk(a, size, i + 1) == Chunk(a[size..], size, i)
  {
    CeilDivStep(|a|, size);
    var start := i * size;
    assert (i + 1) * size == start + size;
    StrideStartInside(|a| - size, size, i);
    var rest := a[size..];
    assert Chunk(rest, size, i) == rest[start .. Min(start + size, |rest|)];
    assert Chunk(a, size, i + 1) == a[start + size .. Min(start + size + size, |a|)];
  }

  /** Removing `b` elements removes one chunk. */
  lemma CeilDivStep(a: nat, b: nat)
    requires 0 < b < a
    ensures CeilDiv(a, b) == CeilDiv(a - b, b) + 1
  {
    var m := CeilDiv(a - b, b);
    assert (m + 1) * b == m * b + b;
    CeilDivUnique(a, b, m + 1);
  }

  /** Every start of `stride(from: 0, to: count, by: size)` is below `count`. */
  lemma StrideStartInside(count: nat, size: nat, i: nat)
    requires size > 0 && i < CeilDiv(count, size)
    ensures i * size < count
  {
    var n := CeilDiv(count, size);
    MulMonotone(i + 1, n, size);
  }

  lemma MulMonotone(x: nat, y: nat, k: nat)
    requires x <= y
    ensures x * k <= y * k
  {
  }

  /**
   * `chunked(into:)`: the whole array as the single chunk when `size <= 0`; otherwise the slices
   * starting at every multiple of `size` below `count`.
   */
  function Chunked<T>(a: seq<T>, size: int): (chunks: seq<seq<T>>)
    ensures size <= 0 ==> chunks == [a]
    ensures size > 0 ==> |chunks| == CeilDiv(|a|, size)
  {
    if size <= 0 then [a]
    else seq(CeilDiv(|a|, size), (i: int) requires 0 <= i < CeilDiv(|a|, size) => Chunk(a, size, i))
  }

  lemma CeilDivUnique(a: nat, b: nat, r: nat)
    requires b > 0 && r * b >= a && r * b < a + b
    ensures r == CeilDiv(a, b)
  {
    var q := CeilDiv(a, b);
    if r > q {
      MulMonotone(q + 1, r, b);
    } else if r < q {
      MulMonotone(r + 1, q, b);
    }
  }

  /** Splitting off the first chunk leaves the chunks of the rest. */
  lemma ChunkedUnfold<T>(a: seq<T>, size: nat)
    requires size > 0 && a != []
    ensures Chunked(a, size) == [a[..Min(size, |a|)]] + Chunked(a[Min(size, |a|)..], size)
  {
    var k := Min(size, |a|);
    var rest := a[k..];
    if |a| <= size {
      CeilDivUnique(|a|, size, 1);
      assert rest == [];
      assert CeilDiv(0, size) == 0;
    } else {
      CeilDivStep(|a|, size);
    }
    var chunks, tail := Chunked(a, size), Chunked(rest, size);
    assert |chunks| == 1 + |tail|;
    assert chunks[0] == a[..k] by {
      assert chunks[0] == Chunk(a, size, 0);
    }
    forall i | 0 <= i < |tail| ensures chunks[i + 1] == tail[i] {
      ChunkShift(a, size, i);
    }
    assert chunks == [a[..k]] + tail;
  }

  /** With a positive size, joining the chunks gives back the array. */
  lemma {:induction false} ChunkedFlattens<T>(a: seq<T>, size: int)
    requires size > 0
    ensures Flatten(Chunked(a, size)) == a
    decreases |a|
  {
    if a == [] {
      assert CeilDiv(0, size) == 0;
    } else {
      var k := Min(size, |a|);
      ChunkedUnfold(a, size);
      ChunkedFlattens(a[k..], size);
      var cs := Chunked(a, size);
      assert cs[1..] == Chunked(a[k..], size);
      assert a == a[..k] + a[k..];
    }
  }

  /** With a positive size, every chunk is non-empty and at most `size` long, and all but the last are full. */
  lemma ChunkSizes<T>(a: seq<T>, size: int)
    requires size > 0
    ensures var cs := Chunked(a, size);
      forall i :: 0 <= i < |cs| ==> 0 < |cs[i]| <= size && (i < |cs| - 1 ==> |cs[i]| == size)
  {
    var cs := Chunked(a, size);
    forall i | 0 <= i < |cs| ensures 0 < |cs[i]| <= size && (i < |cs| - 1 ==> |cs[i]| == size) {
      StrideStartInside(|a|, size, i);
      if i < |cs| - 1 {
        StrideStartInside(|a|, size, i + 1);
        assert (i + 1) * size == i * size + size;
      }
    }
  }

  /** An empty array has no chunks at all, whatever the positive size. */
  lemma EmptyHasNoChunks<T>(size: int)
    requires size > 0
    ensures Chunked<T>([], size) == []
  {
    assert CeilDiv(0, size) == 0;
  }

  /** Swift's `Int(_:)` on a floating-point value: truncation toward zero. */
  function TruncateToInt(x: real): (n: int)
    ensures 0.0 <= x ==> n as real <= x < n as real + 1.0
    ensures x < 0.0 ==> n as real - 1.0 < x <= n as real
  {
    if x >= 0.0 then x.Floor else -((-x).Floor)
  }

  /** `max(1, Int((availableWidth + spacing) / (itemSize + spacing)))` for a widget `width` points wide. */
  function ItemsPerRow(width: real): (k: int)
    ensures k >= 1
  {
    var availableWidth := width - HorizontalPadding * 2.0;
    var fit := TruncateToInt((availableWidth + Spacing) / (ItemSize + Spacing));
    if fit < 1 then 1 else fit
  }

  /**
   * A row of `ItemsPerRow(width)` images with their spacing fits the width (unless even one does
   * not, when the row still holds one), and one image more would not fit.
   */
  lemma ItemsPerRowIsMostThatFit(width: real)
    ensures var k, available := ItemsPerRow(width), width - HorizontalPadding * 2.0;
      (k == 1 || k as real * ItemSize + (k - 1) as real * Spacing <= available) &&
      (k + 1) as real * ItemSize + k as real * Spacing > available
  {
  }

  /** The widget shows every mood once, in order, in rows of `ItemsPerRow(width)`. */
  lemma WidgetRowsShowEveryMood(width: real)
    ensures Flatten(Chunked(Moods, ItemsPerRow(width))) == Moods
    ensures var rows := Chunked(Moods, ItemsPerRow(width));
      forall i :: 0 <= i < |rows| ==> 0 < |rows[i]| <= ItemsPerRow(width)
  {
    ChunkedFlattens(Moods, ItemsPerRow(width));
    ChunkSizes(Moods, ItemsPerRow(width));
  }
}
