/** The stateful parts of ImageStudio.tsx: the canvas with its undo history
    of `MAX_HISTORY` = 30 snapshots, and the 8-step bisection that
    `calculateAutoQuality` runs to meet a target file size. */
module ImageSession {
  import opened Numeric
  import opened SnapshotHistory

  // ---------------------------------------------------------------------
  // Canvas and history.

  /** The pixels `getImageData` returns for the whole canvas: `width` x
      `height` pixels of four bytes (red, green, blue, alpha), row by row. */
  datatype Picture = Picture(width: nat, height: nat, data: seq<byte>)

  type ImageData = p: Picture | |p.data| == 4 * p.width * p.height witness Picture(0, 0, [])

  lemma PixelIndexInside(w: nat, h: nat, x: nat, y: nat, c: nat)
    requires x < w && y < h && c < 4
    ensures (y * w + x) * 4 + c < 4 * w * h
  {
    assert y * w + x < (y + 1) * w;
    assert (y + 1) * w <= h * w;
  }

  /** Byte `c` of the pixel in column `x` and row `y`. */
  function Byte(p: ImageData, x: nat, y: nat, c: nat): byte
    requires x < p.width && y < p.height && c < 4
  {
    PixelIndexInside(p.width, p.height, x, y, c);
    p.data[(y * p.width + x) * 4 + c]
  }

  lemma MulMono(a: int, b: int, w: nat)
    requires a <= b
    ensures a * w <= b * w
  {
    assert b * w - a * w == (b - a) * w;
  }

  /** Row and column of a pixel number, for a row of `w` pixels. */
  lemma RowAndColumn(p: nat, w: nat, x: nat, y: nat)
    requires x < w && p == y * w + x
    ensures p / w == y && p % w == x
  {
    var q, r := p / w, p % w;
    assert p == q * w + r;
    if q > y {
      MulMono(y + 1, q, w);
    } else if q < y {
      MulMono(q + 1, y, w);
    }
  }

  /** The pixel number `i / 4` of a byte index in a canvas of width `w`
      and height `h` lies in row `i / 4 / w`, column `i / 4 % w`. */
  lemma ByteIndexSplit(i: nat, w: nat, h: nat)
    requires i < 4 * w * h
    ensures w > 0
    ensures i / 4 / w < h && i == ((i / 4 / w) * w + i / 4 % w) * 4 + i % 4
  {
    var p := i / 4;
    assert p < w * h;
    var x, y := p % w, p / w;
    assert p == y * w + x;
    if y >= h {
      MulMono(h, y, w);
    }
  }

  /** Byte i of the canvas after `putImageData(img, 0, 0)`. */
  function PutByte(canvas: ImageData, img: ImageData, i: nat): byte
    requires i < |canvas.data|
  {
    var p := i / 4;
    var x, y := p % canvas.width, p / canvas.width;
    if x < img.width && y < img.height then Byte(img, x, y, i % 4) else canvas.data[i]
  }

  /** `ctx.putImageData(img, 0, 0)`: the canvas keeps its size; where `img`
      overlaps it from the top-left corner its pixels replace the canvas's
      bytes, alpha included, and elsewhere the canvas stays as it was. */
  function PutImageData(canvas: ImageData, img: ImageData): (r: ImageData)
    ensures r.width == canvas.width && r.height == canvas.height
  {
    Picture(canvas.width, canvas.height,
            seq(|canvas.data|, i requires 0 <= i < |canvas.data| => PutByte(canvas, img, i)))
  }

  lemma PutImageDataAt(canvas: ImageData, img: ImageData, x: nat, y: nat, c: nat)
    requires x < canvas.width && y < canvas.height && c < 4
    ensures Byte(PutImageData(canvas, img), x, y, c)
            == if x < img.width && y < img.height then Byte(img, x, y, c) else Byte(canvas, x, y, c)
  {
    var p := y * canvas.width + x;
    var i := p * 4 + c;
    PixelIndexInside(canvas.width, canvas.height, x, y, c);
    assert i / 4 == p && i % 4 == c;
    RowAndColumn(p, canvas.width, x, y);
  }

  /** A snapshot of the canvas's own size replaces the whole canvas. */
  lemma PutSameSizeIsSnapshot(canvas: ImageData, img: ImageData)
    requires img.width == canvas.width && img.height == canvas.height
    ensures PutImageData(canvas, img) == img
  {
    var r := PutImageData(canvas, img);
    var w := canvas.width;
    forall i | 0 <= i < |img.data|
      ensures r.data[i] == img.data[i]
    {
      ByteIndexSplit(i, w, canvas.height);
    }
  }

  const MaxHistory: nat := 30

  /** The canvas and its history. Besides the history's own invariant the
      editor keeps one of its own: once there is a history, the snapshot the
      cursor names is what the canvas shows whenever the two have one size.
      Undo and redo paste a snapshot without resizing the canvas, so after a
      resize they leave the canvas at its new size. */
  class ImageEditor {
    var canvas: ImageData
    const history: History<ImageData>

    ghost predicate Valid()
      reads this, history
    {
      && history.Valid() && history.capacity == MaxHistory
      && (history.step >= 0 && history.entries[history.step].width == canvas.width
          && history.entries[history.step].height == canvas.height
          ==> history.entries[history.step] == canvas)
    }

    /** Before the first image: a blank canvas, `history` `[]` and
        `historyStep` -1. */
    constructor ()
      ensures Valid() && fresh(history)
      ensures canvas == Picture(0, 0, []) && history.State() == Log([], -1)
    {
      canvas := Picture(0, 0, []);
      history := new History(MaxHistory);
    }

    /** `updateCanvasImage(url, true)`: `draw` sizes the canvas to the new
        image, and the history is replaced by the single snapshot of it. */
    method LoadImage(drawn: ImageData)
      requires Valid()
      modifies this, history
      ensures Valid() && canvas == drawn
      ensures history.State() == Log([drawn], 0)
    {
      canvas := drawn;
      history.Reset(drawn);
    }

    /** Any edit followed by `saveHistory` (`updateCanvasImage(url, false)`,
        a finished stroke, a filter, an overlay, a resize): the canvas shows
        the edit and the history records it. */
    method Commit(drawn: ImageData)
      requires Valid()
      modifies this, history
      ensures Valid() && canvas == drawn
      ensures history.State() == PushedAdvanced(old(history.State()), drawn, MaxHistory)
    {
      CursorRulesAgree(history.State(), drawn, MaxHistory);
      canvas := drawn;
      history.PushAdvance(drawn);
    }

    /** `handleUndo`: with the cursor above 0 the previous snapshot is
        pasted into the canvas at (0, 0); otherwise nothing changes. */
    method Undo()
      requires Valid()
      modifies this, history
      ensures Valid()
      ensures history.State() == Undone(old(history.State())).0
      ensures canvas == match Undone(old(history.State())).1
                        case Some(p) => PutImageData(old(canvas), p)
                        case None => old(canvas)
    {
      var restored := history.Undo();
      if restored.Some? {
        if restored.value.width == canvas.width && restored.value.height == canvas.height {
          PutSameSizeIsSnapshot(canvas, restored.value);
        }
        canvas := PutImageData(canvas, restored.value);
      }
    }

    /** `handleRedo`: with a snapshot above the cursor it is pasted into the
        canvas at (0, 0); otherwise nothing changes. */
    method Redo()
      requires Valid()
      modifies this, history
      ensures Valid()
      ensures history.State() == Redone(old(history.State())).0
      ensures canvas == match Redone(old(history.State())).1
                        case Some(p) => PutImageData(old(canvas), p)
                        case None => old(canvas)
    {
      var restored := history.Redo();
      if restored.Some? {
        if restored.value.width == canvas.width && restored.value.height == canvas.height {
          PutSameSizeIsSnapshot(canvas, restored.value);
        }
        canvas := PutImageData(canvas, restored.value);
      }
    }
  }

  /** Committing an edit and undoing it hands back the snapshot from before
      the edit, even when the history was full and lost its oldest snapshot;
      when the edit kept the canvas's size, the canvas shows that snapshot
      again. */
  lemma CommitThenUndoRestores(h: Log<ImageData>, before: ImageData, drawn: ImageData)
    requires WellFormed(h, MaxHistory) && h.step >= 0 && h.entries[h.step] == before
    ensures Undone(PushedAdvanced(h, drawn, MaxHistory)).1 == Some(before)
    ensures drawn.width == before.width && drawn.height == before.height ==>
              PutImageData(drawn, before) == before
  {
    UndoAfterPush(h, drawn, MaxHistory);
    if drawn.width == before.width && drawn.height == before.height {
      PutSameSizeIsSnapshot(drawn, before);
    }
  }

  /** As written, undo after a resize does not bring the picture back: the
      canvas keeps the resized dimensions and shows the old snapshot's
      top-left corner, clipped or padded with the resized picture. */
  lemma UndoAfterResizeKeepsSize(h: Log<ImageData>, before: ImageData, drawn: ImageData)
    requires WellFormed(h, MaxHistory) && h.step >= 0 && h.entries[h.step] == before
    requires drawn.width != before.width || drawn.height != before.height
    ensures var shown := PutImageData(drawn, Undone(PushedAdvanced(h, drawn, MaxHistory)).1.value);
            && shown.width == drawn.width && shown.height == drawn.height
            && shown != before
  {
    UndoAfterPush(h, drawn, MaxHistory);
  }

  /** The evident intent: size the canvas to the snapshot (which clears it)
      before pasting the snapshot back. */
  function RestoreIntended(canvas: ImageData, img: ImageData): (r: ImageData)
  {
    PutImageData(Picture(img.width, img.height, seq(4 * img.width * img.height, _ => 0)), img)
  }

  /** With the intended restore, undo after any edit, a resize included,
      shows exactly the picture from before the edit. */
  lemma IntendedUndoRestores(h: Log<ImageData>, before: ImageData, drawn: ImageData)
    requires WellFormed(h, MaxHistory) && h.step >= 0 && h.entries[h.step] == before
    ensures RestoreIntended(drawn, Undone(PushedAdvanced(h, drawn, MaxHistory)).1.value) == before
  {
    UndoAfterPush(h, drawn, MaxHistory);
    PutSameSizeIsSnapshot(Picture(before.width, before.height, seq(4 * before.width * before.height, _ => 0)), before);
  }

  // ---------------------------------------------------------------------
  // Target-size export quality.

  /** One step of the bisection: try the midpoint; a file that is too big
      lowers the upper end, one that fits raises the lower end and becomes
      the best quality so far. */
  datatype Search = Search(lo: real, hi: real, best: real)

  /** `min = 0.01`, `max = 1.0`, `bestQuality = 0.8`. */
  const Start := Search(0.01, 1.0, 0.8)

  /** The loop's fixed iteration count. */
  const Steps: nat := 8

  function Step(size: real -> real, target: real, s: Search): Search
  {
    var mid := (s.lo + s.hi) / 2.0;
    if size(mid) > target then Search(s.lo, mid, s.best) else Search(mid, s.hi, mid)
  }

  function Bisection(size: real -> real, target: real, s: Search, n: nat): Search
    decreases n
  {
    if n == 0 then s else Bisection(size, target, Step(size, target, s), n - 1)
  }

  /** 2 to the power -n. */
  function Halving(n: nat): (r: real)
    ensures r > 0.0
  {
    if n == 0 then 1.0 else Halving(n - 1) / 2.0
  }

  lemma HalvingSteps()
    ensures Halving(Steps) == 1.0 / 256.0
  {
  }

  /** What holds of the search interval throughout: it has shrunk from
      0.01..1.0 by one half per step; its lower end is still 0.01 with the
      best quality at the default 0.8, or is a tested quality whose file
      fits and is the best one; its upper end is still 1.0 or a tested
      quality whose file is too big. */
  ghost predicate Bracket(size: real -> real, target: real, s: Search, n: nat)
  {
    && 0.01 <= s.lo < s.hi <= 1.0
    && s.hi - s.lo == 0.99 * Halving(n)
    && ((s.lo == 0.01 && s.best == 0.8) || (0.01 < s.lo && s.best == s.lo && size(s.lo) <= target))
    && (s.hi == 1.0 || size(s.hi) > target)
  }

  lemma {:induction false} BisectionBrackets(size: real -> real, target: real, s: Search, done: nat, n: nat)
    requires Bracket(size, target, s, done)
    ensures Bracket(size, target, Bisection(size, target, s, n), done + n)
    decreases n
  {
    if n > 0 {
      var t := Step(size, target, s);
      assert t.hi - t.lo == (s.hi - s.lo) / 2.0;
      assert Bracket(size, target, t, done + 1);
      BisectionBrackets(size, target, t, done + 1, n - 1);
    }
  }

  /** The eight-step loop of `calculateAutoQuality` for a target of
      `target` bytes, where `size(q)` is the byte size of the canvas encoded
      at quality `q`, estimated from the length of the data URL. */
  method AutoQuality(size: real -> real, target: real) returns (quality: real)
    ensures quality == Bisection(size, target, Start, Steps).best
  {
    quality := Bisect(size, target, 0.01, 1.0, 0.8, Steps);
  }

  /** The loop itself, from the bounds `min`..`max` and `bestQuality` for
      `steps` iterations. */
  method Bisect(size: real -> real, target: real, min0: real, max0: real, best0: real, steps: nat)
    returns (quality: real)
    ensures quality == Bisection(size, target, Search(min0, max0, best0), steps).best
  {
    var min, max, bestQuality := min0, max0, best0;
    for i := 0 to steps
      invariant Bisection(size, target, Search(min, max, bestQuality), steps - i)
                == Bisection(size, target, Search(min0, max0, best0), steps)
    {
      var mid := (min + max) / 2.0;
      if size(mid) > target {
        max := mid;
      } else {
        min := mid;
        bestQuality := mid;
      }
    }
    quality := bestQuality;
  }

  /** After `n` steps from the start the quality settled on is the default
      0.8 or a tested quality whose file fits; the interval is 0.99 * 2^-n
      wide (0.99/256 after the source's 8 steps, by `HalvingSteps`) and its
      upper end is still 1.0 or a quality whose file is too big. */
  lemma AutoQualityMeetsTarget(size: real -> real, target: real, n: nat)
    ensures var s := Bisection(size, target, Start, n);
            && (s.best == 0.8 || (0.01 < s.best < 1.0 && size(s.best) <= target))
            && s.hi - s.lo == 0.99 * Halving(n)
            && (s.hi == 1.0 || size(s.hi) > target)
  {
    assert Bracket(size, target, Start, 0);
    BisectionBrackets(size, target, Start, 0, n);
  }

  ghost predicate Monotone(size: real -> real)
  {
    forall a: real, b: real :: a <= b ==> size(a) <= size(b)
  }

  /** When the file grows with the quality and some tested quality fits,
      no quality more than the final interval's width above the chosen one
      fits: the search finds the highest fitting quality up to its
      resolution. */
  lemma MonotoneSearchIsClose(size: real -> real, target: real, n: nat, q: real)
    requires Monotone(size)
    requires var s := Bisection(size, target, Start, n);
             s.best != 0.8 && s.best + 0.99 * Halving(n) < q <= 1.0
    ensures size(q) > target
  {
    var s := Bisection(size, target, Start, n);
    assert Bracket(size, target, Start, 0);
    BisectionBrackets(size, target, Start, 0, n);
    assert s.best == s.lo;
    assert s.hi < q;
    assert s.hi != 1.0;
  }

  /** When every quality is too big, no step changes the best quality. */
  lemma {:induction false} NothingFitsKeepsBest(size: real -> real, target: real, s: Search, n: nat)
    requires forall q: real :: size(q) > target
    ensures Bisection(size, target, s, n).best == s.best
    decreases n
  {
    if n > 0 {
      NothingFitsKeepsBest(size, target, Step(size, target, s), n - 1);
    }
  }

  /** Hence when even the lowest tested quality is too big the search keeps
      the default 0.8: the export quality then is not the smallest one
      tried. */
  lemma NothingFitsKeepsDefault(size: real -> real, target: real, n: nat)
    requires forall q: real :: size(q) > target
    ensures Bisection(size, target, Start, n).best == 0.8
  {
    NothingFitsKeepsBest(size, target, Start, n);
  }

  /** `calculateAutoQuality`: without a target size, or with a target of no
      bytes, nothing is computed; otherwise the quality of the bisection. */
  method CalculateAutoQuality(size: real -> real, targetSize: real, unit: string) returns (quality: Option<real>)
    ensures quality.None? <==> targetSize == 0.0 || TargetBytes(targetSize, unit) <= 0.0
    ensures quality.Some? ==> quality.value == Bisection(size, TargetBytes(targetSize, unit), Start, Steps).best
  {
    if targetSize == 0.0 {
      return None;
    }
    var targetBytes := TargetBytes(targetSize, unit);
    if targetBytes <= 0.0 {
      return None;
    }
    var q := AutoQuality(size, targetBytes);
    return Some(q);
  }

  /** The estimate shown after the search: gigabytes or megabytes when the
      size exceeds one of them, kilobytes otherwise. */
  function DisplayUnit(bytes: real): (r: (string, real))
    ensures r.0 == "GB" <==> bytes > 1073741824.0
    ensures r.0 == "MB" <==> 1048576.0 < bytes <= 1073741824.0
    ensures r.0 == "KB" <==> bytes <= 1048576.0
    ensures r.0 != "KB" ==> r.1 > 1.0
  {
    if bytes > 1073741824.0 then ("GB", bytes / 1073741824.0)
    else if bytes > 1048576.0 then ("MB", bytes / 1048576.0)
    else ("KB", bytes / 1024.0)
  }
}
