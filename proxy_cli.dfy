/**
 * The `proxy` command line: laying card images out on a grid, cutting a list of images into
 * pages of such grids, and reading the arguments of the redaction command.
 * Images are named by their paths; what is drawn is recorded as paste operations.
 */
module ProxyCli {
  import opened Wrappers
  import opened Text
  import opened PosixPath

  /** The size of one card image in pixels. */
  const CardPixelWidth := 1040
  const CardPixelHeight := 745

  datatype ProxyError =
    | ZeroDivision  // `%`, `//` or `/` by a zero grid dimension or page size
    | InvalidSize   // `Image.new` refuses a negative width or height
    | FileNotFound(path: string)  // `os.makedirs` refuses the output directory

  /** One `grid.paste` of an image at an offset. */
  datatype Paste = Paste(image: string, x: int, y: int)

  /** A new grid image of `width` x `height` pixels and what was pasted on it, in order. */
  datatype Grid = Grid(width: int, height: int, pastes: seq<Paste>)

  // ---------------------------------------------------------------------------------------------
  // arrange_images

  /** The pixel offset of tile `i` on a grid `width` tiles wide: row by row, left to right. */
  function TileOffset(i: nat, width: nat): (int, int)
    requires width > 0
  {
    ((i % width) * CardPixelWidth, (i / width) * CardPixelHeight)
  }

  /** The grid `arrange_images` builds once the sizes are valid. */
  function ArrangeGrid(images: seq<string>, width: nat, height: nat): (g: Grid)
    requires width > 0
    ensures g.width == width * CardPixelWidth && g.height == height * CardPixelHeight
    ensures |g.pastes| == |images|
    ensures forall i :: 0 <= i < |images| ==> g.pastes[i].image == images[i]
  {
    Grid(width * CardPixelWidth, height * CardPixelHeight,
         seq(|images|, i requires 0 <= i < |images| =>
           Paste(images[i], TileOffset(i, width).0, TileOffset(i, width).1)))
  }

  /** `arrange_images`: a negative size fails in `Image.new`, a zero width fails at the first `%`
      (an empty list pastes nothing and succeeds); otherwise image `i` goes to tile `i`. */
  function ArrangeImages(images: seq<string>, width: int, height: int): (r: Result<Grid, ProxyError>)
    ensures r.Failure? <==> width < 0 || height < 0 || (width == 0 && images != [])
    ensures r.Failure? ==> r.error == (if width < 0 || height < 0 then InvalidSize else ZeroDivision)
  {
    if width < 0 || height < 0 then Failure(InvalidSize)
    else if width == 0 then (if images == [] then Success(Grid(0, height * CardPixelHeight, [])) else Failure(ZeroDivision))
    else Success(ArrangeGrid(images, width, height))
  }

  /** Image `i` is pasted at column `i mod width` and row `i div width`. */
  lemma ArrangedOffsets(images: seq<string>, width: int, height: int, i: nat)
    requires width > 0 && height >= 0 && i < |images|
    ensures ArrangeImages(images, width, height).Success?
    ensures ArrangeImages(images, width, height).value.pastes[i]
         == Paste(images[i], (i % width) * 1040, (i / width) * 745)
  {
  }

  /** On a grid with room for `i`, tile `i` lies wholly inside the grid. */
  lemma TileInsideGrid(i: nat, width: nat, height: nat)
    requires width > 0 && i < width * height
    ensures var (x, y) := TileOffset(i, width);
      0 <= x && x + CardPixelWidth <= width * CardPixelWidth && 0 <= y && y + CardPixelHeight <= height * CardPixelHeight
  {
    var row := i / width;
    var col := i % width;
    assert i == row * width + col;
    assert row * width < height * width;
    assert row < height;
    assert (row + 1) * CardPixelHeight <= height * CardPixelHeight;
    assert (col + 1) * CardPixelWidth <= width * CardPixelWidth;
  }

  /** Different tiles get different offsets. */
  lemma TileOffsetsDistinct(i: nat, j: nat, width: nat)
    requires width > 0 && i != j
    ensures TileOffset(i, width) != TileOffset(j, width)
  {
    assert i == (i / width) * width + i % width;
    assert j == (j / width) * width + j % width;
  }

  // ---------------------------------------------------------------------------------------------
  // stitch_images: pages

  /** The images cut into consecutive pages of `n`; the last page holds what is left over. */
  function Chunks(s: seq<string>, n: nat): (pages: seq<seq<string>>)
    requires n > 0
    ensures pages == [] <==> s == []
    decreases |s|
  {
    if s == [] then [] else if |s| <= n then [s] else [s[..n]] + Chunks(s[n..], n)
  }

  function Flatten(pages: seq<seq<string>>): seq<string>
    decreases |pages|
  {
    if pages == [] then [] else pages[0] + Flatten(pages[1..])
  }

  /** The pages put back together give the images in their order. */
  lemma {:induction false} ChunksFlatten(s: seq<string>, n: nat)
    requires n > 0
    ensures Flatten(Chunks(s, n)) == s
    decreases |s|
  {
    if |s| > n {
      ChunksFlatten(s[n..], n);
      assert Chunks(s, n)[1..] == Chunks(s[n..], n);
      assert s[..n] + s[n..] == s;
    } else if s != [] {
      assert Chunks(s, n)[1..] == [];
      assert s + [] == s;
    }
  }

  /** Every page is full except the last, which holds between one and `n` images. */
  lemma {:induction false} ChunksSizes(s: seq<string>, n: nat)
    requires n > 0
    ensures var pages := Chunks(s, n);
      && (forall k :: 0 <= k < |pages| - 1 ==> |pages[k]| == n)
      && (pages != [] ==> 1 <= |pages[|pages| - 1]| <= n)
    decreases |s|
  {
    if |s| > n {
      ChunksSizes(s[n..], n);
      var rest := Chunks(s[n..], n);
      assert Chunks(s, n) == [s[..n]] + rest;
      assert rest != [] by { assert s[n..] != []; }
    }
  }

  /** There are `ceil(|s| / n)` pages: the fewest pages of `n` that hold every image, none when there
      are no images. */
  lemma {:induction false} ChunksCount(s: seq<string>, n: nat)
    requires n > 0
    ensures var c := |Chunks(s, n)|; (c == 0 <==> s == []) && (c > 0 ==> (c - 1) * n < |s| <= c * n)
    decreases |s|
  {
    if |s| > n {
      ChunksCount(s[n..], n);
      var c := |Chunks(s[n..], n)|;
      assert |Chunks(s, n)| == c + 1;
      assert (c + 1) * n == c * n + n && (c - 1) * n + n == c * n;
    }
  }

  /** `p` cuts into full pages of `n`, with nothing left over. */
  predicate WholePages(p: seq<string>, n: nat)
    requires n > 0
    decreases |p|
  {
    p == [] || (|p| >= n && WholePages(p[n..], n))
  }

  /** A further full page keeps the cut whole. */
  lemma {:induction false} WholePagesAppend(p: seq<string>, c: seq<string>, n: nat)
    requires n > 0 && WholePages(p, n) && |c| == n
    ensures WholePages(p + c, n)
    decreases |p|
  {
    if p == [] {
      assert p + c == c && c[n..] == [];
    } else {
      assert (p + c)[n..] == p[n..] + c;
      WholePagesAppend(p[n..], c, n);
    }
  }

  /** Adding a page after full pages adds that page at the end. */
  lemma {:induction false} ChunksAppend(p: seq<string>, c: seq<string>, n: nat)
    requires n > 0 && WholePages(p, n) && 1 <= |c| <= n
    ensures Chunks(p + c, n) == Chunks(p, n) + [c]
    decreases |p|
  {
    if p == [] {
      assert p + c == c;
    } else {
      assert (p + c)[..n] == p[..n];
      assert (p + c)[n..] == p[n..] + c;
      ChunksAppend(p[n..], c, n);
      if |p| == n {
        assert Chunks(p, n) == [p];
        assert p[n..] == [];
      }
    }
  }

  /** `grid_filename`: `_grid{width}x{height}_{k}.png` in the output directory. */
  function PageName(output: string, width: int, height: int, k: nat): string {
    PathJoin(output, "_grid" + IntToDecimal(width) + "x" + IntToDecimal(height) + "_" + NatToDecimal(k) + ".png")
  }

  /** Different page numbers give different files. */
  lemma PageNamesDistinct(output: string, width: int, height: int, k1: nat, k2: nat)
    ensures PageName(output, width, height, k1) == PageName(output, width, height, k2) <==> k1 == k2
  {
    var stem := "_grid" + IntToDecimal(width) + "x" + IntToDecimal(height) + "_";
    var f1 := stem + NatToDecimal(k1) + ".png";
    var f2 := stem + NatToDecimal(k2) + ".png";
    assert f1[0] == '_' && f2[0] == '_';
    PathJoinInjective(output, f1, f2);
    if f1 == f2 {
      var d1 := NatToDecimal(k1);
      var d2 := NatToDecimal(k2);
      assert |d1| == |d2|;
      assert d1 == f1[|stem|..|stem| + |d1|];
      assert d2 == f2[|stem|..|stem| + |d2|];
      NatToDecimalInjective(k1, k2);
    }
  }

  /** One saved page: its file and the grid drawn into it. */
  datatype Page = Page(file: string, grid: Grid)

  /** The saved pages for the given cut, numbered from 1. */
  function PagesOf(output: string, width: nat, height: nat, chunks: seq<seq<string>>): (pages: seq<Page>)
    requires width > 0
    ensures |pages| == |chunks|
    ensures forall k :: 0 <= k < |chunks| ==>
      pages[k] == Page(PageName(output, width, height, k + 1), ArrangeGrid(chunks[k], width, height))
  {
    seq(|chunks|, k requires 0 <= k < |chunks| =>
      Page(PageName(output, width, height, k + 1), ArrangeGrid(chunks[k], width, height)))
  }

  /** What `stitch_images` does: `os.makedirs` refuses an empty output path before anything else; then
      the page count divides by `width * height`, so a zero size fails even without images; no images
      give no pages; a negative size fails at the first grid; otherwise the pages of `width * height`
      images, numbered from 1. */
  function StitchSpec(output: string, images: seq<string>, width: int, height: int): (r: Result<seq<Page>, ProxyError>)
    ensures r == Failure(FileNotFound(output)) <==> MakeDirs({}, output).Failure?
    ensures r == Failure(ZeroDivision) <==> output != "" && width * height == 0
    ensures r.Success? && r.value != [] ==> output != "" && width > 0 && height > 0 && images != []
  {
    if output == "" then Failure(FileNotFound(output))
    else if width * height == 0 then Failure(ZeroDivision)
    else if images == [] then Success([])
    else if width < 0 || height < 0 then Failure(InvalidSize)
    else Success(PagesOf(output, width, height, Chunks(images, width * height)))
  }

  /** The state of the loop of `stitch_images`: the pages saved so far and the images collected for the
      next page, or the error that ended it. */
  datatype Stitching = Collecting(pages: seq<Page>, cards: seq<string>) | Stopped(error: ProxyError)

  /** One turn of the loop: collect the image, and once the page is full arrange it, save it and start
      a new one. */
  function StitchTurn(output: string, width: int, height: int, st: Stitching, image: string): Stitching {
    match st
    case Stopped(_) => st
    case Collecting(pages, cards) =>
      var next := cards + [image];
      if |next| >= width * height then
        match ArrangeImages(next, width, height)
        case Failure(e) => Stopped(e)
        case Success(g) => Collecting(pages + [Page(PageName(output, width, height, |pages| + 1), g)], [])
      else Collecting(pages, next)
  }

  /** The loop run over `images`. */
  function StitchLoop(output: string, images: seq<string>, width: int, height: int): Stitching
    decreases |images|
  {
    if images == [] then Collecting([], [])
    else StitchTurn(output, width, height, StitchLoop(output, images[..|images| - 1], width, height), images[|images| - 1])
  }

  /** After the loop, images left over make a last page. */
  function StitchEnd(output: string, width: int, height: int, st: Stitching): Result<seq<Page>, ProxyError> {
    match st
    case Stopped(e) => Failure(e)
    case Collecting(pages, cards) =>
      if cards == [] then Success(pages)
      else match ArrangeImages(cards, width, height)
        case Failure(e) => Failure(e)
        case Success(g) => Success(pages + [Page(PageName(output, width, height, |pages| + 1), g)])
  }

  /** The second `stitch_images`: collects images until a page is full, saves it, and saves what is
      left over as a last page. */
  method StitchImages(output: string, images: seq<string>, width: int, height: int)
    returns (r: Result<seq<Page>, ProxyError>)
    ensures r == StitchSpec(output, images, width, height)
  {
    if output == "" {
      return Failure(FileNotFound(output));
    }
    if width * height == 0 {
      return Failure(ZeroDivision);
    }
    var perPage := width * height;
    var cards: seq<string> := [];
    var pages: seq<Page> := [];
    var pageCount := 0;
    for i := 0 to |images|
      invariant pageCount == |pages|
      invariant StitchLoop(output, images[..i], width, height) == Collecting(pages, cards)
    {
      StitchLoopNext(output, images, width, height, i);
      cards := cards + [images[i]];
      if |cards| >= perPage {
        var grid := ArrangeImages(cards, width, height);
        if grid.Failure? {
          StitchStopped(output, images, width, height, i + 1);
          return Failure(grid.error);
        }
        pageCount := pageCount + 1;
        pages := pages + [Page(PageName(output, width, height, pageCount), grid.value)];
        cards := [];
      }
    }
    assert images[..|images|] == images;
    StitchMeetsSpec(output, images, width, height);
    if cards != [] {
      var grid := ArrangeImages(cards, width, height);
      if grid.Failure? {
        return Failure(grid.error);
      }
      pageCount := pageCount + 1;
      pages := pages + [Page(PageName(output, width, height, pageCount), grid.value)];
    }
    return Success(pages);
  }

  /** The loop over one more image is one more turn. */
  lemma StitchLoopNext(output: string, images: seq<string>, width: int, height: int, i: nat)
    requires i < |images|
    ensures StitchLoop(output, images[..i + 1], width, height)
         == StitchTurn(output, width, height, StitchLoop(output, images[..i], width, height), images[i])
  {
    assert images[..i + 1][..i] == images[..i];
  }

  /** Once the loop has stopped on an error, it ends with that error. */
  lemma {:induction false} StitchStopped(output: string, images: seq<string>, width: int, height: int, i: nat)
    requires output != "" && width * height != 0 && i <= |images| && StitchLoop(output, images[..i], width, height).Stopped?
    ensures StitchSpec(output, images, width, height) == Failure(StitchLoop(output, images[..i], width, height).error)
    decreases |images| - i
  {
    if i == |images| {
      assert images[..i] == images;
      StitchMeetsSpec(output, images, width, height);
    } else {
      assert images[..i + 1][..i] == images[..i];
      StitchStopped(output, images, width, height, i + 1);
    }
  }

  /** What the loop holds after `images` with valid sizes: the full pages of a whole prefix are saved and
      the rest, fewer than a page, is collected. */
  predicate Collected(output: string, images: seq<string>, width: nat, height: nat, st: Stitching)
    requires width > 0 && height > 0
  {
    && st.Collecting? && |st.cards| < width * height && |st.cards| <= |images|
    && st.cards == images[|images| - |st.cards|..]
    && WholePages(images[..|images| - |st.cards|], width * height)
    && st.pages == PagesOf(output, width, height, Chunks(images[..|images| - |st.cards|], width * height))
  }

  lemma {:induction false} StitchLoopValid(output: string, images: seq<string>, width: nat, height: nat)
    requires width > 0 && height > 0
    ensures Collected(output, images, width, height, StitchLoop(output, images, width, height))
    decreases |images|
  {
    if images != [] {
      var init := images[..|images| - 1];
      var x := images[|images| - 1];
      StitchLoopValid(output, init, width, height);
      CollectedTurnAt(output, images, width, height, StitchLoop(output, init, width, height));
    }
  }

  lemma CollectedTurnAt(output: string, images: seq<string>, width: nat, height: nat, st: Stitching)
    requires width > 0 && height > 0 && images != []
    requires Collected(output, images[..|images| - 1], width, height, st)
    ensures Collected(output, images, width, height, StitchTurn(output, width, height, st, images[|images| - 1]))
  {
    var x := images[|images| - 1];
    ButLastAppend(images);
    CollectedTurn(output, images[..|images| - 1], width, height, st, x);
  }

  lemma ButLastAppend(s: seq<string>)
    requires s != []
    ensures s[..|s| - 1] + [s[|s| - 1]] == s
  {
  }

  /** One turn of the loop keeps its invariant. */
  lemma CollectedTurn(output: string, seen: seq<string>, width: nat, height: nat, st: Stitching, x: string)
    requires width > 0 && height > 0 && Collected(output, seen, width, height, st)
    ensures Collected(output, seen + [x], width, height, StitchTurn(output, width, height, st, x))
  {
    var k := |seen| - |st.cards|;
    AppendSlices(seen, x, k);
    if |st.cards| + 1 >= width * height {
      CollectedTurnFull(output, seen, width, height, st, x);
    } else {
      TurnCollect(output, width, height, st.pages, st.cards, x);
      var images := seen + [x];
      assert |images| - |st.cards + [x]| == k;
    }
  }

  /** The slices of `s + [x]` around `k`. */
  lemma AppendSlices(s: seq<string>, x: string, k: nat)
    requires k <= |s|
    ensures (s + [x])[..k] == s[..k] && (s + [x])[k..] == s[k..] + [x]
  {
  }

  /** A turn that fills the page saves it and starts an empty one. */
  lemma CollectedTurnFull(output: string, seen: seq<string>, width: nat, height: nat, st: Stitching, x: string)
    requires width > 0 && height > 0 && Collected(output, seen, width, height, st)
    requires |st.cards| + 1 >= width * height
    ensures Collected(output, seen + [x], width, height, StitchTurn(output, width, height, st, x))
  {
    var n := width * height;
    var images := seen + [x];
    var k := |seen| - |st.cards|;
    var next := st.cards + [x];
    AppendSlices(seen, x, k);
    assert |images| - |next| == k;
    TurnFull(output, width, height, st.pages, st.cards, x);
    StitchStep(output, images, width, height, k, |images|, st.pages);
    WholePagesAppend(images[..k], next, n);
    Reattach(seen, st.cards, x, k);
    CollectedFull(output, images, width, height,
      Collecting(st.pages + [Page(PageName(output, width, height, |st.pages| + 1), ArrangeGrid(next, width, height))], []));
  }

  /** Putting the tail back, with the new image at its end, gives the whole sequence. */
  lemma Reattach(seen: seq<string>, cards: seq<string>, x: string, k: nat)
    requires k <= |seen| && cards == seen[k..]
    ensures (seen + [x])[..k] + (cards + [x]) == (seen + [x])[..|seen| + 1]
  {
    assert (seen + [x])[..|seen| + 1] == seen + [x];
    assert seen[..k] + seen[k..] == seen;
  }

  lemma TurnFull(output: string, width: nat, height: nat, pages: seq<Page>, cards: seq<string>, x: string)
    requires width > 0 && height > 0 && |cards| + 1 >= width * height
    ensures StitchTurn(output, width, height, Collecting(pages, cards), x)
         == Collecting(pages + [Page(PageName(output, width, height, |pages| + 1), ArrangeGrid(cards + [x], width, height))], [])
  {
  }

  lemma TurnCollect(output: string, width: nat, height: nat, pages: seq<Page>, cards: seq<string>, x: string)
    requires |cards| + 1 < width * height
    ensures StitchTurn(output, width, height, Collecting(pages, cards), x) == Collecting(pages, cards + [x])
  {
  }

  /** A state with nothing collected and the pages of all of `images` holds the loop invariant. */
  lemma CollectedFull(output: string, images: seq<string>, width: nat, height: nat, st: Stitching)
    requires width > 0 && height > 0 && st.Collecting? && st.cards == []
    requires WholePages(images[..|images|], width * height)
    requires st.pages == PagesOf(output, width, height, Chunks(images[..|images|], width * height))
    ensures Collected(output, images, width, height, st)
  {
    PositiveArea(width, height);
    assert |images| - |st.cards| == |images|;
    assert st.cards == images[|images|..];
  }

  lemma PositiveArea(width: nat, height: nat)
    requires width > 0 && height > 0
    ensures width * height > 0
  {
  }

  /** Without a zero size, a negative size stops the loop at the first page it tries to arrange. */
  lemma {:induction false} StitchLoopInvalid(output: string, images: seq<string>, width: int, height: int)
    requires width * height != 0 && (width < 0 || height < 0)
    ensures var st := StitchLoop(output, images, width, height);
      st == Collecting([], images) || (images != [] && st == Stopped(InvalidSize))
    decreases |images|
  {
    if images != [] {
      var init := images[..|images| - 1];
      StitchLoopInvalid(output, init, width, height);
      assert init + [images[|images| - 1]] == images;
    }
  }

  /** The loop and its last page give the pages of `StitchSpec`. */
  lemma StitchMeetsSpec(output: string, images: seq<string>, width: int, height: int)
    requires output != "" && width * height != 0
    ensures StitchEnd(output, width, height, StitchLoop(output, images, width, height)) == StitchSpec(output, images, width, height)
  {
    if width > 0 && height > 0 {
      StitchLoopValid(output, images, width, height);
      var st := StitchLoop(output, images, width, height);
      if st.cards == [] {
        assert images[..|images|] == images;
      } else {
        var k := |images| - |st.cards|;
        StitchStep(output, images, width, height, k, |images|, st.pages);
        assert images[k..|images|] == st.cards && images[..|images|] == images;
      }
    } else {
      StitchLoopInvalid(output, images, width, height);
    }
  }

  /** Saving the page `images[start..end]` after the full pages of `images[..start]`. */
  lemma StitchStep(output: string, images: seq<string>, width: int, height: int, start: nat, end: nat,
                   before: seq<Page>)
    requires width > 0 && height > 0 && start < end <= |images| && end - start <= width * height
    requires WholePages(images[..start], width * height)
    requires before == PagesOf(output, width, height, Chunks(images[..start], width * height))
    ensures before + [Page(PageName(output, width, height, |before| + 1), ArrangeGrid(images[start..end], width, height))]
         == PagesOf(output, width, height, Chunks(images[..end], width * height))
  {
    var n := width * height;
    SliceConcat(images, start, end);
    ChunksAppend(images[..start], images[start..end], n);
    PagesAppend(output, width, height, Chunks(images[..start], n), images[start..end]);
  }

  lemma SliceConcat(s: seq<string>, i: nat, j: nat)
    requires i <= j <= |s|
    ensures s[..i] + s[i..j] == s[..j]
  {
  }

  /** One more chunk adds one more numbered page at the end. */
  lemma PagesAppend(output: string, width: nat, height: nat, chunks: seq<seq<string>>, c: seq<string>)
    requires width > 0
    ensures PagesOf(output, width, height, chunks + [c])
         == PagesOf(output, width, height, chunks) + [Page(PageName(output, width, height, |chunks| + 1), ArrangeGrid(c, width, height))]
  {
  }
}
